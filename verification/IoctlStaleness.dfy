/**
 IOCTL answers through both caches (vci_proxy/reverse_server.py, vci_proxy/reverse_client.py): the server
 asks its own before it forwards, the client asks its own before it calls the device, and requests of
 several DLL connections interleave.
 */
module IoctlStaleness {
  import opened Common
  import opened Bytes
  import opened Protocol
  import opened Framing
  import opened IoctlCache

  // ---------------------------------------------------------------- both ends of the tunnel

  /** One successful read of the device, and when the driver returned it. */
  datatype Read = Read(key: Key, input: Payload, at: real, output: Payload)

  datatype Pending =
    | Sent(key: Key, input: Payload, sentAt: real)
    | Answered(key: Key, input: Payload, sentAt: real, at: real, returnCode: U32, output: Payload)

  /** A reply to the DLL: when it was asked for, when the client answered, and when the DLL got it. */
  datatype Served = Served(key: Key, input: Payload, asked: real, answered: real, at: real,
                           returnCode: U32, output: Payload, cached: bool)

  /** `readLog` and `served` are histories; requests of several DLL connections may be pending at once. */
  datatype State = State(server: Cache, client: Cache, now: real, pending: map<nat, Pending>,
                         readLog: set<Read>, served: seq<Served>)

  datatype Event =
    | Wait(time: real)
    | Request(id: nat, key: Key, input: Payload)
    | Answer(id: nat, returnCode: U32, output: Payload)
    | Stray(key: Key, input: Payload, returnCode: U32, output: Payload)
    | Receive(id: nat)
    | Expire(id: nat)
    | ServerDisconnect(channelId: U32)
    | ServerClear
    | ClientClear

  function Initial(serverEnabled: bool, serverTtl: real, clientEnabled: bool, clientTtl: real): State {
    State(Cache(serverEnabled, serverTtl, map[]), Cache(clientEnabled, clientTtl, map[]), 0.0, map[], {}, [])
  }

  /** The driver refuses a malformed input. */
  predicate Sayable(key: Key, input: Payload, returnCode: U32) {
    QuestionOf(key.ioctlId, input).Malformed? ==> returnCode != 0
  }

  predicate Enabled(s: State, e: Event) {
    match e
    case Wait(time) => time >= 0.0
    case Request(id, _, _) => id !in s.pending
    case Answer(id, rc, _) => id in s.pending && s.pending[id].Sent? && Sayable(s.pending[id].key, s.pending[id].input, rc)
    case Stray(key, input, rc, _) => Sayable(key, input, rc)
    case Receive(id) => id in s.pending && s.pending[id].Answered? && s.now - s.pending[id].sentAt <= FUTURE_TIMEOUT
    case _ => true
  }

  /** _handle_ioctl, with the histories: from the client's cache, or from the device. */
  function ClientHandles(s: State, key: Key, input: Payload, returnCode: U32, output: Payload): (State, U32, Payload) {
    var (client, rc, out) := Answering(s.client, key, returnCode, output, s.now, s.now);
    (s.(client := client,
        readLog := if returnCode == 0 && !s.client.Serves(key, s.now)
                   then s.readLog + {Read(key, input, s.now, output)} else s.readLog),
     rc, out)
  }

  function Step(s: State, e: Event): State {
    if !Enabled(s, e) then s
    else
      match e
      case Wait(time) => s.(now := s.now + time)
      case Request(id, key, input) =>
        if s.server.Serves(key, s.now) then
          var hit := s.server.entries[key];
          s.(served := s.served + [Served(key, input, s.now, s.now, s.now, hit.returnCode, Normalize(hit.output), true)])
        else s.(pending := s.pending[id := Sent(key, input, s.now)])
      case Answer(id, rc, output) =>
        var p := s.pending[id];
        var (s', rc', output') := ClientHandles(s, p.key, p.input, rc, output);
        s'.(pending := s.pending[id := Answered(p.key, p.input, p.sentAt, s.now, rc', output')])
      case Stray(key, input, rc, output) => ClientHandles(s, key, input, rc, output).0
      case Receive(id) =>
        var p := s.pending[id];
        s.(server := s.server.Record(p.key, p.returnCode, Normalize(p.output), s.now), pending := s.pending - {id},
           served := s.served + [Served(p.key, p.input, p.sentAt, p.at, s.now, p.returnCode, Normalize(p.output), false)])
      case Expire(id) => s.(pending := s.pending - {id})
      case ServerDisconnect(ch) => s.(server := s.server.InvalidateChannel(ch))
      case ServerClear => s.(server := s.server.Invalidate())
      case ClientClear => s.(client := s.client.Invalidate())
  }

  function Run(s: State, es: seq<Event>): State
    decreases |es|
  {
    if es == [] then s else Run(Step(s, es[0]), es[1..])
  }

  /** How long the cache may go on answering from one entry. */
  function Slack(c: Cache): real {
    Lifetime(c.enabled, c.ttl)
  }

  /** A successful read of this key gave this output between `from` and `to`. */
  ghost predicate Backed(readLog: set<Read>, key: Key, output: Payload, from: real, to: real) {
    exists r <- readLog :: r.key == key && Normalize(r.output) == Normalize(output) && from <= r.at <= to
  }

  ghost predicate ClientBacked(s: State) {
    forall k <- s.client.entries ::
      var e := s.client.entries[k];
      e.returnCode == 0 && Backed(s.readLog, k, e.output, e.at, e.at) && e.at <= s.now
  }

  ghost predicate PendingBacked(s: State) {
    forall id <- s.pending ::
      var p := s.pending[id];
      p.Answered? ==>
        && p.sentAt <= p.at <= s.now
        && (p.returnCode == 0 ==> Backed(s.readLog, p.key, p.output, p.at - Slack(s.client), p.at))
  }

  ghost predicate PendingInPast(s: State) {
    forall id <- s.pending :: s.pending[id].sentAt <= s.now
  }

  ghost predicate ServerBacked(s: State) {
    forall k <- s.server.entries ::
      var e := s.server.entries[k];
      && e.returnCode == 0 && e.at <= s.now && k.ioctlId in CACHEABLE_IDS
      && Backed(s.readLog, k, e.output, e.at - FUTURE_TIMEOUT - Slack(s.client), e.at)
  }

  /** Nothing switches a cache on or off or changes its lifetime. */
  predicate SameSettings(s: State, t: State) {
    && t.server.enabled == s.server.enabled && t.server.ttl == s.server.ttl
    && t.client.enabled == s.client.enabled && t.client.ttl == s.client.ttl
  }

  /**
   The age bound on one thing the DLL was given as a success; what was forwarded for it is no older than
   the request but for the client's cache.
   */
  ghost predicate ServedFromRead(s: State, v: Served) {
    && (v.cached ==> v.returnCode == 0)
    && v.asked <= v.answered <= v.at <= s.now
    && (v.returnCode == 0 && !v.cached ==>
          Backed(s.readLog, v.key, v.output, v.answered - Slack(s.client), v.answered))
    && (v.returnCode == 0 ==>
          Backed(s.readLog, v.key, v.output, v.at - Slack(s.server) - FUTURE_TIMEOUT - Slack(s.client), v.at))
  }

  ghost predicate ServedBacked(s: State) {
    forall v <- s.served :: ServedFromRead(s, v)
  }

  ghost predicate Inv(s: State) {
    ClientBacked(s) && PendingBacked(s) && PendingInPast(s) && ServerBacked(s) && ServedBacked(s)
  }

  lemma BackedLonger(readLog: set<Read>, more: set<Read>, key: Key, output: Payload,
                     from: real, to: real, from': real, to': real)
    requires Backed(readLog, key, output, from, to) && readLog <= more && from' <= from && to <= to'
    ensures Backed(more, key, output, from', to') && Backed(more, key, Normalize(output), from', to')
  {
    var r :| r in readLog && r.key == key && Normalize(r.output) == Normalize(output) && from <= r.at <= to;
    assert r in more;
  }

  /** More reads leave everything backed. */
  lemma MoreReadsKeepInv(s: State, readLog: set<Read>)
    requires Inv(s) && s.readLog <= readLog
    ensures Inv(s.(readLog := readLog))
  {
    var t := s.(readLog := readLog);
    forall k <- t.client.entries
      ensures Backed(readLog, k, t.client.entries[k].output, t.client.entries[k].at, t.client.entries[k].at)
    {
      var e := t.client.entries[k];
      BackedLonger(s.readLog, readLog, k, e.output, e.at, e.at, e.at, e.at);
    }
    forall id | id in t.pending && t.pending[id].Answered? && t.pending[id].returnCode == 0
      ensures var p := t.pending[id]; Backed(readLog, p.key, p.output, p.at - Slack(t.client), p.at)
    {
      var p := t.pending[id];
      BackedLonger(s.readLog, readLog, p.key, p.output, p.at - Slack(s.client), p.at, p.at - Slack(s.client), p.at);
    }
    forall k <- t.server.entries
      ensures var e := t.server.entries[k];
              Backed(readLog, k, e.output, e.at - FUTURE_TIMEOUT - Slack(t.client), e.at)
    {
      var e := t.server.entries[k];
      var from := e.at - FUTURE_TIMEOUT - Slack(t.client);
      BackedLonger(s.readLog, readLog, k, e.output, from, e.at, from, e.at);
    }
    forall v | v in t.served && v.returnCode == 0
      ensures Backed(readLog, v.key, v.output, v.at - Slack(t.server) - FUTURE_TIMEOUT - Slack(t.client), v.at)
    {
      var from := v.at - Slack(t.server) - FUTURE_TIMEOUT - Slack(t.client);
      BackedLonger(s.readLog, readLog, v.key, v.output, from, v.at, from, v.at);
    }
  }

  lemma ClientRecordKeepsInv(s: State, key: Key, output: Payload)
    requires Inv(s) && Backed(s.readLog, key, output, s.now, s.now)
    ensures Inv(s.(client := s.client.Record(key, 0, output, s.now)))
  {
  }

  lemma FreshReadKeepsInv(s: State, key: Key, input: Payload, output: Payload)
    requires Inv(s)
    ensures var readLog := s.readLog + {Read(key, input, s.now, output)};
            && Inv(s.(readLog := readLog, client := s.client.Record(key, 0, output, s.now)))
            && Backed(readLog, key, output, s.now, s.now)
  {
    var r := Read(key, input, s.now, output);
    MoreReadsKeepInv(s, s.readLog + {r});
    assert r in s.readLog + {r};
    ClientRecordKeepsInv(s.(readLog := s.readLog + {r}), key, output);
  }

  lemma ClientHandlesKeepsInv(s: State, key: Key, input: Payload, returnCode: U32, output: Payload)
    requires Inv(s)
    ensures var (s', rc, out) := ClientHandles(s, key, input, returnCode, output);
            && Inv(s') && s'.now == s.now && s'.pending == s.pending && SameSettings(s, s')
            && (rc == 0 ==> Backed(s'.readLog, key, out, s.now - Slack(s.client), s.now))
  {
    if s.client.Serves(key, s.now) {
      var e := s.client.entries[key];
      BackedLonger(s.readLog, s.readLog, key, e.output, e.at, e.at, s.now - Slack(s.client), s.now);
    } else if returnCode == 0 {
      FreshReadKeepsInv(s, key, input, output);
      var readLog := s.readLog + {Read(key, input, s.now, output)};
      BackedLonger(readLog, readLog, key, output, s.now, s.now, s.now - Slack(s.client), s.now);
    }
  }

  lemma AnswerKeepsInv(s: State, e: Event)
    requires Inv(s) && e.Answer? && Enabled(s, e)
    ensures Inv(Step(s, e))
  {
    var p := s.pending[e.id];
    ClientHandlesKeepsInv(s, p.key, p.input, e.returnCode, e.output);
  }

  lemma ServingKeepsInv(s: State, v: Served)
    requires Inv(s) && ServedFromRead(s, v)
    ensures Inv(s.(served := s.served + [v]))
  {
  }

  lemma RequestKeepsInv(s: State, e: Event)
    requires Inv(s) && e.Request? && Enabled(s, e)
    ensures Inv(Step(s, e))
  {
    if s.server.Serves(e.key, s.now) {
      var hit := s.server.entries[e.key];
      var slack := FUTURE_TIMEOUT + Slack(s.client);
      BackedLonger(s.readLog, s.readLog, e.key, hit.output,
                   hit.at - slack, hit.at, s.now - Slack(s.server) - slack, s.now);
      ServingKeepsInv(s, Served(e.key, e.input, s.now, s.now, s.now, hit.returnCode, Normalize(hit.output), true));
    }
  }

  lemma ReceiveKeepsInv(s: State, e: Event)
    requires Inv(s) && e.Receive? && Enabled(s, e)
    ensures Inv(Step(s, e))
  {
    var p := s.pending[e.id];
    var from := s.now - FUTURE_TIMEOUT - Slack(s.client);
    if p.returnCode == 0 {
      BackedLonger(s.readLog, s.readLog, p.key, p.output, p.at - Slack(s.client), p.at, from, s.now);
      BackedLonger(s.readLog, s.readLog, p.key, p.output, p.at - Slack(s.client), p.at,
                   from - Slack(s.server), s.now);
    }
    var s' := s.(server := s.server.Record(p.key, p.returnCode, Normalize(p.output), s.now),
                 pending := s.pending - {e.id});
    assert Inv(s');
    ServingKeepsInv(s', Served(p.key, p.input, p.sentAt, p.at, s.now, p.returnCode, Normalize(p.output), false));
  }

  lemma StepKeepsInv(s: State, e: Event)
    requires Inv(s)
    ensures Inv(Step(s, e))
    ensures SameSettings(s, Step(s, e))
  {
    if Enabled(s, e) {
      match e
      case Request(_, _, _) => RequestKeepsInv(s, e);
      case Answer(_, _, _) => AnswerKeepsInv(s, e);
      case Stray(key, input, rc, output) => ClientHandlesKeepsInv(s, key, input, rc, output);
      case Receive(_) => ReceiveKeepsInv(s, e);
      case _ =>
    }
  }

  lemma {:induction false} RunKeepsInv(s: State, es: seq<Event>)
    requires Inv(s)
    ensures Inv(Run(s, es)) && SameSettings(s, Run(s, es))
    decreases |es|
  {
    if es != [] {
      StepKeepsInv(s, es[0]);
      RunKeepsInv(Step(s, es[0]), es[1..]);
    }
  }

  /**
   Whatever the interleaving, every success the DLL is given was a successful device read of that key
   at most the two TTLs and the server's waiting time ago; only successes come from the server's cache.
   */
  lemma StalenessBound(serverEnabled: bool, serverTtl: real, clientEnabled: bool, clientTtl: real,
                       es: seq<Event>, v: Served)
    requires v in Run(Initial(serverEnabled, serverTtl, clientEnabled, clientTtl), es).served
    ensures v.cached ==> v.returnCode == 0
    ensures v.returnCode == 0 ==>
              Backed(Run(Initial(serverEnabled, serverTtl, clientEnabled, clientTtl), es).readLog, v.key, v.output,
                     v.at - Lifetime(serverEnabled, serverTtl) - FUTURE_TIMEOUT - Lifetime(clientEnabled, clientTtl), v.at)
  {
    RunKeepsInv(Initial(serverEnabled, serverTtl, clientEnabled, clientTtl), es);
  }

  predicate Receives(s: State, e: Event, key: Key) {
    e.Receive? && Enabled(s, e) && s.pending[e.id].key == key
  }

  predicate NeverReceives(s: State, es: seq<Event>, key: Key)
    decreases |es|
  {
    es == [] || (!Receives(s, es[0], key) && NeverReceives(Step(s, es[0]), es[1..], key))
  }

  /** After an invalidation the server serves a key only from an answer received since. */
  lemma {:induction false} NoHitWithoutNewAnswer(s: State, es: seq<Event>, key: Key)
    requires key !in s.server.entries && NeverReceives(s, es, key)
    ensures key !in Run(s, es).server.entries && !Run(s, es).server.Serves(key, Run(s, es).now)
    decreases |es|
  {
    if es != [] {
      NoHitWithoutNewAnswer(Step(s, es[0]), es[1..], key);
    }
  }

  lemma InvalidationForgets(s: State, es: seq<Event>, key: Key)
    requires NeverReceives(Step(s, ServerDisconnect(key.channelId)), es, key)
    ensures var t := Run(Step(s, ServerDisconnect(key.channelId)), es);
            !t.server.Serves(key, t.now)
  {
    NoHitWithoutNewAnswer(Step(s, ServerDisconnect(key.channelId)), es, key);
  }

  // ---------------------------------------------------------------- a completed Disconnect

  /** Neither end holds an answer for the channel, and none is on its way to the server. */
  ghost predicate Cleared(s: State, ch: U32) {
    && (forall k <- s.server.entries :: k.channelId != ch)
    && (forall k <- s.client.entries :: k.channelId != ch)
    && (forall id <- s.pending :: s.pending[id].key.channelId == ch ==> s.pending[id].Sent?)
  }

  predicate ReceivesOn(s: State, e: Event, ch: U32) {
    e.Receive? && Enabled(s, e) && s.pending[e.id].key.channelId == ch
  }

  predicate NeverReceivesOn(s: State, es: seq<Event>, ch: U32)
    decreases |es|
  {
    es == [] || (!ReceivesOn(s, es[0], ch) && NeverReceivesOn(Step(s, es[0]), es[1..], ch))
  }

  lemma {:induction false} ServerStaysClear(s: State, es: seq<Event>, ch: U32)
    requires NeverReceivesOn(s, es, ch) && forall k <- s.server.entries :: k.channelId != ch
    ensures forall k <- Run(s, es).server.entries :: k.channelId != ch
    decreases |es|
  {
    if es != [] {
      ServerStaysClear(Step(s, es[0]), es[1..], ch);
    }
  }

  /** Forwarding a Disconnect clears the server's entries of the channel, carrying it out all of the client's. */
  lemma DisconnectClears(s: State, es: seq<Event>, ch: U32)
    requires NeverReceivesOn(Step(s, ServerDisconnect(ch)), es, ch)
    requires var t := Run(Step(s, ServerDisconnect(ch)), es);
             forall id <- t.pending :: t.pending[id].key.channelId == ch ==> t.pending[id].Sent?
    ensures Cleared(Step(Run(Step(s, ServerDisconnect(ch)), es), ClientClear), ch)
  {
    ServerStaysClear(Step(s, ServerDisconnect(ch)), es, ch);
  }

  /** All that either end holds or waits for on the channel was read at `since` or later. */
  ghost predicate ReadSince(s: State, ch: U32, since: real, n: nat) {
    && since <= s.now && n <= |s.served|
    && (forall k <- s.client.entries :: k.channelId == ch ==> Backed(s.readLog, k, s.client.entries[k].output, since, s.now))
    && (forall k <- s.server.entries :: k.channelId == ch ==> Backed(s.readLog, k, s.server.entries[k].output, since, s.now))
    && (forall id <- s.pending ::
          var p := s.pending[id];
          p.Answered? && p.returnCode == 0 && p.key.channelId == ch ==> Backed(s.readLog, p.key, p.output, since, s.now))
    && (forall i :: n <= i < |s.served| ==> ServedSince(s, s.served[i], ch, since))
  }

  ghost predicate ServedSince(s: State, v: Served, ch: U32, since: real) {
    v.returnCode == 0 && v.key.channelId == ch ==> Backed(s.readLog, v.key, v.output, since, s.now)
  }

  /** Time and further reads take nothing away. */
  lemma StillBacked(s: State, s': State)
    requires s.readLog <= s'.readLog && s.now <= s'.now
    ensures forall key, output, since :: Backed(s.readLog, key, output, since, s.now) ==>
              Backed(s'.readLog, key, output, since, s'.now) && Backed(s'.readLog, key, Normalize(output), since, s'.now)
  {
    forall key, output, since | Backed(s.readLog, key, output, since, s.now)
      ensures Backed(s'.readLog, key, output, since, s'.now)
      ensures Backed(s'.readLog, key, Normalize(output), since, s'.now)
    {
      BackedLonger(s.readLog, s'.readLog, key, output, since, s.now, since, s'.now);
    }
  }

  lemma ClientHandlesSince(s: State, key: Key, input: Payload, rc: U32, output: Payload, ch: U32, since: real, n: nat)
    requires ReadSince(s, ch, since, n)
    ensures var (s', rc', out) := ClientHandles(s, key, input, rc, output);
            && ReadSince(s', ch, since, n) && s'.pending == s.pending && s'.now == s.now
            && (rc' == 0 && key.channelId == ch ==> Backed(s'.readLog, key, out, since, s.now))
  {
    var (s', rc', out) := ClientHandles(s, key, input, rc, output);
    StillBacked(s, s');
    if rc == 0 && !s.client.Serves(key, s.now) {
      assert Read(key, input, s.now, output) in s'.readLog;
      assert Backed(s'.readLog, key, output, since, s.now);
    }
  }

  lemma ServingSince(s: State, v: Served, ch: U32, since: real, n: nat)
    requires ReadSince(s, ch, since, n) && ServedSince(s, v, ch, since)
    ensures ReadSince(s.(served := s.served + [v]), ch, since, n)
  {
  }

  lemma RequestSince(s: State, e: Event, ch: U32, since: real, n: nat)
    requires ReadSince(s, ch, since, n) && e.Request? && Enabled(s, e)
    ensures ReadSince(Step(s, e), ch, since, n)
  {
    if s.server.Serves(e.key, s.now) {
      var hit := s.server.entries[e.key];
      if e.key.channelId == ch {
        BackedLonger(s.readLog, s.readLog, e.key, hit.output, since, s.now, since, s.now);
      }
      ServingSince(s, Served(e.key, e.input, s.now, s.now, s.now, hit.returnCode, Normalize(hit.output), true), ch, since, n);
    }
  }

  lemma ReceiveSince(s: State, e: Event, ch: U32, since: real, n: nat)
    requires ReadSince(s, ch, since, n) && e.Receive? && Enabled(s, e)
    ensures ReadSince(Step(s, e), ch, since, n)
  {
    var p := s.pending[e.id];
    if p.returnCode == 0 && p.key.channelId == ch {
      BackedLonger(s.readLog, s.readLog, p.key, p.output, since, s.now, since, s.now);
    }
    var s' := s.(server := s.server.Record(p.key, p.returnCode, Normalize(p.output), s.now),
                 pending := s.pending - {e.id});
    assert ReadSince(s', ch, since, n);
    ServingSince(s', Served(p.key, p.input, p.sentAt, p.at, s.now, p.returnCode, Normalize(p.output), false), ch, since, n);
  }

  lemma WaitSince(s: State, e: Event, ch: U32, since: real, n: nat)
    requires ReadSince(s, ch, since, n) && e.Wait? && Enabled(s, e)
    ensures ReadSince(Step(s, e), ch, since, n)
  {
    StillBacked(s, Step(s, e));
  }

  lemma StepReadsSince(s: State, e: Event, ch: U32, since: real, n: nat)
    requires ReadSince(s, ch, since, n)
    ensures ReadSince(Step(s, e), ch, since, n)
  {
    if Enabled(s, e) {
      match e
      case Wait(_) => WaitSince(s, e, ch, since, n);
      case Request(_, _, _) => RequestSince(s, e, ch, since, n);
      case Answer(id, rc, output) =>
        ClientHandlesSince(s, s.pending[id].key, s.pending[id].input, rc, output, ch, since, n);
      case Stray(key, input, rc, output) => ClientHandlesSince(s, key, input, rc, output, ch, since, n);
      case Receive(_) => ReceiveSince(s, e, ch, since, n);
      case _ =>
    }
  }

  lemma {:induction false} RunReadsSince(s: State, es: seq<Event>, ch: U32, since: real, n: nat)
    requires ReadSince(s, ch, since, n)
    ensures ReadSince(Run(s, es), ch, since, n)
    decreases |es|
  {
    if es != [] {
      StepReadsSince(s, es[0], ch, since, n);
      RunReadsSince(Step(s, es[0]), es[1..], ch, since, n);
    }
  }

  /**
   Once a Disconnect has passed both ends with no answer of its channel still coming back, every success
   the DLL is given on the channel was read from the device after that.
   */
  lemma NothingReadBeforeDisconnectIsServed(s: State, es: seq<Event>, ch: U32, i: nat)
    requires Cleared(s, ch)
    requires |s.served| <= i < |Run(s, es).served|
    requires var v := Run(s, es).served[i]; v.returnCode == 0 && v.key.channelId == ch
    ensures var t := Run(s, es); Backed(t.readLog, t.served[i].key, t.served[i].output, s.now, t.now)
  {
    RunReadsSince(s, es, ch, s.now, |s.served|);
    assert ServedSince(Run(s, es), Run(s, es).served[i], ch, s.now);
  }

  // ---------------------------------------------------------------- configurations and runs

  /** The configuration of the two caches. */
  datatype Config = Config(serverEnabled: bool, serverTtl: real, clientEnabled: bool, clientTtl: real) {
    function Start(): State {
      Initial(serverEnabled, serverTtl, clientEnabled, clientTtl)
    }

    /** One of the caches can answer for the key at all. */
    predicate Caches(key: Key) {
      key.ioctlId in CACHEABLE_IDS && ((serverEnabled && serverTtl >= 0.0) || (clientEnabled && clientTtl >= 0.0))
    }
  }

  /** The cache never answers for the key. */
  predicate Mute(c: Cache, key: Key) {
    !(c.enabled && c.ttl >= 0.0 && key.ioctlId in CACHEABLE_IDS)
  }

  lemma MuteNeverServes(s: State, key: Key)
    requires Inv(s) && Mute(s.server, key) && Mute(s.client, key)
    ensures !s.server.Serves(key, s.now) && !s.client.Serves(key, s.now)
  {
  }

  lemma RunOnce(s: State, e: Event, es: seq<Event>)
    ensures Run(s, [e] + es) == Run(Step(s, e), es)
  {
    assert ([e] + es)[1..] == es;
  }

  lemma {:induction false} RunAppend(s: State, a: seq<Event>, b: seq<Event>)
    ensures Run(s, a + b) == Run(Run(s, a), b)
    decreases |a|
  {
    if a == [] {
      assert a + b == b;
    } else {
      assert (a + b)[0] == a[0] && (a + b)[1..] == a[1..] + b;
      RunAppend(Step(s, a[0]), a[1..], b);
    }
  }
}
