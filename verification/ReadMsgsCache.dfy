/**
 The BUFFER_EMPTY short circuit (vci_proxy/cache_read_msgs.py), and what it does to the stream of
 messages one DLL connection reads through it (vci_proxy/reverse_server.py).
 */
module ReadMsgsCache {
  import opened Common
  import opened Bytes
  import opened Protocol
  import opened Framing

  const BUFFER_EMPTY: U32 := 0x10

  /** When a result was recorded, and its return code. */
  datatype Stamp = Stamp(at: real, returnCode: U32)

  datatype Cache = Cache(enabled: bool, ttl: real, channels: map<U32, Stamp>) {
    predicate Serves(ch: U32, now: real) {
      enabled && ch in channels && channels[ch].returnCode == BUFFER_EMPTY && now - channels[ch].at <= ttl
    }

    function Record(ch: U32, returnCode: U32, now: real): Cache {
      if enabled then this.(channels := channels[ch := Stamp(now, returnCode)]) else this
    }
  }

  class BufferEmptyCache {
    const enabled: bool
    const ttl: real
    var channels: map<U32, Stamp>
    var hits: nat
    var misses: nat

    function View(): Cache
      reads this
    {
      Cache(enabled, ttl, channels)
    }

    constructor (enabled: bool, ttlMs: int)
      ensures View() == Cache(enabled, ttlMs as real / 1000.0, map[])
    {
      this.enabled, this.ttl := enabled, ttlMs as real / 1000.0;
      channels, hits, misses := map[], 0, 0;
    }

    /** A hit answers with no messages and leaves the recorded time alone. */
    method TryServeFromCache(ch: U32, sequence: U32, now: real) returns (r: Option<ByteString>)
      modifies this`hits, this`misses
      ensures r.Some? <==> View().Serves(ch, now)
      ensures r.Some? ==> r.value == FrameBytes(Frame(READ_MSGS_RSP, sequence, ReadMsgsRspBody(BUFFER_EMPTY, [])))
      ensures hits == old(hits) + (if r.Some? then 1 else 0)
      ensures misses == old(misses) + (if enabled && r.None? then 1 else 0)
    {
      if !enabled {
        return None;
      }
      if ch !in channels || channels[ch].returnCode != BUFFER_EMPTY {
        misses := misses + 1;
        return None;
      }
      if now - channels[ch].at > ttl {
        misses := misses + 1;
        return None;
      }
      hits := hits + 1;
      var body := Pack([BUFFER_EMPTY, 0]);
      assert body == ReadMsgsRspBody(BUFFER_EMPTY, []);
      r := Some(HeaderBytes(HEADER_SIZE + |body|, READ_MSGS_RSP, sequence) + body);
    }

    method RecordResult(ch: U32, returnCode: U32, now: real)
      modifies this`channels
      ensures View() == old(View()).Record(ch, returnCode, now)
    {
      if enabled {
        channels := channels[ch := Stamp(now, returnCode)];
      }
    }

    method InvalidateChannel(ch: U32)
      modifies this`channels
      ensures View() == old(View()).(channels := old(channels) - {ch})
    {
      channels := channels - {ch};
    }

    method Clear()
      modifies this`channels
      ensures View() == old(View()).(channels := map[])
    {
      channels := map[];
    }
  }

  // ---------------------------------------------------------------- one DLL connection reading

  type Messages = seq<PassThruMsg>

  /**
   The messages of one channel since it was last closed: all that arrived at the device, what the DLL
   decoded from its replies, what the device still holds, and what left the device and went nowhere.
   */
  datatype Account = Account(arrived: Messages, delivered: Messages, queue: Messages, lost: Messages) {
    function Arrive(m: PassThruMsg): Account {
      this.(arrived := arrived + [m], queue := queue + [m])
    }

    function Deliver(got: Messages, n: nat): Account
      requires n <= |queue|
    {
      this.(delivered := delivered + got, queue := queue[n..])
    }

    function Lose(n: nat): Account
      requires n <= |queue|
    {
      this.(lost := lost + queue[..n], queue := queue[n..])
    }

    /** Every message is accounted for once, and none overtakes another. */
    ghost predicate Balanced() {
      && multiset(arrived) == multiset(delivered) + multiset(queue) + multiset(lost)
      && IsSubsequence(delivered + queue, arrived)
    }

    /** Nothing is lost, doubled or reordered between the device and the DLL. */
    predicate Conserved() {
      arrived == delivered + queue
    }
  }

  const EMPTY := Account([], [], [], [])

  datatype State = State(cache: Cache, now: real, accounts: map<U32, Account>,
                         lastPoll: map<U32, real>, lastForward: map<U32, real>) {
    function Of(ch: U32): Account {
      if ch in accounts then accounts[ch] else EMPTY
    }
  }

  /** `closed` and `cleared` say whether the device carried out the request; `transit` is how long a read takes. */
  datatype Event =
    | Arrive(ch: U32, msg: PassThruMsg)
    | Wait(time: real)
    | Read(ch: U32, maxMsgs: U32, taken: U32, returnCode: U32, transit: real, tunnelHolds: bool)
    | Disconnect(ch: U32, closed: bool)
    | Close(closed: bool)
    | ClearRx(ch: U32, cleared: bool)
    | TunnelLost

  function Initial(enabled: bool, ttl: real): State {
    State(Cache(enabled, ttl, map[]), 0.0, map[], map[], map[])
  }

  /** The device hands over at most what was asked for, from the front of its queue. */
  predicate Enabled(s: State, e: Event) {
    match e
    case Wait(time) => time >= 0.0
    case Read(ch, maxMsgs, taken, _, transit, _) => taken <= maxMsgs && taken <= |s.Of(ch).queue| && transit >= 0.0
    case _ => true
  }

  predicate IsHit(s: State, e: Event) {
    e.Read? && s.cache.Serves(e.ch, s.now)
  }

  /** The body the client answers a read with. */
  function DeviceReply(s: State, e: Event): ByteString
    requires e.Read? && Enabled(s, e)
  {
    ReadMsgsRspBody(e.returnCode, s.Of(e.ch).queue[..e.taken])
  }

  /** The tunnel does not survive the read: it breaks, or the answer is too long for the server's frame bound. */
  predicate BreaksTunnel(s: State, e: Event)
    requires e.Read? && Enabled(s, e)
  {
    !e.tunnelHolds || |DeviceReply(s, e)| + TIMING_TRAILER_SIZE > MAX_FRAME_BODY_BYTES
  }

  /** The answer to a forwarded read reaches the server while it is still waiting. */
  predicate Answered(s: State, e: Event)
    requires e.Read? && Enabled(s, e)
  {
    e.transit <= FUTURE_TIMEOUT && !BreaksTunnel(s, e)
  }

  /** A read that costs messages: it is forwarded, the device hands some over, and no answer comes in time. */
  predicate LosesByRead(s: State, e: Event) {
    e.Read? && Enabled(s, e) && !IsHit(s, e) && e.taken > 0 && !Answered(s, e)
  }

  /** A CLEAR_RX_BUFFER that finds something to throw away. */
  predicate LosesByClear(s: State, e: Event) {
    e.ClearRx? && e.cleared && s.Of(e.ch).queue != []
  }

  predicate Loses(s: State, e: Event) {
    LosesByRead(s, e) || LosesByClear(s, e)
  }

  /** How long the server waits for a forwarded read. */
  function Waited(e: Event): real
    requires e.Read?
  {
    if e.transit <= FUTURE_TIMEOUT then e.transit else FUTURE_TIMEOUT
  }

  /** The body of the reply the DLL gets, if it gets one: the cached one, or the client's. */
  function ReplyBody(s: State, e: Event): Option<ByteString>
    requires e.Read? && Enabled(s, e)
  {
    if IsHit(s, e) then Some(ReadMsgsRspBody(BUFFER_EMPTY, []))
    else if Answered(s, e) then Some(DeviceReply(s, e))
    else None
  }

  function DecodedByDll(reply: Option<ByteString>): Messages {
    if reply.None? then []
    else
      match DecodeReadMsgsRsp(reply.value)
      case Ok(r) => r.1
      case Err(_) => []
  }

  /** What a read does to the account of its channel. */
  function AccountAfterRead(s: State, e: Event): Account
    requires e.Read? && Enabled(s, e)
  {
    var a := s.Of(e.ch);
    if IsHit(s, e) then a.Deliver(DecodedByDll(ReplyBody(s, e)), 0)
    else if Answered(s, e) then a.Deliver(DecodedByDll(ReplyBody(s, e)), e.taken)
    else a.Lose(e.taken)
  }

  /** What a forwarded read does to the cache: recorded if answered, everything cleared if the tunnel goes. */
  function CacheAfterForward(s: State, e: Event): Cache
    requires e.Read? && Enabled(s, e)
  {
    if Answered(s, e) then s.cache.Record(e.ch, e.returnCode, s.now + Waited(e))
    else if BreaksTunnel(s, e) then s.cache.(channels := map[])
    else s.cache
  }

  function Step(s: State, e: Event): State {
    if !Enabled(s, e) then s
    else
      match e
      case Arrive(ch, m) => s.(accounts := s.accounts[ch := s.Of(ch).Arrive(m)])
      case Wait(time) => s.(now := s.now + time)
      case Read(ch, _, _, _, _, _) =>
        var s' := s.(accounts := s.accounts[ch := AccountAfterRead(s, e)]);
        if IsHit(s, e) then s'.(lastPoll := s.lastPoll[ch := s.now])
        else
          var done := s.now + Waited(e);
          s'.(now := done, cache := CacheAfterForward(s, e),
              lastPoll := s.lastPoll[ch := done], lastForward := s.lastForward[ch := done])
      case Disconnect(ch, closed) =>
        s.(cache := s.cache.(channels := s.cache.channels - {ch}),
           accounts := if closed then s.accounts - {ch} else s.accounts)
      case Close(closed) =>
        s.(cache := s.cache.(channels := map[]), accounts := if closed then map[] else s.accounts)
      case ClearRx(ch, cleared) =>
        if cleared then s.(accounts := s.accounts[ch := s.Of(ch).Lose(|s.Of(ch).queue|)]) else s
      case TunnelLost => s.(cache := s.cache.(channels := map[]))
  }

  function Run(s: State, es: seq<Event>): State
    decreases |es|
  {
    if es == [] then s else Run(Step(s, es[0]), es[1..])
  }

  // ---------------------------------------------------------------- conservation

  lemma ArriveBalances(a: Account, m: PassThruMsg)
    requires a.Balanced()
    ensures a.Arrive(m).Balanced()
  {
    SubsequenceTakes(a.delivered + a.queue, a.arrived, m);
    AppendAssoc(a.delivered, a.queue, [m]);
  }

  lemma DeliverBalances(a: Account, n: nat)
    requires a.Balanced() && n <= |a.queue|
    ensures a.Deliver(a.queue[..n], n).Balanced()
  {
    SplitAt(a.queue, n);
    AppendAssoc(a.delivered, a.queue[..n], a.queue[n..]);
  }

  lemma LoseBalances(a: Account, n: nat)
    requires a.Balanced() && n <= |a.queue|
    ensures a.Lose(n).Balanced()
  {
    SplitAt(a.queue, n);
    SubsequenceDropsFront(a.delivered, a.queue, n, a.arrived);
  }

  /** A balanced account is conserved exactly when nothing of it was lost. */
  lemma ConservedMeansNothingLost(a: Account)
    requires a.Balanced()
    ensures a.Conserved() <==> a.lost == []
  {
    SubsequenceIsShorter(a.delivered + a.queue, a.arrived);
    assert |multiset(a.arrived)| == |a.delivered| + |a.queue| + |a.lost|;
  }

  /** What the DLL decodes is what the device handed over, or nothing. */
  lemma DllDecodesWhatWasSent(s: State, e: Event)
    requires e.Read? && Enabled(s, e)
    ensures DecodedByDll(ReplyBody(s, e)) ==
            if !IsHit(s, e) && Answered(s, e) then s.Of(e.ch).queue[..e.taken] else []
  {
    ReadMsgsRspRoundTrip(BUFFER_EMPTY, []);
    ReadMsgsRspRoundTrip(e.returnCode, s.Of(e.ch).queue[..e.taken]);
  }

  lemma ReadBalances(s: State, e: Event)
    requires e.Read? && Enabled(s, e) && s.Of(e.ch).Balanced()
    ensures AccountAfterRead(s, e).Balanced()
    ensures AccountAfterRead(s, e).lost == [] <==> s.Of(e.ch).lost == [] && !Loses(s, e)
  {
    DllDecodesWhatWasSent(s, e);
    var a := s.Of(e.ch);
    if IsHit(s, e) {
      assert a.queue[..0] == [];
      DeliverBalances(a, 0);
    } else if Answered(s, e) {
      DeliverBalances(a, e.taken);
    } else {
      LoseBalances(a, e.taken);
    }
  }

  ghost predicate AllBalanced(s: State) {
    forall ch <- s.accounts :: s.accounts[ch].Balanced()
  }

  /** The events after which a channel starts again with nothing. */
  predicate Resets(e: Event, ch: U32) {
    (e.Disconnect? && e.closed && e.ch == ch) || (e.Close? && e.closed)
  }

  lemma ReadTouchesOneAccount(s: State, e: Event)
    requires e.Read? && Enabled(s, e)
    ensures Step(s, e).accounts == s.accounts[e.ch := AccountAfterRead(s, e)]
  {
  }

  lemma OtherStepsTouch(s: State, e: Event)
    requires !e.Read? && Enabled(s, e)
    ensures Step(s, e).accounts ==
            if e.Arrive? then s.accounts[e.ch := s.Of(e.ch).Arrive(e.msg)]
            else if e.Close? && e.closed then map[]
            else if e.Disconnect? && e.closed then s.accounts - {e.ch}
            else if e.ClearRx? && e.cleared then s.accounts[e.ch := s.Of(e.ch).Lose(|s.Of(e.ch).queue|)]
            else s.accounts
  {
  }

  lemma StepBalances(s: State, e: Event)
    requires AllBalanced(s)
    ensures AllBalanced(Step(s, e))
  {
    assert EMPTY.Balanced();
    if Enabled(s, e) {
      if e.Read? {
        ReadTouchesOneAccount(s, e);
        ReadBalances(s, e);
      } else {
        OtherStepsTouch(s, e);
        if e.Arrive? {
          ArriveBalances(s.Of(e.ch), e.msg);
        } else if e.ClearRx? {
          LoseBalances(s.Of(e.ch), |s.Of(e.ch).queue|);
        }
      }
    }
  }

  lemma ReadLosesIff(s: State, e: Event, ch: U32)
    requires e.Read? && Enabled(s, e) && s.Of(e.ch).Balanced()
    ensures Step(s, e).Of(ch).lost == [] <==> s.Of(ch).lost == [] && !LosesOn(s, e, ch)
  {
    ReadTouchesOneAccount(s, e);
    ReadBalances(s, e);
  }

  lemma OtherStepsLoseIff(s: State, e: Event, ch: U32)
    requires !e.Read? && Enabled(s, e)
    ensures Step(s, e).Of(ch).lost == [] <==>
            Resets(e, ch) || (s.Of(ch).lost == [] && !(LosesByClear(s, e) && e.ch == ch))
  {
    OtherStepsTouch(s, e);
    if e.ClearRx? {
      assert s.Of(e.ch).queue[..|s.Of(e.ch).queue|] == s.Of(e.ch).queue;
    }
  }

  /** What an event loses, it loses on the channel it names. */
  predicate LosesOn(s: State, e: Event, ch: U32) {
    Loses(s, e) && e.ch == ch
  }

  /** Messages of a channel are lost by its losing reads and clears, and forgotten when it is closed. */
  lemma StepLosesIff(s: State, e: Event, ch: U32)
    requires AllBalanced(s)
    ensures Step(s, e).Of(ch).lost == [] <==>
            Resets(e, ch) || (s.Of(ch).lost == [] && !LosesOn(s, e, ch))
  {
    assert EMPTY.Balanced();
    if !Enabled(s, e) {
    } else if e.Read? {
      ReadLosesIff(s, e, ch);
    } else {
      OtherStepsLoseIff(s, e, ch);
    }
  }

  lemma AccountIsBalanced(s: State, ch: U32)
    requires AllBalanced(s)
    ensures s.Of(ch).Balanced()
  {
    assert EMPTY.Balanced();
  }

  lemma StepConservesOnIff(s: State, e: Event, ch: U32)
    requires AllBalanced(s) && s.Of(ch).Conserved()
    ensures Step(s, e).Of(ch).Conserved() <==> !LosesOn(s, e, ch)
  {
    var a, b := s.Of(ch), Step(s, e).Of(ch);
    StepBalances(s, e);
    AccountIsBalanced(s, ch);
    AccountIsBalanced(Step(s, e), ch);
    StepLosesIff(s, e, ch);
    ConservedMeansNothingLost(a);
    ConservedMeansNothingLost(b);
    assert Resets(e, ch) ==> !LosesOn(s, e, ch);
  }

  /** A step that starts from conserved messages keeps them conserved exactly when it is no losing read or clear. */
  lemma StepConservesIff(s: State, e: Event)
    requires AllBalanced(s) && forall ch :: s.Of(ch).Conserved()
    ensures (forall ch :: Step(s, e).Of(ch).Conserved()) <==> !Loses(s, e)
  {
    var t := Step(s, e);
    forall ch
      ensures t.Of(ch).Conserved() <==> !LosesOn(s, e, ch)
    {
      StepConservesOnIff(s, e, ch);
    }
    if Loses(s, e) {
      assert LosesOn(s, e, e.ch) && !t.Of(e.ch).Conserved();
    }
  }

  /** There was a losing read or clear on the channel after it was last closed; `before` says whether there was one already. */
  predicate LostSinceReset(s: State, es: seq<Event>, ch: U32, before: bool)
    decreases |es|
  {
    if es == [] then before
    else
      LostSinceReset(Step(s, es[0]), es[1..], ch, !Resets(es[0], ch) && (before || LosesOn(s, es[0], ch)))
  }

  lemma {:induction false} RunBalances(s: State, es: seq<Event>, ch: U32)
    requires AllBalanced(s)
    ensures AllBalanced(Run(s, es))
    ensures Run(s, es).Of(ch).lost != [] <==> LostSinceReset(s, es, ch, s.Of(ch).lost != [])
    decreases |es|
  {
    if es != [] {
      StepBalances(s, es[0]);
      StepLosesIff(s, es[0], ch);
      RunBalances(Step(s, es[0]), es[1..], ch);
    }
  }

  /**
   After every run what the DLL has decoded on a channel, followed by what the device still holds, is in
   the order of arrival with nothing doubled; and it is all that arrived exactly when, since the channel was
   last closed, no read took messages and went unanswered and no CLEAR_RX_BUFFER threw any away.
   */
  lemma ReadsConserveMessages(enabled: bool, ttl: real, es: seq<Event>, ch: U32)
    ensures var s0 := Initial(enabled, ttl);
            var a := Run(s0, es).Of(ch);
            && IsSubsequence(a.delivered + a.queue, a.arrived)
            && multiset(a.arrived) == multiset(a.delivered) + multiset(a.queue) + multiset(a.lost)
            && (a.arrived == a.delivered + a.queue <==> !LostSinceReset(s0, es, ch, false))
  {
    var s0 := Initial(enabled, ttl);
    assert EMPTY.Balanced();
    RunBalances(s0, es, ch);
    AccountIsBalanced(Run(s0, es), ch);
    ConservedMeansNothingLost(Run(s0, es).Of(ch));
  }

  /** A read with a timeout of its own of more than 30 s: the message it waited for never reaches the DLL. */
  lemma SlowReadLosesItsMessage(m: PassThruMsg) returns (es: seq<Event>)
    ensures es == [Arrive(1, m), Read(1, 1, 1, 0, 31.0, true)]
    ensures Run(Initial(true, 0.05), es).Of(1) == Account([m], [], [], [m])
  {
    es := [Arrive(1, m), Read(1, 1, 1, 0, 31.0, true)];
    var s1 := Step(Initial(true, 0.05), es[0]);
    assert s1.Of(1) == Account([m], [], [m], []) && !IsHit(s1, es[1]);
    var s2 := Step(s1, es[1]);
    assert s2.Of(1) == Account([m], [], [], [m]);
    assert es[1..][1..] == [] && Run(s1, es[1..]) == s2;
  }

  // ---------------------------------------------------------------- how often the device is asked

  /** Since the last forwarded read the channel was polled only within the lifetime of what was recorded by then. */
  ghost predicate NeverRefreshed(s: State) {
    && (forall ch <- s.lastForward ::
          && ch in s.lastPoll
          && s.lastForward[ch] <= s.lastPoll[ch] <= s.now
          && s.lastPoll[ch] - s.lastForward[ch] <= Lifetime(s.cache.enabled, s.cache.ttl))
    && (forall ch <- s.cache.channels :: ch in s.lastForward && s.cache.channels[ch].at <= s.lastForward[ch])
    && (!s.cache.enabled ==> s.cache.channels == map[])
  }

  /** A poll served from the cache moves only the time of the last poll. */
  lemma HitNeverRefreshes(s: State, e: Event)
    requires NeverRefreshed(s) && e.Read? && Enabled(s, e) && IsHit(s, e)
    ensures NeverRefreshed(Step(s, e))
  {
    assert Step(s, e).cache == s.cache && Step(s, e).lastForward == s.lastForward;
    assert s.cache.channels[e.ch].at <= s.lastForward[e.ch];
  }

  lemma ForwardNeverRefreshes(s: State, e: Event)
    requires NeverRefreshed(s) && e.Read? && Enabled(s, e) && !IsHit(s, e)
    ensures NeverRefreshed(Step(s, e))
  {
  }

  lemma StepNeverRefreshes(s: State, e: Event)
    requires NeverRefreshed(s)
    ensures NeverRefreshed(Step(s, e)) && Step(s, e).cache.enabled == s.cache.enabled && Step(s, e).cache.ttl == s.cache.ttl
  {
    if e.Read? && Enabled(s, e) {
      if IsHit(s, e) {
        HitNeverRefreshes(s, e);
      } else {
        ForwardNeverRefreshes(s, e);
      }
    }
  }

  lemma {:induction false} RunNeverRefreshes(s: State, es: seq<Event>)
    requires NeverRefreshed(s)
    ensures NeverRefreshed(Run(s, es)) && Run(s, es).cache.enabled == s.cache.enabled && Run(s, es).cache.ttl == s.cache.ttl
    decreases |es|
  {
    if es != [] {
      StepNeverRefreshes(s, es[0]);
      RunNeverRefreshes(Step(s, es[0]), es[1..]);
    }
  }

  /**
   A poll at most `delta` after the previous one on its channel comes at most TTL + delta after the last
   forwarded read, and it is served from the cache only within the TTL of that read.
   */
  lemma PollingReachesTheDevice(enabled: bool, ttl: real, es: seq<Event>, ch: U32, delta: real)
    requires var s := Run(Initial(enabled, ttl), es);
             ch in s.lastForward && ch in s.lastPoll && s.now <= s.lastPoll[ch] + delta
    ensures var s := Run(Initial(enabled, ttl), es);
            && s.now - s.lastForward[ch] <= Lifetime(enabled, ttl) + delta
            && (s.cache.Serves(ch, s.now) ==> s.now - s.lastForward[ch] <= ttl)
  {
    RunNeverRefreshes(Initial(enabled, ttl), es);
  }
}
