/**
 SET_CONFIG and the IOCTL cache (vci_proxy/cache_ioctl.py): setting a parameter invalidates neither cache,
 so a GET_CONFIG that follows may be answered with what was read before.
 */
module ConfigFreshness {
  import opened Common
  import opened Bytes
  import opened Protocol
  import opened IoctlCache
  import opened IoctlStaleness
  import opened IoctlInputs

  function Getting(ch: U32): Key {
    Key(ch, GET_CONFIG)
  }

  function Setting(ch: U32): Key {
    Key(ch, SET_CONFIG)
  }

  /** A successful GET_CONFIG that was asked for after a successful SET_CONFIG of its channel had completed. */
  predicate Follows(v: Served, w: Served, ch: U32) {
    && w.key == Setting(ch) && w.returnCode == 0
    && v.key == Getting(ch) && v.returnCode == 0
    && w.at <= v.asked
  }

  /** What such a GET_CONFIG says was read no earlier than the device carried out the SET_CONFIG. */
  ghost predicate FreshAfterSet(s: State, ch: U32) {
    forall v, w | v in s.served && w in s.served && Follows(v, w, ch) ::
      Backed(s.readLog, v.key, v.output, w.answered, v.at)
  }

  /** A cache can still answer after the device has been told otherwise. */
  predicate Lags(c: Config) {
    (c.serverEnabled && c.serverTtl >= 0.0) || (c.clientEnabled && c.clientTtl > 0.0)
  }

  predicate NeverCached(s: State, key: Key) {
    forall v <- s.served :: v.key == key ==> !v.cached
  }

  lemma StepNeverCached(s: State, e: Event, key: Key)
    requires NeverCached(s, key) && !s.server.Serves(key, s.now)
    ensures NeverCached(Step(s, e), key)
  {
  }

  lemma {:induction false} MuteServesNothing(s: State, es: seq<Event>, key: Key)
    requires Inv(s) && Mute(s.server, key) && NeverCached(s, key)
    ensures NeverCached(Run(s, es), key)
    decreases |es|
  {
    if es != [] {
      StepKeepsInv(s, es[0]);
      MuteServerNeverServes(s, key);
      StepNeverCached(s, es[0], key);
      MuteServesNothing(Step(s, es[0]), es[1..], key);
    }
  }

  lemma MuteServerNeverServes(s: State, key: Key)
    requires ServerBacked(s) && Mute(s.server, key)
    ensures !s.server.Serves(key, s.now)
  {
  }

  /** Without a cache that lags, every GET_CONFIG is as fresh as its request. */
  lemma NothingLags(c: Config, es: seq<Event>, ch: U32)
    requires !Lags(c)
    ensures FreshAfterSet(Run(c.Start(), es), ch)
  {
    var s := Run(c.Start(), es);
    RunKeepsInv(c.Start(), es);
    MuteServesNothing(c.Start(), es, Getting(ch));
    forall v, w | v in s.served && w in s.served && Follows(v, w, ch)
      ensures Backed(s.readLog, v.key, v.output, w.answered, v.at)
    {
      assert ServedFromRead(s, v) && ServedFromRead(s, w);
      BackedLonger(s.readLog, s.readLog, v.key, v.output, v.answered, v.answered, w.answered, v.at);
    }
  }

  /** A GET_CONFIG was told what was read before a SET_CONFIG that it follows. */
  lemma OldAnswerServed(s: State, ch: U32, get: Payload, put: Payload, v: Served, w: Served)
    requires s.readLog == {Read(Getting(ch), get, 0.0, None), Read(Setting(ch), put, w.answered, None)}
    requires v in s.served && w in s.served && Follows(v, w, ch) && w.answered > 0.0
    ensures !FreshAfterSet(s, ch)
  {
  }

  /** One connection got, another has set since, and both answers are on their way to the server. */
  ghost predicate BothAnswered(s: State, c: Config, ch: U32, get: Payload, put: Payload) {
    && s.now == 1.0 && s.served == []
    && s.server == Cache(c.serverEnabled, c.serverTtl, map[])
    && s.pending == map[0 := Answered(Getting(ch), get, 0.0, 0.0, 0, None), 1 := Answered(Setting(ch), put, 1.0, 1.0, 0, None)]
    && s.readLog == {Read(Getting(ch), get, 0.0, None), Read(Setting(ch), put, 1.0, None)}
  }

  lemma GetAndSet(c: Config, ch: U32, get: Payload, put: Payload) returns (es: seq<Event>)
    requires !QuestionOf(GET_CONFIG, get).Malformed? && !QuestionOf(SET_CONFIG, put).Malformed?
    ensures BothAnswered(Run(c.Start(), es), c, ch, get, put)
  {
    var start := FirstRead(c, Getting(ch), get);
    var s2 := Run(c.Start(), start);
    var s3 := Step(s2, Wait(1.0));
    var s4 := Step(s3, Request(1, Setting(ch), put));
    var t4 := [Answer(1, 0, None)] + [];
    var t3 := [Request(1, Setting(ch), put)] + t4;
    RunOnce(s4, Answer(1, 0, None), []);
    RunOnce(s3, Request(1, Setting(ch), put), t4);
    RunOnce(s2, Wait(1.0), t3);
    RunAppend(c.Start(), start, [Wait(1.0)] + t3);
    es := start + ([Wait(1.0)] + t3);
    var s5 := Step(s4, Answer(1, 0, None));
    assert s5.readLog == {Read(Getting(ch), get, 0.0, None), Read(Setting(ch), put, 1.0, None)};
    assert s5.pending[1] == Answered(Setting(ch), put, 1.0, 1.0, 0, None);
  }

  /** The two answers are recorded in order, and the server then holds what was read before the SET_CONFIG. */
  lemma RecordedLate(s: State, c: Config, ch: U32, get: Payload, put: Payload) returns (es: seq<Event>)
    requires BothAnswered(s, c, ch, get, put) && c.serverEnabled && c.serverTtl >= 0.0
    ensures !FreshAfterSet(Run(s, es), ch)
  {
    var s1 := Step(s, Receive(0));
    var s2 := Step(s1, Receive(1));
    var s3 := Step(s2, Request(2, Getting(ch), get));
    var w := Served(Setting(ch), put, 1.0, 1.0, 1.0, 0, None, false);
    var v := Served(Getting(ch), get, 1.0, 1.0, 1.0, 0, None, true);
    assert s3.served[|s3.served| - 1] == v && s3.served[|s3.served| - 2] == w;
    OldAnswerServed(s3, ch, get, put, v, w);
    var t2 := [Request(2, Getting(ch), get)] + [];
    var t1 := [Receive(1)] + t2;
    RunOnce(s2, Request(2, Getting(ch), get), []);
    RunOnce(s1, Receive(1), t2);
    RunOnce(s, Receive(0), t1);
    es := [Receive(0)] + t1;
  }

  /** The server's cache: the first answer is recorded only when the SET_CONFIG has been carried out. */
  lemma ServerLags(c: Config, ch: U32, get: Payload, put: Payload) returns (es: seq<Event>)
    requires c.serverEnabled && c.serverTtl >= 0.0
    requires !QuestionOf(GET_CONFIG, get).Malformed? && !QuestionOf(SET_CONFIG, put).Malformed?
    ensures !FreshAfterSet(Run(c.Start(), es), ch)
  {
    var first := GetAndSet(c, ch, get, put);
    var more := RecordedLate(Run(c.Start(), first), c, ch, get, put);
    RunAppend(c.Start(), first, more);
    es := first + more;
  }

  /** One connection has got and then set; the client still holds what it read first, the server holds nothing. */
  ghost predicate GotThenSet(s: State, c: Config, ch: U32, get: Payload, put: Payload, d: real) {
    && s.now == d && s.pending == map[] && s.server.Serves(Getting(ch), d) == false
    && Getting(ch) in s.client.entries && s.client.entries[Getting(ch)] == Entry(0.0, 0, None)
    && s.client.enabled && s.client.ttl == c.clientTtl
    && s.readLog == {Read(Getting(ch), get, 0.0, None), Read(Setting(ch), put, d, None)}
    && s.served != [] && s.served[|s.served| - 1] == Served(Setting(ch), put, d, d, d, 0, None, false)
  }

  lemma GetThenSet(c: Config, ch: U32, get: Payload, put: Payload, d: real) returns (es: seq<Event>)
    requires c.clientEnabled && 0.0 < d <= c.clientTtl && !(c.serverEnabled && c.serverTtl >= 0.0)
    requires !QuestionOf(GET_CONFIG, get).Malformed? && !QuestionOf(SET_CONFIG, put).Malformed?
    ensures GotThenSet(Run(c.Start(), es), c, ch, get, put, d)
  {
    var start := FirstRead(c, Getting(ch), get);
    var s2 := Run(c.Start(), start);
    var s3 := Step(s2, Receive(0));
    var s4 := Step(s3, Wait(d));
    var s5 := Step(s4, Request(1, Setting(ch), put));
    var s6 := Step(s5, Answer(1, 0, None));
    assert s6.readLog == {Read(Getting(ch), get, 0.0, None), Read(Setting(ch), put, d, None)};
    assert s6.pending == map[1 := Answered(Setting(ch), put, d, d, 0, None)];
    var t6 := [Receive(1)] + [];
    var t5 := [Answer(1, 0, None)] + t6;
    var t4 := [Request(1, Setting(ch), put)] + t5;
    var t3 := [Wait(d)] + t4;
    RunOnce(s6, Receive(1), []);
    RunOnce(s5, Answer(1, 0, None), t6);
    RunOnce(s4, Request(1, Setting(ch), put), t5);
    RunOnce(s3, Wait(d), t4);
    RunOnce(s2, Receive(0), t3);
    RunAppend(c.Start(), start, [Receive(0)] + t3);
    es := start + ([Receive(0)] + t3);
  }

  /** Getting again brings back what the client still holds. */
  lemma GetAgainIsOld(s: State, c: Config, ch: U32, get: Payload, put: Payload, d: real) returns (es: seq<Event>)
    requires GotThenSet(s, c, ch, get, put, d) && 0.0 < d <= c.clientTtl
    requires !QuestionOf(GET_CONFIG, get).Malformed?
    ensures !FreshAfterSet(Run(s, es), ch)
  {
    var s1 := Step(s, Request(2, Getting(ch), get));
    var s2 := Step(s1, Answer(2, 0, None));
    assert s2.readLog == s.readLog && s2.pending[2] == Answered(Getting(ch), get, d, d, 0, None);
    var s3 := Step(s2, Receive(2));
    var w := Served(Setting(ch), put, d, d, d, 0, None, false);
    var v := Served(Getting(ch), get, d, d, d, 0, None, false);
    assert s3.served[|s3.served| - 1] == v && s3.served[|s3.served| - 2] == w;
    OldAnswerServed(s3, ch, get, put, v, w);
    var t2 := [Receive(2)] + [];
    var t1 := [Answer(2, 0, None)] + t2;
    RunOnce(s2, Receive(2), []);
    RunOnce(s1, Answer(2, 0, None), t2);
    RunOnce(s, Request(2, Getting(ch), get), t1);
    es := [Request(2, Getting(ch), get)] + t1;
  }

  /** The client's cache: one connection gets, sets, and gets again while the first answer still lives. */
  lemma ClientLags(c: Config, ch: U32, get: Payload, put: Payload) returns (es: seq<Event>)
    requires c.clientEnabled && c.clientTtl > 0.0 && !(c.serverEnabled && c.serverTtl >= 0.0)
    requires !QuestionOf(GET_CONFIG, get).Malformed? && !QuestionOf(SET_CONFIG, put).Malformed?
    ensures !FreshAfterSet(Run(c.Start(), es), ch)
  {
    var first := GetThenSet(c, ch, get, put, c.clientTtl);
    var again := GetAgainIsOld(Run(c.Start(), first), c, ch, get, put, c.clientTtl);
    RunAppend(c.Start(), first, again);
    es := first + again;
  }

  /** A list of one parameter with its value. */
  const ONE_PARAMETER: Payload := Some([0, 0, 0, 1, 0, 0, 0, 1, 0, 0, 0, 9])

  /**
   In every run each GET_CONFIG is as fresh as the SET_CONFIGs completed before it was asked for, exactly
   when neither cache lags.
   */
  lemma FreshAfterSetIff(c: Config, ch: U32)
    ensures (forall es :: FreshAfterSet(Run(c.Start(), es), ch)) <==> !Lags(c)
  {
    if !Lags(c) {
      forall es
        ensures FreshAfterSet(Run(c.Start(), es), ch)
      {
        NothingLags(c, es, ch);
      }
    } else {
      assert ONE_PARAMETER.value[..4] == [0, 0, 0, 1];
      var es;
      if c.serverEnabled && c.serverTtl >= 0.0 {
        es := ServerLags(c, ch, ONE_PARAMETER, ONE_PARAMETER);
      } else {
        es := ClientLags(c, ch, ONE_PARAMETER, ONE_PARAMETER);
      }
    }
  }
}
