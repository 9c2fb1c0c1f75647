/**
 What the key of the IOCTL cache leaves out (vci_proxy/cache_ioctl.py): answers are filed under channel
 and IOCTL id, whatever the input.
 */
module IoctlInputs {
  import opened Common
  import opened Bytes
  import opened Protocol
  import opened IoctlCache
  import opened IoctlStaleness


  /** Every request for `key` carries one of these inputs. */
  predicate Uses(es: seq<Event>, key: Key, inputs: set<Payload>) {
    forall e <- es :: (e.Request? || e.Stray?) && e.key == key ==> e.input in inputs
  }

  predicate SameQuestion(key: Key, first: Payload, second: Payload) {
    QuestionOf(key.ioctlId, first) == QuestionOf(key.ioctlId, second)
  }

  /** What the driver is asked by these inputs. */
  function Questions(key: Key, inputs: set<Payload>): set<Question> {
    set i | i in inputs :: QuestionOf(key.ioctlId, i)
  }

  /** A successful read of this key that asked the same gave this output. */
  ghost predicate OwnRead(readLog: set<Read>, key: Key, input: Payload, output: Payload, to: real) {
    exists r <- readLog ::
      r.key == key && SameQuestion(key, r.input, input) && Normalize(r.output) == Normalize(output) && r.at <= to
  }

  /** Whoever asked for `key` and was told of a success was told what the device says to the question asked. */
  ghost predicate OwnAnswers(s: State, key: Key) {
    forall v <- s.served :: v.key == key && v.returnCode == 0 ==> OwnRead(s.readLog, key, v.input, v.output, v.at)
  }

  ghost predicate InputsFrom(s: State, key: Key, inputs: set<Payload>) {
    && (forall r <- s.readLog :: r.key == key ==> r.input in inputs)
    && (forall id <- s.pending :: s.pending[id].key == key ==> s.pending[id].input in inputs)
    && (forall v <- s.served :: v.key == key ==> v.input in inputs)
  }

  lemma {:induction false} InputsStay(s: State, es: seq<Event>, key: Key, inputs: set<Payload>)
    requires InputsFrom(s, key, inputs) && Uses(es, key, inputs)
    ensures InputsFrom(Run(s, es), key, inputs)
    decreases |es|
  {
    if es != [] {
      assert es[0] in es;
      assert InputsFrom(Step(s, es[0]), key, inputs);
      InputsStay(Step(s, es[0]), es[1..], key, inputs);
    }
  }

  lemma OnlyOne<T>(s: set<T>, x: T, y: T)
    requires |s| <= 1 && x in s && y in s
    ensures x == y
  {
    assert |s - {x}| == |s| - 1;
    assert s - {x} == {};
  }

  /** With one question per key the key is enough. */
  lemma OneInputSuffices(c: Config, es: seq<Event>, key: Key, inputs: set<Payload>)
    requires |Questions(key, inputs)| <= 1 && Uses(es, key, inputs)
    ensures OwnAnswers(Run(c.Start(), es), key)
  {
    var s := Run(c.Start(), es);
    RunKeepsInv(c.Start(), es);
    InputsStay(c.Start(), es, key, inputs);
    forall v | v in s.served && v.key == key && v.returnCode == 0
      ensures OwnRead(s.readLog, key, v.input, v.output, v.at)
    {
      assert ServedFromRead(s, v);
      var r :| r in s.readLog && r.key == v.key && Normalize(r.output) == Normalize(v.output) && r.at <= v.at;
      OnlyOne(Questions(key, inputs), QuestionOf(key.ioctlId, r.input), QuestionOf(key.ioctlId, v.input));
    }
  }

  ghost predicate PendingOwn(s: State, key: Key) {
    forall id <- s.pending ::
      var p := s.pending[id];
      p.Answered? && p.returnCode == 0 && p.key == key ==> OwnRead(s.readLog, key, p.input, p.output, p.at)
  }

  lemma MoreReadsKeepOwn(s: State, readLog: set<Read>, key: Key)
    requires s.readLog <= readLog && OwnAnswers(s, key) && PendingOwn(s, key)
    ensures OwnAnswers(s.(readLog := readLog), key) && PendingOwn(s.(readLog := readLog), key)
  {
    forall k: Key, input: Payload, output: Payload, to: real | OwnRead(s.readLog, k, input, output, to)
      ensures OwnRead(readLog, k, input, output, to)
    {
      var r :| r in s.readLog && r.key == k && SameQuestion(k, r.input, input) && Normalize(r.output) == Normalize(output) && r.at <= to;
      assert r in readLog;
    }
  }

  lemma MuteAnswerKeepsOwn(s: State, e: Event, key: Key)
    requires Inv(s) && Mute(s.server, key) && Mute(s.client, key) && OwnAnswers(s, key) && PendingOwn(s, key)
    requires e.Answer? && Enabled(s, e)
    ensures OwnAnswers(Step(s, e), key) && PendingOwn(Step(s, e), key)
  {
    MuteNeverServes(s, key);
    var p := s.pending[e.id];
    var s' := Step(s, e);
    MoreReadsKeepOwn(s, s'.readLog, key);
    if p.key == key && e.returnCode == 0 {
      assert Read(key, p.input, s.now, e.output) in s'.readLog;
    }
  }

  lemma MuteReceiveKeepsOwn(s: State, e: Event, key: Key)
    requires OwnAnswers(s, key) && PendingOwn(s, key) && PendingBacked(s)
    requires e.Receive? && Enabled(s, e)
    ensures OwnAnswers(Step(s, e), key) && PendingOwn(Step(s, e), key)
  {
    var p := s.pending[e.id];
    if p.returnCode == 0 && p.key == key {
      var r :| r in s.readLog && r.key == key && SameQuestion(key, r.input, p.input) && Normalize(r.output) == Normalize(p.output) && r.at <= p.at;
      assert OwnRead(s.readLog, key, p.input, Normalize(p.output), s.now);
    }
  }

  lemma MuteStepKeepsOwn(s: State, e: Event, key: Key)
    requires Inv(s) && Mute(s.server, key) && Mute(s.client, key) && OwnAnswers(s, key) && PendingOwn(s, key)
    ensures OwnAnswers(Step(s, e), key) && PendingOwn(Step(s, e), key)
    ensures Mute(Step(s, e).server, key) && Mute(Step(s, e).client, key)
  {
    if Enabled(s, e) {
      MuteNeverServes(s, key);
      match e
      case Answer(_, _, _) => MuteAnswerKeepsOwn(s, e, key);
      case Stray(k, input, rc, output) => MoreReadsKeepOwn(s, Step(s, e).readLog, key);
      case Receive(_) => MuteReceiveKeepsOwn(s, e, key);
      case _ =>
    }
  }

  lemma {:induction false} MuteRunKeepsOwn(s: State, es: seq<Event>, key: Key)
    requires Inv(s) && Mute(s.server, key) && Mute(s.client, key) && OwnAnswers(s, key) && PendingOwn(s, key)
    ensures OwnAnswers(Run(s, es), key)
    decreases |es|
  {
    if es != [] {
      StepKeepsInv(s, es[0]);
      MuteStepKeepsOwn(s, es[0], key);
      MuteRunKeepsOwn(Step(s, es[0]), es[1..], key);
    }
  }

  /** The first request, answered by the device and remembered by the client if it remembers anything. */
  lemma FirstRead(c: Config, key: Key, first: Payload) returns (es: seq<Event>)
    requires !QuestionOf(key.ioctlId, first).Malformed?
    ensures es == [Request(0, key, first)] + ([Answer(0, 0, None)] + [])
    ensures var s := Run(c.Start(), es);
            && s == c.Start().(client := c.Start().client.Record(key, 0, None, 0.0),
                               pending := map[0 := Answered(key, first, 0.0, 0.0, 0, None)],
                               readLog := {Read(key, first, 0.0, None)})
  {
    var s1 := Step(c.Start(), Request(0, key, first));
    es := [Request(0, key, first)] + ([Answer(0, 0, None)] + []);
    RunOnce(c.Start(), Request(0, key, first), [Answer(0, 0, None)] + []);
    RunOnce(s1, Answer(0, 0, None), []);
    assert s1.pending == map[0 := Sent(key, first, 0.0)];
    assert Step(s1, Answer(0, 0, None)).readLog == {Read(key, first, 0.0, None)};
    assert Step(s1, Answer(0, 0, None)).pending == map[0 := Answered(key, first, 0.0, 0.0, 0, None)];
  }

  /** Someone who asked something else was served, though the device was only read with the first input. */
  lemma StrangerServed(s: State, key: Key, first: Payload, v: Served)
    requires s.readLog == {Read(key, first, 0.0, None)} && v in s.served
    requires v.key == key && v.returnCode == 0 && !SameQuestion(key, first, v.input)
    ensures !OwnAnswers(s, key)
  {
  }

  /** The server's cache answers the second input with what was read for the first. */
  lemma ServerIgnoresInput(c: Config, key: Key, first: Payload, second: Payload) returns (es: seq<Event>)
    requires !SameQuestion(key, first, second) && !QuestionOf(key.ioctlId, first).Malformed?
    requires key.ioctlId in CACHEABLE_IDS && c.serverEnabled && c.serverTtl >= 0.0
    ensures Uses(es, key, {first, second}) && !OwnAnswers(Run(c.Start(), es), key)
  {
    var start := FirstRead(c, key, first);
    var s2 := Run(c.Start(), start);
    var s3 := Step(s2, Receive(0));
    var s4 := Step(s3, Request(1, key, second));
    assert s3.server.entries[key] == Entry(0.0, 0, None);
    var v := Served(key, second, 0.0, 0.0, 0.0, 0, None, true);
    assert v == s4.served[|s4.served| - 1];
    StrangerServed(s4, key, first, v);
    var rest := [Receive(0)] + ([Request(1, key, second)] + []);
    RunOnce(s3, Request(1, key, second), []);
    RunOnce(s2, Receive(0), [Request(1, key, second)] + []);
    RunAppend(c.Start(), start, rest);
    es := start + rest;
  }

  /** So does the client's, for a request that passed the server before the first answer came back. */
  lemma ClientIgnoresInput(c: Config, key: Key, first: Payload, second: Payload) returns (es: seq<Event>)
    requires !SameQuestion(key, first, second) && !QuestionOf(key.ioctlId, first).Malformed?
    requires key.ioctlId in CACHEABLE_IDS && c.clientEnabled && c.clientTtl >= 0.0
    ensures Uses(es, key, {first, second}) && !OwnAnswers(Run(c.Start(), es), key)
  {
    var start := FirstRead(c, key, first);
    var s2 := Run(c.Start(), start);
    var s3 := Step(s2, Request(1, key, second));
    var rc: U32 := if QuestionOf(key.ioctlId, second).Malformed? then 1 else 0;
    var s4 := Step(s3, Answer(1, rc, None));
    var s5 := Step(s4, Receive(1));
    assert s4.readLog == s2.readLog && s4.pending[1] == Answered(key, second, 0.0, 0.0, 0, None);
    var v := Served(key, second, 0.0, 0.0, 0.0, 0, None, false);
    assert v == s5.served[|s5.served| - 1];
    StrangerServed(s5, key, first, v);
    var last := [Answer(1, rc, None)] + ([Receive(1)] + []);
    RunOnce(s4, Receive(1), []);
    RunOnce(s3, Answer(1, rc, None), [Receive(1)] + []);
    RunOnce(s2, Request(1, key, second), last);
    RunAppend(c.Start(), start, [Request(1, key, second)] + last);
    es := start + ([Request(1, key, second)] + last);
  }

  /** For any two inputs that ask a cached key different things there is a run that confuses them. */
  lemma CachedReplyIgnoresInput(c: Config, key: Key, first: Payload, second: Payload) returns (es: seq<Event>)
    requires !SameQuestion(key, first, second) && !QuestionOf(key.ioctlId, first).Malformed? && c.Caches(key)
    ensures Uses(es, key, {first, second}) && !OwnAnswers(Run(c.Start(), es), key)
  {
    if c.serverEnabled && c.serverTtl >= 0.0 {
      es := ServerIgnoresInput(c, key, first, second);
    } else {
      es := ClientIgnoresInput(c, key, first, second);
    }
  }

  /** Of two different questions at least one is well formed. */
  lemma TwoQuestions(key: Key, inputs: set<Payload>) returns (first: Payload, second: Payload)
    requires |Questions(key, inputs)| > 1
    ensures first in inputs && second in inputs
    ensures !SameQuestion(key, first, second) && !QuestionOf(key.ioctlId, first).Malformed?
  {
    var qs := Questions(key, inputs);
    var p :| p in qs;
    assert |qs - {p}| == |qs| - 1;
    var q :| q in qs - {p};
    if p.Malformed? {
      p, q := q, p;
    }
    first :| first in inputs && QuestionOf(key.ioctlId, first) == p;
    second :| second in inputs && QuestionOf(key.ioctlId, second) == q;
  }

  /**
   Every run whose requests for the key use these inputs gives each its own answer, exactly when they all
   ask the driver the same, or no cache can answer for the key.
   */
  lemma OwnAnswersIff(c: Config, key: Key, inputs: set<Payload>)
    ensures (forall es :: Uses(es, key, inputs) ==> OwnAnswers(Run(c.Start(), es), key)) <==>
            |Questions(key, inputs)| <= 1 || !c.Caches(key)
  {
    if |Questions(key, inputs)| <= 1 {
      forall es | Uses(es, key, inputs)
        ensures OwnAnswers(Run(c.Start(), es), key)
      {
        OneInputSuffices(c, es, key, inputs);
      }
    } else if !c.Caches(key) {
      forall es | Uses(es, key, inputs)
        ensures OwnAnswers(Run(c.Start(), es), key)
      {
        MuteRunKeepsOwn(c.Start(), es, key);
      }
    } else {
      var a, b := TwoQuestions(key, inputs);
      var es := CachedReplyIgnoresInput(c, key, a, b);
      assert Uses(es, key, inputs);
    }
  }
}
