/**
 The tunnel-quality tracker (vci_proxy/tunnel_quality.py): a sliding window of probe times, a
 nearest-rank 95th percentile that grades each full window, and a hysteresis that only follows a
 grade once it has been repeated.  Times are exact reals.
 */
module TunnelQuality {
  import opened Common
  import Sorting

  datatype Grade = Good | Warn | Block

  // ---------------------------------------------------------------- the percentile

  function Itself(x: real): real {
    x
  }

  /** Python's sorted. */
  function Sorted(s: seq<real>): (r: seq<real>)
    ensures |r| == |s|
  {
    Sorting.SortOrders(s, Itself);
    Sorting.Sort(s, Itself)
  }

  function Ceil(x: real): int {
    -((-x).Floor)
  }

  /** The nearest rank, kept inside the list. */
  function RankIndex(n: nat, ratio: real): (k: nat)
    requires n > 0
    ensures k < n
  {
    var rank := Ceil(n as real * ratio) - 1;
    var low := if rank < n - 1 then rank else n - 1;
    if low > 0 then low else 0
  }

  function Percentile(values: seq<real>, ratio: real): Option<real> {
    if values == [] then None
    else Some(Sorted(values)[RankIndex(|values|, ratio)])
  }

  /** How many of the values are at most `t`. */
  function CountAtMost(values: seq<real>, t: real): (n: nat)
    ensures n <= |values|
  {
    Sorting.Count(values, Itself, t)
  }

  /** More than a rank's worth of values means at least that share of them. */
  lemma RankIsShare(n: nat, ratio: real, c: nat)
    requires n > 0 && 0.0 < ratio <= 1.0
    ensures c >= RankIndex(n, ratio) + 1 <==> c as real >= n as real * ratio
  {
    var share := n as real * ratio;
    var k := RankIndex(n, ratio);
    ShareIsInside(n, ratio);
    assert k as real < share <= (k + 1) as real;
  }

  lemma ShareIsInside(n: nat, ratio: real)
    requires n > 0 && 0.0 < ratio <= 1.0
    ensures 0.0 < n as real * ratio <= n as real
  {
  }

  lemma PercentileAtRank(values: seq<real>, ratio: real, t: real)
    requires values != []
    ensures var p := Percentile(values, ratio);
            p.Some? && (p.value <= t <==> CountAtMost(values, t) >= RankIndex(|values|, ratio) + 1)
  {
    Sorting.SortedKthByCount(values, Itself, RankIndex(|values|, ratio), t);
  }

  /** The nearest-rank percentile is at most `t` exactly when at least that share of the values is. */
  lemma PercentileCounts(values: seq<real>, ratio: real, t: real)
    requires values != [] && 0.0 < ratio <= 1.0
    ensures var p := Percentile(values, ratio);
            p.Some? && (p.value <= t <==> CountAtMost(values, t) as real >= |values| as real * ratio)
  {
    PercentileAtRank(values, ratio, t);
    RankIsShare(|values|, ratio, CountAtMost(values, t));
  }

  /** The percentile is one of the values. */
  lemma PercentileIsAValue(values: seq<real>, ratio: real)
    requires values != []
    ensures Percentile(values, ratio).Some? && Percentile(values, ratio).value in values
  {
    Sorting.SortOrders(values, Itself);
    assert Percentile(values, ratio).value in multiset(Sorted(values));
  }

  /** The median is at most `t` exactly when at least half of the samples are. */
  lemma MedianCounts(samples: seq<real>, t: real)
    requires samples != []
    ensures var p50 := Percentile(samples, 0.50);
            p50.Some? && (p50.value <= t <==> 2 * CountAtMost(samples, t) >= |samples|)
  {
    PercentileCounts(samples, 0.50, t);
  }

  function DesiredGrade(samples: seq<real>): Grade {
    match Percentile(samples, 0.95)
    case None => Block
    case Some(p95) => GradeOf(p95)
  }

  function GradeOf(p95: real): Grade {
    if p95 <= 80.0 then Good else if p95 <= 150.0 then Warn else Block
  }

  /** The 95th percentile is at most `t` exactly when 95% of the samples, in whatever order, are. */
  lemma P95Counts(samples: seq<real>, t: real)
    requires samples != []
    ensures var p95 := Percentile(samples, 0.95);
            p95.Some? && (p95.value <= t <==> 100 * CountAtMost(samples, t) >= 95 * |samples|)
  {
    PercentileCounts(samples, 0.95, t);
  }

  /** A window is good when at least 95% of its probes took at most 80 ms, and worse by the same rule at 150 ms. */
  lemma GradeByShare(samples: seq<real>)
    requires samples != []
    ensures DesiredGrade(samples) == Good <==> 100 * CountAtMost(samples, 80.0) >= 95 * |samples|
    ensures DesiredGrade(samples) != Block <==> 100 * CountAtMost(samples, 150.0) >= 95 * |samples|
  {
    P95Counts(samples, 80.0);
    P95Counts(samples, 150.0);
  }

  // ---------------------------------------------------------------- the hysteresis

  datatype Hysteresis = Hysteresis(soft: Grade, candidate: Option<Grade>, count: nat)

  const RESET := Hysteresis(Block, None, 0)

  /** _apply_soft_grade */
  function ApplyGrade(s: Hysteresis, h: int, desired: Grade): Hysteresis {
    if desired == s.soft then s.(candidate := None, count := 0)
    else
      var count := if s.candidate == Some(desired) then s.count + 1 else 1;
      if count >= h then Hysteresis(desired, None, 0) else Hysteresis(s.soft, Some(desired), count)
  }

  function ApplyGrades(h: int, desired: seq<Grade>): Hysteresis {
    if desired == [] then RESET
    else ApplyGrade(ApplyGrades(h, desired[..|desired| - 1]), h, desired[|desired| - 1])
  }

  /** The last `h` grades are all the same. */
  ghost predicate EndsInRun(desired: seq<Grade>, h: nat) {
    0 < h <= |desired| && forall i :: |desired| - h <= i < |desired| ==> desired[i] == desired[|desired| - 1]
  }

  /** The grade of the most recent run of `h` equal grades, or Block if there never was one. */
  ghost function GradeOfLastRun(desired: seq<Grade>, h: nat): Grade {
    if desired == [] then Block
    else if EndsInRun(desired, h) then desired[|desired| - 1]
    else GradeOfLastRun(desired[..|desired| - 1], h)
  }

  /** A hysteresis of no windows or fewer acts at once, like one of a single window. */
  function Windows(h: int): nat {
    if h < 1 then 1 else h
  }

  /** The candidate counts the grades since the soft grade was last seen. */
  ghost predicate Counting(desired: seq<Grade>, h: int, s: Hysteresis) {
    && s.soft == GradeOfLastRun(desired, Windows(h))
    && s.count < Windows(h)
    && (s.candidate.None? <==> s.count == 0)
    && (s.candidate.None? ==> desired == [] || desired[|desired| - 1] == s.soft)
    && (s.candidate.Some? ==>
          && s.candidate.value != s.soft
          && s.count <= |desired|
          && (forall i :: |desired| - s.count <= i < |desired| ==> desired[i] == s.candidate.value)
          && (s.count < |desired| ==> desired[|desired| - s.count - 1] != s.candidate.value))
  }

  lemma CountingStep(desired: seq<Grade>, h: int, s: Hysteresis, d: Grade)
    requires Counting(desired, h, s)
    ensures Counting(desired + [d], h, ApplyGrade(s, h, d))
  {
    var next := desired + [d];
    var s' := ApplyGrade(s, h, d);
    var n := Windows(h);
    assert next[..|next| - 1] == desired;
    if d != s.soft {
      var count := if s.candidate == Some(d) then s.count + 1 else 1;
      assert forall i :: |next| - count <= i < |next| ==> next[i] == d;
      if count < n {
        assert count < |next| ==> next[|next| - count - 1] != d;
        assert !EndsInRun(next, n);
      } else {
        assert EndsInRun(next, n);
      }
    }
  }

  lemma {:induction false} HysteresisFollowsRuns(h: int, desired: seq<Grade>)
    ensures Counting(desired, h, ApplyGrades(h, desired))
  {
    if desired != [] {
      var front := desired[..|desired| - 1];
      HysteresisFollowsRuns(h, front);
      CountingStep(front, h, ApplyGrades(h, front), desired[|desired| - 1]);
      assert front + [desired[|desired| - 1]] == desired;
    }
  }

  /** How often the soft grade changed. */
  function Changes(h: int, desired: seq<Grade>): nat {
    if desired == [] then 0
    else
      var front := desired[..|desired| - 1];
      Changes(h, front) + if ApplyGrades(h, front).soft != ApplyGrades(h, desired).soft then 1 else 0
  }

  lemma OneMoreTime(c: nat, n: nat)
    ensures (c + 1) * n == c * n + n
  {
  }

  /** A change takes as many grades as the hysteresis has windows, the last one included. */
  lemma ChangeTakesWindows(h: int, front: seq<Grade>, d: Grade)
    ensures var before := ApplyGrades(h, front);
            var after := ApplyGrade(before, h, d);
            if after.soft != before.soft then before.count + 1 >= Windows(h) && after.count == 0
            else after.count <= before.count + 1
  {
    HysteresisFollowsRuns(h, front);
  }

  /** Every change uses up `h` graded windows of its own. */
  lemma {:induction false} ChangesAreRare(h: int, desired: seq<Grade>)
    ensures Changes(h, desired) * Windows(h) + ApplyGrades(h, desired).count <= |desired|
  {
    if desired != [] {
      var front := desired[..|desired| - 1];
      ChangesAreRare(h, front);
      ChangeTakesWindows(h, front, desired[|desired| - 1]);
      OneMoreTime(Changes(h, front), Windows(h));
    }
  }

  // ---------------------------------------------------------------- the tracker

  /** The window: the last `w` probes, or all of them while there are fewer. */
  function LastOf(history: seq<real>, w: nat): seq<real> {
    if |history| <= w then history else history[|history| - w..]
  }

  lemma LastOfIsTheEnd(history: seq<real>, w: nat)
    ensures var r := LastOf(history, w);
            |r| == (if |history| <= w then |history| else w) && r == history[|history| - |r|..]
  {
  }

  lemma LastOfAppend(history: seq<real>, x: real, w: nat)
    ensures var s := LastOf(history, w) + [x];
            LastOf(history + [x], w) == if |s| > w then s[|s| - w..] else s
  {
  }

  /** The grades of all full windows of a probe history, in order. */
  function DesiredGrades(history: seq<real>, w: nat): seq<Grade> {
    if history == [] then []
    else
      DesiredGrades(history[..|history| - 1], w)
      + if |history| >= w then [DesiredGrade(LastOf(history, w))] else []
  }

  /** One more probe is one more grade once the window is full. */
  lemma ProbeAdvances(history: seq<real>, x: real, w: nat, h: int)
    ensures var before := ApplyGrades(h, DesiredGrades(history, w));
            ApplyGrades(h, DesiredGrades(history + [x], w)) ==
            if |history| + 1 >= w then ApplyGrade(before, h, DesiredGrade(LastOf(history + [x], w))) else before
  {
    var next := history + [x];
    assert next[..|next| - 1] == history;
    var ds := DesiredGrades(history, w);
    var g := DesiredGrade(LastOf(next, w));
    assert (ds + [g])[..|ds|] == ds && ds + [] == ds;
  }

  lemma {:induction false} AtMostOneGradePerProbe(history: seq<real>, w: nat)
    ensures |DesiredGrades(history, w)| <= |history|
  {
    if history != [] {
      AtMostOneGradePerProbe(history[..|history| - 1], w);
    }
  }

  datatype Status = Healthy | Degraded | Blocked

  function StatusForGrade(g: Grade): Status {
    match g
    case Good => Healthy
    case Warn => Degraded
    case Block => Blocked
  }

  /** Why a snapshot has its grade; a caller may give a probe failure a text of its own. */
  datatype Reason =
    | AwaitingHysteresis | TunnelDisconnected | NoProbeSamples | SnapshotStale | InsufficientSamples | ProbeFailures
    | WithinGood | AboveGood | AboveWarn
    | Given(text: string)

  function ReasonForGrade(g: Grade): Reason {
    match g
    case Good => WithinGood
    case Warn => AboveGood
    case Block => AboveWarn
  }

  /** Last, median and 95th percentile of the window. */
  datatype Metrics = Metrics(last: Option<real>, p50: Option<real>, p95: Option<real>)

  predicate IsMetrics(m: Metrics, window: seq<real>) {
    && m.last == (if window == [] then None else Some(window[|window| - 1]))
    && m.p50 == Percentile(window, 0.50)
    && m.p95 == Percentile(window, 0.95)
  }

  /** _metrics */
  method TakeMetrics(window: seq<real>) returns (m: Metrics)
    ensures IsMetrics(m, window)
  {
    m := Metrics(if window == [] then None else Some(window[|window| - 1]),
                 Percentile(window, 0.50), Percentile(window, 0.95));
  }

  datatype Snapshot = Snapshot(connectionEpoch: Option<string>, connected: bool, isFresh: bool, updatedAt: Option<real>,
                               sampleCount: nat, networkMs: Metrics, grade: Grade, status: Status, reason: Reason,
                               probeFailures: nat)

  class TunnelQualityTracker {
    const windowSize: nat
    const freshnessSeconds: real
    const hysteresisWindows: int
    var connectionEpoch: Option<string>
    var connected: bool
    var probeFailures: nat
    var samples: seq<real>
    var updatedAt: Option<real>
    var softGrade: Grade
    var softReason: Reason
    var candidateGrade: Option<Grade>
    var candidateCount: nat
    /** The probes recorded since the last reset. */
    ghost var history: seq<real>

    ghost predicate Valid()
      reads this`samples, this`history, this`softGrade, this`candidateGrade, this`candidateCount
    {
      && samples == LastOf(history, windowSize)
      && Hysteresis(softGrade, candidateGrade, candidateCount) ==
         ApplyGrades(hysteresisWindows, DesiredGrades(history, windowSize))
    }

    /** What the soft grade must be, said without the candidate and its count. */
    ghost function SettledGrade(): Grade
      reads this
    {
      GradeOfLastRun(DesiredGrades(history, windowSize), Windows(hysteresisWindows))
    }

    constructor (windowSize: nat, freshnessSeconds: real, hysteresisWindows: int)
      ensures Valid() && history == [] && !connected
    {
      this.windowSize, this.freshnessSeconds, this.hysteresisWindows := windowSize, freshnessSeconds, hysteresisWindows;
      connectionEpoch, connected, probeFailures, samples, updatedAt := None, false, 0, [], None;
      softGrade, softReason, candidateGrade, candidateCount := Block, AwaitingHysteresis, None, 0;
      history := [];
    }

    /** The samples go, and with them all that was concluded from them. */
    method ForgetSamples(reason: Reason)
      modifies this`samples, this`history, this`softGrade, this`softReason, this`candidateGrade, this`candidateCount
      ensures Valid() && history == [] && softReason == reason
    {
      samples, history := [], [];
      softGrade, softReason, candidateGrade, candidateCount := Block, reason, None, 0;
    }

    method MarkConnected(epoch: string, measuredAt: real)
      requires Valid()
      modifies this
      ensures Valid() && connected && probeFailures == 0 && connectionEpoch == Some(epoch)
      ensures updatedAt == Some(measuredAt)
      ensures history == if old(connectionEpoch) == Some(epoch) then old(history) else []
      ensures softReason == if old(connectionEpoch) == Some(epoch) then old(softReason) else AwaitingHysteresis
    {
      if connectionEpoch != Some(epoch) {
        ForgetSamples(AwaitingHysteresis);
      }
      connectionEpoch, connected, probeFailures, updatedAt := Some(epoch), true, 0, Some(measuredAt);
    }

    method MarkDisconnected(epoch: Option<string>, measuredAt: real)
      requires Valid()
      modifies this
      ensures Valid() && !connected && probeFailures == 0 && history == [] && updatedAt == Some(measuredAt)
      ensures connectionEpoch == if epoch.Some? && epoch.value != "" then epoch else old(connectionEpoch)
      ensures softReason == TunnelDisconnected
    {
      if epoch.Some? && epoch.value != "" {
        connectionEpoch := epoch;
      }
      connected, probeFailures, updatedAt := false, 0, Some(measuredAt);
      ForgetSamples(TunnelDisconnected);
    }

    method RecordProbe(networkMs: real, measuredAt: real)
      requires Valid()
      modifies this
      ensures Valid() && connected && probeFailures == 0 && updatedAt == Some(measuredAt)
      ensures history == old(history) + [networkMs] && connectionEpoch == old(connectionEpoch)
    {
      connected, probeFailures, updatedAt := true, 0, Some(measuredAt);
      AppendSample(networkMs);
    }

    /** The end of record_probe: the window slides, and is graded when it is full. */
    method AppendSample(networkMs: real)
      requires Valid()
      modifies this`samples, this`history, this`softGrade, this`softReason, this`candidateGrade, this`candidateCount
      ensures Valid() && history == old(history) + [networkMs]
    {
      LastOfAppend(history, networkMs, windowSize);
      ProbeAdvances(history, networkMs, windowSize, hysteresisWindows);
      samples := samples + [networkMs];
      if |samples| > windowSize {
        samples := samples[|samples| - windowSize..];
      }
      history := history + [networkMs];
      if |samples| >= windowSize {
        var desired := DesiredGrade(samples);
        ApplySoftGrade(desired);
      }
    }

    method ApplySoftGrade(desired: Grade)
      modifies this`softGrade, this`softReason, this`candidateGrade, this`candidateCount
      ensures Hysteresis(softGrade, candidateGrade, candidateCount) ==
              ApplyGrade(Hysteresis(old(softGrade), old(candidateGrade), old(candidateCount)), hysteresisWindows, desired)
      ensures candidateGrade.None? ==>
                softReason == match softGrade
                              case Good => WithinGood
                              case Warn => AboveGood
                              case Block => AboveWarn
      ensures candidateGrade.Some? ==>
                softReason == if softGrade == Block then AwaitingHysteresis else old(softReason)
    {
      if desired == softGrade {
        candidateGrade, candidateCount, softReason := None, 0, ReasonForGrade(desired);
        return;
      }
      if candidateGrade == Some(desired) {
        candidateCount := candidateCount + 1;
      } else {
        candidateGrade, candidateCount := Some(desired), 1;
      }
      if candidateCount >= hysteresisWindows {
        softGrade, softReason := desired, ReasonForGrade(desired);
        candidateGrade, candidateCount := None, 0;
        return;
      }
      if softGrade == Block {
        softReason := AwaitingHysteresis;
      }
    }

    method RecordProbeFailure(measuredAt: real, reason: Reason)
      requires Valid()
      modifies this`probeFailures, this`updatedAt, this`softReason
      ensures Valid() && probeFailures == old(probeFailures) + 1 && updatedAt == Some(measuredAt)
      ensures softReason == reason
    {
      probeFailures, updatedAt, softReason := probeFailures + 1, Some(measuredAt), reason;
    }

    /** The published grade is the settled one, and only while the tunnel is known to be up and recently probed. */
    method TakeSnapshot(now: real) returns (s: Snapshot)
      requires Valid()
      ensures s.connected == connected && s.probeFailures == probeFailures && s.sampleCount == |samples|
      ensures s.connectionEpoch == connectionEpoch && s.updatedAt == updatedAt
      ensures IsMetrics(s.networkMs, LastOf(history, windowSize))
      ensures s.isFresh <==> connected && updatedAt.Some? && now - updatedAt.value <= freshnessSeconds
      ensures s.grade == if s.isFresh && |history| >= windowSize && probeFailures == 0 then SettledGrade() else Block
      ensures s.status == StatusForGrade(s.grade)
      ensures s.status == Healthy <==> s.grade == Good
      ensures s.status == Degraded <==> s.grade == Warn
      ensures s.status == Blocked <==> s.grade == Block
      ensures s.reason ==
              if !connected then TunnelDisconnected
              else if updatedAt.None? then NoProbeSamples
              else if !s.isFresh then SnapshotStale
              else if |history| < windowSize then InsufficientSamples
              else if probeFailures > 0 then ProbeFailures
              else softReason
    {
      HysteresisFollowsRuns(hysteresisWindows, DesiredGrades(history, windowSize));
      var isFresh := connected && updatedAt.Some? && now - updatedAt.value <= freshnessSeconds;
      var grade, reason := Block, softReason;
      if !connected {
        reason := TunnelDisconnected;
      } else if updatedAt.None? {
        reason := NoProbeSamples;
      } else if !isFresh {
        reason := SnapshotStale;
      } else if |samples| < windowSize {
        reason := InsufficientSamples;
      } else if probeFailures > 0 {
        reason := ProbeFailures;
      } else {
        grade, reason := softGrade, softReason;
      }
      var metrics := TakeMetrics(samples);
      s := Snapshot(connectionEpoch, connected, isFresh, updatedAt, |samples|, metrics, grade, StatusForGrade(grade),
                    reason, probeFailures);
    }
  }

  // ---------------------------------------------------------------- over whole probe histories

  /** The incremental soft grade after any probe history is the grade of its most recent run. */
  lemma SoftGradeIsSettled(history: seq<real>, w: nat, h: int)
    ensures ApplyGrades(h, DesiredGrades(history, w)).soft == GradeOfLastRun(DesiredGrades(history, w), Windows(h))
  {
    HysteresisFollowsRuns(h, DesiredGrades(history, w));
  }

  lemma MultiplyOrder(a: nat, b: nat, n: nat)
    requires a <= b
    ensures a * n <= b * n
  {
  }

  lemma DivideBound(c: nat, n: nat, k: nat)
    requires n > 0 && c * n <= k
    ensures c <= k / n
  {
    var q := k / n;
    assert k < (q + 1) * n;
    if q < c {
      MultiplyOrder(q + 1, c, n);
    }
  }

  /** k probes change the grade at most k/h times. */
  lemma ProbesChangeGradeRarely(history: seq<real>, w: nat, h: int)
    ensures Changes(h, DesiredGrades(history, w)) <= |history| / Windows(h)
  {
    var ds := DesiredGrades(history, w);
    ChangesAreRare(h, ds);
    AtMostOneGradePerProbe(history, w);
    DivideBound(Changes(h, ds), Windows(h), |history|);
  }
}
