/**
 Event correlation (diagnostic_platform/observability_analysis.py): the events of one session are
 those that chains of shared identifiers lead to.  One loop finds them in a list in memory, another
 by scanning files again and again; both are proved against reachability by such chains.
 */
module Correlation {
  import opened Common
  import Sorting

  /** Where an event was read from; the file scan stamps it on every event. */
  datatype Source = Unsourced | Line(path: nat, number: nat)

  /** The fields correlation looks at, the time, the origin, and everything else a log line says. */
  datatype Event = Event(sessionId: Option<string>, connectionEpoch: Option<string>, dllSeq: Option<int>,
                         proxySeq: Option<int>, workerRequestId: Option<string>, at: real, source: Source, rest: nat)

  predicate Truthy(s: Option<string>) {
    s.Some? && s.value != ""
  }

  /** Two events share an identifier. */
  predicate Related(a: Event, b: Event) {
    || (a.dllSeq.Some? && a.dllSeq == b.dllSeq)
    || (a.proxySeq.Some? && a.proxySeq == b.proxySeq)
    || (Truthy(a.workerRequestId) && a.workerRequestId == b.workerRequestId)
    || (Truthy(a.connectionEpoch) && a.connectionEpoch == b.connectionEpoch)
  }

  predicate Matches(e: Event, sid: Option<string>, epoch: Option<string>) {
    (Truthy(sid) && e.sessionId == sid) || (Truthy(epoch) && e.connectionEpoch == epoch)
  }

  function Matching(events: set<Event>, sid: Option<string>, epoch: Option<string>): set<Event> {
    set e | e in events && Matches(e, sid, epoch)
  }

  function Sessionless(events: set<Event>): set<Event> {
    set e | e in events && e.sessionId.None?
  }

  /** Where the in-memory search starts: at the matching events, or else at those of no session. */
  function Seeds(events: set<Event>, sid: Option<string>, epoch: Option<string>): set<Event> {
    if Matching(events, sid, epoch) == {} && Truthy(sid) then Sessionless(events)
    else Matching(events, sid, epoch)
  }

  // ---------------------------------------------------------------- order by time

  function TimeOf(e: Event): real {
    e.at
  }

  /** _sort_events, a stable sort. */
  function SortByTime(s: seq<Event>): seq<Event> {
    Sorting.Sort(s, TimeOf)
  }

  predicate InTimeOrder(s: seq<Event>) {
    forall i, j :: 0 <= i < j < |s| ==> s[i].at <= s[j].at
  }

  /** The events of one instant, as they come. */
  function AtTime(s: seq<Event>, t: real): seq<Event> {
    Sorting.WithKey(s, TimeOf, t)
  }

  /** Sorting orders by time, keeps every copy, and leaves events of one instant as they came. */
  lemma SortIsStable(s: seq<Event>, t: real)
    ensures InTimeOrder(SortByTime(s)) && multiset(SortByTime(s)) == multiset(s)
    ensures AtTime(SortByTime(s), t) == AtTime(s, t)
  {
    Sorting.SortOrders(s, TimeOf);
    Sorting.SortIsStable(s, TimeOf, t);
    var r := SortByTime(s);
    assert forall i, j :: 0 <= i < j < |r| ==> TimeOf(r[i]) <= TimeOf(r[j]);
  }

  lemma SortKeepsSet(s: seq<Event>)
    ensures InTimeOrder(SortByTime(s)) && multiset(SortByTime(s)) == multiset(s)
    ensures forall e :: e in SortByTime(s) <==> e in s
  {
    SortIsStable(s, 0.0);
    assert forall e :: e in SortByTime(s) <==> e in multiset(SortByTime(s));
  }

  // ---------------------------------------------------------------- reachability

  ghost predicate Chain(path: seq<Event>, events: set<Event>, seeds: set<Event>) {
    && path != [] && path[0] in seeds
    && (forall i :: 0 <= i < |path| ==> path[i] in events)
    && (forall i :: 0 <= i < |path| - 1 ==> Related(path[i], path[i + 1]))
  }

  /** A chain of related events leads from a seed to `e`. */
  ghost predicate Reachable(e: Event, events: set<Event>, seeds: set<Event>) {
    exists path :: Chain(path, events, seeds) && path[|path| - 1] == e
  }

  ghost predicate Closed(selected: set<Event>, events: set<Event>) {
    forall a, b :: a in selected && b in events && Related(a, b) ==> b in selected
  }

  lemma SeedIsReachable(e: Event, events: set<Event>, seeds: set<Event>)
    requires e in seeds && e in events
    ensures Reachable(e, events, seeds)
  {
    assert Chain([e], events, seeds);
  }

  lemma NeighbourIsReachable(a: Event, b: Event, events: set<Event>, seeds: set<Event>)
    requires Reachable(a, events, seeds) && b in events && Related(a, b)
    ensures Reachable(b, events, seeds)
  {
    var path :| Chain(path, events, seeds) && path[|path| - 1] == a;
    assert Chain(path + [b], events, seeds);
    assert (path + [b])[|path + [b]| - 1] == b;
  }

  lemma ReachableIsThere(e: Event, events: set<Event>, seeds: set<Event>)
    requires Reachable(e, events, seeds)
    ensures e in events
  {
  }

  /** A closed set with the seeds in it contains every chain. */
  lemma {:induction false} ClosedHoldsChain(path: seq<Event>, selected: set<Event>, events: set<Event>, seeds: set<Event>)
    requires Chain(path, events, seeds) && seeds * events <= selected && Closed(selected, events)
    ensures path[|path| - 1] in selected
    decreases |path|
  {
    if |path| > 1 {
      var front := path[..|path| - 1];
      assert Chain(front, events, seeds);
      ClosedHoldsChain(front, selected, events, seeds);
      assert Related(front[|front| - 1], path[|path| - 1]);
    }
  }

  /** So a closed set of reachable events around the seeds is the set of all reachable ones. */
  lemma ClosureIsReachability(selected: set<Event>, events: set<Event>, seeds: set<Event>)
    requires seeds * events <= selected && Closed(selected, events)
    requires forall e <- selected :: Reachable(e, events, seeds)
    ensures forall e :: e in selected <==> Reachable(e, events, seeds)
  {
    forall e | Reachable(e, events, seeds)
      ensures e in selected
    {
      var path :| Chain(path, events, seeds) && path[|path| - 1] == e;
      ClosedHoldsChain(path, selected, events, seeds);
    }
  }

  // ---------------------------------------------------------------- the identifiers collected per round

  datatype Keys = Keys(dllSeqs: set<int>, proxySeqs: set<int>, workerIds: set<string>, epochs: set<string>)

  function KeysOf(selected: seq<Event>): Keys {
    Keys(set e | e in selected && e.dllSeq.Some? :: e.dllSeq.value,
         set e | e in selected && e.proxySeq.Some? :: e.proxySeq.value,
         set e | e in selected && Truthy(e.workerRequestId) :: e.workerRequestId.value,
         set e | e in selected && Truthy(e.connectionEpoch) :: e.connectionEpoch.value)
  }

  predicate Linked(e: Event, keys: Keys) {
    || (e.dllSeq.Some? && e.dllSeq.value in keys.dllSeqs)
    || (e.proxySeq.Some? && e.proxySeq.value in keys.proxySeqs)
    || (Truthy(e.workerRequestId) && e.workerRequestId.value in keys.workerIds)
    || (Truthy(e.connectionEpoch) && e.connectionEpoch.value in keys.epochs)
  }

  /** Any one of the four identifiers is enough, an absent or empty one never is. */
  lemma OneIdentifierIsEnough(a: Event, b: Event)
    ensures a.dllSeq == b.dllSeq != None ==> Related(a, b)
    ensures a.proxySeq == b.proxySeq != None ==> Related(a, b)
    ensures a.workerRequestId == b.workerRequestId && a.workerRequestId !in {None, Some("")} ==> Related(a, b)
    ensures a.connectionEpoch == b.connectionEpoch && a.connectionEpoch !in {None, Some("")} ==> Related(a, b)
    ensures Related(a, b) ==>
              || a.dllSeq == b.dllSeq != None
              || a.proxySeq == b.proxySeq != None
              || (a.workerRequestId == b.workerRequestId && a.workerRequestId !in {None, Some("")})
              || (a.connectionEpoch == b.connectionEpoch && a.connectionEpoch !in {None, Some("")})
  {
  }

  lemma LinkedMeansRelated(e: Event, selected: seq<Event>)
    ensures Linked(e, KeysOf(selected)) <==> exists s <- selected :: Related(s, e)
  {
  }

  ghost function ToSet(events: seq<Event>): set<Event> {
    set e | e in events
  }

  // ---------------------------------------------------------------- the search in memory

  function WithSession(events: seq<Event>, sid: Option<string>, epoch: Option<string>): (r: seq<Event>)
    ensures forall e :: e in r <==> e in events && Matches(e, sid, epoch)
    ensures forall e <- r :: multiset(r)[e] == multiset(events)[e]
  {
    if events == [] then []
    else
      assert events == [events[0]] + events[1..];
      (if Matches(events[0], sid, epoch) then [events[0]] else []) + WithSession(events[1..], sid, epoch)
  }

  function WithoutSession(events: seq<Event>): (r: seq<Event>)
    ensures forall e :: e in r <==> e in events && e.sessionId.None?
    ensures forall e <- r :: multiset(r)[e] == multiset(events)[e]
  {
    if events == [] then []
    else
      assert events == [events[0]] + events[1..];
      (if events[0].sessionId.None? then [events[0]] else []) + WithoutSession(events[1..])
  }

  /** Sound so far: only reachable events of the list, and all the seeds. */
  ghost predicate Partial(selected: seq<Event>, events: set<Event>, seeds: set<Event>) {
    && ToSet(selected) <= events
    && seeds <= ToSet(selected)
    && (forall e <- selected :: Reachable(e, events, seeds))
  }

  lemma AppendKeepsPartial(selected: seq<Event>, e: Event, events: set<Event>, seeds: set<Event>)
    requires Partial(selected, events, seeds) && e in events && Reachable(e, events, seeds)
    ensures Partial(selected + [e], events, seeds)
    ensures ToSet(selected + [e]) == ToSet(selected) + {e}
  {
    assert ToSet(selected + [e]) == ToSet(selected) + {e};
  }

  /** Seeds are selected with all their copies, everything else once. */
  ghost predicate Copies(selected: seq<Event>, events: seq<Event>, seeds: set<Event>) {
    forall e <- selected :: multiset(selected)[e] == if e in seeds then multiset(events)[e] else 1
  }

  lemma AppendKeepsCopies(selected: seq<Event>, e: Event, events: seq<Event>, seeds: set<Event>)
    requires Copies(selected, events, seeds) && e !in selected && e !in seeds
    ensures Copies(selected + [e], events, seeds)
  {
    assert e !in multiset(selected);
  }

  lemma LinkedIsReachable(e: Event, selected: seq<Event>, events: set<Event>, seeds: set<Event>)
    requires Partial(selected, events, seeds) && e in events && Linked(e, KeysOf(selected))
    ensures Reachable(e, events, seeds)
  {
    LinkedMeansRelated(e, selected);
    var s :| s in selected && Related(s, e);
    NeighbourIsReachable(s, e, events, seeds);
  }

  lemma HoldsLinkedIsClosed(selected: seq<Event>, events: seq<Event>)
    requires forall e <- events :: Linked(e, KeysOf(selected)) ==> e in selected
    ensures Closed(ToSet(selected), ToSet(events))
  {
    forall a, b | a in ToSet(selected) && b in ToSet(events) && Related(a, b)
      ensures b in ToSet(selected)
    {
      LinkedMeansRelated(b, selected);
    }
  }

  lemma MoreKeepsSession(before: seq<Event>, selected: seq<Event>, events: seq<Event>, sid: Option<string>)
    requires HasSession(before, events, sid) && ToSet(before) <= ToSet(selected)
    ensures HasSession(selected, events, sid)
  {
    forall e | e in events && Truthy(sid) && e.sessionId == sid
      ensures e in selected
    {
      assert e in ToSet(before);
    }
  }

  /** One more event, linked to what was known at the start of the sweep. */
  lemma AddLinked(selected: seq<Event>, e: Event, before: seq<Event>, events: seq<Event>, seeds: set<Event>)
    requires Partial(before, ToSet(events), seeds) && Partial(selected, ToSet(events), seeds)
    requires Copies(selected, events, seeds) && ToSet(before) <= ToSet(selected)
    requires e in events && e !in selected && Linked(e, KeysOf(before))
    ensures Partial(selected + [e], ToSet(events), seeds) && Copies(selected + [e], events, seeds)
    ensures ToSet(before) <= ToSet(selected + [e]) != ToSet(before)
  {
    assert e !in ToSet(selected);
    LinkedIsReachable(e, before, ToSet(events), seeds);
    AppendKeepsPartial(selected, e, ToSet(events), seeds);
    AppendKeepsCopies(selected, e, events, seeds);
  }

  /** A sweep so far: nothing unreachable added, no copies lost, and `changed` says whether anything was added. */
  ghost predicate Sweeping(selected: seq<Event>, changed: bool, before: seq<Event>, events: seq<Event>, seeds: set<Event>) {
    && Partial(selected, ToSet(events), seeds) && Copies(selected, events, seeds)
    && ToSet(before) <= ToSet(selected)
    && (if changed then ToSet(before) != ToSet(selected) else selected == before)
  }

  /** Of the first `n` events all that are linked to these identifiers have been selected. */
  predicate LinkedDone(selected: seq<Event>, events: seq<Event>, n: nat, keys: Keys)
    requires n <= |events|
  {
    forall j :: 0 <= j < n && Linked(events[j], keys) ==> events[j] in selected
  }

  /** What a sweep does with one event. */
  method SweepEvent(i: nat, start: seq<Event>, startChanged: bool, keys: Keys, sid: Option<string>,
                    ghost before: seq<Event>, events: seq<Event>, ghost seeds: set<Event>)
    returns (selected: seq<Event>, changed: bool)
    requires Sweeping(start, startChanged, before, events, seeds) && i < |events| && keys == KeysOf(before)
    requires Partial(before, ToSet(events), seeds) && HasSession(before, events, sid) && LinkedDone(start, events, i, keys)
    ensures Sweeping(selected, changed, before, events, seeds) && LinkedDone(selected, events, i + 1, keys)
  {
    selected, changed := start, startChanged;
    var event := events[i];
    if event in selected {
      return;
    }
    if (Truthy(sid) && event.sessionId == sid) || Linked(event, keys) {
      NewcomerIsLinked(event, selected, before, events, sid, keys);
      AddLinked(selected, event, before, events, seeds);
      selected, changed := selected + [event], true;
    }
  }

  /** One sweep over the list with the identifiers known at its start. */
  method Sweep(events: seq<Event>, before: seq<Event>, sid: Option<string>, ghost seeds: set<Event>)
    returns (selected: seq<Event>, changed: bool)
    requires Partial(before, ToSet(events), seeds)
    requires HasSession(before, events, sid) && Copies(before, events, seeds)
    ensures Sweeping(selected, changed, before, events, seeds)
    ensures !changed ==> Closed(ToSet(before), ToSet(events))
  {
    selected, changed := before, false;
    var keys := KeysOf(before);
    for i := 0 to |events|
      invariant Sweeping(selected, changed, before, events, seeds) && LinkedDone(selected, events, i, keys)
    {
      selected, changed := SweepEvent(i, selected, changed, keys, sid, before, events, seeds);
    }
    if !changed {
      UnchangedMeansClosed(before, events);
    }
  }

  lemma UnchangedMeansClosed(before: seq<Event>, events: seq<Event>)
    requires LinkedDone(before, events, |events|, KeysOf(before))
    ensures Closed(ToSet(before), ToSet(events))
  {
    HoldsLinkedIsClosed(before, events);
  }

  /** The session's own events are there from the beginning, so what a sweep adds is linked. */
  lemma NewcomerIsLinked(e: Event, selected: seq<Event>, before: seq<Event>, events: seq<Event>, sid: Option<string>,
                         keys: Keys)
    requires HasSession(before, events, sid) && ToSet(before) <= ToSet(selected) && e in events && e !in selected
    requires (Truthy(sid) && e.sessionId == sid) || Linked(e, keys)
    ensures Linked(e, keys)
  {
    assert e !in ToSet(selected);
  }

  ghost predicate HasSession(selected: seq<Event>, events: seq<Event>, sid: Option<string>) {
    Truthy(sid) ==> forall e <- events :: e.sessionId == sid ==> e in selected
  }

  /** The events the search starts from. */
  method SelectSeeds(events: seq<Event>, sid: Option<string>, epoch: Option<string>) returns (selected: seq<Event>)
    ensures Partial(selected, ToSet(events), Seeds(ToSet(events), sid, epoch))
    ensures HasSession(selected, events, sid) && Copies(selected, events, Seeds(ToSet(events), sid, epoch))
  {
    ghost var all := ToSet(events);
    selected := WithSession(events, sid, epoch);
    assert forall e :: e in selected <==> e in Matching(all, sid, epoch);
    if selected == [] && Truthy(sid) {
      assert Matching(all, sid, epoch) == {};
      forall e | e in events
        ensures e.sessionId != sid
      {
        assert e !in Matching(all, sid, epoch);
      }
      selected := WithoutSession(events);
    } else if selected != [] {
      assert selected[0] in Matching(all, sid, epoch);
    }
    forall e | e in selected
      ensures Reachable(e, all, Seeds(all, sid, epoch))
    {
      SeedIsReachable(e, all, Seeds(all, sid, epoch));
    }
  }

  /** _expand_related_events: the reachable events in order of time, seeds with all their copies and the rest once. */
  method ExpandRelated(events: seq<Event>, sid: Option<string>, epoch: Option<string>) returns (related: seq<Event>)
    ensures InTimeOrder(related)
    ensures !Truthy(sid) && !Truthy(epoch) ==> related == SortByTime(events)
    ensures Truthy(sid) || Truthy(epoch) ==>
              && (forall e :: e in related <==> Reachable(e, ToSet(events), Seeds(ToSet(events), sid, epoch)))
              && Copies(related, events, Seeds(ToSet(events), sid, epoch))
  {
    if !Truthy(sid) && !Truthy(epoch) {
      SortKeepsSet(events);
      return SortByTime(events);
    }
    ghost var all := ToSet(events);
    ghost var seeds := Seeds(all, sid, epoch);
    var selected := SelectSeeds(events, sid, epoch);
    var changed := true;
    while changed
      invariant Partial(selected, all, seeds) && HasSession(selected, events, sid) && Copies(selected, events, seeds)
      invariant !changed ==> Closed(ToSet(selected), all)
      decreases |all - ToSet(selected)|, changed
    {
      ghost var before := selected;
      selected, changed := Sweep(events, selected, sid, seeds);
      MoreKeepsSession(before, selected, events, sid);
      if changed {
        FewerLeft(all, ToSet(before), ToSet(selected));
      }
    }
    ClosureIsReachability(ToSet(selected), all, seeds);
    SortKeepsSet(selected);
    related := SortByTime(selected);
  }

  lemma FewerLeft<T>(all: set<T>, before: set<T>, after: set<T>)
    requires before <= after <= all && before != after
    ensures |all - after| < |all - before|
  {
    var x :| x in after && x !in before;
    assert all - after <= all - before - {x};
    SubsetIsSmaller(all - after, all - before - {x});
  }

  lemma {:induction false} SubsetIsSmaller<T>(a: set<T>, b: set<T>)
    requires a <= b
    ensures |a| <= |b|
    decreases a
  {
    if a != {} {
      var x :| x in a;
      SubsetIsSmaller(a - {x}, b - {x});
    }
  }

  // ---------------------------------------------------------------- the search over files

  /** A file is its lines; a blank line holds no event. */
  type Files = map<nat, seq<Option<Event>>>

  /** _iter_event_file stamps every event with its file and line number. */
  function Sourced(e: Event, path: nat, index: nat): (r: Event)
    ensures r.source == Line(path, index + 1) && r.(source := e.source) == e
  {
    e.(source := Line(path, index + 1))
  }

  ghost predicate IsLine(e: Event, rawPaths: seq<nat>, files: Files) {
    exists p, i :: p in rawPaths && p in files && 0 <= i < |files[p]| && files[p][i].Some?
                   && e == Sourced(files[p][i].value, p, i)
  }

  /** Every event of every listed file, each physical line once. */
  ghost function AllLines(rawPaths: seq<nat>, files: Files): (r: set<Event>)
    ensures forall e :: e in r <==> IsLine(e, rawPaths, files)
  {
    set p, i | p in rawPaths && p in files && 0 <= i < |files[p]| && files[p][i].Some? ::
      Sourced(files[p][i].value, p, i)
  }

  /** A line number names one event. */
  lemma SameLineSameEvent(a: Event, b: Event, rawPaths: seq<nat>, files: Files)
    requires IsLine(a, rawPaths, files) && IsLine(b, rawPaths, files) && a.source == b.source
    ensures a == b
  {
  }

  ghost predicate NoDuplicates(selected: seq<Event>) {
    forall i, j :: 0 <= i < j < |selected| ==> selected[i] != selected[j]
  }

  /** The keys of the selected lines are exactly the remembered ones. */
  ghost predicate KeysMatch(selected: seq<Event>, selectedKeys: set<Source>) {
    && (forall e <- selected :: e.source in selectedKeys)
    && (forall k <- selectedKeys :: exists e <- selected :: e.source == k)
    && NoDuplicates(selected)
  }

  lemma KeySeen(e: Event, selected: seq<Event>, selectedKeys: set<Source>, rawPaths: seq<nat>, files: Files)
    requires KeysMatch(selected, selectedKeys) && IsLine(e, rawPaths, files)
    requires ToSet(selected) <= AllLines(rawPaths, files)
    ensures e.source in selectedKeys <==> e in selected
  {
    if e.source in selectedKeys {
      var s :| s in selected && s.source == e.source;
      assert s in ToSet(selected);
      SameLineSameEvent(s, e, rawPaths, files);
    }
  }

  /** The scan is sound so far: reachable lines only, each once, and their keys are remembered. */
  ghost predicate Scanned(selected: seq<Event>, selectedKeys: set<Source>, all: set<Event>, seeds: set<Event>) {
    && ToSet(selected) <= all
    && (forall e <- selected :: Reachable(e, all, seeds))
    && KeysMatch(selected, selectedKeys)
  }

  /** What one line does to the selection. */
  predicate Wanted(e: Event, keys: Keys, sid: Option<string>, epoch: Option<string>) {
    Matches(e, sid, epoch) || Linked(e, keys)
  }

  lemma WantedIsReachable(e: Event, before: seq<Event>, all: set<Event>, sid: Option<string>, epoch: Option<string>)
    requires e in all && Wanted(e, KeysOf(before), sid, epoch)
    requires forall s <- before :: Reachable(s, all, Matching(all, sid, epoch))
    ensures Reachable(e, all, Matching(all, sid, epoch))
  {
    if Matches(e, sid, epoch) {
      SeedIsReachable(e, all, Matching(all, sid, epoch));
    } else {
      LinkedMeansRelated(e, before);
      var s :| s in before && Related(s, e);
      NeighbourIsReachable(s, e, all, Matching(all, sid, epoch));
    }
  }

  lemma AppendKeepsScanned(selected: seq<Event>, selectedKeys: set<Source>, e: Event, all: set<Event>, seeds: set<Event>)
    requires Scanned(selected, selectedKeys, all, seeds)
    requires e in all && Reachable(e, all, seeds) && e !in selected
    ensures Scanned(selected + [e], selectedKeys + {e.source}, all, seeds)
    ensures ToSet(selected + [e]) == ToSet(selected) + {e}
  {
    assert ToSet(selected + [e]) == ToSet(selected) + {e};
    forall k | k in selectedKeys + {e.source}
      ensures exists x <- selected + [e] :: x.source == k
    {
      if k in selectedKeys {
        var x :| x in selected && x.source == k;
        assert x in selected + [e];
      } else {
        assert e in selected + [e];
      }
    }
  }

  /** If the line is wanted, it has been selected. */
  ghost predicate LineHandled(selected: seq<Event>, path: nat, i: nat, files: Files, keys: Keys,
                              sid: Option<string>, epoch: Option<string>)
    requires path in files && i < |files[path]|
  {
    files[path][i].Some? && Wanted(Sourced(files[path][i].value, path, i), keys, sid, epoch) ==>
      Sourced(files[path][i].value, path, i) in selected
  }

  /** Everything wanted on the first `n` lines of a file has been selected. */
  ghost predicate LinesDone(selected: seq<Event>, path: nat, n: nat, files: Files, keys: Keys,
                            sid: Option<string>, epoch: Option<string>)
    requires path in files && n <= |files[path]|
  {
    forall i :: 0 <= i < n ==> LineHandled(selected, path, i, files, keys, sid, epoch)
  }

  method ScanLine(path: nat, i: nat, ghost rawPaths: seq<nat>, files: Files, ghost before: seq<Event>, keys: Keys,
                  sid: Option<string>, epoch: Option<string>, start: seq<Event>, startKeys: set<Source>)
    returns (selected: seq<Event>, selectedKeys: set<Source>)
    requires path in rawPaths && path in files && i < |files[path]| && keys == KeysOf(before) && before <= start
    requires Scanned(start, startKeys, AllLines(rawPaths, files), Matching(AllLines(rawPaths, files), sid, epoch))
    ensures Scanned(selected, selectedKeys, AllLines(rawPaths, files), Matching(AllLines(rawPaths, files), sid, epoch))
    ensures start <= selected && LineHandled(selected, path, i, files, keys, sid, epoch)
  {
    selected, selectedKeys := start, startKeys;
    if files[path][i].None? {
      return;
    }
    var event := Sourced(files[path][i].value, path, i);
    assert IsLine(event, rawPaths, files);
    KeySeen(event, start, startKeys, rawPaths, files);
    if event.source in selectedKeys {
      return;
    }
    if Wanted(event, keys, sid, epoch) {
      ghost var all := AllLines(rawPaths, files);
      assert forall s <- before :: s in start;
      WantedIsReachable(event, before, all, sid, epoch);
      AppendKeepsScanned(start, startKeys, event, all, Matching(all, sid, epoch));
      selected, selectedKeys := selected + [event], selectedKeys + {event.source};
    }
  }

  method ScanFile(path: nat, ghost rawPaths: seq<nat>, files: Files, ghost before: seq<Event>, keys: Keys,
                  sid: Option<string>, epoch: Option<string>, start: seq<Event>, startKeys: set<Source>)
    returns (selected: seq<Event>, selectedKeys: set<Source>)
    requires path in rawPaths && path in files && keys == KeysOf(before) && before <= start
    requires Scanned(start, startKeys, AllLines(rawPaths, files), Matching(AllLines(rawPaths, files), sid, epoch))
    ensures Scanned(selected, selectedKeys, AllLines(rawPaths, files), Matching(AllLines(rawPaths, files), sid, epoch))
    ensures start <= selected
    ensures LinesDone(selected, path, |files[path]|, files, keys, sid, epoch)
  {
    selected, selectedKeys := start, startKeys;
    for i := 0 to |files[path]|
      invariant Scanned(selected, selectedKeys, AllLines(rawPaths, files), Matching(AllLines(rawPaths, files), sid, epoch))
      invariant start <= selected && LinesDone(selected, path, i, files, keys, sid, epoch)
    {
      ghost var was := selected;
      selected, selectedKeys := ScanLine(path, i, rawPaths, files, before, keys, sid, epoch, selected, selectedKeys);
      LinesStayDone(was, selected, path, i, files, keys, sid, epoch);
    }
  }

  lemma LinesStayDone(a: seq<Event>, b: seq<Event>, path: nat, n: nat, files: Files, keys: Keys,
                      sid: Option<string>, epoch: Option<string>)
    requires a <= b && path in files && n <= |files[path]| && LinesDone(a, path, n, files, keys, sid, epoch)
    ensures LinesDone(b, path, n, files, keys, sid, epoch)
  {
    forall i | 0 <= i < n
      ensures LineHandled(b, path, i, files, keys, sid, epoch)
    {
      assert LineHandled(a, path, i, files, keys, sid, epoch);
    }
  }

  /** One round: all listed files with the identifiers known at its start. */
  method ScanRound(rawPaths: seq<nat>, files: Files, sid: Option<string>, epoch: Option<string>,
                   before: seq<Event>, beforeKeys: set<Source>)
    returns (selected: seq<Event>, selectedKeys: set<Source>)
    requires forall p <- rawPaths :: p in files
    requires Scanned(before, beforeKeys, AllLines(rawPaths, files), Matching(AllLines(rawPaths, files), sid, epoch))
    ensures Scanned(selected, selectedKeys, AllLines(rawPaths, files), Matching(AllLines(rawPaths, files), sid, epoch))
    ensures before <= selected
    ensures forall e <- AllLines(rawPaths, files) :: Wanted(e, KeysOf(before), sid, epoch) ==> e in selected
  {
    selected, selectedKeys := before, beforeKeys;
    var keys := KeysOf(before);
    for a := 0 to |rawPaths|
      invariant Scanned(selected, selectedKeys, AllLines(rawPaths, files), Matching(AllLines(rawPaths, files), sid, epoch))
      invariant before <= selected
      invariant forall p <- rawPaths[..a] :: LinesDone(selected, p, |files[p]|, files, keys, sid, epoch)
    {
      ghost var was := selected;
      selected, selectedKeys :=
        ScanFile(rawPaths[a], rawPaths, files, before, keys, sid, epoch, selected, selectedKeys);
      forall p <- rawPaths[..a + 1]
        ensures LinesDone(selected, p, |files[p]|, files, keys, sid, epoch)
      {
        if p != rawPaths[a] {
          assert p in rawPaths[..a];
          LinesStayDone(was, selected, p, |files[p]|, files, keys, sid, epoch);
        }
      }
    }
    assert rawPaths[..|rawPaths|] == rawPaths;
    forall e | e in AllLines(rawPaths, files) && Wanted(e, keys, sid, epoch)
      ensures e in selected
    {
      assert IsLine(e, rawPaths, files);
      var p, i :| p in rawPaths && p in files && 0 <= i < |files[p]| && files[p][i].Some?
                  && e == Sourced(files[p][i].value, p, i);
      assert LineHandled(selected, p, i, files, keys, sid, epoch);
    }
  }

  /** _stream_related_events: the reachable lines in order of time, each physical line once. */
  method StreamRelated(rawPaths: seq<nat>, files: Files, sid: Option<string>, epoch: Option<string>)
    returns (related: seq<Event>)
    requires forall p <- rawPaths :: p in files
    ensures var all := AllLines(rawPaths, files);
            forall e :: e in related <==> Reachable(e, all, Matching(all, sid, epoch))
    ensures NoDuplicates(related) && InTimeOrder(related)
  {
    ghost var all := AllLines(rawPaths, files);
    ghost var seeds := Matching(all, sid, epoch);
    var selected := [];
    var selectedKeys: set<Source> := {};
    var changed := true;
    while changed
      invariant Scanned(selected, selectedKeys, all, seeds)
      invariant !changed ==> forall e <- all :: Wanted(e, KeysOf(selected), sid, epoch) ==> e in selected
      decreases |all| - |selected|, changed
    {
      ghost var before := selected;
      var count := |selected|;
      selected, selectedKeys := ScanRound(rawPaths, files, sid, epoch, selected, selectedKeys);
      changed := |selected| != count;
      assert !changed ==> selected == before;
      DistinctFit(selected, all);
    }
    StableScanIsReachability(selected, selectedKeys, all, sid, epoch);
    SortKeepsSet(selected);
    SortKeepsDistinct(selected);
    related := SortByTime(selected);
  }

  lemma StableScanIsReachability(selected: seq<Event>, selectedKeys: set<Source>, all: set<Event>,
                                 sid: Option<string>, epoch: Option<string>)
    requires Scanned(selected, selectedKeys, all, Matching(all, sid, epoch))
    requires forall e <- all :: Wanted(e, KeysOf(selected), sid, epoch) ==> e in selected
    ensures forall e :: e in selected <==> Reachable(e, all, Matching(all, sid, epoch))
  {
    StableScanIsClosed(selected, all, sid, epoch);
    ClosureIsReachability(ToSet(selected), all, Matching(all, sid, epoch));
    assert forall e :: e in selected <==> e in ToSet(selected);
  }

  lemma {:induction false} DistinctMeansOnce(s: seq<Event>)
    ensures NoDuplicates(s) <==> forall e :: multiset(s)[e] <= 1
    decreases |s|
  {
    if s != [] {
      var front, last := s[..|s| - 1], s[|s| - 1];
      assert s == front + [last];
      DistinctMeansOnce(front);
      if NoDuplicates(s) {
        assert NoDuplicates(front);
        assert last !in front;
        assert last !in multiset(front);
      } else if NoDuplicates(front) {
        assert last in front;
        assert last in multiset(front);
        assert multiset(s)[last] >= 2;
      } else {
        var e :| multiset(front)[e] > 1;
        assert multiset(s)[e] > 1;
      }
    }
  }

  lemma SortKeepsDistinct(s: seq<Event>)
    requires NoDuplicates(s)
    ensures NoDuplicates(SortByTime(s))
  {
    SortKeepsSet(s);
    DistinctMeansOnce(s);
    DistinctMeansOnce(SortByTime(s));
  }

  lemma StableScanIsClosed(selected: seq<Event>, all: set<Event>, sid: Option<string>, epoch: Option<string>)
    requires forall e <- all :: Wanted(e, KeysOf(selected), sid, epoch) ==> e in selected
    ensures Closed(ToSet(selected), all) && Matching(all, sid, epoch) <= ToSet(selected)
  {
    forall a, b | a in ToSet(selected) && b in all && Related(a, b)
      ensures b in ToSet(selected)
    {
      LinkedMeansRelated(b, selected);
    }
  }

  lemma {:induction false} DistinctFit(s: seq<Event>, all: set<Event>)
    requires NoDuplicates(s) && ToSet(s) <= all
    ensures |s| <= |all|
    decreases |s|
  {
    if s != [] {
      var last, front := s[|s| - 1], s[..|s| - 1];
      assert last in ToSet(s);
      forall e | e in ToSet(front)
        ensures e in all - {last}
      {
        assert e in ToSet(s);
      }
      DistinctFit(front, all - {last});
    }
  }

  // ---------------------------------------------------------------- the two searches compared

  ghost function ReachableSet(events: set<Event>, seeds: set<Event>): (r: set<Event>)
    ensures forall e :: e in r <==> Reachable(e, events, seeds)
  {
    set e | e in events && Reachable(e, events, seeds)
  }

  /**
   Over the same lines the two searches select the same events, except in one case: a session is named,
   nothing matches, and there are events of no session for the search in memory to fall back on.
   */
  lemma SearchesAgreeIff(all: set<Event>, sid: Option<string>, epoch: Option<string>)
    ensures ReachableSet(all, Seeds(all, sid, epoch)) == ReachableSet(all, Matching(all, sid, epoch)) <==>
            Matching(all, sid, epoch) != {} || !Truthy(sid) || Sessionless(all) == {}
  {
    if Matching(all, sid, epoch) == {} && Truthy(sid) && Sessionless(all) != {} {
      var e :| e in Sessionless(all);
      SeedIsReachable(e, all, Sessionless(all));
      assert e in ReachableSet(all, Seeds(all, sid, epoch));
      assert !Reachable(e, all, {});
    }
  }

  function Resolve(given: Option<string>, snapshot: Option<string>): Option<string> {
    if Truthy(given) then given else if Truthy(snapshot) then snapshot else None
  }

  /** Searching the streamed events again, with identifiers completed from a snapshot, changes nothing. */
  lemma ReExpansionIsStable(all: set<Event>, sid: Option<string>, epoch: Option<string>,
                            snapSid: Option<string>, snapEpoch: Option<string>)
    requires Truthy(sid) || Truthy(epoch)
    ensures var loaded := ReachableSet(all, Matching(all, sid, epoch));
            ReachableSet(loaded, Seeds(loaded, Resolve(sid, snapSid), Resolve(epoch, snapEpoch))) == loaded
  {
    var seeds := Matching(all, sid, epoch);
    var loaded := ReachableSet(all, seeds);
    var sid', epoch' := Resolve(sid, snapSid), Resolve(epoch, snapEpoch);
    var again := Seeds(loaded, sid', epoch');
    forall e | e in loaded
      ensures Reachable(e, loaded, again)
    {
      var path :| Chain(path, all, seeds) && path[|path| - 1] == e;
      ChainStaysReachable(path, all, seeds);
      assert path[0] in Matching(loaded, sid', epoch');
      assert Chain(path, loaded, again);
    }
    forall e | Reachable(e, loaded, again)
      ensures e in loaded
    {
      ReachableIsThere(e, loaded, again);
    }
  }

  /** Every event on a chain is itself reachable. */
  lemma ChainStaysReachable(path: seq<Event>, events: set<Event>, seeds: set<Event>)
    requires Chain(path, events, seeds)
    ensures forall i :: 0 <= i < |path| ==> path[i] in ReachableSet(events, seeds)
  {
    forall i | 0 <= i < |path|
      ensures path[i] in ReachableSet(events, seeds)
    {
      assert Chain(path[..i + 1], events, seeds);
      assert path[..i + 1][|path[..i + 1]| - 1] == path[i];
    }
  }

  /** A caller, or a snapshot, names something. */
  predicate Asked(sid: Option<string>, epoch: Option<string>) {
    sid !in {None, Some("")} || epoch !in {None, Some("")}
  }

  /** The event carries the session or the epoch that is named. */
  predicate Carries(e: Event, sid: Option<string>, epoch: Option<string>) {
    || (sid !in {None, Some("")} && e.sessionId == sid)
    || (epoch !in {None, Some("")} && e.connectionEpoch == epoch)
  }

  /** Where a timeline starts: at the carriers, or, with a fallback and a session but no carrier, at the sessionless. */
  predicate StartsAt(e: Event, all: set<Event>, sid: Option<string>, epoch: Option<string>, fallback: bool) {
    || Carries(e, sid, epoch)
    || (fallback && sid !in {None, Some("")} && e.sessionId.None? && forall x <- all :: !Carries(x, sid, epoch))
  }

  function Starts(all: set<Event>, sid: Option<string>, epoch: Option<string>, fallback: bool): set<Event> {
    set e | e in all && StartsAt(e, all, sid, epoch, fallback)
  }

  /** Exactly the events that chains of shared identifiers lead to from these. */
  ghost predicate LedToFrom(timeline: seq<Event>, all: set<Event>, starts: set<Event>) {
    forall e :: e in timeline <==> Reachable(e, all, starts)
  }

  lemma SeedsAreStarts(all: set<Event>, sid: Option<string>, epoch: Option<string>)
    ensures Matching(all, sid, epoch) == Starts(all, sid, epoch, false)
    ensures Seeds(all, sid, epoch) == Starts(all, sid, epoch, true)
    ensures Truthy(sid) || Truthy(epoch) <==> Asked(sid, epoch)
  {
    forall e
      ensures Matches(e, sid, epoch) <==> Carries(e, sid, epoch)
    {
    }
    if Matching(all, sid, epoch) == {} {
      assert forall x <- all :: x !in Matching(all, sid, epoch);
    } else {
      var x :| x in Matching(all, sid, epoch);
      assert Carries(x, sid, epoch);
    }
  }

  /**
   What a timeline from files holds.  If the caller names something: what is led to from its carriers, each
   line once, whatever the snapshot says.  If only the snapshot does: what is led to from the snapshot's
   carriers or the fallback, the starts as often as they are listed.  Otherwise: everything listed.
   */
  ghost predicate IsFileTimeline(timeline: seq<Event>, rawPaths: seq<nat>, files: Files,
                                 sid: Option<string>, epoch: Option<string>,
                                 snapSid: Option<string>, snapEpoch: Option<string>)
    requires forall p <- rawPaths :: p in files
  {
    var all := AllLines(rawPaths, files);
    if Asked(sid, epoch) then
      LedToFrom(timeline, all, Starts(all, sid, epoch, false)) && NoDuplicates(timeline)
    else if Asked(snapSid, snapEpoch) then
      && LedToFrom(timeline, all, Starts(all, snapSid, snapEpoch, true))
      && Copies(timeline, ListedEvents(rawPaths, files), Starts(all, snapSid, snapEpoch, true))
    else timeline == SortByTime(ListedEvents(rawPaths, files))
  }

  /** Two lines of two sessions that share nothing: the snapshot's session decides which one is told. */
  lemma SnapshotDecides(mine: Event, other: Event, timeline: seq<Event>)
    requires mine != other && mine.sessionId == Some("S1") && other.sessionId == Some("S2") && !Related(mine, other)
    requires LedToFrom(timeline, {mine, other}, Starts({mine, other}, Some("S1"), None, true))
    ensures mine in timeline && other !in timeline
  {
    var all := {mine, other};
    var starts := Starts(all, Some("S1"), None, true);
    assert "S1"[1] != "S2"[1];
    assert Carries(mine, Some("S1"), None) && starts == {mine};
    SeedIsReachable(mine, all, starts);
    if Reachable(other, all, starts) {
      assert Closed({mine}, all);
      var path :| Chain(path, all, starts) && path[|path| - 1] == other;
      ClosedHoldsChain(path, {mine}, all, starts);
    }
  }

  /** Copies of distinct events are distinct. */
  lemma DistinctStayDistinct(selected: seq<Event>, events: seq<Event>, seeds: set<Event>)
    requires NoDuplicates(events) && Copies(selected, events, seeds)
    ensures NoDuplicates(selected)
  {
    DistinctMeansOnce(events);
    DistinctMeansOnce(selected);
    forall e
      ensures multiset(selected)[e] <= 1
    {
      if e in multiset(selected) {
        assert e in selected;
      }
    }
  }

  /**
   The timeline of assemble_session_trace: from the events it is given, which leaves the snapshot out, or
   else from files.
   */
  method AssembleTimeline(given: Option<seq<Event>>, rawPaths: seq<nat>, files: Files,
                          sid: Option<string>, epoch: Option<string>,
                          snapSid: Option<string>, snapEpoch: Option<string>) returns (timeline: seq<Event>)
    requires forall p <- rawPaths :: p in files
    ensures InTimeOrder(timeline)
    ensures given.Some? ==>
              var all := ToSet(given.value);
              if Asked(sid, epoch) then
                && LedToFrom(timeline, all, Starts(all, sid, epoch, true))
                && Copies(timeline, given.value, Starts(all, sid, epoch, true))
              else timeline == SortByTime(given.value)
    ensures given.None? ==> IsFileTimeline(timeline, rawPaths, files, sid, epoch, snapSid, snapEpoch)
  {
    if given.Some? {
      SeedsAreStarts(ToSet(given.value), sid, epoch);
      timeline := ExpandRelated(given.value, sid, epoch);
    } else {
      timeline := TimelineFromFiles(rawPaths, files, sid, epoch, snapSid, snapEpoch);
    }
  }

  method TimelineFromFiles(rawPaths: seq<nat>, files: Files, sid: Option<string>, epoch: Option<string>,
                           snapSid: Option<string>, snapEpoch: Option<string>) returns (timeline: seq<Event>)
    requires forall p <- rawPaths :: p in files
    ensures InTimeOrder(timeline)
    ensures IsFileTimeline(timeline, rawPaths, files, sid, epoch, snapSid, snapEpoch)
  {
    var sid', epoch' := Resolve(sid, snapSid), Resolve(epoch, snapEpoch);
    ghost var all := AllLines(rawPaths, files);
    SeedsAreStarts(all, sid, epoch);
    SeedsAreStarts(all, snapSid, snapEpoch);
    SeedsAreStarts(all, sid', epoch');
    var loaded;
    if Truthy(sid) || Truthy(epoch) {
      loaded := StreamRelated(rawPaths, files, sid, epoch);
      assert ToSet(loaded) == ReachableSet(all, Matching(all, sid, epoch));
      ReExpansionIsStable(all, sid, epoch, snapSid, snapEpoch);
    } else {
      loaded := ReadFiles(rawPaths, files);
    }
    timeline := ExpandRelated(loaded, sid', epoch');
    if sid'.Some? || epoch'.Some? {
      assert ToSet(timeline) == ReachableSet(ToSet(loaded), Seeds(ToSet(loaded), sid', epoch'));
      if Truthy(sid) || Truthy(epoch) {
        DistinctStayDistinct(timeline, loaded, Seeds(ToSet(loaded), sid', epoch'));
      }
    }
  }

  function FileEvents(path: nat, index: nat, lines: seq<Option<Event>>): (r: seq<Event>)
    ensures forall e :: e in r <==>
              exists i :: 0 <= i < |lines| && lines[i].Some? && e == Sourced(lines[i].value, path, index + i)
    decreases |lines|
  {
    if lines == [] then []
    else
      var rest := FileEvents(path, index + 1, lines[1..]);
      assert forall i :: 0 < i < |lines| ==> lines[i] == lines[1..][i - 1];
      if lines[0].Some? then [Sourced(lines[0].value, path, index)] + rest else rest
  }

  /** The events of the listed files one after the other, those of a file listed twice twice. */
  function ListedEvents(rawPaths: seq<nat>, files: Files): seq<Event>
    requires forall p <- rawPaths :: p in files
  {
    if rawPaths == [] then []
    else
      var last := rawPaths[|rawPaths| - 1];
      ListedEvents(rawPaths[..|rawPaths| - 1], files) + FileEvents(last, 0, files[last])
  }

  lemma {:induction false} ListedAreAllLines(rawPaths: seq<nat>, files: Files)
    requires forall p <- rawPaths :: p in files
    ensures ToSet(ListedEvents(rawPaths, files)) == AllLines(rawPaths, files)
  {
    if rawPaths != [] {
      var front, last := rawPaths[..|rawPaths| - 1], rawPaths[|rawPaths| - 1];
      ListedAreAllLines(front, files);
      var more := FileEvents(last, 0, files[last]);
      assert forall e :: e in ToSet(more) <==> IsLine(e, [last], files);
      assert forall e :: IsLine(e, rawPaths, files) <==> IsLine(e, front, files) || IsLine(e, [last], files);
      assert ToSet(ListedEvents(rawPaths, files)) == ToSet(ListedEvents(front, files)) + ToSet(more);
    }
  }

  /** Without identifiers all files are read. */
  method ReadFiles(rawPaths: seq<nat>, files: Files) returns (events: seq<Event>)
    requires forall p <- rawPaths :: p in files
    ensures events == ListedEvents(rawPaths, files)
    ensures ToSet(events) == AllLines(rawPaths, files)
  {
    events := [];
    for a := 0 to |rawPaths|
      invariant events == ListedEvents(rawPaths[..a], files)
    {
      assert rawPaths[..a + 1][..a] == rawPaths[..a] && rawPaths[..a + 1][a] == rawPaths[a];
      events := events + FileEvents(rawPaths[a], 0, files[rawPaths[a]]);
    }
    assert rawPaths[..|rawPaths|] == rawPaths;
    ListedAreAllLines(rawPaths, files);
  }
}
