/**
 The deduplication cache shared by several DLL connections (vci_proxy/reverse_server.py): a request is
 sent, carried out by the device and recorded in three separate steps, and requests of other
 connections may fall in between.
 */
module FilterSharing {
  import opened Common
  import opened Bytes
  import opened Protocol
  import opened FilterCache
  import FilterCoherence

  /** A request under way: a start before and after the device has carried it out, or something that removes filters. */
  datatype Request =
    | Starting(body: ByteString)
    | Started(body: ByteString, returnCode: U32, filterId: U32)
    | Stopping(filterId: U32)
    | Disconnecting(channelId: U32)
    | Closing
    | Clearing(channelId: U32)
  {
    predicate IsStart() {
      Starting? || Started?
    }

    /** Carried out, it removes this filter from the device. */
    predicate Removes(id: U32, key: ByteString) {
      match this
      case Stopping(f) => f == id
      case Disconnecting(ch) => ChannelOf(key) == ch
      case Clearing(ch) => ChannelOf(key) == ch
      case Closing => true
      case _ => false
    }

    /** Carried out, it may remove the filter that `start` asks for. */
    predicate Endangers(start: Request)
      requires start.IsStart()
    {
      if Stopping? then start.Started? && start.filterId == filterId else Removes(0, start.body)
    }
  }

  datatype World = World(cache: Filters, live: map<U32, ByteString>, flight: map<nat, Request>) {
    function Base(): FilterCoherence.State {
      FilterCoherence.State(cache, live)
    }
  }

  datatype Event =
    | Send(request: nat, what: Request)
    | Start(request: nat, returnCode: U32, filterId: U32)
    | Remove(request: nat, done: bool)
    | Record(request: nat)
    | Drop(request: nat)
    | TunnelLost(kept: set<U32>)

  function Initial(enabled: bool): World {
    World(Filters(enabled, map[], map[], map[]), map[], map[])
  }

  predicate IsHit(w: World, body: ByteString) {
    w.cache.enabled && body in w.cache.filters
  }

  /** The device numbers a new filter differently from every live one. */
  predicate Enabled(w: World, e: Event) {
    match e
    case Send(i, what) => i !in w.flight && !what.Started?
    case Start(i, rc, f) => i in w.flight && w.flight[i].Starting? && |w.flight[i].body| >= 11 && (rc == 0 ==> f !in w.live)
    case Remove(i, _) => i in w.flight && !w.flight[i].IsStart()
    case Record(i) => i in w.flight && w.flight[i].Started? && |w.flight[i].body| >= 11
    case Drop(i) => i in w.flight
    case TunnelLost(_) => true
  }

  /** What _invalidate_caches does when the request is forwarded. */
  function Invalidated(c: Filters, r: Request): Filters {
    match r
    case Stopping(f) => c.OnStop(f)
    case Disconnecting(ch) => c.InvalidateChannel(ch)
    case Closing => c.Clear()
    case _ => c
  }

  function Without(live: map<U32, ByteString>, r: Request): map<U32, ByteString> {
    map id | id in live && !r.Removes(id, live[id]) :: live[id]
  }

  /** A lost tunnel cancels every request that waits on it and clears the cache. */
  function Step(w: World, e: Event): World {
    if !Enabled(w, e) then w
    else
      match e
      case Send(i, what) =>
        if what.Starting? && IsHit(w, what.body) then w
        else w.(cache := Invalidated(w.cache, what), flight := w.flight[i := what])
      case Start(i, rc, f) =>
        w.(live := if rc == 0 then w.live[f := w.flight[i].body] else w.live,
           flight := w.flight[i := Started(w.flight[i].body, rc, f)])
      case Remove(i, done) =>
        w.(live := if done then Without(w.live, w.flight[i]) else w.live, flight := w.flight - {i})
      case Record(i) =>
        var r := w.flight[i];
        w.(cache := w.cache.Record(r.body, r.filterId, r.returnCode, StartFilterRspBody(r.returnCode, r.filterId)),
           flight := w.flight - {i})
      case Drop(i) => w.(flight := w.flight - {i})
      case TunnelLost(kept) =>
        World(w.cache.Clear(), map id | id in w.live && id in kept :: w.live[id], map[])
  }

  function Run(w: World, es: seq<Event>): World
    decreases |es|
  {
    if es == [] then w else Run(Step(w, es[0]), es[1..])
  }

  ghost predicate Coherent(w: World) {
    FilterCoherence.Coherent(w.Base())
  }

  // ---------------------------------------------------------------- exactly which steps do harm

  /** The started filter is still live for its body, and the body is not cached under another id. */
  predicate RecordsTruth(w: World, r: Request)
    requires r.Started?
  {
    && r.filterId in w.live && w.live[r.filterId] == r.body
    && (r.body in w.cache.filters ==> w.cache.filters[r.body].filterId == r.filterId)
  }

  /** The request removes a filter that is cached. */
  predicate RemovesCached(w: World, r: Request) {
    exists k <- w.cache.filters :: r.Removes(w.cache.filters[k].filterId, k)
  }

  /** An answer recorded too late, or a removal carried out after its filter was cached. */
  predicate Harms(w: World, e: Event) {
    && Enabled(w, e)
    && match e
       case Record(i) => w.cache.enabled && w.flight[i].returnCode == 0 && !RecordsTruth(w, w.flight[i])
       case Remove(i, done) => done && RemovesCached(w, w.flight[i])
       case _ => false
  }

  /** Recording an answer, however late, keeps coherence exactly when what it says is still true. */
  lemma RecordKeepsCoherentIff(w: World, i: nat)
    requires Coherent(w) && Enabled(w, Record(i))
    ensures Coherent(Step(w, Record(i))) <==> !Harms(w, Record(i))
  {
    var r := w.flight[i];
    if w.cache.enabled && r.returnCode == 0 {
      RecordKeepsConsistentIff(w.cache, r.body, r.filterId, StartFilterRspBody(0, r.filterId));
      assert Step(w, Record(i)).cache.filters[r.body].filterId == r.filterId;
    }
  }

  lemma RemoveKeepsCoherentIff(w: World, i: nat, done: bool)
    requires Coherent(w) && Enabled(w, Remove(i, done))
    ensures Coherent(Step(w, Remove(i, done))) <==> !Harms(w, Remove(i, done))
  {
    if done && RemovesCached(w, w.flight[i]) {
      var k :| k in w.cache.filters && w.flight[i].Removes(w.cache.filters[k].filterId, k);
      assert w.cache.filters[k].filterId !in Step(w, Remove(i, done)).live;
    }
  }

  /** What is invalidated goes, and what stays is as it was. */
  lemma InvalidatedKeeps(c: Filters, r: Request)
    requires c.Consistent()
    ensures Invalidated(c, r).Consistent() && Invalidated(c, r).enabled == c.enabled
    ensures forall k <- Invalidated(c, r).filters :: k in c.filters && Invalidated(c, r).filters[k] == c.filters[k]
    ensures !r.Clearing? ==>
              forall k <- Invalidated(c, r).filters :: !r.Removes(Invalidated(c, r).filters[k].filterId, k)
  {
    match r
    case Stopping(f) => OnStopKeepsConsistent(c, f);
    case Disconnecting(ch) => InvalidateKeepsConsistent(c, ch);
    case _ =>
  }

  /** Every step keeps the cache coherent with the device exactly when it is not one of the harmful ones. */
  lemma StepKeepsCoherentIff(w: World, e: Event)
    requires Coherent(w)
    ensures Coherent(Step(w, e)) <==> !Harms(w, e)
  {
    if Enabled(w, e) {
      match e
      case Send(_, what) => InvalidatedKeeps(w.cache, what);
      case Start(_, _, _) =>
      case Remove(i, done) => RemoveKeepsCoherentIff(w, i, done);
      case Record(i) => RecordKeepsCoherentIff(w, i);
      case Drop(_) =>
      case TunnelLost(_) =>
    }
  }

  ghost predicate CoherentThroughout(w: World, es: seq<Event>)
    decreases |es|
  {
    Coherent(w) && (es == [] || CoherentThroughout(Step(w, es[0]), es[1..]))
  }

  predicate NoHarm(w: World, es: seq<Event>)
    decreases |es|
  {
    es == [] || (!Harms(w, es[0]) && NoHarm(Step(w, es[0]), es[1..]))
  }

  /** A run is coherent from beginning to end exactly when it has no harmful step. */
  lemma {:induction false} CoherentThroughoutIff(w: World, es: seq<Event>)
    requires Coherent(w)
    ensures CoherentThroughout(w, es) <==> NoHarm(w, es)
    decreases |es|
  {
    if es != [] {
      StepKeepsCoherentIff(w, es[0]);
      if !Harms(w, es[0]) {
        CoherentThroughoutIff(Step(w, es[0]), es[1..]);
      } else {
        assert !CoherentThroughout(Step(w, es[0]), es[1..]);
      }
    }
  }

  // ---------------------------------------------------------------- requests that keep out of each other's way

  /** No start of the same body, and nothing that removes what this start asks for, is under way. */
  predicate WayIsClear(w: World, what: Request)
    requires what.Starting?
  {
    forall j <- w.flight ::
      if w.flight[j].IsStart() then w.flight[j].body != what.body else !w.flight[j].Endangers(what)
  }

  /** No start that this request may undo is under way; filters cleared behind the cache's back are not cached. */
  predicate Spares(w: World, what: Request) {
    && (forall j <- w.flight :: w.flight[j].IsStart() ==> !what.Endangers(w.flight[j]))
    && (what.Clearing? ==> w.cache.KeysOf(what.channelId) == {})
  }

  /** What a caller can see to: requests that concern the same filters do not overlap. */
  predicate Undisturbed(w: World, e: Event) {
    Enabled(w, e) ==>
      match e
      case Send(_, what) => if what.Starting? then IsHit(w, what.body) || WayIsClear(w, what) else Spares(w, what)
      case Start(_, _, f) => Stopping(f) !in w.flight.Values
      case _ => true
  }

  predicate UndisturbedRun(w: World, es: seq<Event>)
    decreases |es|
  {
    es == [] || (Undisturbed(w, es[0]) && UndisturbedRun(Step(w, es[0]), es[1..]))
  }

  /** Starts under way are of different bodies, none of them cached, and what they started is still live. */
  ghost predicate StartsSound(w: World) {
    && (forall i, j :: i in w.flight && j in w.flight && i != j && w.flight[i].IsStart() && w.flight[j].IsStart() ==>
          w.flight[i].body != w.flight[j].body)
    && (forall i <- w.flight :: w.flight[i].IsStart() ==> w.flight[i].body !in w.cache.filters)
    && (forall i <- w.flight :: w.flight[i].Started? && w.flight[i].returnCode == 0 ==>
          w.flight[i].filterId in w.live && w.live[w.flight[i].filterId] == w.flight[i].body)
    && (!w.cache.enabled ==> w.cache.filters == map[])
  }

  /** No removal under way concerns a start under way or a cached filter. */
  ghost predicate RemovalsSound(w: World) {
    && (forall i, j :: i in w.flight && j in w.flight && w.flight[j].IsStart() ==> !w.flight[i].Endangers(w.flight[j]))
    && (forall i <- w.flight :: !RemovesCached(w, w.flight[i]))
  }

  ghost predicate Orderly(w: World) {
    Coherent(w) && StartsSound(w) && RemovalsSound(w)
  }

  lemma OrderlyDoesNoHarm(w: World, e: Event)
    requires Orderly(w)
    ensures !Harms(w, e)
  {
  }

  lemma SendStartKeepsStarts(w: World, i: nat, what: Request)
    requires StartsSound(w) && i !in w.flight && what.Starting? && !IsHit(w, what.body) && WayIsClear(w, what)
    ensures StartsSound(w.(flight := w.flight[i := what]))
  {
  }

  lemma SendStartKeepsRemovals(w: World, i: nat, what: Request)
    requires RemovalsSound(w) && i !in w.flight && what.Starting? && WayIsClear(w, what)
    ensures RemovalsSound(w.(flight := w.flight[i := what]))
  {
    var w' := w.(flight := w.flight[i := what]);
    forall j <- w'.flight
      ensures !RemovesCached(w', w'.flight[j])
    {
      assert j != i ==> !RemovesCached(w, w.flight[j]);
    }
  }

  lemma SendRemovalKeepsStarts(w: World, i: nat, what: Request, c: Filters)
    requires StartsSound(w) && i !in w.flight && !what.IsStart()
    requires c.enabled == w.cache.enabled && forall k <- c.filters :: k in w.cache.filters
    ensures StartsSound(w.(cache := c, flight := w.flight[i := what]))
  {
  }

  lemma SendRemovalKeepsOrderly(w: World, i: nat, what: Request)
    requires Orderly(w) && i !in w.flight && !what.IsStart() && Spares(w, what)
    ensures RemovalsSound(w.(cache := Invalidated(w.cache, what), flight := w.flight[i := what]))
  {
    var w' := w.(cache := Invalidated(w.cache, what), flight := w.flight[i := what]);
    InvalidatedKeeps(w.cache, what);
    forall j <- w'.flight
      ensures !RemovesCached(w', w'.flight[j])
    {
      if j != i {
        assert !RemovesCached(w, w.flight[j]);
      } else if what.Clearing? {
        assert forall k <- w.cache.filters :: k !in w.cache.KeysOf(what.channelId);
      }
    }
  }

  lemma SendKeepsOrderly(w: World, e: Event)
    requires Orderly(w) && e.Send? && Enabled(w, e) && Undisturbed(w, e)
    ensures StartsSound(Step(w, e)) && RemovalsSound(Step(w, e))
  {
    if !e.what.Starting? {
      InvalidatedKeeps(w.cache, e.what);
      SendRemovalKeepsStarts(w, e.request, e.what, Invalidated(w.cache, e.what));
      SendRemovalKeepsOrderly(w, e.request, e.what);
    } else if !IsHit(w, e.what.body) {
      SendStartKeepsStarts(w, e.request, e.what);
      SendStartKeepsRemovals(w, e.request, e.what);
    }
  }

  lemma StartKeepsOrderly(w: World, e: Event)
    requires Orderly(w) && e.Start? && Enabled(w, e) && Undisturbed(w, e)
    ensures StartsSound(Step(w, e)) && RemovalsSound(Step(w, e))
  {
    var w' := Step(w, e);
    forall i <- w'.flight
      ensures !RemovesCached(w', w'.flight[i])
      ensures !w'.flight[i].Endangers(w'.flight[e.request])
    {
      if i != e.request {
        assert !RemovesCached(w, w.flight[i]);
        assert w.flight[i] in w.flight.Values;
        assert !w.flight[i].Endangers(w.flight[e.request]);
      }
    }
  }

  lemma RemoveKeepsOrderly(w: World, e: Event)
    requires Orderly(w) && e.Remove? && Enabled(w, e)
    ensures StartsSound(Step(w, e)) && RemovalsSound(Step(w, e))
  {
    var w' := Step(w, e);
    forall i <- w'.flight
      ensures !RemovesCached(w', w'.flight[i])
      ensures w'.flight[i].Started? && w'.flight[i].returnCode == 0 ==> w'.flight[i].filterId in w'.live
    {
      assert !RemovesCached(w, w.flight[i]);
      if w.flight[i].IsStart() {
        assert !w.flight[e.request].Endangers(w.flight[i]);
      }
    }
  }

  lemma RecordKeepsOrderly(w: World, e: Event)
    requires Orderly(w) && e.Record? && Enabled(w, e)
    ensures StartsSound(Step(w, e)) && RemovalsSound(Step(w, e))
  {
    var w' := Step(w, e);
    forall i <- w'.flight
      ensures !RemovesCached(w', w'.flight[i])
    {
      assert !RemovesCached(w, w.flight[i]);
      assert !w.flight[i].Endangers(w.flight[e.request]);
    }
  }

  lemma StepKeepsOrderly(w: World, e: Event)
    requires Orderly(w) && Undisturbed(w, e)
    ensures Orderly(Step(w, e))
  {
    OrderlyDoesNoHarm(w, e);
    StepKeepsCoherentIff(w, e);
    if Enabled(w, e) {
      match e
      case Send(_, _) => SendKeepsOrderly(w, e);
      case Start(_, _, _) => StartKeepsOrderly(w, e);
      case Remove(_, _) => RemoveKeepsOrderly(w, e);
      case Record(_) => RecordKeepsOrderly(w, e);
      case Drop(_) => assert forall i <- Step(w, e).flight :: !RemovesCached(w, w.flight[i]);
      case TunnelLost(_) =>
    }
  }

  lemma {:induction false} RunKeepsOrderly(w: World, es: seq<Event>)
    requires Orderly(w) && UndisturbedRun(w, es)
    ensures Orderly(Run(w, es))
    decreases |es|
  {
    if es != [] {
      StepKeepsOrderly(w, es[0]);
      RunKeepsOrderly(Step(w, es[0]), es[1..]);
    }
  }

  /**
   However many connections share the cache: if requests that concern the same filters do not overlap,
   a hit names a filter that is live on the device for exactly the request's body.
   */
  lemma SharedHitsAreLive(enabled: bool, es: seq<Event>, body: ByteString)
    requires UndisturbedRun(Initial(enabled), es)
    requires IsHit(Run(Initial(enabled), es), body)
    ensures var w := Run(Initial(enabled), es);
            match DecodeStartFilterRsp(w.cache.filters[body].responseBody)
            case Err(_) => false
            case Ok(r) => r.0 == 0 && r.1 in w.live && w.live[r.1] == body
  {
    RunKeepsOrderly(Initial(enabled), es);
    var w := Run(Initial(enabled), es);
    var id := w.cache.filters[body].filterId;
    UnpackPack([0, id]);
    assert StartFilterRspBody(0, id)[..8] == StartFilterRspBody(0, id);
  }

  // ---------------------------------------------------------------- two ways to overlap that do harm

  lemma RunOnce(w: World, e: Event, es: seq<Event>)
    ensures Run(w, [e] + es) == Run(Step(w, e), es)
  {
    assert ([e] + es)[1..] == es;
  }

  /** A filter of this body has been started, and the answer is on its way back as request 0. */
  lemma StartFilter(body: ByteString, f: U32) returns (es: seq<Event>)
    requires |body| >= 11
    ensures Run(Initial(true), es) == World(Initial(true).cache, map[f := body], map[0 := Started(body, 0, f)])
  {
    var w1 := Step(Initial(true), Send(0, Starting(body)));
    var last := [Start(0, 0, f)] + [];
    es := [Send(0, Starting(body))] + last;
    RunOnce(Initial(true), Send(0, Starting(body)), last);
    RunOnce(w1, Start(0, 0, f), []);
    assert Step(w1, Start(0, 0, f)).flight == map[0 := Started(body, 0, f)];
  }

  lemma {:induction false} RunAppend(w: World, a: seq<Event>, b: seq<Event>)
    ensures Run(w, a + b) == Run(Run(w, a), b)
    decreases |a|
  {
    if a == [] {
      assert a + b == b;
    } else {
      assert (a + b)[0] == a[0] && (a + b)[1..] == a[1..] + b;
      RunAppend(Step(w, a[0]), a[1..], b);
    }
  }

  /** A Disconnect of one connection is carried out between the start and the recording of another's filter. */
  lemma OvertakenStartIsStale(body: ByteString, f: U32) returns (es: seq<Event>)
    requires |body| >= 11
    ensures var w := Run(Initial(true), es); IsHit(w, body) && w.live == map[] && !Coherent(w)
  {
    var first := StartFilter(body, f);
    var w2 := Run(Initial(true), first);
    var away := Send(1, Disconnecting(ChannelOf(body)));
    var w3 := Step(w2, away);
    var w4 := Step(w3, Remove(1, true));
    assert w4.live == map[] && w4.flight == map[0 := Started(body, 0, f)];
    var w5 := Step(w4, Record(0));
    assert body in w5.cache.filters && w5.cache.filters[body].filterId == f;
    var last := [Record(0)] + [];
    var rest := [Remove(1, true)] + last;
    RunOnce(w4, Record(0), []);
    RunOnce(w3, Remove(1, true), last);
    RunOnce(w2, away, rest);
    RunAppend(Initial(true), first, [away] + rest);
    es := first + ([away] + rest);
  }

  /** Two connections start the same body: the second recording leaves the first filter's id behind. */
  lemma DoubleStartBreaksInverse(body: ByteString, f: U32, g: U32) returns (es: seq<Event>)
    requires |body| >= 11 && f != g
    ensures var w := Run(Initial(true), es);
            && body in w.cache.filters && w.cache.filters[body].filterId == g
            && w.cache.idToKey == map[f := body, g := body] && !Coherent(w)
  {
    var first := StartFilter(body, f);
    var w2 := Run(Initial(true), first);
    var w3 := Step(w2, Send(1, Starting(body)));
    var w4 := Step(w3, Start(1, 0, g));
    assert w4.flight == map[0 := Started(body, 0, f), 1 := Started(body, 0, g)];
    var w5 := Step(w4, Record(0));
    var w6 := Step(w5, Record(1));
    assert w6.cache.idToKey == map[f := body, g := body];
    assert f in w6.cache.idToKey && body in w6.cache.filters && w6.cache.filters[body].filterId == g;
    var last := [Record(1)] + [];
    var records := [Record(0)] + last;
    var starts := [Start(1, 0, g)] + records;
    RunOnce(w5, Record(1), []);
    RunOnce(w4, Record(0), last);
    RunOnce(w3, Start(1, 0, g), records);
    RunOnce(w2, Send(1, Starting(body)), starts);
    RunAppend(Initial(true), first, [Send(1, Starting(body))] + starts);
    es := first + ([Send(1, Starting(body))] + starts);
  }
}
