/**
 Leasing worker nodes (diagnostic_platform/node_allocation.py).  The node inventory and the lease
 store are persisted to two files, one write after another; what a restart finds depends on the
 order of those writes.
 */
module NodeAllocation {
  import opened Common

  /** Nodes are named by the position of their id in the order of all ids. */
  type NodeId = nat

  datatype NodeState = Idle | Allocating | Booting | InUse | Draining | Unhealthy

  datatype NodeRecord = NodeRecord(nodeId: NodeId, zone: string, metro: string, state: NodeState, healthy: bool,
                                   sessionId: Option<string>)

  datatype Lease = Lease(nodeId: NodeId, sessionId: string, selectionReason: string)

  type Nodes = map<NodeId, NodeRecord>
  type Leases = map<string, Lease>

  /** The contents of the two files. */
  datatype Store = Store(nodes: Nodes, leases: Leases)

  predicate Available(n: NodeRecord) {
    n.state == Idle && n.healthy
  }

  function Priority(n: NodeRecord, zone: string, metro: string): nat {
    if zone != "" && n.zone == zone then 0
    else if metro != "" && n.metro == metro then 1
    else 2
  }

  /** `a` sorts before `b`: by priority, then by id. */
  predicate Before(a: NodeRecord, b: NodeRecord, zone: string, metro: string) {
    || Priority(a, zone, metro) < Priority(b, zone, metro)
    || (Priority(a, zone, metro) == Priority(b, zone, metro) && a.nodeId < b.nodeId)
  }

  predicate KeyedById(nodes: Nodes) {
    forall id <- nodes :: nodes[id].nodeId == id
  }

  /** The node that heads the sorted list of candidates. */
  predicate IsBest(nodes: Nodes, zone: string, metro: string, id: NodeId) {
    && id in nodes && Available(nodes[id])
    && forall other <- nodes :: Available(nodes[other]) && other != id ==> Before(nodes[id], nodes[other], zone, metro)
  }

  function ReasonFor(priority: nat): string {
    if priority == 0 then "preferred_zone" else if priority == 1 then "preferred_metro" else "any_healthy_idle"
  }

  /** The node taken is in the preferred zone if any available one is, else in the preferred metro, and first by id. */
  lemma BestIsPreferred(nodes: Nodes, zone: string, metro: string, id: NodeId)
    requires KeyedById(nodes) && IsBest(nodes, zone, metro, id)
    ensures nodes[id].state == Idle && nodes[id].healthy
    ensures forall other <- nodes :: nodes[other].state == Idle && nodes[other].healthy ==>
              if zone != "" && (nodes[id].zone == zone || nodes[other].zone == zone) then
                nodes[id].zone == zone && (nodes[other].zone == zone ==> id <= other)
              else if metro != "" && (nodes[id].metro == metro || nodes[other].metro == metro) then
                nodes[id].metro == metro && (nodes[other].metro == metro ==> id <= other)
              else id <= other
  {
  }

  datatype Op =
    | Allocate(zone: string, metro: string, sessionId: string, assignmentId: string, nodeId: NodeId)
    | Bind(assignmentId: string, sessionId: string)
    | Release(assignmentId: string, nextState: NodeState, healthy: bool)
    | Launch(node: NodeRecord)
    | Ready(nodeId: NodeId)

  /** The contents of the files after each write the operation makes, in order. */
  function Writes(s: Store, op: Op): seq<Store> {
    match op
    case Allocate(zone, metro, session, a, id) =>
      if !IsBest(s.nodes, zone, metro, id) then []
      else
        var claimed := s.(nodes := s.nodes[id := s.nodes[id].(state := InUse, sessionId := Some(session))]);
        [claimed,
         claimed.(leases := s.leases[a := Lease(id, session, ReasonFor(Priority(s.nodes[id], zone, metro)))])]
    case Bind(a, session) =>
      if a !in s.leases || s.leases[a].nodeId !in s.nodes then []
      else
        var id := s.leases[a].nodeId;
        var bound := s.(nodes := s.nodes[id := s.nodes[id].(sessionId := Some(session))]);
        [bound, bound.(leases := s.leases[a := s.leases[a].(sessionId := session)])]
    case Release(a, next, healthy) =>
      if a !in s.leases then []
      else
        var id := s.leases[a].nodeId;
        var dropped := s.(leases := s.leases - {a});
        if id !in s.nodes then [dropped]
        else
          [dropped,
           dropped.(nodes := s.nodes[id := s.nodes[id].(state := next, healthy := healthy, sessionId := None)])]
    case Launch(n) => [s.(nodes := s.nodes[n.nodeId := n])]
    case Ready(id) =>
      if id !in s.nodes || s.nodes[id].state != Booting then []
      else [s.(nodes := s.nodes[id := s.nodes[id].(state := Idle, healthy := true, sessionId := None)])]
  }

  function Last(s: Store, writes: seq<Store>): Store {
    if writes == [] then s else writes[|writes| - 1]
  }

  // ---------------------------------------------------------------- the classes

  /** The two files, and what they contained after every write so far. */
  class Disk {
    var nodes: Nodes
    var leases: Leases
    ghost var history: seq<Store>

    constructor (nodes: Nodes, leases: Leases)
      ensures this.nodes == nodes && this.leases == leases && history == []
    {
      this.nodes, this.leases, history := nodes, leases, [];
    }

    ghost function Contents(): Store
      reads this
    {
      Store(nodes, leases)
    }

    method WriteNodes(nodes: Nodes)
      modifies this
      ensures this.nodes == nodes && leases == old(leases) && history == old(history) + [Contents()]
    {
      this.nodes := nodes;
      history := history + [Contents()];
    }

    method WriteLeases(leases: Leases)
      modifies this
      ensures this.leases == leases && nodes == old(nodes) && history == old(history) + [Contents()]
    {
      this.leases := leases;
      history := history + [Contents()];
    }
  }

  /** JsonFileNodeInventory: every change of a node is written through. */
  class NodeInventory {
    const disk: Disk
    var nodes: Nodes

    /** Loads what the file holds. */
    constructor (disk: Disk)
      ensures this.disk == disk && nodes == disk.nodes
    {
      this.disk := disk;
      nodes := disk.nodes;
    }

    method Persist()
      modifies disk
      ensures disk.nodes == nodes && disk.leases == old(disk.leases)
      ensures disk.history == old(disk.history) + [disk.Contents()]
    {
      disk.WriteNodes(nodes);
    }

    method Claim(id: NodeId, sessionId: string) returns (r: Result<NodeRecord>)
      modifies this, disk
      ensures id !in old(nodes) ==> r == Err(KeyError)
      ensures id in old(nodes) && !Available(old(nodes)[id]) ==> r == Err(NoCapacityError)
      ensures r.Err? ==> nodes == old(nodes) && disk.Contents() == old(disk.Contents()) && disk.history == old(disk.history)
      ensures id in old(nodes) && Available(old(nodes)[id]) ==>
                && r == Ok(old(nodes)[id].(state := InUse, sessionId := Some(sessionId)))
                && nodes == old(nodes)[id := r.value]
                && disk.nodes == nodes && disk.leases == old(disk.leases)
                && disk.history == old(disk.history) + [disk.Contents()]
    {
      if id !in nodes {
        return Err(KeyError);
      }
      if nodes[id].state != Idle || !nodes[id].healthy {
        return Err(NoCapacityError);
      }
      nodes := nodes[id := nodes[id].(state := InUse, sessionId := Some(sessionId))];
      Persist();
      r := Ok(nodes[id]);
    }

    method ReleaseNode(id: NodeId, nextState: NodeState, healthy: bool) returns (r: Result<NodeRecord>)
      modifies this, disk
      ensures id !in old(nodes) ==>
                r == Err(KeyError) && nodes == old(nodes)
                && disk.Contents() == old(disk.Contents()) && disk.history == old(disk.history)
      ensures id in old(nodes) ==>
                && r == Ok(old(nodes)[id].(state := nextState, healthy := healthy, sessionId := None))
                && nodes == old(nodes)[id := r.value]
                && disk.nodes == nodes && disk.leases == old(disk.leases)
                && disk.history == old(disk.history) + [disk.Contents()]
    {
      if id !in nodes {
        return Err(KeyError);
      }
      nodes := nodes[id := nodes[id].(state := nextState, healthy := healthy, sessionId := None)];
      Persist();
      r := Ok(nodes[id]);
    }

    method BindSession(id: NodeId, sessionId: string) returns (r: Result<NodeRecord>)
      modifies this, disk
      ensures id !in old(nodes) ==>
                r == Err(KeyError) && nodes == old(nodes)
                && disk.Contents() == old(disk.Contents()) && disk.history == old(disk.history)
      ensures id in old(nodes) ==>
                && r == Ok(old(nodes)[id].(sessionId := Some(sessionId)))
                && nodes == old(nodes)[id := r.value]
                && disk.nodes == nodes && disk.leases == old(disk.leases)
                && disk.history == old(disk.history) + [disk.Contents()]
    {
      if id !in nodes {
        return Err(KeyError);
      }
      nodes := nodes[id := nodes[id].(sessionId := Some(sessionId))];
      Persist();
      r := Ok(nodes[id]);
    }

    method Register(n: NodeRecord)
      modifies this, disk
      ensures nodes == old(nodes)[n.nodeId := n]
      ensures disk.nodes == nodes && disk.leases == old(disk.leases)
      ensures disk.history == old(disk.history) + [disk.Contents()]
    {
      nodes := nodes[n.nodeId := n];
      Persist();
    }

    method MarkReady(id: NodeId) returns (r: Result<NodeRecord>)
      modifies this, disk
      ensures id !in old(nodes) ==>
                r == Err(KeyError) && nodes == old(nodes)
                && disk.Contents() == old(disk.Contents()) && disk.history == old(disk.history)
      ensures id in old(nodes) ==>
                && r == Ok(old(nodes)[id].(state := Idle, healthy := true, sessionId := None))
                && nodes == old(nodes)[id := r.value]
                && disk.nodes == nodes && disk.leases == old(disk.leases)
                && disk.history == old(disk.history) + [disk.Contents()]
    {
      if id !in nodes {
        return Err(KeyError);
      }
      nodes := nodes[id := nodes[id].(state := Idle, healthy := true, sessionId := None)];
      Persist();
      r := Ok(nodes[id]);
    }

    /** The first of the healthy idle nodes by priority and id. */
    method SelectNode(zone: string, metro: string) returns (best: Option<NodeId>)
      requires KeyedById(nodes)
      ensures best.Some? ==> IsBest(nodes, zone, metro, best.value)
      ensures best.None? ==> forall id <- nodes :: !Available(nodes[id])
    {
      best := None;
      var todo := nodes.Keys;
      while todo != {}
        invariant todo <= nodes.Keys
        invariant best.None? ==> forall id <- nodes.Keys - todo :: !Available(nodes[id])
        invariant best.Some? ==>
                    && best.value in nodes.Keys - todo && Available(nodes[best.value])
                    && forall id <- nodes.Keys - todo :: Available(nodes[id]) && id != best.value ==>
                         Before(nodes[best.value], nodes[id], zone, metro)
      {
        var id :| id in todo;
        todo := todo - {id};
        if Available(nodes[id]) && (best.None? || Before(nodes[id], nodes[best.value], zone, metro)) {
          best := Some(id);
        }
      }
      assert nodes.Keys - todo == nodes.Keys;
    }
  }

  /** JsonFileLeaseStore. */
  class LeaseStore {
    const disk: Disk
    var leases: Leases

    constructor (disk: Disk)
      ensures this.disk == disk && leases == disk.leases
    {
      this.disk := disk;
      leases := disk.leases;
    }

    method Put(a: string, lease: Lease)
      modifies this, disk
      ensures leases == old(leases)[a := lease]
      ensures disk.leases == leases && disk.nodes == old(disk.nodes)
      ensures disk.history == old(disk.history) + [disk.Contents()]
    {
      leases := leases[a := lease];
      disk.WriteLeases(leases);
    }

    method Delete(a: string)
      modifies this, disk
      ensures leases == old(leases) - {a}
      ensures disk.leases == leases && disk.nodes == old(disk.nodes)
      ensures disk.history == old(disk.history) + [disk.Contents()]
    {
      leases := leases - {a};
      disk.WriteLeases(leases);
    }
  }

  class HotPoolAllocator {
    const inventory: NodeInventory
    const leaseStore: LeaseStore

    constructor (inventory: NodeInventory, leaseStore: LeaseStore)
      ensures this.inventory == inventory && this.leaseStore == leaseStore
    {
      this.inventory, this.leaseStore := inventory, leaseStore;
    }

    /** Memory and files agree. */
    ghost predicate Valid()
      reads this, inventory, leaseStore, inventory.disk
    {
      && inventory.disk == leaseStore.disk
      && inventory.nodes == inventory.disk.nodes && leaseStore.leases == inventory.disk.leases
      && KeyedById(inventory.nodes)
    }

    ghost function View(): Store
      reads this, inventory, leaseStore
    {
      Store(inventory.nodes, leaseStore.leases)
    }

    ghost function History(): seq<Store>
      reads this, inventory, inventory.disk
    {
      inventory.disk.history
    }

    /** `assignmentId` is the identifier uuid4 came up with. */
    method AllocateNode(zone: string, metro: string, sessionId: string, assignmentId: string)
      returns (r: Result<NodeId>)
      requires Valid()
      modifies inventory, leaseStore, inventory.disk
      ensures Valid()
      ensures r.Err? <==> forall id <- old(inventory.nodes) :: !Available(old(inventory.nodes)[id])
      ensures r.Err? ==> r.error == NoCapacityError && View() == old(View()) && History() == old(History())
      ensures r.Ok? ==>
                && IsBest(old(inventory.nodes), zone, metro, r.value)
                && var writes := Writes(old(View()), Allocate(zone, metro, sessionId, assignmentId, r.value));
                   View() == Last(old(View()), writes) && History() == old(History()) + writes
      ensures r.Ok? ==>
                var n := old(inventory.nodes)[r.value];
                && n.state == Idle && n.healthy
                && inventory.nodes == old(inventory.nodes)[r.value := n.(state := InUse, sessionId := Some(sessionId))]
                && leaseStore.leases == old(leaseStore.leases)[assignmentId := Lease(r.value, sessionId,
                     if zone != "" && n.zone == zone then "preferred_zone"
                     else if metro != "" && n.metro == metro then "preferred_metro" else "any_healthy_idle")]
    {
      var selected := inventory.SelectNode(zone, metro);
      if selected.None? {
        return Err(NoCapacityError);
      }
      var id := selected.value;
      var claimed := inventory.Claim(id, sessionId);
      var reason := ReasonFor(Priority(claimed.value, zone, metro));
      leaseStore.Put(assignmentId, Lease(id, sessionId, reason));
      r := Ok(id);
    }

    method BindLease(assignmentId: string, sessionId: string) returns (r: Result<()>)
      requires Valid()
      modifies inventory, leaseStore, inventory.disk
      ensures Valid()
      ensures r.Err? <==> Writes(old(View()), Bind(assignmentId, sessionId)) == []
      ensures r.Err? ==> r.error == KeyError
      ensures var writes := Writes(old(View()), Bind(assignmentId, sessionId));
              View() == Last(old(View()), writes) && History() == old(History()) + writes
      ensures r.Err? ==> View() == old(View())
      ensures r.Ok? ==>
                && assignmentId in old(leaseStore.leases)
                && var lease := old(leaseStore.leases)[assignmentId];
                && lease.nodeId in old(inventory.nodes)
                && inventory.nodes == old(inventory.nodes)[lease.nodeId :=
                     old(inventory.nodes)[lease.nodeId].(sessionId := Some(sessionId))]
                && leaseStore.leases == old(leaseStore.leases)[assignmentId := lease.(sessionId := sessionId)]
    {
      if assignmentId !in leaseStore.leases {
        return Err(KeyError);
      }
      var lease := leaseStore.leases[assignmentId];
      if lease.nodeId !in inventory.nodes {
        return Err(KeyError);
      }
      var _ := inventory.BindSession(lease.nodeId, sessionId);
      leaseStore.Put(assignmentId, lease.(sessionId := sessionId));
      r := Ok(());
    }

    method ReleaseLease(assignmentId: string, nextState: NodeState, healthy: bool) returns (r: Result<NodeRecord>)
      requires Valid()
      modifies inventory, leaseStore, inventory.disk
      ensures Valid()
      ensures r.Err? ==> r.error == KeyError
      ensures var writes := Writes(old(View()), Release(assignmentId, nextState, healthy));
              && View() == Last(old(View()), writes) && History() == old(History()) + writes
              && (r.Ok? <==> |writes| == 2)
      ensures assignmentId !in old(leaseStore.leases) ==> r.Err? && View() == old(View())
      ensures leaseStore.leases == old(leaseStore.leases) - {assignmentId}
      ensures r.Err? ==> inventory.nodes == old(inventory.nodes)
      ensures r.Ok? ==>
                && assignmentId in old(leaseStore.leases)
                && var id := old(leaseStore.leases)[assignmentId].nodeId;
                && id in old(inventory.nodes) && id in inventory.nodes
                && r.value == inventory.nodes[id]
                && r.value.state == nextState && r.value.healthy == healthy && r.value.sessionId == None
                && r.value.nodeId == id && r.value.zone == old(inventory.nodes)[id].zone
                && r.value.metro == old(inventory.nodes)[id].metro
                && inventory.nodes - {id} == old(inventory.nodes) - {id}
    {
      if assignmentId !in leaseStore.leases {
        return Err(KeyError);
      }
      var lease := leaseStore.leases[assignmentId];
      leaseStore.Delete(assignmentId);
      r := inventory.ReleaseNode(lease.nodeId, nextState, healthy);
    }
  }

  /** Only booting nodes differ, and they have become healthy idle ones. */
  ghost predicate Promoted(before: Nodes, after: Nodes) {
    && after.Keys == before.Keys
    && forall id <- before ::
         || after[id] == before[id]
         || (before[id].state == Booting && after[id] == before[id].(state := Idle, healthy := true, sessionId := None))
  }

  class BootingNodeReadinessMonitor {
    const inventory: NodeInventory

    constructor (inventory: NodeInventory)
      ensures this.inventory == inventory
    {
      this.inventory := inventory;
    }

    /** `ready` holds the nodes whose probe answers yes; a probe that fails counts as no. */
    method PollOnce(ready: set<NodeId>) returns (promoted: seq<NodeId>)
      requires KeyedById(inventory.nodes) && inventory.disk.nodes == inventory.nodes
      modifies inventory, inventory.disk
      ensures inventory.disk.nodes == inventory.nodes && inventory.disk.leases == old(inventory.disk.leases)
      ensures Promoted(old(inventory.nodes), inventory.nodes)
      ensures forall id <- inventory.nodes ::
                inventory.nodes[id] != old(inventory.nodes)[id] <==> id in ready && old(inventory.nodes)[id].state == Booting
      ensures forall id :: id in promoted <==>
                             id in ready && id in old(inventory.nodes) && old(inventory.nodes)[id].state == Booting
      ensures forall id <- promoted :: inventory.nodes[id].state == Idle && inventory.nodes[id].healthy
      ensures old(inventory.disk.history) <= inventory.disk.history
      ensures forall k :: |old(inventory.disk.history)| <= k < |inventory.disk.history| ==>
                inventory.disk.history[k].leases == old(inventory.disk.leases) &&
                Promoted(old(inventory.nodes), inventory.disk.history[k].nodes)
    {
      ghost var was := inventory.nodes;
      promoted := [];
      var todo := set id | id in inventory.nodes && inventory.nodes[id].state in {Allocating, Booting};
      while todo != {}
        invariant todo <= was.Keys
        invariant inventory.disk.nodes == inventory.nodes && inventory.disk.leases == old(inventory.disk.leases)
        invariant Promoted(was, inventory.nodes)
        invariant forall id <- todo :: inventory.nodes[id] == was[id] && id !in promoted
        invariant forall id <- was :: was[id].state == Booting && id in ready && id !in todo ==> id in promoted
        invariant forall id <- promoted :: id in ready && id in was && was[id].state == Booting
        invariant forall id <- was :: inventory.nodes[id] != was[id] <==> id in promoted
        invariant old(inventory.disk.history) <= inventory.disk.history
        invariant forall k :: |old(inventory.disk.history)| <= k < |inventory.disk.history| ==>
                    inventory.disk.history[k].leases == old(inventory.disk.leases) &&
                    Promoted(was, inventory.disk.history[k].nodes)
      {
        var id :| id in todo;
        todo := todo - {id};
        if inventory.nodes[id].state != Booting || id !in ready {
          continue;
        }
        var _ := inventory.MarkReady(id);
        promoted := promoted + [id];
      }
    }
  }

  // ---------------------------------------------------------------- runs with crashes

  /** `used` are the assignment ids handed out so far. */
  datatype World = World(store: Store, used: set<string>)

  /** An operation of which only the first `writes` writes reach the disk before a crash and restart, if that is not all of them. */
  datatype Event = Event(op: Op, writes: nat)

  function Min(a: nat, b: nat): nat {
    if a < b then a else b
  }

  /** New assignment and node ids are fresh. */
  predicate Fresh(w: World, op: Op) {
    && (op.Allocate? ==> op.assignmentId !in w.used)
    && (op.Launch? ==> op.node.nodeId !in w.store.nodes)
  }

  function Step(w: World, e: Event): World {
    if !Fresh(w, e.op) then w
    else
      var all := Writes(w.store, e.op);
      World(Last(w.store, all[..Min(e.writes, |all|)]),
            if e.op.Allocate? then w.used + {e.op.assignmentId} else w.used)
  }

  function Run(w: World, es: seq<Event>): World
    decreases |es|
  {
    if es == [] then w else Run(Step(w, es[0]), es[1..])
  }

  /** Every lease names a node of its own, and that node is in use. */
  ghost predicate CrashSafe(s: Store) {
    && KeyedById(s.nodes)
    && (forall a <- s.leases :: s.leases[a].nodeId in s.nodes && s.nodes[s.leases[a].nodeId].state == InUse)
    && (forall a, b :: a in s.leases && b in s.leases && a != b ==> s.leases[a].nodeId != s.leases[b].nodeId)
  }

  ghost predicate Safe(w: World) {
    CrashSafe(w.store) && w.store.leases.Keys <= w.used
  }

  /** Every single write leaves files that a restart can safely load. */
  lemma EveryWriteIsCrashSafe(w: World, op: Op)
    requires Safe(w) && Fresh(w, op)
    ensures forall k :: 0 <= k < |Writes(w.store, op)| ==> CrashSafe(Writes(w.store, op)[k])
  {
  }

  lemma StepKeepsSafe(w: World, e: Event)
    requires Safe(w)
    ensures Safe(Step(w, e))
  {
    if Fresh(w, e.op) {
      EveryWriteIsCrashSafe(w, e.op);
    }
  }

  lemma {:induction false} RunKeepsSafe(w: World, es: seq<Event>)
    requires Safe(w)
    ensures Safe(Run(w, es))
    decreases |es|
  {
    if es != [] {
      StepKeepsSafe(w, es[0]);
      RunKeepsSafe(Step(w, es[0]), es[1..]);
    }
  }

  /** Wherever the crashes fall, a node that is handed out is named by no lease. */
  lemma NeverHandsOutLeasedNode(w: World, es: seq<Event>, zone: string, metro: string, id: NodeId)
    requires Safe(w) && IsBest(Run(w, es).store.nodes, zone, metro, id)
    ensures forall a <- Run(w, es).store.leases :: Run(w, es).store.leases[a].nodeId != id
  {
    RunKeepsSafe(w, es);
  }

  /** Polling, at every one of its writes, keeps the files safe. */
  lemma PromotionIsCrashSafe(s: Store, nodes: Nodes)
    requires CrashSafe(s) && Promoted(s.nodes, nodes)
    ensures CrashSafe(s.(nodes := nodes))
  {
  }

  /** Leases and nodes name the same sessions. */
  ghost predicate SessionsAgree(s: Store) {
    forall a <- s.leases ::
      s.leases[a].nodeId in s.nodes && s.nodes[s.leases[a].nodeId].sessionId == Some(s.leases[a].sessionId)
  }

  /** A crash between the two writes of a bind that changes the session. */
  predicate TornBind(w: World, e: Event) {
    e.op.Bind? && e.writes == 1 && e.op.assignmentId in w.store.leases &&
    w.store.leases[e.op.assignmentId].sessionId != e.op.sessionId
  }

  lemma SessionsAgreeUnlessTorn(w: World, e: Event)
    requires Safe(w) && SessionsAgree(w.store)
    ensures SessionsAgree(Step(w, e).store) <==> !TornBind(w, e)
  {
    if TornBind(w, e) {
      assert e.op.assignmentId in Step(w, e).store.leases;
    }
  }

  /** No node is in use without a lease. */
  ghost predicate NothingLeaked(s: Store) {
    forall id <- s.nodes :: s.nodes[id].state == InUse ==> exists a <- s.leases :: s.leases[a].nodeId == id
  }

  /** The steps that leave a node in use with no lease: a crash half way, or a request to do just that. */
  predicate Leaks(w: World, e: Event) {
    match e.op
    case Allocate(zone, metro, _, _, id) => Fresh(w, e.op) && IsBest(w.store.nodes, zone, metro, id) && e.writes == 1
    case Release(a, next, _) => a in w.store.leases && (e.writes == 1 || (e.writes > 1 && next == InUse))
    case Launch(n) => Fresh(w, e.op) && n.state == InUse && e.writes > 0
    case _ => false
  }

  lemma LeaseNames(s: Store, a: string, id: NodeId)
    requires a in s.leases && s.leases[a].nodeId == id
    ensures exists b <- s.leases :: s.leases[b].nodeId == id
  {
  }

  lemma BindLeaksNothing(w: World, e: Event)
    requires Safe(w) && NothingLeaked(w.store) && e.op.Bind?
    ensures NothingLeaked(Step(w, e).store)
  {
    var s' := Step(w, e).store;
    forall id | id in s'.nodes && s'.nodes[id].state == InUse
      ensures exists a <- s'.leases :: s'.leases[a].nodeId == id
    {
      var a :| a in w.store.leases && w.store.leases[a].nodeId == id;
      LeaseNames(s', a, id);
    }
  }

  lemma AllocateLeaksIff(w: World, e: Event)
    requires Safe(w) && NothingLeaked(w.store) && e.op.Allocate?
    ensures NothingLeaked(Step(w, e).store) <==> !Leaks(w, e)
  {
    var s' := Step(w, e).store;
    if Leaks(w, e) {
      assert s'.nodes[e.op.nodeId].state == InUse;
    } else {
      forall id | id in s'.nodes && s'.nodes[id].state == InUse
        ensures exists a <- s'.leases :: s'.leases[a].nodeId == id
      {
        if id in w.store.nodes && w.store.nodes[id].state == InUse {
          var a :| a in w.store.leases && w.store.leases[a].nodeId == id;
          LeaseNames(s', a, id);
        } else {
          LeaseNames(s', e.op.assignmentId, id);
        }
      }
    }
  }

  lemma ReleaseLeaksIff(w: World, e: Event)
    requires Safe(w) && NothingLeaked(w.store) && e.op.Release?
    ensures NothingLeaked(Step(w, e).store) <==> !Leaks(w, e)
  {
    var s' := Step(w, e).store;
    if e.op.assignmentId in w.store.leases {
      var freed := w.store.leases[e.op.assignmentId].nodeId;
      if Leaks(w, e) {
        assert s'.nodes[freed].state == InUse;
      }
      forall id | id in s'.nodes && s'.nodes[id].state == InUse && (id != freed || e.writes == 0)
        ensures exists a <- s'.leases :: s'.leases[a].nodeId == id
      {
        var a :| a in w.store.leases && w.store.leases[a].nodeId == id;
        LeaseNames(s', a, id);
      }
    }
  }

  lemma NodeChangeLeaksIff(w: World, e: Event)
    requires Safe(w) && NothingLeaked(w.store) && (e.op.Launch? || e.op.Ready?)
    ensures NothingLeaked(Step(w, e).store) <==> !Leaks(w, e)
  {
    var s' := Step(w, e).store;
    assert s'.leases == w.store.leases;
    if Leaks(w, e) {
      assert s'.nodes[e.op.node.nodeId].state == InUse;
    }
  }

  /** A step leaves every node in use leased, exactly when it is not one of the leaking ones. */
  lemma NothingLeakedUnlessLeaks(w: World, e: Event)
    requires Safe(w) && NothingLeaked(w.store)
    ensures NothingLeaked(Step(w, e).store) <==> !Leaks(w, e)
  {
    match e.op
    case Allocate(_, _, _, _, _) => AllocateLeaksIff(w, e);
    case Bind(_, _) => BindLeaksNothing(w, e);
    case Release(_, _, _) => ReleaseLeaksIff(w, e);
    case Launch(_) => NodeChangeLeaksIff(w, e);
    case Ready(_) => NodeChangeLeaksIff(w, e);
  }

  predicate TidyRun(w: World, es: seq<Event>)
    decreases |es|
  {
    es == [] || (!TornBind(w, es[0]) && !Leaks(w, es[0]) && TidyRun(Step(w, es[0]), es[1..]))
  }

  /** Over whole runs: leases and nodes in use correspond one to one and agree on their sessions. */
  lemma {:induction false} TidyRunsCorrespond(w: World, es: seq<Event>)
    requires Safe(w) && SessionsAgree(w.store) && NothingLeaked(w.store) && TidyRun(w, es)
    ensures Safe(Run(w, es)) && SessionsAgree(Run(w, es).store) && NothingLeaked(Run(w, es).store)
    decreases |es|
  {
    if es != [] {
      StepKeepsSafe(w, es[0]);
      SessionsAgreeUnlessTorn(w, es[0]);
      NothingLeakedUnlessLeaks(w, es[0]);
      TidyRunsCorrespond(Step(w, es[0]), es[1..]);
    }
  }

  lemma StepKeepsSpent(w: World, e: Event, a: string)
    requires Safe(w) && a in w.used && a !in w.store.leases
    ensures a in Step(w, e).used && a !in Step(w, e).store.leases
  {
  }

  /** A released assignment id never comes back: it can bind and free nothing any more. */
  lemma {:induction false} ReleasedIdIsSpent(w: World, es: seq<Event>, a: string, sessionId: string,
                                             next: NodeState, healthy: bool)
    requires Safe(w) && a in w.used && a !in w.store.leases
    ensures Writes(Run(w, es).store, Bind(a, sessionId)) == []
    ensures Writes(Run(w, es).store, Release(a, next, healthy)) == []
    decreases |es|
  {
    if es != [] {
      StepKeepsSafe(w, es[0]);
      StepKeepsSpent(w, es[0], a);
      ReleasedIdIsSpent(Step(w, es[0]), es[1..], a, sessionId, next, healthy);
    }
  }

  /** Releasing does spend the id, as soon as the first of its writes is on disk. */
  lemma ReleaseSpends(w: World, e: Event)
    requires Safe(w) && e.op.Release? && e.op.assignmentId in w.store.leases && e.writes > 0
    ensures e.op.assignmentId in Step(w, e).used && e.op.assignmentId !in Step(w, e).store.leases
  {
  }

  // ---------------------------------------------------------------- nodes released to boot again

  /** The node is known and has not come up yet. */
  predicate IsBooting(s: Store, id: NodeId) {
    id in s.nodes && s.nodes[id].state == Booting
  }

  /** A step keeps a booting node booting exactly when it is not the one that finds it ready. */
  lemma StepKeepsBooting(w: World, e: Event, id: NodeId)
    requires Safe(w) && IsBooting(w.store, id)
    ensures IsBooting(Step(w, e).store, id) <==> !(e.op == Ready(id) && e.writes > 0)
    ensures e.op == Ready(id) && e.writes > 0 ==> id in Step(w, e).store.nodes && Available(Step(w, e).store.nodes[id])
  {
  }

  /** Wherever the crashes fall, a booting node is not handed out until it has been found ready. */
  lemma {:induction false} BootingIsNotHandedOut(w: World, es: seq<Event>, id: NodeId)
    requires Safe(w) && IsBooting(w.store, id) && forall e <- es :: e.op != Ready(id)
    ensures IsBooting(Run(w, es).store, id)
    ensures forall zone, metro :: !IsBest(Run(w, es).store.nodes, zone, metro, id)
    decreases |es|
  {
    if es != [] {
      assert es[0] in es;
      StepKeepsSafe(w, es[0]);
      StepKeepsBooting(w, es[0], id);
      BootingIsNotHandedOut(Step(w, es[0]), es[1..], id);
    }
  }

  /** Releasing a lease puts its node into exactly the state that is asked for, and touches no other. */
  lemma ReleaseDoesAsAsked(w: World, a: string, next: NodeState, healthy: bool, writes: nat)
    requires Safe(w) && a in w.store.leases && writes >= 2
    ensures var id := w.store.leases[a].nodeId;
            var t := Step(w, Event(Release(a, next, healthy), writes)).store;
            && id in t.nodes && t.nodes[id].state == next && t.nodes[id].healthy == healthy
            && t.nodes[id].sessionId == None && t.nodes - {id} == w.store.nodes - {id}
            && t.leases == w.store.leases - {a}
  {
  }

  /**
   The reprobe recovery: a node released as booting waits until a poll finds it ready, whatever happens in
   between, and then it can be allocated again.
   */
  lemma ReleasedToBootComesBack(w: World, a: string, healthy: bool, es: seq<Event>)
    requires Safe(w) && a in w.store.leases
    requires var id := w.store.leases[a].nodeId; forall e <- es :: e.op != Ready(id)
    ensures var id := w.store.leases[a].nodeId;
            var t := Run(Step(w, Event(Release(a, Booting, healthy), 2)), es);
            && IsBooting(t.store, id)
            && (forall zone, metro :: !IsBest(t.store.nodes, zone, metro, id))
            && var up := Step(t, Event(Ready(id), 1)).store;
            && id in up.nodes && up.nodes[id].state == Idle && up.nodes[id].healthy
  {
    var id := w.store.leases[a].nodeId;
    var release := Event(Release(a, Booting, healthy), 2);
    ReleaseDoesAsAsked(w, a, Booting, healthy, 2);
    StepKeepsSafe(w, release);
    BootingIsNotHandedOut(Step(w, release), es, id);
  }
}
