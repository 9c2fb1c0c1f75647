/**
 The business-session orchestrator (diagnostic_platform/session_orchestrator.py): one active
 session at a time, decision gates with timeouts, terminal states, and delayed cleanup.
 */
module Session {
  import opened Common
  import opened EventQueue

  const QUEUE_SIZE: nat := 500

  type SessionId = nat

  datatype Status = Pending | Running | AwaitingDecision | Completed | Failed | Aborted

  predicate TerminalStatus(s: Status) {
    s == Completed || s == Failed || s == Aborted
  }

  datatype GateRecord = Gate(decisionId: string, options: seq<string>, kind: string, fallback: Option<string>,
                             createdAt: real, timeout: real)

  /** What DecisionGate accepts when it is made. */
  predicate WellFormed(g: GateRecord) {
    && g.decisionId != "" && g.options != [] && g.kind != "" && g.timeout > 0.0
    && (forall o <- g.options :: o != "")
    && (g.fallback.Some? ==> g.fallback.value in g.options)
  }

  type DecisionGate = g: GateRecord | WellFormed(g) witness Gate("d", ["manual"], "backend", None, 0.0, 120.0)

  predicate Expired(g: DecisionGate, now: real) {
    now - g.createdAt >= g.timeout
  }

  function FallbackOf(g: DecisionGate): (o: string)
    ensures o in g.options
  {
    if g.fallback.Some? then g.fallback.value else g.options[0]
  }

  /** A resolved decision; `gate` is the one it resolved. */
  datatype Resolution = Resolution(decisionId: string, optionId: string, source: string, gate: DecisionGate)

  datatype Record = Record(status: Status, backendName: Option<string>, pendingDecision: Option<DecisionGate>,
                           resolved: seq<Resolution>, error: Option<string>)

  /** What the backend registry says to a new session. */
  datatype Routing = Selected(backend: string) | NeedsDecision(gate: DecisionGate) | RegistryRaises

  type Sessions = map<SessionId, Record>
  type Queues = map<SessionId, seq<Message>>

  /**
   `timers` are the registered cleanup timers, `armed` all that were ever started: a cancelled one may
   still be about to run.  `used` are the session ids given out so far.
   */
  datatype State = State(sessions: Sessions, queues: Queues, timers: set<SessionId>,
                         armed: set<SessionId>, used: set<SessionId>) {
    predicate IsActive(id: SessionId) {
      id in sessions && !TerminalStatus(sessions[id].status)
    }

    function Emit(id: SessionId, m: Message): State {
      if id in queues then this.(queues := queues[id := Push(queues[id], m, QUEUE_SIZE)]) else this
    }

    function With(id: SessionId, r: Record): State {
      this.(sessions := sessions[id := r])
    }

    function Added(id: SessionId): State {
      this.(sessions := sessions[id := Record(Pending, None, None, [], None)], queues := queues[id := []],
            used := used + {id})
    }

    /** A registry that raises leaves the new session pending. */
    function Route(id: SessionId, routing: Routing): (State, Result<()>)
      requires id in sessions
    {
      match routing
      case RegistryRaises => (this, Err(KeyError))
      case Selected(backend) =>
        (With(id, sessions[id].(backendName := Some(backend), status := Running)).Emit(id, Message(Progress, backend)),
         Ok(()))
      case NeedsDecision(g) =>
        (With(id, sessions[id].(pendingDecision := Some(g), status := AwaitingDecision))
         .Emit(id, Message(DecisionRequired, g.decisionId)), Ok(()))
    }

    function Start(id: SessionId, routing: Routing): (State, Result<()>) {
      if exists a <- sessions :: IsActive(a) then (this, Err(RuntimeError)) else Added(id).Route(id, routing)
    }

    /** The backend an answered backend gate selects; the registry raises on an unknown "backend:" name. */
    static function ChosenBackend(optionId: string, known: set<string>): Result<string> {
      if optionId == "manual" then Ok("manual")
      else if "backend:" <= optionId then
        if optionId[8..] in known then Ok(optionId[8..]) else Err(KeyError)
      else Ok(optionId)
    }

    function Submit(id: SessionId, decisionId: string, optionId: string, source: string, known: set<string>):
      (State, Result<()>)
    {
      if id !in sessions then (this, Err(KeyError))
      else
        var r := sessions[id];
        if r.status != AwaitingDecision then (this, Err(ValueError))
        else if r.pendingDecision.None? || r.pendingDecision.value.decisionId != decisionId then (this, Err(ValueError))
        else
          var g := r.pendingDecision.value;
          if optionId !in g.options then (this, Err(ValueError))
          else
            Resolve(id, r.(resolved := r.resolved + [Resolution(decisionId, optionId, source, g)]), g, optionId, known)
    }

    /** The decision is noted before the backend is looked up, so a registry that raises leaves the gate pending. */
    function Resolve(id: SessionId, noted: Record, g: DecisionGate, optionId: string, known: set<string>):
      (State, Result<()>)
    {
      var chosen := if g.kind == "backend" then ChosenBackend(optionId, known) else Ok("");
      if chosen.Err? then (With(id, noted), Err(chosen.error))
      else
        var bound := if g.kind == "backend" then noted.(backendName := Some(chosen.value)) else noted;
        (With(id, bound.(pendingDecision := None, status := Running))
         .Emit(id, Message(DecisionResolved, g.decisionId)).Emit(id, Message(Progress, optionId)), Ok(()))
    }

    function CheckTimeout(id: SessionId, now: real, known: set<string>): (State, Result<bool>) {
      if id !in sessions then (this, Err(KeyError))
      else
        var r := sessions[id];
        if r.status != AwaitingDecision || r.pendingDecision.None? || !Expired(r.pendingDecision.value, now) then
          (this, Ok(false))
        else
          var g := r.pendingDecision.value;
          var (s, result) := Emit(id, Message(DecisionTimeout, g.decisionId))
                             .Submit(id, g.decisionId, FallbackOf(g), "timeout", known);
          (s, if result.Ok? then Ok(true) else Err(result.error))
    }

    function ScheduleCleanup(id: SessionId): State {
      this.(timers := timers + {id}, armed := armed + {id})
    }

    function Abort(id: SessionId, reason: string): (State, Result<()>) {
      if id !in sessions then (this, Err(KeyError))
      else if TerminalStatus(sessions[id].status) then (this, Err(ValueError))
      else
        var why := if reason != "" then reason else "Aborted by user";
        (With(id, sessions[id].(status := Aborted, error := Some(why), pendingDecision := None))
         .Emit(id, Message(Done, why)).ScheduleCleanup(id), Ok(()))
    }

    function Complete(id: SessionId): (State, Result<()>) {
      if id !in sessions then (this, Err(KeyError))
      else
        (With(id, sessions[id].(status := Completed)).Emit(id, Message(Done, "")).ScheduleCleanup(id), Ok(()))
    }

    function Fail(id: SessionId, error: string): (State, Result<()>) {
      if id !in sessions then (this, Err(KeyError))
      else
        (With(id, sessions[id].(status := Failed, error := Some(error)))
         .Emit(id, Message(Failure, error)).Emit(id, Message(Done, error)).ScheduleCleanup(id), Ok(()))
    }

    function EmitProgress(id: SessionId, text: string): (State, Result<()>) {
      if id !in sessions then (this, Err(KeyError)) else (Emit(id, Message(Progress, text)), Ok(()))
    }

    function RaiseDecision(id: SessionId, g: DecisionGate): (State, Result<()>) {
      if id !in sessions then (this, Err(KeyError))
      else if sessions[id].status != Running then (this, Err(ValueError))
      else
        (With(id, sessions[id].(pendingDecision := Some(g), status := AwaitingDecision))
         .Emit(id, Message(DecisionRequired, g.decisionId)), Ok(()))
    }

    /** _cleanup_session_state and _rollback_start_session forget the session; they differ in who calls them. */
    function Forget(id: SessionId): State {
      this.(sessions := sessions - {id}, queues := queues - {id}, timers := timers - {id})
    }

    function Consume(id: SessionId): State {
      if id in queues && queues[id] != [] then this.(queues := queues[id := queues[id][1..]]) else this
    }
  }

  // ---------------------------------------------------------------- the class

  class SessionOrchestrator {
    var sessions: Sessions
    var queues: Queues
    var timers: set<SessionId>
    ghost var armed: set<SessionId>
    ghost var used: set<SessionId>

    ghost function View(): State
      reads this
    {
      State(sessions, queues, timers, armed, used)
    }

    constructor ()
      ensures View() == State(map[], map[], {}, {}, {})
    {
      sessions, queues, timers, armed, used := map[], map[], {}, {}, {};
    }

    /** What BoundedQueue.Emit does to the queue of the session, if it still has one. */
    method Emit(id: SessionId, m: Message)
      modifies this`queues
      ensures View() == old(View()).Emit(id, m)
    {
      if id in queues {
        queues := queues[id := Push(queues[id], m, QUEUE_SIZE)];
      }
    }

    method FindActiveSession() returns (active: Option<SessionId>)
      ensures active.Some? ==> active.value in sessions && !TerminalStatus(sessions[active.value].status)
      ensures active.None? ==> forall id <- sessions :: TerminalStatus(sessions[id].status)
    {
      var todo := sessions.Keys;
      while todo != {}
        invariant todo <= sessions.Keys
        invariant forall id <- sessions.Keys - todo :: TerminalStatus(sessions[id].status)
      {
        var id :| id in todo;
        if !TerminalStatus(sessions[id].status) {
          return Some(id);
        }
        todo := todo - {id};
      }
      active := None;
    }

    /** Change a session in place and tell its queue. */
    method Transition(id: SessionId, r: Record, m: Message)
      requires id in sessions
      modifies this`sessions, this`queues
      ensures View() == old(View()).With(id, r).Emit(id, m)
    {
      sessions := sessions[id := r];
      Emit(id, m);
    }

    /** `id` is the identifier uuid4 came up with. */
    method StartSession(id: SessionId, routing: Routing) returns (r: Result<()>)
      modifies this
      ensures (View(), r) == old(View()).Start(id, routing)
    {
      ghost var was := View();
      var active := FindActiveSession();
      if active.Some? {
        assert was.IsActive(active.value);
        return Err(RuntimeError);
      }
      assert !exists a <- was.sessions :: was.IsActive(a);
      sessions := sessions[id := Record(Pending, None, None, [], None)];
      queues := queues[id := []];
      used := used + {id};
      r := RouteSession(id, routing);
    }

    method RouteSession(id: SessionId, routing: Routing) returns (r: Result<()>)
      requires id in sessions
      modifies this`sessions, this`queues
      ensures (View(), r) == old(View()).Route(id, routing)
    {
      match routing
      case RegistryRaises =>
        r := Err(KeyError);
      case Selected(backend) =>
        Transition(id, sessions[id].(backendName := Some(backend), status := Running), Message(Progress, backend));
        r := Ok(());
      case NeedsDecision(g) =>
        Transition(id, sessions[id].(pendingDecision := Some(g), status := AwaitingDecision),
                   Message(DecisionRequired, g.decisionId));
        r := Ok(());
    }

    method SubmitDecision(id: SessionId, decisionId: string, optionId: string, source: string, known: set<string>)
      returns (r: Result<()>)
      modifies this`sessions, this`queues
      ensures (View(), r) == old(View()).Submit(id, decisionId, optionId, source, known)
    {
      if id !in sessions {
        return Err(KeyError);
      }
      var session := sessions[id];
      if session.status != AwaitingDecision {
        return Err(ValueError);
      }
      if session.pendingDecision.None? || session.pendingDecision.value.decisionId != decisionId {
        return Err(ValueError);
      }
      var gate := session.pendingDecision.value;
      if optionId !in gate.options {
        return Err(ValueError);
      }
      session := session.(resolved := session.resolved + [Resolution(decisionId, optionId, source, gate)]);
      if gate.kind == "backend" {
        var chosen := State.ChosenBackend(optionId, known);
        if chosen.Err? {
          sessions := sessions[id := session];
          return Err(chosen.error);
        }
        session := session.(backendName := Some(chosen.value));
      }
      Transition(id, session.(pendingDecision := None, status := Running), Message(DecisionResolved, decisionId));
      Emit(id, Message(Progress, optionId));
      r := Ok(());
    }

    method CheckDecisionTimeout(id: SessionId, now: real, known: set<string>) returns (r: Result<bool>)
      modifies this`sessions, this`queues
      ensures (View(), r) == old(View()).CheckTimeout(id, now, known)
    {
      if id !in sessions {
        return Err(KeyError);
      }
      var session := sessions[id];
      if session.status != AwaitingDecision {
        return Ok(false);
      }
      if session.pendingDecision.None? || !Expired(session.pendingDecision.value, now) {
        return Ok(false);
      }
      var gate := session.pendingDecision.value;
      var fallback := FallbackOf(gate);
      Emit(id, Message(DecisionTimeout, gate.decisionId));
      var submitted := SubmitDecision(id, gate.decisionId, fallback, "timeout", known);
      r := if submitted.Ok? then Ok(true) else Err(submitted.error);
    }

    method ScheduleTerminalCleanup(id: SessionId)
      modifies this`timers, this`armed
      ensures View() == old(View()).ScheduleCleanup(id)
    {
      assert timers - {id} + {id} == timers + {id};
      timers, armed := timers - {id} + {id}, armed + {id};
    }

    method AbortSession(id: SessionId, reason: string) returns (r: Result<()>)
      modifies this`sessions, this`timers, this`armed, this`queues
      ensures (View(), r) == old(View()).Abort(id, reason)
    {
      if id !in sessions {
        return Err(KeyError);
      }
      if TerminalStatus(sessions[id].status) {
        return Err(ValueError);
      }
      var why := if reason != "" then reason else "Aborted by user";
      Transition(id, sessions[id].(status := Aborted, error := Some(why), pendingDecision := None), Message(Done, why));
      ScheduleTerminalCleanup(id);
      r := Ok(());
    }

    method CompleteSession(id: SessionId) returns (r: Result<()>)
      modifies this`sessions, this`timers, this`armed, this`queues
      ensures (View(), r) == old(View()).Complete(id)
    {
      if id !in sessions {
        return Err(KeyError);
      }
      Transition(id, sessions[id].(status := Completed), Message(Done, ""));
      ScheduleTerminalCleanup(id);
      r := Ok(());
    }

    method FailSession(id: SessionId, error: string) returns (r: Result<()>)
      modifies this`sessions, this`timers, this`armed, this`queues
      ensures (View(), r) == old(View()).Fail(id, error)
    {
      if id !in sessions {
        return Err(KeyError);
      }
      Transition(id, sessions[id].(status := Failed, error := Some(error)), Message(Failure, error));
      Emit(id, Message(Done, error));
      ScheduleTerminalCleanup(id);
      r := Ok(());
    }

    method EmitProgress(id: SessionId, text: string) returns (r: Result<()>)
      modifies this`queues
      ensures (View(), r) == old(View()).EmitProgress(id, text)
    {
      if id !in sessions {
        return Err(KeyError);
      }
      Emit(id, Message(Progress, text));
      r := Ok(());
    }

    method RaiseDecision(id: SessionId, gate: DecisionGate) returns (r: Result<()>)
      modifies this`sessions, this`queues
      ensures (View(), r) == old(View()).RaiseDecision(id, gate)
    {
      if id !in sessions {
        return Err(KeyError);
      }
      if sessions[id].status != Running {
        return Err(ValueError);
      }
      Transition(id, sessions[id].(pendingDecision := Some(gate), status := AwaitingDecision),
                 Message(DecisionRequired, gate.decisionId));
      r := Ok(());
    }

    /** What a cleanup timer runs, and what a failed start does. */
    method CleanupSessionState(id: SessionId)
      modifies this`sessions, this`queues, this`timers
      ensures View() == old(View()).Forget(id)
    {
      sessions, queues, timers := sessions - {id}, queues - {id}, timers - {id};
    }
  }

  // ---------------------------------------------------------------- all runs

  datatype Event =
    | Start(id: SessionId, routing: Routing)
    | Submit(id: SessionId, decisionId: string, optionId: string, source: string, known: set<string>)
    | CheckTimeout(id: SessionId, now: real, known: set<string>)
    | Abort(id: SessionId, reason: string)
    | Complete(id: SessionId)
    | Fail(id: SessionId, error: string)
    | EmitProgress(id: SessionId, text: string)
    | RaiseDecision(id: SessionId, gate: DecisionGate)
    | Rollback(id: SessionId)
    | TimerFires(id: SessionId)
    | Consume(id: SessionId)

  /** Session ids are fresh, and only started timers fire. */
  predicate Possible(s: State, e: Event) {
    match e
    case Start(id, _) => id !in s.used
    case TimerFires(id) => id in s.armed
    case _ => true
  }

  function Step(s: State, e: Event): State {
    if !Possible(s, e) then s
    else
      match e
      case Start(id, routing) => s.Start(id, routing).0
      case Submit(id, d, o, source, known) => s.Submit(id, d, o, source, known).0
      case CheckTimeout(id, now, known) => s.CheckTimeout(id, now, known).0
      case Abort(id, reason) => s.Abort(id, reason).0
      case Complete(id) => s.Complete(id).0
      case Fail(id, error) => s.Fail(id, error).0
      case EmitProgress(id, text) => s.EmitProgress(id, text).0
      case RaiseDecision(id, g) => s.RaiseDecision(id, g).0
      case Rollback(id) => s.Forget(id)
      case TimerFires(id) => s.Forget(id)
      case Consume(id) => s.Consume(id)
  }

  const INITIAL := State(map[], map[], {}, {}, {})

  function Run(s: State, es: seq<Event>): State
    decreases |es|
  {
    if es == [] then s else Run(Step(s, es[0]), es[1..])
  }

  /** A session is in order: it waits only at a gate, and every resolution chose what its gate offered. */
  ghost predicate InOrder(r: Record) {
    && (r.status == AwaitingDecision ==> r.pendingDecision.Some?)
    && (forall d <- r.resolved :: d.decisionId == d.gate.decisionId && d.optionId in d.gate.options)
  }

  ghost predicate OneActive(s: State) {
    forall a, b | a in s.sessions && b in s.sessions ::
      !TerminalStatus(s.sessions[a].status) && !TerminalStatus(s.sessions[b].status) ==> a == b
  }

  ghost predicate AllInOrder(s: State) {
    forall id <- s.sessions :: InOrder(s.sessions[id])
  }

  /** Only sessions that are over have cleanup timers. */
  ghost predicate TimersOnlyForOver(s: State) {
    && s.timers <= s.armed <= s.used
    && (forall id <- s.armed :: id in s.sessions ==> TerminalStatus(s.sessions[id].status))
  }

  ghost predicate QueuesBounded(s: State) {
    && s.sessions.Keys == s.queues.Keys && s.sessions.Keys <= s.used
    && (forall id <- s.queues :: |s.queues[id]| <= QUEUE_SIZE)
  }

  ghost predicate Inv(s: State) {
    OneActive(s) && AllInOrder(s) && TimersOnlyForOver(s) && QueuesBounded(s)
  }

  /** Once over, a session stays over, and a forgotten id stays forgotten. */
  ghost predicate NoRevival(s: State, t: State) {
    && s.used <= t.used && s.armed <= t.armed
    && forall id <- t.sessions :: id in s.used && !TerminalStatus(t.sessions[id].status) ==>
         id in s.sessions && !TerminalStatus(s.sessions[id].status)
  }

  /** Only session `id` changes, it is in order and not revived, and a timer is started for it only if it is over. */
  ghost predicate Touches(s: State, t: State, id: SessionId) {
    && id in s.sessions && id in t.sessions && id in t.queues
    && t.sessions == s.sessions[id := t.sessions[id]] && t.queues == s.queues[id := t.queues[id]]
    && InOrder(t.sessions[id]) && |t.queues[id]| <= QUEUE_SIZE
    && (!TerminalStatus(t.sessions[id].status) ==> !TerminalStatus(s.sessions[id].status))
    && t.used == s.used && s.armed <= t.armed <= s.armed + {id} && t.timers <= t.armed
    && (id in t.armed - s.armed ==> TerminalStatus(t.sessions[id].status))
  }

  lemma TouchKeepsInv(s: State, t: State, id: SessionId)
    requires Inv(s) && Touches(s, t, id)
    ensures Inv(t) && NoRevival(s, t)
  {
    assert id in s.armed ==> TerminalStatus(s.sessions[id].status);
  }

  /** What every change needs of the invariant. */
  ghost predicate Ready(s: State, id: SessionId) {
    && id in s.sessions && id in s.queues && InOrder(s.sessions[id]) && |s.queues[id]| <= QUEUE_SIZE
    && s.timers <= s.armed
  }

  lemma ResolveTouches(s: State, id: SessionId, noted: Record, g: DecisionGate, o: string, known: set<string>)
    requires Ready(s, id) && InOrder(noted) && !TerminalStatus(noted.status) && s.IsActive(id)
    ensures Touches(s, s.Resolve(id, noted, g, o, known).0, id)
  {
  }

  lemma SubmitTouches(s: State, id: SessionId, d: string, o: string, source: string, known: set<string>)
    requires Ready(s, id)
    ensures Touches(s, s.Submit(id, d, o, source, known).0, id)
  {
    var r := s.sessions[id];
    if r.status == AwaitingDecision && r.pendingDecision.value.decisionId == d && o in r.pendingDecision.value.options {
      var g := r.pendingDecision.value;
      ResolveTouches(s, id, r.(resolved := r.resolved + [Resolution(d, o, source, g)]), g, o, known);
    }
  }

  lemma TimeoutTouches(s: State, id: SessionId, now: real, known: set<string>)
    requires Ready(s, id)
    ensures Touches(s, s.CheckTimeout(id, now, known).0, id)
  {
    if s.sessions[id].pendingDecision.Some? {
      var g := s.sessions[id].pendingDecision.value;
      SubmitTouches(s.Emit(id, Message(DecisionTimeout, g.decisionId)), id, g.decisionId, FallbackOf(g), "timeout", known);
    }
  }

  lemma EndTouches(s: State, id: SessionId, text: string)
    requires Ready(s, id)
    ensures Touches(s, s.Abort(id, text).0, id)
    ensures Touches(s, s.Complete(id).0, id)
    ensures Touches(s, s.Fail(id, text).0, id)
  {
  }

  lemma AddedKeepsInv(s: State, id: SessionId)
    requires Inv(s) && id !in s.used && forall a <- s.sessions :: !s.IsActive(a)
    ensures Inv(s.Added(id)) && NoRevival(s, s.Added(id))
  {
    assert forall a <- s.sessions :: !s.IsActive(a) ==> TerminalStatus(s.sessions[a].status);
  }

  lemma NoRevivalChains(s: State, t: State, u: State)
    requires NoRevival(s, t) && NoRevival(t, u)
    ensures NoRevival(s, u)
  {
  }

  lemma RouteTouches(t: State, id: SessionId, routing: Routing)
    requires Ready(t, id) && t.IsActive(id)
    ensures Touches(t, t.Route(id, routing).0, id)
  {
  }

  lemma StartKeepsInv(s: State, id: SessionId, routing: Routing)
    requires Inv(s) && id !in s.used
    ensures Inv(s.Start(id, routing).0) && NoRevival(s, s.Start(id, routing).0)
  {
    if exists a <- s.sessions :: s.IsActive(a) {
      assert s.Start(id, routing).0 == s;
    } else {
      var t := s.Added(id);
      var u := t.Route(id, routing).0;
      AddedKeepsInv(s, id);
      RouteTouches(t, id, routing);
      TouchKeepsInv(t, u, id);
      assert s.Start(id, routing).0 == u;
      NoRevivalChains(s, t, u);
    }
  }

  lemma ForgetKeepsInv(s: State, id: SessionId)
    requires Inv(s)
    ensures Inv(s.Forget(id)) && NoRevival(s, s.Forget(id))
  {
  }

  lemma UserStepTouches(s: State, e: Event, id: SessionId)
    requires e.id == id && Ready(s, id)
    requires !e.Start? && !e.Rollback? && !e.TimerFires?
    ensures Touches(s, Step(s, e), id)
  {
    match e
    case Submit(_, d, o, source, known) => SubmitTouches(s, id, d, o, source, known);
    case CheckTimeout(_, now, known) => TimeoutTouches(s, id, now, known);
    case Abort(_, reason) => EndTouches(s, id, reason);
    case Complete(_) => EndTouches(s, id, "");
    case Fail(_, error) => EndTouches(s, id, error);
    case EmitProgress(_, _) =>
    case RaiseDecision(_, _) =>
    case Consume(_) =>
  }

  lemma StepKeepsInv(s: State, e: Event)
    requires Inv(s)
    ensures Inv(Step(s, e)) && NoRevival(s, Step(s, e))
  {
    if !Possible(s, e) {
    } else if e.Start? {
      StartKeepsInv(s, e.id, e.routing);
    } else if e.Rollback? || e.TimerFires? {
      ForgetKeepsInv(s, e.id);
    } else if e.id in s.sessions {
      UserStepTouches(s, e, e.id);
      TouchKeepsInv(s, Step(s, e), e.id);
    } else {
      assert Step(s, e) == s;
    }
  }

  lemma {:induction false} RunKeepsInv(s: State, es: seq<Event>)
    requires Inv(s)
    ensures Inv(Run(s, es)) && NoRevival(s, Run(s, es))
    decreases |es|
  {
    if es != [] {
      StepKeepsInv(s, es[0]);
      RunKeepsInv(Step(s, es[0]), es[1..]);
      NoRevivalChains(s, Step(s, es[0]), Run(s, es));
    }
  }

  /** After every run: one session at most is not over; one that waits has a gate; every decision chose what its gate offered. */
  lemma SessionsStayInOrder(es: seq<Event>)
    ensures Inv(Run(INITIAL, es))
  {
    RunKeepsInv(INITIAL, es);
  }

  /** A session that is over, or forgotten, at some point of a run is never active again. */
  lemma TerminalIsAbsorbing(es: seq<Event>, more: seq<Event>, id: SessionId)
    requires id in Run(INITIAL, es).used && !Run(INITIAL, es).IsActive(id)
    ensures !Run(Run(INITIAL, es), more).IsActive(id)
  {
    RunKeepsInv(INITIAL, es);
    RunKeepsInv(Run(INITIAL, es), more);
  }

  /** A cleanup timer, even a cancelled one that still runs, only ever removes a session that is over. */
  lemma TimersRemoveOnlyOver(es: seq<Event>, id: SessionId)
    requires var s := Run(INITIAL, es); id in s.armed && id in s.sessions
    ensures TerminalStatus(Run(INITIAL, es).sessions[id].status)
    ensures forall a :: Run(INITIAL, es).IsActive(a) ==> Step(Run(INITIAL, es), TimerFires(id)).IsActive(a)
  {
    RunKeepsInv(INITIAL, es);
  }

  function QueueOf(s: State, id: SessionId): seq<Message> {
    if id in s.queues then s.queues[id] else []
  }

  ghost predicate EndsWith(q: seq<Message>, kinds: seq<Kind>) {
    |kinds| <= |q| && forall i :: 0 <= i < |kinds| ==> q[|q| - |kinds| + i].kind == kinds[i]
  }

  /** Whatever the queue held, the events that end a session are the last ones in it. */
  lemma EndingEventsAreLast(es: seq<Event>, id: SessionId, reason: string)
    requires id in Run(INITIAL, es).sessions
    ensures var s := Run(INITIAL, es);
            && EndsWith(QueueOf(s.Complete(id).0, id), [Done])
            && (s.IsActive(id) ==> EndsWith(QueueOf(s.Abort(id, reason).0, id), [Done]))
            && EndsWith(QueueOf(s.Fail(id, reason).0, id), [Failure, Done])
  {
    RunKeepsInv(INITIAL, es);
    var s := Run(INITIAL, es);
    PushEnds(s.queues[id], Message(Done, reason));
    PushEnds(s.queues[id], Message(Done, ""));
    PushEnds(s.queues[id], Message(Done, "Aborted by user"));
    PushTwiceEnds(s.queues[id], Message(Failure, reason), Message(Done, reason));
  }

  lemma PushEnds(q: seq<Message>, m: Message)
    requires |q| <= QUEUE_SIZE && IsTerminal(m)
    ensures EndsWith(Push(q, m, QUEUE_SIZE), [m.kind])
  {
  }

  lemma PushPutsLast(q: seq<Message>, m: Message)
    requires |q| <= QUEUE_SIZE && IsTerminal(m)
    ensures var r := Push(q, m, QUEUE_SIZE); 0 < |r| <= QUEUE_SIZE && r[|r| - 1] == m
  {
  }

  /** The last event of a queue stays when another one is pushed behind it. */
  lemma PushKeepsLast(q: seq<Message>, n: Message)
    requires 0 < |q| <= QUEUE_SIZE && IsTerminal(n)
    ensures var r := Push(q, n, QUEUE_SIZE); 2 <= |r| && r[|r| - 2] == q[|q| - 1] && r[|r| - 1] == n
  {
    if |q| == QUEUE_SIZE {
      assert Push(q, n, QUEUE_SIZE) == q[1..] + [n];
    }
  }

  lemma EndsWithTwo(q: seq<Message>, a: Kind, b: Kind)
    requires 2 <= |q| && q[|q| - 2].kind == a && q[|q| - 1].kind == b
    ensures EndsWith(q, [a, b])
  {
  }

  lemma PushTwiceEnds(q: seq<Message>, m: Message, n: Message)
    requires |q| <= QUEUE_SIZE && IsTerminal(m) && IsTerminal(n)
    ensures EndsWith(Push(Push(q, m, QUEUE_SIZE), n, QUEUE_SIZE), [m.kind, n.kind])
  {
    var once := Push(q, m, QUEUE_SIZE);
    PushPutsLast(q, m);
    PushKeepsLast(once, n);
    EndsWithTwo(Push(once, n, QUEUE_SIZE), m.kind, n.kind);
  }

  /** The option a timeout takes: the fallback, or the first one offered. */
  function DefaultOption(g: DecisionGate): string {
    match g.fallback
    case Some(option) => option
    case None => g.options[0]
  }

  /**
   A gate whose time is up is resolved by its fallback, or else its first option, unless that names a backend
   nobody knows; before its time nothing happens.
   */
  lemma TimeoutResolves(es: seq<Event>, id: SessionId, now: real, known: set<string>)
    requires var s := Run(INITIAL, es);
             id in s.sessions && s.sessions[id].status == AwaitingDecision && s.sessions[id].pendingDecision.Some?
    ensures var s := Run(INITIAL, es);
            var g := s.sessions[id].pendingDecision.value;
            var (t, r) := s.CheckTimeout(id, now, known);
            if now < g.createdAt + g.timeout then t == s && r == Ok(false)
            else
              && (r == Ok(true) <==> g.kind != "backend" || State.ChosenBackend(DefaultOption(g), known).Ok?)
              && t.sessions[id].resolved ==
                 s.sessions[id].resolved + [Resolution(g.decisionId, DefaultOption(g), "timeout", g)]
              && (t.sessions[id].status == Running <==> r == Ok(true))
  {
  }

  // ---------------------------------------------------------------- what each request leaves behind

  /** "manual" and plain options stand for themselves, "backend:x" for the backend x, if there is one. */
  lemma BackendOptions(name: string, option: string, known: set<string>)
    ensures State.ChosenBackend("manual", known) == Ok("manual")
    ensures State.ChosenBackend("backend:" + name, known) == if name in known then Ok(name) else Err(KeyError)
    ensures option != "manual" && !("backend:" <= option) ==> State.ChosenBackend(option, known) == Ok(option)
  {
    assert "backend:"[0] != "manual"[0];
    assert ("backend:" + name)[8..] == name;
  }

  /** A new session runs its backend, waits at its gate, or stays pending when the registry raises. */
  lemma StartLeaves(s: State, id: SessionId, routing: Routing)
    requires forall a <- s.sessions :: TerminalStatus(s.sessions[a].status)
    ensures var (t, r) := s.Start(id, routing);
            && t.sessions.Keys == s.sessions.Keys + {id} && t.sessions - {id} == s.sessions - {id}
            && id in t.queues && t.timers == s.timers && t.armed == s.armed
            && match routing
               case Selected(b) =>
                 r.Ok? && t.sessions[id] == Record(Running, Some(b), None, [], None)
                 && t.queues[id] == [Message(Progress, b)]
               case NeedsDecision(g) =>
                 r.Ok? && t.sessions[id] == Record(AwaitingDecision, None, Some(g), [], None)
                 && t.queues[id] == [Message(DecisionRequired, g.decisionId)]
               case RegistryRaises =>
                 r.Err? && t.sessions[id] == Record(Pending, None, None, [], None) && t.queues[id] == []
  {
    assert !exists a <- s.sessions :: s.IsActive(a);
  }

  /** An accepted answer is noted with its source, sets the backend of a backend gate only, and lets the session run. */
  lemma AnswerLeaves(s: State, id: SessionId, o: string, source: string, known: set<string>, g: DecisionGate)
    requires WaitsAt(s, id, g) && o in g.options && Resolvable(g, o, known)
    requires id in s.queues && |s.queues[id]| + 2 <= QUEUE_SIZE
    ensures var (t, r) := s.Submit(id, g.decisionId, o, source, known);
            var before := s.sessions[id];
            && r == Ok(()) && id in t.sessions && t.sessions - {id} == s.sessions - {id}
            && t.sessions[id] == Record(Running,
                 if g.kind == "backend" then Some(State.ChosenBackend(o, known).value) else before.backendName,
                 None, before.resolved + [Resolution(g.decisionId, o, source, g)], before.error)
            && t.queues == s.queues[id := s.queues[id] + [Message(DecisionResolved, g.decisionId), Message(Progress, o)]]
  {
    assert s.queues[id] + [Message(DecisionResolved, g.decisionId)] + [Message(Progress, o)] ==
           s.queues[id] + [Message(DecisionResolved, g.decisionId), Message(Progress, o)];
  }

  /** An answer to another gate, to none, or with an option that is not offered changes nothing. */
  lemma WrongAnswerLeavesNothing(s: State, id: SessionId, d: string, o: string, source: string, known: set<string>)
    requires id in s.sessions
    requires var r := s.sessions[id];
             r.status != AwaitingDecision || r.pendingDecision.None? || r.pendingDecision.value.decisionId != d
             || o !in r.pendingDecision.value.options
    ensures s.Submit(id, d, o, source, known) == (s, Err(ValueError))
  {
  }

  /** A running session that raises a gate waits at that gate and keeps everything else; no other session can. */
  lemma RaiseLeaves(s: State, id: SessionId, g: DecisionGate)
    requires id in s.sessions
    ensures var (t, r) := s.RaiseDecision(id, g);
            if s.sessions[id].status != Running then t == s && r == Err(ValueError)
            else r == Ok(()) && WaitsAt(t, id, g) && t.sessions - {id} == s.sessions - {id}
                 && t.sessions[id].backendName == s.sessions[id].backendName
                 && t.sessions[id].resolved == s.sessions[id].resolved
                 && t.sessions[id].error == s.sessions[id].error
  {
  }

  /** Completing and failing leave gate, backend and resolutions alone; aborting drops the gate. */
  lemma EndLeaves(s: State, id: SessionId, text: string)
    requires id in s.sessions
    ensures var r, t := s.sessions[id], s.Complete(id).0;
            id in t.sessions && t.sessions[id] == Record(Completed, r.backendName, r.pendingDecision, r.resolved, r.error)
    ensures var r, t := s.sessions[id], s.Fail(id, text).0;
            id in t.sessions && t.sessions[id] == Record(Failed, r.backendName, r.pendingDecision, r.resolved, Some(text))
    ensures var r := s.sessions[id];
            var (t, result) := s.Abort(id, text);
            if r.status in {Completed, Failed, Aborted} then t == s && result == Err(ValueError)
            else id in t.sessions && t.sessions[id] ==
                   Record(Aborted, r.backendName, None, r.resolved, Some(if text == "" then "Aborted by user" else text))
  {
  }

  /** A gate that times out says so before it says that it is resolved. */
  lemma TimeoutAnnounces(s: State, id: SessionId, now: real, known: set<string>, g: DecisionGate)
    requires WaitsAt(s, id, g) && now >= g.createdAt + g.timeout && Resolvable(g, DefaultOption(g), known)
    requires id in s.queues && |s.queues[id]| + 3 <= QUEUE_SIZE
    ensures s.CheckTimeout(id, now, known).0.queues ==
            s.queues[id := s.queues[id] + [Message(DecisionTimeout, g.decisionId), Message(DecisionResolved, g.decisionId),
                                           Message(Progress, DefaultOption(g))]]
  {
    var announced := s.Emit(id, Message(DecisionTimeout, g.decisionId));
    var more := [Message(DecisionResolved, g.decisionId), Message(Progress, DefaultOption(g))];
    assert FallbackOf(g) == DefaultOption(g);
    AnswerLeaves(announced, id, DefaultOption(g), "timeout", known, g);
    assert s.CheckTimeout(id, now, known).0 == announced.Submit(id, g.decisionId, DefaultOption(g), "timeout", known).0;
    assert announced.queues[id] == s.queues[id] + [Message(DecisionTimeout, g.decisionId)];
    assert s.queues[id] + [Message(DecisionTimeout, g.decisionId)] + more ==
           s.queues[id] + [Message(DecisionTimeout, g.decisionId), more[0], more[1]];
  }

  /** Progress and a raised gate are told to the session's own queue. */
  lemma TellingLeaves(s: State, id: SessionId, text: string, g: DecisionGate)
    requires id in s.sessions && id in s.queues && |s.queues[id]| < QUEUE_SIZE
    ensures var (t, r) := s.EmitProgress(id, text);
            r == Ok(()) && t == s.(queues := s.queues[id := s.queues[id] + [Message(Progress, text)]])
    ensures s.sessions[id].status == Running ==>
              s.RaiseDecision(id, g).0.queues ==
              s.queues[id := s.queues[id] + [Message(DecisionRequired, g.decisionId)]]
  {
  }

  /** Nothing can be done with a session that is not known. */
  lemma UnknownSessionIsRefused(s: State, id: SessionId, text: string, option: string, now: real, g: DecisionGate,
                                known: set<string>)
    requires id !in s.sessions
    ensures s.Submit(id, text, option, text, known) == (s, Err(KeyError))
    ensures s.CheckTimeout(id, now, known) == (s, Err(KeyError))
    ensures s.Abort(id, text) == s.Complete(id) == s.Fail(id, text) == (s, Err(KeyError))
    ensures s.EmitProgress(id, text) == s.RaiseDecision(id, g) == (s, Err(KeyError))
  {
  }

  /** A cleanup timer, like a rollback, takes the session, its queue and its timer, and nothing of any other. */
  lemma TimerTakesAll(s: State, id: SessionId)
    requires id in s.armed
    ensures var t := Step(s, TimerFires(id));
            && t == Step(s, Rollback(id))
            && id !in t.sessions && id !in t.queues && id !in t.timers
            && t.sessions == s.sessions - {id} && t.queues == s.queues - {id} && t.timers == s.timers - {id}
  {
  }

  // ---------------------------------------------------------------- how a session ended

  datatype Ended = ByComplete | ByFail | ByAbort

  /** What counts as ending a session: any Complete or Fail of a known one, an Abort of an active one. */
  function NextEnd(s: State, e: Event, id: SessionId, end: Option<Ended>): Option<Ended> {
    if e == Complete(id) && id in s.sessions then Some(ByComplete)
    else if e.Fail? && e.id == id && id in s.sessions then Some(ByFail)
    else if e.Abort? && e.id == id && s.IsActive(id) then Some(ByAbort)
    else end
  }

  function NextError(s: State, e: Event, id: SessionId, error: Option<string>): Option<string> {
    if e.Fail? && e.id == id && id in s.sessions then Some(e.error)
    else if e.Abort? && e.id == id && s.IsActive(id) then Some(if e.reason == "" then "Aborted by user" else e.reason)
    else error
  }

  /** The last request that ended the session. */
  function LastEnd(es: seq<Event>, id: SessionId): Option<Ended> {
    if es == [] then None
    else NextEnd(Run(INITIAL, es[..|es| - 1]), es[|es| - 1], id, LastEnd(es[..|es| - 1], id))
  }

  /** What the last Fail or accepted Abort said. */
  function LastError(es: seq<Event>, id: SessionId): Option<string> {
    if es == [] then None
    else NextError(Run(INITIAL, es[..|es| - 1]), es[|es| - 1], id, LastError(es[..|es| - 1], id))
  }

  function StatusOf(end: Ended): Status {
    match end
    case ByComplete => Completed
    case ByFail => Failed
    case ByAbort => Aborted
  }

  /** The session says how it ended and why. */
  predicate TellsEnd(r: Record, end: Option<Ended>, error: Option<string>) {
    && r.error == error
    && if end.Some? then r.status == StatusOf(end.value) else !TerminalStatus(r.status)
  }

  lemma {:induction false} RunAppend(s: State, a: seq<Event>, b: seq<Event>)
    ensures Run(s, a + b) == Run(Run(s, a), b)
    decreases |a|
  {
    if a == [] {
      assert a + b == b;
    } else {
      assert (a + b)[0] == a[0] && (a + b)[1..] == a[1..] + b;
      RunAppend(Step(s, a[0]), a[1..], b);
    }
  }

  lemma RunLast(s: State, es: seq<Event>)
    requires es != []
    ensures Run(s, es) == Step(Run(s, es[..|es| - 1]), es[|es| - 1])
  {
    var front, last := es[..|es| - 1], es[|es| - 1];
    assert es == front + [last] && [last] + [] == [last];
    RunAppend(s, front, [last]);
    RunOnce(Run(s, front), last, []);
  }

  /** Apart from the three endings no request touches the error of a session, or ends one. */
  lemma SubmitKeepsError(s: State, id: SessionId, d: string, o: string, source: string, known: set<string>)
    requires id in s.sessions
    ensures var t := s.Submit(id, d, o, source, known).0;
            id in t.sessions && t.sessions[id].error == s.sessions[id].error
            && (TerminalStatus(s.sessions[id].status) ==> t.sessions[id] == s.sessions[id])
            && (!TerminalStatus(s.sessions[id].status) ==> !TerminalStatus(t.sessions[id].status))
  {
  }

  lemma TimeoutKeepsError(s: State, id: SessionId, now: real, known: set<string>)
    requires id in s.sessions
    ensures var t := s.CheckTimeout(id, now, known).0;
            id in t.sessions && t.sessions[id].error == s.sessions[id].error
            && (TerminalStatus(s.sessions[id].status) ==> t.sessions[id] == s.sessions[id])
            && (!TerminalStatus(s.sessions[id].status) ==> !TerminalStatus(t.sessions[id].status))
  {
    if s.sessions[id].pendingDecision.Some? {
      var g := s.sessions[id].pendingDecision.value;
      SubmitKeepsError(s.Emit(id, Message(DecisionTimeout, g.decisionId)), id, g.decisionId, FallbackOf(g), "timeout", known);
    }
  }

  /** Before its start nothing has ended a session, and a known one tells how it ended. */
  ghost predicate EndsRight(s: State, id: SessionId, end: Option<Ended>, error: Option<string>) {
    && (id !in s.used ==> end.None? && error.None?)
    && (id in s.sessions ==> TellsEnd(s.sessions[id], end, error))
  }

  lemma OwnStepTellsEnd(s: State, e: Event, id: SessionId, end: Option<Ended>, error: Option<string>)
    requires id in s.sessions && TellsEnd(s.sessions[id], end, error) && id in s.used
    requires e.id == id && id in Step(s, e).sessions
    ensures TellsEnd(Step(s, e).sessions[id], NextEnd(s, e, id, end), NextError(s, e, id, error))
  {
    match e
    case Submit(_, d, o, source, known) => SubmitKeepsError(s, id, d, o, source, known);
    case CheckTimeout(_, now, known) => TimeoutKeepsError(s, id, now, known);
    case _ =>
  }

  lemma StartTellsNoEnd(s: State, id: SessionId, routing: Routing)
    requires Inv(s) && id !in s.used
    ensures var t := s.Start(id, routing).0; id in t.sessions ==> TellsEnd(t.sessions[id], None, None)
  {
  }

  lemma UsedGrows(s: State, e: Event)
    requires Inv(s)
    ensures s.used <= Step(s, e).used
  {
    StepKeepsInv(s, e);
  }

  lemma ElsewhereEndsRight(s: State, e: Event, id: SessionId, end: Option<Ended>, error: Option<string>)
    requires Inv(s) && EndsRight(s, id, end, error) && e.id != id
    ensures EndsRight(Step(s, e), id, NextEnd(s, e, id, end), NextError(s, e, id, error))
  {
    UsedGrows(s, e);
    StepElsewhere(s, e, id);
  }

  lemma StartEndsRight(s: State, e: Event, id: SessionId, end: Option<Ended>, error: Option<string>)
    requires Inv(s) && EndsRight(s, id, end, error) && e.id == id && e.Start?
    ensures EndsRight(Step(s, e), id, NextEnd(s, e, id, end), NextError(s, e, id, error))
  {
    UsedGrows(s, e);
    if Possible(s, e) {
      StartTellsNoEnd(s, id, e.routing);
    }
  }

  lemma UnknownStaysUnknown(s: State, e: Event, id: SessionId)
    requires id !in s.sessions && e.id == id && !e.Start?
    ensures id !in Step(s, e).sessions
  {
  }

  lemma OwnEndsRight(s: State, e: Event, id: SessionId, end: Option<Ended>, error: Option<string>)
    requires Inv(s) && EndsRight(s, id, end, error) && e.id == id && !e.Start?
    ensures EndsRight(Step(s, e), id, NextEnd(s, e, id, end), NextError(s, e, id, error))
  {
    UsedGrows(s, e);
    if id !in s.sessions {
      UnknownStaysUnknown(s, e, id);
    } else if id in Step(s, e).sessions {
      OwnStepTellsEnd(s, e, id, end, error);
    }
  }

  lemma StepEndsRight(s: State, e: Event, id: SessionId, end: Option<Ended>, error: Option<string>)
    requires Inv(s) && EndsRight(s, id, end, error)
    ensures EndsRight(Step(s, e), id, NextEnd(s, e, id, end), NextError(s, e, id, error))
  {
    if e.id != id {
      ElsewhereEndsRight(s, e, id, end, error);
    } else if e.Start? {
      StartEndsRight(s, e, id, end, error);
    } else {
      OwnEndsRight(s, e, id, end, error);
    }
  }

  /**
   After every run a session that is known is over exactly when a request ended it; then its status is that of
   the last one, and its error what the last Fail or accepted Abort said.
   */
  lemma {:induction false} EndIsTheLastOne(es: seq<Event>, id: SessionId)
    ensures EndsRight(Run(INITIAL, es), id, LastEnd(es, id), LastError(es, id))
    decreases |es|
  {
    if es != [] {
      var front := es[..|es| - 1];
      EndIsTheLastOne(front, id);
      RunKeepsInv(INITIAL, front);
      RunLast(INITIAL, es);
      StepEndsRight(Run(INITIAL, front), es[|es| - 1], id, LastEnd(front, id), LastError(front, id));
    }
  }

  lemma StepKeepsItTimed(s: State, e: Event, id: SessionId)
    requires OverIsTimed(s)
    requires id in Step(s, e).sessions && TerminalStatus(Step(s, e).sessions[id].status)
    ensures id in Step(s, e).timers
  {
    if e.id != id {
      StepElsewhere(s, e, id);
    } else if e.Submit? && id in s.sessions {
      SubmitKeepsError(s, id, e.decisionId, e.optionId, e.source, e.known);
    } else if e.CheckTimeout? && id in s.sessions {
      TimeoutKeepsError(s, id, e.now, e.known);
    }
  }

  lemma StepKeepsTimed(s: State, e: Event)
    requires OverIsTimed(s)
    ensures OverIsTimed(Step(s, e))
  {
    forall id | id in Step(s, e).sessions && TerminalStatus(Step(s, e).sessions[id].status)
      ensures id in Step(s, e).timers
    {
      StepKeepsItTimed(s, e, id);
    }
  }

  /** A session that is over has a cleanup timer until it is forgotten. */
  ghost predicate OverIsTimed(s: State) {
    forall id <- s.sessions :: TerminalStatus(s.sessions[id].status) ==> id in s.timers
  }

  lemma {:induction false} OverSessionsAreTimed(s: State, es: seq<Event>)
    requires OverIsTimed(s)
    ensures OverIsTimed(Run(s, es))
    decreases |es|
  {
    if es != [] {
      StepKeepsTimed(s, es[0]);
      OverSessionsAreTimed(Step(s, es[0]), es[1..]);
    }
  }

  // ---------------------------------------------------------------- how long a session blocks others

  /** The requests that end a session or forget it. */
  predicate Ends(e: Event, id: SessionId) {
    e.id == id && (e.Abort? || e.Complete? || e.Fail? || e.Rollback?)
  }

  /** What a session is does not depend on requests for another one. */
  predicate SameSession(s: State, t: State, id: SessionId) {
    (id in t.sessions <==> id in s.sessions) && (id in s.sessions ==> t.sessions[id] == s.sessions[id])
  }

  lemma SubmitElsewhere(s: State, other: SessionId, d: string, o: string, source: string, known: set<string>, id: SessionId)
    requires other != id
    ensures SameSession(s, s.Submit(other, d, o, source, known).0, id)
  {
  }

  lemma StepElsewhere(s: State, e: Event, id: SessionId)
    requires e.id != id
    ensures SameSession(s, Step(s, e), id)
  {
    if e.CheckTimeout? && e.id in s.sessions && s.sessions[e.id].pendingDecision.Some? {
      var g := s.sessions[e.id].pendingDecision.value;
      SubmitElsewhere(s.Emit(e.id, Message(DecisionTimeout, g.decisionId)), e.id, g.decisionId, FallbackOf(g),
                      "timeout", e.known, id);
    } else if e.Submit? {
      SubmitElsewhere(s, e.id, e.decisionId, e.optionId, e.source, e.known, id);
    }
  }

  lemma SubmitLeavesActive(s: State, id: SessionId, d: string, o: string, source: string, known: set<string>)
    requires s.IsActive(id)
    ensures s.Submit(id, d, o, source, known).0.IsActive(id)
  {
  }

  lemma StepEndsIff(s: State, e: Event, id: SessionId)
    requires Inv(s) && s.IsActive(id)
    ensures Step(s, e).IsActive(id) <==> !Ends(e, id)
  {
    if e.id != id {
      StepElsewhere(s, e, id);
    } else {
      match e
      case Submit(_, d, o, source, known) => SubmitLeavesActive(s, id, d, o, source, known);
      case CheckTimeout(_, now, known) => TimeoutLeavesActive(s, id, now, known);
      case _ =>
    }
  }

  lemma TimeoutLeavesActive(s: State, id: SessionId, now: real, known: set<string>)
    requires s.IsActive(id)
    ensures s.CheckTimeout(id, now, known).0.IsActive(id)
  {
    if s.sessions[id].pendingDecision.Some? {
      var g := s.sessions[id].pendingDecision.value;
      SubmitLeavesActive(s.Emit(id, Message(DecisionTimeout, g.decisionId)), id, g.decisionId, FallbackOf(g), "timeout", known);
    }
  }

  /** An active session is active until it is aborted, completed, failed or rolled back, and never after. */
  lemma {:induction false} ActiveUntilEnded(s: State, es: seq<Event>, id: SessionId)
    requires Inv(s) && s.IsActive(id)
    ensures Run(s, es).IsActive(id) <==> forall e <- es :: !Ends(e, id)
    decreases |es|
  {
    if es != [] {
      StepKeepsInv(s, es[0]);
      StepEndsIff(s, es[0], id);
      assert forall e :: e in es <==> e == es[0] || e in es[1..];
      if Step(s, es[0]).IsActive(id) {
        ActiveUntilEnded(Step(s, es[0]), es[1..], id);
      } else {
        assert Ends(es[0], id);
        RunKeepsInv(Step(s, es[0]), es[1..]);
      }
    }
  }

  /** A start whose registry raises refuses every later start until its own session is ended or rolled back. */
  lemma RaisingStartBlocks(s: State, id: SessionId, es: seq<Event>, other: SessionId, routing: Routing)
    requires Inv(s) && id !in s.used && forall a <- s.sessions :: !s.IsActive(a)
    ensures var t := Run(Step(s, Start(id, RegistryRaises)), es);
            && (t.IsActive(id) <==> forall e <- es :: !Ends(e, id))
            && (t.IsActive(id) ==> t.Start(other, routing) == (t, Err(RuntimeError)))
  {
    StartKeepsInv(s, id, RegistryRaises);
    ActiveUntilEnded(Step(s, Start(id, RegistryRaises)), es, id);
  }

  // ---------------------------------------------------------------- how often a gate is resolved

  function Resolutions(s: State, id: SessionId): nat {
    if id in s.sessions then |s.sessions[id].resolved| else 0
  }

  predicate WaitsAt(s: State, id: SessionId, g: DecisionGate) {
    id in s.sessions && s.sessions[id].status == AwaitingDecision && s.sessions[id].pendingDecision == Some(g)
  }

  /** The registry knows these backends, and no further gate is raised in the session. */
  predicate OneGate(e: Event, id: SessionId, known: set<string>) {
    && (e.Submit? || e.CheckTimeout? ==> e.known == known)
    && !(e.RaiseDecision? && e.id == id)
  }

  /** Answering the gate with this option never makes the registry raise. */
  predicate Resolvable(g: DecisionGate, option: string, known: set<string>) {
    g.kind != "backend" || State.ChosenBackend(option, known).Ok?
  }

  /** The gate has been resolved at most once: not at all while it is waited at. */
  ghost predicate AtMostOnce(s: State, id: SessionId, g: DecisionGate, n: nat) {
    && Resolutions(s, id) <= n + 1
    && (id in s.sessions && s.sessions[id].status == AwaitingDecision ==> WaitsAt(s, id, g) && Resolutions(s, id) == n)
  }

  lemma SubmitResolvesOnce(s: State, id: SessionId, d: string, o: string, source: string, known: set<string>,
                           g: DecisionGate, n: nat)
    requires AtMostOnce(s, id, g, n) && forall option <- g.options :: Resolvable(g, option, known)
    ensures AtMostOnce(s.Submit(id, d, o, source, known).0, id, g, n)
  {
  }

  lemma TimeoutResolvesOnce(s: State, id: SessionId, now: real, known: set<string>, g: DecisionGate, n: nat)
    requires AtMostOnce(s, id, g, n) && forall option <- g.options :: Resolvable(g, option, known)
    ensures AtMostOnce(s.CheckTimeout(id, now, known).0, id, g, n)
  {
    if id in s.sessions && s.sessions[id].pendingDecision.Some? {
      var gate := s.sessions[id].pendingDecision.value;
      SubmitResolvesOnce(s.Emit(id, Message(DecisionTimeout, gate.decisionId)), id, gate.decisionId, FallbackOf(gate),
                         "timeout", known, g, n);
    }
  }

  lemma OtherStepResolvesOnce(s: State, e: Event, id: SessionId, g: DecisionGate, n: nat)
    requires id in s.used && AtMostOnce(s, id, g, n)
    requires e.id == id && !e.Submit? && !e.CheckTimeout? && !e.RaiseDecision?
    ensures AtMostOnce(Step(s, e), id, g, n)
  {
  }

  lemma StepResolvesOnce(s: State, e: Event, id: SessionId, known: set<string>, g: DecisionGate, n: nat)
    requires Inv(s) && id in s.used && AtMostOnce(s, id, g, n) && OneGate(e, id, known)
    requires forall option <- g.options :: Resolvable(g, option, known)
    ensures AtMostOnce(Step(s, e), id, g, n)
  {
    if e.id != id {
      StepElsewhere(s, e, id);
    } else {
      match e
      case Submit(_, d, o, source, _) => SubmitResolvesOnce(s, id, d, o, source, known, g, n);
      case CheckTimeout(_, now, _) => TimeoutResolvesOnce(s, id, now, known, g, n);
      case _ => OtherStepResolvesOnce(s, e, id, g, n);
    }
  }

  lemma {:induction false} RunResolvesOnce(s: State, es: seq<Event>, id: SessionId, known: set<string>, g: DecisionGate, n: nat)
    requires Inv(s) && id in s.used && AtMostOnce(s, id, g, n)
    requires forall e <- es :: OneGate(e, id, known)
    requires forall option <- g.options :: Resolvable(g, option, known)
    ensures Resolutions(Run(s, es), id) <= n + 1
    decreases |es|
  {
    if es != [] {
      assert es[0] in es;
      StepKeepsInv(s, es[0]);
      StepResolvesOnce(s, es[0], id, known, g, n);
      RunResolvesOnce(Step(s, es[0]), es[1..], id, known, g, n);
    }
  }

  /** An answer that names an unknown backend is noted, and the gate goes on waiting. */
  lemma UnknownBackendIsNoted(s: State, id: SessionId, o: string, source: string, known: set<string>, g: DecisionGate)
    requires WaitsAt(s, id, g) && o in g.options && !Resolvable(g, o, known)
    ensures var t := s.Submit(id, g.decisionId, o, source, known).0;
            WaitsAt(t, id, g) && Resolutions(t, id) == Resolutions(s, id) + 1
  {
  }

  /** Timeouts whose fallback is an unknown backend add a resolution each, and the gate never opens. */
  lemma {:induction false} TimeoutsPileUp(s: State, id: SessionId, now: real, known: set<string>, g: DecisionGate, k: nat)
    requires WaitsAt(s, id, g) && Expired(g, now) && !Resolvable(g, FallbackOf(g), known)
    ensures var t := Run(s, seq(k, _ => CheckTimeout(id, now, known)));
            WaitsAt(t, id, g) && Resolutions(t, id) == Resolutions(s, id) + k
    decreases k
  {
    if k > 0 {
      var es := seq(k, _ => CheckTimeout(id, now, known));
      assert es[0] == CheckTimeout(id, now, known) && es[1..] == seq(k - 1, _ => CheckTimeout(id, now, known));
      UnknownBackendIsNoted(s.Emit(id, Message(DecisionTimeout, g.decisionId)), id, FallbackOf(g), "timeout", known, g);
      TimeoutsPileUp(Step(s, es[0]), id, now, known, g, k - 1);
    }
  }

  lemma NotedTwice(s: State, id: SessionId, o: string, known: set<string>, g: DecisionGate) returns (es: seq<Event>)
    requires WaitsAt(s, id, g) && o in g.options && !Resolvable(g, o, known)
    ensures OneGateRun(es, id, known) && Resolutions(Run(s, es), id) == Resolutions(s, id) + 2
  {
    var once := Submit(id, g.decisionId, o, "user", known);
    UnknownBackendIsNoted(s, id, o, "user", known, g);
    UnknownBackendIsNoted(Step(s, once), id, o, "user", known, g);
    es := [once] + ([once] + []);
    RunOnce(s, once, [once] + []);
    RunOnce(Step(s, once), once, []);
  }

  lemma RunOnce(s: State, e: Event, es: seq<Event>)
    ensures Run(s, [e] + es) == Run(Step(s, e), es)
  {
    assert ([e] + es)[1..] == es;
  }

  predicate OneGateRun(es: seq<Event>, id: SessionId, known: set<string>) {
    forall e <- es :: OneGate(e, id, known)
  }

  /** A gate is resolved at most once in every run exactly when the registry can take each of its options. */
  lemma ResolvedOnceIff(s: State, id: SessionId, known: set<string>, g: DecisionGate)
    requires Inv(s) && WaitsAt(s, id, g)
    ensures (forall es :: OneGateRun(es, id, known) ==> Resolutions(Run(s, es), id) <= Resolutions(s, id) + 1) <==>
            forall option <- g.options :: Resolvable(g, option, known)
  {
    if option :| option in g.options && !Resolvable(g, option, known) {
      var es := NotedTwice(s, id, option, known, g);
    } else {
      forall es | OneGateRun(es, id, known)
        ensures Resolutions(Run(s, es), id) <= Resolutions(s, id) + 1
      {
        RunResolvesOnce(s, es, id, known, g, Resolutions(s, id));
      }
    }
  }
}
