/**
 The reverse tunnel server (vci_proxy/reverse_server.py): it renumbers requests of several DLL
 connections and of its own probe onto one replaceable tunnel, and matches the answers through a
 table of futures keyed by a 32-bit sequence number.
 */
module Tunnel {
  import opened Common
  import opened Bytes
  import opened Protocol
  import opened Framing

  const SEQUENCE_SPACE: nat := 0x1_0000_0000

  datatype Answer = Answer(msgType: U16, body: ByteString)

  datatype Outcome = Pending | Resolved(answer: Answer) | TimedOut | Cancelled | ForwardFailed

  /**
   The server's state.  Futures are named by the order of their creation: `outcomes[f]` is the
   state of the f-th future, and `futures` is the table from sequence numbers to futures.
   */
  datatype Server = Server(sequence: U32, futures: map<U32, nat>, outcomes: seq<Outcome>, tunnel: Option<nat>) {
    predicate WellFormed() {
      forall s <- futures :: futures[s] < |outcomes|
    }

    function NextSequence(): U32 {
      (sequence + 1) % SEQUENCE_SPACE
    }

    /** A fresh sequence number with a fresh future behind it. */
    function Register(): Server {
      this.(sequence := NextSequence(), futures := futures[NextSequence() := |outcomes|],
            outcomes := outcomes + [Pending])
    }

    /** The waiting side stops waiting: its future gets `why`, its table slot is popped. */
    function GiveUp(wire: U32, future: nat, why: Outcome): Server
      requires future < |outcomes|
    {
      this.(futures := futures - {wire}, outcomes := outcomes[future := why])
    }

    predicate Accepts(msgType: U16, wire: U32) {
      msgType != HEARTBEAT && msgType != HEARTBEAT_ACK && wire in futures
    }

    /** One frame arriving from a tunnel connection. */
    function Receive(msgType: U16, wire: U32, body: ByteString): Server
      requires WellFormed()
    {
      if Accepts(msgType, wire) then
        this.(futures := futures - {wire},
              outcomes := outcomes[futures[wire] := Resolved(Answer(msgType, StripTimingTrailer(body).0))])
      else this
    }

    function AfterCancel(i: nat): Outcome
      requires i < |outcomes|
    {
      if i in futures.Values && outcomes[i].Pending? then Cancelled else outcomes[i]
    }

    function CancelAll(): (s: Server)
      ensures |s.outcomes| == |outcomes|
    {
      this.(futures := map[], outcomes := seq(|outcomes|, i requires 0 <= i < |outcomes| => AfterCancel(i)))
    }

    /** A tunnel connection is accepted; one that is still registered is replaced. */
    function AcceptTunnel(t: nat): Server {
      (if tunnel.Some? then CancelAll() else this).(tunnel := Some(t))
    }

    /** The handler of tunnel connection `t` ends. */
    function LoseTunnel(t: nat): Server {
      if tunnel == Some(t) then CancelAll().(tunnel := None) else this
    }
  }

  class ReverseServer {
    var sequence: U32
    var responseFutures: map<U32, nat>
    var outcomes: seq<Outcome>
    var vciWriter: Option<nat>

    function View(): Server
      reads this
    {
      Server(sequence, responseFutures, outcomes, vciWriter)
    }

    constructor ()
      ensures View() == Server(0, map[], [], None)
    {
      sequence, responseFutures, outcomes, vciWriter := 0, map[], [], None;
    }

    method TakeSequence() returns (next: U32)
      modifies this`sequence
      ensures View() == old(View()).(sequence := next) && next == old(View()).NextSequence()
    {
      sequence := (sequence + 1) % SEQUENCE_SPACE;
      next := sequence;
    }

    /** The forwarding half of _handle_proxy_connection and _run_probe; `writeSucceeds` is the socket's verdict. */
    method Forward(writeSucceeds: bool) returns (wire: U32, future: nat, sent: bool)
      modifies this
      ensures wire == old(View()).NextSequence() && future == |old(outcomes)|
      ensures sent == (writeSucceeds && old(vciWriter).Some?)
      ensures View() == var r := old(View()).Register(); if sent then r else r.GiveUp(wire, future, ForwardFailed)
    {
      wire := TakeSequence();
      future := |outcomes|;
      outcomes := outcomes + [Pending];
      responseFutures := responseFutures[wire := future];
      sent := vciWriter.Some? && writeSucceeds;
      if !sent {
        responseFutures := responseFutures - {wire};
        outcomes := outcomes[future := ForwardFailed];
      }
    }

    /** `ack` is what is written back: a heartbeat is acknowledged under its own number. */
    method ReceiveFrame(msgType: U16, wire: U32, body: ByteString) returns (ack: Option<ByteString>)
      requires View().WellFormed()
      modifies this
      ensures View() == old(View()).Receive(msgType, wire, body)
      ensures msgType == HEARTBEAT || msgType == HEARTBEAT_ACK || wire !in old(responseFutures) ==> View() == old(View())
      ensures ack == if msgType == HEARTBEAT then Some(FrameBytes(Frame(HEARTBEAT_ACK, wire, []))) else None
    {
      ack := None;
      if msgType == HEARTBEAT {
        var header := HeaderBytes(HEADER_SIZE, HEARTBEAT_ACK, wire);
        assert header + [] == header;
        return Some(header);
      }
      if msgType == HEARTBEAT_ACK {
        return;
      }
      if wire in responseFutures {
        var future := responseFutures[wire];
        responseFutures := responseFutures - {wire};
        var (cleanBody, _) := StripTimingTrailer(body);
        outcomes := outcomes[future := Resolved(Answer(msgType, cleanBody))];
      }
    }

    method WaitTimedOut(wire: U32, future: nat)
      requires future < |outcomes|
      modifies this
      ensures View() == old(View()).GiveUp(wire, future, TimedOut)
    {
      outcomes := outcomes[future := TimedOut];
      responseFutures := responseFutures - {wire};
    }

    method CancelPendingFutures()
      requires View().WellFormed()
      modifies this`responseFutures, this`outcomes
      ensures View() == old(View()).CancelAll()
    {
      ghost var was := View();
      var pending := responseFutures;
      responseFutures := map[];
      var todo := pending.Keys;
      while todo != {}
        invariant todo <= pending.Keys && responseFutures == map[] && |outcomes| == |was.outcomes|
        invariant forall i :: 0 <= i < |outcomes| ==>
                    outcomes[i] == if exists s :: s in pending.Keys - todo && pending[s] == i
                                   then was.AfterCancel(i) else was.outcomes[i]
      {
        var s :| s in todo;
        todo := todo - {s};
        var future := pending[s];
        if outcomes[future].Pending? {
          outcomes := outcomes[future := Cancelled];
        }
        assert pending.Keys - todo == pending.Keys - (todo + {s}) + {s};
      }
      assert forall i :: 0 <= i < |outcomes| ==> outcomes[i] == was.AfterCancel(i);
      assert outcomes == was.CancelAll().outcomes;
    }

    method AcceptTunnel(t: nat)
      requires View().WellFormed()
      modifies this
      ensures View() == old(View()).AcceptTunnel(t)
      ensures vciWriter == Some(t) && sequence == old(sequence)
      ensures old(vciWriter).None? ==> responseFutures == old(responseFutures) && outcomes == old(outcomes)
    {
      if vciWriter.Some? {
        CancelPendingFutures();
      }
      vciWriter := Some(t);
    }

    method LoseTunnel(t: nat)
      requires View().WellFormed()
      modifies this
      ensures View() == old(View()).LoseTunnel(t)
      ensures old(vciWriter) != Some(t) ==> View() == old(View())
      ensures old(vciWriter) == Some(t) ==> vciWriter.None? && responseFutures == map[] && sequence == old(sequence)
    {
      if vciWriter == Some(t) {
        CancelPendingFutures();
        vciWriter := None;
      }
    }
  }

  // ---------------------------------------------------------------- the server and its peers

  datatype Origin = Dll(conn: nat, dllSequence: U32) | Probe

  /** One request and the tunnel it was meant for, if there was one.  Requests are numbered like their futures, in order of issue. */
  datatype Issue = Issue(origin: Origin, tunnel: Option<nat>)

  /** A frame under way; `id` names the request it belongs to and is not visible to either side. */
  datatype Packet =
    | Request(id: nat, wire: U32, tunnel: nat)
    | Response(id: nat, wire: U32, tunnel: nat, answer: Answer, body: ByteString)

  /** A frame written to a DLL connection, with the request whose future supplied the answer. */
  datatype Reply = Reply(conn: nat, dllSequence: U32, answer: Answer, id: nat)

  datatype World = World(server: Server, issues: seq<Issue>, network: set<Packet>,
                         produced: set<(nat, Answer)>, busy: map<nat, nat>, replies: seq<Reply>, tunnels: nat)

  const START := World(Server(0, map[], [], None), [], {}, {}, map[], [], 0)

  datatype Event =
    | Submit(conn: nat, dllSequence: U32, written: bool)
    | Ping(written: bool)
    | Handle(request: Packet, answer: Answer, hwMs: Double)
    | Drop(packet: Packet)
    | Deliver(response: Packet)
    | Expire(id: nat)
    | Connect
    | Lose(tunnel: nat)
    | Beat(msgType: U16, wire: U32, body: ByteString)

  /** The sequence number of the id-th request. */
  function Wire(id: nat): U32 {
    (id + 1) % SEQUENCE_SPACE
  }

  predicate Enabled(w: World, e: Event) {
    match e
    case Submit(conn, _, _) => conn !in w.busy
    case Ping(_) => w.server.tunnel.Some?
    case Handle(p, _, _) => p in w.network && p.Request?
    case Drop(p) => p in w.network
    case Deliver(p) => p in w.network && p.Response?
    case Expire(id) => id < |w.server.outcomes| && w.server.outcomes[id].Pending?
    case Connect => true
    case Lose(_) => true
    case Beat(msgType, _, _) => msgType == HEARTBEAT || msgType == HEARTBEAT_ACK
  }

  /** DLL connections keep waiting for the futures that are still pending. */
  function StillBusy(busy: map<nat, nat>, outcomes: seq<Outcome>): map<nat, nat> {
    map c | c in busy && busy[c] < |outcomes| && outcomes[busy[c]].Pending? :: busy[c]
  }

  /** A request uses up a number even when there is no tunnel to write it to. */
  function Issued(w: World, origin: Origin, written: bool): World {
    var id, t, r := |w.server.outcomes|, w.server.tunnel, w.server.Register();
    if written && t.Some? then
      w.(server := r, issues := w.issues + [Issue(origin, t)],
         network := w.network + {Request(id, r.sequence, t.value)},
         busy := if origin.Dll? then w.busy[origin.conn := id] else w.busy)
    else
      w.(server := r.GiveUp(r.sequence, id, ForwardFailed), issues := w.issues + [Issue(origin, t)])
  }

  function ReplyFor(w: World, p: Packet): seq<Reply>
    requires p.Response? && w.server.WellFormed()
  {
    if !w.server.Accepts(p.answer.msgType, p.wire) then []
    else
      var f := w.server.futures[p.wire];
      if f < |w.issues| && w.issues[f].origin.Dll? then
        [Reply(w.issues[f].origin.conn, w.issues[f].origin.dllSequence,
               Answer(p.answer.msgType, StripTimingTrailer(p.body).0), f)]
      else []
  }

  function Apply(w: World, e: Event): World
    requires Enabled(w, e) && w.server.WellFormed()
  {
    match e
    case Submit(conn, d, written) => Issued(w, Dll(conn, d), written)
    case Ping(written) => Issued(w, Probe, written)
    case Handle(p, a, hw) =>
      w.(network := w.network - {p} + {Response(p.id, p.wire, p.tunnel, a, a.body + Trailer(hw))},
         produced := w.produced + {(p.id, a)})
    case Drop(p) => w.(network := w.network - {p})
    case Deliver(p) =>
      var s := w.server.Receive(p.answer.msgType, p.wire, p.body);
      w.(server := s, network := w.network - {p}, busy := StillBusy(w.busy, s.outcomes),
         replies := w.replies + ReplyFor(w, p))
    case Expire(id) =>
      var s := w.server.GiveUp(Wire(id), id, TimedOut);
      w.(server := s, busy := StillBusy(w.busy, s.outcomes))
    case Connect =>
      var s := w.server.AcceptTunnel(w.tunnels);
      w.(server := s, busy := StillBusy(w.busy, s.outcomes), tunnels := w.tunnels + 1)
    case Lose(t) =>
      var s := w.server.LoseTunnel(t);
      w.(server := s, busy := StillBusy(w.busy, s.outcomes))
    case Beat(msgType, wire, body) =>
      var s := w.server.Receive(msgType, wire, body);
      w.(server := s, busy := StillBusy(w.busy, s.outcomes))
  }

  /** Fewer than 2^32 numbers were issued after request `id`. */
  predicate InWindow(w: World, id: nat) {
    |w.issues| <= id + SEQUENCE_SPACE
  }

  // ---------------------------------------------------------------- invariants

  ghost predicate ServerInv(w: World) {
    && |w.issues| == |w.server.outcomes|
    && w.server.sequence == |w.issues| % SEQUENCE_SPACE
    && (forall s <- w.server.futures ::
          var f := w.server.futures[s];
          && f < |w.issues| && Wire(f) == s && w.server.outcomes[f].Pending?
          && w.server.tunnel.Some? && w.server.tunnel == w.issues[f].tunnel
          && InWindow(w, f))
    && (w.server.tunnel.Some? ==> w.server.tunnel.value < w.tunnels)
    && (forall i :: 0 <= i < |w.issues| && w.issues[i].tunnel.Some? ==> w.issues[i].tunnel.value < w.tunnels)
  }

  ghost predicate NetworkInv(w: World) {
    forall p <- w.network ::
      && p.id < |w.issues| && p.wire == Wire(p.id) && w.issues[p.id].tunnel == Some(p.tunnel)
      && (p.Response? ==> StripTimingTrailer(p.body).0 == p.answer.body && (p.id, p.answer) in w.produced)
  }

  /** A DLL connection waits for exactly its one pending request. */
  ghost predicate BusyInv(w: World) {
    && |w.issues| == |w.server.outcomes|
    && (forall c <- w.busy ::
          && w.busy[c] < |w.issues| && w.server.outcomes[w.busy[c]].Pending?
          && w.issues[w.busy[c]].origin.Dll? && w.issues[w.busy[c]].origin.conn == c)
    && (forall i :: 0 <= i < |w.issues| && w.server.outcomes[i].Pending? && w.issues[i].origin.Dll? ==>
          w.issues[i].origin.conn in w.busy && w.busy[w.issues[i].origin.conn] == i)
  }

  ghost predicate Inv(w: World) {
    ServerInv(w) && NetworkInv(w) && BusyInv(w)
  }

  /** An event that is not possible leaves the world as it is. */
  function Step(w: World, e: Event): World
    requires w.server.WellFormed()
    ensures Step(w, e).server.WellFormed()
  {
    if Enabled(w, e) then Apply(w, e) else w
  }

  function Run(w: World, es: seq<Event>): World
    requires w.server.WellFormed()
    ensures Run(w, es).server.WellFormed()
    decreases |es|
  {
    if es == [] then w else Run(Step(w, es[0]), es[1..])
  }

  lemma WireInjective(i: nat, j: nat)
    requires i < j < i + SEQUENCE_SPACE
    ensures Wire(i) != Wire(j)
  {
    var a, b := (i + 1) / SEQUENCE_SPACE, (j + 1) / SEQUENCE_SPACE;
    assert i + 1 == a * SEQUENCE_SPACE + Wire(i) && j + 1 == b * SEQUENCE_SPACE + Wire(j);
  }

  lemma NextWire(n: nat)
    ensures (n % SEQUENCE_SPACE + 1) % SEQUENCE_SPACE == Wire(n)
    ensures Wire(n + SEQUENCE_SPACE) == Wire(n)
  {
  }

  lemma IssuedKeepsServerInv(w: World, origin: Origin, written: bool)
    requires Inv(w)
    ensures ServerInv(Issued(w, origin, written))
  {
    NextWire(|w.issues|);
    forall f: nat | |w.issues| == f + SEQUENCE_SPACE
      ensures Wire(|w.issues|) == Wire(f)
    {
      NextWire(f);
    }
  }

  lemma StepKeepsServerInv(w: World, e: Event)
    requires Inv(w) && Enabled(w, e)
    ensures ServerInv(Apply(w, e))
  {
    match e
    case Submit(conn, d, written) => IssuedKeepsServerInv(w, Dll(conn, d), written);
    case Ping(written) => IssuedKeepsServerInv(w, Probe, written);
    case Handle(_, _, _) =>
    case Drop(_) =>
    case Deliver(_) =>
    case Expire(_) =>
    case Connect =>
    case Lose(_) =>
    case Beat(_, _, _) =>
  }

  lemma StepKeepsNetworkInv(w: World, e: Event)
    requires Inv(w) && Enabled(w, e)
    ensures NetworkInv(Apply(w, e))
  {
    NextWire(|w.issues|);
    if e.Handle? {
      StripRemovesTrailer(e.answer.body, e.hwMs);
    }
  }

  lemma FewerPendingKeepsBusyInv(w: World, w': World)
    requires BusyInv(w)
    requires w'.issues == w.issues && |w'.server.outcomes| == |w.server.outcomes|
    requires forall i :: 0 <= i < |w.issues| && w'.server.outcomes[i].Pending? ==> w.server.outcomes[i].Pending?
    requires w'.busy == StillBusy(w.busy, w'.server.outcomes)
    ensures BusyInv(w')
  {
  }

  lemma IssuedKeepsBusyInv(w: World, origin: Origin, written: bool)
    requires Inv(w)
    requires origin.Dll? ==> origin.conn !in w.busy
    ensures BusyInv(Issued(w, origin, written))
  {
  }

  lemma StepKeepsBusyInv(w: World, e: Event)
    requires Inv(w) && Enabled(w, e)
    ensures BusyInv(Apply(w, e))
  {
    match e
    case Submit(conn, d, written) => IssuedKeepsBusyInv(w, Dll(conn, d), written);
    case Ping(written) => IssuedKeepsBusyInv(w, Probe, written);
    case Handle(_, _, _) =>
    case Drop(_) =>
    case Deliver(_) => FewerPendingKeepsBusyInv(w, Apply(w, e));
    case Expire(_) => FewerPendingKeepsBusyInv(w, Apply(w, e));
    case Connect => FewerPendingKeepsBusyInv(w, Apply(w, e));
    case Lose(_) => FewerPendingKeepsBusyInv(w, Apply(w, e));
    case Beat(_, _, _) => FewerPendingKeepsBusyInv(w, Apply(w, e));
  }

  lemma StepKeepsInv(w: World, e: Event)
    requires Inv(w)
    ensures Inv(Step(w, e))
  {
    if Enabled(w, e) {
      StepKeepsServerInv(w, e);
      StepKeepsNetworkInv(w, e);
      StepKeepsBusyInv(w, e);
    }
  }

  lemma {:induction false} RunKeepsInv(w: World, es: seq<Event>)
    requires Inv(w)
    ensures Inv(Run(w, es))
    decreases |es|
  {
    if es != [] {
      StepKeepsInv(w, es[0]);
      RunKeepsInv(Step(w, es[0]), es[1..]);
    }
  }

  // ---------------------------------------------------------------- no response crossing

  /** In every reachable world a response within the window can only meet its own request. */
  lemma TableHoldsOwnRequest(w: World, id: nat)
    requires ServerInv(w) && id < |w.issues| && InWindow(w, id)
    requires Wire(id) in w.server.futures
    ensures w.server.futures[Wire(id)] == id
  {
    var f := w.server.futures[Wire(id)];
    if f < id {
      WireInjective(f, id);
    } else if id < f {
      WireInjective(id, f);
    }
  }

  /**
   Whatever happened before, a response whose request is within the window either resolves that very
   request, still pending, and answers the DLL connection that waits for it, or changes nothing.
   */
  lemma NoResponseCrossing(es: seq<Event>, p: Packet)
    requires var w := Run(START, es); Enabled(w, Deliver(p)) && InWindow(w, p.id)
    ensures var w := Run(START, es);
            var w' := Apply(w, Deliver(p));
            if w.server.Accepts(p.answer.msgType, p.wire) then
              && p.id < |w.server.outcomes| == |w.issues| && w.server.outcomes[p.id].Pending?
              && w'.server.outcomes == w.server.outcomes[p.id := Resolved(p.answer)]
              && w'.server.futures == w.server.futures - {p.wire}
              && match w.issues[p.id].origin
                 case Probe => w'.replies == w.replies
                 case Dll(c, d) => c in w.busy && w.busy[c] == p.id
                                   && w'.replies == w.replies + [Reply(c, d, p.answer, p.id)]
            else w'.server == w.server && w'.replies == w.replies
  {
    RunKeepsInv(START, es);
    var w := Run(START, es);
    if w.server.Accepts(p.answer.msgType, p.wire) {
      TableHoldsOwnRequest(w, p.id);
      assert w.server.futures[p.wire] == p.id;
    }
  }

  /**
   The window is the whole condition: a response that is accepted meets its own request exactly when it
   is within the window, and outside of it always resolves another request, and answers that one's connection.
   */
  lemma CrossesExactlyOutsideWindow(es: seq<Event>, p: Packet)
    requires var w := Run(START, es); Enabled(w, Deliver(p)) && w.server.Accepts(p.answer.msgType, p.wire)
    ensures var w := Run(START, es);
            var w' := Apply(w, Deliver(p));
            var f := w.server.futures[p.wire];
            && (f == p.id <==> InWindow(w, p.id))
            && f < |w.server.outcomes| == |w.issues| && w.server.outcomes[f].Pending?
            && w'.server.outcomes == w.server.outcomes[f := Resolved(p.answer)]
            && match w.issues[f].origin
               case Probe => w'.replies == w.replies
               case Dll(c, d) => c in w.busy && w.busy[c] == f && w'.replies == w.replies + [Reply(c, d, p.answer, f)]
  {
    RunKeepsInv(START, es);
    var w := Run(START, es);
    if InWindow(w, p.id) {
      TableHoldsOwnRequest(w, p.id);
    }
  }

  /** A response of a tunnel that was lost or replaced since is dropped, although nobody checks its tunnel. */
  lemma OldTunnelResponseIsDropped(es: seq<Event>, p: Packet)
    requires var w := Run(START, es);
             Enabled(w, Deliver(p)) && InWindow(w, p.id) && w.server.tunnel != Some(p.tunnel)
    ensures var w := Run(START, es);
            Apply(w, Deliver(p)).server == w.server && Apply(w, Deliver(p)).replies == w.replies
  {
    RunKeepsInv(START, es);
    var w := Run(START, es);
    if w.server.Accepts(p.answer.msgType, p.wire) {
      TableHoldsOwnRequest(w, p.id);
    }
  }

  /** A response to a request that already has its outcome is dropped. */
  lemma LateResponseIsDropped(es: seq<Event>, p: Packet)
    requires var w := Run(START, es);
             Enabled(w, Deliver(p)) && InWindow(w, p.id) && p.id < |w.server.outcomes| &&
             !w.server.outcomes[p.id].Pending?
    ensures var w := Run(START, es);
            Apply(w, Deliver(p)).server == w.server && Apply(w, Deliver(p)).replies == w.replies
  {
    NoResponseCrossing(es, p);
  }

  lemma StepKeepsOutcome(w: World, e: Event, id: nat)
    requires Inv(w)
    requires id < |w.server.outcomes| && !w.server.outcomes[id].Pending?
    ensures id < |Step(w, e).server.outcomes| && Step(w, e).server.outcomes[id] == w.server.outcomes[id]
  {
  }

  /** An outcome, once there, is final: every request resolves at most once. */
  lemma {:induction false} OutcomesAreFinal(w: World, es: seq<Event>, id: nat)
    requires Inv(w)
    requires id < |w.server.outcomes| && !w.server.outcomes[id].Pending?
    ensures id < |Run(w, es).server.outcomes| && Run(w, es).server.outcomes[id] == w.server.outcomes[id]
    decreases |es|
  {
    if es != [] {
      StepKeepsInv(w, es[0]);
      StepKeepsOutcome(w, es[0], id);
      OutcomesAreFinal(Step(w, es[0]), es[1..], id);
    }
  }

  // ---------------------------------------------------------------- runs within the window

  predicate Timely(w: World, e: Event) {
    match e
    case Deliver(p) => InWindow(w, p.id)
    case Expire(id) => InWindow(w, id)
    case _ => true
  }

  /** Every response arrives, and every timeout fires, before the sequence comes round again. */
  predicate TimelyRun(w: World, es: seq<Event>)
    requires w.server.WellFormed()
    decreases |es|
  {
    es == [] || ((Enabled(w, es[0]) ==> Timely(w, es[0])) && TimelyRun(Step(w, es[0]), es[1..]))
  }

  /** Every frame a DLL connection got carries its own sequence and what the client produced for its request. */
  ghost predicate RepliesMatch(w: World) {
    && |w.issues| == |w.server.outcomes|
    && (forall r <- w.replies ::
          && r.id < |w.issues| && w.issues[r.id].origin == Dll(r.conn, r.dllSequence)
          && (r.id, r.answer) in w.produced && w.server.outcomes[r.id] == Resolved(r.answer))
    && (forall i, j :: 0 <= i < j < |w.replies| ==> w.replies[i].id != w.replies[j].id)
  }

  /** No pending request is forgotten: the table leads to it, so a response or a timeout can reach it. */
  ghost predicate NothingLost(w: World) {
    forall i :: 0 <= i < |w.server.outcomes| && w.server.outcomes[i].Pending? && InWindow(w, i) ==>
      Wire(i) in w.server.futures && w.server.futures[Wire(i)] == i
  }

  lemma OldRepliesStillMatch(w: World, w': World)
    requires RepliesMatch(w) && |w'.issues| == |w'.server.outcomes|
    requires w.issues <= w'.issues && w.produced <= w'.produced && w'.replies == w.replies
    requires forall i :: 0 <= i < |w.server.outcomes| && !w.server.outcomes[i].Pending? ==>
               w'.server.outcomes[i] == w.server.outcomes[i]
    ensures RepliesMatch(w')
  {
    forall r <- w'.replies
      ensures r.id < |w'.issues| && w'.issues[r.id].origin == Dll(r.conn, r.dllSequence)
      ensures (r.id, r.answer) in w'.produced && w'.server.outcomes[r.id] == Resolved(r.answer)
    {
      assert w'.issues[r.id] == w.issues[r.id];
    }
  }

  lemma DeliveryMatches(w: World, p: Packet)
    requires Inv(w) && RepliesMatch(w) && Enabled(w, Deliver(p)) && InWindow(w, p.id)
    ensures RepliesMatch(Apply(w, Deliver(p)))
  {
    if w.server.Accepts(p.answer.msgType, p.wire) {
      TableHoldsOwnRequest(w, p.id);
    }
  }

  lemma TimelyStepMatches(w: World, e: Event)
    requires Inv(w) && RepliesMatch(w) && Enabled(w, e) && Timely(w, e)
    ensures RepliesMatch(Apply(w, e))
  {
    if e.Deliver? {
      DeliveryMatches(w, e.response);
    } else {
      forall i | 0 <= i < |w.server.outcomes| && !w.server.outcomes[i].Pending?
        ensures Step(w, e).server.outcomes[i] == w.server.outcomes[i]
      {
        StepKeepsOutcome(w, e, i);
      }
      OldRepliesStillMatch(w, Apply(w, e));
    }
  }

  lemma DeliveryLosesNothing(w: World, p: Packet)
    requires Inv(w) && NothingLost(w) && Enabled(w, Deliver(p)) && InWindow(w, p.id)
    ensures NothingLost(Apply(w, Deliver(p)))
  {
    if w.server.Accepts(p.answer.msgType, p.wire) {
      TableHoldsOwnRequest(w, p.id);
    }
  }

  lemma ExpiryLosesNothing(w: World, id: nat)
    requires Inv(w) && NothingLost(w) && Enabled(w, Expire(id)) && InWindow(w, id)
    ensures NothingLost(Apply(w, Expire(id)))
  {
    forall i | 0 <= i < |w.server.outcomes| && i != id && InWindow(w, i) ensures Wire(i) != Wire(id) {
      WireInjective(if i < id then i else id, if i < id then id else i);
    }
  }

  lemma OtherStepLosesNothing(w: World, e: Event)
    requires Inv(w) && NothingLost(w) && Enabled(w, e) && !e.Deliver? && !e.Expire?
    ensures NothingLost(Apply(w, e))
  {
    var w' := Apply(w, e);
    NextWire(|w.issues|);
    forall i | 0 <= i < |w.issues| && w'.server.outcomes[i].Pending? && InWindow(w', i)
      ensures Wire(i) in w'.server.futures && w'.server.futures[Wire(i)] == i
    {
      if |w'.issues| > |w.issues| {
        WireInjective(i, |w.issues|);
      }
    }
  }

  lemma TimelyStepLosesNothing(w: World, e: Event)
    requires Inv(w) && NothingLost(w) && Enabled(w, e) && Timely(w, e)
    ensures NothingLost(Apply(w, e))
  {
    match e
    case Deliver(p) => DeliveryLosesNothing(w, p);
    case Expire(id) => ExpiryLosesNothing(w, id);
    case _ => OtherStepLosesNothing(w, e);
  }

  lemma {:induction false} TimelyRunKeeps(w: World, es: seq<Event>)
    requires Inv(w) && RepliesMatch(w) && NothingLost(w) && TimelyRun(w, es)
    ensures RepliesMatch(Run(w, es)) && NothingLost(Run(w, es))
    decreases |es|
  {
    if es != [] {
      if Enabled(w, es[0]) {
        TimelyStepMatches(w, es[0]);
        TimelyStepLosesNothing(w, es[0]);
      }
      StepKeepsInv(w, es[0]);
      TimelyRunKeeps(Step(w, es[0]), es[1..]);
    }
  }

  lemma TimelyRunsAnswerTheirOwn(es: seq<Event>)
    requires TimelyRun(START, es)
    ensures RepliesMatch(Run(START, es)) && NothingLost(Run(START, es))
  {
    TimelyRunKeeps(START, es);
  }

  // ---------------------------------------------------------------- tunnels and what they take with them

  /** A request whose future is in the table is cancelled, every other outcome stays. */
  ghost predicate CancelsTable(w: World, w': World) {
    && w'.server.futures == map[] && |w'.server.outcomes| == |w.server.outcomes|
    && forall i :: 0 <= i < |w.server.outcomes| ==>
         w'.server.outcomes[i] ==
         if exists wire <- w.server.futures :: w.server.futures[wire] == i then Cancelled else w.server.outcomes[i]
  }

  /** The end of a tunnel that is not the registered one changes nothing at all. */
  lemma LosingAnotherTunnel(es: seq<Event>, t: nat)
    requires Run(START, es).server.tunnel != Some(t)
    ensures Step(Run(START, es), Lose(t)) == Run(START, es)
  {
    RunKeepsInv(START, es);
  }

  /** The end of the registered tunnel cancels exactly the requests in the table, and leaves no tunnel. */
  lemma LosingTheTunnel(es: seq<Event>, t: nat)
    requires Run(START, es).server.tunnel == Some(t)
    ensures var w := Run(START, es);
            var w' := Step(w, Lose(t));
            CancelsTable(w, w') && w'.server.tunnel.None? && w'.server.sequence == w.server.sequence
  {
    RunKeepsInv(START, es);
  }

  /** A new tunnel is registered whatever was there, and cancels exactly the requests in the table. */
  lemma ConnectingATunnel(es: seq<Event>)
    ensures var w := Run(START, es);
            var w' := Step(w, Connect);
            CancelsTable(w, w') && w'.server.tunnel == Some(w.tunnels) && w'.server.sequence == w.server.sequence
  {
    RunKeepsInv(START, es);
  }

  /** The tunnel `id` was meant for is the registered one, and this event ends or replaces it. */
  predicate TakesTunnelOf(w: World, e: Event, id: nat)
    requires id < |w.issues|
  {
    && w.issues[id].tunnel.Some? && w.server.tunnel == w.issues[id].tunnel
    && (e == Lose(w.issues[id].tunnel.value) || e == Connect)
  }

  /** A pending request is cancelled only together with its own tunnel. */
  lemma CancelledOnlyWithItsTunnel(es: seq<Event>, e: Event, id: nat)
    requires var w := Run(START, es);
             id < |w.server.outcomes| && w.server.outcomes[id].Pending? && Step(w, e).server.outcomes[id] == Cancelled
    ensures id < |Run(START, es).issues| && TakesTunnelOf(Run(START, es), e, id)
  {
    RunKeepsInv(START, es);
  }

  /** Within the window it is cancelled exactly then. */
  lemma CancelledExactlyWithItsTunnel(es: seq<Event>, e: Event, id: nat)
    requires TimelyRun(START, es)
    requires var w := Run(START, es); id < |w.server.outcomes| && w.server.outcomes[id].Pending? && InWindow(w, id)
    ensures var w := Run(START, es);
            id < |w.issues| && (Step(w, e).server.outcomes[id] == Cancelled <==> TakesTunnelOf(w, e, id))
  {
    RunKeepsInv(START, es);
    TimelyRunsAnswerTheirOwn(es);
    var w := Run(START, es);
    assert Wire(id) in w.server.futures && w.server.futures[Wire(id)] == id;
    if TakesTunnelOf(w, e, id) {
      if e.Connect? {
        ConnectingATunnel(es);
      } else {
        LosingTheTunnel(es, e.tunnel);
      }
    } else if Step(w, e).server.outcomes[id] == Cancelled {
      CancelledOnlyWithItsTunnel(es, e, id);
    }
  }

  function Connects(es: seq<Event>): nat {
    if es == [] then 0 else Connects(es[..|es| - 1]) + if es[|es| - 1].Connect? then 1 else 0
  }

  /** Tunnel `t` was the last one to connect, and has not been lost since. */
  predicate LastConnected(es: seq<Event>, t: nat) {
    es != [] &&
    var front, last := es[..|es| - 1], es[|es| - 1];
    if last.Connect? then t == Connects(front)
    else last != Lose(t) && LastConnected(front, t)
  }

  lemma RunLast(w: World, es: seq<Event>)
    requires w.server.WellFormed() && es != []
    ensures Run(w, es) == Step(Run(w, es[..|es| - 1]), es[|es| - 1])
  {
    var front, last := es[..|es| - 1], es[|es| - 1];
    assert es == front + [last] && [last] + [] == [last];
    RunAppend(w, front, [last]);
    RunOnce(Run(w, front), last, []);
  }

  lemma StepMovesTunnel(w: World, e: Event)
    requires Inv(w)
    ensures Step(w, e).server.tunnel ==
            if e.Connect? then Some(w.tunnels)
            else if e.Lose? && w.server.tunnel == Some(e.tunnel) then None
            else w.server.tunnel
    ensures Step(w, e).tunnels == w.tunnels + if e.Connect? then 1 else 0
  {
  }

  /** Whatever else happens, the registered tunnel is the last one connected, until that very one is lost. */
  lemma {:induction false} RegisteredIsLastConnected(es: seq<Event>, t: nat)
    ensures Run(START, es).tunnels == Connects(es)
    ensures Run(START, es).server.tunnel == Some(t) <==> LastConnected(es, t)
    decreases |es|
  {
    if es != [] {
      var front := es[..|es| - 1];
      RegisteredIsLastConnected(front, t);
      RunKeepsInv(START, front);
      RunLast(START, es);
      StepMovesTunnel(Run(START, front), es[|es| - 1]);
    }
  }

  // ---------------------------------------------------------------- the window is tight

  lemma {:induction false} RunAppend(w: World, a: seq<Event>, b: seq<Event>)
    requires w.server.WellFormed()
    ensures Run(w, a + b) == Run(Run(w, a), b)
    decreases |a|
  {
    if a == [] {
      assert a + b == b;
    } else {
      assert (a + b)[0] == a[0] && (a + b)[1..] == a[1..] + b;
      RunAppend(Step(w, a[0]), a[1..], b);
    }
  }

  function FailedPings(n: nat): seq<Event> {
    seq(n, _ => Ping(false))
  }

  /** Probes that cannot be written use up sequence numbers and leave everything else alone. */
  lemma {:induction false} FailedPingsOnlyCount(w: World, n: nat)
    requires Inv(w) && w.server.tunnel.Some? && w.server.futures == map[]
    ensures var w' := Run(w, FailedPings(n));
            && Inv(w') && w.issues <= w'.issues && |w'.issues| == |w.issues| + n
            && w'.server.futures == map[] && w'.server.tunnel == w.server.tunnel
            && w'.network == w.network && w'.busy == w.busy && w'.replies == w.replies
    decreases n
  {
    if n > 0 {
      var es := FailedPings(n);
      assert es[0] == Ping(false) && es[1..] == FailedPings(n - 1);
      StepKeepsInv(w, es[0]);
      assert Step(w, es[0]).server.futures == map[];
      FailedPingsOnlyCount(Step(w, es[0]), n - 1);
    }
  }

  lemma RunOnce(w: World, e: Event, es: seq<Event>)
    requires w.server.WellFormed()
    ensures Run(w, [e] + es) == Run(Step(w, e), es)
  {
    assert ([e] + es)[1..] == es;
  }

  /** Connection 0's request timed out while its response `p` is still under way. */
  ghost predicate Abandoned(w: World, p: Packet) {
    && p.Response? && p.id == 0 && p.wire == 1
    && Inv(w) && w.issues == [Issue(Dll(0, 7), Some(0))]
    && w.server.tunnel == Some(0) && w.server.futures == map[]
    && w.network == {p} && w.busy == map[] && w.replies == []
  }

  lemma AbandonRequest(a: Answer, hwMs: Double) returns (es: seq<Event>, p: Packet)
    ensures Abandoned(Run(START, es), p)
    ensures p.answer == a && p.body == a.body + Trailer(hwMs)
  {
    p := Response(0, 1, 0, a, a.body + Trailer(hwMs));
    var handle := Handle(Request(0, 1, 0), a, hwMs);
    es := [Connect] + ([Submit(0, 7, true)] + ([handle] + ([Expire(0)] + [])));
    var w1 := Step(START, Connect);
    var w2 := Step(w1, Submit(0, 7, true));
    assert w2.network == {Request(0, 1, 0)};
    var w3 := Step(w2, handle);
    assert w3.network == {p} && w3.server.futures == map[1 := 0];
    var w4 := Step(w3, Expire(0));
    assert w4.server.futures == map[] && w4.busy == map[];
    RunOnce(START, Connect, es[1..]);
    RunOnce(w1, Submit(0, 7, true), es[2..]);
    RunOnce(w2, handle, es[3..]);
    RunOnce(w3, Expire(0), []);
    RunKeepsInv(START, es);
  }

  /**
   With 2^32 numbers issued after it, a response does reach the wrong request: connection 1 is told
   what the client produced for the request of connection 0.
   */
  lemma WrappedSequenceCrosses(a: Answer, hwMs: Double) returns (es: seq<Event>, p: Packet)
    requires a.msgType != HEARTBEAT && a.msgType != HEARTBEAT_ACK
    ensures var w := Run(START, es);
            && Enabled(w, Deliver(p)) && p.id == 0 && p.answer == a
            && |w.issues| == p.id + SEQUENCE_SPACE + 1
            && w.issues[p.id].origin == Dll(0, 7)
            && Apply(w, Deliver(p)).replies == [Reply(1, 9, a, SEQUENCE_SPACE)]
  {
    var prefix, late := AbandonRequest(a, hwMs);
    p := late;
    StripRemovesTrailer(a.body, hwMs);
    var w4 := Run(START, prefix);
    var pings := FailedPings(SEQUENCE_SPACE - 1);
    FailedPingsOnlyCount(w4, SEQUENCE_SPACE - 1);
    var w5 := Run(w4, pings);
    assert w5.issues[0] == w4.issues[0];
    var last := Submit(1, 9, true);
    var w6 := Step(w5, last);
    RunOnce(w5, last, []);
    assert [last] + [] == [last];
    RunAppend(START, prefix, pings);
    RunAppend(START, prefix + pings, [last]);
    es := prefix + pings + [last];
    NextWire(0);
    assert w6.server.futures == map[1 := SEQUENCE_SPACE];
    assert w6.issues[SEQUENCE_SPACE] == Issue(Dll(1, 9), Some(0));
  }
}
