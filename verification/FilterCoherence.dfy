/**
 The deduplication cache in front of the device, for one DLL connection at a time: the server waits
 for each reply before it reads the next request (vci_proxy/reverse_server.py), so a request, what
 the device does with it, and what the cache records of it form one step.
 */
module FilterCoherence {
  import opened Common
  import opened Bytes
  import opened Protocol
  import opened FilterCache

  /** The device's live message filters: the request body that started each id. */
  datatype State = State(cache: Filters, live: map<U32, ByteString>)

  datatype Event =
    | Start(body: ByteString, returnCode: U32, filterId: U32, answered: bool)
    | Stop(filterId: U32, stopped: bool)
    | Disconnect(channelId: U32, closed: bool)
    | Close(closed: bool)
    | TunnelLost(kept: set<U32>)
    | ClearMsgFilters(channelId: U32, cleared: bool)

  function Initial(enabled: bool): State {
    State(Filters(enabled, map[], map[], map[]), map[])
  }

  predicate IsHit(s: State, body: ByteString) {
    s.cache.enabled && body in s.cache.filters
  }

  /** The device numbers a new filter differently from every live one. */
  predicate Enabled(s: State, e: Event) {
    e.Start? ==> |e.body| >= 11 && (e.returnCode == 0 ==> e.filterId !in s.live)
  }

  function OffChannel(live: map<U32, ByteString>, ch: U32): map<U32, ByteString> {
    map id | id in live && ChannelOf(live[id]) != ch :: live[id]
  }

  function Step(s: State, e: Event): State {
    if !Enabled(s, e) then s
    else
      match e
      case Start(body, rc, id, answered) =>
        if IsHit(s, body) then s
        else State(if answered then s.cache.Record(body, id, rc, StartFilterRspBody(rc, id)) else s.cache,
                   if rc == 0 then s.live[id := body] else s.live)
      case Stop(id, stopped) => State(s.cache.OnStop(id), if stopped then s.live - {id} else s.live)
      case Disconnect(ch, closed) =>
        State(s.cache.InvalidateChannel(ch), if closed then OffChannel(s.live, ch) else s.live)
      case Close(closed) => State(s.cache.Clear(), if closed then map[] else s.live)
      case TunnelLost(kept) => State(s.cache.Clear(), map id | id in s.live && id in kept :: s.live[id])
      case ClearMsgFilters(ch, cleared) => s.(live := if cleared then OffChannel(s.live, ch) else s.live)
  }

  function Run(s: State, es: seq<Event>): State
    decreases |es|
  {
    if es == [] then s else Run(Step(s, es[0]), es[1..])
  }

  /** Every cached entry is a successful response for a filter that is live for exactly that body. */
  ghost predicate Coherent(s: State) {
    && s.cache.Consistent()
    && forall k <- s.cache.filters ::
         var e := s.cache.filters[k];
         e.filterId in s.live && s.live[e.filterId] == k && e.responseBody == StartFilterRspBody(0, e.filterId)
  }

  /** The one request the cache does not know about, on a channel it holds filters for. */
  predicate ClearsCachedChannel(s: State, e: Event) {
    e.ClearMsgFilters? && e.cleared && s.cache.KeysOf(e.channelId) != {}
  }

  predicate NoCachedChannelCleared(s: State, es: seq<Event>)
    decreases |es|
  {
    es == [] || (!ClearsCachedChannel(s, es[0]) && NoCachedChannelCleared(Step(s, es[0]), es[1..]))
  }

  lemma StartKeepsCoherent(s: State, e: Event)
    requires Coherent(s) && e.Start?
    ensures Coherent(Step(s, e))
  {
    if e.answered && e.returnCode == 0 && Enabled(s, e) && !IsHit(s, e.body) && s.cache.enabled {
      RecordKeepsConsistentIff(s.cache, e.body, e.filterId, StartFilterRspBody(0, e.filterId));
    }
  }

  lemma StopKeepsCoherent(s: State, e: Event)
    requires Coherent(s) && e.Stop?
    ensures Coherent(Step(s, e))
  {
    OnStopKeepsConsistent(s.cache, e.filterId);
  }

  lemma DisconnectKeepsCoherent(s: State, e: Event)
    requires Coherent(s) && e.Disconnect?
    ensures Coherent(Step(s, e))
  {
    InvalidateKeepsConsistent(s.cache, e.channelId);
  }

  lemma ClearFiltersKeepsCoherentIff(s: State, e: Event)
    requires Coherent(s) && e.ClearMsgFilters?
    ensures Coherent(Step(s, e)) <==> !ClearsCachedChannel(s, e)
  {
    if ClearsCachedChannel(s, e) {
      var k :| k in s.cache.KeysOf(e.channelId);
      assert s.cache.filters[k].filterId !in Step(s, e).live;
    } else if e.cleared {
      assert forall k <- s.cache.filters :: k !in s.cache.KeysOf(e.channelId);
    }
  }

  /** A step keeps coherence exactly when it does not clear the filters of a cached channel on the device. */
  lemma StepKeepsCoherentIff(s: State, e: Event)
    requires Coherent(s)
    ensures Coherent(Step(s, e)) <==> !ClearsCachedChannel(s, e)
  {
    match e
    case Start(_, _, _, _) => StartKeepsCoherent(s, e);
    case Stop(_, _) => StopKeepsCoherent(s, e);
    case Disconnect(_, _) => DisconnectKeepsCoherent(s, e);
    case Close(_) =>
    case TunnelLost(_) =>
    case ClearMsgFilters(_, _) => ClearFiltersKeepsCoherentIff(s, e);
  }

  lemma {:induction false} RunKeepsCoherent(s: State, es: seq<Event>)
    requires Coherent(s) && NoCachedChannelCleared(s, es)
    ensures Coherent(Run(s, es))
    decreases |es|
  {
    if es != [] {
      StepKeepsCoherentIff(s, es[0]);
      RunKeepsCoherent(Step(s, es[0]), es[1..]);
    }
  }

  /** After any such run a hit names a filter that is live on the device for exactly the request's body. */
  lemma HitsAreLive(enabled: bool, es: seq<Event>, body: ByteString)
    requires NoCachedChannelCleared(Initial(enabled), es)
    requires IsHit(Run(Initial(enabled), es), body)
    ensures var s := Run(Initial(enabled), es);
            match DecodeStartFilterRsp(s.cache.filters[body].responseBody)
            case Err(_) => false
            case Ok(r) => r.0 == 0 && r.1 in s.live && s.live[r.1] == body
  {
    RunKeepsCoherent(Initial(enabled), es);
    var s := Run(Initial(enabled), es);
    var id := s.cache.filters[body].filterId;
    UnpackPack([0, id]);
    assert StartFilterRspBody(0, id)[..8] == StartFilterRspBody(0, id);
  }

  /**
   One connection at a time matters: when a second connection's Disconnect overtakes the recording of
   a first connection's answer, the cache keeps a filter the device no longer has.  Module FilterSharing
   says exactly when several connections are safe.
   */
  lemma OvertakenRecordIsStale(s: State, body: ByteString, filterId: U32)
    requires Coherent(s) && s.cache.enabled && |body| >= 11 && filterId !in s.live && body !in s.cache.filters
    ensures var executed := s.(live := s.live[filterId := body]);
            var disconnected := Step(executed, Disconnect(ChannelOf(body), true));
            var recorded := disconnected.(cache :=
              disconnected.cache.Record(body, filterId, 0, StartFilterRspBody(0, filterId)));
            IsHit(recorded, body) && filterId !in recorded.live && !Coherent(recorded)
  {
    var executed := s.(live := s.live[filterId := body]);
    var disconnected := Step(executed, Disconnect(ChannelOf(body), true));
    var recorded := disconnected.(cache :=
      disconnected.cache.Record(body, filterId, 0, StartFilterRspBody(0, filterId)));
    assert recorded.cache.filters[body].filterId == filterId;
  }
}
