/**
 The runs of the single caches are the server's (vci_proxy/reverse_server.py): each of their steps is what
 the dispatch does with the encoded request and its encoded reply.
 */
module ServerDispatch {
  import opened Common
  import opened Bytes
  import opened Protocol
  import opened ServerCaches
  import FilterCache
  import FilterCoherence
  import FilterSharing
  import IoctlCache
  import IoctlStaleness
  import ReadMsgsCache

  const CLEAR_MSG_FILTERS: U32 := 0x0A

  /** The body of a StopFilter request. */
  function StopBody(ch: U32, filterId: U32): ByteString {
    Pack([ch, filterId])
  }

  /** The body of a Disconnect request. */
  function DisconnectBody(ch: U32): ByteString {
    Pack32(ch)
  }

  /** The body of a ReadMsgs request. */
  function ReadBody(ch: U32, maxMsgs: U32, timeout: U32): ByteString {
    Pack([ch, maxMsgs, timeout])
  }

  lemma BodiesReadBack(ch: U32, x: U32, y: U32)
    ensures Unpack(StopBody(ch, x)[..8]) == [ch, x]
    ensures Unpack32(DisconnectBody(ch)[..4]) == ch
    ensures Unpack(ReadBody(ch, x, y)[..12]) == [ch, x, y] && Unpack32(ReadBody(ch, x, y)[..4]) == ch
  {
    UnpackPack([ch, x]);
    UnpackPack([ch, x, y]);
    UnpackPack32(ch);
    assert StopBody(ch, x)[..8] == StopBody(ch, x) && ReadBody(ch, x, y)[..12] == ReadBody(ch, x, y);
    assert DisconnectBody(ch)[..4] == DisconnectBody(ch);
    FirstWord(ReadBody(ch, x, y), 12);
  }

  // ---------------------------------------------------------------- what requests invalidate

  /** A StopFilter takes exactly the filter of its id, from the filter cache only. */
  lemma StopDropsExactlyTheFilter(c: Caches, ch: U32, filterId: U32)
    requires c.filter.Consistent()
    ensures var (t, r) := c.Invalidate(STOP_FILTER_REQ, StopBody(ch, filterId));
            && r == Ok(()) && t.filter.Consistent() && t.read == c.read && t.ioctl == c.ioctl
            && (forall k <- t.filter.filters :: t.filter.filters[k].filterId != filterId)
            && (forall k <- t.filter.filters :: k in c.filter.filters && t.filter.filters[k] == c.filter.filters[k])
            && (forall k <- c.filter.filters :: c.filter.filters[k].filterId != filterId ==> k in t.filter.filters)
  {
    BodiesReadBack(ch, filterId, 0);
    FilterCache.OnStopKeepsConsistent(c.filter, filterId);
  }

  /** So the next StartFilter with the body of a stopped filter goes to the device. */
  lemma StoppedFilterIsAskedAgain(c: Caches, ch: U32, body: ByteString, now: real)
    requires c.filter.Consistent() && body in c.filter.filters
    ensures var t := c.Invalidate(STOP_FILTER_REQ, StopBody(ch, c.filter.filters[body].filterId)).0;
            t.Answer(START_FILTER_REQ, body, now) == Ok(None)
  {
    StopDropsExactlyTheFilter(c, ch, c.filter.filters[body].filterId);
  }

  /** A Close leaves nothing about any channel. */
  lemma CloseForgetsEverything(c: Caches, body: ByteString, ch: U32)
    ensures var (t, r) := c.Invalidate(CLOSE_REQ, body);
            && r == Ok(()) && !t.Mentions(ch)
            && t.filter.filters == map[] && t.filter.idToKey == map[] && t.filter.channelFilters == map[]
            && t.read.channels == map[] && t.ioctl.entries == map[]
  {
  }

  /** No other request invalidates anything, a CLEAR_MSG_FILTERS or SET_CONFIG included. */
  lemma OthersInvalidateNothing(c: Caches, msgType: U16, body: ByteString)
    requires msgType !in {CLOSE_REQ, DISCONNECT_REQ, STOP_FILTER_REQ}
    ensures c.Invalidate(msgType, body) == (c, Ok(()))
  {
  }

  // ---------------------------------------------------------------- what answers leave behind

  /** An answer is filed under the request's own channel, body or key, and nothing else is touched. */
  lemma RecordTouchesOnlyItsOwn(c: Caches, msgType: U16, body: ByteString, rsp: Reply, now: real)
    requires |body| >= 12
    ensures var t := c.Record(msgType, body, rsp.msgType, rsp.body, IoctlIdOf(msgType, body), now).0;
            && (msgType != READ_MSGS_REQ ==> t.read == c.read)
            && (msgType != START_FILTER_REQ ==> t.filter == c.filter)
            && (msgType != IOCTL_REQ ==> t.ioctl == c.ioctl)
            && t.read.channels - {Unpack(body[..12])[0]} == c.read.channels - {Unpack(body[..12])[0]}
            && t.filter.filters - {body} == c.filter.filters - {body}
            && t.ioctl.entries - {KeyOf(body)} == c.ioctl.entries - {KeyOf(body)}
  {
    FirstWord(body, 12);
  }

  /** What an answer must say for a repetition of its request to be served without the device. */
  predicate Repeatable(c: Caches, msgType: U16, body: ByteString, rspBody: ByteString, age: real)
    requires |body| >= 12
  {
    || (msgType == READ_MSGS_REQ
        && c.read.enabled && age <= c.read.ttl && |rspBody| >= 4 && Unpack32(rspBody[..4]) == 0x10)
    || (msgType == START_FILTER_REQ
        && c.filter.enabled && |rspBody| >= 8 && Unpack32(rspBody[..4]) == 0)
    || (msgType == IOCTL_REQ
        && c.ioctl.enabled && age <= c.ioctl.ttl && |rspBody| >= 8 && Unpack32(rspBody[..4]) == 0
        && Unpack(body[..12])[1] in {0x01, 0x03, 0x09})
  }

  /** Any result of a read replaces the one before; of filters and IOCTLs only a success does. */
  predicate Replaces(msgType: U16, rspBody: ByteString) {
    if msgType == READ_MSGS_REQ then |rspBody| >= 4
    else msgType in {START_FILTER_REQ, IOCTL_REQ} && |rspBody| >= 8 && Unpack32(rspBody[..4]) == 0
  }

  /**
   A repeated request is served from the caches exactly when the recorded answer was BUFFER_EMPTY for a read,
   a success for a filter, or a success of one of the three read-only IOCTLs, and has not outlived its TTL.
   An answer that is none to record leaves the repetition to what was recorded before.
   */
  lemma RepetitionIsServedIff(c: Caches, msgType: U16, body: ByteString, rspBody: ByteString, now: real, later: real)
    requires |body| >= 12
    ensures var t := c.Record(msgType, body, ResponseType(msgType), rspBody, IoctlIdOf(msgType, body), now).0;
            if Replaces(msgType, rspBody)
            then t.Answer(msgType, body, later) != Ok(None) <==> Repeatable(c, msgType, body, rspBody, later - now)
            else t.Answer(msgType, body, later) == c.Answer(msgType, body, later)
  {
    FirstWord(body, 12);
    if |rspBody| >= 8 {
      FirstWord(rspBody, 8);
    }
  }

  // ---------------------------------------------------------------- FilterCoherence is the dispatch

  /** One step of the filter runs, as the request and the reply the server sees. */
  function HandleFilterEvent(c: Caches, e: FilterCoherence.Event, ch: U32, closeBody: ByteString, now: real): Caches {
    match e
    case Start(body, rc, id, answered) =>
      c.Handle(START_FILTER_REQ, body,
               if answered then Some(Reply(START_FILTER_RSP, StartFilterRspBody(rc, id))) else None, now, now)
    case Stop(id, _) => c.Handle(STOP_FILTER_REQ, StopBody(ch, id), None, now, now)
    case Disconnect(channel, _) => c.Handle(DISCONNECT_REQ, DisconnectBody(channel), None, now, now)
    case Close(_) => c.Handle(CLOSE_REQ, closeBody, None, now, now)
    case TunnelLost(_) => c.DropAll()
    case ClearMsgFilters(channel, _) =>
      c.Handle(IOCTL_REQ, IoctlReqBody(channel, CLEAR_MSG_FILTERS, None), None, now, now)
  }

  lemma StartFilterRspReadsBack(rc: U32, id: U32)
    ensures DecodeStartFilterRsp(StartFilterRspBody(rc, id)) == Ok((rc, id))
  {
    UnpackPack([rc, id]);
    assert StartFilterRspBody(rc, id)[..8] == StartFilterRspBody(rc, id);
  }

  /** The filter runs are runs of the server's dispatch: their every step is what it does to the filter cache. */
  lemma FilterStepIsDispatch(c: Caches, s: FilterCoherence.State, e: FilterCoherence.Event, ch: U32,
                             closeBody: ByteString, now: real)
    requires c.filter == s.cache && FilterCoherence.Enabled(s, e)
    ensures HandleFilterEvent(c, e, ch, closeBody, now).filter == FilterCoherence.Step(s, e).cache
  {
    match e
    case Start(_, rc, id, _) => StartFilterRspReadsBack(rc, id);
    case Stop(id, _) => BodiesReadBack(ch, id, 0);
    case Disconnect(channel, _) => BodiesReadBack(channel, 0, 0);
    case Close(_) =>
    case TunnelLost(_) =>
    case ClearMsgFilters(_, _) =>
  }

  /** The caches after a run of filter requests through the dispatch; requests the device cannot mean are skipped. */
  function HandleFilterRun(c: Caches, s: FilterCoherence.State, es: seq<FilterCoherence.Event>, ch: U32,
                           closeBody: ByteString, now: real): Caches
    decreases |es|
  {
    if es == [] then c
    else
      HandleFilterRun(if FilterCoherence.Enabled(s, es[0]) then HandleFilterEvent(c, es[0], ch, closeBody, now) else c,
                      FilterCoherence.Step(s, es[0]), es[1..], ch, closeBody, now)
  }

  lemma {:induction false} FilterRunIsDispatch(c: Caches, s: FilterCoherence.State, es: seq<FilterCoherence.Event>,
                                               ch: U32, closeBody: ByteString, now: real)
    requires c.filter == s.cache
    ensures HandleFilterRun(c, s, es, ch, closeBody, now).filter == FilterCoherence.Run(s, es).cache
    decreases |es|
  {
    if es != [] {
      if FilterCoherence.Enabled(s, es[0]) {
        FilterStepIsDispatch(c, s, es[0], ch, closeBody, now);
        FilterRunIsDispatch(HandleFilterEvent(c, es[0], ch, closeBody, now), FilterCoherence.Step(s, es[0]), es[1..], ch,
                            closeBody, now);
      } else {
        FilterRunIsDispatch(c, s, es[1..], ch, closeBody, now);
      }
    }
  }

  /** What the dispatch answers from the filter cache is live on the device for exactly the body asked for. */
  lemma DispatchedHitsAreLive(enabled: bool, c: Caches, es: seq<FilterCoherence.Event>, ch: U32, closeBody: ByteString,
                              now: real, body: ByteString, later: real, rspBody: ByteString)
    requires c.filter == FilterCoherence.Initial(enabled).cache
    requires FilterCoherence.NoCachedChannelCleared(FilterCoherence.Initial(enabled), es)
    requires HandleFilterRun(c, FilterCoherence.Initial(enabled), es, ch, closeBody, now)
             .Answer(START_FILTER_REQ, body, later) == Ok(Some(rspBody))
    ensures var live := FilterCoherence.Run(FilterCoherence.Initial(enabled), es).live;
            match DecodeStartFilterRsp(rspBody)
            case Err(_) => false
            case Ok(r) => r.0 == 0 && r.1 in live && live[r.1] == body
  {
    FilterRunIsDispatch(c, FilterCoherence.Initial(enabled), es, ch, closeBody, now);
    FilterCoherence.HitsAreLive(enabled, es, body);
  }

  // ---------------------------------------------------------------- FilterSharing is the dispatch

  function TypeOf(r: FilterSharing.Request): U16 {
    match r
    case Starting(_) => START_FILTER_REQ
    case Started(_, _, _) => START_FILTER_REQ
    case Stopping(_) => STOP_FILTER_REQ
    case Disconnecting(_) => DISCONNECT_REQ
    case Closing => CLOSE_REQ
    case Clearing(_) => IOCTL_REQ
  }

  function BodyOf(r: FilterSharing.Request, ch: U32): ByteString {
    match r
    case Starting(body) => body
    case Started(body, _, _) => body
    case Stopping(f) => StopBody(ch, f)
    case Disconnecting(channel) => DisconnectBody(channel)
    case Closing => []
    case Clearing(channel) => IoctlReqBody(channel, CLEAR_MSG_FILTERS, None)
  }

  /** Sending invalidates, and recording records, what the dispatch does for the encoded request. */
  lemma SharedStepsAreDispatch(c: Caches, w: FilterSharing.World, r: FilterSharing.Request, i: nat, ch: U32, now: real)
    requires c.filter == w.cache && i !in w.flight && !r.Started?
    ensures c.Answer(TypeOf(r), BodyOf(r, ch), now) == Ok(None) ==>
              FilterSharing.Step(w, FilterSharing.Send(i, r)).cache == c.Invalidate(TypeOf(r), BodyOf(r, ch)).0.filter
    ensures r.Starting? && c.Answer(TypeOf(r), BodyOf(r, ch), now) != Ok(None) ==>
              FilterSharing.Step(w, FilterSharing.Send(i, r)) == w
  {
    match r
    case Stopping(f) => BodiesReadBack(ch, f, 0);
    case Disconnecting(channel) => BodiesReadBack(channel, 0, 0);
    case _ =>
  }

  lemma SharedRecordIsDispatch(c: Caches, w: FilterSharing.World, i: nat, now: real)
    requires c.filter == w.cache && FilterSharing.Enabled(w, FilterSharing.Record(i))
    ensures var r := w.flight[i];
            FilterSharing.Step(w, FilterSharing.Record(i)).cache ==
            c.Record(START_FILTER_REQ, r.body, START_FILTER_RSP, StartFilterRspBody(r.returnCode, r.filterId), None, now)
            .0.filter
  {
    StartFilterRspReadsBack(w.flight[i].returnCode, w.flight[i].filterId);
  }

  // ---------------------------------------------------------------- ReadMsgsCache is the dispatch

  /** A read, forwarded or not, leaves the read cache as the dispatch does; a tunnel that breaks clears it. */
  lemma ReadStepIsDispatch(c: Caches, s: ReadMsgsCache.State, e: ReadMsgsCache.Event, timeout: U32)
    requires c.read == s.cache && e.Read? && ReadMsgsCache.Enabled(s, e)
    ensures var request := ReadBody(e.ch, e.maxMsgs, timeout);
            var answered := ReadMsgsCache.Answered(s, e);
            var reply := if answered then Some(Reply(READ_MSGS_RSP, ReadMsgsCache.DeviceReply(s, e))) else None;
            var t := c.Handle(READ_MSGS_REQ, request, reply, s.now, s.now + ReadMsgsCache.Waited(e));
            && (ReadMsgsCache.IsHit(s, e) <==> c.Answer(READ_MSGS_REQ, request, s.now) != Ok(None))
            && ReadMsgsCache.Step(s, e).cache ==
               if !ReadMsgsCache.IsHit(s, e) && ReadMsgsCache.BreaksTunnel(s, e) then t.DropAll().read else t.read
  {
    BodiesReadBack(e.ch, e.maxMsgs, timeout);
    ReadMsgsRspRoundTrip(e.returnCode, s.Of(e.ch).queue[..e.taken]);
    FirstWord(ReadMsgsCache.DeviceReply(s, e), 8);
    AppendParts(Pack([e.returnCode, e.taken]), EncodeMsgs(s.Of(e.ch).queue[..e.taken]));
    UnpackPack([e.returnCode, e.taken]);
  }

  lemma ReadInvalidationIsDispatch(c: Caches, s: ReadMsgsCache.State, e: ReadMsgsCache.Event, closeBody: ByteString)
    requires c.read == s.cache
    ensures e.Disconnect? ==> ReadMsgsCache.Step(s, e).cache == c.Invalidate(DISCONNECT_REQ, DisconnectBody(e.ch)).0.read
    ensures e.Close? ==> ReadMsgsCache.Step(s, e).cache == c.Invalidate(CLOSE_REQ, closeBody).0.read
    ensures e.TunnelLost? ==> ReadMsgsCache.Step(s, e).cache == c.DropAll().read
  {
    if e.Disconnect? {
      BodiesReadBack(e.ch, 0, 0);
    }
  }

  // ---------------------------------------------------------------- IoctlStaleness is the dispatch

  lemma IoctlReqReadsBack(key: IoctlCache.Key, input: Payload)
    ensures var body := IoctlReqBody(key.channelId, key.ioctlId, input);
            KeyOf(body) == key && Unpack32(body[..4]) == key.channelId
  {
    var body := IoctlReqBody(key.channelId, key.ioctlId, input);
    var words := [key.channelId, key.ioctlId, |PayloadBytes(input)|];
    AppendParts(Pack(words), PayloadBytes(input));
    UnpackPack(words);
    FirstWord(body, 12);
  }

  /** A request is served from the server's cache exactly when the dispatch answers it, and tells the same. */
  lemma IoctlRequestIsDispatch(c: Caches, s: IoctlStaleness.State, key: IoctlCache.Key, input: Payload)
    requires c.ioctl == s.server
    ensures var answer := c.Answer(IOCTL_REQ, IoctlReqBody(key.channelId, key.ioctlId, input), s.now);
            if !s.server.Serves(key, s.now) then answer == Ok(None)
            else answer.Ok? && answer.value.Some? &&
                 DecodeIoctlRsp(answer.value.value) ==
                 Ok((s.server.entries[key].returnCode, Normalize(s.server.entries[key].output)))
  {
    IoctlReqReadsBack(key, input);
    if s.server.Serves(key, s.now) {
      IoctlRspRoundTrip(s.server.entries[key].returnCode, s.server.entries[key].output);
    }
  }

  /** An answer that comes back is recorded as the dispatch does with its encoding. */
  lemma IoctlReceiveIsDispatch(c: Caches, s: IoctlStaleness.State, id: nat)
    requires c.ioctl == s.server && IoctlStaleness.Enabled(s, IoctlStaleness.Receive(id))
    ensures var p := s.pending[id];
            var request := IoctlReqBody(p.key.channelId, p.key.ioctlId, p.input);
            IoctlStaleness.Step(s, IoctlStaleness.Receive(id)).server ==
            c.Record(IOCTL_REQ, request, IOCTL_RSP, IoctlRspBody(p.returnCode, p.output), Some(p.key.ioctlId), s.now).0.ioctl
  {
    var p := s.pending[id];
    IoctlReqReadsBack(p.key, p.input);
    IoctlRspRoundTrip(p.returnCode, p.output);
  }

  lemma IoctlInvalidationIsDispatch(c: Caches, s: IoctlStaleness.State, ch: U32, closeBody: ByteString)
    requires c.ioctl == s.server
    ensures IoctlStaleness.Step(s, IoctlStaleness.ServerDisconnect(ch)).server ==
            c.Invalidate(DISCONNECT_REQ, DisconnectBody(ch)).0.ioctl
    ensures IoctlStaleness.Step(s, IoctlStaleness.ServerClear).server == c.Invalidate(CLOSE_REQ, closeBody).0.ioctl
    ensures IoctlStaleness.Step(s, IoctlStaleness.ServerClear).server == c.DropAll().ioctl
  {
    BodiesReadBack(ch, 0, 0);
  }
}
