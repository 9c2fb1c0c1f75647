/**
 How the server uses its three caches around one request (vci_proxy/reverse_server.py): try them
 before forwarding, invalidate them before forwarding, record the answer afterwards.
 */
module ServerCaches {
  import opened Common
  import opened Bytes
  import opened Protocol
  import FilterCache
  import IoctlCache
  import ReadMsgsCache

  const CLOSE_REQ: U16 := 0x0002
  const DISCONNECT_REQ: U16 := 0x0004
  const STOP_FILTER_REQ: U16 := 0x0011

  /** What comes back from the tunnel. */
  datatype Reply = Reply(msgType: U16, body: ByteString)

  /** The contents of the three caches. */
  datatype Caches = Caches(read: ReadMsgsCache.Cache, filter: FilterCache.Filters, ioctl: IoctlCache.Cache) {
    /** The body of the reply a cache has for the request; a request too short to decode raises. */
    function Answer(msgType: U16, body: ByteString, now: real): Result<Option<ByteString>> {
      if msgType == READ_MSGS_REQ then
        if |body| < 12 then Err(ValueError)
        else if read.Serves(Unpack(body[..12])[0], now) then Ok(Some(ReadMsgsRspBody(ReadMsgsCache.BUFFER_EMPTY, [])))
        else Ok(None)
      else if msgType == START_FILTER_REQ then
        Ok(if filter.enabled && body in filter.filters then Some(filter.filters[body].responseBody) else None)
      else if msgType == IOCTL_REQ then
        if |body| < 12 then Err(ValueError)
        else
          var k := KeyOf(body);
          Ok(if ioctl.Serves(k, now) then Some(IoctlRspBody(ioctl.entries[k].returnCode, ioctl.entries[k].output))
             else None)
      else Ok(None)
    }

    function DropChannel(ch: U32): Caches {
      Caches(read.(channels := read.channels - {ch}), filter.InvalidateChannel(ch), ioctl.InvalidateChannel(ch))
    }

    function DropAll(): Caches {
      Caches(read.(channels := map[]), filter.Clear(), ioctl.Invalidate())
    }

    /** _invalidate_caches; a body too short to decode raises. */
    function Invalidate(msgType: U16, body: ByteString): (Caches, Result<()>) {
      if msgType == DISCONNECT_REQ then
        if |body| < 4 then (this, Err(ValueError)) else (DropChannel(Unpack32(body[..4])), Ok(()))
      else if msgType == CLOSE_REQ then (DropAll(), Ok(()))
      else if msgType == STOP_FILTER_REQ then
        if |body| < 8 then (this, Err(ValueError))
        else (this.(filter := filter.OnStop(Unpack(body[..8])[1])), Ok(()))
      else (this, Ok(()))
    }

    /** _record_in_caches: what the answer `rspBody`, of type `rspType`, to a forwarded request leaves behind. */
    function Record(msgType: U16, body: ByteString, rspType: U16, rspBody: ByteString, ioctlId: Option<U32>, now: real):
      (Caches, Result<()>)
    {
      if msgType == READ_MSGS_REQ then
        if |body| < 4 || |rspBody| < 4 then (this, Err(StructError))
        else (this.(read := read.Record(Unpack32(body[..4]), Unpack32(rspBody[..4]), now)), Ok(()))
      else if msgType == START_FILTER_REQ && rspType == START_FILTER_RSP then
        match DecodeStartFilterRsp(rspBody)
        case Err(e) => (this, Err(e))
        case Ok(rsp) =>
          if |body| < 4 then (this, if filter.enabled && rsp.0 == 0 then Err(StructError) else Ok(()))
          else (this.(filter := filter.Record(body, rsp.1, rsp.0, rspBody)), Ok(()))
      else if msgType == IOCTL_REQ && ioctlId.Some? && rspType == IOCTL_RSP then
        if |body| < 4 then (this, Err(StructError))
        else
          match DecodeIoctlRsp(rspBody)
          case Err(e) => (this, Err(e))
          case Ok(rsp) =>
            (this.(ioctl := ioctl.Record(IoctlCache.Key(Unpack32(body[..4]), ioctlId.value), rsp.0, rsp.1, now)), Ok(()))
      else (this, Ok(()))
    }

    /**
     What one request does to the caches: a hit ends it; otherwise they are invalidated, it is forwarded when
     `asked`, and a reply that comes back is recorded when it is `got`.
     */
    function Handle(msgType: U16, body: ByteString, reply: Option<Reply>, asked: real, got: real): Caches {
      if Answer(msgType, body, asked) != Ok(None) || Invalidate(msgType, body).1.Err? then this
      else
        var c := Invalidate(msgType, body).0;
        match reply
        case None => c
        case Some(rsp) => c.Record(msgType, body, rsp.msgType, rsp.body, IoctlIdOf(msgType, body), got).0
    }

    /** Some cache holds something about the channel. */
    predicate Mentions(ch: U32) {
      || ch in read.channels
      || (exists k <- filter.filters :: FilterCache.ChannelOf(k) == ch)
      || (exists k <- ioctl.entries :: k.channelId == ch)
    }
  }

  /** The channel and the IOCTL id that a request names. */
  function KeyOf(body: ByteString): IoctlCache.Key
    requires |body| >= 12
  {
    var w := Unpack(body[..12]); IoctlCache.Key(w[0], w[1])
  }

  function IoctlIdOf(msgType: U16, body: ByteString): Option<U32> {
    if msgType == IOCTL_REQ && |body| >= 12 then Some(KeyOf(body).ioctlId) else None
  }

  /** The type of the response to a request. */
  function ResponseType(msgType: U16): U16 {
    if msgType < 0x8000 then msgType + 0x8000 else msgType
  }

  class CacheFront {
    const readCache: ReadMsgsCache.BufferEmptyCache
    const filterCache: FilterCache.FilterDeduplicationCache
    const ioctlCache: IoctlCache.ReadOnlyIoctlCache

    constructor (r: ReadMsgsCache.BufferEmptyCache, f: FilterCache.FilterDeduplicationCache,
                 i: IoctlCache.ReadOnlyIoctlCache)
      ensures readCache == r && filterCache == f && ioctlCache == i
    {
      readCache, filterCache, ioctlCache := r, f, i;
    }

    function View(): Caches
      reads this, readCache, filterCache, ioctlCache
    {
      Caches(readCache.View(), filterCache.View(), ioctlCache.View())
    }

    /** The reply of a cache, as a whole frame under the DLL's own sequence; only the counters change. */
    method TryServeCached(msgType: U16, body: ByteString, sequence: U32, now: real)
      returns (r: Result<Option<ByteString>>, ioctlId: Option<U32>)
      modifies readCache, filterCache, ioctlCache
      ensures View() == old(View())
      ensures match View().Answer(msgType, body, now)
              case Err(e) => r == Err(e)
              case Ok(None) => r == Ok(None)
              case Ok(Some(answer)) => r == Framed(ResponseType(msgType), sequence, answer)
      ensures ioctlId == IoctlIdOf(msgType, body)
    {
      ioctlId := None;
      if msgType == READ_MSGS_REQ {
        if |body| < 12 {
          return Err(ValueError), None;
        }
        var cached := readCache.TryServeFromCache(Unpack(body[..12])[0], sequence, now);
        return Ok(cached), None;
      }
      if msgType == START_FILTER_REQ {
        r := filterCache.TryDedup(body, sequence);
        return;
      }
      if msgType == IOCTL_REQ {
        if |body| < 12 {
          return Err(ValueError), None;
        }
        var k := KeyOf(body);
        ioctlId := Some(k.ioctlId);
        var cached := ioctlCache.TryGetCached(k, now);
        if cached.Some? {
          r := Framed(IOCTL_RSP, sequence, IoctlRspBody(cached.value.0, cached.value.1));
          return;
        }
      }
      r := Ok(None);
    }

    /** What a Close does, and what _cancel_pending_futures does when a tunnel is lost or replaced. */
    method ForgetAll()
      modifies readCache, filterCache, ioctlCache
      ensures View() == old(View()).DropAll()
      ensures readCache.channels == map[] && filterCache.filters == map[] && ioctlCache.entries == map[]
    {
      readCache.Clear();
      filterCache.Clear();
      ioctlCache.Invalidate();
    }

    method InvalidateCaches(msgType: U16, body: ByteString) returns (r: Result<()>)
      modifies readCache, filterCache, ioctlCache
      ensures (View(), r) == old(View()).Invalidate(msgType, body)
    {
      r := Ok(());
      if msgType == DISCONNECT_REQ {
        if |body| < 4 {
          return Err(ValueError);
        }
        var ch := Unpack32(body[..4]);
        readCache.InvalidateChannel(ch);
        filterCache.InvalidateChannel(ch);
        ioctlCache.InvalidateChannel(ch);
      } else if msgType == CLOSE_REQ {
        ForgetAll();
      } else if msgType == STOP_FILTER_REQ {
        if |body| < 8 {
          return Err(ValueError);
        }
        filterCache.OnStopFilter(Unpack(body[..8])[1]);
      }
    }

    method RecordInCaches(msgType: U16, body: ByteString, rspType: U16, rspBody: ByteString, ioctlId: Option<U32>,
                          now: real)
      returns (r: Result<()>)
      modifies readCache, filterCache, ioctlCache
      ensures (View(), r) == old(View()).Record(msgType, body, rspType, rspBody, ioctlId, now)
    {
      r := Ok(());
      if msgType == READ_MSGS_REQ {
        if |body| < 4 || |rspBody| < 4 {
          return Err(StructError);
        }
        readCache.RecordResult(Unpack32(body[..4]), Unpack32(rspBody[..4]), now);
      } else if msgType == START_FILTER_REQ && rspType == START_FILTER_RSP {
        var rsp := DecodeStartFilterRsp(rspBody);
        if rsp.Err? {
          return Err(rsp.error);
        }
        r := filterCache.RecordResult(body, rsp.value.1, rsp.value.0, rspBody);
        assert r.Ok? ==> r.value == ();
      } else if msgType == IOCTL_REQ && ioctlId.Some? && rspType == IOCTL_RSP {
        if |body| < 4 {
          return Err(StructError);
        }
        var rsp := DecodeIoctlRsp(rspBody);
        if rsp.Err? {
          return Err(rsp.error);
        }
        ioctlCache.RecordResult(IoctlCache.Key(Unpack32(body[..4]), ioctlId.value), rsp.value.0, rsp.value.1, now);
      }
    }

    /** The cache side of one round of _handle_proxy_connection; `reply` is what a forwarded request would get. */
    method HandleRequest(msgType: U16, body: ByteString, sequence: U32, reply: Option<Reply>, asked: real, got: real)
      returns (cached: Option<ByteString>)
      modifies readCache, filterCache, ioctlCache
      ensures View() == old(View()).Handle(msgType, body, reply, asked, got)
      ensures match old(View()).Answer(msgType, body, asked)
              case Ok(Some(answer)) =>
                (match Framed(ResponseType(msgType), sequence, answer)
                 case Ok(frame) => cached == frame
                 case Err(_) => cached.None?)
              case _ => cached.None?
    {
      var tried, ioctlId := TryServeCached(msgType, body, sequence, asked);
      if tried.Err? || tried.value.Some? {
        return if tried.Ok? then tried.value else None;
      }
      cached := None;
      var invalidated := InvalidateCaches(msgType, body);
      if invalidated.Err? || reply.None? {
        return;
      }
      var _ := RecordInCaches(msgType, body, reply.value.msgType, reply.value.body, ioctlId, got);
    }
  }

  /** After a Disconnect has passed, no cache knows the channel; other channels are as they were. */
  lemma DisconnectForgetsChannel(c: Caches, body: ByteString)
    requires c.filter.Consistent() && |body| >= 4
    ensures var ch := Unpack32(body[..4]);
            var c' := c.Invalidate(DISCONNECT_REQ, body).0;
            && !c'.Mentions(ch)
            && c'.filter.Consistent()
            && (forall k :: k in c'.filter.filters <==> k in c.filter.filters && FilterCache.ChannelOf(k) != ch)
            && (forall k :: k in c'.ioctl.entries <==> k in c.ioctl.entries && k.channelId != ch)
            && (forall x :: x in c'.read.channels <==> x in c.read.channels && x != ch)
  {
    FilterCache.InvalidateKeepsConsistent(c.filter, Unpack32(body[..4]));
  }

  // ---------------------------------------------------------------- forwarded once, answered again

  /** What the DLL makes of the body of a reply. */
  datatype Meaning =
    | Messages(read: Result<(U32, seq<PassThruMsg>)>)
    | FilterStarted(filter: Result<(U32, U32)>)
    | IoctlDone(ioctl: Result<(U32, Payload)>)
    | Raw(body: ByteString)

  function MeaningOf(msgType: U16, rspBody: ByteString): Meaning {
    if msgType == READ_MSGS_REQ then Messages(DecodeReadMsgsRsp(rspBody))
    else if msgType == START_FILTER_REQ then FilterStarted(DecodeStartFilterRsp(rspBody))
    else if msgType == IOCTL_REQ then IoctlDone(DecodeIoctlRsp(rspBody))
    else Raw(rspBody)
  }

  /** Saying it a second time: messages already handed over are not handed over again, empty output is none. */
  function Again(m: Meaning): Meaning {
    match m
    case Messages(Ok(r)) => Messages(Ok((r.0, [])))
    case IoctlDone(Ok(r)) => IoctlDone(Ok((r.0, Normalize(r.1))))
    case _ => m
  }

  lemma FirstWord(body: ByteString, n: nat)
    requires 4 <= n <= |body| && n % 4 == 0
    ensures Unpack(body[..n])[0] == Unpack32(body[..4])
  {
    assert body[..n][..4] == body[..4];
  }

  lemma ReadMeansSame(c: Caches, body: ByteString, rspBody: ByteString, now: real, later: real)
    requires c.Answer(READ_MSGS_REQ, body, now) == Ok(None) && now <= later && |rspBody| >= 4
    requires c.read.Record(Unpack32(body[..4]), Unpack32(rspBody[..4]), now).Serves(Unpack(body[..12])[0], later)
    ensures var again := ReadMsgsRspBody(ReadMsgsCache.BUFFER_EMPTY, []);
            MeaningOf(READ_MSGS_REQ, again) == Again(MeaningOf(READ_MSGS_REQ, rspBody)) <==> |rspBody| >= 8
  {
    ReadMsgsRspRoundTrip(ReadMsgsCache.BUFFER_EMPTY, []);
    FirstWord(body, 12);
    if |rspBody| >= 8 {
      FirstWord(rspBody, 8);
    }
  }

  lemma IoctlMeansSame(c: Caches, body: ByteString, rspBody: ByteString, now: real, later: real)
    requires c.Answer(IOCTL_REQ, body, now) == Ok(None) && now <= later && |rspBody| >= 8
    requires var rsp := DecodeIoctlRsp(rspBody).value;
             c.ioctl.Record(KeyOf(body), rsp.0, rsp.1, now).Serves(KeyOf(body), later)
    ensures var rsp := DecodeIoctlRsp(rspBody).value;
            MeaningOf(IOCTL_REQ, IoctlRspBody(rsp.0, rsp.1)) == Again(MeaningOf(IOCTL_REQ, rspBody))
    ensures var rsp := DecodeIoctlRsp(rspBody).value;
            c.ioctl.Record(KeyOf(body), rsp.0, rsp.1, now).entries[KeyOf(body)] == IoctlCache.Entry(now, rsp.0, rsp.1)
  {
    IoctlRspRoundTrip(DecodeIoctlRsp(rspBody).value.0, DecodeIoctlRsp(rspBody).value.1);
  }

  /**
   A request that was forwarded and recorded may be answered from the caches when it is repeated, and
   then the DLL is told what the first answer told it: the same filter, the same IOCTL result, the same
   return code with no message twice.  The one exception is a READ_MSGS answer too short to decode.
   */
  lemma RepeatedRequestGetsSameAnswer(c: Caches, msgType: U16, body: ByteString, rspBody: ByteString, now: real,
                                      later: real, again: ByteString)
    requires c.Answer(msgType, body, now) == Ok(None) && now <= later
    requires var ioctlId := if msgType == IOCTL_REQ then Some(KeyOf(body).ioctlId) else None;
             var (c', recorded) := c.Record(msgType, body, ResponseType(msgType), rspBody, ioctlId, now);
             recorded.Ok? && c'.Answer(msgType, body, later) == Ok(Some(again))
    ensures MeaningOf(msgType, again) == Again(MeaningOf(msgType, rspBody)) <==>
            !(msgType == READ_MSGS_REQ && |rspBody| < 8)
  {
    if msgType == READ_MSGS_REQ {
      ReadMeansSame(c, body, rspBody, now, later);
    } else if msgType == IOCTL_REQ {
      FirstWord(body, 12);
      IoctlMeansSame(c, body, rspBody, now, later);
    }
  }
}
