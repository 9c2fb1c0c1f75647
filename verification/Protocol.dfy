/**
 The wire protocol of the VCI proxy (vci_proxy/protocol.py): the frame header, the bodies that
 carry lists of PassThru messages, the filter request with its three optional messages, and the
 IOCTL bodies.  Encoders and decoders of message lists are loops over a buffer; each is proved
 against a function on byte strings, and the round trips are lemmas about those functions.
 */
module Protocol {
  import opened Common
  import opened Bytes

  const MAGIC: U32 := 0x4A325334
  const HEADER_SIZE: nat := 14
  const MSG_HEADER_SIZE: nat := 20
  const U32_LIMIT: nat := 0x1_0000_0000

  const READ_MSGS_REQ: U16 := 0x0005
  const IOCTL_REQ: U16 := 0x0007
  const START_FILTER_REQ: U16 := 0x0010
  const HEARTBEAT: U16 := 0x00FF
  const READ_MSGS_RSP: U16 := 0x8005
  const IOCTL_RSP: U16 := 0x8007
  const START_FILTER_RSP: U16 := 0x8010
  const HEARTBEAT_ACK: U16 := 0x80FF

  // ---------------------------------------------------------------- frames

  datatype Frame = Frame(msgType: U16, sequence: U32, body: ByteString)

  /** The 14 header bytes, format ">IIHI". */
  function HeaderBytes(length: U32, msgType: U16, sequence: U32): (h: ByteString)
    ensures |h| == HEADER_SIZE
  {
    Pack32(MAGIC) + Pack32(length) + Pack16(msgType) + Pack32(sequence)
  }

  predicate FitsFrame(body: ByteString) {
    HEADER_SIZE + |body| < U32_LIMIT
  }

  /** The bytes of a frame whose length field can be packed. */
  function FrameBytes(f: Frame): (b: ByteString)
    requires FitsFrame(f.body)
    ensures |b| == HEADER_SIZE + |f.body|
  {
    HeaderBytes(HEADER_SIZE + |f.body|, f.msgType, f.sequence) + f.body
  }

  function EncodeFrame(f: Frame): Result<ByteString> {
    if FitsFrame(f.body) then Ok(FrameBytes(f)) else Err(StructError)
  }

  /** A reply as a frame, for those who may also have none. */
  function Framed(msgType: U16, sequence: U32, body: ByteString): Result<Option<ByteString>> {
    match EncodeFrame(Frame(msgType, sequence, body))
    case Ok(bytes) => Ok(Some(bytes))
    case Err(e) => Err(e)
  }

  lemma HeaderFields(length: U32, msgType: U16, sequence: U32, rest: ByteString)
    ensures var b := HeaderBytes(length, msgType, sequence) + rest;
            && Unpack32(b[0..4]) == MAGIC && Unpack32(b[4..8]) == length
            && Unpack16(b[8..10]) == msgType && Unpack32(b[10..14]) == sequence
            && b[14..] == rest
  {
    var b := HeaderBytes(length, msgType, sequence) + rest;
    assert b[0..4] == Pack32(MAGIC) && b[4..8] == Pack32(length);
    assert b[8..10] == Pack16(msgType) && b[10..14] == Pack32(sequence);
    UnpackPack32(MAGIC);
    UnpackPack32(length);
    UnpackPack16(msgType);
    UnpackPack32(sequence);
  }

  // ---------------------------------------------------------------- one PassThru message

  /** A PassThru message as it travels; its size field is 32 bits wide. */
  datatype PassThruRecord = PassThru(protocolId: U32, rxStatus: U32, txFlags: U32, timestamp: U32, data: ByteString)
  type PassThruMsg = m: PassThruRecord | |m.data| < U32_LIMIT witness PassThru(0, 0, 0, 0, [])

  function HeaderWords(m: PassThruMsg): (words: seq<U32>)
    ensures |words| == 5
  {
    [m.protocolId, m.rxStatus, m.txFlags, m.timestamp, |m.data|]
  }

  function EncodeMsg(m: PassThruMsg): (b: ByteString)
    ensures |b| == MSG_HEADER_SIZE + |m.data|
  {
    Pack(HeaderWords(m)) + m.data
  }

  /** The message with these header words whose data starts `s`. */
  function WithData(w: seq<U32>, s: ByteString): PassThruMsg
    requires |w| == 5 && w[4] <= |s|
  {
    PassThru(w[0], w[1], w[2], w[3], s[..w[4]])
  }

  /** `s` begins with a whole message: a full header and as much data as it announces. */
  predicate StartsWithMsg(s: ByteString) {
    |s| >= MSG_HEADER_SIZE && MSG_HEADER_SIZE + Unpack(s[..MSG_HEADER_SIZE])[4] <= |s|
  }

  function ReadMsg(s: ByteString): (m: PassThruMsg)
    requires StartsWithMsg(s)
    ensures |EncodeMsg(m)| <= |s|
  {
    WithData(Unpack(s[..MSG_HEADER_SIZE]), s[MSG_HEADER_SIZE..])
  }

  lemma MsgRoundTrip(m: PassThruMsg, rest: ByteString)
    ensures StartsWithMsg(EncodeMsg(m) + rest) && ReadMsg(EncodeMsg(m) + rest) == m
  {
    AppendAssoc(Pack(HeaderWords(m)), m.data, rest);
    AppendParts(Pack(HeaderWords(m)), m.data + rest);
    AppendParts(m.data, rest);
    UnpackPack(HeaderWords(m));
  }

  /** Reading loses nothing: re-encoding the message gives back the bytes it was read from. */
  lemma ReadMsgIsPrefix(s: ByteString)
    requires StartsWithMsg(s)
    ensures var e := EncodeMsg(ReadMsg(s)); s == e + s[|e|..]
  {
    var w, data := Unpack(s[..MSG_HEADER_SIZE]), s[MSG_HEADER_SIZE..];
    assert HeaderWords(WithData(w, data)) == w;
    PackUnpack(s[..MSG_HEADER_SIZE]);
    SplitAt(s, MSG_HEADER_SIZE);
    SplitAt(data, w[4]);
    AppendAssoc(s[..MSG_HEADER_SIZE], data[..w[4]], data[w[4]..]);
    DropTwice(s, MSG_HEADER_SIZE, w[4]);
  }

  // ---------------------------------------------------------------- lists of messages

  function EncodeMsgs(ms: seq<PassThruMsg>): ByteString {
    if ms == [] then [] else EncodeMsg(ms[0]) + EncodeMsgs(ms[1..])
  }

  lemma {:induction false} EncodeMsgsAppend(a: seq<PassThruMsg>, b: seq<PassThruMsg>)
    ensures EncodeMsgs(a + b) == EncodeMsgs(a) + EncodeMsgs(b)
  {
    if a == [] {
      assert a + b == b;
    } else {
      assert (a + b)[1..] == a[1..] + b;
      EncodeMsgsAppend(a[1..], b);
      AppendAssoc(EncodeMsg(a[0]), EncodeMsgs(a[1..]), EncodeMsgs(b));
    }
  }

  lemma EncodeOneMsg(m: PassThruMsg)
    ensures EncodeMsgs([m]) == EncodeMsg(m)
  {
    assert EncodeMsgs([m][1..]) == [];
  }

  /** What the decoding loops compute from the bytes after the fixed header. */
  function ParseMsgs(s: ByteString, n: nat): (ms: seq<PassThruMsg>) {
    if n == 0 || !StartsWithMsg(s) then []
    else [ReadMsg(s)] + ParseMsgs(s[|EncodeMsg(ReadMsg(s))|..], n - 1)
  }

  /** `ms` is the longest list of whole messages, at most `n` of them, that `s` begins with. */
  ghost predicate LongestWholePrefix(s: ByteString, n: nat, ms: seq<PassThruMsg>) {
    && |ms| <= n
    && EncodeMsgs(ms) <= s
    && (|ms| < n ==> !StartsWithMsg(s[|EncodeMsgs(ms)|..]))
  }

  /** On arbitrary bytes the decoder yields exactly the longest whole prefix. */
  lemma {:induction false} ParseMsgsIsLongestPrefix(s: ByteString, n: nat)
    ensures LongestWholePrefix(s, n, ParseMsgs(s, n))
    ensures |ParseMsgs(s, n)| * MSG_HEADER_SIZE <= |s|
    decreases n
  {
    if n > 0 && StartsWithMsg(s) {
      ReadMsgIsPrefix(s);
      var m := ReadMsg(s);
      var rest := s[|EncodeMsg(m)|..];
      ParseMsgsIsLongestPrefix(rest, n - 1);
      var tail := ParseMsgs(rest, n - 1);
      EncodeMsgsAppend([m], tail);
      EncodeOneMsg(m);
      SplitAt(rest, |EncodeMsgs(tail)|);
      AppendAssoc(EncodeMsg(m), rest[..|EncodeMsgs(tail)|], rest[|EncodeMsgs(tail)|..]);
      AppendParts(EncodeMsg(m) + EncodeMsgs(tail), rest[|EncodeMsgs(tail)|..]);
    }
  }

  /** The longest whole prefix is unique, so the predicate pins the decoder down. */
  lemma {:induction false} LongestPrefixIsUnique(s: ByteString, n: nat, ms: seq<PassThruMsg>)
    requires LongestWholePrefix(s, n, ms)
    ensures ms == ParseMsgs(s, n)
    decreases n
  {
    if ms == [] {
      assert s[0..] == s;
    } else {
      var m, tail := ms[0], ms[1..];
      SplitPrefix(EncodeMsg(m), EncodeMsgs(tail), s);
      var rest := s[|EncodeMsg(m)|..];
      MsgRoundTrip(m, rest);
      LongestPrefixIsUnique(rest, n - 1, tail);
      ConsAppend(ms, []);
    }
  }

  /** Fewer bytes than a whole message do not start with one. */
  lemma CutMsgIsNotWhole(m: PassThruMsg, s: ByteString)
    requires |s| < |EncodeMsg(m)| && s == EncodeMsg(m)[..|s|]
    ensures !StartsWithMsg(s)
  {
    if |s| >= MSG_HEADER_SIZE {
      assert s[..MSG_HEADER_SIZE] == Pack(HeaderWords(m));
      UnpackPack(HeaderWords(m));
    }
  }

  /** Cutting after `r` and inside the message behind it leaves exactly `r`. */
  lemma CutInsideMsg(r: seq<PassThruMsg>, m: PassThruMsg, more: seq<PassThruMsg>, cut: nat)
    requires |EncodeMsgs(r)| <= cut < |EncodeMsgs(r)| + |EncodeMsg(m)|
    ensures cut <= |EncodeMsgs(r + ([m] + more))|
    ensures ParseMsgs(EncodeMsgs(r + ([m] + more))[..cut], |r| + 1 + |more|) == r
  {
    EncodeMsgsAppend(r, [m] + more);
    EncodeMsgsAppend([m], more);
    EncodeOneMsg(m);
    var a, e := EncodeMsgs(r), EncodeMsg(m);
    var left := (e + EncodeMsgs(more))[..cut - |a|];
    CutAppend(a, e + EncodeMsgs(more), cut);
    assert left == e[..|left|];
    CutMsgIsNotWhole(m, left);
    AppendParts(a, left);
    LongestPrefixIsUnique(a + left, |r| + 1 + |more|, r);
  }

  /** How many messages of the encoded list fit into `cut` bytes. */
  lemma WholeMsgsWithin(ms: seq<PassThruMsg>, cut: nat) returns (k: nat)
    ensures k <= |ms| && |EncodeMsgs(ms[..k])| <= cut
    ensures k < |ms| ==> cut < |EncodeMsgs(ms[..k + 1])|
  {
    k := |ms|;
    while k > 0 && |EncodeMsgs(ms[..k])| > cut
      invariant k <= |ms|
      invariant k < |ms| ==> cut < |EncodeMsgs(ms[..k + 1])|
    {
      k := k - 1;
    }
  }

  /** `r` is what is left of `ms` when its encoding is cut after `cut` bytes: the next message would not fit. */
  predicate MaximalPrefix(r: seq<PassThruMsg>, ms: seq<PassThruMsg>, cut: nat) {
    && r <= ms
    && |EncodeMsgs(r)| <= cut
    && (|r| < |ms| ==> cut < |EncodeMsgs(ms[..|r| + 1])|)
  }

  /** Cutting between the end of message k and the end of the one behind it leaves the first k. */
  lemma CutLeavesFirst(ms: seq<PassThruMsg>, k: nat, cut: nat)
    requires k < |ms| && |EncodeMsgs(ms[..k])| <= cut < |EncodeMsgs(ms[..k + 1])|
    ensures cut <= |EncodeMsgs(ms)| && ParseMsgs(EncodeMsgs(ms)[..cut], |ms|) == ms[..k]
  {
    assert ms[..k + 1] == ms[..k] + [ms[k]];
    EncodeMsgsAppend(ms[..k], [ms[k]]);
    EncodeOneMsg(ms[k]);
    assert ms == ms[..k] + ([ms[k]] + ms[k + 1..]);
    CutInsideMsg(ms[..k], ms[k], ms[k + 1..], cut);
  }

  /** Any truncation of an encoded list decodes to the maximal prefix of complete messages. */
  lemma TruncationKeepsWholePrefix(ms: seq<PassThruMsg>, cut: nat)
    requires cut <= |EncodeMsgs(ms)|
    ensures MaximalPrefix(ParseMsgs(EncodeMsgs(ms)[..cut], |ms|), ms, cut)
  {
    var k := WholeMsgsWithin(ms, cut);
    if k == |ms| {
      assert ms[..|ms|] == ms;
      assert EncodeMsgs(ms)[..cut] == EncodeMsgs(ms);
      LongestPrefixIsUnique(EncodeMsgs(ms), |ms|, ms);
    } else {
      CutLeavesFirst(ms, k, cut);
    }
  }

  /** Decoding inverts encoding, whatever follows the announced messages. */
  lemma MsgsRoundTrip(ms: seq<PassThruMsg>, trailing: ByteString)
    ensures ParseMsgs(EncodeMsgs(ms) + trailing, |ms|) == ms
  {
    LongestPrefixIsUnique(EncodeMsgs(ms) + trailing, |ms|, ms);
  }

  /** The encoder loop, shared by encode_read_msgs_rsp and encode_write_msgs_req. */
  method AppendMsgs(header: ByteString, messages: seq<PassThruMsg>) returns (body: ByteString)
    ensures body == header + EncodeMsgs(messages)
  {
    body := header;
    for i := 0 to |messages|
      invariant body == header + EncodeMsgs(messages[..i])
    {
      ghost var done, msg := messages[..i], messages[i];
      assert messages[..i + 1] == done + [msg];
      EncodeMsgsAppend(done, [msg]);
      EncodeOneMsg(msg);
      AppendAssoc(header, EncodeMsgs(done), EncodeMsg(msg));
      AppendAssoc(body, Pack(HeaderWords(msg)), msg.data);
      body := body + Pack(HeaderWords(messages[i]));
      body := body + messages[i].data;
    }
    assert messages[..|messages|] == messages;
  }

  /** The unpacking step of every decoding loop: the message at `offset`, if it is all there. */
  method TakeMsg(body: ByteString, offset: nat) returns (found: bool, msg: PassThruMsg, next: nat)
    requires offset <= |body|
    ensures found <==> StartsWithMsg(body[offset..])
    ensures found ==> msg == ReadMsg(body[offset..]) && next == offset + |EncodeMsg(msg)| <= |body|
    ensures found ==> body[offset..][|EncodeMsg(msg)|..] == body[next..]
  {
    msg, next := PassThru(0, 0, 0, 0, []), offset;
    if offset + MSG_HEADER_SIZE > |body| {
      return false, msg, next;
    }
    assert body[offset..][..MSG_HEADER_SIZE] == body[offset..offset + MSG_HEADER_SIZE];
    var words := Unpack(body[offset..offset + MSG_HEADER_SIZE]);
    next := offset + MSG_HEADER_SIZE + words[4];
    if next > |body| {
      return false, msg, next;
    }
    DropTwice(body, offset, MSG_HEADER_SIZE);
    DropTwice(body, offset, MSG_HEADER_SIZE + words[4]);
    assert body[offset + MSG_HEADER_SIZE..next] == body[offset + MSG_HEADER_SIZE..][..words[4]];
    msg := PassThru(words[0], words[1], words[2], words[3], body[offset + MSG_HEADER_SIZE..next]);
    found := true;
  }

  /** The decoder loop, shared by decode_read_msgs_rsp and decode_write_msgs_req. */
  method CollectMsgs(body: ByteString, start: nat, numMsgs: nat) returns (messages: seq<PassThruMsg>)
    requires start <= |body|
    ensures messages == ParseMsgs(body[start..], numMsgs)
    ensures LongestWholePrefix(body[start..], numMsgs, messages)
  {
    ParseMsgsIsLongestPrefix(body[start..], numMsgs);
    ghost var all := ParseMsgs(body[start..], numMsgs);
    messages := [];
    var offset := start;
    for i := 0 to numMsgs
      invariant start <= offset <= |body|
      invariant all == messages + ParseMsgs(body[offset..], numMsgs - i)
    {
      var found, msg, next := TakeMsg(body, offset);
      if !found {
        assert all == messages + [];
        return;
      }
      AppendAssoc(messages, [msg], ParseMsgs(body[next..], numMsgs - i - 1));
      messages := messages + [msg];
      offset := next;
    }
    assert all == messages + [];
  }

  // ---------------------------------------------------------------- READ_MSGS_RSP and WRITE_MSGS_REQ

  function ReadMsgsRspBody(returnCode: U32, messages: seq<PassThruMsg>): ByteString
    requires |messages| < U32_LIMIT
  {
    Pack([returnCode, |messages|]) + EncodeMsgs(messages)
  }

  function DecodeReadMsgsRsp(body: ByteString): Result<(U32, seq<PassThruMsg>)> {
    if |body| < 8 then Err(ValueError)
    else var w := Unpack(body[..8]); Ok((w[0], ParseMsgs(body[8..], w[1])))
  }

  function WriteMsgsReqBody(channelId: U32, messages: seq<PassThruMsg>, timeout: U32): ByteString
    requires |messages| < U32_LIMIT
  {
    Pack([channelId, |messages|, timeout]) + EncodeMsgs(messages)
  }

  function DecodeWriteMsgsReq(body: ByteString): Result<(U32, seq<PassThruMsg>, U32)> {
    if |body| < 12 then Err(ValueError)
    else var w := Unpack(body[..12]); Ok((w[0], ParseMsgs(body[12..], w[1]), w[2]))
  }

  lemma ReadMsgsRspRoundTrip(returnCode: U32, messages: seq<PassThruMsg>)
    requires |messages| < U32_LIMIT
    ensures DecodeReadMsgsRsp(ReadMsgsRspBody(returnCode, messages)) == Ok((returnCode, messages))
  {
    AppendParts(Pack([returnCode, |messages|]), EncodeMsgs(messages));
    UnpackPack([returnCode, |messages|]);
    MsgsRoundTrip(messages, []);
    assert EncodeMsgs(messages) + [] == EncodeMsgs(messages);
  }

  lemma WriteMsgsReqRoundTrip(channelId: U32, messages: seq<PassThruMsg>, timeout: U32)
    requires |messages| < U32_LIMIT
    ensures DecodeWriteMsgsReq(WriteMsgsReqBody(channelId, messages, timeout)) == Ok((channelId, messages, timeout))
  {
    AppendParts(Pack([channelId, |messages|, timeout]), EncodeMsgs(messages));
    UnpackPack([channelId, |messages|, timeout]);
    MsgsRoundTrip(messages, []);
    assert EncodeMsgs(messages) + [] == EncodeMsgs(messages);
  }

  /** A truncated READ_MSGS_RSP still tells its return code, and exactly the messages that are all there. */
  lemma TruncatedReadMsgsRsp(returnCode: U32, messages: seq<PassThruMsg>, cut: nat)
    requires |messages| < U32_LIMIT && cut <= |ReadMsgsRspBody(returnCode, messages)|
    ensures match DecodeReadMsgsRsp(ReadMsgsRspBody(returnCode, messages)[..cut])
            case Err(e) => cut < 8 && e == ValueError
            case Ok(r) => cut >= 8 && r.0 == returnCode && MaximalPrefix(r.1, messages, cut - 8)
  {
    if cut >= 8 {
      CutBehind(Pack([returnCode, |messages|]), EncodeMsgs(messages), cut);
      UnpackPack([returnCode, |messages|]);
      TruncationKeepsWholePrefix(messages, cut - 8);
    }
  }

  lemma TruncatedWriteMsgsReq(channelId: U32, messages: seq<PassThruMsg>, timeout: U32, cut: nat)
    requires |messages| < U32_LIMIT && cut <= |WriteMsgsReqBody(channelId, messages, timeout)|
    ensures match DecodeWriteMsgsReq(WriteMsgsReqBody(channelId, messages, timeout)[..cut])
            case Err(e) => cut < 12 && e == ValueError
            case Ok(r) => cut >= 12 && r.0 == channelId && r.2 == timeout && MaximalPrefix(r.1, messages, cut - 12)
  {
    if cut >= 12 {
      CutBehind(Pack([channelId, |messages|, timeout]), EncodeMsgs(messages), cut);
      UnpackPack([channelId, |messages|, timeout]);
      TruncationKeepsWholePrefix(messages, cut - 12);
    }
  }

  /** Encoding fails exactly when a length does not fit its 32-bit field. */
  method EncodeReadMsgsRsp(returnCode: U32, messages: seq<PassThruMsg>, sequence: U32)
    returns (r: Result<ByteString>)
    ensures r.Ok? <==> |messages| < U32_LIMIT && FitsFrame(ReadMsgsRspBody(returnCode, messages))
    ensures r.Ok? ==> r.value == FrameBytes(Frame(READ_MSGS_RSP, sequence, ReadMsgsRspBody(returnCode, messages)))
    ensures r.Err? ==> r.error == StructError
  {
    if |messages| >= U32_LIMIT {
      return Err(StructError);
    }
    var body := AppendMsgs(Pack([returnCode, |messages|]), messages);
    r := EncodeFrame(Frame(READ_MSGS_RSP, sequence, body));
  }

  // ---------------------------------------------------------------- START_FILTER_REQ

  function EncodeSlot(slot: Option<PassThruMsg>): (b: ByteString)
    ensures |b| >= 1
  {
    match slot
    case None => [0]
    case Some(m) => [1] + EncodeMsg(m)
  }

  function EncodeSlots(slots: seq<Option<PassThruMsg>>): (b: ByteString)
    ensures |b| >= |slots|
  {
    if slots == [] then [] else EncodeSlot(slots[0]) + EncodeSlots(slots[1..])
  }

  datatype FilterRequest = FilterRequest(channelId: U32, filterType: U32, mask: Option<PassThruMsg>,
                                         pattern: Option<PassThruMsg>, flow: Option<PassThruMsg>)

  function StartFilterReqBody(q: FilterRequest): (b: ByteString)
    ensures |b| >= 11
  {
    Pack([q.channelId, q.filterType]) + EncodeSlots([q.mask, q.pattern, q.flow])
  }

  /** The optional message that starts `s`, and what follows it. */
  function ParseSlot(s: ByteString): Result<(Option<PassThruMsg>, ByteString)> {
    if s == [] then Ok((None, []))
    else if s[0] == 0 then Ok((None, s[1..]))
    else if !StartsWithMsg(s[1..]) then Err(ValueError)
    else var m := ReadMsg(s[1..]); Ok((Some(m), s[1..][|EncodeMsg(m)|..]))
  }

  function Prepend<T>(prefix: seq<T>, r: Result<seq<T>>): Result<seq<T>> {
    if r.Err? then r else Ok(prefix + r.value)
  }

  lemma PrependTwice<T>(a: seq<T>, b: seq<T>, r: Result<seq<T>>)
    ensures Prepend(a, Prepend(b, r)) == Prepend(a + b, r)
  {
    if r.Ok? {
      AppendAssoc(a, b, r.value);
    }
  }

  function ParseSlots(s: ByteString, n: nat): (r: Result<seq<Option<PassThruMsg>>>)
    ensures r.Ok? ==> |r.value| == n
  {
    if n == 0 then Ok([])
    else match ParseSlot(s)
      case Err(e) => Err(e)
      case Ok(p) => Prepend([p.0], ParseSlots(p.1, n - 1))
  }

  function FilterRequestOf(body: ByteString): Result<FilterRequest> {
    if |body| < 11 then Err(ValueError)
    else match ParseSlots(body[8..], 3)
      case Err(e) => Err(e)
      case Ok(s) => var w := Unpack(body[..8]); Ok(FilterRequest(w[0], w[1], s[0], s[1], s[2]))
  }

  lemma SlotRoundTrip(slot: Option<PassThruMsg>, rest: ByteString)
    ensures ParseSlot(EncodeSlot(slot) + rest) == Ok((slot, rest))
  {
    match slot
    case None =>
      AppendParts([0 as Byte], rest);
    case Some(m) =>
      MsgRoundTrip(m, rest);
      AppendAssoc([1 as Byte], EncodeMsg(m), rest);
      AppendParts([1 as Byte], EncodeMsg(m) + rest);
      AppendParts(EncodeMsg(m), rest);
  }

  lemma {:induction false} SlotsRoundTrip(slots: seq<Option<PassThruMsg>>)
    ensures ParseSlots(EncodeSlots(slots), |slots|) == Ok(slots)
  {
    if slots != [] {
      SlotRoundTrip(slots[0], EncodeSlots(slots[1..]));
      SlotsRoundTrip(slots[1..]);
      assert [slots[0]] + slots[1..] == slots;
    }
  }

  method TakeSlot(body: ByteString, start: nat) returns (r: Result<Option<PassThruMsg>>, offset: nat)
    requires start <= |body|
    ensures start <= offset <= |body|
    ensures match ParseSlot(body[start..])
            case Err(e) => r == Err(e)
            case Ok(p) => r == Ok(p.0) && p.1 == body[offset..]
  {
    offset := start;
    if offset >= |body| {
      return Ok(None), offset;
    }
    var present := body[offset];
    DropTwice(body, offset, 1);
    offset := offset + 1;
    if present == 0 {
      return Ok(None), offset;
    }
    var found, msg, next := TakeMsg(body, offset);
    if !found {
      return Err(ValueError), offset;
    }
    r, offset := Ok(Some(msg)), next;
  }

  method DecodeStartFilterReq(body: ByteString) returns (r: Result<FilterRequest>)
    ensures r == FilterRequestOf(body)
  {
    if |body| < 11 {
      return Err(ValueError);
    }
    var words := Unpack(body[..8]);
    var offset := 8;
    var messages: seq<Option<PassThruMsg>> := [];
    ghost var all := ParseSlots(body[8..], 3);
    assert all.Ok? ==> [] + all.value == all.value;
    for i := 0 to 3
      invariant 8 <= offset <= |body| && |messages| == i
      invariant all == Prepend(messages, ParseSlots(body[offset..], 3 - i))
    {
      var slot, next := TakeSlot(body, offset);
      if slot.Err? {
        return Err(slot.error);
      }
      PrependTwice(messages, [slot.value], ParseSlots(body[next..], 2 - i));
      messages, offset := messages + [slot.value], next;
    }
    assert messages + [] == messages;
    r := Ok(FilterRequest(words[0], words[1], messages[0], messages[1], messages[2]));
  }

  /** All eight presence patterns survive the trip. */
  lemma StartFilterReqRoundTrip(q: FilterRequest)
    ensures FilterRequestOf(StartFilterReqBody(q)) == Ok(q)
  {
    AppendParts(Pack([q.channelId, q.filterType]), EncodeSlots([q.mask, q.pattern, q.flow]));
    UnpackPack([q.channelId, q.filterType]);
    SlotsRoundTrip([q.mask, q.pattern, q.flow]);
  }

  function StartFilterRspBody(returnCode: U32, filterId: U32): ByteString {
    Pack([returnCode, filterId])
  }

  function DecodeStartFilterRsp(body: ByteString): Result<(U32, U32)> {
    if |body| < 8 then Err(ValueError) else var w := Unpack(body[..8]); Ok((w[0], w[1]))
  }

  // ---------------------------------------------------------------- IOCTL bodies

  type Payload = d: Option<ByteString> | |PayloadBytes(d)| < U32_LIMIT witness None

  function PayloadBytes(data: Option<ByteString>): ByteString {
    if data.Some? then data.value else []
  }

  /** The wire cannot tell an empty payload from an absent one. */
  function Normalize(data: Payload): Payload {
    if data == Some([]) then None else data
  }

  /** `data[:n] if n > 0 else None`, with Python's clipping at the end. */
  function TakePayload(data: ByteString, n: U32): Payload {
    if n == 0 then None else if n <= |data| then Some(data[..n]) else Some(data)
  }

  function IoctlReqBody(channelId: U32, ioctlId: U32, input: Payload): ByteString {
    Pack([channelId, ioctlId, |PayloadBytes(input)|]) + PayloadBytes(input)
  }

  function DecodeIoctlReq(body: ByteString): Result<(U32, U32, Payload)> {
    if |body| < 12 then Err(ValueError)
    else var w := Unpack(body[..12]); Ok((w[0], w[1], TakePayload(body[12..], w[2])))
  }

  function IoctlRspBody(returnCode: U32, output: Payload): ByteString {
    Pack([returnCode, |PayloadBytes(output)|]) + PayloadBytes(output)
  }

  function DecodeIoctlRsp(body: ByteString): Result<(U32, Payload)> {
    if |body| < 8 then Err(ValueError)
    else var w := Unpack(body[..8]); Ok((w[0], TakePayload(body[8..], w[1])))
  }

  lemma IoctlReqRoundTrip(channelId: U32, ioctlId: U32, input: Payload)
    ensures DecodeIoctlReq(IoctlReqBody(channelId, ioctlId, input)) == Ok((channelId, ioctlId, Normalize(input)))
  {
    AppendParts(Pack([channelId, ioctlId, |PayloadBytes(input)|]), PayloadBytes(input));
    UnpackPack([channelId, ioctlId, |PayloadBytes(input)|]);
    assert PayloadBytes(input)[..|PayloadBytes(input)|] == PayloadBytes(input);
  }

  lemma IoctlRspRoundTrip(returnCode: U32, output: Payload)
    ensures DecodeIoctlRsp(IoctlRspBody(returnCode, output)) == Ok((returnCode, Normalize(output)))
  {
    AppendParts(Pack([returnCode, |PayloadBytes(output)|]), PayloadBytes(output));
    UnpackPack([returnCode, |PayloadBytes(output)|]);
    assert PayloadBytes(output)[..|PayloadBytes(output)|] == PayloadBytes(output);
  }

  // ---------------------------------------------------------------- where things are on the wire

  /** A message is five words, in this order, and its data. */
  lemma MsgLayout(m: PassThruMsg)
    ensures var b := EncodeMsg(m);
            && WordAt(b, 0) == m.protocolId && WordAt(b, 1) == m.rxStatus && WordAt(b, 2) == m.txFlags
            && WordAt(b, 3) == m.timestamp && WordAt(b, 4) == |m.data| && b[20..] == m.data
  {
    var w := HeaderWords(m);
    forall i | 0 <= i < 5
      ensures WordAt(EncodeMsg(m), i) == w[i]
    {
      PackedWordAt(w, m.data, i);
    }
    AppendParts(Pack(w), m.data);
  }

  lemma TwoWords(a: U32, b: U32, rest: ByteString)
    ensures var s := Pack([a, b]) + rest; WordAt(s, 0) == a && WordAt(s, 1) == b && s[8..] == rest
  {
    PackedWordAt([a, b], rest, 0);
    PackedWordAt([a, b], rest, 1);
    AppendParts(Pack([a, b]), rest);
  }

  lemma ThreeWords(a: U32, b: U32, c: U32, rest: ByteString)
    ensures var s := Pack([a, b, c]) + rest; WordAt(s, 0) == a && WordAt(s, 1) == b && WordAt(s, 2) == c && s[12..] == rest
  {
    PackedWordAt([a, b, c], rest, 0);
    PackedWordAt([a, b, c], rest, 1);
    PackedWordAt([a, b, c], rest, 2);
    AppendParts(Pack([a, b, c]), rest);
  }

  /** Where the bodies with message lists have their words, and what is behind them. */
  lemma ListLayouts(x: U32, y: U32, ms: seq<PassThruMsg>)
    requires |ms| < U32_LIMIT
    ensures var b := ReadMsgsRspBody(x, ms); WordAt(b, 0) == x && WordAt(b, 1) == |ms| && b[8..] == EncodeMsgs(ms)
    ensures var b := WriteMsgsReqBody(x, ms, y);
            WordAt(b, 0) == x && WordAt(b, 1) == |ms| && WordAt(b, 2) == y && b[12..] == EncodeMsgs(ms)
  {
    TwoWords(x, |ms|, EncodeMsgs(ms));
    ThreeWords(x, |ms|, y, EncodeMsgs(ms));
  }

  /** And where the IOCTL bodies have theirs. */
  lemma IoctlLayouts(x: U32, y: U32, data: Payload)
    ensures var b := IoctlReqBody(x, y, data);
            WordAt(b, 0) == x && WordAt(b, 1) == y && WordAt(b, 2) == |PayloadBytes(data)| && b[12..] == PayloadBytes(data)
    ensures var b := IoctlRspBody(x, data);
            WordAt(b, 0) == x && WordAt(b, 1) == |PayloadBytes(data)| && b[8..] == PayloadBytes(data)
  {
    ThreeWords(x, y, |PayloadBytes(data)|, PayloadBytes(data));
    TwoWords(x, |PayloadBytes(data)|, PayloadBytes(data));
  }

  /** A filter request is its channel and type and then its three messages in this order, each behind a flag byte. */
  lemma FilterLayouts(q: FilterRequest, returnCode: U32, filterId: U32)
    ensures var b := StartFilterReqBody(q);
            && WordAt(b, 0) == q.channelId && WordAt(b, 1) == q.filterType
            && b[8..] == EncodeSlot(q.mask) + (EncodeSlot(q.pattern) + EncodeSlot(q.flow))
    ensures forall slot: Option<PassThruMsg> :: EncodeSlot(slot)[0] == if slot.Some? then 1 else 0
    ensures var b := StartFilterRspBody(returnCode, filterId); WordAt(b, 0) == returnCode && WordAt(b, 1) == filterId
  {
    TwoWords(q.channelId, q.filterType, EncodeSlots([q.mask, q.pattern, q.flow]));
    TwoWords(returnCode, filterId, []);
    assert StartFilterRspBody(returnCode, filterId) + [] == StartFilterRspBody(returnCode, filterId);
    assert [q.mask, q.pattern, q.flow][1..] == [q.pattern, q.flow] && [q.pattern, q.flow][1..] == [q.flow];
    assert [q.flow][1..] == [];
    assert EncodeSlots([q.flow]) == EncodeSlot(q.flow) + [];
    assert EncodeSlots([q.pattern, q.flow]) == EncodeSlot(q.pattern) + EncodeSlot(q.flow);
  }

  /** Missing flag bytes mean absent messages, any flag but 0 a present one, which must then be whole. */
  lemma SlotRules(flag: Byte, rest: ByteString)
    ensures ParseSlot([]) == Ok((None, []))
    ensures var r := ParseSlot([flag] + rest);
            if flag == 0 then r == Ok((None, rest))
            else if !StartsWithMsg(rest) then r == Err(ValueError)
            else r.Ok? && r.value.0 == Some(ReadMsg(rest)) && rest == EncodeMsg(ReadMsg(rest)) + r.value.1
  {
    AppendParts([flag], rest);
    if StartsWithMsg(rest) {
      ReadMsgIsPrefix(rest);
    }
  }

  /** Bodies shorter than their fixed part are refused. */
  lemma ShortBodiesAreRefused(b: ByteString)
    ensures |b| < 11 ==> FilterRequestOf(b) == Err(ValueError)
    ensures DecodeIoctlReq(b).Err? <==> |b| < 12
    ensures DecodeIoctlRsp(b).Err? <==> |b| < 8
    ensures DecodeStartFilterRsp(b).Err? <==> |b| < 8
    ensures DecodeReadMsgsRsp(b).Err? <==> |b| < 8
    ensures DecodeWriteMsgsReq(b).Err? <==> |b| < 12
  {
  }

  /** A payload is what there is of the announced length, and none when nothing is announced. */
  lemma PayloadIsClipped(data: ByteString, n: U32)
    ensures TakePayload(data, n).None? <==> n == 0
    ensures PayloadBytes(TakePayload(data, n)) <= data
    ensures |PayloadBytes(TakePayload(data, n))| == if n <= |data| then n else |data|
  {
  }
}
