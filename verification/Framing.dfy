/**
 Frames on a byte stream: the server's bounded frame reader (vci_proxy/reverse_server.py), the
 timing trailer the client appends (vci_proxy/benchmark.py), and the whole path of one response
 from the client's handler to the DLL.
 */
module Framing {
  import opened Common
  import opened Bytes
  import opened Protocol

  const MAX_FRAME_BODY_BYTES: nat := 1_000_000
  const TIMING_MAGIC: U32 := 0x544D4530
  const TIMING_TRAILER_SIZE: nat := 12

  /** How long the server waits for the answer to a forwarded request, in seconds. */
  const FUTURE_TIMEOUT: real := 30.0

  // ---------------------------------------------------------------- the frame reader

  /** Why the reading loop stops. */
  datatype Stop = EndOfStream | InvalidMagic | FrameRejected

  datatype ReadOutcome = Got(frame: Frame, rest: ByteString) | Stopped(reason: Stop)

  /** _validated_body_length */
  function ValidatedBodyLength(length: U32): (r: Result<nat>)
    ensures r.Ok? <==> HEADER_SIZE <= length <= HEADER_SIZE + MAX_FRAME_BODY_BYTES
    ensures r.Ok? ==> r.value == length - HEADER_SIZE
  {
    if length < HEADER_SIZE then Err(ValueError)
    else if length - HEADER_SIZE > MAX_FRAME_BODY_BYTES then Err(ValueError)
    else Ok(length - HEADER_SIZE)
  }

  /** One round of the server's reading loop on what is left of the stream. */
  function ReadFrame(s: ByteString): (r: ReadOutcome)
    ensures r.Got? ==> |r.rest| < |s|
  {
    if |s| < HEADER_SIZE then Stopped(EndOfStream)
    else if Unpack32(s[0..4]) != MAGIC then Stopped(InvalidMagic)
    else
      match ValidatedBodyLength(Unpack32(s[4..8]))
      case Err(_) => Stopped(FrameRejected)
      case Ok(n) =>
        if HEADER_SIZE + n > |s| then Stopped(FrameRejected)
        else Got(Frame(Unpack16(s[8..10]), Unpack32(s[10..14]), s[14..14 + n]), s[14 + n..])
  }

  /** All frames read before the loop stops, and why it stopped. */
  function ReadAll(s: ByteString): (seq<Frame>, Stop)
    decreases |s|
  {
    match ReadFrame(s)
    case Stopped(reason) => ([], reason)
    case Got(f, rest) => var (fs, reason) := ReadAll(rest); ([f] + fs, reason)
  }

  method ReadLoop(stream: ByteString) returns (frames: seq<Frame>, reason: Stop)
    ensures (frames, reason) == ReadAll(stream)
  {
    frames, reason := [], EndOfStream;
    var left := stream;
    assert [] + ReadAll(stream).0 == ReadAll(stream).0;
    while true
      invariant ReadAll(stream) == (frames + ReadAll(left).0, ReadAll(left).1)
      decreases |left|
    {
      match ReadFrame(left)
      case Stopped(why) =>
        assert frames + [] == frames;
        return frames, why;
      case Got(f, rest) =>
        assert ReadAll(left) == ([f] + ReadAll(rest).0, ReadAll(rest).1);
        assert frames + ([f] + ReadAll(rest).0) == frames + [f] + ReadAll(rest).0;
        frames, left := frames + [f], rest;
    }
  }

  predicate Acceptable(f: Frame) {
    |f.body| <= MAX_FRAME_BODY_BYTES
  }

  function StreamBytes(frames: seq<Frame>): ByteString
    requires forall f <- frames :: FitsFrame(f.body)
  {
    if frames == [] then [] else FrameBytes(frames[0]) + StreamBytes(frames[1..])
  }

  lemma ReadEncodedFrame(f: Frame, rest: ByteString)
    requires FitsFrame(f.body)
    ensures ReadFrame(FrameBytes(f) + rest) == if Acceptable(f) then Got(f, rest) else Stopped(FrameRejected)
  {
    var s := FrameBytes(f) + rest;
    assert s == HeaderBytes(HEADER_SIZE + |f.body|, f.msgType, f.sequence) + (f.body + rest);
    HeaderFields(HEADER_SIZE + |f.body|, f.msgType, f.sequence, f.body + rest);
    assert s[14..14 + |f.body|] == f.body && s[14 + |f.body|..] == rest;
  }

  lemma ReadAllAfterFrame(f: Frame, rest: ByteString)
    requires FitsFrame(f.body) && Acceptable(f)
    ensures ReadAll(FrameBytes(f) + rest) == ([f] + ReadAll(rest).0, ReadAll(rest).1)
  {
    ReadEncodedFrame(f, rest);
  }

  /** Parsing a concatenation of encoded frames gives back the frames. */
  lemma {:induction false} StreamRoundTrip(frames: seq<Frame>, rest: ByteString)
    requires forall f <- frames :: FitsFrame(f.body) && Acceptable(f)
    ensures ReadAll(StreamBytes(frames) + rest) == (frames + ReadAll(rest).0, ReadAll(rest).1)
  {
    if frames == [] {
      assert StreamBytes(frames) + rest == rest && frames + ReadAll(rest).0 == ReadAll(rest).0;
    } else {
      var f, more := frames[0], frames[1..];
      var read := ReadAll(rest).0;
      StreamRoundTrip(more, rest);
      ReadAllAfterFrame(f, StreamBytes(more) + rest);
      assert StreamBytes(frames) + rest == FrameBytes(f) + (StreamBytes(more) + rest);
      ConsAppend(frames, read);
    }
  }

  /** The first frame over the bound ends the stream: nothing behind it is read. */
  lemma OversizedFrameStopsStream(frames: seq<Frame>, big: Frame, rest: ByteString)
    requires forall f <- frames :: FitsFrame(f.body) && Acceptable(f)
    requires FitsFrame(big.body) && !Acceptable(big)
    ensures ReadAll(StreamBytes(frames) + FrameBytes(big) + rest) == (frames, FrameRejected)
  {
    assert StreamBytes(frames) + FrameBytes(big) + rest == StreamBytes(frames) + (FrameBytes(big) + rest);
    StreamRoundTrip(frames, FrameBytes(big) + rest);
    ReadEncodedFrame(big, rest);
    assert frames + [] == frames;
  }

  lemma HeaderIsWhole(s: ByteString)
    requires |s| >= HEADER_SIZE && Unpack32(s[0..4]) == MAGIC
    ensures s == HeaderBytes(Unpack32(s[4..8]), Unpack16(s[8..10]), Unpack32(s[10..14])) + s[14..]
  {
    PackUnpack32(s[0..4]);
    PackUnpack32(s[4..8]);
    PackUnpack16(s[8..10]);
    PackUnpack32(s[10..14]);
    assert s == s[0..4] + s[4..8] + s[8..10] + s[10..14] + s[14..];
  }

  lemma MagicBytes(s: ByteString)
    requires |s| >= 4
    ensures Unpack32(s[0..4]) == MAGIC <==> s[..4] == [0x4A, 0x32, 0x53, 0x34]
  {
    assert s[0..4] == s[..4];
    PackUnpack32(s[0..4]);
  }

  /** What is read from arbitrary bytes: a frame within the bound whose encoding the bytes begin with, or why there is none. */
  lemma ReadFrameIsExact(s: ByteString)
    ensures match ReadFrame(s)
            case Got(f, rest) => |f.body| <= 1_000_000 && s == FrameBytes(f) + rest
            case Stopped(EndOfStream) => |s| < 14
            case Stopped(InvalidMagic) => |s| >= 14 && s[..4] != [0x4A, 0x32, 0x53, 0x34]
            case Stopped(FrameRejected) =>
              |s| >= 14 && s[..4] == [0x4A, 0x32, 0x53, 0x34] &&
              var length := Unpack32(s[4..8]); length < 14 || length > 1_000_014 || length > |s|
  {
    if |s| >= HEADER_SIZE {
      MagicBytes(s);
      if ReadFrame(s).Got? {
        var f := ReadFrame(s).frame;
        HeaderIsWhole(s);
        assert s[14..] == f.body + s[14 + |f.body|..];
        AppendAssoc(HeaderBytes(HEADER_SIZE + |f.body|, f.msgType, f.sequence), f.body, s[14 + |f.body|..]);
      }
    }
  }

  /** The reading loop loses nothing: the bytes are the frames it read and a rest that begins with none. */
  lemma {:induction false} ReadAllIsExact(s: ByteString) returns (rest: ByteString)
    ensures forall f <- ReadAll(s).0 :: FitsFrame(f.body) && Acceptable(f)
    ensures s == StreamBytes(ReadAll(s).0) + rest && ReadFrame(rest) == Stopped(ReadAll(s).1)
    decreases |s|
  {
    ReadFrameIsExact(s);
    match ReadFrame(s)
    case Stopped(_) =>
      rest := s;
      assert [] + s == s;
    case Got(f, more) =>
      rest := ReadAllIsExact(more);
      var fs := ReadAll(more).0;
      assert ([f] + fs)[1..] == fs;
      AppendAssoc(FrameBytes(f), StreamBytes(fs), rest);
  }

  /** Bytes that do not begin with the magic end the stream, and nothing behind them is read. */
  lemma WrongMagicStopsStream(frames: seq<Frame>, bad: ByteString)
    requires forall f <- frames :: FitsFrame(f.body) && Acceptable(f)
    requires |bad| >= 14 && bad[..4] != [0x4A, 0x32, 0x53, 0x34]
    ensures ReadAll(StreamBytes(frames) + bad) == (frames, InvalidMagic)
  {
    StreamRoundTrip(frames, bad);
    MagicBytes(bad);
    assert frames + [] == frames;
  }

  // ---------------------------------------------------------------- the timing trailer

  /** A trailer carries an IEEE double, here its eight bytes. */
  type Double = b: ByteString | |b| == 8 witness [0, 0, 0, 0, 0, 0, 0, 0]

  function Trailer(hwMs: Double): (t: ByteString)
    ensures |t| == TIMING_TRAILER_SIZE
  {
    Pack32(TIMING_MAGIC) + hwMs
  }

  function AttachTimingTrailer(response: ByteString, hwMs: Double): Result<ByteString> {
    if |response| < HEADER_SIZE then Ok(response)
    else
      var newLength := Unpack32(response[4..8]) + TIMING_TRAILER_SIZE;
      if newLength >= U32_LIMIT then Err(StructError)
      else Ok(response[..4] + Pack32(newLength) + response[8..] + Trailer(hwMs))
  }

  function StripTimingTrailer(body: ByteString): (r: (ByteString, Option<Double>))
    ensures body == r.0 + if r.1.Some? then Trailer(r.1.value) else []
  {
    var n := |body|;
    if n < TIMING_TRAILER_SIZE then (body, None)
    else if Unpack32(body[n - 12..n - 8]) != TIMING_MAGIC then (body, None)
    else
      PackUnpack32(body[n - 12..n - 8]);
      assert body == body[..n - 12] + (body[n - 12..n - 8] + body[n - 8..]);
      (body[..n - 12], Some(body[n - 8..]))
  }

  lemma StripRemovesTrailer(body: ByteString, hwMs: Double)
    ensures StripTimingTrailer(body + Trailer(hwMs)) == (body, Some(hwMs))
  {
    var b := body + Trailer(hwMs);
    assert b[|b| - 12..|b| - 8] == Pack32(TIMING_MAGIC);
    UnpackPack32(TIMING_MAGIC);
    assert b[..|b| - 12] == body && b[|b| - 8..] == hwMs;
  }

  /** Attaching to a frame gives the frame whose body is extended by the trailer. */
  lemma AttachExtendsBody(f: Frame, hwMs: Double)
    requires FitsFrame(f.body)
    ensures AttachTimingTrailer(FrameBytes(f), hwMs) == EncodeFrame(f.(body := f.body + Trailer(hwMs)))
  {
    var b := FrameBytes(f);
    HeaderFields(HEADER_SIZE + |f.body|, f.msgType, f.sequence, f.body);
    if FitsFrame(f.body + Trailer(hwMs)) {
      var l := HEADER_SIZE + |f.body| + TIMING_TRAILER_SIZE;
      var tail := Pack16(f.msgType) + Pack32(f.sequence) + f.body;
      assert b == Pack32(MAGIC) + Pack32(HEADER_SIZE + |f.body|) + tail;
      assert b[..4] == Pack32(MAGIC) && b[8..] == tail;
      assert HeaderBytes(l, f.msgType, f.sequence) + (f.body + Trailer(hwMs)) ==
             Pack32(MAGIC) + Pack32(l) + tail + Trailer(hwMs);
    }
  }

  /** What is too short to have a header passes as it is. */
  lemma ShortResponsePasses(response: ByteString, hwMs: Double)
    ensures |response| < 14 ==> AttachTimingTrailer(response, hwMs) == Ok(response)
  {
  }

  // ---------------------------------------------------------------- one response, end to end

  /** What the server writes to the DLL when `arriving` comes in from the tunnel for request `dllSequence`. */
  function RelayToDll(arriving: ByteString, dllSequence: U32): Result<ByteString> {
    match ReadFrame(arriving)
    case Stopped(_) => Err(ValueError)
    case Got(f, _) => EncodeFrame(Frame(f.msgType, dllSequence, StripTimingTrailer(f.body).0))
  }

  /**
   On a cache miss the bytes the DLL gets are the client handler's response with the four sequence
   bytes replaced, and this holds exactly for bodies that leave room for the trailer in the frame bound.
   */
  lemma ByteTransparency(response: Frame, hwMs: Double, dllSequence: U32, rest: ByteString)
    requires FitsFrame(response.body + Trailer(hwMs))
    ensures var sent := AttachTimingTrailer(FrameBytes(response), hwMs);
            var handled := FrameBytes(response);
            && sent.Ok?
            && (RelayToDll(sent.value + rest, dllSequence).Ok? <==>
                |response.body| + TIMING_TRAILER_SIZE <= MAX_FRAME_BODY_BYTES)
            && (RelayToDll(sent.value + rest, dllSequence).Ok? ==>
                RelayToDll(sent.value + rest, dllSequence) ==
                Ok(handled[..10] + Pack32(dllSequence) + handled[14..]))
  {
    AttachExtendsBody(response, hwMs);
    var carried := response.(body := response.body + Trailer(hwMs));
    ReadEncodedFrame(carried, rest);
    StripRemovesTrailer(response.body, hwMs);
    var handled := FrameBytes(response);
    var front := Pack32(MAGIC) + Pack32(HEADER_SIZE + |response.body|) + Pack16(response.msgType);
    assert handled == front + Pack32(response.sequence) + response.body;
    assert handled[..10] == front && handled[14..] == response.body;
  }
}
