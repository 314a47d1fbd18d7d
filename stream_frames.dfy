/**
 * stream-frames.cpp: after the HTTP set-up, the program accepts one TCP
 * connection and reads length-prefixed frames from it until a read comes up
 * short.
 *
 * The socket is a finite byte stream with a read position (what the sender
 * sends, in order; the end of the stream is where the connection closes).
 * The host is little-endian: the 4-byte length that `readData` stores into a
 * uint32_t is decoded least significant byte first.
 */
module StreamFrames {
  import opened Wrappers
  import opened SensorPackage
  import opened ImageResultFormat

  type u32 = n: int | 0 <= n < 0x1_0000_0000

  /** kMaxFrameBytes = 128u << 20. */
  const MaxFrameBytes: u32 := 128 * 0x10_0000

  /** The size of the length prefix, sizeof(uint32_t). */
  const PrefixBytes: nat := 4

  /** A length the loop goes on to read a body for. */
  predicate LengthAccepted(n: u32) {
    n != 0 && n <= MaxFrameBytes
  }

  /** The uint32_t `readData` fills from 4 bytes, on a little-endian host. */
  function DecodeLE32(b: seq<byte>): u32
    requires |b| == 4
  {
    b[0] as int + 0x100 * b[1] as int + 0x1_0000 * b[2] as int + 0x100_0000 * b[3] as int
  }

  /** The 4 bytes the loop writes ahead of the body: `(n >> 8k) & 0xFF` for k = 0..3. */
  function EncodeLE32(n: u32): (b: seq<byte>)
    ensures |b| == 4
  {
    [n % 0x100, n / 0x100 % 0x100, n / 0x1_0000 % 0x100, n / 0x100_0000 % 0x100]
  }

  /** Writing a length out and reading it back gives the same length. */
  lemma DecodeEncode(n: u32)
    ensures DecodeLE32(EncodeLE32(n)) == n
  {
    var q1 := n / 0x100;
    var q2 := q1 / 0x100;
    var q3 := q2 / 0x100;
    assert n == q1 * 0x100 + n % 0x100;
    assert q1 == q2 * 0x100 + q1 % 0x100;
    assert q2 == q3 * 0x100 + q2 % 0x100;
    assert n / 0x1_0000 == q2;
    assert n / 0x100_0000 == q3;
    assert q3 < 0x100;
  }

  /** Reading 4 wire bytes as a length and writing it out again gives the wire bytes back. */
  lemma EncodeDecode(b: seq<byte>)
    requires |b| == 4
    ensures EncodeLE32(DecodeLE32(b)) == b
  {
    var n := DecodeLE32(b);
    var t1: int := b[1] as int + 0x100 * b[2] as int + 0x1_0000 * b[3] as int;
    var t2: int := b[2] as int + 0x100 * b[3] as int;
    assert n == b[0] as int + 0x100 * t1;
    assert n % 0x100 == b[0] && n / 0x100 == t1;
    assert t1 % 0x100 == b[1] && t1 / 0x100 == t2;
    assert t2 % 0x100 == b[2] && t2 / 0x100 == b[3];
    assert n / 0x1_0000 == t2;
    assert n / 0x100_0000 == b[3];
  }

  /** The buffer of 4 + n bytes the loop builds: the length written out, then the body. */
  function FrameBuffer(n: u32, body: seq<byte>): seq<byte> {
    EncodeLE32(n) + body
  }

  /** What the loop logs for one iteration that does not end it. */
  datatype FrameEvent =
    | LengthRejected(length: u32)
    | FrameRead(length: u32, outcome: DecodeOutcome)

  /** One iteration, from a read position: the loop ends, or it logs an event and goes on from `next`. */
  datatype Step = Halt | Advance(event: FrameEvent, next: nat)

  /** The length prefix at `pos`. */
  function PrefixAt(stream: seq<byte>, pos: nat): u32
    requires pos + PrefixBytes <= |stream|
  {
    DecodeLE32(stream[pos..pos + PrefixBytes])
  }

  /**
   * One iteration of the `for (;;)` loop. A rejected length consumes its 4
   * bytes and nothing more: no body is read, so the next iteration takes the
   * following 4 bytes for a length whatever the sender meant them to be. An
   * accepted length consumes exactly 4 + n bytes, and the buffer the decoder
   * sees is exactly those wire bytes.
   */
  function StepAt(stream: seq<byte>, pos: nat, parse: Parser): (s: Step)
    requires pos <= |stream|
    ensures s.Advance? ==> pos + PrefixBytes <= s.next <= |stream|
    ensures pos + PrefixBytes > |stream| ==> s == Halt
    ensures pos + PrefixBytes <= |stream| && !LengthAccepted(PrefixAt(stream, pos)) ==>
              s == Advance(LengthRejected(PrefixAt(stream, pos)), pos + PrefixBytes)
    ensures pos + PrefixBytes <= |stream| && LengthAccepted(PrefixAt(stream, pos)) ==>
              var n := PrefixAt(stream, pos);
              (s.Halt? <==> pos + PrefixBytes + n > |stream|) &&
              (s.Advance? ==> s == Advance(FrameRead(n, Classify(stream[pos..pos + PrefixBytes + n], parse)), pos + PrefixBytes + n))
  {
    if pos + PrefixBytes > |stream| then Halt
    else
      var n := PrefixAt(stream, pos);
      if n == 0 || n > MaxFrameBytes then Advance(LengthRejected(n), pos + PrefixBytes)
      else if pos + PrefixBytes + n > |stream| then Halt
      else
        var body := stream[pos + PrefixBytes..pos + PrefixBytes + n];
        EncodeDecode(stream[pos..pos + PrefixBytes]);
        assert FrameBuffer(n, body) == stream[pos..pos + PrefixBytes + n];
        Advance(FrameRead(n, Classify(FrameBuffer(n, body), parse)), pos + PrefixBytes + n)
  }

  /** Every event the loop logs from `pos` until a short read ends it. */
  function Trace(stream: seq<byte>, pos: nat, parse: Parser): seq<FrameEvent>
    requires pos <= |stream|
    decreases |stream| - pos
  {
    match StepAt(stream, pos, parse)
    case Halt => []
    case Advance(e, next) => [e] + Trace(stream, next, parse)
  }

  /** The bytes one event consumed from the stream. */
  function Consumed(e: FrameEvent): nat {
    match e
    case LengthRejected(_) => PrefixBytes
    case FrameRead(n, _) => PrefixBytes + n
  }

  function TotalConsumed(events: seq<FrameEvent>): nat {
    if events == [] then 0 else Consumed(events[0]) + TotalConsumed(events[1..])
  }

  /** The frames that reach "Frame #k": identifier, verification and metadata all passed. */
  function DecodedCount(events: seq<FrameEvent>): nat {
    if events == [] then 0
    else (if events[0].FrameRead? && events[0].outcome.Ok? then 1 else 0) + DecodedCount(events[1..])
  }

  lemma DecodedCountAppend(a: seq<FrameEvent>, b: seq<FrameEvent>)
    ensures DecodedCount(a + b) == DecodedCount(a) + DecodedCount(b)
  {
    if a == [] {
      assert a + b == b;
    } else {
      assert (a + b)[0] == a[0] && (a + b)[1..] == a[1..] + b;
      DecodedCountAppend(a[1..], b);
    }
  }

  /**
   * The loop reads the stream frame by frame and never past a frame boundary:
   * the events account for the bytes consumed, and the loop ends only where
   * the next read comes up short. Wrong identifiers, failed verification and
   * rejected lengths never end it.
   */
  lemma {:induction false} TraceEndsAtShortRead(stream: seq<byte>, pos: nat, parse: Parser)
    requires pos <= |stream|
    ensures pos + TotalConsumed(Trace(stream, pos, parse)) <= |stream|
    ensures StepAt(stream, pos + TotalConsumed(Trace(stream, pos, parse)), parse).Halt?
    decreases |stream| - pos
  {
    match StepAt(stream, pos, parse)
    case Halt =>
    case Advance(e, next) =>
      TraceEndsAtShortRead(stream, next, parse);
      var events := Trace(stream, pos, parse);
      assert events == [e] + Trace(stream, next, parse);
      assert events[1..] == Trace(stream, next, parse);
      assert Consumed(e) == next - pos;
  }

  /** A frame shorter than 8 bytes is classified WrongId by the length-checked identifier test. */
  lemma ShortFrameIsWrongId(stream: seq<byte>, pos: nat, parse: Parser)
    requires pos + PrefixBytes <= |stream|
    requires LengthAccepted(PrefixAt(stream, pos)) && PrefixAt(stream, pos) < IdentifiedLength - PrefixBytes
    requires pos + PrefixBytes + PrefixAt(stream, pos) <= |stream|
    ensures StepAt(stream, pos, parse) == Advance(FrameRead(PrefixAt(stream, pos), WrongId), pos + PrefixBytes + PrefixAt(stream, pos))
  {
  }

  /**
   * The code as written hands a 5-byte buffer to the identifier read, which
   * needs 12: the stream 01 00 00 00 2A carries an accepted length of 1.
   */
  lemma ShortFrameReachesIdentifierRead(parse: Parser)
    ensures var stream: seq<byte> := [1, 0, 0, 0, 0x2A];
            PrefixAt(stream, 0) == 1 && LengthAccepted(1) &&
            StepAt(stream, 0, parse).Advance? &&
            |FrameBuffer(1, stream[4..5])| == 5 < IdentifiedLength
  {
    var stream: seq<byte> := [1, 0, 0, 0, 0x2A];
    assert stream[0..4] == [1, 0, 0, 0];
  }

  /**
   * The identifier is read 8 bytes into the buffer, after the size prefix and
   * the root offset. A body of 8 bytes that starts with "OSSP" but does not
   * repeat it at offset 4 is therefore skipped as WrongId, never verified, and
   * the next length is read from byte 12.
   */
  lemma IdentifierFollowsRootOffset(tail: seq<byte>, rest: seq<byte>, parse: Parser)
    requires |tail| == 4 && tail != FileIdentifier
    ensures var stream := [8, 0, 0, 0] + FileIdentifier + tail + rest;
            StepAt(stream, 0, parse) == Advance(FrameRead(8, WrongId), 12)
  {
    var stream := [8, 0, 0, 0] + FileIdentifier + tail + rest;
    assert stream[0..4] == [8, 0, 0, 0];
    assert stream[0..12][8..12] == tail;
  }

  /** The accepted TCP connection, as the frame loop sees it. */
  class FrameSocket {
    /** Every byte the sender sends, in order; the connection closes after the last. */
    const stream: seq<byte>
    /** How many bytes the program has read so far. */
    var position: nat
    var isOpen: bool

    ghost predicate Valid()
      reads this
    {
      position <= |stream|
    }

    constructor (stream: seq<byte>)
      ensures this.stream == stream && position == 0 && isOpen && Valid()
    {
      this.stream := stream;
      position := 0;
      isOpen := true;
    }

    /**
     * readData: boost::asio::read of exactly n bytes into buffer[offset..].
     * When fewer than n bytes remain, the read takes what is left and fails.
     */
    method ReadData(buffer: array<byte>, offset: nat, n: nat) returns (ok: bool)
      requires Valid() && offset + n <= buffer.Length
      modifies this`position, buffer
      ensures Valid()
      ensures ok <==> old(position) + n <= |stream|
      ensures ok ==> position == old(position) + n
      ensures ok ==> buffer[offset..offset + n] == stream[old(position)..position]
      ensures ok ==> buffer[..offset] == old(buffer[..offset])
      ensures buffer[offset + n..] == old(buffer[offset + n..])
      ensures !ok ==> position == |stream|
    {
      if position + n <= |stream| {
        forall i | 0 <= i < n {
          buffer[offset + i] := stream[position + i];
        }
        position := position + n;
        ok := true;
      } else {
        position := |stream|;
        ok := false;
      }
    }

    /** frameSocket.shutdown(...) and close(...). */
    method Close()
      modifies this`isOpen
      ensures !isOpen
    {
      isOpen := false;
    }
  }

  /** Lines 214-218: read 4 bytes into the uint32_t payloadLength. */
  method ReadLength(sock: FrameSocket) returns (ok: bool, payloadLength: u32)
    requires sock.Valid()
    modifies sock`position
    ensures sock.Valid()
    ensures ok <==> old(sock.position) + PrefixBytes <= |sock.stream|
    ensures ok ==> sock.position == old(sock.position) + PrefixBytes &&
                   payloadLength == PrefixAt(sock.stream, old(sock.position))
    ensures !ok ==> sock.position == |sock.stream|
  {
    var lengthBytes := new byte[PrefixBytes];
    ok := sock.ReadData(lengthBytes, 0, PrefixBytes);
    payloadLength := DecodeLE32(lengthBytes[..]);
  }

  /**
   * Lines 225-234: allocate 4 + n bytes, write the length into the first four
   * least significant byte first, and read the body into the rest. The 4
   * bytes just read from the socket held n.
   */
  method ReadPayload(sock: FrameSocket, payloadLength: u32) returns (ok: bool, payload: seq<byte>)
    requires sock.Valid() && PrefixBytes <= sock.position
    requires DecodeLE32(sock.stream[sock.position - PrefixBytes..sock.position]) == payloadLength
    modifies sock`position
    ensures sock.Valid()
    ensures ok <==> old(sock.position) + payloadLength <= |sock.stream|
    ensures ok ==> sock.position == old(sock.position) + payloadLength &&
                   payload == sock.stream[old(sock.position) - PrefixBytes..sock.position]
    ensures !ok ==> sock.position == |sock.stream|
  {
    ghost var pos := sock.position - PrefixBytes;
    var buffer := new byte[PrefixBytes + payloadLength];
    buffer[0] := payloadLength % 0x100;
    buffer[1] := payloadLength / 0x100 % 0x100;
    buffer[2] := payloadLength / 0x1_0000 % 0x100;
    buffer[3] := payloadLength / 0x100_0000 % 0x100;
    assert buffer[..PrefixBytes] == EncodeLE32(payloadLength);
    EncodeDecode(sock.stream[pos..pos + PrefixBytes]);
    ok := sock.ReadData(buffer, PrefixBytes, payloadLength);
    payload := buffer[..];
    if ok {
      assert payload == buffer[..PrefixBytes] + buffer[PrefixBytes..PrefixBytes + payloadLength];
      assert sock.stream[pos..sock.position] == sock.stream[pos..pos + PrefixBytes] + sock.stream[pos + PrefixBytes..sock.position];
    }
  }

  /**
   * One pass through the body of the `for (;;)` loop (lines 214-258): read a
   * length, skip it if rejected, otherwise read the body and classify the
   * buffer. The result is the step StepAt takes from the same position, and
   * the socket ends where that step says.
   */
  method ReadFrame(sock: FrameSocket, parse: Parser) returns (step: Step)
    requires sock.Valid()
    modifies sock`position
    ensures sock.Valid()
    ensures step == StepAt(sock.stream, old(sock.position), parse)
    ensures step.Advance? ==> sock.position == step.next
    ensures step.Halt? ==> sock.position == |sock.stream|
  {
    ghost var pos := sock.position;
    var ok, payloadLength := ReadLength(sock);
    if !ok {
      return Halt;
    }
    if payloadLength == 0 || payloadLength > MaxFrameBytes {
      return Advance(LengthRejected(payloadLength), sock.position);
    }
    var payload;
    ok, payload := ReadPayload(sock, payloadLength);
    if !ok {
      return Halt;
    }
    var outcome := Classify(payload, parse);
    return Advance(FrameRead(payloadLength, outcome), sock.position);
  }

  /**
   * The `for (;;)` loop of lines 213-267: the events it logs are the trace of
   * the stream from where it starts, it reads the stream to its end, and
   * frameIndex counts the frames that passed every check.
   */
  method FrameLoop(sock: FrameSocket, parse: Parser) returns (events: seq<FrameEvent>, frameIndex: nat)
    requires sock.Valid()
    modifies sock`position
    ensures sock.Valid() && sock.position == |sock.stream|
    ensures events == Trace(sock.stream, old(sock.position), parse)
    ensures frameIndex == DecodedCount(events)
  {
    events := [];
    frameIndex := 0;
    ghost var start := sock.position;
    ghost var stream := sock.stream;
    while true
      invariant sock.Valid() && sock.stream == stream
      invariant events + Trace(stream, sock.position, parse) == Trace(stream, start, parse)
      invariant frameIndex == DecodedCount(events)
      decreases |stream| - sock.position
    {
      ghost var pos := sock.position;
      ghost var before := events;
      var step := ReadFrame(sock, parse);
      if step.Halt? {
        break;
      }
      var event := step.event;
      events := events + [event];
      if event.FrameRead? && event.outcome.Ok? {
        frameIndex := frameIndex + 1;
      }
      DecodedCountAppend(before, [event]);
      TraceAdvance(stream, start, pos, parse, before);
    }
  }

  /** One logged event keeps the loop invariant of FrameLoop. */
  lemma TraceAdvance(stream: seq<byte>, start: nat, pos: nat, parse: Parser, before: seq<FrameEvent>)
    requires start <= |stream| && pos <= |stream|
    requires StepAt(stream, pos, parse).Advance?
    requires before + Trace(stream, pos, parse) == Trace(stream, start, parse)
    ensures (before + [StepAt(stream, pos, parse).event]) + Trace(stream, StepAt(stream, pos, parse).next, parse) ==
            Trace(stream, start, parse)
  {
    var step := StepAt(stream, pos, parse);
    var rest := Trace(stream, step.next, parse);
    assert Trace(stream, pos, parse) == [step.event] + rest;
    assert (before + [step.event]) + rest == before + ([step.event] + rest);
  }

  /**
   * main() of stream-frames.cpp: query the cameras, choose one, start
   * continuous capture with it, ask for frames to be streamed, then run the
   * frame loop on the accepted connection and close it.
   *
   * `startCapture` is the reply to the start-continuous-image-capture request
   * for a camera id, `captureSucceeded` the "success" member of that reply's
   * JSON body (false when absent), `startStream` the reply to
   * start-stream-frames.
   */
  method StreamFramesMain(camerasReply: Option<HttpResponse>, cameraList: CameraList,
                          startCapture: string -> Option<HttpResponse>, captureSucceeded: seq<byte> -> bool,
                          startStream: Option<HttpResponse>, sock: FrameSocket, parse: Parser)
    returns (exit: ExitStatus, events: seq<FrameEvent>, frameIndex: nat)
    requires sock.Valid()
    modifies sock
    ensures !ReplyOk(camerasReply) || !HasCameras(cameraList) ==>
              exit == ExitFailure && events == [] && sock.position == old(sock.position)
    ensures ReplyOk(camerasReply) && HasCameras(cameraList) && cameraList.entries[0].None? ==>
              exit == AbnormalTermination && events == []
    ensures exit == AbnormalTermination <==>
              ReplyOk(camerasReply) && HasCameras(cameraList) && cameraList.entries[0].None?
    ensures exit == ExitSuccess <==>
              ReplyOk(camerasReply) && HasCameras(cameraList) && cameraList.entries[0].Some? &&
              var id := PreferredOr(cameraList.entries, cameraList.entries[0].value);
              id != "" && ReplyOk(startCapture(id)) && captureSucceeded(startCapture(id).value.body) &&
              ReplyOk(startStream)
    ensures exit == ExitSuccess ==>
              events == Trace(sock.stream, old(sock.position), parse) && frameIndex == DecodedCount(events) &&
              sock.position == |sock.stream| && !sock.isOpen
    ensures exit != ExitSuccess ==>
              events == [] && frameIndex == 0 && sock.position == old(sock.position) && sock.isOpen == old(sock.isOpen)
  {
    events, frameIndex := [], 0;
    if !(camerasReply.Some? && camerasReply.value.statusCode == 200) {
      return ExitFailure, events, frameIndex;
    }
    if !(cameraList.CameraArray? && cameraList.entries != []) {
      return ExitFailure, events, frameIndex;
    }
    var choice := ChooseCamera(cameraList.entries);
    if choice.FrontNotAnObject? {
      return AbnormalTermination, events, frameIndex;
    }
    if choice.id == "" {
      return ExitFailure, events, frameIndex;
    }
    var captureReply := startCapture(choice.id);
    if !(captureReply.Some? && captureReply.value.statusCode == 200) {
      return ExitFailure, events, frameIndex;
    }
    if !captureSucceeded(captureReply.value.body) {
      return ExitFailure, events, frameIndex;
    }
    if !(startStream.Some? && startStream.value.statusCode == 200) {
      return ExitFailure, events, frameIndex;
    }
    events, frameIndex := FrameLoop(sock, parse);
    sock.Close();
    return ExitSuccess, events, frameIndex;
  }
}
