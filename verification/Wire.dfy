/** The binary envelope of a carrier frame, and DATA fragmentation on top of it. */
module Wire {
  import opened Options

  type Byte = x: int | 0 <= x < 256

  const HEADER_BYTES: nat := 16
  const PROTOCOL_VERSION: Byte := 1
  const MAX_PAYLOAD: nat := 0xffff
  const MAX_UINT32: nat := 0xffff_ffff
  const MAX_DATA_CHUNK: nat := 32 * 1024

  datatype FrameType =
    | Ping | Pong | Hello | SessionProvisioned | SessionConfig | ConfigApplied | SessionActive | OpenProbe
    | ConnectionError | OpenHttp | ResponseHeaders | Data | EndStream | WindowUpdate | ResetStream | CloseSession

  datatype Envelope = Envelope(frame: FrameType, flags: int, generation: int, streamId: int, payload: seq<Byte>)

  datatype DecodeError =
    | FrameTooShort | MagicInvalid | VersionUnsupported | FrameTypeUnknown | FlagsUnsupported | ReservedNonzero
    | LengthMismatch | PayloadUnexpected | StreamIdInvalid

  datatype Decoded = Ok(envelope: Envelope) | Err(error: DecodeError)

  function Code(frame: FrameType): Byte {
    match frame
    case Ping => 1
    case Pong => 2
    case Hello => 3
    case SessionProvisioned => 4
    case SessionConfig => 5
    case ConfigApplied => 6
    case SessionActive => 7
    case OpenProbe => 8
    case ConnectionError => 9
    case OpenHttp => 10
    case ResponseHeaders => 11
    case Data => 12
    case EndStream => 13
    case WindowUpdate => 14
    case ResetStream => 15
    case CloseSession => 20
  }

  function FromCode(code: Byte): (frame: Option<FrameType>)
    ensures frame.Some? ==> Code(frame.value) == code
    ensures forall known: FrameType :: Code(known) == code ==> frame == Some(known)
  {
    if code == 1 then Some(Ping)
    else if code == 2 then Some(Pong)
    else if code == 3 then Some(Hello)
    else if code == 4 then Some(SessionProvisioned)
    else if code == 5 then Some(SessionConfig)
    else if code == 6 then Some(ConfigApplied)
    else if code == 7 then Some(SessionActive)
    else if code == 8 then Some(OpenProbe)
    else if code == 9 then Some(ConnectionError)
    else if code == 10 then Some(OpenHttp)
    else if code == 11 then Some(ResponseHeaders)
    else if code == 12 then Some(Data)
    else if code == 13 then Some(EndStream)
    else if code == 14 then Some(WindowUpdate)
    else if code == 15 then Some(ResetStream)
    else if code == 20 then Some(CloseSession)
    else None
  }

  predicate IsControl(frame: FrameType) {
    || frame.Ping? || frame.Pong? || frame.Hello? || frame.SessionProvisioned? || frame.SessionConfig?
    || frame.ConfigApplied? || frame.SessionActive? || frame.ConnectionError? || frame.CloseSession?
  }

  predicate NeedsEmptyPayload(frame: FrameType) {
    frame.Ping? || frame.Pong? || frame.EndStream? || frame.CloseSession?
  }

  /** Control frames travel on stream 0, all others on a positive stream. */
  predicate StreamIdFits(frame: FrameType, streamId: int) {
    IsControl(frame) <==> streamId == 0
  }

  /** What the encoder accepts. */
  predicate Valid(e: Envelope) {
    && e.flags == 0
    && 0 <= e.generation <= MAX_UINT32 && 0 <= e.streamId <= MAX_UINT32
    && StreamIdFits(e.frame, e.streamId)
    && (NeedsEmptyPayload(e.frame) ==> e.payload == [])
    && |e.payload| <= MAX_PAYLOAD
  }

  // -------------------------------------------------------------- big endian

  /** The lowest `width` bytes of a number, most significant first. */
  function Digits(n: nat, width: nat): (bytes: seq<Byte>)
    ensures |bytes| == width
  {
    if width == 0 then [] else Digits(n / 256, width - 1) + [n % 256]
  }

  function Shifted(high: int, low: int): int {
    high * 256 + low
  }

  function Number(bytes: seq<Byte>): nat {
    if bytes == [] then 0 else Shifted(Number(bytes[..|bytes| - 1]), bytes[|bytes| - 1])
  }

  function Capacity(width: nat): nat {
    if width == 0 then 1 else 256 * Capacity(width - 1)
  }

  lemma {:induction false} NumberFits(bytes: seq<Byte>)
    ensures Number(bytes) < Capacity(|bytes|)
  {
    if bytes != [] {
      NumberFits(bytes[..|bytes| - 1]);
    }
  }

  lemma {:induction false} NumberOfDigits(n: nat, width: nat)
    requires n < Capacity(width)
    ensures Number(Digits(n, width)) == n
  {
    if width > 0 {
      NumberOfDigits(n / 256, width - 1);
      assert Digits(n, width)[..width - 1] == Digits(n / 256, width - 1);
    }
  }

  lemma {:induction false} DigitsOfNumber(bytes: seq<Byte>)
    ensures Digits(Number(bytes), |bytes|) == bytes
  {
    if bytes != [] {
      var rest := bytes[..|bytes| - 1];
      DigitsOfNumber(rest);
      assert Number(bytes) / 256 == Number(rest) && Number(bytes) % 256 == bytes[|bytes| - 1];
      assert bytes == rest + [bytes[|bytes| - 1]];
    }
  }

  lemma Capacities()
    ensures Capacity(2) == MAX_PAYLOAD + 1 && Capacity(4) == MAX_UINT32 + 1
  {
    assert Capacity(1) == 256;
    assert Capacity(3) == 256 * Capacity(2);
  }

  // ------------------------------------------------------------------ codec

  function Encoded(e: Envelope): (bytes: seq<Byte>)
    requires Valid(e)
    ensures |bytes| == HEADER_BYTES + |e.payload|
  {
    [0x52, 0x54, PROTOCOL_VERSION, Code(e.frame), 0, 0]
    + Digits(e.generation, 4) + Digits(e.streamId, 4) + Digits(|e.payload|, 2) + e.payload
  }

  function Decode(bytes: seq<Byte>): Decoded {
    if |bytes| < HEADER_BYTES then Err(FrameTooShort)
    else if bytes[0] != 0x52 || bytes[1] != 0x54 then Err(MagicInvalid)
    else if bytes[2] != PROTOCOL_VERSION then Err(VersionUnsupported)
    else if FromCode(bytes[3]).None? then Err(FrameTypeUnknown)
    else if bytes[4] != 0 then Err(FlagsUnsupported)
    else if bytes[5] != 0 then Err(ReservedNonzero)
    else
      var frame := FromCode(bytes[3]).value;
      var generation := Number(bytes[6..10]);
      var streamId := Number(bytes[10..14]);
      var payloadLength := Number(bytes[14..16]);
      if |bytes| != HEADER_BYTES + payloadLength then Err(LengthMismatch)
      else if !StreamIdFits(frame, streamId) then Err(StreamIdInvalid)
      else if NeedsEmptyPayload(frame) && payloadLength != 0 then Err(PayloadUnexpected)
      else Ok(Envelope(frame, 0, generation, streamId, bytes[HEADER_BYTES..]))
  }

  lemma HeaderFields(e: Envelope)
    requires Valid(e)
    ensures var bytes := Encoded(e);
            && bytes[..6] == [0x52, 0x54, PROTOCOL_VERSION, Code(e.frame), 0, 0]
            && Number(bytes[6..10]) == e.generation && Number(bytes[10..14]) == e.streamId
            && Number(bytes[14..16]) == |e.payload| && bytes[HEADER_BYTES..] == e.payload
  {
    var bytes := Encoded(e);
    assert bytes[6..10] == Digits(e.generation, 4);
    assert bytes[10..14] == Digits(e.streamId, 4);
    assert bytes[14..16] == Digits(|e.payload|, 2);
    Capacities();
    NumberOfDigits(e.generation, 4);
    NumberOfDigits(e.streamId, 4);
    NumberOfDigits(|e.payload|, 2);
  }

  /** The numbers that the frame types travel as. */
  lemma TypeCodes()
    ensures Code(Ping) == 1 && Code(Pong) == 2 && Code(Hello) == 3 && Code(SessionProvisioned) == 4
    ensures Code(SessionConfig) == 5 && Code(ConfigApplied) == 6 && Code(SessionActive) == 7 && Code(OpenProbe) == 8
    ensures Code(ConnectionError) == 9 && Code(OpenHttp) == 10 && Code(ResponseHeaders) == 11 && Code(Data) == 12
    ensures Code(EndStream) == 13 && Code(WindowUpdate) == 14 && Code(ResetStream) == 15 && Code(CloseSession) == 20
  {
  }

  /** Which envelopes can travel at all. */
  lemma ValidIsExact(e: Envelope)
    ensures Valid(e) <==>
              && e.flags == 0 && 0 <= e.generation < 0x1_0000_0000 && 0 <= e.streamId < 0x1_0000_0000
              && (e.streamId == 0 <==>
                    e.frame in {Ping, Pong, Hello, SessionProvisioned, SessionConfig, ConfigApplied, SessionActive,
                                ConnectionError, CloseSession})
              && (e.frame in {Ping, Pong, EndStream, CloseSession} ==> |e.payload| == 0)
              && |e.payload| < 0x1_0000
  {
  }

  /** Four bytes as a number, the most significant first. */
  ghost function BigEndian(a: int, b: int, c: int, d: int): int {
    a * 0x100_0000 + b * 0x1_0000 + c * 0x100 + d
  }

  lemma NumberOfTwo(bytes: seq<Byte>)
    requires |bytes| == 2
    ensures Number(bytes) == BigEndian(0, 0, bytes[0], bytes[1])
  {
    assert bytes[..1][..0] == [] && bytes[..1][0] == bytes[0];
    assert Number(bytes[..1]) == bytes[0];
  }

  lemma NumberOfFour(bytes: seq<Byte>)
    requires |bytes| == 4
    ensures Number(bytes) == BigEndian(bytes[0], bytes[1], bytes[2], bytes[3])
  {
    NumberOfTwo(bytes[..2]);
    assert bytes[..3][..2] == bytes[..2] && bytes[..3][2] == bytes[2];
    assert Number(bytes[..3]) == Number(bytes[..2]) * 0x100 + bytes[2];
  }

  /** Where every field of an encoded frame lies, in which byte order, and what the fixed bytes are. */
  lemma FrameLayout(e: Envelope)
    requires Valid(e)
    ensures var b := Encoded(e);
            && |b| == 16 + |e.payload| && b[0] == 0x52 && b[1] == 0x54 && b[2] == 1 && b[4] == 0 && b[5] == 0
            && FromCode(b[3]) == Some(e.frame)
            && e.generation == BigEndian(b[6], b[7], b[8], b[9])
            && e.streamId == BigEndian(b[10], b[11], b[12], b[13])
            && |e.payload| == BigEndian(0, 0, b[14], b[15]) && b[16..] == e.payload
  {
    var b := Encoded(e);
    HeaderFields(e);
    assert forall i | 0 <= i < 6 :: b[i] == b[..6][i];
    NumberOfFour(b[6..10]);
    NumberOfFour(b[10..14]);
    NumberOfTwo(b[14..16]);
  }

  /** The fixed part of the header is as it should be, up to the given check. */
  ghost predicate Passes(b: seq<Byte>, checks: nat) {
    && (checks >= 1 ==> |b| >= 16)
    && (|b| >= 16 ==>
          && (checks >= 2 ==> b[0] == 0x52 && b[1] == 0x54)
          && (checks >= 3 ==> b[2] == 1)
          && (checks >= 4 ==> b[3] in {1, 2, 3, 4, 5, 6, 7, 8, 9, 10, 11, 12, 13, 14, 15, 20})
          && (checks >= 5 ==> b[4] == 0)
          && (checks >= 6 ==> b[5] == 0)
          && (checks >= 7 ==> |b| == 16 + BigEndian(0, 0, b[14], b[15])))
  }

  /** A frame is refused for the first of its header checks that it fails. */
  lemma DecodeAnswers(b: seq<Byte>)
    ensures Decode(b) == Err(FrameTooShort) <==> !Passes(b, 1)
    ensures Decode(b) == Err(MagicInvalid) <==> Passes(b, 1) && !Passes(b, 2)
    ensures Decode(b) == Err(VersionUnsupported) <==> Passes(b, 2) && !Passes(b, 3)
    ensures Decode(b) == Err(FrameTypeUnknown) <==> Passes(b, 3) && !Passes(b, 4)
    ensures Decode(b) == Err(FlagsUnsupported) <==> Passes(b, 4) && !Passes(b, 5)
    ensures Decode(b) == Err(ReservedNonzero) <==> Passes(b, 5) && !Passes(b, 6)
    ensures Decode(b) == Err(LengthMismatch) <==> Passes(b, 6) && !Passes(b, 7)
    ensures Decode(b).Ok? || Decode(b) == Err(StreamIdInvalid) || Decode(b) == Err(PayloadUnexpected) <==> Passes(b, 7)
  {
    if |b| >= 16 {
      NumberOfTwo(b[14..16]);
    }
  }

  /** Every envelope the encoder accepts comes back whole. */
  lemma DecodeEncoded(e: Envelope)
    requires Valid(e)
    ensures Decode(Encoded(e)) == Ok(e)
  {
    HeaderFields(e);
    var bytes := Encoded(e);
    assert forall i | 0 <= i < 6 :: bytes[i] == bytes[..6][i];
  }

  lemma EncodedFromParts(e: Envelope, bytes: seq<Byte>)
    requires Valid(e) && |bytes| >= HEADER_BYTES
    requires bytes[..6] == [0x52, 0x54, PROTOCOL_VERSION, Code(e.frame), 0, 0]
    requires bytes[6..10] == Digits(e.generation, 4) && bytes[10..14] == Digits(e.streamId, 4)
    requires bytes[14..16] == Digits(|e.payload|, 2) && bytes[16..] == e.payload
    ensures Encoded(e) == bytes
  {
    assert bytes == bytes[..6] + bytes[6..10] + bytes[10..14] + bytes[14..16] + bytes[16..];
  }

  /** Every frame the decoder accepts is the encoding of what it decoded. */
  lemma EncodeDecoded(bytes: seq<Byte>, e: Envelope)
    requires Decode(bytes) == Ok(e)
    ensures Valid(e) && Encoded(e) == bytes
  {
    Capacities();
    NumberFits(bytes[6..10]);
    NumberFits(bytes[10..14]);
    NumberFits(bytes[14..16]);
    DigitsOfNumber(bytes[6..10]);
    DigitsOfNumber(bytes[10..14]);
    DigitsOfNumber(bytes[14..16]);
    EncodedFromParts(e, bytes);
  }

  /** The decoder accepts exactly what the encoder can produce, and distinct envelopes encode differently. */
  lemma DecoderAcceptsTheImage(bytes: seq<Byte>)
    ensures Decode(bytes).Ok? <==> exists e: Envelope :: Valid(e) && Encoded(e) == bytes
    ensures forall e: Envelope, f: Envelope | Valid(e) && Valid(f) && Encoded(e) == bytes && Encoded(f) == bytes ::
              e == f
  {
    if Decode(bytes).Ok? {
      EncodeDecoded(bytes, Decode(bytes).envelope);
    }
    forall e: Envelope | Valid(e) && Encoded(e) == bytes ensures Decode(bytes) == Ok(e) {
      DecodeEncoded(e);
    }
  }

  /** The encoder fills one buffer in place, field by field. */
  method EncodeEnvelope(e: Envelope) returns (output: Option<array<Byte>>)
    ensures output.Some? <==> Valid(e)
    ensures output.Some? ==> fresh(output.value) && output.value[..] == Encoded(e)
  {
    if e.flags != 0 || e.generation < 0 || e.generation > MAX_UINT32 || e.streamId < 0 || e.streamId > MAX_UINT32
       || !StreamIdFits(e.frame, e.streamId)
       || (NeedsEmptyPayload(e.frame) && |e.payload| != 0)
       || |e.payload| > MAX_PAYLOAD {
      return None;
    }
    var buffer := new Byte[HEADER_BYTES + |e.payload|](_ => 0);
    WriteHeader(buffer, e);
    CopyPayload(buffer, e.payload);
    assert buffer[..] == Encoded(e)[..HEADER_BYTES] + e.payload;
    assert Encoded(e) == Encoded(e)[..HEADER_BYTES] + e.payload;
    return Some(buffer);
  }

  method WriteHeader(buffer: array<Byte>, e: Envelope)
    requires Valid(e) && buffer.Length >= HEADER_BYTES && forall i | 0 <= i < HEADER_BYTES :: buffer[i] == 0
    modifies buffer
    ensures buffer[..HEADER_BYTES] == Encoded(e)[..HEADER_BYTES]
  {
    buffer[0], buffer[1] := 0x52, 0x54;
    buffer[2] := PROTOCOL_VERSION;
    buffer[3] := Code(e.frame);
    WriteUint32(buffer, 6, e.generation);
    assert buffer[..10] == [0x52, 0x54, PROTOCOL_VERSION, Code(e.frame), 0, 0] + Digits(e.generation, 4);
    WriteUint32(buffer, 10, e.streamId);
    assert buffer[..14] == buffer[..10] + Digits(e.streamId, 4);
    var length := Digits(|e.payload|, 2);
    buffer[14], buffer[15] := length[0], length[1];
    assert buffer[..HEADER_BYTES] == buffer[..14] + length;
  }

  method CopyPayload(buffer: array<Byte>, payload: seq<Byte>)
    requires buffer.Length == HEADER_BYTES + |payload|
    modifies buffer
    ensures buffer[..] == old(buffer[..HEADER_BYTES]) + payload
  {
    var i := 0;
    while i < |payload|
      invariant 0 <= i <= |payload|
      invariant buffer[..HEADER_BYTES] == old(buffer[..HEADER_BYTES])
      invariant buffer[HEADER_BYTES..HEADER_BYTES + i] == payload[..i]
    {
      buffer[HEADER_BYTES + i] := payload[i];
      i := i + 1;
    }
    assert buffer[..] == buffer[..HEADER_BYTES] + buffer[HEADER_BYTES..];
  }

  method WriteUint32(buffer: array<Byte>, k: nat, n: nat)
    requires k + 4 <= buffer.Length
    modifies buffer
    ensures buffer[..] == old(buffer[..k]) + Digits(n, 4) + old(buffer[k + 4..])
  {
    var bytes := Digits(n, 4);
    buffer[k], buffer[k + 1], buffer[k + 2], buffer[k + 3] := bytes[0], bytes[1], bytes[2], bytes[3];
  }

  // ----------------------------------------------------------- fragmentation

  /** The payloads of a run of frames, one after another; a frame that does not decode contributes nothing. */
  function Reassembled(frames: seq<seq<Byte>>): seq<Byte> {
    if frames == [] then []
    else
      var last := Decode(frames[|frames| - 1]);
      Reassembled(frames[..|frames| - 1]) + if last.Ok? then last.envelope.payload else []
  }

  function Smaller(a: nat, b: nat): nat {
    if a <= b then a else b
  }

  /** One sent frame: DATA of this stream, within its grant and the fragment limit. */
  predicate IsFragment(frame: seq<Byte>, generation: int, streamId: int, grant: nat) {
    && Decode(frame).Ok?
    && var e := Decode(frame).envelope;
       && e.frame == Data && e.generation == generation && e.streamId == streamId
       && 1 <= |e.payload| <= MAX_DATA_CHUNK && |e.payload| <= grant
  }

  lemma FragmentIsSent(generation: int, streamId: int, payload: seq<Byte>, grant: nat)
    requires 1 <= |payload| <= MAX_DATA_CHUNK && |payload| <= grant
    requires Valid(Envelope(Data, 0, generation, streamId, payload))
    ensures var frame := Encoded(Envelope(Data, 0, generation, streamId, payload));
            IsFragment(frame, generation, streamId, grant) && Decode(frame).envelope.payload == payload
  {
    DecodeEncoded(Envelope(Data, 0, generation, streamId, payload));
  }

  lemma {:induction false} ReassembledGrows(frames: seq<seq<Byte>>, frame: seq<Byte>)
    requires Decode(frame).Ok?
    ensures Reassembled(frames + [frame]) == Reassembled(frames) + Decode(frame).envelope.payload
  {
    assert (frames + [frame])[..|frames|] == frames;
  }

  /** The header of a DATA frame can be encoded. */
  predicate Addressable(generation: int, streamId: int) {
    0 <= generation <= MAX_UINT32 && 1 <= streamId <= MAX_UINT32
  }

  method SendFrame(generation: int, streamId: int, payload: seq<Byte>, ghost grant: nat)
    returns (frame: Option<seq<Byte>>)
    requires 1 <= |payload| <= MAX_DATA_CHUNK && |payload| <= grant
    ensures frame.Some? <==> Addressable(generation, streamId)
    ensures frame.Some? ==>
              && IsFragment(frame.value, generation, streamId, grant)
              && Decode(frame.value).Ok? && Decode(frame.value).envelope.payload == payload
  {
    var e := Envelope(Data, 0, generation, streamId, payload);
    if !Valid(e) {
      return None;
    }
    FragmentIsSent(generation, streamId, payload, grant);
    return Some(Encoded(e));
  }

  ghost predicate Fragments(frames: seq<seq<Byte>>, generation: int, streamId: int, grants: seq<nat>) {
    |frames| <= |grants| && forall k | 0 <= k < |frames| :: IsFragment(frames[k], generation, streamId, grants[k])
  }

  lemma {:induction false} FragmentsGrow(
    frames: seq<seq<Byte>>, frame: seq<Byte>, generation: int, streamId: int, grants: seq<nat>)
    requires Fragments(frames, generation, streamId, grants) && |frames| < |grants|
    requires IsFragment(frame, generation, streamId, grants[|frames|])
    ensures Fragments(frames + [frame], generation, streamId, grants)
  {
    var more := frames + [frame];
    forall k | 0 <= k < |more| ensures IsFragment(more[k], generation, streamId, grants[k]) {
      assert more[k] == if k < |frames| then frames[k] else frame;
    }
  }

  /** One more frame carries the next bytes of the chunk. */
  lemma {:induction false} ChunkGrows(
    frames: seq<seq<Byte>>, frame: seq<Byte>, chunk: seq<Byte>, offset: nat, bytes: nat)
    requires offset + bytes <= |chunk| && Reassembled(frames) == chunk[..offset]
    requires Decode(frame).Ok? && Decode(frame).envelope.payload == chunk[offset..offset + bytes]
    ensures Reassembled(frames + [frame]) == chunk[..offset + bytes]
  {
    ReassembledGrows(frames, frame);
    assert chunk[..offset + bytes] == chunk[..offset] + chunk[offset..offset + bytes];
  }

  function PayloadBytes(frame: seq<Byte>): nat {
    if Decode(frame).Ok? then |Decode(frame).envelope.payload| else 0
  }

  /** Every frame uses up its grant or is as large as a frame may be, except one that finishes the chunk. */
  ghost predicate Full(frames: seq<seq<Byte>>, grants: seq<nat>, finished: bool) {
    |frames| <= |grants| &&
    forall k | 0 <= k < |frames| ::
      || PayloadBytes(frames[k]) == grants[k] || PayloadBytes(frames[k]) == MAX_DATA_CHUNK
      || (k == |frames| - 1 && finished)
  }

  lemma {:induction false} FullGrows(
    frames: seq<seq<Byte>>, frame: seq<Byte>, grants: seq<nat>, finished: bool)
    requires Full(frames, grants, false) && |frames| < |grants|
    requires || PayloadBytes(frame) == grants[|frames|] || PayloadBytes(frame) == MAX_DATA_CHUNK || finished
    ensures Full(frames + [frame], grants, finished)
  {
    var more := frames + [frame];
    forall k | 0 <= k < |more| ensures more[k] == if k < |frames| then frames[k] else frame {
    }
  }

  /** What has been sent of the chunk so far. */
  ghost predicate Sent(
    frames: seq<seq<Byte>>, offset: nat, chunk: seq<Byte>, generation: int, streamId: int, grants: seq<nat>)
  {
    && |frames| <= offset <= |chunk| && Reassembled(frames) == chunk[..offset]
    && Fragments(frames, generation, streamId, grants) && Full(frames, grants, offset == |chunk|)
  }

  lemma {:induction false} SentGrows(
    frames: seq<seq<Byte>>, frame: seq<Byte>, offset: nat, bytes: nat, chunk: seq<Byte>, generation: int, streamId: int,
    grants: seq<nat>)
    requires Sent(frames, offset, chunk, generation, streamId, grants) && |frames| < |grants| && offset < |chunk|
    requires bytes == Smaller(grants[|frames|], Smaller(MAX_DATA_CHUNK, |chunk| - offset)) >= 1
    requires IsFragment(frame, generation, streamId, grants[|frames|])
    requires Decode(frame).Ok? && Decode(frame).envelope.payload == chunk[offset..offset + bytes]
    ensures Sent(frames + [frame], offset + bytes, chunk, generation, streamId, grants)
  {
    FragmentsGrow(frames, frame, generation, streamId, grants);
    ChunkGrows(frames, frame, chunk, offset, bytes);
    FullGrows(frames, frame, grants, offset + bytes == |chunk|);
  }

  /**
   The sending loop under any positive grants: what was sent decodes to DATA
   frames of the stream, as large as grant and frame limit let them be and none
   above 32 KiB, that put together are the chunk, or its beginning when the grants
   gave out.
   */
  method SendFlowControlledData(generation: int, streamId: int, chunk: seq<Byte>, grants: seq<nat>)
    returns (frames: seq<seq<Byte>>, offset: nat)
    requires forall k | 0 <= k < |grants| :: grants[k] >= 1
    ensures offset <= |chunk| && Reassembled(frames) == chunk[..offset]
    ensures Fragments(frames, generation, streamId, grants) && Full(frames, grants, offset == |chunk|)
    ensures Addressable(generation, streamId) && |grants| >= |chunk| ==> offset == |chunk|
    ensures !Addressable(generation, streamId) ==> frames == []
  {
    frames, offset := [], 0;
    while offset < |chunk| && |frames| < |grants|
      invariant Sent(frames, offset, chunk, generation, streamId, grants)
      invariant !Addressable(generation, streamId) ==> frames == []
      decreases |chunk| - offset
    {
      var bytes := Smaller(grants[|frames|], Smaller(MAX_DATA_CHUNK, |chunk| - offset));
      var frame := SendFrame(generation, streamId, chunk[offset..offset + bytes], grants[|frames|]);
      if frame.None? {
        return;
      }
      SentGrows(frames, frame.value, offset, bytes, chunk, generation, streamId, grants);
      frames := frames + [frame.value];
      offset := offset + bytes;
    }
  }
}
