/** MAVLink v2 framing: `EncodeFrame` and `DecodeFrame` of pkg/mavlink/messages.go. */
module Frame {
  import opened Wrappers
  import opened Crc

  const MAGIC_V2: byte := 0xFD
  const HEADER_LEN: nat := 10
  const CHECKSUM_LEN: nat := 2
  const MAX_PACKET_LEN: nat := 267

  const MSG_HEARTBEAT: bv32 := 0
  const MSG_SYS_STATUS: bv32 := 1
  const MSG_ATTITUDE: bv32 := 30
  const MSG_GLOBAL_POSITION_INT: bv32 := 33
  const MSG_COMMAND_LONG: bv32 := 76
  const MSG_COMMAND_ACK: bv32 := 77

  datatype Frame = Frame(
    payloadLength: byte,
    incompatFlags: byte,
    compatFlags: byte,
    sequence: byte,
    systemId: byte,
    componentId: byte,
    messageId: bv32,
    payload: seq<byte>,
    checksum: bv16)

  datatype FrameError = TooShort | BadMagic | Truncated | CrcMismatch | PayloadTooLong

  /** `GetCRCExtra`. */
  function CrcExtra(messageId: bv32): Option<byte> {
    if messageId == MSG_HEARTBEAT then Some(50)
    else if messageId == MSG_SYS_STATUS then Some(124)
    else if messageId == MSG_ATTITUDE then Some(39)
    else if messageId == MSG_GLOBAL_POSITION_INT then Some(104)
    else if messageId == MSG_COMMAND_LONG then Some(152)
    else if messageId == MSG_COMMAND_ACK then Some(143)
    else None
  }

  predicate Known(messageId: bv32) {
    CrcExtra(messageId).Some?
  }

  /** Checksum of everything between the magic byte and the checksum itself. */
  function Checksum(body: seq<byte>, messageId: bv32): bv16 {
    var crc := AccumulatedBytes(CRC_SEED, body);
    match CrcExtra(messageId)
    case Some(extra) => Accumulated(crc, extra)
    case None => crc
  }

  // ---------------------------------------------------------------- fixed-width integers on the wire

  function Uint16(low: byte, high: byte): bv16 {
    (low as bv16) | ((high as bv16) << 8)
  }

  function Uint24(b0: byte, b1: byte, b2: byte): bv32 {
    (b0 as bv32) | ((b1 as bv32) << 8) | ((b2 as bv32) << 16)
  }

  function IdBytes(id: bv32): (b: seq<byte>)
    ensures |b| == 3
  {
    [(id & 0xFF) as byte, ((id >> 8) & 0xFF) as byte, ((id >> 16) & 0xFF) as byte]
  }

  lemma Uint16OfBytes(v: bv16)
    ensures Uint16(LowByte(v), HighByte(v)) == v
  {}

  lemma BytesOfUint16(low: byte, high: byte)
    ensures LowByte(Uint16(low, high)) == low && HighByte(Uint16(low, high)) == high
  {}

  lemma Uint24OfBytes(id: bv32)
    ensures Uint24(IdBytes(id)[0], IdBytes(id)[1], IdBytes(id)[2]) == id & 0xFF_FFFF
  {}

  lemma BytesOfUint24(b0: byte, b1: byte, b2: byte)
    ensures IdBytes(Uint24(b0, b1, b2)) == [b0, b1, b2]
    ensures Uint24(b0, b1, b2) < 0x100_0000
  {}

  lemma IdFits(id: bv32)
    ensures id & 0xFF_FFFF == id <==> id < 0x100_0000
  {}

  // ---------------------------------------------------------------- decoding

  function Header(f: Frame): (h: seq<byte>)
    ensures |h| == HEADER_LEN
  {
    [MAGIC_V2, f.payloadLength, f.incompatFlags, f.compatFlags, f.sequence, f.systemId, f.componentId]
    + IdBytes(f.messageId)
  }

  lemma HeaderPlaces(f: Frame)
    ensures
      var h, id := Header(f), IdBytes(f.messageId);
      && h[0] == MAGIC_V2 && h[1] == f.payloadLength && h[2] == f.incompatFlags && h[3] == f.compatFlags
      && h[4] == f.sequence && h[5] == f.systemId && h[6] == f.componentId
      && h[7] == id[0] && h[8] == id[1] && h[9] == id[2]
  {
    hide IdBytes;
  }

  /** The bytes that the checksum covers: all between the magic byte and the checksum itself. */
  function Body(f: Frame): (b: seq<byte>)
    ensures |b| == HEADER_LEN - 1 + |f.payload|
  {
    Header(f)[1..] + f.payload
  }

  /** A frame laid out as a packet. */
  function Wire(f: Frame): (w: seq<byte>)
    ensures |w| == HEADER_LEN + |f.payload| + CHECKSUM_LEN
  {
    Header(f) + f.payload + [LowByte(f.checksum), HighByte(f.checksum)]
  }

  function PacketLen(lengthByte: byte): (n: nat)
    ensures n <= MAX_PACKET_LEN
  {
    HEADER_LEN + lengthByte as nat + CHECKSUM_LEN
  }

  /** The fields of the packet at the start of data, checksum not yet verified. */
  function Fields(data: seq<byte>): Frame
    requires |data| >= HEADER_LEN + CHECKSUM_LEN && |data| >= PacketLen(data[1])
  {
    var end := HEADER_LEN + data[1] as nat;
    Frame(data[1], data[2], data[3], data[4], data[5], data[6],
          Uint24(data[7], data[8], data[9]), data[HEADER_LEN..end], Uint16(data[end], data[end + 1]))
  }

  function Decoded(data: seq<byte>): Result<Frame, FrameError> {
    if |data| < HEADER_LEN + CHECKSUM_LEN then Err(TooShort)
    else if data[0] != MAGIC_V2 then Err(BadMagic)
    else if |data| < PacketLen(data[1]) then Err(Truncated)
    else
      var f := Fields(data);
      var body := data[1..HEADER_LEN + data[1] as nat];
      if Known(f.messageId) && Checksum(body, f.messageId) != f.checksum then Err(CrcMismatch)
      else Ok(f)
  }

  /** The checksum steps that `DecodeFrame` and `EncodeFrame` share. */
  method ComputeChecksum(body: seq<byte>, messageId: bv32) returns (checksum: bv16)
    ensures checksum == Checksum(body, messageId)
  {
    hide AccumulatedBytes, Accumulated, CrcExtra;
    var crc := new X25CRC();
    crc.AccumulateBytes(body);
    var extra := CrcExtra(messageId);
    if extra.Some? {
      crc.Accumulate(extra.value);
    }
    checksum := crc.crc;
  }

  method DecodeFrame(data: seq<byte>) returns (r: Result<Frame, FrameError>)
    ensures r == Decoded(data)
  {
    hide Checksum, CrcExtra;
    if |data| < HEADER_LEN + CHECKSUM_LEN {
      return Err(TooShort);
    }
    if data[0] != MAGIC_V2 {
      return Err(BadMagic);
    }
    var payloadLen := data[1] as nat;
    if |data| < HEADER_LEN + payloadLen + CHECKSUM_LEN {
      return Err(Truncated);
    }
    var frame := Fields(data);
    if CrcExtra(frame.messageId).Some? {
      var computed := ComputeChecksum(data[1..HEADER_LEN + payloadLen], frame.messageId);
      if computed != frame.checksum {
        return Err(CrcMismatch);
      }
    }
    return Ok(frame);
  }

  // ---------------------------------------------------------------- encoding

  /** The frame `EncodeFrame` writes; its checksum covers the untruncated message ID's extra byte. */
  function Outgoing(systemId: byte, componentId: byte, sequence: byte, messageId: bv32, payload: seq<byte>): Frame
    requires |payload| <= 255
  {
    var f := Frame(ByteOf(|payload|), 0, 0, sequence, systemId, componentId, messageId, payload, 0);
    f.(checksum := Checksum(Body(f), messageId))
  }

  function Encoded(systemId: byte, componentId: byte, sequence: byte, messageId: bv32, payload: seq<byte>)
    : Result<seq<byte>, FrameError>
  {
    if |payload| > 255 then Err(PayloadTooLong)
    else Ok(Wire(Outgoing(systemId, componentId, sequence, messageId, payload)))
  }

  /** `copy(buf[at:], bytes)`. */
  method CopyInto(buf: array<byte>, at: nat, bytes: seq<byte>)
    requires at + |bytes| <= buf.Length
    modifies buf
    ensures buf[..] == old(buf[..at]) + bytes + old(buf[at + |bytes|..])
  {
    forall i | 0 <= i < |bytes| {
      buf[at + i] := bytes[i];
    }
  }

  lemma OutgoingLayout(systemId: byte, componentId: byte, sequence: byte, messageId: bv32, payload: seq<byte>)
    requires |payload| <= 255
    ensures
      var f := Outgoing(systemId, componentId, sequence, messageId, payload);
      && f.checksum == Checksum(Body(f), messageId)
      && f.payloadLength == ByteOf(|payload|) && f.payloadLength as nat == |payload|
      && f == Frame(f.payloadLength, 0, 0, sequence, systemId, componentId, messageId, payload, f.checksum)
  {
    hide Checksum, IdBytes, ByteOf;
  }

  /** A buffer of packet size that starts with the header and the payload. */
  method StartPacket(header: seq<byte>, payload: seq<byte>) returns (buf: array<byte>)
    requires |header| == HEADER_LEN
    ensures fresh(buf) && buf.Length == HEADER_LEN + |payload| + CHECKSUM_LEN
    ensures buf[..HEADER_LEN + |payload|] == header + payload
    ensures buf[1..HEADER_LEN + |payload|] == header[1..] + payload
  {
    buf := new byte[HEADER_LEN + |payload| + CHECKSUM_LEN](_ => 0);
    CopyInto(buf, 0, header);
    ghost var first := buf[..HEADER_LEN];
    CopyInto(buf, HEADER_LEN, payload);
    assert first == header;
    assert buf[..HEADER_LEN + |payload|] == first + payload;
    assert buf[1..HEADER_LEN + |payload|] == buf[..HEADER_LEN + |payload|][1..];
  }

  method EncodeFrame(systemId: byte, componentId: byte, sequence: byte, messageId: bv32, payload: seq<byte>)
    returns (r: Result<array<byte>, FrameError>)
    ensures r.Ok? ==> fresh(r.value)
    ensures (match r case Ok(buf) => Ok(buf[..]) case Err(e) => Err(e))
         == Encoded(systemId, componentId, sequence, messageId, payload)
  {
    hide Checksum, LowByte, HighByte, IdBytes, ByteOf, Outgoing;
    var payloadLen := |payload|;
    if payloadLen > 255 {
      return Err(PayloadTooLong);
    }
    var end := HEADER_LEN + payloadLen;
    ghost var f := Outgoing(systemId, componentId, sequence, messageId, payload);
    var header := [MAGIC_V2, ByteOf(payloadLen), 0, 0, sequence, systemId, componentId] + IdBytes(messageId);
    OutgoingLayout(systemId, componentId, sequence, messageId, payload);
    assert header == Header(f);
    PartsOfWire(f);
    hide Header, Wire, Body;
    var buf := StartPacket(header, payload);
    var checksum := ComputeChecksum(buf[1..end], messageId);
    CopyInto(buf, end, [LowByte(checksum), HighByte(checksum)]);
    assert buf[..] == header + payload + [LowByte(checksum), HighByte(checksum)];
    return Ok(buf);
  }

  lemma PartsOfWire(f: Frame)
    ensures Body(f) == Header(f)[1..] + f.payload
    ensures Wire(f) == Header(f) + f.payload + [LowByte(f.checksum), HighByte(f.checksum)]
  {
    hide IdBytes, LowByte, HighByte;
  }

  // ---------------------------------------------------------------- laws

  predicate WellFormed(f: Frame) {
    f.payloadLength as nat == |f.payload| && f.messageId < 0x100_0000
  }

  /** What `DecodeFrame` lets through: every well-formed frame, except a known one whose checksum
      does not fit. */
  predicate Acceptable(f: Frame) {
    WellFormed(f) && (Known(f.messageId) ==> f.checksum == Checksum(Body(f), f.messageId))
  }

  lemma WireSlices(f: Frame, tail: seq<byte>)
    ensures
      var data, end := Wire(f) + tail, HEADER_LEN + |f.payload|;
      && data[..HEADER_LEN] == Header(f)
      && data[HEADER_LEN..end] == f.payload
      && data[1..end] == Body(f)
      && data[end] == LowByte(f.checksum) && data[end + 1] == HighByte(f.checksum)
  {
    hide LowByte, HighByte, Header;
  }

  lemma FieldsOfWire(f: Frame, tail: seq<byte>)
    requires WellFormed(f)
    ensures
      var data := Wire(f) + tail;
      && data[0] == MAGIC_V2
      && PacketLen(data[1]) == |Wire(f)| <= |data|
      && Fields(data) == f
      && data[1..HEADER_LEN + data[1] as nat] == Body(f)
  {
    var data := Wire(f) + tail;
    WireSlices(f, tail);
    HeaderPlaces(f);
    Uint24OfBytes(f.messageId);
    IdFits(f.messageId);
    Uint16OfBytes(f.checksum);
    hide LowByte, HighByte, Uint16, Uint24, IdBytes, Header, Wire, Body;
    assert forall i :: 0 <= i < HEADER_LEN ==> data[i] == data[..HEADER_LEN][i];
  }

  lemma HeaderOfFields(data: seq<byte>)
    requires |data| >= HEADER_LEN + CHECKSUM_LEN && data[0] == MAGIC_V2 && |data| >= PacketLen(data[1])
    ensures Header(Fields(data)) == data[..HEADER_LEN]
    ensures Fields(data).messageId < 0x100_0000
  {
    hide LowByte, HighByte, Uint16, Uint24, IdBytes, Header;
    BytesOfUint24(data[7], data[8], data[9]);
    HeaderPlaces(Fields(data));
    var h, d := Header(Fields(data)), data[..HEADER_LEN];
    assert h[0] == d[0] && h[1] == d[1] && h[2] == d[2] && h[3] == d[3] && h[4] == d[4];
    assert h[5] == d[5] && h[6] == d[6] && h[7] == d[7] && h[8] == d[8] && h[9] == d[9];
  }

  lemma FieldPlaces(data: seq<byte>)
    requires |data| >= HEADER_LEN + CHECKSUM_LEN && |data| >= PacketLen(data[1])
    ensures
      var f, end := Fields(data), HEADER_LEN + data[1] as nat;
      && f.payloadLength == data[1]
      && f.payload == data[HEADER_LEN..end]
      && f.messageId == Uint24(data[7], data[8], data[9])
      && f.checksum == Uint16(data[end], data[end + 1])
  {
    hide Uint16, Uint24;
  }

  lemma BodySlices(data: seq<byte>, end: nat)
    requires HEADER_LEN <= end <= |data|
    ensures data[1..end] == data[..HEADER_LEN][1..] + data[HEADER_LEN..end]
  {}

  lemma PacketSlices(data: seq<byte>, end: nat)
    requires HEADER_LEN <= end && end + CHECKSUM_LEN <= |data|
    ensures data[..end + CHECKSUM_LEN] == data[..HEADER_LEN] + data[HEADER_LEN..end] + [data[end], data[end + 1]]
  {}

  lemma WireOfFields(data: seq<byte>)
    requires |data| >= HEADER_LEN + CHECKSUM_LEN && data[0] == MAGIC_V2 && |data| >= PacketLen(data[1])
    ensures WellFormed(Fields(data))
    ensures Wire(Fields(data)) == data[..PacketLen(data[1])]
    ensures Body(Fields(data)) == data[1..HEADER_LEN + data[1] as nat]
  {
    var f := Fields(data);
    var end := HEADER_LEN + data[1] as nat;
    HeaderOfFields(data);
    FieldPlaces(data);
    PartsOfWire(f);
    hide LowByte, HighByte, Uint16, Uint24, IdBytes, Header, Fields, Wire, Body;
    BytesOfUint16(data[end], data[end + 1]);
    BodySlices(data, end);
    PacketSlices(data, end);
  }

  // ---------------------------------------------------------------- what the checksum is

  /** The all-ones register that every checksum starts from. */
  function Ones(): (r: seq<bool>)
    ensures |r| == 16 && forall i :: 0 <= i < 16 ==> r[i]
  {
    seq(16, _ => true)
  }

  lemma SeedIsOnes()
    ensures RegisterBits(CRC_SEED) == Ones()
  {
    hide RegisterBits;
    RegisterPlaces(CRC_SEED);
  }

  /** The byte that is fed in behind the body, for the messages that have one. */
  function ExtraBytes(messageId: bv32): seq<byte> {
    if CrcExtra(messageId).Some? then [CrcExtra(messageId).value] else []
  }

  lemma ChecksumFeedsExtra(body: seq<byte>, messageId: bv32)
    ensures Checksum(body, messageId) == AccumulatedBytes(CRC_SEED, body + ExtraBytes(messageId))
  {
    hide CrcExtra, Accumulated;
    AccumulatedBytesConcat(CRC_SEED, body, ExtraBytes(messageId));
    if CrcExtra(messageId).Some? {
      var crc, extra := AccumulatedBytes(CRC_SEED, body), CrcExtra(messageId).value;
      assert [extra][1..] == [];
      assert AccumulatedBytes(crc, [extra]) == AccumulatedBytes(Accumulated(crc, extra), []);
    }
  }

  /** Two bytes are the checksum of a body exactly if bit-serial division of the body, the extra byte
      and those two, low byte first, leaves nothing of the all-ones register. */
  lemma ChecksumExactly(body: seq<byte>, messageId: bv32, low: byte, high: byte)
    ensures
      Uint16(low, high) == Checksum(body, messageId)
      <==> Divide(Ones(), Bits(body + ExtraBytes(messageId) + [low, high])) == Zeros(16)
  {
    hide Checksum, ExtraBytes, AccumulatedBytes, RegisterBits, Divide, Bits, LowByte, HighByte, Uint16;
    var fed := body + ExtraBytes(messageId);
    var crc := AccumulatedBytes(CRC_SEED, fed);
    ChecksumFeedsExtra(body, messageId);
    AccumulatedBytesConcat(CRC_SEED, fed, [low, high]);
    OwnBytesLeaveZero(crc, low, high);
    AccumulatedBytesIsDivision(CRC_SEED, fed + [low, high]);
    SeedIsOnes();
    BytesOfUint16(low, high);
    Uint16OfBytes(crc);
  }

  /** Data holding a whole packet of a known message decodes exactly if such a division of its body,
      that message's extra byte and its two checksum bytes leaves nothing. */
  lemma KnownDecodesExactly(data: seq<byte>)
    requires |data| >= HEADER_LEN + CHECKSUM_LEN && data[0] == MAGIC_V2 && |data| >= PacketLen(data[1])
    requires Known(Uint24(data[7], data[8], data[9]))
    ensures
      var end, id := HEADER_LEN + data[1] as nat, Uint24(data[7], data[8], data[9]);
      var fed := data[1..end] + [CrcExtra(id).value] + [data[end], data[end + 1]];
      Decoded(data).Ok? <==> Divide(Ones(), Bits(fed)) == Zeros(16)
  {
    hide Checksum, CrcExtra, Divide, Bits, Uint16, Uint24;
    FieldPlaces(data);
    var end, id := HEADER_LEN + data[1] as nat, Uint24(data[7], data[8], data[9]);
    ChecksumExactly(data[1..end], id, data[end], data[end + 1]);
  }

  /** And what the encoder writes behind the magic byte, the extra byte put in, is such a codeword. */
  lemma EncodedIsCodeword(systemId: byte, componentId: byte, sequence: byte, messageId: bv32, payload: seq<byte>)
    requires |payload| <= 255
    ensures
      var w, end := Encoded(systemId, componentId, sequence, messageId, payload).value, HEADER_LEN + |payload|;
      |w| == end + 2 && Divide(Ones(), Bits(w[1..end] + ExtraBytes(messageId) + w[end..])) == Zeros(16)
  {
    hide Checksum, ExtraBytes, Divide, Bits, Outgoing, Header, LowByte, HighByte, Uint16;
    var f, end := Outgoing(systemId, componentId, sequence, messageId, payload), HEADER_LEN + |payload|;
    OutgoingLayout(systemId, componentId, sequence, messageId, payload);
    WireSlices(f, []);
    assert Wire(f) + [] == Wire(f);
    hide Wire, Body;
    Uint16OfBytes(f.checksum);
    assert Wire(f)[end..] == [LowByte(f.checksum), HighByte(f.checksum)];
    ChecksumExactly(Body(f), messageId, LowByte(f.checksum), HighByte(f.checksum));
  }

  lemma LastByteDecides(c: bv16, a: byte, b: byte)
    ensures AccumulatedBytes(c, [a]) == AccumulatedBytes(c, [b]) <==> a == b
  {
    hide AccumulatedBytes, Bits;
    assert [] + ([a] + []) == [a] && [] + ([b] + []) == [b];
    TwoAdjacentBytesAreABurst([], [a], [b], []);
    if a != b {
      assert [a][0] != [b][0];
      BurstDetected(c, [a], [b], 0);
    }
  }

  /** One body under two known messages has different checksums: each of them has an extra byte of its
      own, so a packet of one is never taken for the other. */
  lemma ExtraTellsMessagesApart(body: seq<byte>, id: bv32, other: bv32)
    requires Known(id) && Known(other)
    ensures Checksum(body, id) == Checksum(body, other) <==> id == other
  {
    ExtrasDiffer(id, other);
    ChecksumFeedsExtra(body, id);
    ChecksumFeedsExtra(body, other);
    hide Checksum, CrcExtra, AccumulatedBytes;
    var a, b := CrcExtra(id).value, CrcExtra(other).value;
    AccumulatedBytesConcat(CRC_SEED, body, [a]);
    AccumulatedBytesConcat(CRC_SEED, body, [b]);
    LastByteDecides(AccumulatedBytes(CRC_SEED, body), a, b);
  }

  lemma ExtrasDiffer(id: bv32, other: bv32)
    requires Known(id) && Known(other)
    ensures CrcExtra(id) == CrcExtra(other) <==> id == other
  {}

  /** Where each field stands on the wire, numbers in little-endian order. */
  lemma WirePlaces(f: Frame)
    ensures
      var w, end := Wire(f), HEADER_LEN + |f.payload|;
      && |w| == end + 2
      && w[0] == 0xFD && w[1] == f.payloadLength && w[2] == f.incompatFlags && w[3] == f.compatFlags
      && w[4] == f.sequence && w[5] == f.systemId && w[6] == f.componentId
      && w[7] as bv32 == f.messageId & 0xFF
      && w[8] as bv32 == (f.messageId >> 8) & 0xFF
      && w[9] as bv32 == (f.messageId >> 16) & 0xFF
      && w[10..end] == f.payload
      && w[end] as bv16 == f.checksum & 0xFF && w[end + 1] as bv16 == f.checksum >> 8
  {
    IdBytesAre(f.messageId);
    HalvesAre(f.checksum);
    HeaderPlaces(f);
    WireSlices(f, []);
    hide Header, IdBytes, LowByte, HighByte;
    var w := Wire(f);
    assert w + [] == w;
    hide Wire, Body;
    assert forall i :: 0 <= i < HEADER_LEN ==> w[i] == w[..HEADER_LEN][i];
  }

  lemma IdBytesAre(id: bv32)
    ensures IdBytes(id)[0] as bv32 == id & 0xFF
    ensures IdBytes(id)[1] as bv32 == (id >> 8) & 0xFF
    ensures IdBytes(id)[2] as bv32 == (id >> 16) & 0xFF
  {}

  lemma HalvesAre(v: bv16)
    ensures LowByte(v) as bv16 == v & 0xFF && HighByte(v) as bv16 == v >> 8
  {}

  // ---------------------------------------------------------------- round trips

  /** The decoder on a packet laid out from a well-formed frame, whatever follows it. */
  lemma DecodedWire(f: Frame, tail: seq<byte>)
    requires WellFormed(f)
    ensures Decoded(Wire(f) + tail) == if Acceptable(f) then Ok(f) else Err(CrcMismatch)
  {
    hide Checksum, CrcExtra, Body;
    FieldsOfWire(f, tail);
    hide Fields;
  }

  /** Accepted data starts with the layout of the frame it decodes to, and that frame is acceptable. */
  lemma DecodedInverts(data: seq<byte>)
    requires Decoded(data).Ok?
    ensures
      var f := Decoded(data).value;
      && Acceptable(f)
      && |Wire(f)| <= |data|
      && Wire(f) == data[..|Wire(f)|]
  {
    hide Checksum, CrcExtra;
    WireOfFields(data);
    hide Fields, Body;
  }

  lemma OutgoingIsAcceptable(systemId: byte, componentId: byte, sequence: byte, messageId: bv32, payload: seq<byte>)
    requires |payload| <= 255 && messageId < 0x100_0000
    ensures Acceptable(Outgoing(systemId, componentId, sequence, messageId, payload))
  {
    hide Checksum, CrcExtra, Outgoing, Body;
    OutgoingLayout(systemId, componentId, sequence, messageId, payload);
  }

  lemma WireDropsHighIdBits(f: Frame)
    ensures Wire(f) == Wire(f.(messageId := f.messageId & 0xFF_FFFF))
  {
    IdBytesDropHigh(f.messageId);
    hide IdBytes, LowByte, HighByte;
  }

  lemma IdBytesDropHigh(id: bv32)
    ensures IdBytes(id) == IdBytes(id & 0xFF_FFFF)
  {}

  lemma MaskedIdFits(id: bv32)
    ensures id & 0xFF_FFFF < 0x100_0000
  {}

  lemma LargeIdIsNotReturned(f: Frame, tail: seq<byte>)
    requires f.payloadLength as nat == |f.payload| && f.messageId >= 0x100_0000
    ensures Decoded(Wire(f) + tail) != Ok(f)
  {
    var id := f.messageId & 0xFF_FFFF;
    MaskedIdFits(f.messageId);
    IdFits(f.messageId);
    WireDropsHighIdBits(f);
    hide Wire, Decoded, Acceptable;
    DecodedWire(f.(messageId := id), tail);
  }

  /** Encoding then decoding returns the very frame, whatever bytes follow, exactly for message IDs
      below 2^24; a larger ID is written without its top byte. */
  lemma RoundTripExactly(systemId: byte, componentId: byte, sequence: byte, messageId: bv32,
                         payload: seq<byte>, tail: seq<byte>)
    requires |payload| <= 255
    ensures
      var packet := Encoded(systemId, componentId, sequence, messageId, payload);
      var f := Outgoing(systemId, componentId, sequence, messageId, payload);
      packet.Ok? && (Decoded(packet.value + tail) == Ok(f) <==> messageId < 0x100_0000)
  {
    hide Wire, Checksum, CrcExtra, Outgoing, Body, Decoded;
    var f := Outgoing(systemId, componentId, sequence, messageId, payload);
    OutgoingLayout(systemId, componentId, sequence, messageId, payload);
    hide WellFormed, Acceptable;
    if messageId < 0x100_0000 {
      OutgoingIsAcceptable(systemId, componentId, sequence, messageId, payload);
      AcceptableIsWellFormed(f);
      DecodedWire(f, tail);
    } else {
      LargeIdIsNotReturned(f, tail);
    }
  }

  lemma AcceptableIsWellFormed(f: Frame)
    requires Acceptable(f)
    ensures WellFormed(f)
  {}

  function Reencoded(f: Frame): Result<seq<byte>, FrameError> {
    Encoded(f.systemId, f.componentId, f.sequence, f.messageId, f.payload)
  }

  lemma WireDetermines(f: Frame, g: Frame)
    requires WellFormed(f) && WellFormed(g) && Wire(f) == Wire(g)
    ensures f == g
  {
    hide Wire, Fields;
    assert Wire(f) + [] == Wire(g) + [];
    FieldsOfWire(f, []);
    FieldsOfWire(g, []);
  }

  /** Re-encoding an accepted packet gives its bytes back exactly when both flag bytes are 0 and the
      checksum fits; for a known message ID acceptance already means that the checksum fits. */
  lemma ReencodeExactly(data: seq<byte>)
    requires Decoded(data).Ok?
    ensures
      var f := Decoded(data).value;
      && Reencoded(f).Ok?
      && (Reencoded(f).value == data[..PacketLen(data[1])] <==>
            && f.incompatFlags == 0 && f.compatFlags == 0
            && (Known(f.messageId) || f.checksum == Checksum(Body(f), f.messageId)))
  {
    var f := Decoded(data).value;
    var g := Outgoing(f.systemId, f.componentId, f.sequence, f.messageId, f.payload);
    DecodedInverts(data);
    WireOfFields(data);
    OutgoingIsAcceptable(f.systemId, f.componentId, f.sequence, f.messageId, f.payload);
    OutgoingLayout(f.systemId, f.componentId, f.sequence, f.messageId, f.payload);
    hide Wire, Checksum, CrcExtra, Body, Decoded, Fields, Outgoing;
    if Wire(f) == Wire(g) {
      WireDetermines(f, g);
    }
    if f.incompatFlags == 0 && f.compatFlags == 0 {
      SameFieldsSameBody(f, g);
    }
  }

  lemma SameFieldsSameBody(f: Frame, g: Frame)
    requires f.(checksum := 0) == g.(checksum := 0)
    ensures Body(f) == Body(g)
  {}

  /** A burst inside the checksummed part: the checksum bytes are as sent, and all that differs lies
      within 16 consecutive bits. */
  ghost predicate BodyHit(sent: seq<byte>, received: seq<byte>, from: nat)
    requires |sent| == |received| >= HEADER_LEN + CHECKSUM_LEN
  {
    var end := |sent| - CHECKSUM_LEN;
    && sent[1..end] != received[1..end]
    && sent[end] == received[end] && sent[end + 1] == received[end + 1]
    && AgreeOutside16(Bits(sent[1..end]), Bits(received[1..end]), from)
  }

  /** Any damage to the checksum bytes alone. */
  ghost predicate ChecksumHit(sent: seq<byte>, received: seq<byte>)
    requires |sent| == |received| >= HEADER_LEN + CHECKSUM_LEN
  {
    var end := |sent| - CHECKSUM_LEN;
    && sent[1..end] == received[1..end]
    && (sent[end] != received[end] || sent[end + 1] != received[end + 1])
  }

  /** The magic byte, the length byte and the message ID bytes are as sent. */
  ghost predicate SameFraming(sent: seq<byte>, received: seq<byte>) {
    && |sent| == |received| >= HEADER_LEN + CHECKSUM_LEN
    && sent[0] == received[0] && sent[1] == received[1]
    && sent[7] == received[7] && sent[8] == received[8] && sent[9] == received[9]
  }

  /** A packet as received: framed as it was sent, and hit by one burst in the rest of the header or
      in the payload, or hit in its checksum bytes. */
  ghost predicate Damaged(sent: seq<byte>, received: seq<byte>, from: nat) {
    SameFraming(sent, received) && (BodyHit(sent, received, from) || ChecksumHit(sent, received))
  }

  /** w with the bytes from `at` on overwritten by x. */
  function Overwritten(w: seq<byte>, at: nat, x: seq<byte>): (d: seq<byte>)
    requires at + |x| <= |w|
    ensures |d| == |w|
    ensures forall i :: 0 <= i < at || at + |x| <= i < |w| ==> d[i] == w[i]
    ensures forall i :: 0 <= i < |x| ==> d[at + i] == x[i]
  {
    w[..at] + x + w[at + |x|..]
  }

  lemma OverwrittenSlice(w: seq<byte>, at: nat, x: seq<byte>, end: nat)
    requires 1 <= at && at + |x| <= end <= |w|
    ensures Overwritten(w, at, x)[1..end] == w[1..at] + (x + w[at + |x|..end])
  {
    hide Overwritten;
    var d := Overwritten(w, at, x);
    forall i | 1 <= i < end
      ensures d[i] == (w[1..at] + (x + w[at + |x|..end]))[i - 1]
    {
      if at <= i < at + |x| {
        assert d[at + (i - at)] == x[i - at];
      }
    }
  }

  lemma OriginalSlice(w: seq<byte>, at: nat, n: nat, end: nat)
    requires 1 <= at && at + n <= end <= |w|
    ensures w[1..end] == w[1..at] + (w[at..at + n] + w[at + n..end])
  {}

  lemma DiffersAfterPrefix(a: seq<byte>, x: seq<byte>, y: seq<byte>, b: seq<byte>)
    requires |x| == |y| && x != y
    ensures a + (x + b) != a + (y + b)
  {
    var i :| 0 <= i < |x| && x[i] != y[i];
    assert (a + (x + b))[|a| + i] == x[i] && (a + (y + b))[|a| + i] == y[i];
  }

  /** Overwriting one byte or two adjacent bytes, all among header bytes 2..6, all in the payload or
      all in the checksum, is such damage. */
  lemma AdjacentBytesAreDamage(w: seq<byte>, at: nat, x: seq<byte>)
    requires |w| >= HEADER_LEN + CHECKSUM_LEN && 1 <= |x| <= 2
    requires
      || (2 <= at && at + |x| <= 7)
      || (HEADER_LEN <= at && at + |x| <= |w| - CHECKSUM_LEN)
      || (|w| - CHECKSUM_LEN <= at && at + |x| <= |w|)
    requires x != w[at..at + |x|]
    ensures Damaged(w, Overwritten(w, at, x), 8 * (at - 1))
  {
    hide Bits, AgreeOutside16, Overwritten;
    var end := |w| - CHECKSUM_LEN;
    var d := Overwritten(w, at, x);
    if at < end {
      var pre, y, post := w[1..at], w[at..at + |x|], w[at + |x|..end];
      OriginalSlice(w, at, |x|, end);
      OverwrittenSlice(w, at, x, end);
      DiffersAfterPrefix(pre, y, x, post);
      TwoAdjacentBytesAreABurst(pre, y, x, post);
    } else {
      var i :| 0 <= i < |x| && x[i] != w[at..at + |x|][i];
      assert d[at + i] == x[i] && w[at + i] == w[at..at + |x|][i];
    }
  }

  /** A known frame so damaged is always rejected. */
  lemma DamageRejected(f: Frame, received: seq<byte>, from: nat, tail: seq<byte>)
    requires Acceptable(f) && Known(f.messageId) && Damaged(Wire(f), received, from)
    ensures Decoded(received + tail) == Err(CrcMismatch)
  {
    DamagedFraming(f, received, from);
    DamagedChecksum(f, received, from);
    hide Fields, Wire, Body, Checksum, Damaged, Known, Decoded;
    DecodedWire(Fields(received), tail);
  }

  lemma FramesOf(f: Frame)
    requires WellFormed(f)
    ensures
      var w, end := Wire(f), HEADER_LEN + |f.payload|;
      && w[0] == MAGIC_V2 && w[1] == f.payloadLength && PacketLen(w[1]) == |w| && end + CHECKSUM_LEN == |w|
      && f.messageId == Uint24(w[7], w[8], w[9]) && f.checksum == Uint16(w[end], w[end + 1]) && Body(f) == w[1..end]
  {
    FieldsOfWire(f, []);
    hide Wire, Body, Uint16, Uint24, Fields;
    assert Wire(f) + [] == Wire(f);
    FieldPlaces(Wire(f));
  }

  /** A damaged packet still reads as a frame with the same message ID. */
  lemma DamagedFraming(f: Frame, received: seq<byte>, from: nat)
    requires WellFormed(f) && Damaged(Wire(f), received, from)
    ensures received[0] == MAGIC_V2 && PacketLen(received[1]) == |received| == |Wire(f)| >= HEADER_LEN + CHECKSUM_LEN
    ensures
      var g := Fields(received);
      WellFormed(g) && Wire(g) == received && g.messageId == f.messageId
  {
    FramesOf(f);
    hide Bits, AgreeOutside16, Wire, Body, Fields, Uint24, Uint16;
    WireOfFields(received);
    FieldPlaces(received);
    assert received[..|received|] == received;
  }

  lemma SameChecksumExactly(f: Frame, g: Frame)
    requires WellFormed(f) && WellFormed(g) && |Wire(f)| == |Wire(g)|
    ensures
      var v, w, end := Wire(f), Wire(g), |Wire(f)| - CHECKSUM_LEN;
      f.checksum == g.checksum <==> v[end] == w[end] && v[end + 1] == w[end + 1]
  {
    FramesOf(f);
    FramesOf(g);
    var end := |Wire(f)| - CHECKSUM_LEN;
    hide *;
    BytesOfUint16(Wire(f)[end], Wire(f)[end + 1]);
    BytesOfUint16(Wire(g)[end], Wire(g)[end + 1]);
  }

  /** What the hits do to body and checksum. */
  lemma DamagedParts(f: Frame, received: seq<byte>, from: nat)
    requires WellFormed(f) && Damaged(Wire(f), received, from)
    ensures
      var g := Fields(received);
      || (g.checksum == f.checksum && Body(f) != Body(g) && AgreeOutside16(Bits(Body(f)), Bits(Body(g)), from))
      || (g.checksum != f.checksum && Body(f) == Body(g))
  {
    hide Bits, AgreeOutside16, Fields, Wire, Body, Uint16, Uint24, LowByte, HighByte, WellFormed, PacketLen;
    DamagedFraming(f, received, from);
    FramesOf(f);
    FramesOf(Fields(received));
    SameChecksumExactly(f, Fields(received));
    hide Known;
  }

  /** Its checksum no longer fits its body. */
  lemma DamagedChecksum(f: Frame, received: seq<byte>, from: nat)
    requires Acceptable(f) && Known(f.messageId) && Damaged(Wire(f), received, from)
    ensures
      var g := Fields(received);
      g.checksum != Checksum(Body(g), f.messageId)
  {
    hide Bits, AgreeOutside16, Checksum, Fields, Wire, Body, Known, Damaged;
    DamagedFraming(f, received, from);
    DamagedParts(f, received, from);
    if Body(f) != Body(Fields(received)) {
      BurstChangesChecksum(Body(f), Body(Fields(received)), from, f.messageId);
    }
  }

  lemma BurstChangesChecksum(a: seq<byte>, b: seq<byte>, from: nat, messageId: bv32)
    requires Known(messageId) && a != b && AgreeOutside16(Bits(a), Bits(b), from)
    ensures Checksum(a, messageId) != Checksum(b, messageId)
  {
    hide Bits, AgreeOutside16, CrcExtra, AccumulatedBytes, Accumulated;
    BurstDetected(CRC_SEED, a, b, from);
    LastByteKeepsDifference(AccumulatedBytes(CRC_SEED, a), AccumulatedBytes(CRC_SEED, b), CrcExtra(messageId).value);
  }

  lemma LastByteKeepsDifference(c: bv16, d: bv16, b: byte)
    requires c != d
    ensures Accumulated(c, b) != Accumulated(d, b)
  {
    hide Accumulated;
    LaterBytesKeepDifference(c, d, [b]);
    assert [b][1..] == [];
    assert AccumulatedBytes(c, [b]) == AccumulatedBytes(Accumulated(c, b), []);
    assert AccumulatedBytes(d, [b]) == AccumulatedBytes(Accumulated(d, b), []);
  }
}
