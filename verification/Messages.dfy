/** Field codecs of the supported messages (pkg/mavlink/messages.go).

  A message payload is a row of little-endian numbers of fixed widths. Floating-point fields are kept
  as their raw 32-bit patterns. */
module Messages {
  import opened Wrappers
  import opened Crc
  import opened Frame
  import Stream

  type uint16 = x: int | 0 <= x < 0x1_0000
  type uint32 = x: int | 0 <= x < 0x1_0000_0000
  type int8 = x: int | -0x80 <= x < 0x80
  type int16 = x: int | -0x8000 <= x < 0x8000
  type int32 = x: int | -0x8000_0000 <= x < 0x8000_0000

  // ---------------------------------------------------------------- numbers on the wire

  function Pow256(width: nat): (p: nat)
    ensures p > 0
  {
    if width == 0 then 1 else 256 * Pow256(width - 1)
  }

  function PutUint(v: nat, width: nat): (b: seq<byte>)
    ensures |b| == width
    decreases width
  {
    if width == 0 then [] else [ByteOf(v % 256)] + PutUint(v / 256, width - 1)
  }

  function GetUint(b: seq<byte>): (v: nat) {
    if b == [] then 0 else b[0] as nat + 256 * GetUint(b[1..])
  }

  lemma {:induction false} GetPut(v: nat, width: nat)
    requires v < Pow256(width)
    ensures GetUint(PutUint(v, width)) == v
    decreases width
  {
    if width > 0 {
      GetPut(v / 256, width - 1);
      assert PutUint(v, width)[1..] == PutUint(v / 256, width - 1);
    }
  }

  lemma {:induction false} PutGet(b: seq<byte>)
    ensures GetUint(b) < Pow256(|b|)
    ensures PutUint(GetUint(b), |b|) == b
  {
    if b != [] {
      PutGet(b[1..]);
      LowDigit(b[0], GetUint(b[1..]));
      hide ByteOf;
      assert b == [b[0]] + b[1..];
    }
  }

  lemma LowDigit(low: byte, high: nat)
    ensures
      var v := low as nat + 256 * high;
      v / 256 == high && v % 256 < 256 && ByteOf(v % 256) == low
  {
    hide ByteOf;
    assert low as nat < 256;
    SameByte(ByteOf(low as nat), low);
  }

  lemma SameByte(a: byte, b: byte)
    requires a as nat == b as nat
    ensures a == b
  {
    ByteInverse(a);
    ByteInverse(b);
  }

  /** Two's complement. */
  function Signed(v: nat, modulus: nat): int {
    if 2 * v < modulus then v else v - modulus
  }

  function Unsigned(v: int, modulus: nat): (u: nat)
    requires -(modulus as int) <= v
  {
    if v >= 0 then v else v + modulus
  }

  // ---------------------------------------------------------------- rows of numbers

  function Size(widths: seq<nat>): nat {
    if widths == [] then 0 else widths[0] + Size(widths[1..])
  }

  ghost predicate InRange(widths: seq<nat>, values: seq<nat>) {
    |widths| == |values| && forall i :: 0 <= i < |widths| ==> values[i] < Pow256(widths[i])
  }

  function Pack(widths: seq<nat>, values: seq<nat>): (b: seq<byte>)
    requires |widths| == |values|
    ensures |b| == Size(widths)
  {
    if widths == [] then [] else PutUint(values[0], widths[0]) + Pack(widths[1..], values[1..])
  }

  function Unpack(widths: seq<nat>, b: seq<byte>): (values: seq<nat>)
    requires |b| >= Size(widths)
    ensures |values| == |widths|
  {
    if widths == [] then [] else [GetUint(b[..widths[0]])] + Unpack(widths[1..], b[widths[0]..])
  }

  lemma {:induction false} UnpackPack(widths: seq<nat>, values: seq<nat>, tail: seq<byte>)
    requires InRange(widths, values)
    ensures Unpack(widths, Pack(widths, values) + tail) == values
  {
    hide PutUint, GetUint, Pow256;
    if widths != [] {
      var first, rest := PutUint(values[0], widths[0]), Pack(widths[1..], values[1..]);
      GetPut(values[0], widths[0]);
      UnpackPack(widths[1..], values[1..], tail);
      assert (first + rest + tail)[..widths[0]] == first;
      assert (first + rest + tail)[widths[0]..] == rest + tail;
      assert values == [values[0]] + values[1..];
    }
  }

  lemma {:induction false} PackUnpack(widths: seq<nat>, b: seq<byte>)
    requires |b| >= Size(widths)
    ensures InRange(widths, Unpack(widths, b))
    ensures Pack(widths, Unpack(widths, b)) == b[..Size(widths)]
  {
    if widths != [] {
      PutGet(b[..widths[0]]);
      var rest := b[widths[0]..];
      PackUnpack(widths[1..], rest);
      var v := Unpack(widths, b);
      assert v[1..] == Unpack(widths[1..], rest);
      forall i | 0 <= i < |widths|
        ensures v[i] < Pow256(widths[i])
      {
        if i > 0 {
          assert v[i] == v[1..][i - 1] && widths[i] == widths[1..][i - 1];
        }
      }
      assert b[..Size(widths)] == b[..widths[0]] + rest[..Size(widths[1..])];
    }
  }

  // ---------------------------------------------------------------- the messages

  datatype Heartbeat = Heartbeat(
    customMode: uint32, kind: byte, autopilot: byte, baseMode: byte, systemStatus: byte, mavlinkVersion: byte)
  {
    /** Bit 0x80 of the base mode is the safety-armed flag. */
    predicate IsArmed() {
      baseMode & 0x80 != 0
    }
  }

  datatype GlobalPositionInt = GlobalPositionInt(
    timeBootMs: uint32, lat: int32, lon: int32, alt: int32, relativeAlt: int32,
    vx: int16, vy: int16, vz: int16, hdg: uint16)

  datatype SysStatus = SysStatus(
    sensorsPresent: uint32, sensorsEnabled: uint32, sensorsHealth: uint32, load: uint16,
    voltageBattery: uint16, currentBattery: int16, batteryRemaining: int8,
    dropRateComm: uint16, errorsComm: uint16,
    errorsCount1: uint16, errorsCount2: uint16, errorsCount3: uint16, errorsCount4: uint16)

  datatype Attitude = Attitude(
    timeBootMs: uint32, roll: uint32, pitch: uint32, yaw: uint32,
    rollSpeed: uint32, pitchSpeed: uint32, yawSpeed: uint32)

  datatype Message =
    | HeartbeatMsg(heartbeat: Heartbeat)
    | PositionMsg(position: GlobalPositionInt)
    | StatusMsg(status: SysStatus)
    | AttitudeMsg(attitude: Attitude)
  {
    function Id(): (id: bv32)
      ensures id < 0x100_0000 && Known(id)
    {
      match this
      case HeartbeatMsg(_) => MSG_HEARTBEAT
      case PositionMsg(_) => MSG_GLOBAL_POSITION_INT
      case StatusMsg(_) => MSG_SYS_STATUS
      case AttitudeMsg(_) => MSG_ATTITUDE
    }
  }

  // Field widths, in wire order, of the messages that can be decoded.
  const HEARTBEAT_WIDTHS: seq<nat> := [4, 1, 1, 1, 1, 1]
  const POSITION_WIDTHS: seq<nat> := [4, 4, 4, 4, 4, 2, 2, 2, 2]
  const STATUS_WIDTHS: seq<nat> := [4, 4, 4, 2, 2, 2, 1, 2, 2, 2, 2, 2, 2]
  const ATTITUDE_WIDTHS: seq<nat> := [4, 4, 4, 4, 4, 4, 4]

  function Widths(id: bv32): seq<nat> {
    if id == MSG_HEARTBEAT then HEARTBEAT_WIDTHS
    else if id == MSG_GLOBAL_POSITION_INT then POSITION_WIDTHS
    else if id == MSG_SYS_STATUS then STATUS_WIDTHS
    else if id == MSG_ATTITUDE then ATTITUDE_WIDTHS
    else []
  }

  predicate Decodable(id: bv32) {
    id == MSG_HEARTBEAT || id == MSG_GLOBAL_POSITION_INT || id == MSG_SYS_STATUS || id == MSG_ATTITUDE
  }

  function PayloadSize(id: bv32): nat {
    if id == MSG_HEARTBEAT then 9
    else if id == MSG_GLOBAL_POSITION_INT then 28
    else if id == MSG_SYS_STATUS then 31
    else if id == MSG_ATTITUDE then 28
    else 0
  }

  function Values(m: Message): (v: seq<nat>)
    ensures |v| == |Widths(m.Id())|
  {
    match m
    case HeartbeatMsg(h) =>
      [h.customMode, h.kind as nat, h.autopilot as nat, h.baseMode as nat, h.systemStatus as nat,
       h.mavlinkVersion as nat]
    case PositionMsg(g) =>
      [g.timeBootMs, Unsigned(g.lat, 0x1_0000_0000), Unsigned(g.lon, 0x1_0000_0000),
       Unsigned(g.alt, 0x1_0000_0000), Unsigned(g.relativeAlt, 0x1_0000_0000),
       Unsigned(g.vx, 0x1_0000), Unsigned(g.vy, 0x1_0000), Unsigned(g.vz, 0x1_0000), g.hdg]
    case StatusMsg(s) =>
      [s.sensorsPresent, s.sensorsEnabled, s.sensorsHealth, s.load, s.voltageBattery,
       Unsigned(s.currentBattery, 0x1_0000), Unsigned(s.batteryRemaining, 0x100),
       s.dropRateComm, s.errorsComm, s.errorsCount1, s.errorsCount2, s.errorsCount3, s.errorsCount4]
    case AttitudeMsg(a) =>
      [a.timeBootMs, a.roll, a.pitch, a.yaw, a.rollSpeed, a.pitchSpeed, a.yawSpeed]
  }

  function HeartbeatFrom(v: seq<nat>): Message
    requires InRange(HEARTBEAT_WIDTHS, v)
  {
    RangesOf(HEARTBEAT_WIDTHS, v);
    HeartbeatMsg(Heartbeat(v[0], ByteOf(v[1]), ByteOf(v[2]), ByteOf(v[3]), ByteOf(v[4]), ByteOf(v[5])))
  }

  function PositionFrom(v: seq<nat>): Message
    requires InRange(POSITION_WIDTHS, v)
  {
    RangesOf(POSITION_WIDTHS, v);
    PositionMsg(GlobalPositionInt(
      v[0], Signed(v[1], 0x1_0000_0000), Signed(v[2], 0x1_0000_0000), Signed(v[3], 0x1_0000_0000),
      Signed(v[4], 0x1_0000_0000), Signed(v[5], 0x1_0000), Signed(v[6], 0x1_0000), Signed(v[7], 0x1_0000), v[8]))
  }

  function StatusFrom(v: seq<nat>): Message
    requires InRange(STATUS_WIDTHS, v)
  {
    RangesOf(STATUS_WIDTHS, v);
    StatusMsg(SysStatus(
      v[0], v[1], v[2], v[3], v[4], Signed(v[5], 0x1_0000), Signed(v[6], 0x100),
      v[7], v[8], v[9], v[10], v[11], v[12]))
  }

  function AttitudeFrom(v: seq<nat>): Message
    requires InRange(ATTITUDE_WIDTHS, v)
  {
    RangesOf(ATTITUDE_WIDTHS, v);
    AttitudeMsg(Attitude(v[0], v[1], v[2], v[3], v[4], v[5], v[6]))
  }

  function FromValues(id: bv32, v: seq<nat>): Message
    requires Decodable(id) && InRange(Widths(id), v)
  {
    if id == MSG_HEARTBEAT then HeartbeatFrom(v)
    else if id == MSG_GLOBAL_POSITION_INT then PositionFrom(v)
    else if id == MSG_SYS_STATUS then StatusFrom(v)
    else AttitudeFrom(v)
  }

  lemma RangesOf(widths: seq<nat>, v: seq<nat>)
    requires InRange(widths, v)
    ensures forall i :: 0 <= i < |v| && widths[i] == 1 ==> v[i] < 0x100
    ensures forall i :: 0 <= i < |v| && widths[i] == 2 ==> v[i] < 0x1_0000
    ensures forall i :: 0 <= i < |v| && widths[i] == 4 ==> v[i] < 0x1_0000_0000
  {
    assert Pow256(1) == 0x100 && Pow256(2) == 0x1_0000 && Pow256(4) == 0x1_0000_0000;
  }

  lemma HeartbeatSize()
    ensures Size(HEARTBEAT_WIDTHS) == 9
  {}

  lemma PositionSize()
    ensures Size(POSITION_WIDTHS) == 28
  {}

  lemma StatusSize()
    ensures Size(STATUS_WIDTHS) == 31
  {}

  lemma AttitudeSize()
    ensures Size(ATTITUDE_WIDTHS) == 28
  {}

  lemma EmptySize()
    ensures Size([]) == 0
  {}

  lemma SizeOfWidths(id: bv32)
    ensures Size(Widths(id)) == PayloadSize(id)
  {
    hide Size;
    HeartbeatSize();
    PositionSize();
    StatusSize();
    AttitudeSize();
    EmptySize();
  }

  /** `EncodeHeartbeat`, `EncodeGlobalPositionInt`, `EncodeSysStatus` and `EncodeAttitude`. */
  function Payload(m: Message): (p: seq<byte>)
    ensures |p| == PayloadSize(m.Id()) <= 31
  {
    SizeOfWidths(m.Id());
    Pack(Widths(m.Id()), Values(m))
  }

  datatype MessageError = PayloadTooShort | NoDecoder

  /** The matching decoders: a payload may be longer than the message, never shorter. */
  function Decode(id: bv32, payload: seq<byte>): Result<Message, MessageError> {
    if !Decodable(id) then Err(NoDecoder)
    else if |payload| < PayloadSize(id) then Err(PayloadTooShort)
    else
      SizeOfWidths(id);
      PackUnpack(Widths(id), payload);
      Ok(FromValues(id, Unpack(Widths(id), payload)))
  }

  lemma ValuesInRange(m: Message)
    ensures InRange(Widths(m.Id()), Values(m))
  {
    assert Pow256(1) == 0x100 && Pow256(2) == 0x1_0000 && Pow256(4) == 0x1_0000_0000;
    hide Pow256;
  }

  lemma FromValuesOfMessage(m: Message)
    requires InRange(Widths(m.Id()), Values(m))
    ensures FromValues(m.Id(), Values(m)) == m
  {
  }

  lemma HeartbeatValues(v: seq<nat>)
    requires InRange(HEARTBEAT_WIDTHS, v)
    ensures Values(HeartbeatFrom(v)) == v
  {
    RangesOf(HEARTBEAT_WIDTHS, v);
  }

  lemma PositionValues(v: seq<nat>)
    requires InRange(POSITION_WIDTHS, v)
    ensures Values(PositionFrom(v)) == v
  {
    RangesOf(POSITION_WIDTHS, v);
  }

  lemma StatusValues(v: seq<nat>)
    requires InRange(STATUS_WIDTHS, v)
    ensures Values(StatusFrom(v)) == v
  {
    RangesOf(STATUS_WIDTHS, v);
  }

  lemma AttitudeValues(v: seq<nat>)
    requires InRange(ATTITUDE_WIDTHS, v)
    ensures Values(AttitudeFrom(v)) == v
  {}

  lemma ValuesOfFromValues(id: bv32, v: seq<nat>)
    requires Decodable(id) && InRange(Widths(id), v)
    ensures FromValues(id, v).Id() == id
    ensures Values(FromValues(id, v)) == v
  {
    if id == MSG_HEARTBEAT {
      HeartbeatValues(v);
    } else if id == MSG_GLOBAL_POSITION_INT {
      PositionValues(v);
    } else if id == MSG_SYS_STATUS {
      StatusValues(v);
    } else {
      AttitudeValues(v);
    }
    hide Values, InRange;
  }

  /** Every message, signed fields included, survives encoding and decoding, trailing bytes ignored. */
  lemma MessageRoundTrip(m: Message, tail: seq<byte>)
    ensures Decode(m.Id(), Payload(m) + tail) == Ok(m)
  {
    ValuesInRange(m);
    SizeOfWidths(m.Id());
    UnpackPack(Widths(m.Id()), Values(m), tail);
    FromValuesOfMessage(m);
  }

  /** Every payload that decodes is, over the message's length, the encoding of what it decodes to. */
  lemma PayloadRoundTrip(id: bv32, payload: seq<byte>)
    requires Decode(id, payload).Ok?
    ensures
      var m := Decode(id, payload).value;
      m.Id() == id && Payload(m) == payload[..PayloadSize(id)]
  {
    SizeOfWidths(id);
    PackUnpack(Widths(id), payload);
    ValuesOfFromValues(id, Unpack(Widths(id), payload));
  }

  // ---------------------------------------------------------------- every field by its bytes

  /** The number in two or in four bytes, low byte first. */
  function U16(b: seq<byte>, at: nat): nat
    requires at + 2 <= |b|
  {
    b[at] as nat + 0x100 * b[at + 1] as nat
  }

  function U32(b: seq<byte>, at: nat): nat
    requires at + 4 <= |b|
  {
    b[at] as nat + 0x100 * b[at + 1] as nat + 0x1_0000 * b[at + 2] as nat + 0x100_0000 * b[at + 3] as nat
  }

  /** The same with the top bit of the last byte for the sign. */
  function S8(b: seq<byte>, at: nat): int
    requires at < |b|
  {
    b[at] as int - if b[at] < 0x80 then 0 else 0x100
  }

  function S16(b: seq<byte>, at: nat): int
    requires at + 2 <= |b|
  {
    U16(b, at) - if b[at + 1] < 0x80 then 0 else 0x1_0000
  }

  function S32(b: seq<byte>, at: nat): int
    requires at + 4 <= |b|
  {
    U32(b, at) - if b[at + 3] < 0x80 then 0 else 0x1_0000_0000
  }

  lemma TopBit(b: byte)
    ensures b < 0x80 <==> b as nat < 128
    ensures b & 0x80 == 0 <==> b < 0x80
  {}

  lemma GetByte(b: seq<byte>, at: nat)
    requires at < |b|
    ensures GetUint(b[at..at + 1]) == b[at] as nat
    ensures S8(b, at) == Signed(GetUint(b[at..at + 1]), 0x100)
  {
    OneByte(b, at);
    TopBit(b[at]);
    hide GetUint;
  }

  lemma Get16(b: seq<byte>, at: nat)
    requires at + 2 <= |b|
    ensures GetUint(b[at..at + 2]) == U16(b, at)
    ensures S16(b, at) == Signed(GetUint(b[at..at + 2]), 0x1_0000)
  {
    hide GetUint;
    FirstByte(b, at, 2);
    OneByte(b, at + 1);
    TopBit(b[at + 1]);
  }

  lemma Get32(b: seq<byte>, at: nat)
    requires at + 4 <= |b|
    ensures GetUint(b[at..at + 4]) == U32(b, at)
    ensures S32(b, at) == Signed(GetUint(b[at..at + 4]), 0x1_0000_0000)
  {
    hide GetUint;
    FirstByte(b, at, 4);
    FirstByte(b, at + 1, 3);
    Get16(b, at + 2);
    TopBit(b[at + 3]);
  }

  lemma FirstByte(b: seq<byte>, at: nat, n: nat)
    requires n > 0 && at + n <= |b|
    ensures GetUint(b[at..at + n]) == b[at] as nat + 256 * GetUint(b[at + 1..at + n])
  {
    assert b[at..at + n][1..] == b[at + 1..at + n];
  }

  lemma OneByte(b: seq<byte>, at: nat)
    requires at < |b|
    ensures GetUint(b[at..at + 1]) == b[at] as nat
  {
    assert b[at + 1..at + 1] == [];
    FirstByte(b, at, 1);
  }

  function Offset(widths: seq<nat>, k: nat): nat
    requires k <= |widths|
  {
    if k == 0 then 0 else widths[0] + Offset(widths[1..], k - 1)
  }

  lemma UnpackStep(widths: seq<nat>, b: seq<byte>)
    requires widths != [] && |b| >= Size(widths)
    ensures |b| >= widths[0] && |b[widths[0]..]| >= Size(widths[1..])
    ensures Unpack(widths, b) == [GetUint(b[..widths[0]])] + Unpack(widths[1..], b[widths[0]..])
  {}

  lemma OffsetStep(widths: seq<nat>, k: nat)
    requires 0 < k < |widths|
    ensures Offset(widths, k) == widths[0] + Offset(widths[1..], k - 1)
  {}

  /** The k-th number of a row stands at the k-th offset. */
  ghost predicate StandsAt(widths: seq<nat>, b: seq<byte>, k: nat)
    requires k < |widths| && |b| >= Size(widths)
  {
    var at := Offset(widths, k);
    at + widths[k] <= |b| && Unpack(widths, b)[k] == GetUint(b[at..at + widths[k]])
  }

  lemma {:induction false} UnpackAt(widths: seq<nat>, b: seq<byte>, k: nat)
    requires k < |widths| && |b| >= Size(widths)
    ensures StandsAt(widths, b, k)
  {
    hide Size, Unpack, GetUint;
    UnpackStep(widths, b);
    if k > 0 {
      OffsetStep(widths, k);
      hide Offset;
      var rest, at := b[widths[0]..], Offset(widths[1..], k - 1);
      UnpackAt(widths[1..], rest, k - 1);
      assert rest[at..at + widths[k]] == b[widths[0] + at..widths[0] + at + widths[k]];
    }
  }

  lemma HeartbeatOffsets()
    ensures Offset(HEARTBEAT_WIDTHS, 0) == 0 && Offset(HEARTBEAT_WIDTHS, 1) == 4
    ensures Offset(HEARTBEAT_WIDTHS, 2) == 5 && Offset(HEARTBEAT_WIDTHS, 3) == 6
    ensures Offset(HEARTBEAT_WIDTHS, 4) == 7 && Offset(HEARTBEAT_WIDTHS, 5) == 8
  {}

  lemma HeartbeatRow(p: seq<byte>)
    requires |p| >= Size(HEARTBEAT_WIDTHS) == 9
    ensures
      var v := Unpack(HEARTBEAT_WIDTHS, p);
      && v[0] == GetUint(p[0..4]) && v[1] == GetUint(p[4..5]) && v[2] == GetUint(p[5..6])
      && v[3] == GetUint(p[6..7]) && v[4] == GetUint(p[7..8]) && v[5] == GetUint(p[8..9])
  {
    hide Size, Unpack, GetUint, Offset;
    HeartbeatOffsets();
    forall k | 0 <= k < 6
      ensures StandsAt(HEARTBEAT_WIDTHS, p, k)
    {
      UnpackAt(HEARTBEAT_WIDTHS, p, k);
    }
    assert StandsAt(HEARTBEAT_WIDTHS, p, 0) && StandsAt(HEARTBEAT_WIDTHS, p, 1);
    assert StandsAt(HEARTBEAT_WIDTHS, p, 2) && StandsAt(HEARTBEAT_WIDTHS, p, 3);
    assert StandsAt(HEARTBEAT_WIDTHS, p, 4) && StandsAt(HEARTBEAT_WIDTHS, p, 5);
  }

  lemma PositionOffsets()
    ensures Offset(POSITION_WIDTHS, 0) == 0 && Offset(POSITION_WIDTHS, 1) == 4
    ensures Offset(POSITION_WIDTHS, 2) == 8 && Offset(POSITION_WIDTHS, 3) == 12
    ensures Offset(POSITION_WIDTHS, 4) == 16 && Offset(POSITION_WIDTHS, 5) == 20
    ensures Offset(POSITION_WIDTHS, 6) == 22 && Offset(POSITION_WIDTHS, 7) == 24
    ensures Offset(POSITION_WIDTHS, 8) == 26
  {}

  lemma PositionRow(p: seq<byte>)
    requires |p| >= Size(POSITION_WIDTHS) == 28
    ensures
      var v := Unpack(POSITION_WIDTHS, p);
      && v[0] == GetUint(p[0..4]) && v[1] == GetUint(p[4..8]) && v[2] == GetUint(p[8..12])
      && v[3] == GetUint(p[12..16]) && v[4] == GetUint(p[16..20]) && v[5] == GetUint(p[20..22])
      && v[6] == GetUint(p[22..24]) && v[7] == GetUint(p[24..26]) && v[8] == GetUint(p[26..28])
  {
    hide Size, Unpack, GetUint, Offset;
    PositionOffsets();
    forall k | 0 <= k < 9
      ensures StandsAt(POSITION_WIDTHS, p, k)
    {
      UnpackAt(POSITION_WIDTHS, p, k);
    }
    assert StandsAt(POSITION_WIDTHS, p, 0) && StandsAt(POSITION_WIDTHS, p, 1);
    assert StandsAt(POSITION_WIDTHS, p, 2) && StandsAt(POSITION_WIDTHS, p, 3);
    assert StandsAt(POSITION_WIDTHS, p, 4) && StandsAt(POSITION_WIDTHS, p, 5);
    assert StandsAt(POSITION_WIDTHS, p, 6) && StandsAt(POSITION_WIDTHS, p, 7);
    assert StandsAt(POSITION_WIDTHS, p, 8);
  }

  lemma StatusOffsets()
    ensures Offset(STATUS_WIDTHS, 0) == 0 && Offset(STATUS_WIDTHS, 1) == 4
    ensures Offset(STATUS_WIDTHS, 2) == 8 && Offset(STATUS_WIDTHS, 3) == 12
    ensures Offset(STATUS_WIDTHS, 4) == 14 && Offset(STATUS_WIDTHS, 5) == 16
    ensures Offset(STATUS_WIDTHS, 6) == 18 && Offset(STATUS_WIDTHS, 7) == 19
    ensures Offset(STATUS_WIDTHS, 8) == 21 && Offset(STATUS_WIDTHS, 9) == 23
    ensures Offset(STATUS_WIDTHS, 10) == 25 && Offset(STATUS_WIDTHS, 11) == 27
    ensures Offset(STATUS_WIDTHS, 12) == 29
  {}

  lemma StatusRow(p: seq<byte>)
    requires |p| >= Size(STATUS_WIDTHS) == 31
    ensures
      var v := Unpack(STATUS_WIDTHS, p);
      && v[0] == GetUint(p[0..4]) && v[1] == GetUint(p[4..8]) && v[2] == GetUint(p[8..12])
      && v[3] == GetUint(p[12..14]) && v[4] == GetUint(p[14..16]) && v[5] == GetUint(p[16..18])
      && v[6] == GetUint(p[18..19]) && v[7] == GetUint(p[19..21]) && v[8] == GetUint(p[21..23])
      && v[9] == GetUint(p[23..25]) && v[10] == GetUint(p[25..27]) && v[11] == GetUint(p[27..29])
      && v[12] == GetUint(p[29..31])
  {
    hide Size, Unpack, GetUint, Offset;
    StatusOffsets();
    forall k | 0 <= k < 13
      ensures StandsAt(STATUS_WIDTHS, p, k)
    {
      UnpackAt(STATUS_WIDTHS, p, k);
    }
    assert StandsAt(STATUS_WIDTHS, p, 0) && StandsAt(STATUS_WIDTHS, p, 1);
    assert StandsAt(STATUS_WIDTHS, p, 2) && StandsAt(STATUS_WIDTHS, p, 3);
    assert StandsAt(STATUS_WIDTHS, p, 4) && StandsAt(STATUS_WIDTHS, p, 5);
    assert StandsAt(STATUS_WIDTHS, p, 6) && StandsAt(STATUS_WIDTHS, p, 7);
    assert StandsAt(STATUS_WIDTHS, p, 8) && StandsAt(STATUS_WIDTHS, p, 9);
    assert StandsAt(STATUS_WIDTHS, p, 10) && StandsAt(STATUS_WIDTHS, p, 11);
    assert StandsAt(STATUS_WIDTHS, p, 12);
  }

  lemma AttitudeOffsets()
    ensures Offset(ATTITUDE_WIDTHS, 0) == 0 && Offset(ATTITUDE_WIDTHS, 1) == 4
    ensures Offset(ATTITUDE_WIDTHS, 2) == 8 && Offset(ATTITUDE_WIDTHS, 3) == 12
    ensures Offset(ATTITUDE_WIDTHS, 4) == 16 && Offset(ATTITUDE_WIDTHS, 5) == 20
    ensures Offset(ATTITUDE_WIDTHS, 6) == 24
  {}

  lemma AttitudeRow(p: seq<byte>)
    requires |p| >= Size(ATTITUDE_WIDTHS) == 28
    ensures
      var v := Unpack(ATTITUDE_WIDTHS, p);
      && v[0] == GetUint(p[0..4]) && v[1] == GetUint(p[4..8]) && v[2] == GetUint(p[8..12])
      && v[3] == GetUint(p[12..16]) && v[4] == GetUint(p[16..20]) && v[5] == GetUint(p[20..24])
      && v[6] == GetUint(p[24..28])
  {
    hide Size, Unpack, GetUint, Offset;
    AttitudeOffsets();
    forall k | 0 <= k < 7
      ensures StandsAt(ATTITUDE_WIDTHS, p, k)
    {
      UnpackAt(ATTITUDE_WIDTHS, p, k);
    }
    assert StandsAt(ATTITUDE_WIDTHS, p, 0) && StandsAt(ATTITUDE_WIDTHS, p, 1);
    assert StandsAt(ATTITUDE_WIDTHS, p, 2) && StandsAt(ATTITUDE_WIDTHS, p, 3);
    assert StandsAt(ATTITUDE_WIDTHS, p, 4) && StandsAt(ATTITUDE_WIDTHS, p, 5);
    assert StandsAt(ATTITUDE_WIDTHS, p, 6);
  }

  lemma ByteAt(p: seq<byte>, at: nat)
    requires at < |p|
    ensures GetUint(p[at..at + 1]) == p[at] as nat && ByteOf(p[at] as nat) == p[at]
  {
    hide GetUint, ByteOf;
    OneByte(p, at);
    ByteInverse(p[at]);
  }

  /** `DecodeHeartbeat`, field by field. */
  lemma HeartbeatBytes(p: seq<byte>)
    requires |p| >= 9
    ensures Decode(0, p) == Ok(HeartbeatMsg(Heartbeat(U32(p, 0), p[4], p[5], p[6], p[7], p[8])))
  {
    hide Size, Unpack, GetUint, InRange, U32, ByteOf;
    HeartbeatSize();
    HeartbeatRow(p);
    Get32(p, 0);
    ByteAt(p, 4); ByteAt(p, 5); ByteAt(p, 6); ByteAt(p, 7); ByteAt(p, 8);
  }

  /** `DecodeGlobalPositionInt`, field by field. */
  lemma PositionBytes(p: seq<byte>)
    requires |p| >= 28
    ensures
      Decode(33, p) == Ok(PositionMsg(GlobalPositionInt(
        U32(p, 0), S32(p, 4), S32(p, 8), S32(p, 12), S32(p, 16), S16(p, 20), S16(p, 22), S16(p, 24), U16(p, 26))))
  {
    hide Size, Unpack, GetUint, InRange, U16, U32, S16, S32, Signed;
    PositionSize();
    PositionRow(p);
    Get32(p, 0); Get32(p, 4); Get32(p, 8); Get32(p, 12); Get32(p, 16);
    Get16(p, 20); Get16(p, 22); Get16(p, 24); Get16(p, 26);
  }

  /** `DecodeSysStatus`, field by field. */
  lemma StatusBytes(p: seq<byte>)
    requires |p| >= 31
    ensures
      Decode(1, p) == Ok(StatusMsg(SysStatus(
        U32(p, 0), U32(p, 4), U32(p, 8), U16(p, 12), U16(p, 14), S16(p, 16), S8(p, 18), U16(p, 19), U16(p, 21),
        U16(p, 23), U16(p, 25), U16(p, 27), U16(p, 29))))
  {
    hide Size, Unpack, GetUint, InRange, U16, U32, S8, S16, Signed;
    StatusSize();
    StatusRow(p);
    Get32(p, 0); Get32(p, 4); Get32(p, 8); Get16(p, 12); Get16(p, 14); Get16(p, 16); GetByte(p, 18);
    Get16(p, 19); Get16(p, 21); Get16(p, 23); Get16(p, 25); Get16(p, 27); Get16(p, 29);
  }

  /** `DecodeAttitude`, field by field; the six numbers are patterns of floats. */
  lemma AttitudeBytes(p: seq<byte>)
    requires |p| >= 28
    ensures
      Decode(30, p) == Ok(AttitudeMsg(Attitude(
        U32(p, 0), U32(p, 4), U32(p, 8), U32(p, 12), U32(p, 16), U32(p, 20), U32(p, 24))))
  {
    hide Size, Unpack, GetUint, InRange, U32;
    AttitudeSize();
    AttitudeRow(p);
    Get32(p, 0); Get32(p, 4); Get32(p, 8); Get32(p, 12); Get32(p, 16); Get32(p, 20); Get32(p, 24);
  }

  /** What can be decoded: four kinds of messages, from their full length on. */
  lemma DecodableExactly(id: bv32, p: seq<byte>)
    ensures
      Decode(id, p).Ok? <==>
        (id == 0 && |p| >= 9) || (id == 1 && |p| >= 31) || (id == 30 && |p| >= 28) || (id == 33 && |p| >= 28)
  {
    hide FromValues, Unpack, Widths, InRange;
  }

  /** The armed flag is the top bit of the base mode, byte 6. */
  lemma ArmedExactly(p: seq<byte>)
    requires |p| >= 9
    ensures Decode(0, p).Ok? && Decode(0, p).value.HeartbeatMsg?
    ensures Decode(0, p).value.heartbeat.IsArmed() <==> p[6] as nat >= 128
  {
    HeartbeatBytes(p);
    TopBit(p[6]);
    hide Decode;
  }

  // ---------------------------------------------------------------- over a noisy line

  /** The frame that carries message m from the given sender. */
  function Carrying(m: Message, systemId: byte, componentId: byte, sequence: byte): (f: Frame)
    ensures f.messageId == m.Id() && f.payload == Payload(m)
  {
    Outgoing(systemId, componentId, sequence, m.Id(), Payload(m))
  }

  ghost predicate Carries(f: Frame, m: Message) {
    exists systemId, componentId, sequence :: f == Carrying(m, systemId, componentId, sequence)
  }

  /** Messages framed and sent over a line with noise and damaged frames in between are, each and in
      order, what draining the line and decoding the frames returns. */
  lemma MessagesSurviveTheLine(segments: seq<Stream.Segment>, messages: seq<Message>)
    requires forall g :: g in segments ==> g.Valid()
    requires |Stream.IntactFrames(segments)| == |messages|
    requires forall i :: 0 <= i < |messages| ==> Carries(Stream.IntactFrames(segments)[i], messages[i])
    ensures
      var (frames, unread) := Stream.Drain(Stream.Line(segments));
      && unread == []
      && |frames| == |messages|
      && forall i :: 0 <= i < |messages| ==> Decode(frames[i].messageId, frames[i].payload) == Ok(messages[i])
  {
    hide Decode, Payload, Outgoing;
    Stream.DrainReturnsIntactFrames(segments);
    forall i | 0 <= i < |messages|
      ensures Decode(messages[i].Id(), Payload(messages[i])) == Ok(messages[i])
    {
      MessageRoundTrip(messages[i], []);
      assert Payload(messages[i]) + [] == Payload(messages[i]);
    }
  }

  /** Such a frame is acceptable, so it may stand on the line. */
  lemma CarryingIsAcceptable(m: Message, systemId: byte, componentId: byte, sequence: byte)
    ensures Acceptable(Carrying(m, systemId, componentId, sequence))
  {
    hide Acceptable, Payload;
    OutgoingIsAcceptable(systemId, componentId, sequence, m.Id(), Payload(m));
  }
}
