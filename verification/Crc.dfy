/** The X.25 / MAVLink checksum of pkg/mavlink/crc.go.

  The source updates a 16-bit register one byte at a time with shifts and exclusive-ors. Here that
  update is tied to two independent descriptions of the same code: a bit-serial shift register
  (reflected polynomial 0x8408, appendix C.1 of RFC 1662), and the schoolbook long division of a
  polynomial over GF(2) by x^16 + x^12 + x^5 + 1. What the checksum detects is then proved of the
  bit-serial form.
  */
module Crc {

  type byte = bv8

  lemma ByteInverse(b: byte)
    ensures (b as nat) as byte == b
  {}

  lemma ByteSuccessor(b: byte)
    requires b as nat < 255
    ensures (b + 1) as nat == b as nat + 1
  {}

  lemma {:induction false} ByteFits(v: nat)
    requires v < 256
    ensures (v as byte) as nat == v
  {
    if v > 0 {
      ByteFits(v - 1);
      var b := (v - 1) as byte;
      ByteSuccessor(b);
      ByteInverse(b + 1);
    }
  }

  /** The byte of a number that fits. */
  function ByteOf(v: nat): (b: byte)
    requires v < 256
    ensures b as nat == v
  {
    ByteFits(v);
    v as byte
  }

  const CRC_SEED: bv16 := 0xFFFF

  // ---------------------------------------------------------------- the source's update

  function LowByte(crc: bv16): byte {
    (crc & 0xFF) as byte
  }

  function HighByte(crc: bv16): byte {
    (crc >> 8) as byte
  }

  /** `ch`: the byte xor-ed with the low half of the register, folded onto its own upper half. */
  function Feedback(crc: bv16, b: byte): byte {
    var x := b ^ LowByte(crc);
    x ^ (x << 4)
  }

  function Mixed(crc: bv16, y: byte): bv16 {
    var ch := y as bv16;
    (crc >> 8) ^ (ch << 8) ^ (ch << 3) ^ (ch >> 4)
  }

  lemma MixedShifts(crc: bv16, y: byte)
    ensures Mixed(crc, y) == (crc >> 8) ^ ((y as bv16) << 8) ^ ((y as bv16) << 3) ^ ((y as bv16) >> 4)
  {}

  /** The effect of one call of `Accumulate` on the register. */
  function Accumulated(crc: bv16, b: byte): bv16 {
    Mixed(crc, Feedback(crc, b))
  }

  function AccumulatedBytes(crc: bv16, data: seq<byte>): bv16
    decreases data
  {
    if data == [] then crc else AccumulatedBytes(Accumulated(crc, data[0]), data[1..])
  }

  class X25CRC {
    var crc: bv16

    constructor ()
      ensures crc == CRC_SEED
    {
      crc := CRC_SEED;
    }

    method Accumulate(b: byte)
      modifies this
      ensures crc == Accumulated(old(crc), b)
    {
      hide Feedback, Mixed;
      var ch := Feedback(crc, b);
      MixedShifts(crc, ch);
      crc := (crc >> 8) ^ ((ch as bv16) << 8) ^ ((ch as bv16) << 3) ^ ((ch as bv16) >> 4);
    }

    method AccumulateBytes(data: seq<byte>)
      modifies this
      ensures crc == AccumulatedBytes(old(crc), data)
      ensures RegisterBits(crc) == Divide(old(RegisterBits(crc)), Bits(data))
    {
      hide Accumulated, RegisterBits;
      AccumulatedBytesIsDivision(crc, data);
      var i := 0;
      while i < |data|
        invariant 0 <= i <= |data|
        invariant AccumulatedBytes(crc, data[i..]) == AccumulatedBytes(old(crc), data)
      {
        assert data[i..][1..] == data[i + 1..];
        Accumulate(data[i]);
        i := i + 1;
      }
    }
  }

  // ---------------------------------------------------------------- registers as coefficients

  /** A register as coefficients, highest power first; the code is reflected, so bit 0 comes first. */
  function RegisterBits(crc: bv16): (r: seq<bool>)
    ensures |r| == 16
  {
    ByteBits(LowByte(crc)) + ByteBits(HighByte(crc))
  }

  /** The bits of a byte in transmission order: least significant first. */
  function ByteBits(b: byte): (r: seq<bool>)
    ensures |r| == 8
  {
    [b & 1 != 0, b & 2 != 0, b & 4 != 0, b & 8 != 0,
     b & 16 != 0, b & 32 != 0, b & 64 != 0, b & 128 != 0]
  }

  function Bits(data: seq<byte>): (bits: seq<bool>)
    ensures |bits| == 8 * |data|
  {
    if data == [] then [] else ByteBits(data[0]) + Bits(data[1..])
  }

  function Xor(a: seq<bool>, b: seq<bool>): (r: seq<bool>)
    requires |a| == |b|
    ensures |r| == |a|
    ensures forall i :: 0 <= i < |a| ==> r[i] == (a[i] != b[i])
  {
    seq(|a|, i requires 0 <= i < |a| => a[i] != b[i])
  }

  lemma XorSelf(a: seq<bool>)
    ensures Xor(a, a) == Zeros(|a|)
  {}

  function Zeros(n: nat): (z: seq<bool>)
    ensures |z| == n && forall i :: 0 <= i < n ==> !z[i]
  {
    seq(n, _ => false)
  }

  /** The generator x^16 + x^12 + x^5 + 1, highest power first, without its leading term. */
  predicate Tap(i: nat) {
    i == 3 || i == 10 || i == 15
  }

  lemma GeneratorIsReflected8408(i: nat)
    requires i < 16
    ensures RegisterBits(0x8408)[i] == Tap(i)
  {
    RegisterPlaces(0x8408);
  }

  // ---------------------------------------------------------------- bit-serial register

  /** Shift one message bit in; when the coefficient leaving the register differs from it, subtract
      the generator. */
  function Shift(reg: seq<bool>, bit: bool): (r: seq<bool>)
    requires |reg| == 16
    ensures |r| == 16
    ensures forall i :: 0 <= i < 16 ==> r[i] == ((i < 15 && reg[i + 1]) != (reg[0] != bit && Tap(i)))
  {
    seq(16, i requires 0 <= i < 16 => (i < 15 && reg[i + 1]) != (reg[0] != bit && Tap(i)))
  }

  function Divide(reg: seq<bool>, bits: seq<bool>): (r: seq<bool>)
    requires |reg| == 16
    ensures |r| == 16
    decreases bits
  {
    if bits == [] then reg else Divide(Shift(reg, bits[0]), bits[1..])
  }

  lemma BytePlaces(b: byte)
    ensures
      var r := ByteBits(b);
      && r[0] == (b & 0x1 != 0)
      && r[1] == (b & 0x2 != 0)
      && r[2] == (b & 0x4 != 0)
      && r[3] == (b & 0x8 != 0)
      && r[4] == (b & 0x10 != 0)
      && r[5] == (b & 0x20 != 0)
      && r[6] == (b & 0x40 != 0)
      && r[7] == (b & 0x80 != 0)
  {}

  lemma HalfMasks(crc: bv16)
    ensures (LowByte(crc) & 0x1 != 0) == (crc & 0x1 != 0)
    ensures (LowByte(crc) & 0x2 != 0) == (crc & 0x2 != 0)
    ensures (LowByte(crc) & 0x4 != 0) == (crc & 0x4 != 0)
    ensures (LowByte(crc) & 0x8 != 0) == (crc & 0x8 != 0)
    ensures (LowByte(crc) & 0x10 != 0) == (crc & 0x10 != 0)
    ensures (LowByte(crc) & 0x20 != 0) == (crc & 0x20 != 0)
    ensures (LowByte(crc) & 0x40 != 0) == (crc & 0x40 != 0)
    ensures (LowByte(crc) & 0x80 != 0) == (crc & 0x80 != 0)
    ensures (HighByte(crc) & 0x1 != 0) == (crc & 0x100 != 0)
    ensures (HighByte(crc) & 0x2 != 0) == (crc & 0x200 != 0)
    ensures (HighByte(crc) & 0x4 != 0) == (crc & 0x400 != 0)
    ensures (HighByte(crc) & 0x8 != 0) == (crc & 0x800 != 0)
    ensures (HighByte(crc) & 0x10 != 0) == (crc & 0x1000 != 0)
    ensures (HighByte(crc) & 0x20 != 0) == (crc & 0x2000 != 0)
    ensures (HighByte(crc) & 0x40 != 0) == (crc & 0x4000 != 0)
    ensures (HighByte(crc) & 0x80 != 0) == (crc & 0x8000 != 0)
  {}

  lemma RegisterPlaces(crc: bv16)
    ensures
      var r := RegisterBits(crc);
      && r[0] == (crc & 0x1 != 0)
      && r[1] == (crc & 0x2 != 0)
      && r[2] == (crc & 0x4 != 0)
      && r[3] == (crc & 0x8 != 0)
      && r[4] == (crc & 0x10 != 0)
      && r[5] == (crc & 0x20 != 0)
      && r[6] == (crc & 0x40 != 0)
      && r[7] == (crc & 0x80 != 0)
    ensures
      var r := RegisterBits(crc);
      && r[8] == (crc & 0x100 != 0)
      && r[9] == (crc & 0x200 != 0)
      && r[10] == (crc & 0x400 != 0)
      && r[11] == (crc & 0x800 != 0)
      && r[12] == (crc & 0x1000 != 0)
      && r[13] == (crc & 0x2000 != 0)
      && r[14] == (crc & 0x4000 != 0)
      && r[15] == (crc & 0x8000 != 0)
  {
    HalfMasks(crc);
    BytePlaces(LowByte(crc));
    BytePlaces(HighByte(crc));
    hide ByteBits, LowByte, HighByte;
  }

  /** The feedback bits of eight steps on register c fed w. */
  ghost predicate IsFeedback(c: seq<bool>, w: seq<bool>, y: seq<bool>)
    requires |c| == 16 && |w| == |y| == 8
  {
    && y[0] == (c[0] != w[0]) && y[1] == (c[1] != w[1]) && y[2] == (c[2] != w[2]) && y[3] == (c[3] != w[3])
    && y[4] == ((c[4] != y[0]) != w[4]) && y[5] == ((c[5] != y[1]) != w[5])
    && y[6] == ((c[6] != y[2]) != w[6]) && y[7] == ((c[7] != y[3]) != w[7])
  }

  /** Place by place, what eight steps with feedback y leave in the low half of register c. */
  ghost predicate IsMixedLow(c: seq<bool>, y: seq<bool>, r: seq<bool>)
    requires |c| == |r| == 16 && |y| == 8
  {
    && r[0] == (c[8] != y[4])
    && r[1] == (c[9] != y[5])
    && r[2] == (c[10] != y[6])
    && r[3] == ((c[11] != y[0]) != y[7])
    && r[4] == (c[12] != y[1])
    && r[5] == (c[13] != y[2])
    && r[6] == (c[14] != y[3])
    && r[7] == (c[15] != y[4])
  }

  /** And in its high half. */
  ghost predicate IsMixedHigh(y: seq<bool>, r: seq<bool>)
    requires |r| == 16 && |y| == 8
  {
    && r[8] == (y[0] != y[5])
    && r[9] == (y[1] != y[6])
    && r[10] == (y[2] != y[7])
    && r[11] == y[3]
    && r[12] == y[4]
    && r[13] == y[5]
    && r[14] == y[6]
    && r[15] == y[7]
  }

  ghost predicate IsMixed(c: seq<bool>, y: seq<bool>, r: seq<bool>)
    requires |c| == |r| == 16 && |y| == 8
  {
    IsMixedLow(c, y, r) && IsMixedHigh(y, r)
  }

  lemma LowHalfMixed(c: bv16, y: byte)
    ensures
      var r := Mixed(c, y);
      && (r & 0x1 != 0) == ((c & 0x100 != 0) != (y & 0x10 != 0))
      && (r & 0x2 != 0) == ((c & 0x200 != 0) != (y & 0x20 != 0))
      && (r & 0x4 != 0) == ((c & 0x400 != 0) != (y & 0x40 != 0))
      && (r & 0x8 != 0) == (((c & 0x800 != 0) != (y & 0x1 != 0)) != (y & 0x80 != 0))
      && (r & 0x10 != 0) == ((c & 0x1000 != 0) != (y & 0x2 != 0))
      && (r & 0x20 != 0) == ((c & 0x2000 != 0) != (y & 0x4 != 0))
      && (r & 0x40 != 0) == ((c & 0x4000 != 0) != (y & 0x8 != 0))
      && (r & 0x80 != 0) == ((c & 0x8000 != 0) != (y & 0x10 != 0))
  {}

  lemma HighHalfMixed(c: bv16, y: byte)
    ensures
      var r := Mixed(c, y);
      && (r & 0x100 != 0) == ((y & 0x1 != 0) != (y & 0x20 != 0))
      && (r & 0x200 != 0) == ((y & 0x2 != 0) != (y & 0x40 != 0))
      && (r & 0x400 != 0) == ((y & 0x4 != 0) != (y & 0x80 != 0))
      && (r & 0x800 != 0) == (y & 0x8 != 0)
      && (r & 0x1000 != 0) == (y & 0x10 != 0)
      && (r & 0x2000 != 0) == (y & 0x20 != 0)
      && (r & 0x4000 != 0) == (y & 0x40 != 0)
      && (r & 0x8000 != 0) == (y & 0x80 != 0)
  {}

  lemma MixedLowPlaces(crc: bv16, y: byte)
    ensures IsMixedLow(RegisterBits(crc), ByteBits(y), RegisterBits(Mixed(crc, y)))
  {
    LowHalfMixed(crc, y);
    hide Mixed, RegisterBits, ByteBits;
    RegisterPlaces(crc);
    RegisterPlaces(Mixed(crc, y));
    BytePlaces(y);
  }

  lemma MixedHighPlaces(crc: bv16, y: byte)
    ensures IsMixedHigh(ByteBits(y), RegisterBits(Mixed(crc, y)))
  {
    HighHalfMixed(crc, y);
    hide Mixed, RegisterBits, ByteBits;
    RegisterPlaces(Mixed(crc, y));
    BytePlaces(y);
  }

  lemma MixedPlaces(crc: bv16, y: byte)
    ensures IsMixed(RegisterBits(crc), ByteBits(y), RegisterBits(Mixed(crc, y)))
  {
    hide IsMixedLow, IsMixedHigh, Mixed, RegisterBits, ByteBits;
    MixedLowPlaces(crc, y);
    MixedHighPlaces(crc, y);
  }

  lemma FeedbackMasks(c: bv16, b: byte)
    ensures
      var y := Feedback(c, b);
      && (y & 1 != 0) == ((c & 1 != 0) != (b & 1 != 0))
      && (y & 2 != 0) == ((c & 2 != 0) != (b & 2 != 0))
      && (y & 4 != 0) == ((c & 4 != 0) != (b & 4 != 0))
      && (y & 8 != 0) == ((c & 8 != 0) != (b & 8 != 0))
      && (y & 16 != 0) == (((c & 16 != 0) != (y & 1 != 0)) != (b & 16 != 0))
      && (y & 32 != 0) == (((c & 32 != 0) != (y & 2 != 0)) != (b & 32 != 0))
      && (y & 64 != 0) == (((c & 64 != 0) != (y & 4 != 0)) != (b & 64 != 0))
      && (y & 128 != 0) == (((c & 128 != 0) != (y & 8 != 0)) != (b & 128 != 0))
  {}

  lemma FeedbackPlaces(crc: bv16, b: byte)
    ensures IsFeedback(RegisterBits(crc), ByteBits(b), ByteBits(Feedback(crc, b)))
  {
    FeedbackMasks(crc, b);
    hide Feedback, RegisterBits, ByteBits;
    RegisterPlaces(crc);
    BytePlaces(b);
    BytePlaces(Feedback(crc, b));
  }

  function TwoShifts(reg: seq<bool>, w0: bool, w1: bool): (r: seq<bool>)
    requires |reg| == 16
    ensures |r| == 16
  {
    Shift(Shift(reg, w0), w1)
  }

  function FourShifts(reg: seq<bool>, w: seq<bool>): (r: seq<bool>)
    requires |reg| == 16 && |w| == 4
    ensures |r| == 16
  {
    TwoShifts(TwoShifts(reg, w[0], w[1]), w[2], w[3])
  }

  /** Place i after two steps with feedback y0, y1: everything moves down by two, and two copies of
      the generator come in. */
  predicate TwoShiftedBit(c: seq<bool>, y0: bool, y1: bool, i: nat)
    requires |c| == 16 && i < 16
  {
    ((i < 14 && c[i + 2]) != (y0 && Tap(i + 1))) != (y1 && Tap(i))
  }

  lemma TwoShiftPlaces(c: seq<bool>, w0: bool, w1: bool, y0: bool, y1: bool)
    requires |c| == 16 && y0 == (c[0] != w0) && y1 == (c[1] != w1)
    ensures forall i :: 0 <= i < 16 ==> TwoShifts(c, w0, w1)[i] == TwoShiftedBit(c, y0, y1, i)
  {
    var c1 := Shift(c, w0);
    assert c1[0] == c[1];
    forall i | 0 <= i < 16
      ensures Shift(c1, w1)[i] == TwoShiftedBit(c, y0, y1, i)
    {
      assert i < 15 ==> c1[i + 1] == ((i < 14 && c[i + 2]) != (y0 && Tap(i + 1)));
    }
  }

  /** The same, place by place. */
  ghost predicate IsEighth(c: seq<bool>, y0: bool, y1: bool, r: seq<bool>)
    requires |c| == |r| == 16
  {
    && r[0] == c[2] && r[1] == c[3] && r[2] == (c[4] != y0) && r[3] == (c[5] != y1)
    && r[4] == c[6] && r[5] == c[7] && r[6] == c[8] && r[7] == c[9] && r[8] == c[10]
    && r[9] == (c[11] != y0) && r[10] == (c[12] != y1)
    && r[11] == c[13] && r[12] == c[14] && r[13] == c[15] && r[14] == y0 && r[15] == y1
  }

  lemma TwoShiftsEighth(c: seq<bool>, w0: bool, w1: bool, y0: bool, y1: bool)
    requires |c| == 16 && y0 == (c[0] != w0) && y1 == (c[1] != w1)
    ensures IsEighth(c, y0, y1, TwoShifts(c, w0, w1))
  {
    TwoShiftPlaces(c, w0, w1, y0, y1);
    hide TwoShifts;
  }

  /** What four steps with feedback y0..y3 leave of register c. */
  ghost predicate IsQuarter(c: seq<bool>, y0: bool, y1: bool, y2: bool, y3: bool, r: seq<bool>)
    requires |c| == |r| == 16
  {
    && r[0] == (c[4] != y0) && r[1] == (c[5] != y1) && r[2] == (c[6] != y2) && r[3] == (c[7] != y3)
    && r[4] == c[8] && r[5] == c[9] && r[6] == c[10]
    && r[7] == (c[11] != y0) && r[8] == (c[12] != y1) && r[9] == (c[13] != y2) && r[10] == (c[14] != y3)
    && r[11] == c[15] && r[12] == y0 && r[13] == y1 && r[14] == y2 && r[15] == y3
  }

  lemma TwoEighths(c: seq<bool>, y0: bool, y1: bool, h: seq<bool>, y2: bool, y3: bool, r: seq<bool>)
    requires |c| == |h| == |r| == 16 && IsEighth(c, y0, y1, h) && IsEighth(h, y2, y3, r)
    ensures IsQuarter(c, y0, y1, y2, y3, r)
  {}

  lemma FourShiftPlaces(c: seq<bool>, w: seq<bool>, y0: bool, y1: bool, y2: bool, y3: bool)
    requires |c| == 16 && |w| == 4
    requires y0 == (c[0] != w[0]) && y1 == (c[1] != w[1]) && y2 == (c[2] != w[2]) && y3 == (c[3] != w[3])
    ensures IsQuarter(c, y0, y1, y2, y3, FourShifts(c, w))
  {
    var h := TwoShifts(c, w[0], w[1]);
    TwoShiftsEighth(c, w[0], w[1], y0, y1);
    assert h[0] == c[2] && h[1] == c[3];
    TwoShiftsEighth(h, w[2], w[3], y2, y3);
    hide TwoShifts, IsEighth, IsQuarter;
    TwoEighths(c, y0, y1, h, y2, y3, FourShifts(c, w));
  }

  lemma EightShiftPlaces(c: seq<bool>, w: seq<bool>, y: seq<bool>)
    requires |c| == 16 && |w| == |y| == 8 && IsFeedback(c, w, y)
    ensures IsMixed(c, y, FourShifts(FourShifts(c, w[..4]), w[4..]))
  {
    hide FourShifts;
    FourShiftPlaces(c, w[..4], y[0], y[1], y[2], y[3]);
    FourShiftPlaces(FourShifts(c, w[..4]), w[4..], y[4], y[5], y[6], y[7]);
  }

  lemma DivideTwo(reg: seq<bool>, w: seq<bool>)
    requires |reg| == 16 && |w| >= 2
    ensures Divide(reg, w) == Divide(TwoShifts(reg, w[0], w[1]), w[2..])
  {
    hide Shift;
    assert w[1..][1..] == w[2..];
  }

  lemma DivideFour(reg: seq<bool>, w: seq<bool>)
    requires |reg| == 16 && |w| == 4
    ensures Divide(reg, w) == FourShifts(reg, w)
  {
    hide TwoShifts;
    DivideTwo(reg, w);
    DivideTwo(TwoShifts(reg, w[0], w[1]), w[2..]);
    assert w[2..][2..] == [];
  }

  lemma MixedOnce(c: seq<bool>, y: seq<bool>, r: seq<bool>, s: seq<bool>)
    requires |c| == |r| == |s| == 16 && |y| == 8 && IsMixed(c, y, r) && IsMixed(c, y, s)
    ensures r == s
  {}

  /** The byte-at-a-time update is eight steps of bit-serial division. */
  lemma AccumulatedIsDivision(crc: bv16, b: byte)
    ensures RegisterBits(Accumulated(crc, b)) == Divide(RegisterBits(crc), ByteBits(b))
  {
    hide RegisterBits, ByteBits, Feedback, Mixed, FourShifts, Divide, IsFeedback, IsMixed;
    var c, w, y := RegisterBits(crc), ByteBits(b), Feedback(crc, b);
    MixedPlaces(crc, y);
    FeedbackPlaces(crc, b);
    EightShiftPlaces(c, w, ByteBits(y));
    assert w == w[..4] + w[4..];
    DivideConcat(c, w[..4], w[4..]);
    DivideFour(c, w[..4]);
    DivideFour(FourShifts(c, w[..4]), w[4..]);
    MixedOnce(c, ByteBits(y), RegisterBits(Accumulated(crc, b)), Divide(c, w));
  }

  lemma {:induction false} AccumulatedBytesIsDivision(crc: bv16, data: seq<byte>)
    ensures RegisterBits(AccumulatedBytes(crc, data)) == Divide(RegisterBits(crc), Bits(data))
    decreases data
  {
    hide RegisterBits, Accumulated, ByteBits;
    if data != [] {
      AccumulatedIsDivision(crc, data[0]);
      DivideConcat(RegisterBits(crc), ByteBits(data[0]), Bits(data[1..]));
      AccumulatedBytesIsDivision(Accumulated(crc, data[0]), data[1..]);
    }
  }

  lemma {:induction false} DivideConcat(reg: seq<bool>, a: seq<bool>, b: seq<bool>)
    requires |reg| == 16
    ensures Divide(reg, a + b) == Divide(Divide(reg, a), b)
    decreases a
  {
    if a == [] {
      assert a + b == b;
    } else {
      assert (a + b)[1..] == a[1..] + b;
      DivideConcat(Shift(reg, a[0]), a[1..], b);
    }
  }

  lemma {:induction false} AccumulatedBytesConcat(crc: bv16, a: seq<byte>, b: seq<byte>)
    ensures AccumulatedBytes(crc, a + b) == AccumulatedBytes(AccumulatedBytes(crc, a), b)
    decreases a
  {
    hide Accumulated;
    if a == [] {
      assert a + b == b;
    } else {
      assert (a + b)[1..] == a[1..] + b;
      AccumulatedBytesConcat(Accumulated(crc, a[0]), a[1..], b);
    }
  }

  // ---------------------------------------------------------------- polynomial long division

  function Subtracted(poly: seq<bool>): (r: seq<bool>)
    ensures |r| == |poly|
    ensures forall i :: 0 <= i < |poly| ==> r[i] == (poly[i] != Tap(i))
  {
    seq(|poly|, i requires 0 <= i < |poly| => poly[i] != Tap(i))
  }

  /** Remainder of a polynomial, coefficients highest power first, on division by the generator:
      while more than 16 coefficients are left, a leading 1 is cancelled by subtracting the
      generator, and the leading place is dropped. */
  function Remainder(poly: seq<bool>): (r: seq<bool>)
    requires |poly| >= 16
    ensures |r| == 16
    decreases |poly|
  {
    if |poly| == 16 then poly
    else if poly[0] then Remainder(Subtracted(poly[1..]))
    else Remainder(poly[1..])
  }

  /** message * x^16, with the starting register subtracted from its first 16 coefficients. */
  function Dividend(reg: seq<bool>, message: seq<bool>): (poly: seq<bool>)
    requires |reg| == 16
    ensures |poly| == |message| + 16
  {
    Xor(message + Zeros(16), reg + Zeros(|message|))
  }

  lemma {:induction false} DivideIsRemainder(reg: seq<bool>, message: seq<bool>)
    requires |reg| == 16
    ensures Divide(reg, message) == Remainder(Dividend(reg, message))
    decreases message
  {
    if message == [] {
      assert Dividend(reg, message) == reg;
    } else {
      var next := Shift(reg, message[0]);
      var poly := Dividend(reg, message);
      if poly[0] {
        assert Subtracted(poly[1..]) == Dividend(next, message[1..]);
      } else {
        assert poly[1..] == Dividend(next, message[1..]);
      }
      DivideIsRemainder(next, message[1..]);
    }
  }

  /** The checksum the source computes is the polynomial remainder of the data bits. */
  lemma ChecksumIsPolynomialRemainder(crc: bv16, data: seq<byte>)
    ensures RegisterBits(AccumulatedBytes(crc, data)) == Remainder(Dividend(RegisterBits(crc), Bits(data)))
  {
    hide RegisterBits, AccumulatedBytes;
    AccumulatedBytesIsDivision(crc, data);
    DivideIsRemainder(RegisterBits(crc), Bits(data));
  }

  // ---------------------------------------------------------------- what it detects

  lemma {:induction false} DivideLinear(r: seq<bool>, s: seq<bool>, a: seq<bool>, b: seq<bool>)
    requires |r| == |s| == 16 && |a| == |b|
    ensures Xor(Divide(r, a), Divide(s, b)) == Divide(Xor(r, s), Xor(a, b))
    decreases a
  {
    if a != [] {
      assert Xor(Shift(r, a[0]), Shift(s, b[0])) == Shift(Xor(r, s), Xor(a, b)[0]);
      assert Xor(a, b)[1..] == Xor(a[1..], b[1..]);
      DivideLinear(Shift(r, a[0]), Shift(s, b[0]), a[1..], b[1..]);
    }
  }

  lemma {:induction false} DivideZeros(n: nat, reg: seq<bool>)
    requires |reg| == 16
    ensures Divide(reg, Zeros(n)) == Zeros(16) <==> reg == Zeros(16)
    decreases n
  {
    if n != 0 {
      assert Zeros(n)[1..] == Zeros(n - 1);
      DivideZeros(n - 1, Shift(reg, false));
      var shifted := reg[1..] + [false];
      if reg[0] {
        assert Shift(reg, false)[15];
      } else if shifted == Zeros(16) {
        assert reg == [false] + shifted[..15];
      }
    }
  }

  /** At most 16 bits bring the register to 0 exactly when they are the register's own bits and the
      rest of the register is clear. */
  lemma {:induction false} ReachesZeroExactly(reg: seq<bool>, bits: seq<bool>)
    requires |reg| == 16 && |bits| <= 16
    ensures Divide(reg, bits) == Zeros(16) <==> reg == bits + Zeros(16 - |bits|)
    decreases bits
  {
    if bits == [] {
      assert bits + Zeros(16) == Zeros(16);
    } else {
      var next := Shift(reg, bits[0]);
      var rest := bits[1..] + Zeros(17 - |bits|);
      ReachesZeroExactly(next, bits[1..]);
      var shifted := reg[1..] + [false];
      var target := bits + Zeros(16 - |bits|);
      assert !rest[15];
      if reg[0] != bits[0] {
        assert next[15];
        assert reg[0] != target[0];
      } else {
        assert rest == target[1..] + [false];
        if shifted == rest {
          assert reg == [bits[0]] + shifted[..15];
          assert target == [bits[0]] + rest[..15];
        }
      }
    }
  }

  /** a and b agree outside the 16 bits that start at `from`. */
  ghost predicate AgreeOutside16(a: seq<bool>, b: seq<bool>, from: nat) {
    && |a| == |b|
    && from <= |a|
    && a[..from] == b[..from]
    && (forall i :: from + 16 <= i < |a| ==> a[i] == b[i])
  }

  /** Every nonzero burst of at most 16 bits, whatever surrounds it, leaves a remainder. */
  lemma BurstLeavesRemainder(before: nat, burst: seq<bool>, after: nat)
    requires |burst| <= 16 && burst != Zeros(|burst|)
    ensures Divide(Zeros(16), Zeros(before) + (burst + Zeros(after))) != Zeros(16)
  {
    DivideConcat(Zeros(16), Zeros(before), burst + Zeros(after));
    DivideZeros(before, Zeros(16));
    DivideConcat(Zeros(16), burst, Zeros(after));
    DivideZeros(after, Divide(Zeros(16), burst));
    ReachesZeroExactly(Zeros(16), burst);
    var k :| 0 <= k < |burst| && burst[k];
    assert (burst + Zeros(16 - |burst|))[k];
  }

  /** Every error burst of at most 16 bits changes the register. */
  lemma BurstChangesRegister(reg: seq<bool>, a: seq<bool>, b: seq<bool>, from: nat)
    requires |reg| == 16 && AgreeOutside16(a, b, from) && a != b
    ensures Divide(reg, a) != Divide(reg, b)
  {
    hide Divide;
    var x := Xor(a, b);
    var to := if from + 16 <= |x| then from + 16 else |x|;
    var burst := x[from..to];
    assert x == Zeros(from) + (burst + Zeros(|x| - to));
    var k :| 0 <= k < |a| && a[k] != b[k];
    assert burst[k - from];
    BurstLeavesRemainder(from, burst, |x| - to);
    DivideLinear(reg, reg, a, b);
    XorSelf(reg);
    XorSelf(Divide(reg, a));
  }

  lemma {:induction false} BitsConcat(a: seq<byte>, b: seq<byte>)
    ensures Bits(a + b) == Bits(a) + Bits(b)
  {
    hide ByteBits;
    if a == [] {
      assert a + b == b;
    } else {
      assert (a + b)[1..] == a[1..] + b;
      BitsConcat(a[1..], b);
    }
  }

  lemma ByteBitsInjective(a: byte, b: byte)
    requires ByteBits(a) == ByteBits(b)
    ensures a == b
  {
    var p, q := ByteBits(a), ByteBits(b);
    assert p[0] == q[0] && p[1] == q[1] && p[2] == q[2] && p[3] == q[3];
    assert p[4] == q[4] && p[5] == q[5] && p[6] == q[6] && p[7] == q[7];
  }

  lemma {:induction false} BitsInjective(a: seq<byte>, b: seq<byte>)
    requires Bits(a) == Bits(b)
    ensures a == b
  {
    hide ByteBits;
    assert |a| == |b|;
    if a != [] {
      assert ByteBits(a[0]) == Bits(a)[..8] == Bits(b)[..8] == ByteBits(b[0]);
      assert Bits(a[1..]) == Bits(a)[8..] == Bits(b)[8..] == Bits(b[1..]);
      ByteBitsInjective(a[0], b[0]);
      BitsInjective(a[1..], b[1..]);
      assert a == [a[0]] + a[1..] == [b[0]] + b[1..] == b;
    }
  }

  /** Detection as the frame decoder meets it: two byte strings that differ only within 16
      consecutive bits never share a checksum. */
  lemma BurstDetected(crc: bv16, a: seq<byte>, b: seq<byte>, from: nat)
    requires AgreeOutside16(Bits(a), Bits(b), from) && a != b
    ensures AccumulatedBytes(crc, a) != AccumulatedBytes(crc, b)
  {
    hide RegisterBits, AccumulatedBytes, ByteBits;
    AccumulatedBytesIsDivision(crc, a);
    AccumulatedBytesIsDivision(crc, b);
    if Bits(a) == Bits(b) {
      BitsInjective(a, b);
    }
    BurstChangesRegister(RegisterBits(crc), Bits(a), Bits(b), from);
  }

  /** Damage to one byte or two adjacent bytes is such a burst. */
  lemma TwoAdjacentBytesAreABurst(pre: seq<byte>, x: seq<byte>, y: seq<byte>, post: seq<byte>)
    requires |x| == |y| <= 2
    ensures AgreeOutside16(Bits(pre + (x + post)), Bits(pre + (y + post)), 8 * |pre|)
  {
    hide Bits;
    BitsConcat(pre, x + post);
    BitsConcat(x, post);
    BitsConcat(pre, y + post);
    BitsConcat(y, post);
  }

  lemma BytesDetermine(c: bv16, d: bv16)
    requires LowByte(c) == LowByte(d) && HighByte(c) == HighByte(d)
    ensures c == d
  {}

  lemma RegisterBitsInjective(c: bv16, d: bv16)
    requires RegisterBits(c) == RegisterBits(d)
    ensures c == d
  {
    hide ByteBits, LowByte, HighByte;
    assert RegisterBits(c)[..8] == ByteBits(LowByte(c)) && RegisterBits(c)[8..] == ByteBits(HighByte(c));
    assert RegisterBits(d)[..8] == ByteBits(LowByte(d)) && RegisterBits(d)[8..] == ByteBits(HighByte(d));
    ByteBitsInjective(LowByte(c), LowByte(d));
    ByteBitsInjective(HighByte(c), HighByte(d));
    BytesDetermine(c, d);
  }

  /** Equal bytes that follow never undo a difference in the register. */
  lemma LaterBytesKeepDifference(c: bv16, d: bv16, data: seq<byte>)
    ensures AccumulatedBytes(c, data) == AccumulatedBytes(d, data) <==> c == d
  {
    hide RegisterBits, AccumulatedBytes, ByteBits;
    var r, s, m := RegisterBits(c), RegisterBits(d), Bits(data);
    AccumulatedBytesIsDivision(c, data);
    AccumulatedBytesIsDivision(d, data);
    DivideLinear(r, s, m, m);
    assert Xor(m, m) == Zeros(|m|);
    DivideZeros(|m|, Xor(r, s));
    if AccumulatedBytes(c, data) == AccumulatedBytes(d, data) {
      assert Xor(Divide(r, m), Divide(s, m)) == Zeros(16);
      assert r == s by {
        assert forall i :: 0 <= i < 16 ==> Xor(r, s)[i] == (r[i] != s[i]);
      }
      RegisterBitsInjective(c, d);
    }
  }

  /** Fed two more bytes the register ends at 0 exactly when they are its own, low byte first. */
  lemma OwnBytesLeaveZero(crc: bv16, low: byte, high: byte)
    ensures RegisterBits(AccumulatedBytes(crc, [low, high])) == Zeros(16)
      <==> low == LowByte(crc) && high == HighByte(crc)
  {
    hide AccumulatedBytes, ByteBits, LowByte, HighByte;
    AccumulatedBytesIsDivision(crc, [low, high]);
    assert [low, high][1..] == [high];
    assert Bits([high]) == ByteBits(high) + Bits([]);
    var m := ByteBits(low) + ByteBits(high);
    assert Bits([low, high]) == m;
    ReachesZeroExactly(RegisterBits(crc), m);
    assert m + Zeros(0) == m;
    if RegisterBits(crc) == m {
      assert ByteBits(low) == m[..8] == ByteBits(LowByte(crc)) && ByteBits(high) == m[8..] == ByteBits(HighByte(crc));
      ByteBitsInjective(low, LowByte(crc));
      ByteBitsInjective(high, HighByte(crc));
    }
  }
}
