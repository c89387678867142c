/** The resynchronising stream decoder of pkg/mavlink/stream.go, over a buffered reader that is fed
  in arbitrary chunks. */
module Stream {
  import opened Wrappers
  import opened Crc
  import opened Frame

  // ---------------------------------------------------------------- the buffered reader

  const READER_SIZE: nat := 4096

  datatype ReadError = EOF | BufferFull

  function Flatten(chunks: seq<seq<byte>>): seq<byte> {
    if chunks == [] then [] else chunks[0] + Flatten(chunks[1..])
  }

  /** `bufio.Reader` of 4096 bytes. `chunks` is what the coming reads of the underlying stream will
      deliver, after which it reports end of file. */
  class BufferedReader {
    var buffered: seq<byte>
    var chunks: seq<seq<byte>>

    ghost predicate Valid()
      reads this
    {
      |buffered| <= READER_SIZE
    }

    /** All bytes not yet consumed, however they will arrive. */
    ghost function Pending(): seq<byte>
      reads this
    {
      buffered + Flatten(chunks)
    }

    ghost function Unread(): nat
      reads this
    {
      |chunks| + |Flatten(chunks)|
    }

    constructor (chunks: seq<seq<byte>>)
      ensures Valid() && Pending() == Flatten(chunks)
    {
      this.buffered := [];
      this.chunks := chunks;
    }

    /** One read of the underlying stream, into the free part of the buffer. */
    method Fill()
      requires Valid() && |buffered| < READER_SIZE && chunks != []
      modifies this
      ensures Valid() && Pending() == old(Pending())
      ensures old(buffered) <= buffered
      ensures Unread() < old(Unread())
    {
      var chunk := chunks[0];
      var free := READER_SIZE - |buffered|;
      if |chunk| <= free {
        buffered := buffered + chunk;
        chunks := chunks[1..];
      } else {
        ghost var rest := Flatten(chunks[1..]);
        buffered := buffered + chunk[..free];
        chunks := [chunk[free..]] + chunks[1..];
        assert chunk == chunk[..free] + chunk[free..];
        assert Flatten(chunks) == chunk[free..] + rest;
      }
    }

    method ReadByte() returns (r: Result<byte, ReadError>)
      requires Valid()
      modifies this
      ensures Valid()
      ensures old(Pending()) == [] ==> r == Err(EOF) && Pending() == []
      ensures old(Pending()) != [] ==> r == Ok(old(Pending())[0]) && Pending() == old(Pending())[1..]
    {
      while buffered == []
        invariant Valid() && Pending() == old(Pending())
        decreases Unread()
      {
        if chunks == [] {
          return Err(EOF);
        }
        Fill();
      }
      r := Ok(buffered[0]);
      buffered := buffered[1..];
    }

    method Peek(n: nat) returns (r: Result<seq<byte>, ReadError>)
      requires Valid()
      modifies this
      ensures Valid() && Pending() == old(Pending())
      ensures r ==
              if n > READER_SIZE then Err(BufferFull)
              else if n > |Pending()| then Err(EOF)
              else Ok(Pending()[..n])
      ensures r.Ok? ==> n <= |buffered|
    {
      if n > READER_SIZE {
        return Err(BufferFull);
      }
      while |buffered| < n && chunks != []
        invariant Valid() && Pending() == old(Pending())
        decreases Unread()
      {
        Fill();
      }
      if |buffered| < n {
        return Err(EOF);
      }
      assert buffered[..n] == Pending()[..n];
      return Ok(buffered[..n]);
    }

    /** `Discard` of bytes already in the buffer. */
    method Discard(n: nat)
      requires Valid() && n <= |buffered|
      modifies this
      ensures Valid() && Pending() == old(Pending())[n..]
    {
      buffered := buffered[n..];
    }
  }

  // ---------------------------------------------------------------- what one call returns

  /** Outcome of one call of `NextFrame`, with the number of bytes it consumes. */
  datatype Scanned = Got(frame: Frame, used: nat) | AtEnd(used: nat) {
    function Advanced(n: nat): Scanned {
      match this
      case Got(frame, used) => Got(frame, used + n)
      case AtEnd(used) => AtEnd(used + n)
    }
  }

  predicate Fits(s: seq<byte>) {
    |s| >= HEADER_LEN && |s| >= PacketLen(s[1])
  }

  function Scan(s: seq<byte>): (r: Scanned)
    ensures r.used <= |s|
    ensures r.Got? ==> r.used > 0
  {
    if s == [] then AtEnd(0)
    else if s[0] != MAGIC_V2 then Scan(s[1..]).Advanced(1)
    else if !Fits(s) then AtEnd(1)
    else match Decoded(s[..PacketLen(s[1])])
      case Ok(frame) => Got(frame, PacketLen(s[1]))
      case Err(_) => Scan(s[1..]).Advanced(1)
  }

  /** Outcome of looking at a magic byte; an accepted packet comes with its bytes. */
  datatype Attempt = CutShort(error: ReadError) | Rejected | Accepted(frame: Frame, packet: seq<byte>)

  function Attempted(s: seq<byte>): Attempt
    requires s != []
  {
    if !Fits(s) then CutShort(EOF)
    else
      match Decoded(s[..PacketLen(s[1])])
      case Ok(frame) => Accepted(frame, s[..PacketLen(s[1])])
      case Err(_) => Rejected
  }

  lemma ScanSkips(all: seq<byte>, at: nat)
    requires at < |all|
    requires all[at] != MAGIC_V2
          || (Fits(all[at..]) && Decoded(all[at..][..PacketLen(all[at + 1])]).Err?)
    ensures Scan(all[at..]) == Scan(all[at + 1..]).Advanced(1)
  {
    hide Decoded;
    assert all[at..][1..] == all[at + 1..];
  }

  class StreamDecoder {
    const reader: BufferedReader

    constructor (chunks: seq<seq<byte>>)
      ensures fresh(reader) && reader.Valid() && reader.Pending() == Flatten(chunks)
    {
      reader := new BufferedReader(chunks);
    }

    /** The part of the loop that follows a magic byte: peek, decode, and consume a whole packet or
        nothing. No peek asks for more than the buffer holds. */
    method TakePacket() returns (r: Attempt)
      requires reader.Valid()
      modifies reader
      ensures reader.Valid()
      ensures r == Attempted([MAGIC_V2] + old(reader.Pending()))
      ensures r.Accepted? ==> |r.packet| - 1 <= |old(reader.Pending())|
      ensures
        reader.Pending() == if r.Accepted? then old(reader.Pending())[|r.packet| - 1..] else old(reader.Pending())
    {
      hide Decoded, PacketLen, BufferedReader.Pending, BufferedReader.Unread;
      ghost var rest := reader.Pending();
      var headerRest := reader.Peek(HEADER_LEN - 1);
      if headerRest.Err? {
        return CutShort(headerRest.error);
      }
      var totalPacketLen := PacketLen(headerRest.value[0]);
      PacketsAreLong(headerRest.value[0]);
      var needed := totalPacketLen - 1;
      var packetRest := reader.Peek(needed);
      if packetRest.Err? {
        return CutShort(packetRest.error);
      }
      var fullPacket := [MAGIC_V2] + packetRest.value;
      assert ([MAGIC_V2] + rest)[..totalPacketLen] == fullPacket;
      var frame := DecodeFrame(fullPacket);
      if frame.Err? {
        return Rejected;
      }
      reader.Discard(needed);
      return Accepted(frame.value, fullPacket);
    }

    /** The result and the bytes consumed are those of `Scan` on the pending bytes: they do not
        depend on how the bytes arrive. */
    method NextFrame() returns (r: Result<Frame, ReadError>)
      requires reader.Valid()
      modifies reader
      ensures reader.Valid()
      ensures
        var scanned := Scan(old(reader.Pending()));
        && r == (if scanned.Got? then Ok(scanned.frame) else Err(EOF))
        && reader.Pending() == old(reader.Pending())[scanned.used..]
    {
      hide Scan, Attempted, BufferedReader.Pending, BufferedReader.Unread;
      ghost var all := reader.Pending();
      ghost var at := 0;
      assert all[0..] == all;
      while true
        invariant reader.Valid()
        invariant 0 <= at <= |all| && reader.Pending() == all[at..]
        invariant Scan(all) == Scan(all[at..]).Advanced(at)
        decreases |all| - at
      {
        var b := reader.ReadByte();
        if b.Err? {
          ScanNothing(all, at);
          return Err(EOF);
        }
        assert reader.Pending() == all[at + 1..];
        if b.value != MAGIC_V2 {
          ScanSkips(all, at);
          at := at + 1;
          continue;
        }
        ScanAttempt(all, at);
        var attempt := TakePacket();
        match attempt {
          case CutShort(error) =>
            return Err(error);
          case Rejected =>
            at := at + 1;
          case Accepted(frame, packet) =>
            assert all[at + 1..][|packet| - 1..] == all[at + |packet|..];
            return Ok(frame);
        }
      }
    }
  }

  lemma PacketsAreLong(lengthByte: byte)
    ensures PacketLen(lengthByte) >= HEADER_LEN + CHECKSUM_LEN
  {}

  lemma ScanNothing(all: seq<byte>, at: nat)
    requires at == |all|
    ensures Scan(all[at..]) == AtEnd(0)
  {}

  /** At a magic byte the scan does what the attempt says. */
  lemma ScanAttempt(all: seq<byte>, at: nat)
    requires at < |all| && all[at] == MAGIC_V2
    ensures
      match Attempted([MAGIC_V2] + all[at + 1..])
      case CutShort(error) => error == EOF && Scan(all[at..]) == AtEnd(1)
      case Rejected => Scan(all[at..]) == Scan(all[at + 1..]).Advanced(1)
      case Accepted(frame, packet) => Scan(all[at..]) == Got(frame, |packet|)
  {
    hide Decoded, PacketLen;
    assert [MAGIC_V2] + all[at + 1..] == all[at..];
    assert all[at..][1..] == all[at + 1..];
  }

  // ---------------------------------------------------------------- leftmost parse

  ghost predicate Candidate(s: seq<byte>, i: nat) {
    i < |s| && s[i] == MAGIC_V2
  }

  function PacketAt(s: seq<byte>, i: nat): seq<byte>
    requires i <= |s| && Fits(s[i..])
  {
    s[i..][..PacketLen(s[i..][1])]
  }

  /** A whole packet that the frame decoder accepts as f starts at i. */
  ghost predicate AcceptedAt(s: seq<byte>, i: nat, f: Frame) {
    Candidate(s, i) && Fits(s[i..]) && Decoded(PacketAt(s, i)) == Ok(f)
  }

  /** The hunt stops at i: there is an accepted packet, or one that runs past the end. */
  ghost predicate Decisive(s: seq<byte>, i: nat) {
    Candidate(s, i) && (Fits(s[i..]) ==> Decoded(PacketAt(s, i)).Ok?)
  }

  ghost predicate Leftmost(s: seq<byte>, i: nat) {
    Decisive(s, i) && forall j :: 0 <= j < i ==> !Decisive(s, j)
  }

  lemma DecisiveShifts(s: seq<byte>, i: nat)
    requires s != []
    ensures Decisive(s, i + 1) == Decisive(s[1..], i)
    ensures forall f :: AcceptedAt(s, i + 1, f) == AcceptedAt(s[1..], i, f)
    ensures Candidate(s, i + 1) == Candidate(s[1..], i)
    ensures i < |s[1..]| ==> s[i + 1..] == s[1..][i..]
  {
    hide Decoded, Fits, PacketLen;
    assert i < |s[1..]| ==> s[i + 1..] == s[1..][i..];
  }

  /** One call returns the packet at the leftmost decisive position if it is complete, end of file
      one byte after that position if it is cut short, and otherwise end of file after everything. */
  ghost predicate IsLeftmostParse(s: seq<byte>, r: Scanned) {
    match r
    case Got(f, used) =>
      exists i: nat :: Leftmost(s, i) && AcceptedAt(s, i, f) && used == i + |Wire(f)|
    case AtEnd(used) =>
      || (used == |s| && forall i :: 0 <= i < |s| ==> !Decisive(s, i))
      || (exists i: nat :: Leftmost(s, i) && !Fits(s[i..]) && used == i + 1)
  }

  lemma {:induction false} ScanIsLeftmostParse(s: seq<byte>)
    ensures IsLeftmostParse(s, Scan(s))
  {
    hide Decoded, Wire;
    if s == [] {
    } else if s[0] == MAGIC_V2 && !Fits(s) {
      assert s[0..] == s;
      assert Leftmost(s, 0);
    } else if s[0] == MAGIC_V2 && Decoded(s[..PacketLen(s[1])]).Ok? {
      assert s[0..] == s;
      var f := Decoded(s[..PacketLen(s[1])]).value;
      assert AcceptedAt(s, 0, f);
      assert Leftmost(s, 0);
      PacketLength(s[..PacketLen(s[1])]);
    } else {
      assert s[0..] == s;
      assert !Decisive(s, 0);
      ScanIsLeftmostParse(s[1..]);
      LeftmostShifts(s, Scan(s[1..]));
    }
  }

  lemma PacketLength(packet: seq<byte>)
    requires Decoded(packet).Ok? && |packet| == PacketLen(packet[1])
    ensures |packet| == |Wire(Decoded(packet).value)|
  {
    WireOfFields(packet);
    assert packet[..|packet|] == packet;
  }

  lemma LeftmostShifts(s: seq<byte>, r: Scanned)
    requires s != [] && !Decisive(s, 0) && IsLeftmostParse(s[1..], r)
    ensures IsLeftmostParse(s, r.Advanced(1))
  {
    hide Decoded, Wire, Fits;
    forall i: nat
      ensures Decisive(s, i + 1) == Decisive(s[1..], i)
    {
      DecisiveShifts(s, i);
    }
    if i: nat :| Leftmost(s[1..], i) && (if r.Got? then AcceptedAt(s[1..], i, r.frame) && r.used == i + |Wire(r.frame)|
                                    else !Fits(s[1..][i..]) && r.used == i + 1) {
      DecisiveShifts(s, i);
      assert Leftmost(s, i + 1) by {
        forall j | 0 <= j < i + 1
          ensures !Decisive(s, j)
        {
          if j > 0 {
            assert Decisive(s, (j - 1) + 1) == Decisive(s[1..], j - 1);
          }
        }
      }
    } else {
      forall i | 0 <= i < |s|
        ensures !Decisive(s, i)
      {
        if i > 0 {
          assert Decisive(s, (i - 1) + 1) == Decisive(s[1..], i - 1);
        }
      }
    }
  }

  lemma SameLeftmost(s: seq<byte>, i: nat, j: nat)
    requires Leftmost(s, i) && Leftmost(s, j)
    ensures i == j
  {
    hide Decisive;
  }

  /** That describes one result only, so it is equivalent to what `NextFrame` returns. */
  lemma LeftmostParseIsUnique(s: seq<byte>, r: Scanned)
    ensures IsLeftmostParse(s, r) <==> r == Scan(s)
  {
    hide Decoded, Wire, Scan, Fits;
    ScanIsLeftmostParse(s);
    if IsLeftmostParse(s, r) {
      forall i: nat, j: nat | Leftmost(s, i) && Leftmost(s, j)
        ensures i == j
      {
        SameLeftmost(s, i, j);
      }
    }
  }

  // ---------------------------------------------------------------- recovery of sent frames

  lemma {:induction false} ScanNoise(noise: seq<byte>, s: seq<byte>)
    requires MAGIC_V2 !in noise
    ensures Scan(noise + s) == Scan(s).Advanced(|noise|)
  {
    hide Decoded;
    if noise == [] {
      assert noise + s == s;
    } else {
      assert (noise + s)[1..] == noise[1..] + s;
      ScanNoise(noise[1..], s);
    }
  }

  lemma WireStart(f: Frame, s: seq<byte>)
    requires WellFormed(f)
    ensures (Wire(f) + s)[0] == MAGIC_V2 && Fits(Wire(f) + s)
    ensures (Wire(f) + s)[..PacketLen((Wire(f) + s)[1])] == Wire(f)
  {
    FieldsOfWire(f, s);
    hide Wire;
  }

  lemma ScanWire(f: Frame, s: seq<byte>)
    requires Acceptable(f)
    ensures Scan(Wire(f) + s) == Got(f, |Wire(f)|)
  {
    WireStart(f, s);
    DecodedWire(f, []);
    assert Wire(f) + [] == Wire(f);
    hide Wire, Decoded;
  }

  lemma ScanRejected(received: seq<byte>, s: seq<byte>)
    requires |received| >= HEADER_LEN && received[0] == MAGIC_V2 && |received| == PacketLen(received[1])
    requires Decoded(received).Err? && MAGIC_V2 !in received[1..]
    ensures Scan(received + s) == Scan(s).Advanced(|received|)
  {
    hide Scan, Decoded, PacketLen;
    var all := received + s;
    assert all[0..] == all && all[..|received|] == received;
    ScanSkips(all, 0);
    assert all[1..] == received[1..] + s;
    ScanNoise(received[1..], s);
  }

  lemma ScanDamaged(f: Frame, received: seq<byte>, from: nat, s: seq<byte>)
    requires Acceptable(f) && Known(f.messageId) && Damaged(Wire(f), received, from)
    requires MAGIC_V2 !in received[1..]
    ensures Scan(received + s) == Scan(s).Advanced(|received|)
  {
    hide Wire, Decoded, Scan, Checksum, CrcExtra, Body;
    DamagedFraming(f, received, from);
    DamageRejected(f, received, from, []);
    assert received + [] == received;
    hide Damaged, Acceptable, Known, Fields;
    ScanRejected(received, s);
  }

  /** What arrives on the line, piece by piece. */
  datatype Segment =
    | Sent(frame: Frame)
    | Noise(bytes: seq<byte>)
    | Hit(original: Frame, received: seq<byte>, from: nat)
  {
    function Bytes(): seq<byte> {
      match this
      case Sent(f) => Wire(f)
      case Noise(b) => b
      case Hit(_, b, _) => b
    }

    /** Noise holds no magic byte; a hit frame has a known ID, suffered one burst of at most 16 bits
        in its header flags and addresses or its payload, and holds no magic byte but its first. */
    ghost predicate Valid() {
      match this
      case Sent(f) => Acceptable(f)
      case Noise(b) => MAGIC_V2 !in b
      case Hit(f, b, from) =>
        Acceptable(f) && Known(f.messageId) && Damaged(Wire(f), b, from) && MAGIC_V2 !in b[1..]
    }

    function Intact(): seq<Frame> {
      if Sent? then [frame] else []
    }
  }

  function Line(segments: seq<Segment>): seq<byte> {
    if segments == [] then [] else segments[0].Bytes() + Line(segments[1..])
  }

  function IntactFrames(segments: seq<Segment>): seq<Frame> {
    if segments == [] then [] else segments[0].Intact() + IntactFrames(segments[1..])
  }

  /** The frames that calls of `NextFrame` return until the first end of file, and the bytes that
      are then still unread. */
  function Drain(s: seq<byte>): (seq<Frame>, seq<byte>)
    decreases |s|
  {
    var scanned := Scan(s);
    if scanned.Got? then
      var (frames, unread) := Drain(s[scanned.used..]);
      ([scanned.frame] + frames, unread)
    else ([], s[scanned.used..])
  }

  lemma {:induction false} DrainAfterSkip(skipped: seq<byte>, s: seq<byte>)
    requires Scan(skipped + s) == Scan(s).Advanced(|skipped|)
    ensures Drain(skipped + s) == Drain(s)
  {
    hide Scan;
    assert (skipped + s)[|skipped| + Scan(s).used..] == s[Scan(s).used..];
  }

  lemma DrainSegment(g: Segment, rest: seq<byte>)
    requires g.Valid()
    ensures
      var (frames, unread) := Drain(rest);
      Drain(g.Bytes() + rest) == (g.Intact() + frames, unread)
  {
    hide Scan, Decoded, Wire, Damaged, Acceptable, Known;
    match g
    case Sent(f) =>
      ScanWire(f, rest);
      assert (Wire(f) + rest)[|Wire(f)|..] == rest;
    case Noise(b) =>
      ScanNoise(b, rest);
      DrainAfterSkip(b, rest);
      assert g.Intact() + Drain(rest).0 == Drain(rest).0;
    case Hit(f, b, from) =>
      ScanDamaged(f, b, from, rest);
      DrainAfterSkip(b, rest);
      assert g.Intact() + Drain(rest).0 == Drain(rest).0;
  }

  /** Draining the line returns every intact frame, in order, and nothing else, and reads all of it:
      noise and damaged frames neither hide a frame nor add one. */
  lemma {:induction false} DrainReturnsIntactFrames(segments: seq<Segment>)
    requires forall g :: g in segments ==> g.Valid()
    ensures Drain(Line(segments)) == (IntactFrames(segments), [])
  {
    if segments != [] {
      assert segments[0] in segments;
      DrainReturnsIntactFrames(segments[1..]);
      DrainSegment(segments[0], Line(segments[1..]));
      hide Drain;
    }
  }

  lemma AcceptedIsNextExactly(s: seq<byte>, n: nat, f: Frame)
    requires AcceptedAt(s, n, f)
    ensures Scan(s) == Got(f, n + |Wire(f)|) <==> forall i :: 0 <= i < n ==> !Decisive(s, i)
  {
    hide Scan, Decoded, Wire, Fits;
    LeftmostParseIsUnique(s, Got(f, n + |Wire(f)|));
    if forall i :: 0 <= i < n ==> !Decisive(s, i) {
      assert Leftmost(s, n);
    }
  }

  lemma WireIsAccepted(f: Frame, tail: seq<byte>)
    requires Acceptable(f)
    ensures AcceptedAt(Wire(f) + tail, 0, f)
  {
    WireStart(f, tail);
    DecodedWire(f, []);
    hide Decoded, Wire, Acceptable, Fits, PacketLen;
    var s := Wire(f) + tail;
    assert Wire(f) + [] == Wire(f);
    assert s[0..] == s;
  }

  lemma AcceptedAfter(before: seq<byte>, s: seq<byte>, f: Frame)
    requires AcceptedAt(s, 0, f)
    ensures AcceptedAt(before + s, |before|, f)
  {
    hide Decoded, Fits, PacketLen;
    assert (before + s)[|before|..] == s == s[0..];
  }

  /** A complete frame behind arbitrary bytes is what the next call returns exactly when no position
      before it is decisive, that is, none starts an acceptable packet or one longer than the stream. */
  lemma FrameBehindBytesExactly(before: seq<byte>, f: Frame, tail: seq<byte>)
    requires Acceptable(f)
    ensures
      var s := before + (Wire(f) + tail);
      Scan(s) == Got(f, |before| + |Wire(f)|) <==> forall i :: 0 <= i < |before| ==> !Decisive(s, i)
  {
    var s := before + (Wire(f) + tail);
    WireIsAccepted(f, tail);
    hide *;
    assert s[|before|..] == Wire(f) + tail;
    AcceptedAfter(before, Wire(f) + tail, f);
    AcceptedIsNextExactly(s, |before|, f);
  }

  /** Two stray bytes that look like the start of a 255-byte payload are enough to lose it: the next
      call reports end of file although a complete frame is pending. */
  lemma TruncatedCandidateHidesFrame(f: Frame)
    requires Acceptable(f) && |f.payload| <= 250
    ensures Scan([MAGIC_V2, 0xFF] + Wire(f)) == AtEnd(1)
  {
    hide Wire, Decoded;
  }
}
