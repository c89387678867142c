/** The autopilot aggregator of pkg/mavlink/bridge.go and the read loop of pkg/mavlink/stream_client.go.

  The clock, the square root and the conversion of raw 32-bit floats to degrees are supplied by the
  caller. */
module Bridge {
  import opened Wrappers
  import opened Crc
  import opened Frame
  import opened Messages
  import opened Rounding
  import opened Schema
  import opened Stream

  // ---------------------------------------------------------------- state

  datatype Instruments = Instruments(
    sqrt: real -> real, degrees: uint32 -> real, describe: (real, real, real) -> string)

  datatype Identity = Identity(unitId: string, team: string, vehicleType: string, tier: string)

  datatype Autopilot = Autopilot(
    armed: bool, status: string, position: Coordinates, velocity: Velocity, heading: real,
    battery: real, roll: real, pitch: real, yaw: real, lastUpdate: int)

  function Named(unitId: string, team: string, vehicleType: string, tier: string): Identity {
    Identity(unitId, if team == "" then "blue" else team, if vehicleType == "" then "drone" else vehicleType,
             if tier == "" then TIER2_RESTRICTED else tier)
  }

  /** The zero time of the source is 0 here. */
  const FRESH: Autopilot :=
    Autopilot(false, "STANDBY", Coordinates(0.0, 0.0, 0.0), Velocity(0.0, 0.0, 0.0, 0.0), 0.0, 100.0, 0.0, 0.0, 0.0, 0)

  function Hundredths(n: int): real { n as real / 100.0 }

  function Degrees(n: int): real { n as real / 10000000.0 }

  function AltMeters(g: GlobalPositionInt): real { g.relativeAlt as real / 1000.0 }

  function Position(g: GlobalPositionInt): Coordinates {
    Coordinates(RoundTo(Degrees(g.lat), 6), RoundTo(Degrees(g.lon), 6), RoundTo(AltMeters(g), 2))
  }

  function GroundSpeed(k: Instruments, g: GlobalPositionInt): real {
    var vx, vy := Hundredths(g.vx), Hundredths(g.vy);
    k.sqrt(vx * vx + vy * vy)
  }

  function Motion(k: Instruments, g: GlobalPositionInt): Velocity {
    Velocity(RoundTo(Hundredths(g.vx), 2), RoundTo(Hundredths(g.vy), 2), RoundTo(Hundredths(g.vz), 2),
             RoundTo(GroundSpeed(k, g), 2))
  }

  function Moved(v: Autopilot, at: Coordinates, motion: Velocity, heading: real): Autopilot {
    v.(position := at, velocity := motion, heading := heading,
       status := if v.armed && at.altitudeM > 1.0 then "IN_FLIGHT" else v.status)
  }

  function Absorbed(k: Instruments, v: Autopilot, m: Message): Autopilot {
    match m
    case HeartbeatMsg(h) =>
      v.(armed := h.IsArmed(),
         status := if !h.IsArmed() then "STANDBY" else if v.position.altitudeM > 1.0 then "IN_FLIGHT" else "ARMED")
    case PositionMsg(g) =>
      Moved(v, Position(g), Motion(k, g), RoundTo(Hundredths(g.hdg), 1))
    case StatusMsg(s) =>
      if 0 <= s.batteryRemaining <= 100 then v.(battery := s.batteryRemaining as real) else v
    case AttitudeMsg(a) =>
      v.(roll := RoundTo(k.degrees(a.roll), 1), pitch := RoundTo(k.degrees(a.pitch), 1),
         yaw := RoundTo(k.degrees(a.yaw), 1))
  }

  datatype Arrival = Arrival(frame: Frame, now: int)

  function Reading(a: Arrival): Option<Message> {
    match Decode(a.frame.messageId, a.frame.payload)
    case Ok(m) => Some(m)
    case Err(_) => None
  }

  /** The state after a frame. */
  function Ingested(k: Instruments, v: Autopilot, a: Arrival): Autopilot {
    var t := v.(lastUpdate := a.now);
    match Reading(a)
    case Some(m) => Absorbed(k, t, m)
    case None => t
  }

  function State(k: Instruments, history: seq<Arrival>): Autopilot {
    if history == [] then FRESH
    else Ingested(k, State(k, history[..|history| - 1]), history[|history| - 1])
  }

  lemma DecodeFailsExactly(id: bv32, payload: seq<byte>)
    ensures Decode(id, payload) == Err(NoDecoder) <==> !Decodable(id)
    ensures Decode(id, payload) == Err(PayloadTooShort) <==> Decodable(id) && |payload| < PayloadSize(id)
  {
    hide FromValues, Unpack, Widths, PayloadSize;
  }

  /** The payload of the envelope that reports state v. */
  function Report(k: Instruments, id: Identity, v: Autopilot, sequence: nat): Telemetry {
    Telemetry(id.unitId, id.vehicleType, id.team, v.status, v.battery, v.position, v.velocity, v.heading,
              Some(k.describe(v.roll, v.pitch, v.yaw)), sequence)
  }

  class VehicleState {
    const instruments: Instruments
    const id: Identity
    var armed: bool
    var status: string
    var lat: real
    var lon: real
    var alt: real
    var vx: real
    var vy: real
    var vz: real
    var speed: real
    var heading: real
    var battery: real
    var roll: real
    var pitch: real
    var yaw: real
    var lastUpdate: int
    var sequence: nat

    function View(): Autopilot
      reads this
    {
      Autopilot(armed, status, Coordinates(lat, lon, alt), Velocity(vx, vy, vz, speed), heading, battery,
                roll, pitch, yaw, lastUpdate)
    }

    constructor (instruments: Instruments, unitId: string, team: string, vehicleType: string, tier: string)
      ensures this.instruments == instruments && id == Named(unitId, team, vehicleType, tier)
      ensures View() == FRESH && sequence == 0
    {
      this.instruments := instruments;
      id := Identity(unitId, if team == "" then "blue" else team, if vehicleType == "" then "drone" else vehicleType,
                     if tier == "" then TIER2_RESTRICTED else tier);
      armed, status, battery, sequence := false, "STANDBY", 100.0, 0;
      lat, lon, alt, vx, vy, vz, speed, heading := 0.0, 0.0, 0.0, 0.0, 0.0, 0.0, 0.0, 0.0;
      roll, pitch, yaw, lastUpdate := 0.0, 0.0, 0.0, 0;
    }

    method TakeHeartbeat(h: Heartbeat)
      modifies this
      ensures View() == Absorbed(instruments, old(View()), HeartbeatMsg(h)) && sequence == old(sequence)
    {
      hide Heartbeat.IsArmed;
      armed := h.IsArmed();
      if armed {
        if alt > 1.0 {
          status := "IN_FLIGHT";
        } else {
          status := "ARMED";
        }
      } else {
        status := "STANDBY";
      }
    }

    method SetMotion(motion: Velocity)
      modifies this
      ensures View() == old(View()).(velocity := motion) && sequence == old(sequence)
    {
      vx, vy, vz, speed := motion.vx, motion.vy, motion.vz, motion.speedMps;
    }

    method SetPosition(at: Coordinates, motion: Velocity, hdg: real)
      modifies this
      ensures View() == Moved(old(View()), at, motion, hdg) && sequence == old(sequence)
    {
      lat, lon, alt := at.latitude, at.longitude, at.altitudeM;
      SetMotion(motion);
      heading := hdg;
      if armed && alt > 1.0 {
        status := "IN_FLIGHT";
      }
    }

    method TakePosition(g: GlobalPositionInt)
      modifies this
      ensures View() == Absorbed(instruments, old(View()), PositionMsg(g)) && sequence == old(sequence)
    {
      hide RoundTo, Hundredths, Position, Motion, Moved;
      var at, motion, hdg := Position(g), Motion(instruments, g), RoundTo(Hundredths(g.hdg), 1);
      SetPosition(at, motion, hdg);
    }

    method TakeReading(m: Message)
      modifies this
      ensures View() == Absorbed(instruments, old(View()), m) && sequence == old(sequence)
    {
      hide RoundTo;
      match m {
        case HeartbeatMsg(h) =>
          TakeHeartbeat(h);
        case PositionMsg(g) =>
          TakePosition(g);
        case StatusMsg(s) =>
          if 0 <= s.batteryRemaining <= 100 {
            battery := s.batteryRemaining as real;
          }
        case AttitudeMsg(a) =>
          roll := RoundTo(instruments.degrees(a.roll), 1);
          pitch := RoundTo(instruments.degrees(a.pitch), 1);
          yaw := RoundTo(instruments.degrees(a.yaw), 1);
      }
    }

    /** A frame without a decoder is no error; one whose payload is too short is. */
    method IngestFrame(frame: Frame, now: int) returns (err: Option<MessageError>)
      modifies this
      ensures View() == Ingested(instruments, old(View()), Arrival(frame, now))
      ensures sequence == old(sequence)
      ensures err == if Decodable(frame.messageId) && |frame.payload| < PayloadSize(frame.messageId)
                     then Some(PayloadTooShort) else None
    {
      DecodeFailsExactly(frame.messageId, frame.payload);
      hide Decode, Decodable, PayloadSize, Absorbed;
      lastUpdate := now;
      match Decode(frame.messageId, frame.payload) {
        case Ok(m) =>
          TakeReading(m);
          return None;
        case Err(NoDecoder) =>
          return None;
        case Err(PayloadTooShort) =>
          return Some(PayloadTooShort);
      }
    }

    /** Each envelope takes the next sequence number; the state it reports is not changed. */
    method BuildSecurityEnvelope(digests: Digests, now: int, messageId: string)
      returns (r: Result<Envelope, ConstructionError>)
      modifies `sequence
      ensures sequence == old(sequence) + 1
      ensures r == NewTelemetryEnvelope(digests, id.tier, "mavlink-" + id.unitId,
                                        Report(instruments, id, View(), sequence), [], now, messageId)
    {
      hide Telemetry.Normalized;
      sequence := sequence + 1;
      var payload := Telemetry(
        id.unitId, id.vehicleType, id.team, status, battery, Coordinates(lat, lon, alt),
        Velocity(vx, vy, vz, speed), heading, Some(instruments.describe(roll, pitch, yaw)), sequence);
      r := NewTelemetryEnvelope(digests, id.tier, "mavlink-" + id.unitId, payload, [], now, messageId);
    }
  }

  // ---------------------------------------------------------------- history

  predicate IsHeartbeat(a: Arrival) {
    Reading(a).Some? && Reading(a).value.HeartbeatMsg?
  }

  predicate IsPosition(a: Arrival) {
    Reading(a).Some? && Reading(a).value.PositionMsg?
  }

  /** A battery reading; -1 means unknown. */
  predicate IsCharge(a: Arrival) {
    && Reading(a).Some? && Reading(a).value.StatusMsg?
    && 0 <= Reading(a).value.status.batteryRemaining <= 100
  }

  predicate IsAttitude(a: Arrival) {
    Reading(a).Some? && Reading(a).value.AttitudeMsg?
  }

  predicate IsArming(a: Arrival) {
    IsHeartbeat(a) && Reading(a).value.heartbeat.IsArmed()
  }

  /** Index of the last arrival of a kind, or -1. */
  function Last(history: seq<Arrival>, kind: Arrival -> bool): (i: int)
    ensures -1 <= i < |history|
    ensures i >= 0 ==> kind(history[i])
    ensures forall j :: i < j < |history| ==> !kind(history[j])
  {
    if history == [] then -1
    else if kind(history[|history| - 1]) then |history| - 1
    else Last(history[..|history| - 1], kind)
  }

  /** The altitude last reported, in metres. */
  function Altitude(history: seq<Arrival>): real {
    var i := Last(history, IsPosition);
    if i < 0 then 0.0 else Position(Reading(history[i]).value.position).altitudeM
  }

  /** The battery percentage last reported within range. */
  function Charge(history: seq<Arrival>): real {
    var i := Last(history, IsCharge);
    if i < 0 then 100.0 else Reading(history[i]).value.status.batteryRemaining as real
  }

  /** The last heartbeat was armed. */
  predicate Armed(history: seq<Arrival>) {
    var i := Last(history, IsHeartbeat);
    i >= 0 && IsArming(history[i])
  }

  /** The altitude was above 1 m at the last heartbeat or at some time since. */
  ghost predicate RoseSinceHeartbeat(history: seq<Arrival>) {
    exists n :: Last(history, IsHeartbeat) <= n <= |history| && 0 <= n && Altitude(history[..n]) > 1.0
  }

  lemma LastAppended(history: seq<Arrival>, a: Arrival, kind: Arrival -> bool)
    ensures Last(history + [a], kind) == if kind(a) then |history| else Last(history, kind)
  {
    assert (history + [a])[..|history|] == history;
  }

  lemma RiseAppended(history: seq<Arrival>, a: Arrival)
    ensures
      RoseSinceHeartbeat(history + [a]) <==>
        || Altitude(history + [a]) > 1.0
        || (if IsHeartbeat(a) then Altitude(history) > 1.0 else RoseSinceHeartbeat(history))
  {
    hide Altitude, IsHeartbeat, Last;
    var h, b := history + [a], Last(history, IsHeartbeat);
    LastAppended(history, a, IsHeartbeat);
    assert h[..|h|] == h && h[..|history|] == history && history[..|history|] == history;
    forall n | 0 <= n <= |history|
      ensures h[..n] == history[..n]
    {}
    if Altitude(h) > 1.0 {
      assert RoseSinceHeartbeat(h);
    } else if !IsHeartbeat(a) && RoseSinceHeartbeat(history) {
      var n :| b <= n <= |history| && 0 <= n && Altitude(history[..n]) > 1.0;
      assert Altitude(h[..n]) > 1.0;
    } else if IsHeartbeat(a) && Altitude(history) > 1.0 {
      assert Altitude(h[..|history|]) > 1.0;
    }
  }

  /** Position, velocity and heading are those of the last position frame. */
  ghost predicate Navigates(k: Instruments, v: Autopilot, history: seq<Arrival>) {
    var i := Last(history, IsPosition);
    if i < 0 then v.position == FRESH.position && v.velocity == FRESH.velocity && v.heading == 0.0
    else
      var g := Reading(history[i]).value.position;
      v.position == Position(g) && v.velocity == Motion(k, g) && v.heading == RoundTo(Hundredths(g.hdg), 1)
  }

  /** Roll, pitch and yaw are those of the last attitude frame. */
  ghost predicate Tilts(k: Instruments, v: Autopilot, history: seq<Arrival>) {
    var i := Last(history, IsAttitude);
    if i < 0 then v.roll == 0.0 && v.pitch == 0.0 && v.yaw == 0.0
    else
      var a := Reading(history[i]).value.attitude;
      && v.roll == RoundTo(k.degrees(a.roll), 1) && v.pitch == RoundTo(k.degrees(a.pitch), 1)
      && v.yaw == RoundTo(k.degrees(a.yaw), 1)
  }

  /** Every part of the state is determined by the last frame of the kind it comes from, the status by
      the last heartbeat and the altitudes since. */
  ghost predicate Summarizes(k: Instruments, v: Autopilot, history: seq<Arrival>) {
    && Navigates(k, v, history) && Tilts(k, v, history)
    && v.lastUpdate == (if history == [] then 0 else history[|history| - 1].now)
    && v.armed == Armed(history)
    && v.battery == Charge(history)
    && v.status == (if !Armed(history) then "STANDBY" else if RoseSinceHeartbeat(history) then "IN_FLIGHT" else "ARMED")
  }

  lemma ArmedAppended(history: seq<Arrival>, a: Arrival)
    ensures Armed(history + [a]) == if IsHeartbeat(a) then IsArming(a) else Armed(history)
  {
    hide IsHeartbeat, IsArming, Last;
    LastAppended(history, a, IsHeartbeat);
  }

  lemma AltitudeAppended(history: seq<Arrival>, a: Arrival)
    ensures Altitude(history + [a])
      == if IsPosition(a) then Position(Reading(a).value.position).altitudeM else Altitude(history)
  {
    hide Position, Last;
    LastAppended(history, a, IsPosition);
  }

  lemma ChargeAppended(history: seq<Arrival>, a: Arrival)
    ensures Charge(history + [a])
      == if IsCharge(a) then Reading(a).value.status.batteryRemaining as real else Charge(history)
  {
    hide Last;
    LastAppended(history, a, IsCharge);
  }

  lemma IngestNavigates(k: Instruments, v: Autopilot, history: seq<Arrival>, a: Arrival)
    requires Navigates(k, v, history)
    ensures Navigates(k, Ingested(k, v, a), history + [a])
  {
    hide Position, Motion, RoundTo, Reading, Hundredths, Last;
    LastAppended(history, a, IsPosition);
  }

  lemma IngestTilts(k: Instruments, v: Autopilot, history: seq<Arrival>, a: Arrival)
    requires Tilts(k, v, history)
    ensures Tilts(k, Ingested(k, v, a), history + [a])
  {
    hide Position, Motion, RoundTo, Reading, Hundredths, Last;
    LastAppended(history, a, IsAttitude);
  }

  lemma NavigatesAltitude(k: Instruments, v: Autopilot, history: seq<Arrival>)
    requires Navigates(k, v, history)
    ensures v.position.altitudeM == Altitude(history)
  {
    hide Position, Motion, RoundTo, Reading, Hundredths, Last;
  }

  lemma IngestSummarizes(k: Instruments, v: Autopilot, history: seq<Arrival>, a: Arrival)
    requires Summarizes(k, v, history)
    ensures Summarizes(k, Ingested(k, v, a), history + [a])
  {
    hide Navigates, Tilts, Armed, Altitude, Charge, RoseSinceHeartbeat, Position, Motion, RoundTo, Reading, Last;
    IngestNavigates(k, v, history, a);
    IngestTilts(k, v, history, a);
    NavigatesAltitude(k, v, history);
    ArmedAppended(history, a);
    AltitudeAppended(history, a);
    ChargeAppended(history, a);
    RiseAppended(history, a);
    if !IsHeartbeat(a) && !IsPosition(a) && Altitude(history) > 1.0 {
      RisenNow(history);
    }
  }

  lemma RisenNow(history: seq<Arrival>)
    requires Altitude(history) > 1.0
    ensures RoseSinceHeartbeat(history)
  {
    hide Altitude, Last;
    assert history[..|history|] == history;
  }

  lemma FreshSummarizes(k: Instruments)
    ensures Summarizes(k, FRESH, [])
  {
    var none: seq<Arrival> := [];
    assert none[..0] == none;
  }

  /** The whole state as a function of the whole frame history. */
  lemma {:induction false} StateSummarizesHistory(k: Instruments, history: seq<Arrival>)
    ensures Summarizes(k, State(k, history), history)
  {
    hide Ingested, Summarizes;
    if history == [] {
      FreshSummarizes(k);
    } else {
      var front, a := history[..|history| - 1], history[|history| - 1];
      StateSummarizesHistory(k, front);
      IngestSummarizes(k, State(k, front), front, a);
      assert front + [a] == history;
    }
  }

  /** The three statuses, and when each is shown. */
  lemma StatusExactly(k: Instruments, history: seq<Arrival>)
    ensures State(k, history).status == "STANDBY" <==> !Armed(history)
    ensures State(k, history).status == "IN_FLIGHT" <==> Armed(history) && RoseSinceHeartbeat(history)
    ensures State(k, history).status == "ARMED" <==> Armed(history) && !RoseSinceHeartbeat(history)
  {
    StateSummarizesHistory(k, history);
    hide State, Armed, RoseSinceHeartbeat, Navigates, Tilts, Charge;
  }

  /** What the stored numbers are worth, in the units of the wire: velocities are exactly what was sent,
      positions and altitudes within 5 units of it (1e-7 degrees, millimetres), headings within 5
      hundredths of a degree. */
  lemma ReadingsAreNear(k: Instruments, g: GlobalPositionInt)
    ensures
      && 100.0 * Motion(k, g).vx == g.vx as real
      && 100.0 * Motion(k, g).vy == g.vy as real
      && 100.0 * Motion(k, g).vz == g.vz as real
    ensures -5.0 <= 10000000.0 * Position(g).latitude - g.lat as real <= 5.0
    ensures -5.0 <= 10000000.0 * Position(g).longitude - g.lon as real <= 5.0
    ensures -5.0 <= 1000.0 * Position(g).altitudeM - g.relativeAlt as real <= 5.0
    ensures -5.0 <= 100.0 * RoundTo(Hundredths(g.hdg), 1) - g.hdg as real <= 5.0
  {
    hide RoundTo, OnGrid, HalfUnit, GroundSpeed;
    HundredthsOnGrid(g.vx);
    HundredthsOnGrid(g.vy);
    HundredthsOnGrid(g.vz);
    RoundToFixedExactly(Hundredths(g.vx), 2);
    RoundToFixedExactly(Hundredths(g.vy), 2);
    RoundToFixedExactly(Hundredths(g.vz), 2);
    RoundToIsNearest(Degrees(g.lat), 6);
    RoundToIsNearest(Degrees(g.lon), 6);
    RoundToIsNearest(AltMeters(g), 2);
    RoundToIsNearest(Hundredths(g.hdg), 1);
    HalfUnits();
  }

  lemma HalfUnits()
    ensures HalfUnit(1) == 0.05 && HalfUnit(2) == 0.005 && HalfUnit(6) == 0.0000005
  {}

  /** The square root that the caller supplies is one. */
  ghost predicate TakesRoots(k: Instruments) {
    forall x :: x >= 0.0 ==> k.sqrt(x) >= 0.0 && k.sqrt(x) * k.sqrt(x) == x
  }

  /** The speed shown is the length of the ground velocity, to half a hundredth. */
  lemma SpeedIsNear(k: Instruments, g: GlobalPositionInt) returns (speed: real)
    requires TakesRoots(k)
    ensures speed >= 0.0 && 10000.0 * (speed * speed) == (g.vx * g.vx + g.vy * g.vy) as real
    ensures -0.005 <= Motion(k, g).speedMps - speed <= 0.005
  {
    hide RoundTo, HalfUnit;
    speed := GroundSpeed(k, g);
    SquareOfHundredths(g.vx);
    SquareOfHundredths(g.vy);
    RoundToIsNearest(speed, 2);
    HalfUnits();
  }

  lemma SquareOfHundredths(n: int)
    ensures Hundredths(n) * Hundredths(n) >= 0.0
    ensures 10000.0 * (Hundredths(n) * Hundredths(n)) == (n * n) as real
  {
    assert (n * n) as real == n as real * n as real;
  }

  lemma HundredthsOnGrid(n: int)
    ensures OnGrid(Hundredths(n), 2)
  {
    HundredfoldScale(Hundredths(n));
    assert Scaled(Hundredths(n), 2) == n as real;
    hide Scaled;
    IntegersFloor(n);
  }

  /** In millimetres: an altitude counts as flight from 1005 mm on, for it is rounded first. */
  lemma AboveOneMetreExactly(g: GlobalPositionInt)
    ensures Position(g).altitudeM > 1.0 <==> g.relativeAlt >= 1005
  {
    var mm := g.relativeAlt;
    var x := mm as real / 1000.0;
    ScaledRoundTo(x, 2);
    HundredfoldScale(x);
    HundredfoldScale(RoundTo(x, 2));
    hide RoundTo;
  }

  lemma HundredfoldScale(v: real)
    ensures Scaled(v, 2) == 100.0 * v
  {
    assert Pow10(2) == 10.0 * Pow10(1) && Pow10(1) == 10.0 * Pow10(0);
  }

  // ---------------------------------------------------------------- frames that carry nothing

  function Readable(history: seq<Arrival>): seq<Arrival> {
    if history == [] then []
    else
      var a := history[|history| - 1];
      Readable(history[..|history| - 1]) + if Reading(a).Some? then [a] else []
  }

  /** Frames of other kinds and frames too short to decode touch nothing but the update time: the
      state is that of the same history without them. */
  lemma {:induction false} UnreadableFramesOnlyTouchTheClock(k: Instruments, history: seq<Arrival>)
    ensures
      State(k, history) == State(k, Readable(history)).(lastUpdate := State(k, history).lastUpdate)
  {
    hide Reading, Absorbed;
    if history != [] {
      var front, a := history[..|history| - 1], history[|history| - 1];
      UnreadableFramesOnlyTouchTheClock(k, front);
      if Reading(a).Some? {
        assert (Readable(front) + [a])[..|Readable(front)|] == Readable(front);
        AbsorbedIgnoresClock(k, State(k, front).(lastUpdate := a.now), State(k, Readable(front)).(lastUpdate := a.now),
                             Reading(a).value);
      } else {
        assert Readable(history) == Readable(front);
      }
    }
  }

  lemma AbsorbedIgnoresClock(k: Instruments, v: Autopilot, w: Autopilot, m: Message)
    requires v == w
    ensures Absorbed(k, v, m) == Absorbed(k, w, m)
  {}

  // ---------------------------------------------------------------- envelopes

  predicate OnGrids(v: Autopilot) {
    && OnGrid(v.position.latitude, 6) && OnGrid(v.position.longitude, 6) && OnGrid(v.position.altitudeM, 2)
    && OnGrid(v.velocity.vx, 2) && OnGrid(v.velocity.vy, 2) && OnGrid(v.velocity.vz, 2)
    && OnGrid(v.velocity.speedMps, 2) && OnGrid(v.heading, 1) && OnGrid(v.battery, 1)
    && 0.0 <= v.battery <= 100.0
  }

  lemma ZeroOnGrid(decimals: nat)
    ensures OnGrid(0.0, decimals)
  {
    IntegerOnGrid(0, decimals);
  }

  lemma PositionOnGrids(k: Instruments, g: GlobalPositionInt)
    ensures OnGrid(Position(g).latitude, 6) && OnGrid(Position(g).longitude, 6) && OnGrid(Position(g).altitudeM, 2)
    ensures OnGrid(Motion(k, g).vx, 2) && OnGrid(Motion(k, g).vy, 2) && OnGrid(Motion(k, g).vz, 2)
    ensures OnGrid(Motion(k, g).speedMps, 2)
  {
    hide OnGrid, RoundTo, GroundSpeed, Degrees, AltMeters, Hundredths;
    forall v: real, decimals: nat
      ensures OnGrid(RoundTo(v, decimals), decimals)
    {
      RoundToOnGrid(v, decimals);
    }
  }

  lemma IngestKeepsGrids(k: Instruments, v: Autopilot, a: Arrival)
    requires OnGrids(v)
    ensures OnGrids(Ingested(k, v, a))
  {
    hide OnGrid, RoundTo, Reading, Position, Motion;
    if Reading(a).Some? {
      match Reading(a).value
      case PositionMsg(g) =>
        PositionOnGrids(k, g);
        RoundToOnGrid(Hundredths(g.hdg), 1);
      case StatusMsg(s) =>
        IntegerOnGrid(s.batteryRemaining, 1);
      case _ =>
    }
  }

  lemma {:induction false} StateOnGrids(k: Instruments, history: seq<Arrival>)
    ensures OnGrids(State(k, history))
  {
    hide OnGrid, Ingested;
    if history == [] {
      ZeroOnGrid(6);
      ZeroOnGrid(2);
      ZeroOnGrid(1);
      IntegerOnGrid(100, 1);
    } else {
      StateOnGrids(k, history[..|history| - 1]);
      IngestKeepsGrids(k, State(k, history[..|history| - 1]), history[|history| - 1]);
    }
  }

  /** Whatever frames came in: the reported payload is in normal form, and the envelope passes
      validation exactly when the unit has an ID and the last position lies within the globe. */
  lemma EnvelopeValidExactly(k: Instruments, unitId: string, team: string, vehicleType: string, tier: string,
                             history: seq<Arrival>, sequence: nat, digests: Digests, now: int, messageId: string)
    requires digests.Sound() && now != 0
    ensures
      var id := Named(unitId, team, vehicleType, tier);
      var payload := Report(k, id, State(k, history), sequence);
      var r := NewTelemetryEnvelope(digests, id.tier, "mavlink-" + unitId, payload, [], now, messageId);
      && payload.IsNormal()
      && (r.Ok? ==> r.value.telemetry == Some(payload))
      && (r.Ok? ==>
            (Violation(digests, r.value) == None <==> unitId != "" && State(k, history).position.InBounds()))
  {
    hide State, OnGrid, Digests.Sound;
    var id := Named(unitId, team, vehicleType, tier);
    var payload := Report(k, id, State(k, history), sequence);
    StateOnGrids(k, history);
    NormalExactlyOnGrid(payload);
    TelemetryEnvelopeValidExactly(digests, id.tier, "mavlink-" + unitId, payload, [], now, messageId);
    hide Violation, Telemetry.Normalized, Coordinates.InBounds;
  }

  /** The envelope names the unit, with its defaults, and reports the state as it is: the normalisation
      that its constructor does takes nothing away. */
  lemma EnvelopeReports(k: Instruments, unitId: string, team: string, vehicleType: string, tier: string,
                        history: seq<Arrival>, sequence: nat, digests: Digests, now: int, messageId: string)
    ensures
      var id, v := Named(unitId, team, vehicleType, tier), State(k, history);
      var payload := Report(k, id, v, sequence);
      var r := NewTelemetryEnvelope(digests, id.tier, "mavlink-" + unitId, payload, [], now, messageId);
      r.Ok? ==>
        && r.value.header.classification == (if tier == "" then "TIER-2: RESTRICTED" else tier)
        && r.value.header.originEnclave == "mavlink-" + unitId && r.value.telemetry.Some?
        && var t := r.value.telemetry.value;
           && t.vehicleId == unitId && t.sequence == sequence
           && t.team == (if team == "" then "blue" else team)
           && t.vehicleType == (if vehicleType == "" then "drone" else vehicleType)
           && t.state == v.status && t.batteryPct == v.battery && t.coordinates == v.position
           && t.velocity == v.velocity && t.headingDeg == v.heading
           && t.mission == Some(k.describe(v.roll, v.pitch, v.yaw))
  {
    var id := Named(unitId, team, vehicleType, tier);
    StateOnGrids(k, history);
    NormalExactlyOnGrid(Report(k, id, State(k, history), sequence));
    hide State, OnGrid, Telemetry.Normalized;
  }

  // ---------------------------------------------------------------- the read loop

  function Arrivals(frames: seq<Frame>, clock: nat -> int): (h: seq<Arrival>)
    ensures |h| == |frames|
    ensures forall i :: 0 <= i < |frames| ==> h[i] == Arrival(frames[i], clock(i))
  {
    seq(|frames|, i requires 0 <= i < |frames| => Arrival(frames[i], clock(i)))
  }

  lemma DrainSteps(s: seq<byte>)
    ensures Scan(s).Got? ==> Drain(s).0 == [Scan(s).frame] + Drain(s[Scan(s).used..]).0
    ensures Scan(s).AtEnd? ==> Drain(s) == ([], s[Scan(s).used..])
    ensures Scan(s).Got? ==> Drain(s).1 == Drain(s[Scan(s).used..]).1
  {
    hide Scan;
  }

  /** `readLoop` of a fresh client. The context is looked at before each frame, and `cancelled` tells what
      the n-th look finds. The loop stops at the first look that finds it cancelled or else at the first
      end of file; every frame up to there goes into the state. */
  method ReadLoop(decoder: StreamDecoder, state: VehicleState, clock: nat -> int, cancelled: nat -> bool)
    returns (n: nat)
    requires decoder.reader.Valid() && state.View() == FRESH
    modifies decoder.reader, state
    ensures
      var (frames, unread) := Drain(old(decoder.reader.Pending()));
      && n <= |frames| && NotBefore(cancelled, n)
      && state.View() == State(state.instruments, Arrivals(frames[..n], clock))
      && (!cancelled(n) ==> n == |frames| && decoder.reader.Pending() == unread)
  {
    hide Scan, Drain, Ingested, State, Arrivals, NotBefore, BufferedReader.Pending;
    ghost var frames := Drain(decoder.reader.Pending()).0;
    ghost var unread := Drain(decoder.reader.Pending()).1;
    n := 0;
    NotAtAll(cancelled);
    NothingArrived(state.instruments, frames, clock);
    while true
      invariant decoder.reader.Valid()
      invariant n <= |frames| && NotBefore(cancelled, n)
      invariant state.View() == State(state.instruments, Arrivals(frames[..n], clock))
      invariant Drain(decoder.reader.Pending()) == (frames[n..], unread)
      decreases |decoder.reader.Pending()|
    {
      if cancelled(n) {
        return;
      }
      NotYet(cancelled, n);
      NextDrained(frames, unread, n, decoder.reader.Pending());
      var more := ReadFrame(decoder, state, clock(n));
      if !more {
        return;
      }
      NextArrives(state.instruments, frames, n, clock);
      n := n + 1;
    }
  }

  /** One round: the next frame, if there is one, goes into the state. */
  method ReadFrame(decoder: StreamDecoder, state: VehicleState, now: int) returns (more: bool)
    requires decoder.reader.Valid()
    modifies decoder.reader, state
    ensures decoder.reader.Valid()
    ensures
      var scanned := Scan(old(decoder.reader.Pending()));
      && more == scanned.Got?
      && decoder.reader.Pending() == old(decoder.reader.Pending())[scanned.used..]
      && state.View() ==
         if more then Ingested(state.instruments, old(state.View()), Arrival(scanned.frame, now)) else old(state.View())
  {
    hide Scan, Ingested, BufferedReader.Pending, VehicleState.View;
    var frame := decoder.NextFrame();
    more := frame.Ok?;
    if more {
      var _ := state.IngestFrame(frame.value, now);
    }
  }

  /** No look before the n-th finds the context cancelled. */
  ghost predicate NotBefore(cancelled: nat -> bool, n: nat) {
    forall i :: 0 <= i < n ==> !cancelled(i)
  }

  lemma NotAtAll(cancelled: nat -> bool)
    ensures NotBefore(cancelled, 0)
  {}

  lemma NotYet(cancelled: nat -> bool, n: nat)
    requires NotBefore(cancelled, n) && !cancelled(n)
    ensures NotBefore(cancelled, n + 1)
  {}

  lemma NothingArrived(k: Instruments, frames: seq<Frame>, clock: nat -> int)
    ensures State(k, Arrivals(frames[..0], clock)) == FRESH && frames[0..] == frames
  {}

  lemma NextArrives(k: Instruments, frames: seq<Frame>, n: nat, clock: nat -> int)
    requires n < |frames|
    ensures
      State(k, Arrivals(frames[..n + 1], clock))
      == Ingested(k, State(k, Arrivals(frames[..n], clock)), Arrival(frames[n], clock(n)))
  {
    hide Ingested;
    assert Arrivals(frames[..n + 1], clock)[..n] == Arrivals(frames[..n], clock);
  }

  lemma NextDrained(frames: seq<Frame>, unread: seq<byte>, n: nat, s: seq<byte>)
    requires n <= |frames| && Drain(s) == (frames[n..], unread)
    ensures Scan(s).AtEnd? ==> n == |frames| && s[Scan(s).used..] == unread
    ensures Scan(s).Got? ==>
      n < |frames| && frames[n] == Scan(s).frame && Drain(s[Scan(s).used..]) == (frames[n + 1..], unread)
  {
    hide Drain, Scan;
    DrainSteps(s);
    if Scan(s).Got? {
      assert frames[n..][0] == frames[n] && frames[n..][1..] == frames[n + 1..];
    }
  }

  /** Over a line with noise and damaged frames, the aggregator ends in the state that the intact
      frames alone determine. */
  lemma NoisyLineStatus(k: Instruments, segments: seq<Segment>, clock: nat -> int)
    requires forall g :: g in segments ==> g.Valid()
    ensures
      var (frames, unread) := Drain(Line(segments));
      && unread == []
      && Summarizes(k, State(k, Arrivals(frames, clock)), Arrivals(IntactFrames(segments), clock))
  {
    hide Drain, State, Summarizes;
    DrainReturnsIntactFrames(segments);
    StateSummarizesHistory(k, Arrivals(IntactFrames(segments), clock));
  }
}
