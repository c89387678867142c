/** How a vehicle of Vehicle moves in each state: where it heads, how fast, how it climbs and turns, and what
  its battery does. */
module Motion {
  import opened Wrappers
  import opened Rounding
  import opened Schema
  import opened Vehicle
  import opened Flight
  import opened Landing
  import opened Patrol
  import opened Rejoin

  predicate Near(x: real, y: real, e: real) {
    y - e <= x <= y + e
  }

  lemma NearTenth(v: real)
    ensures Near(RoundTo(v, 1), v, 0.05)
  {
    hide RoundTo, HalfUnit;
    RoundToIsNearest(v, 1);
    HalfTenth();
  }

  lemma NearHundredth(v: real)
    ensures Near(RoundTo(v, 2), v, 0.005)
  {
    hide RoundTo, HalfUnit;
    RoundToIsNearest(v, 2);
    HalfHundredthIs();
  }

  // ---------------------------------------------------------------- direction

  /** Degrees clockwise from north, from 0 on. */
  function Compass(degrees: real): real {
    if degrees < 0.0 then degrees + 360.0 else degrees
  }

  lemma FloorOfTurns(x: real)
    requires 180.0 <= x <= 540.0
    ensures (x / 360.0).Floor == if x < 360.0 then 0 else 1
  {}

  lemma WrapsOnce(m: Math, degrees: real)
    requires m.Wraps() && -180.0 <= degrees <= 180.0
    ensures m.mod(degrees + 360.0, 360.0) == Compass(degrees)
  {
    FloorOfTurns(degrees + 360.0);
    assert m.mod(degrees + 360.0, 360.0)
        == degrees + 360.0 - ((degrees + 360.0) / 360.0).Floor as real * 360.0;
  }

  lemma HeadingIsNear(m: Math, y: real, x: real)
    requires m.Wraps()
    ensures Near(Heading(m, m.atan2(y, x)), Compass(InDegrees(m, m.atan2(y, x))), 0.05)
  {
    var d := InDegrees(m, m.atan2(y, x));
    WrapsOnce(m, d);
    NearTenth(Compass(d));
    hide RoundTo, Compass, InDegrees, Math.Wraps;
  }

  lemma FlyingHome(m: Math, s: Sim, dt: real)
    requires s.state == "RTB" && Distance(m, s) > 10.0
    ensures
      var (v, t) := Stepped(m, s, dt);
      var bearing := m.atan2(s.baseLon - s.lon, s.baseLat - s.lat);
      && v.heading == Heading(m, bearing)
      && t.velocity == Along(m, s.speed, bearing, -1.0, 1)
  {
    hide Drain, Heading, Advanced, StepDegrees, Along, Lowered, Meters, Math.Norm, RoundTo, Patrolled, Hovered,
      TouchingDown;
  }

  lemma FlyingOut(m: Math, s: Sim, dt: real)
    requires Patrolling(s) && InTransit(m, s, dt)
    ensures
      var (v, t) := Stepped(m, s, dt);
      var f, angle := s.frame, EntryAngle(m, s);
      var bearing := m.atan2(OrbitLon(m, f, angle) - s.lon, OrbitLat(m, f, angle) - s.lat);
      && v.heading == Heading(m, bearing) && v.alt == Climbed(s, dt)
      && t.velocity == Along(m, v.speed, bearing, RoundTo(if IsClimbing(s) then 10.0 else 0.0, 2), 2)
      && t.state == if v.alt < 20.0 then "TAKEOFF" else "TRANSIT"
  {
    hide *;
    var t := s.(sequence := s.sequence + 1);
    TransitStepIs(m, s, dt);
    SameEntryAngle(m, s);
    SameClimb(s, dt);
    OutboundReport(m, t, dt, OrbitLat(m, t.frame, EntryAngle(m, t)), OrbitLon(m, t.frame, EntryAngle(m, t)));
  }

  lemma OutboundReport(m: Math, s: Sim, dt: real, toLat: real, toLon: real)
    ensures
      var (v, t) := ToOrbit(m, s, dt, toLat, toLon);
      var bearing := m.atan2(toLon - s.lon, toLat - s.lat);
      && v.heading == Heading(m, bearing) && v.alt == Climbed(s, dt)
      && t.velocity == Along(m, v.speed, bearing, RoundTo(if IsClimbing(s) then 10.0 else 0.0, 2), 2)
      && t.state == if v.alt < 20.0 then "TAKEOFF" else "TRANSIT"
  {
    hide Drain, Heading, Advanced, StepDegrees, Along, Climbed, Accelerated, RoundTo, EntryAngle, Math.Norm, Mission,
      IsClimbing;
  }

  lemma SameEntryAngle(m: Math, s: Sim)
    ensures EntryAngle(m, s.(sequence := s.sequence + 1)) == EntryAngle(m, s)
  {}

  lemma SameClimb(s: Sim, dt: real)
    ensures
      var t := s.(sequence := s.sequence + 1);
      Climbed(t, dt) == Climbed(s, dt) && IsClimbing(t) == IsClimbing(s)
  {
    hide RoundTo;
  }

  /** A reported velocity points along a way, at the given speed: scaled by the length of the way, east and
      north part are the speed times those of the way, give or take the rounding of the second decimal. */
  ghost predicate PointsAlong(m: Math, velocity: Velocity, speed: real, north: real, east: real) {
    var d := m.Norm(north, east);
    && Near(Times(velocity.vx, d), Times(speed, east), Times(0.005, d))
    && Near(Times(velocity.vy, d), Times(speed, north), Times(0.005, d))
  }

  lemma PartPoints(d: real, speed: real, c: real, way: real)
    requires d > 0.0 && Times(d, c) == way
    ensures Near(Times(Part(speed, c), d), Times(speed, way), Times(0.005, d))
  {
    var x := speed * c;
    NearHundredth(x);
    hide RoundTo;
    var v := RoundTo(x, 2);
    TimesGrowsWith(x - 0.005, v, d);
    TimesGrowsWith(v, x + 0.005, d);
    TimesSum(x, -0.005, d);
    TimesSum(x, 0.005, d);
    TimesTurn(speed, c, d);
  }

  lemma TimesSum(x: real, e: real, d: real)
    ensures Times(x + e, d) == Times(x, d) + Times(e, d)
    ensures Times(-e, d) == -Times(e, d)
  {}

  lemma TimesTurn(speed: real, c: real, d: real)
    ensures Times(speed * c, d) == Times(speed, Times(d, c))
  {}

  lemma AlongPoints(m: Math, speed: real, north: real, east: real, vz: real, decimals: nat)
    requires m.Sound() && m.Norm(north, east) > 0.0
    ensures PointsAlong(m, Along(m, speed, m.atan2(east, north), vz, decimals), speed, north, east)
  {
    hide RoundTo, Math.Norm, Math.Sound, Times, Near, Part;
    var bearing, d := m.atan2(east, north), m.Norm(north, east);
    NormIsSymmetric(m, north, east);
    UnitBearing(m, east, north);
    PartPoints(d, speed, m.sin(bearing), east);
    PartPoints(d, speed, m.cos(bearing), north);
  }

  lemma TimesIs(a: real, b: real)
    ensures Times(a, b) == a * b
  {}

  /** On the way home a vehicle heads for its pad, reports a velocity that points there, and sinks. */
  lemma HeadsHome(m: Math, s: Sim, dt: real)
    requires m.Sound() && m.Wraps() && s.state == "RTB" && Distance(m, s) > 10.0
    ensures
      var (v, t) := Stepped(m, s, dt);
      var north, east := s.baseLat - s.lat, s.baseLon - s.lon;
      && Near(v.heading, Compass(InDegrees(m, m.atan2(east, north))), 0.05)
      && PointsAlong(m, t.velocity, s.speed, north, east) && t.velocity.vz == -1.0
  {
    hide *;
    var north, east := s.baseLat - s.lat, s.baseLon - s.lon;
    FlyingHome(m, s, dt);
    HomeIsAway(m, s);
    HeadingIsNear(m, east, north);
    AlongPoints(m, s.speed, north, east, -1.0, 1);
    AlongRises(m, s.speed, m.atan2(east, north), -1.0, 1);
  }

  lemma HomeIsAway(m: Math, s: Sim)
    requires m.Sound() && Distance(m, s) > 10.0
    ensures m.Norm(s.baseLat - s.lat, s.baseLon - s.lon) > 0.0
  {
    MetersFacts(m, s.baseLat - s.lat, s.baseLon - s.lon);
    hide Math.Norm, Math.Sound;
  }

  lemma AlongRises(m: Math, speed: real, bearing: real, vz: real, decimals: nat)
    ensures Along(m, speed, bearing, vz, decimals).vz == vz
  {
    hide RoundTo;
  }

  /** On the way to its circle it heads for the entry point and reports a velocity that points there, and
      whether it is still taking off. */
  lemma HeadsOut(m: Math, s: Sim, dt: real)
    requires m.Sound() && m.Wraps() && Patrolling(s) && InTransit(m, s, dt)
    ensures
      var (v, t) := Stepped(m, s, dt);
      var f, angle := s.frame, EntryAngle(m, s);
      var north, east := OrbitLat(m, f, angle) - s.lat, OrbitLon(m, f, angle) - s.lon;
      && Near(v.heading, Compass(InDegrees(m, m.atan2(east, north))), 0.05)
      && PointsAlong(m, t.velocity, v.speed, north, east)
      && t.state == if v.alt < 20.0 then "TAKEOFF" else "TRANSIT"
  {
    hide *;
    var f, angle := s.frame, EntryAngle(m, s);
    var north, east := OrbitLat(m, f, angle) - s.lat, OrbitLon(m, f, angle) - s.lon;
    FlyingOut(m, s, dt);
    FarFromEntry(m, s, dt);
    EightMeters(m, north, east);
    HeadingIsNear(m, east, north);
    AlongPoints(m, Stepped(m, s, dt).0.speed, north, east, RoundTo(if IsClimbing(s) then 10.0 else 0.0, 2), 2);
  }

  lemma EightMeters(m: Math, dLat: real, dLon: real)
    requires Meters(m, dLat, dLon) > 8.0
    ensures m.Norm(dLat, dLon) > 0.0
  {
    hide Math.Norm;
  }

  /** It is in transit exactly if the entry point is more than 8 m and more than one step away. */
  lemma InTransitExactly(m: Math, s: Sim, dt: real)
    ensures
      var f, angle := s.frame, EntryAngle(m, s);
      var distM := m.Norm(OrbitLat(m, f, angle) - s.lat, OrbitLon(m, f, angle) - s.lon) * 111139.0;
      InTransit(m, s, dt) <==> distM > 8.0 && distM > s.speed * dt
  {
    hide OrbitLat, OrbitLon, EntryAngle, Math.Norm;
  }

  // ---------------------------------------------------------------- climbing and turning

  /** In transit a vehicle below its cruise altitude climbs by 10 dt metres or up to that altitude, give or take
      the rounding of the first decimal; any other keeps its altitude. */
  lemma ClimbsInTransit(m: Math, s: Sim, dt: real)
    requires Patrolling(s) && InTransit(m, s, dt)
    ensures
      var v, target := Stepped(m, s, dt).0, if s.frame.cruiseAlt <= 0.0 then 100.0 else s.frame.cruiseAlt;
      && (s.alt >= target ==> v.alt == s.alt)
      && (s.alt < target ==> Near(v.alt, if s.alt + 10.0 * dt < target then s.alt + 10.0 * dt else target, 0.05))
  {
    FlyingOut(m, s, dt);
    hide Stepped, InTransit, RoundTo, Near, EntryAngle, Heading, Along, OrbitLat, OrbitLon;
    var target := if s.frame.cruiseAlt <= 0.0 then 100.0 else s.frame.cruiseAlt;
    NearTenth(if s.alt + 10.0 * dt < target then s.alt + 10.0 * dt else target);
  }

  /** On its circle a vehicle with speed covers speed times dt metres of arc in a step, counter-clockwise from
      its bearing off the centre; k whole turns are left off. Without speed it turns by 0.08 dt all the same. */
  lemma TurnsAtPace(m: Math, s: Sim, dt: real) returns (arc: real, k: int)
    requires m.Wraps() && dt >= 0.0
    ensures
      if s.frame.orbitRadius > 0.0 && s.speed > 0.0 then
        Times(arc, s.frame.orbitRadius * METERS_PER_DEGREE) == Times(s.speed, dt)
      else arc == Times(0.08, dt)
    ensures
      var v := OnOrbit(m, s, dt).0;
      && v.flightAngle
         == m.atan2(s.lat - s.frame.centerLat, s.lon - s.frame.centerLon) + arc - Times(k as real, m.twoPi)
      && v.lat == Advanced(s.frame.centerLat, s.frame.orbitRadius, m.sin(v.flightAngle))
      && v.lon == Advanced(s.frame.centerLon, s.frame.orbitRadius, m.cos(v.flightAngle))
  {
    hide *;
    var raw := Turned(EntryAngle(m, s), OrbitSpeed(s), dt);
    OnOrbitPlace(m, s, dt);
    arc := Times(OrbitSpeed(s), dt);
    OrbitSpeedIs(s);
    if s.frame.orbitRadius > 0.0 && s.speed > 0.0 {
      ArcOf(s.speed, s.frame.orbitRadius * METERS_PER_DEGREE, dt);
    }
    TurnPositive(m);
    if raw > m.twoPi {
      k := (raw / m.twoPi).Floor;
      WrapsOff(m, raw);
    } else if raw < 0.0 {
      k := -1;
    } else {
      k := 0;
    }
    WholeTurns(k, m.twoPi);
    TurnedBy(m, s, dt);
  }

  lemma TurnPositive(m: Math)
    requires m.Wraps()
    ensures m.twoPi > 0.0
  {}

  lemma TurnedBy(m: Math, s: Sim, dt: real)
    ensures
      Turned(EntryAngle(m, s), OrbitSpeed(s), dt)
      == m.atan2(s.lat - s.frame.centerLat, s.lon - s.frame.centerLon) + Times(OrbitSpeed(s), dt)
  {
    hide OrbitSpeed;
  }

  lemma OrbitSpeedIs(s: Sim)
    ensures
      if s.frame.orbitRadius > 0.0 && s.speed > 0.0 then
        && s.frame.orbitRadius * METERS_PER_DEGREE > 0.0
        && OrbitSpeed(s) == s.speed / (s.frame.orbitRadius * METERS_PER_DEGREE)
      else OrbitSpeed(s) == 0.08
  {}

  lemma WrapsOff(m: Math, x: real)
    requires m.Wraps() && x > m.twoPi
    ensures m.mod(x, m.twoPi) == x - (x / m.twoPi).Floor as real * m.twoPi >= 0.0
  {
    WrappedIsNotNegative(x, m.twoPi);
  }

  lemma OnOrbitPlace(m: Math, s: Sim, dt: real)
    ensures
      var v, raw := OnOrbit(m, s, dt).0, Turned(EntryAngle(m, s), OrbitSpeed(s), dt);
      var wrapped := if raw > m.twoPi then m.mod(raw, m.twoPi) else raw;
      && v.flightAngle == (if wrapped < 0.0 then wrapped + m.twoPi else wrapped)
      && v.lat == Advanced(s.frame.centerLat, s.frame.orbitRadius, m.sin(v.flightAngle))
      && v.lon == Advanced(s.frame.centerLon, s.frame.orbitRadius, m.cos(v.flightAngle))
  {
    hide RoundTo, Advanced, Heading, Bobbing, Tangent, Drain, Along, Mission, Turned, EntryAngle, OrbitSpeed;
  }

  lemma WholeTurns(k: int, turn: real)
    ensures Times(k as real, turn) == k as real * turn
    ensures k == -1 ==> Times(k as real, turn) == -turn
    ensures k == 0 ==> Times(k as real, turn) == 0.0
  {}

  lemma WrappedIsNotNegative(x: real, turn: real)
    requires x >= 0.0 && turn > 0.0
    ensures x - (x / turn).Floor as real * turn >= 0.0
  {
    DivideBack(x, turn);
    TimesGrowsWith((x / turn).Floor as real, x / turn, turn);
  }

  lemma ArcOf(speed: real, radius: real, dt: real)
    requires radius > 0.0
    ensures Times(Times(speed / radius, dt), radius) == Times(speed, dt)
  {
    DivideBack(speed, radius);
    TimesThree(speed / radius, dt, radius);
    hide Times;
  }

  lemma TimesThree(a: real, b: real, c: real)
    ensures Times(Times(a, b), c) == Times(Times(a, c), b)
  {}

  /** There it heads along the tangent, counter-clockwise, and reports a velocity along it at the speed it
      has, to half a hundredth. */
  lemma HeadsAround(m: Math, s: Sim, dt: real)
    requires m.Sound() && m.Circular() && m.Wraps()
    requires (s.state == "PATROL" || s.state == "AIRBORNE") && !InTransit(m, s, dt)
    ensures
      var (v, t) := Stepped(m, s, dt);
      var north, east := m.cos(v.flightAngle), -m.sin(v.flightAngle);
      && Near(v.heading, Compass(InDegrees(m, m.atan2(east, north))), 0.05)
      && Near(t.velocity.vx, Times(s.speed, east), 0.005)
      && Near(t.velocity.vy, Times(s.speed, north), 0.005)
      && t.velocity.vz == 0.0 && Near(t.velocity.speedMps, s.speed, 0.005)
  {
    hide *;
    var u := s.(sequence := s.sequence + 1);
    PatrolStep(m, s, dt);
    TransitIgnoresSequence(m, s, dt);
    NotInTransitOrbits(m, u, dt);
    var v := OnOrbit(m, u, dt).0;
    var north, east := m.cos(v.flightAngle), -m.sin(v.flightAngle);
    OrbitReport(m, u, dt);
    HeadingIsNear(m, east, north);
    TangentIsUnit(m, v.flightAngle);
    AlongPoints(m, s.speed, north, east, 0.0, 2);
    UnitPoints(m, Along(m, s.speed, m.atan2(east, north), 0.0, 2), s.speed, north, east);
    AlongRises(m, s.speed, m.atan2(east, north), 0.0, 2);
    AlongIsAsFast(m, s.speed, m.atan2(east, north), 0.0);
  }

  lemma OrbitReport(m: Math, s: Sim, dt: real)
    ensures
      var (v, t) := OnOrbit(m, s, dt);
      var bearing := m.atan2(-m.sin(v.flightAngle), m.cos(v.flightAngle));
      v.heading == Heading(m, bearing) && t.velocity == Along(m, s.speed, bearing, 0.0, 2)
  {
    hide RoundTo, Heading, Along, OrbitLat, OrbitLon, OrbitSpeed, Turned, Bobbing, Drain, Mission, EntryAngle;
  }

  lemma TangentIsUnit(m: Math, angle: real)
    requires m.Sound() && m.Circular()
    ensures m.Norm(m.cos(angle), -m.sin(angle)) == 1.0
  {
    CircleAt(m, angle);
    var c, s := m.cos(angle), m.sin(angle);
    assert c * c + (-s) * (-s) == 1.0;
    RootOfOne(m);
    hide Math.Sound, Math.Circular;
  }

  lemma RootOfOne(m: Math)
    requires m.Sound()
    ensures m.sqrt(1.0) == 1.0
  {
    var r := m.sqrt(1.0);
    assert r >= 0.0 && r * r == 1.0 * 1.0;
    SquareMonotone(r, 1.0);
    SquareMonotone(1.0, r);
  }

  lemma UnitPoints(m: Math, velocity: Velocity, speed: real, north: real, east: real)
    requires PointsAlong(m, velocity, speed, north, east) && m.Norm(north, east) == 1.0
    ensures Near(velocity.vx, Times(speed, east), 0.005) && Near(velocity.vy, Times(speed, north), 0.005)
  {
    hide Math.Norm, Times;
    TimesOne(velocity.vx);
    TimesOne(velocity.vy);
    TimesOne(0.005);
  }

  lemma TimesOne(x: real)
    ensures Times(x, 1.0) == x
  {}

  lemma AlongIsAsFast(m: Math, speed: real, bearing: real, vz: real)
    ensures Near(Along(m, speed, bearing, vz, 2).speedMps, speed, 0.005)
  {
    NearHundredth(speed);
    hide RoundTo, Part;
  }

  // ---------------------------------------------------------------- reports

  lemma ToOrbitSays(m: Math, s: Sim, dt: real, toLat: real, toLon: real)
    ensures ToOrbit(m, s, dt, toLat, toLon).1.mission == Mission(s.ewActive)
  {
    hide RoundTo, Heading, Along, Drain, Advanced, Climbed, Accelerated, IsClimbing, StepDegrees, EntryAngle, Mission;
  }

  lemma OnOrbitSays(m: Math, s: Sim, dt: real)
    ensures
      var (v, t) := OnOrbit(m, s, dt);
      t.mission == Mission(s.ewActive) && t.state == v.state
  {
    hide RoundTo, Heading, Along, Drain, EntryAngle, OrbitLat, OrbitLon, OrbitSpeed, Turned, Bobbing, Tangent, Mission;
  }

  lemma HomewardSays(m: Math, s: Sim, dt: real)
    ensures
      var (v, t) := Homeward(m, s, dt);
      t.mission == None && t.state == "RTB" && v.state == s.state
  {
    hide RoundTo, Heading, Along, Advanced, StepDegrees, DistDeg, Distance, Lowered;
  }

  lemma PatrolSays(m: Math, s: Sim, dt: real)
    requires s.state == "PATROL" || s.state == "AIRBORNE"
    ensures
      var (v, t) := Stepped(m, s, dt);
      t.mission == Mission(s.ewActive) && (!InTransit(m, s, dt) ==> t.state == v.state)
  {
    hide Stepped, Patrolled, ToOrbit, OnOrbit, InTransit, OrbitLat, OrbitLon, EntryAngle, Mission;
    var u := s.(sequence := s.sequence + 1);
    PatrolStep(m, s, dt);
    TransitIgnoresSequence(m, s, dt);
    if InTransit(m, s, dt) {
      TransitStepIs(m, s, dt);
      ToOrbitSays(m, u, dt, OrbitLat(m, u.frame, EntryAngle(m, u)), OrbitLon(m, u.frame, EntryAngle(m, u)));
    } else {
      NotInTransitOrbits(m, u, dt);
      OnOrbitSays(m, u, dt);
    }
  }

  lemma ReturnSays(m: Math, s: Sim, dt: real)
    ensures
      var (v, t) := Returned(m, s, dt);
      && t.mission == None && (s.state == "RTB" ==> t.state == v.state)
      && (Distance(m, s) <= 10.0 ==> t.velocity == Velocity(0.0, 0.0, -2.0, 0.0))
  {
    HomewardSays(m, s.(battery := Drain(s.battery, 0.03, dt)), dt);
    hide RoundTo, Drain, Homeward, Lowered, Distance;
  }

  lemma HomeSays(m: Math, s: Sim, dt: real)
    requires s.state == "RTB"
    ensures
      var (v, t) := Stepped(m, s, dt);
      && t.mission == None && t.state == v.state
      && (Distance(m, s) <= 10.0 ==> t.velocity == Velocity(0.0, 0.0, -2.0, 0.0))
  {
    hide Stepped, Returned, Meters;
    ReturnStep(m, s, dt);
    ReturnSays(m, s.(sequence := s.sequence + 1), dt);
  }

  lemma ReturnStep(m: Math, s: Sim, dt: real)
    requires s.state == "RTB"
    ensures Stepped(m, s, dt) == Returned(m, s.(sequence := s.sequence + 1), dt)
  {
    hide Patrolled, Hovered, Returned, Report, RoundTo;
  }

  lemma RestSays(m: Math, s: Sim, dt: real)
    requires s.state == "HOVER" || s.state == "LANDED"
    ensures
      var (v, t) := Stepped(m, s, dt);
      t.mission == None && t.state == v.state && t.velocity == Velocity(0.0, 0.0, 0.0, 0.0)
  {
    hide RoundTo, Drain, Returned, Patrolled;
  }

  /** What a step's report says is going on: the state, but for a transit outwards, the mission exactly on
      patrol, and no motion in the hover and on the ground. */
  lemma ReportsSay(m: Math, s: Sim, dt: real)
    requires KnownState(s.state)
    ensures
      var (v, t) := Stepped(m, s, dt);
      && (!(Patrolling(s) && InTransit(m, s, dt)) ==> t.state == v.state)
      && t.mission == (if !Patrolling(s) then None
                       else if s.ewActive then Some("TACTICAL_RECON,ew") else Some("TACTICAL_RECON"))
      && (s.state == "HOVER" || s.state == "LANDED" ==> t.velocity == Velocity(0.0, 0.0, 0.0, 0.0))
      && (s.state == "RTB" && Distance(m, s) <= 10.0 ==> t.velocity == Velocity(0.0, 0.0, -2.0, 0.0))
  {
    hide Stepped, Distance, InTransit;
    if Patrolling(s) {
      PatrolSays(m, s, dt);
      assert PATROL_MISSION + ",ew" == "TACTICAL_RECON,ew";
    } else if s.state == "RTB" {
      HomeSays(m, s, dt);
    } else {
      RestSays(m, s, dt);
    }
  }

  // ---------------------------------------------------------------- battery

  /** Percent a second: 0.04 on patrol, 0.03 on the way home, 0.02 in the hover, nothing on the ground. */
  function Consumption(state: string): real {
    if state == "AIRBORNE" || state == "PATROL" then 0.04
    else if state == "RTB" then 0.03
    else if state == "HOVER" then 0.02
    else 0.0
  }

  lemma DrainIsNear(battery: real, rate: real, dt: real)
    ensures
      var rest := battery - Times(rate, dt);
      Near(Drain(battery, rate, dt), if rest < 5.0 then 5.0 else rest, 0.05)
  {
    TimesIs(rate, dt);
    hide RoundTo, Times;
    var rest := battery - Times(rate, dt);
    NearTenth(if rest < 5.0 then 5.0 else rest);
  }

  /** A step takes the state's consumption off the battery, down to 5 percent, give or take the rounding of
      the first decimal; on the ground it takes nothing. */
  lemma BatteryFalls(m: Math, s: Sim, dt: real)
    requires KnownState(s.state)
    ensures s.state == "LANDED" ==> Stepped(m, s, dt).0.battery == s.battery
    ensures s.state != "LANDED" ==>
      var rest := s.battery - Times(Consumption(s.state), dt);
      Near(Stepped(m, s, dt).0.battery, if rest < 5.0 then 5.0 else rest, 0.05)
  {
    DrainIsNear(s.battery, Consumption(s.state), dt);
    BatteryIsDrained(m, s, dt);
    hide Stepped, Drain, Near, Times;
  }

  lemma BatteryIsDrained(m: Math, s: Sim, dt: real)
    requires KnownState(s.state)
    ensures
      Stepped(m, s, dt).0.battery
      == if s.state == "LANDED" then s.battery else Drain(s.battery, Consumption(s.state), dt)
  {
    hide Drain, Heading, Advanced, StepDegrees, Along, Lowered, Climbed, Accelerated, Meters, Math.Norm, RoundTo,
      EntryAngle, OrbitLat, OrbitLon, OrbitSpeed, Turned, Bobbing, Tangent, Displaced, Mission;
  }
}
