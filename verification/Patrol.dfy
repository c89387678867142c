/** Where a vehicle of Vehicle patrols, and how true its reports are. */
module Patrol {
  import opened Rounding
  import opened Schema
  import opened Vehicle
  import opened Flight
  import opened Landing

  // ---------------------------------------------------------------- the orbit

  // Half of the sixth decimal.
  const HALF_STEP: real := 0.0000005

  lemma RoundedError(v: real)
    ensures -HALF_STEP <= RoundTo(v, 6) - v <= HALF_STEP
    ensures Sq(RoundTo(v, 6) - v) <= 0.00000000000025
  {
    hide RoundTo, HalfUnit;
    var e := v - RoundTo(v, 6);
    RoundToIsNearest(v, 6);
    HalfMillionth();
    RoundingError(v, e);
    SquareOfOpposite(e);
  }

  lemma SquareOfOpposite(e: real)
    ensures Sq(-e) == Sq(e) == e * e
  {}

  lemma CircleAt(m: Math, a: real)
    requires m.Circular()
    ensures Sq(m.sin(a)) + Sq(m.cos(a)) == 1.0
  {}

  lemma VectorLength(k: real, c: real, s: real)
    requires Sq(c) + Sq(s) == 1.0
    ensures Sq(Times(k, c)) + Sq(Times(k, s)) == Sq(k)
  {
    ScaledVector(c, s, k);
  }

  lemma LengthShiftBy(a: real, b: real, ex: real, ey: real, r: real, e: real, n: real)
    requires r >= 0.0 && e >= 0.0 && n >= 0.0
    requires Sq(a) + Sq(b) == Sq(r) && Sq(ex) + Sq(ey) <= Sq(e) && Sq(n) == Sq(a + ex) + Sq(b + ey)
    ensures n <= r + e
  {
    LengthShift(a, b, ex, ey, r, e, n);
  }

  lemma RoundingSquare()
    ensures ROUNDING_DEG >= 0.0 && Sq(ROUNDING_DEG) >= 0.0000000000005
  {}

  /** An error vector of length e or less changes the length of a vector by at most e, either way. */
  lemma LengthWithin(k: real, c: real, s: real, ex: real, ey: real, e: real, p: real, q: real, n: real)
    requires k >= 0.0 && n >= 0.0 && e >= 0.0 && Sq(c) + Sq(s) == 1.0
    requires p == Times(k, c) + ex && q == Times(k, s) + ey && Sq(n) == Sq(p) + Sq(q)
    requires Sq(ex) + Sq(ey) <= Sq(e)
    ensures k - e <= n <= k + e
  {
    VectorLength(k, c, s);
    SquareOfOpposite(ex);
    SquareOfOpposite(ey);
    hide *;
    assert p + -ex == Times(k, c) && q + -ey == Times(k, s);
    LengthShiftBy(Times(k, c), Times(k, s), ex, ey, k, e, n);
    LengthShiftBy(p, q, -ex, -ey, n, e, k);
  }

  /** Errors of one rounding in each coordinate change it by at most ROUNDING_DEG. */
  lemma NearLength(k: real, c: real, s: real, ex: real, ey: real, p: real, q: real, n: real)
    requires k >= 0.0 && n >= 0.0 && Sq(c) + Sq(s) == 1.0
    requires p == Times(k, c) + ex && q == Times(k, s) + ey && Sq(n) == Sq(p) + Sq(q)
    requires Sq(ex) <= 0.00000000000025 && Sq(ey) <= 0.00000000000025
    ensures k - ROUNDING_DEG <= n <= k + ROUNDING_DEG
  {
    RoundingSquare();
    hide *;
    LengthWithin(k, c, s, ex, ey, ROUNDING_DEG, p, q, n);
  }

  lemma OrbitOffset(center: real, radius: real, direction: real) returns (e: real)
    ensures Advanced(center, radius, direction) - center == Times(radius, direction) + e
    ensures -HALF_STEP <= e <= HALF_STEP && Sq(e) <= 0.00000000000025
  {
    hide RoundTo;
    var exact := center + radius * direction;
    e := RoundTo(exact, 6) - exact;
    RoundedError(exact);
  }

  /** A rounded point of the orbit lies on the circle, give or take the rounding of both coordinates. */
  lemma OrbitPoint(m: Math, f: Airframe, angle: real)
    requires m.Sound() && m.Circular() && f.orbitRadius >= 0.0
    ensures
      var n := m.Norm(OrbitLat(m, f, angle) - f.centerLat, OrbitLon(m, f, angle) - f.centerLon);
      f.orbitRadius - ROUNDING_DEG <= n <= f.orbitRadius + ROUNDING_DEG
  {
    hide Math.Sound, Math.Circular, Math.Norm, Advanced, Times, Sq;
    var p, q := OrbitLat(m, f, angle) - f.centerLat, OrbitLon(m, f, angle) - f.centerLon;
    NormSquared(m, p, q);
    CircleAt(m, angle);
    var ex := OrbitOffset(f.centerLat, f.orbitRadius, m.sin(angle));
    var ey := OrbitOffset(f.centerLon, f.orbitRadius, m.cos(angle));
    NearLength(f.orbitRadius, m.sin(angle), m.cos(angle), ex, ey, p, q, m.Norm(p, q));
  }

  function Gap(a: real, b: real): real {
    if a < b then b - a else a - b
  }

  /** Distance to the circle, in degrees. */
  function OffCircle(m: Math, s: Sim): real {
    Gap(m.Norm(s.lat - s.frame.centerLat, s.lon - s.frame.centerLon), s.frame.orbitRadius)
  }

  /** The vehicle is on its circle to within 8 cm. */
  ghost predicate OnCircle(m: Math, s: Sim) {
    OffCircle(m, s) <= ROUNDING_DEG
  }

  lemma OrbitingIsOnCircle(m: Math, s: Sim, dt: real)
    requires m.Sound() && m.Circular() && s.frame.orbitRadius >= 0.0
    ensures
      var v := OnOrbit(m, s, dt).0;
      v.frame == s.frame && v.state == s.state && v.alt == s.alt && v.speed == s.speed && OnCircle(m, v)
  {
    hide Math.Sound, Math.Circular, Math.Norm, OrbitLat, OrbitLon, Drain, Heading, Along, Bobbing, Turned, OrbitSpeed,
      Tangent, EntryAngle, Mission;
    OrbitPoint(m, s.frame, OnOrbit(m, s, dt).0.flightAngle);
  }

  /** A transit that ends a step at its entry point is on the circle as well. */
  lemma ArrivingIsOnCircle(m: Math, s: Sim, dt: real, angle: real)
    requires m.Sound() && m.Circular() && s.frame.orbitRadius >= 0.0
    ensures
      var targetLat, targetLon := OrbitLat(m, s.frame, angle), OrbitLon(m, s.frame, angle);
      var v := ToOrbit(m, s, dt, targetLat, targetLon).0;
      v.lat == targetLat && v.lon == targetLon ==> OnCircle(m, v)
  {
    hide Math.Sound, Math.Circular, Math.Norm, OrbitLat, OrbitLon, Drain, Heading, Along, EntryAngle, Mission, Advanced,
      StepDegrees, Climbed, Accelerated;
    OrbitPoint(m, s.frame, angle);
  }

  /** Whether the step of a patrolling vehicle is a transit to its orbit. */
  predicate InTransit(m: Math, s: Sim, dt: real) {
    var f, angle := s.frame, EntryAngle(m, s);
    Displaced(Meters(m, OrbitLat(m, f, angle) - s.lat, OrbitLon(m, f, angle) - s.lon), s.speed, dt)
  }

  /** Every step of a patrolling vehicle that is not a transit leaves it on its circle to within 8 cm,
      at the altitude and speed it had. */
  lemma PatrolStaysOnOrbit(m: Math, s: Sim, dt: real)
    requires m.Sound() && m.Circular() && s.frame.orbitRadius >= 0.0
    requires (s.state == "PATROL" || s.state == "AIRBORNE") && !InTransit(m, s, dt)
    ensures
      var v := Stepped(m, s, dt).0;
      v.frame == s.frame && v.state == s.state && v.alt == s.alt && v.speed == s.speed && OnCircle(m, v)
  {
    hide *;
    var t := s.(sequence := s.sequence + 1);
    TransitIgnoresSequence(m, s, dt);
    PatrolStep(m, s, dt);
    NotInTransitOrbits(m, t, dt);
    OrbitingIsOnCircle(m, t, dt);
  }

  lemma PatrolStep(m: Math, s: Sim, dt: real)
    requires s.state == "PATROL" || s.state == "AIRBORNE"
    ensures Stepped(m, s, dt) == Patrolled(m, s.(sequence := s.sequence + 1), dt)
  {
    hide Patrolled, Hovered, Returned, Report, RoundTo;
  }

  lemma TransitIgnoresSequence(m: Math, s: Sim, dt: real)
    ensures InTransit(m, s.(sequence := s.sequence + 1), dt) == InTransit(m, s, dt)
  {
    hide OrbitLat, OrbitLon, Displaced, Meters;
  }

  lemma NotInTransitOrbits(m: Math, s: Sim, dt: real)
    requires !InTransit(m, s, dt)
    ensures Patrolled(m, s, dt) == OnOrbit(m, s, dt)
  {
    hide OrbitLat, OrbitLon, EntryAngle, Displaced, Meters, OnOrbit, ToOrbit;
  }

  lemma TimesMinus(a: real, b: real, c: real)
    ensures Times(a, c) - Times(b, c) == Times(a - b, c)
    ensures Times(a, c) - Times(b, c) == Times(b - a, -c)
  {}

  lemma ZeroVector(p: real, q: real)
    requires Sq(p) + Sq(q) == Sq(0.0)
    ensures p == 0.0 && q == 0.0
  {
    SquareNonNegative(p);
    SquareNonNegative(q);
    assert p * p <= 0.0 * 0.0 && q * q <= 0.0 * 0.0;
    SquareMonotone(p, 0.0);
    SquareMonotone(q, 0.0);
    SquareOfOpposite(p);
    SquareOfOpposite(q);
    SquareMonotone(-p, 0.0);
    SquareMonotone(-q, 0.0);
  }

  /** The bearing from the centre is a unit vector along the offset, even at the centre itself. */
  lemma UnitFromCenter(m: Math, y: real, x: real)
    requires m.Sound() && m.Circular()
    ensures
      var n, c, d := m.Norm(y, x), m.cos(m.atan2(y, x)), m.sin(m.atan2(y, x));
      n >= 0.0 && Times(n, c) == x && Times(n, d) == y && Sq(c) + Sq(d) == 1.0
  {
    NormSquared(m, y, x);
    CircleAt(m, m.atan2(y, x));
    if m.Norm(y, x) > 0.0 {
      UnitBearing(m, y, x);
    } else {
      ZeroVector(y, x);
    }
  }

  /** The entry point of a vehicle is the nearest point of its circle, up to rounding. */
  lemma EntryIsNear(m: Math, s: Sim)
    requires m.Sound() && m.Circular() && s.frame.orbitRadius >= 0.0
    ensures
      var f, angle := s.frame, EntryAngle(m, s);
      0.0 <= m.Norm(OrbitLat(m, f, angle) - s.lat, OrbitLon(m, f, angle) - s.lon) <= OffCircle(m, s) + ROUNDING_DEG
  {
    hide Math.Sound, Math.Circular, Math.Norm, Advanced, Times, Sq;
    var f, angle := s.frame, EntryAngle(m, s);
    var n, r := m.Norm(s.lat - f.centerLat, s.lon - f.centerLon), f.orbitRadius;
    UnitFromCenter(m, s.lat - f.centerLat, s.lon - f.centerLon);
    var ex := OrbitOffset(f.centerLat, r, m.sin(angle));
    var ey := OrbitOffset(f.centerLon, r, m.cos(angle));
    var p, q := OrbitLat(m, f, angle) - s.lat, OrbitLon(m, f, angle) - s.lon;
    NormSquared(m, p, q);
    TimesMinus(r, n, m.sin(angle));
    TimesMinus(r, n, m.cos(angle));
    if r >= n {
      NearLength(r - n, m.sin(angle), m.cos(angle), ex, ey, p, q, m.Norm(p, q));
    } else {
      OppositeUnit(m.sin(angle), m.cos(angle));
      NearLength(n - r, -m.sin(angle), -m.cos(angle), ex, ey, p, q, m.Norm(p, q));
    }
  }

  lemma OppositeUnit(c: real, s: real)
    ensures Sq(-c) + Sq(-s) == Sq(c) + Sq(s)
  {
    SquareOfOpposite(c);
    SquareOfOpposite(s);
  }

  /** So a vehicle on its circle never starts a transit. */
  lemma CircleNeedsNoTransit(m: Math, s: Sim, dt: real)
    requires m.Sound() && m.Circular() && s.frame.orbitRadius >= 0.0 && OnCircle(m, s)
    ensures !InTransit(m, s, dt)
  {
    EntryIsNear(m, s);
    hide Math.Sound, Math.Circular, Math.Norm, OrbitLat, OrbitLon, EntryAngle;
    var f, angle := s.frame, EntryAngle(m, s);
    NearInMeters(m, OrbitLat(m, f, angle) - s.lat, OrbitLon(m, f, angle) - s.lon);
    hide Meters;
  }

  lemma NearInMeters(m: Math, dLat: real, dLon: real)
    requires m.Norm(dLat, dLon) <= 2.0 * ROUNDING_DEG
    ensures Meters(m, dLat, dLon) <= 8.0
  {
    hide Math.Norm;
  }

  /** A vehicle patrolling on its circle stays on it for any number of steps of any lengths, at the
      altitude and speed it had. */
  lemma {:induction false} PatrolsForever(m: Math, s: Sim, acts: seq<Act>)
    requires m.Sound() && m.Circular() && s.frame.orbitRadius >= 0.0
    requires (s.state == "PATROL" || s.state == "AIRBORNE") && OnCircle(m, s)
    requires forall a :: a in acts ==> a.Tick?
    ensures
      var v := Flown(m, s, acts);
      v.frame == s.frame && v.state == s.state && v.alt == s.alt && v.speed == s.speed && OnCircle(m, v)
  {
    hide Stepped, OnCircle, Math.Sound, Math.Circular, InTransit;
    if acts != [] {
      var front, last := acts[..|acts| - 1], acts[|acts| - 1];
      assert last in acts;
      PatrolsForever(m, s, front);
      CircleNeedsNoTransit(m, Flown(m, s, front), last.dt);
      PatrolStaysOnOrbit(m, Flown(m, s, front), last.dt);
    }
  }

  /** In particular every launched vehicle that is left alone, whatever altitude and speed it was
      launched with. */
  lemma LaunchedPatrolForever(m: Math, id: string, vehicleType: string, team: string, lat: real, lon: real,
                              alt: real, radius: real, speed: real, acts: seq<Act>)
    requires m.Sound() && m.Circular()
    requires forall a :: a in acts ==> a.Tick?
    ensures
      var v := Flown(m, Launched(m, id, vehicleType, team, lat, lon, alt, radius, speed), acts);
      && v.state == "AIRBORNE" && OnCircle(m, v)
      && v.frame.centerLat == lat && v.frame.centerLon == lon
      && v.alt == (if alt <= 0.0 then 120.0 else alt) && v.speed == (if speed <= 0.0 then 14.5 else speed)
  {
    hide OrbitLat, OrbitLon, Math.Norm, Math.Sound, Math.Circular, Flown;
    var s := Launched(m, id, vehicleType, team, lat, lon, alt, radius, speed);
    OrbitPoint(m, s.frame, 0.0);
    PatrolsForever(m, s, acts);
  }

  // ---------------------------------------------------------------- reports

  lemma SineIsSmall(m: Math, a: real)
    requires m.Circular()
    ensures -1.0 <= m.sin(a) <= 1.0
  {
    CircleAt(m, a);
    var x := m.sin(a);
    SquareNonNegative(m.cos(a));
    assert x * x <= 1.0 * 1.0;
    SquareMonotone(x, 1.0);
    SquareOfOpposite(x);
    SquareMonotone(-x, 1.0);
  }

  lemma SameAltitude(alt: real)
    ensures Gap(alt, alt) <= 5.05
  {}

  lemma RoundedAltitude(alt: real)
    ensures Gap(RoundTo(alt, 1), alt) <= 5.05
  {
    hide RoundTo, HalfUnit;
    RoundToIsNearest(alt, 1);
    HalfTenth();
  }

  lemma BobbingAltitude(m: Math, alt: real, angle: real)
    requires m.Circular()
    ensures Gap(Bobbing(m, alt, angle), alt) <= 5.05
  {
    SineIsSmall(m, angle * 2.0);
    hide RoundTo, HalfUnit;
    RoundToIsNearest(alt + 5.0 * m.sin(angle * 2.0), 2);
    HalfHundredth();
  }

  lemma HalfHundredth()
    ensures HalfUnit(2) <= 0.05
  {
    assert Pow10(2) == 10.0 * Pow10(1) && Pow10(1) == 10.0 * Pow10(0);
  }

  /** What a step's report says of the vehicle it is about: identity, sequence number, battery and
      heading as they are, a position within 10 m and an altitude within 5.05 m of the actual ones. */
  ghost predicate Truthful(m: Math, f: Airframe, sequence: nat, step: (Sim, Telemetry)) {
    var (v, t) := step;
    && t.vehicleId == f.id && t.vehicleType == f.vehicleType && t.team == f.team
    && t.sequence == v.sequence == sequence
    && t.batteryPct == v.battery && t.headingDeg == v.heading
    && Meters(m, t.coordinates.latitude - v.lat, t.coordinates.longitude - v.lon) <= 10.0
    && Gap(t.coordinates.altitudeM, v.alt) <= 5.05
  }

  lemma SamePlace(m: Math, lat: real, lon: real)
    requires m.Sound()
    ensures Meters(m, lat - lat, lon - lon) == 0.0
  {
    OriginIsNear(m);
  }

  lemma ToOrbitReportsTrue(m: Math, s: Sim, dt: real, targetLat: real, targetLon: real)
    requires m.Sound()
    ensures Truthful(m, s.frame, s.sequence, ToOrbit(m, s, dt, targetLat, targetLon))
  {
    hide Math.Sound, Meters, RoundTo, Gap, Drain, Heading, Along, EntryAngle, Advanced, StepDegrees, Climbed,
      Accelerated, Math.Norm, Mission;
    var v := ToOrbit(m, s, dt, targetLat, targetLon).0;
    SamePlace(m, v.lat, v.lon);
    RoundedAltitude(v.alt);
  }

  lemma OnOrbitReportsTrue(m: Math, s: Sim, dt: real)
    requires m.Sound() && m.Circular()
    ensures Truthful(m, s.frame, s.sequence, OnOrbit(m, s, dt))
  {
    hide Math.Sound, Math.Circular, Meters, Gap, Drain, Heading, Along, Bobbing, Turned, OrbitSpeed, Tangent,
      EntryAngle, OrbitLat, OrbitLon, Math.Norm, Mission;
    var v := OnOrbit(m, s, dt).0;
    SamePlace(m, v.lat, v.lon);
    BobbingAltitude(m, v.alt, v.flightAngle);
  }

  lemma HomewardReportsTrue(m: Math, s: Sim, dt: real)
    requires m.Sound()
    ensures Truthful(m, s.frame, s.sequence, Homeward(m, s, dt))
  {
    hide Math.Sound, Meters, Distance, DistDeg, RoundTo, Gap, Drain, Heading, Along, Advanced, StepDegrees, Lowered,
      Math.Norm;
    var v := Homeward(m, s, dt).0;
    SamePlace(m, v.lat, v.lon);
    RoundedAltitude(v.alt);
  }

  lemma TouchingDownReportsTrue(m: Math, s: Sim, dt: real)
    requires m.Sound() && Distance(m, s) <= 10.0
    ensures Truthful(m, s.frame, s.sequence, TouchingDown(s, dt))
  {
    hide Math.Sound, Meters, RoundTo, Gap, Lowered;
    var v := TouchingDown(s, dt).0;
    SamePlace(m, v.lat, v.lon);
    RoundedAltitude(v.alt);
  }

  /** Every step of every airworthy vehicle reports the truth in that sense. */
  lemma ReportsAreTrue(m: Math, s: Sim, dt: real)
    requires m.Sound() && m.Circular() && Airworthy(m, s)
    ensures Truthful(m, s.frame, s.sequence + 1, Stepped(m, s, dt))
  {
    hide Math.Sound, Math.Circular, Meters, RoundTo, Gap, Drain, OnGrid, ToOrbit, OnOrbit, Homeward, TouchingDown,
      OrbitLat, OrbitLon, EntryAngle, Displaced, Distance;
    var t := s.(sequence := s.sequence + 1);
    match s.state {
      case "HOVER" | "LANDED" =>
        SamePlace(m, s.lat, s.lon);
        RoundedAltitude(s.alt);
        SameAltitude(0.0);
      case "RTB" =>
        var u := t.(battery := Drain(t.battery, 0.03, dt));
        HomewardReportsTrue(m, u, dt);
        SameDistance(m, t, u.battery);
        if Distance(m, t) <= 10.0 {
          TouchingDownReportsTrue(m, u, dt);
        }
      case _ =>
        ToOrbitReportsTrue(m, t, dt, OrbitLat(m, t.frame, EntryAngle(m, t)), OrbitLon(m, t.frame, EntryAngle(m, t)));
        OnOrbitReportsTrue(m, t, dt);
    }
  }

  lemma SameDistance(m: Math, s: Sim, battery: real)
    ensures Distance(m, s.(battery := battery)) == Distance(m, s)
  {}
}
