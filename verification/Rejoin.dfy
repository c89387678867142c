/** How a patrol order ends: from wherever it is, a vehicle of Vehicle reaches its circle within a
  number of steps computed from its speed and its distance to the circle, and stays there. */
module Rejoin {
  import opened Rounding
  import opened Vehicle
  import opened Flight
  import opened Landing
  import opened Patrol

  predicate Patrolling(s: Sim) {
    s.state == "PATROL" || s.state == "AIRBORNE"
  }

  /** Distance to the circle in metres. */
  function OffMeters(m: Math, s: Sim): real {
    OffCircle(m, s) * METERS_PER_DEGREE
  }

  /** The speed a vehicle accelerates to. */
  function CruiseTarget(s: Sim): real {
    if s.cruiseSpeed <= 0.0 then 14.5 else s.cruiseSpeed
  }

  // What the rounding of a step can cost, in metres.
  const DRIFT: real := 0.08

  /** Metres gained by a step at speed w: all of it but 2 percent, for the entry point is rounded too. */
  function Closing(w: real, dt: real): real {
    0.98 * Times(w, dt) - DRIFT
  }

  /** Speed gained by a step that has not reached w. */
  function Pickup(dt: real): real {
    4.0 * dt - 0.005
  }

  // ---------------------------------------------------------------- one transit step

  lemma MixedError(part: real, e1: real, e2: real)
    requires 0.0 <= part <= 1.0 && -HALF_STEP <= e1 <= HALF_STEP && -HALF_STEP <= e2 <= HALF_STEP
    ensures Sq(Times(part, e1) + e2) <= Sq(Times(1.0 + part, HALF_STEP))
  {
    PartTimes(part, HALF_STEP - e1);
    PartTimes(part, HALF_STEP + e1);
    TimesLess(part, HALF_STEP, e1);
    TimesLess(part, e1, -HALF_STEP);
    TimesOpposite(part, HALF_STEP);
    OneMore(part, HALF_STEP);
    hide Times, Sq;
    SquareWithin(Times(part, e1) + e2, Times(1.0 + part, HALF_STEP));
  }

  lemma PartTimes(a: real, x: real)
    requires 0.0 <= a <= 1.0 && x >= 0.0
    ensures 0.0 <= Times(a, x) <= x
  {
    MulMonotone(a, 1.0, x);
  }

  lemma TimesOpposite(a: real, x: real)
    ensures Times(a, -x) == -Times(a, x)
  {}

  lemma SquareWithin(x: real, b: real)
    requires -b <= x <= b
    ensures Sq(x) <= Sq(b)
  {
    var y := if x < 0.0 then -x else x;
    MulMonotone(y, b, y);
    MulMonotone(y, b, b);
    SquareOfOpposite(x);
  }

  lemma MixedErrors(u: real)
    requires u >= 0.0
    ensures Sq(Times(u, HALF_STEP)) + Sq(Times(u, HALF_STEP)) <= Sq(Times(u, ROUNDING_DEG))
  {
    var h, r := HALF_STEP, ROUNDING_DEG;
    SquareOfTimes(u, h);
    SquareOfTimes(u, r);
    SquareNonNegative(u);
    MulMonotone(h * h + h * h, r * r, u * u);
  }

  lemma SquareOfTimes(u: real, x: real)
    ensures Sq(Times(u, x)) == u * u * (x * x)
  {}

  lemma MixedCoordinate(n: real, r: real, c: real, part: real, e1: real)
    ensures
      Times(n, c) + Times(part, Times(r, c) + e1 - Times(n, c))
      == Times(n + Times(part, r - n), c) + Times(part, e1)
  {}

  lemma MixedRadius(n: real, r: real, part: real)
    requires 0.0 <= part <= 1.0 && n >= 0.0 && r >= 0.0
    ensures
      var k := n + Times(part, r - n);
      k >= 0.0 && Gap(k, r) == Gap(n, r) - Times(part, Gap(n, r))
  {
    TimesOpposite(part, r - n);
    assert -(r - n) == n - r;
    if n <= r {
      PartTimes(part, r - n);
    } else {
      PartTimes(part, n - r);
    }
    hide Times;
  }

  lemma GapShifts(k: real, n: real, r: real, e: real)
    requires k - e <= n <= k + e
    ensures Gap(n, r) <= Gap(k, r) + e
  {}

  /** The fraction part of the way from a place to the rounded nearest point of the circle takes that
      fraction off the gap, up to roundings. */
  lemma PartOfTheWay(n: real, r: real, c: real, s: real, part: real, ex1: real, ey1: real, ex2: real, ey2: real,
                     p: real, q: real, at: real)
    requires n >= 0.0 && r >= 0.0 && at >= 0.0 && 0.0 <= part <= 1.0 && Sq(c) + Sq(s) == 1.0
    requires -HALF_STEP <= ex1 <= HALF_STEP && -HALF_STEP <= ey1 <= HALF_STEP
    requires -HALF_STEP <= ex2 <= HALF_STEP && -HALF_STEP <= ey2 <= HALF_STEP
    requires p == Times(n, c) + Times(part, Times(r, c) + ex1 - Times(n, c)) + ex2
    requires q == Times(n, s) + Times(part, Times(r, s) + ey1 - Times(n, s)) + ey2
    requires Sq(at) == Sq(p) + Sq(q)
    ensures Gap(at, r) <= Gap(n, r) - Times(part, Gap(n, r) - ROUNDING_DEG) + ROUNDING_DEG
  {
    MixedCoordinate(n, r, c, part, ex1);
    MixedCoordinate(n, r, s, part, ey1);
    MixedError(part, ex1, ex2);
    MixedError(part, ey1, ey2);
    MixedErrors(1.0 + part);
    MixedRadius(n, r, part);
    OneMore(part, ROUNDING_DEG);
    TimesLess(part, Gap(n, r), ROUNDING_DEG);
    hide *;
    var k, e := n + Times(part, r - n), Times(1.0 + part, ROUNDING_DEG);
    LengthWithin(k, c, s, Times(part, ex1) + ex2, Times(part, ey1) + ey2, e, p, q, at);
    GapShifts(k, at, r, e);
  }

  lemma OneMore(a: real, x: real)
    ensures Times(1.0 + a, x) == x + Times(a, x)
    ensures a >= 0.0 && x >= 0.0 ==> Times(a, x) >= 0.0
  {}

  lemma TimesLess(a: real, x: real, y: real)
    ensures Times(a, x - y) == Times(a, x) - Times(a, y)
  {}

  /** A step along a unit direction, as a fraction of the whole way. */
  lemma FractionOf(d: real, stepDeg: real, direction: real, way: real) returns (part: real)
    requires d > 0.0 && 0.0 <= stepDeg <= d && Times(d, direction) == way
    ensures part == stepDeg / d && 0.0 <= part <= 1.0 && Times(part, d) == stepDeg
    ensures Times(stepDeg, direction) == Times(part, way)
  {
    part := stepDeg / d;
    DivideBack(stepDeg, d);
    TimesAssociate(part, d, direction);
    hide Times;
    if part > 1.0 {
      TimesGrowsWith(1.0, part, d);
      TimesOne(d);
    }
    if part < 0.0 {
      TimesGrowsWith(part, 0.0, d);
      NoneOf(d);
    }
  }

  lemma TimesAssociate(a: real, b: real, c: real)
    ensures Times(Times(a, b), c) == Times(a, Times(b, c))
  {}

  lemma TimesOne(x: real)
    ensures Times(1.0, x) == x
  {}

  /** More than 8 m away, at most 2 percent of the step is lost to the rounding of the entry point. */
  lemma MostOfTheStep(part: real, d: real, gap: real)
    requires part >= 0.0 && d * METERS_PER_DEGREE > 8.0 && d <= gap + ROUNDING_DEG
    ensures Times(part, gap - ROUNDING_DEG) >= 0.98 * Times(part, d)
  {
    assert gap - ROUNDING_DEG >= 0.98 * d;
    MulMonotone(0.98 * d, gap - ROUNDING_DEG, part);
  }

  lemma TransitAdvanceCloses(m: Math, s: Sim, stepDeg: real)
    requires m.Sound() && m.Circular() && s.frame.orbitRadius >= 0.0
    requires
      var toLat, toLon := OrbitLat(m, s.frame, EntryAngle(m, s)), OrbitLon(m, s.frame, EntryAngle(m, s));
      Meters(m, toLat - s.lat, toLon - s.lon) > 8.0 && 0.0 <= stepDeg < m.Norm(toLat - s.lat, toLon - s.lon)
    ensures
      var f, angle := s.frame, EntryAngle(m, s);
      var bearing := m.atan2(OrbitLon(m, f, angle) - s.lon, OrbitLat(m, f, angle) - s.lat);
      var lat, lon := Advanced(s.lat, stepDeg, m.cos(bearing)), Advanced(s.lon, stepDeg, m.sin(bearing));
      Gap(m.Norm(lat - f.centerLat, lon - f.centerLon), f.orbitRadius)
        <= OffCircle(m, s) - 0.98 * stepDeg + ROUNDING_DEG
  {
    hide Math.Sound, Math.Circular, Math.Norm, Advanced, Times, Sq, Gap;
    var f, angle := s.frame, EntryAngle(m, s);
    var dLat, dLon := OrbitLat(m, f, angle) - s.lat, OrbitLon(m, f, angle) - s.lon;
    var n, r, d := m.Norm(s.lat - f.centerLat, s.lon - f.centerLon), f.orbitRadius, m.Norm(dLat, dLon);
    EntryIsNear(m, s);
    UnitFromCenter(m, s.lat - f.centerLat, s.lon - f.centerLon);
    NormIsSymmetric(m, dLat, dLon);
    UnitBearing(m, dLon, dLat);
    var bearing := m.atan2(dLon, dLat);
    var ex1 := OrbitOffset(f.centerLat, r, m.sin(angle));
    var ey1 := OrbitOffset(f.centerLon, r, m.cos(angle));
    var ex2 := OrbitOffset(s.lat, stepDeg, m.cos(bearing));
    var ey2 := OrbitOffset(s.lon, stepDeg, m.sin(bearing));
    var part := FractionOf(d, stepDeg, m.cos(bearing), dLat);
    var _ := FractionOf(d, stepDeg, m.sin(bearing), dLon);
    var lat, lon := Advanced(s.lat, stepDeg, m.cos(bearing)), Advanced(s.lon, stepDeg, m.sin(bearing));
    NormSquared(m, lat - f.centerLat, lon - f.centerLon);
    PartOfTheWay(n, r, m.sin(angle), m.cos(angle), part, ex1, ey1, ex2, ey2,
                 lat - f.centerLat, lon - f.centerLon, m.Norm(lat - f.centerLat, lon - f.centerLon));
    MostOfTheStep(part, d, OffCircle(m, s));
  }

  /** What a transit step leaves as it was, and what it does to the speed. */
  lemma TransitKeeps(m: Math, s: Sim, dt: real, toLat: real, toLon: real)
    ensures
      var v := ToOrbit(m, s, dt, toLat, toLon).0;
      v.frame == s.frame && v.state == s.state && v.cruiseSpeed == s.cruiseSpeed && v.speed == Accelerated(s, dt)
  {
    hide Math.Norm, Advanced, StepDegrees, Drain, Heading, Along, Climbed, Accelerated, EntryAngle, RoundTo;
  }

  lemma TransitMoves(m: Math, s: Sim, dt: real, toLat: real, toLon: real)
    ensures
      var v := ToOrbit(m, s, dt, toLat, toLon).0;
      var stepDeg, bearing := StepDegrees(Accelerated(s, dt), dt), m.atan2(toLon - s.lon, toLat - s.lat);
      if stepDeg >= m.Norm(toLat - s.lat, toLon - s.lon) then v.lat == toLat && v.lon == toLon
      else v.lat == Advanced(s.lat, stepDeg, m.cos(bearing)) && v.lon == Advanced(s.lon, stepDeg, m.sin(bearing))
  {
    hide Math.Norm, Advanced, StepDegrees, Drain, Heading, Along, Climbed, Accelerated, EntryAngle, RoundTo;
  }

  lemma FarFromEntry(m: Math, s: Sim, dt: real)
    requires InTransit(m, s, dt)
    ensures
      Meters(m, OrbitLat(m, s.frame, EntryAngle(m, s)) - s.lat, OrbitLon(m, s.frame, EntryAngle(m, s)) - s.lon) > 8.0
  {
    hide Meters, OrbitLat, OrbitLon, EntryAngle;
  }

  lemma OffCircleIs(m: Math, s: Sim)
    ensures OffCircle(m, s) == Gap(m.Norm(s.lat - s.frame.centerLat, s.lon - s.frame.centerLon), s.frame.orbitRadius)
  {
    hide Gap, Math.Norm;
  }

  lemma TransitCloses(m: Math, s: Sim, dt: real)
    requires m.Sound() && m.Circular() && s.frame.orbitRadius >= 0.0 && InTransit(m, s, dt)
    requires StepDegrees(Accelerated(s, dt), dt) >= 0.0
    ensures
      var f, angle := s.frame, EntryAngle(m, s);
      var v := ToOrbit(m, s, dt, OrbitLat(m, f, angle), OrbitLon(m, f, angle)).0;
      OnCircle(m, v) || OffCircle(m, v) <= OffCircle(m, s) - 0.98 * StepDegrees(v.speed, dt) + ROUNDING_DEG
  {
    hide *;
    var f, angle := s.frame, EntryAngle(m, s);
    var toLat, toLon, stepDeg := OrbitLat(m, f, angle), OrbitLon(m, f, angle), StepDegrees(Accelerated(s, dt), dt);
    TransitKeeps(m, s, dt, toLat, toLon);
    TransitMoves(m, s, dt, toLat, toLon);
    var v := ToOrbit(m, s, dt, toLat, toLon).0;
    if stepDeg < m.Norm(toLat - s.lat, toLon - s.lon) {
      FarFromEntry(m, s, dt);
      TransitAdvanceCloses(m, s, stepDeg);
      OffCircleIs(m, v);
    } else {
      ArrivingIsOnCircle(m, s, dt, angle);
    }
  }

  lemma ClosesInMeters(before: real, after: real, speed: real, dt: real)
    requires after <= before - 0.98 * StepDegrees(speed, dt) + ROUNDING_DEG
    ensures after * METERS_PER_DEGREE <= before * METERS_PER_DEGREE - Closing(speed, dt)
  {
    assert StepDegrees(speed, dt) * METERS_PER_DEGREE == speed * dt;
  }

  /** Acceleration: at least `Pickup` a step until w is reached, and no falling back below it. */
  lemma AcceleratesTo(s: Sim, dt: real, w: real)
    requires dt >= 0.0 && OnGrid(w, 2) && w <= CruiseTarget(s)
    ensures Accelerated(s, dt) >= Min(w, s.speed + Pickup(dt))
    ensures s.speed >= w ==> Accelerated(s, dt) >= w
  {
    hide RoundTo, OnGrid, HalfUnit;
    if s.speed < CruiseTarget(s) {
      var x := Min(CruiseTarget(s), s.speed + 4.0 * dt);
      if x >= w {
        RoundToMonotone(w, x, 2);
        RoundToFixedExactly(w, 2);
      } else {
        RoundToIsNearest(x, 2);
        HalfHundredthIs();
      }
    }
  }

  lemma HalfHundredthIs()
    ensures HalfUnit(2) == 0.005
  {
    assert Pow10(2) == 10.0 * Pow10(1) && Pow10(1) == 10.0 * Pow10(0);
  }

  lemma AccelerationIsForward(s: Sim, dt: real)
    requires dt >= 0.0 && s.speed >= 0.0
    ensures Accelerated(s, dt) >= 0.0
  {
    hide RoundTo, OnGrid;
    IntegerOnGrid(0, 2);
    RoundToFixedExactly(0.0, 2);
    if s.speed < CruiseTarget(s) {
      RoundToMonotone(0.0, Min(CruiseTarget(s), s.speed + 4.0 * dt), 2);
    }
  }

  lemma TransitStepIs(m: Math, s: Sim, dt: real)
    requires Patrolling(s) && InTransit(m, s, dt)
    ensures
      var t := s.(sequence := s.sequence + 1);
      var toLat, toLon := OrbitLat(m, t.frame, EntryAngle(m, t)), OrbitLon(m, t.frame, EntryAngle(m, t));
      Stepped(m, s, dt) == ToOrbit(m, t, dt, toLat, toLon)
  {
    PatrolStep(m, s, dt);
    TransitIgnoresSequence(m, s, dt);
    hide Stepped, OrbitLat, OrbitLon, EntryAngle, Displaced, Meters, OnOrbit, ToOrbit;
  }

  /** One step of a patrolling vehicle: it is on its circle afterwards, or it has come nearer. */
  lemma PatrolStepCloses(m: Math, s: Sim, dt: real)
    requires m.Sound() && m.Circular() && s.frame.orbitRadius >= 0.0
    requires Patrolling(s) && s.speed >= 0.0 && dt >= 0.0
    ensures
      var v := Stepped(m, s, dt).0;
      && v.frame == s.frame && v.state == s.state
      && (OnCircle(m, v) ||
          (v.cruiseSpeed == s.cruiseSpeed && v.speed == Accelerated(s, dt) && v.speed >= 0.0
           && InTransit(m, s, dt)
           && OffMeters(m, v) <= OffMeters(m, s) - Closing(v.speed, dt)))
  {
    hide *;
    if InTransit(m, s, dt) {
      var t := s.(sequence := s.sequence + 1);
      TransitStepIs(m, s, dt);
      AccelerationIsForward(s, dt);
      SequenceIsIrrelevant(m, s, dt);
      TransitIgnoresSequence(m, s, dt);
      StepDegreesPositive(Accelerated(s, dt), dt);
      TransitCloses(m, t, dt);
      TransitKeeps(m, t, dt, OrbitLat(m, t.frame, EntryAngle(m, t)), OrbitLon(m, t.frame, EntryAngle(m, t)));
      var v := Stepped(m, s, dt).0;
      if !OnCircle(m, v) {
        ClosesInMeters(OffCircle(m, s), OffCircle(m, v), v.speed, dt);
        OffMetersIs(m, s);
        OffMetersIs(m, v);
      }
    } else {
      IsPatrolling(s);
      PatrolStaysOnOrbit(m, s, dt);
    }
  }

  lemma IsPatrolling(s: Sim)
    requires Patrolling(s)
    ensures s.state == "PATROL" || s.state == "AIRBORNE"
  {}

  lemma OffMetersIs(m: Math, s: Sim)
    ensures OffMeters(m, s) == OffCircle(m, s) * METERS_PER_DEGREE
  {}

  lemma SequenceIsIrrelevant(m: Math, s: Sim, dt: real)
    ensures
      var t := s.(sequence := s.sequence + 1);
      Accelerated(t, dt) == Accelerated(s, dt) && OffCircle(m, t) == OffCircle(m, s)
  {
    hide RoundTo, Math.Norm;
  }

  // ---------------------------------------------------------------- the whole way

  lemma CircleAtZero(m: Math, s: Sim, dt: real)
    requires m.Sound() && m.Circular() && s.frame.orbitRadius >= 0.0 && OffMeters(m, s) <= 0.0
    ensures !InTransit(m, s, dt)
  {
    ZeroMeters(OffCircle(m, s));
    hide Math.Sound, Math.Circular, InTransit, OffCircle;
    CircleNeedsNoTransit(m, s, dt);
  }

  lemma ZeroMeters(d: real)
    requires d * METERS_PER_DEGREE <= 0.0
    ensures d <= ROUNDING_DEG
  {}

  /** Faster or longer steps close more, and no step opens the gap by more than the drift. */
  lemma ClosingGrows(v: real, w: real, step: real, dt: real)
    requires v >= w >= 0.0 && step >= dt >= 0.0
    ensures Closing(v, step) >= Closing(w, dt)
    ensures Closing(v, step) >= -DRIFT
  {
    TimesGrows(w, v, dt, step);
    hide Times;
  }

  lemma TimesGrows(w: real, v: real, dt: real, step: real)
    requires v >= w >= 0.0 && step >= dt >= 0.0
    ensures 0.0 <= Times(w, dt) <= Times(v, step)
  {
    MulMonotone(w, v, dt);
    MulMonotone(dt, step, v);
    StepDegreesPositive(w, dt);
    assert dt * v == v * dt && step * v == v * step;
  }

  /** k pickups away from a speed w, and n closing steps at that speed away from the circle, with the
      drift of the k allowed for. */
  ghost predicate Near(m: Math, s: Sim, dt: real, w: real, k: nat, n: nat) {
    && s.frame.orbitRadius >= 0.0 && Patrolling(s) && s.speed >= 0.0
    && 0.0 <= w <= CruiseTarget(s) && OnGrid(w, 2)
    && w <= s.speed + Times(k as real, Pickup(dt))
    && OffMeters(m, s) + Times(k as real, DRIFT) <= Times(n as real, Closing(w, dt))
  }

  /** Step lengths at which speed w makes headway. */
  predicate Makes(w: real, dt: real) {
    dt >= 0.0 && Pickup(dt) > 0.0 && Closing(w, dt) > 0.0
  }

  /** A transit step at speed w or more uses up one of the closing steps. */
  lemma FastStep(m: Math, s: Sim, v: Sim, step: real, dt: real, w: real, k: nat, n: nat)
    requires m.Sound() && m.Circular() && InTransit(m, s, step) && Near(m, s, dt, w, k, n) && Makes(w, dt)
    requires step >= dt && s.speed >= w
    requires v.frame == s.frame && v.state == s.state && v.cruiseSpeed == s.cruiseSpeed
    requires v.speed == Accelerated(s, step) && OffMeters(m, v) <= OffMeters(m, s) - Closing(v.speed, step)
    ensures n > 0 && Near(m, v, dt, w, 0, n - 1)
  {
    hide OffMeters, Math.Sound, Math.Circular, InTransit, OnGrid, Accelerated, Closing, Times, Pickup;
    AcceleratesTo(s, step, w);
    CountIsNonNegative(k, DRIFT);
    ClosingGrows(v.speed, w, step, dt);
    NoneOf(Pickup(dt));
    NoneOf(DRIFT);
    NoneOf(Closing(w, dt));
    if n == 0 {
      CircleAtZero(m, s, step);
    } else {
      Peel(n, Closing(w, dt));
    }
  }

  /** A transit step below w uses up one of the pickups, and at most drifts. */
  lemma SlowStep(m: Math, s: Sim, v: Sim, step: real, dt: real, w: real, k: nat, n: nat)
    requires Near(m, s, dt, w, k, n) && Makes(w, dt) && step >= dt && s.speed < w
    requires v.frame == s.frame && v.state == s.state && v.cruiseSpeed == s.cruiseSpeed
    requires v.speed == Accelerated(s, step) >= 0.0 && OffMeters(m, v) <= OffMeters(m, s) - Closing(v.speed, step)
    ensures k > 0 && Near(m, v, dt, w, k - 1, n)
  {
    NoneOf(Pickup(dt));
    assert k > 0;
    assert Pickup(step) >= Pickup(dt);
    hide OffMeters, OnGrid, Accelerated, Closing, Times, Pickup;
    AcceleratesTo(s, step, w);
    ClosingGrows(v.speed, v.speed, step, step);
    Peel(k, Pickup(dt));
    Peel(k, DRIFT);
    CountIsNonNegative(k - 1, Pickup(dt));
  }

  /** A vehicle so near is on its circle after k + n + 1 steps of any lengths from dt on. */
  lemma {:induction false} Rejoins(m: Math, s: Sim, acts: seq<Act>, dt: real, w: real, k: nat, n: nat)
    requires m.Sound() && m.Circular() && StepsOf(acts, dt) && Makes(w, dt)
    requires Near(m, s, dt, w, k, n) && |acts| >= k + n + 1
    ensures OnCircle(m, Flown(m, s, acts))
    decreases k + n
  {
    hide *;
    NearFacts(m, s, dt, w, k, n);
    FirstStep(acts, dt, w);
    var step, rest := acts[0].dt, acts[1..];
    FlownFirst(m, s, acts);
    AfterTick(m, s, acts[0]);
    PatrolStepCloses(m, s, step);
    var v := Stepped(m, s, step).0;
    if OnCircle(m, v) {
      PatrolsForever(m, v, rest);
    } else if s.speed >= w {
      FastStep(m, s, v, step, dt, w, k, n);
      Rejoins(m, v, rest, dt, w, 0, n - 1);
    } else {
      SlowStep(m, s, v, step, dt, w, k, n);
      Rejoins(m, v, rest, dt, w, k - 1, n);
    }
  }

  lemma FirstStep(acts: seq<Act>, dt: real, w: real)
    requires acts != [] && StepsOf(acts, dt) && Makes(w, dt)
    ensures acts[0].Tick? && acts[0].dt >= dt >= 0.0
    ensures StepsOf(acts[1..], dt) && forall a :: a in acts[1..] ==> a.Tick?
  {
    assert acts[0] in acts;
    assert forall a :: a in acts[1..] ==> a in acts;
  }

  lemma AfterTick(m: Math, s: Sim, a: Act)
    requires a.Tick?
    ensures After(m, s, a) == Stepped(m, s, a.dt).0
  {}

  lemma NearFacts(m: Math, s: Sim, dt: real, w: real, k: nat, n: nat)
    requires Near(m, s, dt, w, k, n)
    ensures s.frame.orbitRadius >= 0.0 && Patrolling(s) && s.speed >= 0.0
    ensures s.state == "PATROL" || s.state == "AIRBORNE"
  {
    hide OffMeters, OnGrid, Closing, Times, Pickup;
  }

  /** Steps that suffice to speed up to w and then to close the gap. */
  function RejoinBound(m: Math, s: Sim, dt: real, w: real): nat
    requires Makes(w, dt)
  {
    var k := Units(w - s.speed, Pickup(dt));
    k + Units(OffMeters(m, s) + Times(k as real, DRIFT), Closing(w, dt)) + 1
  }

  /** Every patrolling vehicle is on its circle to within 8 cm after `RejoinBound` steps of lengths from
      dt on, and after every later one: for any two-decimal speed w that it may accelerate to and
      that outdoes the drift in a step. */
  lemma PatrolsRejoin(m: Math, s: Sim, acts: seq<Act>, dt: real, w: real)
    requires m.Sound() && m.Circular() && s.frame.orbitRadius >= 0.0 && Patrolling(s) && s.speed >= 0.0
    requires 0.0 <= w <= CruiseTarget(s) && OnGrid(w, 2) && Makes(w, dt)
    requires StepsOf(acts, dt) && |acts| >= RejoinBound(m, s, dt, w)
    ensures OnCircle(m, Flown(m, s, acts))
  {
    hide Flown, OnCircle, OffMeters, OnGrid, Closing, CruiseTarget, Patrolling, Times, Pickup, Math.Sound,
      Math.Circular;
    var k := Units(w - s.speed, Pickup(dt));
    Rejoins(m, s, acts, dt, w, k, Units(OffMeters(m, s) + Times(k as real, DRIFT), Closing(w, dt)));
  }

  /** In particular after a patrol order, whatever the vehicle was doing: from the hover, from the way
      home or from the ground. */
  lemma PatrolOrdersRejoin(m: Math, s: Sim, target: string, acts: seq<Act>, dt: real, w: real)
    requires m.Sound() && m.Circular() && s.frame.orbitRadius >= 0.0 && Addressed(target, s.frame.id)
    requires 0.0 <= w <= CruiseTarget(s) && OnGrid(w, 2) && Makes(w, dt) && StepsOf(acts, dt)
    requires |acts| >= RejoinBound(m, Commanded(s, target, "PATROL"), dt, w)
    ensures OnCircle(m, Flown(m, Commanded(s, target, "PATROL"), acts))
  {
    hide Addressed, OnGrid, Makes, OnCircle, Flown, RejoinBound, Math.Sound, Math.Circular, StepsOf;
    PatrolsRejoin(m, Commanded(s, target, "PATROL"), acts, dt, w);
  }
}
