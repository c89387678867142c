/** Steps too short to be seen: coordinates are kept to six decimals, so an advance that rounds away
  leaves the vehicle of Vehicle where it is, and it never arrives. */
module Stall {
  import opened Rounding
  import opened Vehicle
  import opened Flight
  import opened Landing
  import opened Patrol
  import opened Rejoin

  // ---------------------------------------------------------------- one coordinate

  /** Whether y units are lost when they are added to n whole ones and rounded: less than half, or
      exactly half towards zero. */
  predicate Lost(n: int, y: real) {
    if n > 0 then -0.5 <= y < 0.5
    else if n < 0 then -0.5 < y <= 0.5
    else -0.5 < y < 0.5
  }

  lemma RoundStaysExactly(n: int, y: real)
    ensures Round(n as real + y) == n <==> Lost(n, y)
  {}

  /** Whether an advance by x from v, both in degrees, is lost in the sixth decimal. */
  predicate RoundsAway(v: real, x: real) {
    Lost(Scaled(v, 6).Floor, Scaled(x, 6))
  }

  /** An advance leaves a six-decimal coordinate as it is exactly if it rounds away. */
  lemma AdvanceStaysExactly(v: real, stepDeg: real, direction: real)
    requires OnGrid(v, 6)
    ensures Advanced(v, stepDeg, direction) == v <==> RoundsAway(v, Times(stepDeg, direction))
  {
    var x := stepDeg * direction;
    SumTimes(v, x, Pow10(6));
    ScaledRoundTo(v + x, 6);
    ScaledOrder(RoundTo(v + x, 6), v, 6);
    RoundStaysExactly(Scaled(v, 6).Floor, Scaled(x, 6));
    hide Round, RoundTo, Lost, Pow10;
  }

  lemma ShortRoundsAway(v: real, x: real)
    requires -HALF_STEP < x < HALF_STEP
    ensures RoundsAway(v, x)
  {
    MillionfoldScale(x);
    hide Scaled;
  }

  lemma MillionfoldScale(x: real)
    ensures Scaled(x, 6) == 1000000.0 * x
  {
    assert Pow10(6) == 10.0 * Pow10(5) && Pow10(5) == 10.0 * Pow10(4) && Pow10(4) == 10.0 * Pow10(3);
    assert Pow10(3) == 10.0 * Pow10(2) && Pow10(2) == 10.0 * Pow10(1) && Pow10(1) == 10.0 * Pow10(0);
  }

  predicate OnSixDecimals(s: Sim) {
    OnGrid(s.lat, 6) && OnGrid(s.lon, 6)
  }

  /** An advance towards a point that loses both coordinates. */
  predicate LosesBoth(m: Math, s: Sim, toLat: real, toLon: real, stepDeg: real) {
    var bearing := m.atan2(toLon - s.lon, toLat - s.lat);
    && stepDeg < m.Norm(toLat - s.lat, toLon - s.lon)
    && RoundsAway(s.lat, Times(stepDeg, m.cos(bearing)))
    && RoundsAway(s.lon, Times(stepDeg, m.sin(bearing)))
  }

  lemma UnitPart(c: real, s: real, stepDeg: real)
    requires Sq(c) + Sq(s) == 1.0 && 0.0 <= stepDeg < HALF_STEP
    ensures -HALF_STEP < Times(stepDeg, c) < HALF_STEP
  {
    UnitIsSmall(c, s);
    TimesCommutes(stepDeg, c);
    TimesCommutes(stepDeg, -c);
    TimesOpposite(stepDeg, c);
    if c >= 0.0 {
      PartTimes(c, stepDeg);
    } else {
      PartTimes(-c, stepDeg);
    }
    hide Times;
  }

  lemma UnitIsSmall(c: real, s: real)
    requires Sq(c) + Sq(s) == 1.0
    ensures -1.0 <= c <= 1.0
  {
    SquareNonNegative(s);
    assert c * c <= 1.0 * 1.0;
    SquareMonotone(c, 1.0);
    SquareOfOpposite(c);
    SquareMonotone(-c, 1.0);
  }

  lemma TimesCommutes(a: real, b: real)
    ensures Times(a, b) == Times(b, a)
  {}

  /** An advance of less than half the sixth decimal always does. */
  lemma ShortLosesBoth(m: Math, s: Sim, toLat: real, toLon: real, stepDeg: real)
    requires m.Sound() && 0.0 <= stepDeg < HALF_STEP && m.Norm(toLat - s.lat, toLon - s.lon) >= HALF_STEP
    ensures LosesBoth(m, s, toLat, toLon, stepDeg)
  {
    var dLat, dLon := toLat - s.lat, toLon - s.lon;
    NormIsSymmetric(m, dLat, dLon);
    UnitBearing(m, dLon, dLat);
    hide RoundsAway, Math.Norm, Math.Sound, Times, Sq;
    var bearing := m.atan2(dLon, dLat);
    UnitPart(m.cos(bearing), m.sin(bearing), stepDeg);
    UnitPart(m.sin(bearing), m.cos(bearing), stepDeg);
    ShortRoundsAway(s.lat, Times(stepDeg, m.cos(bearing)));
    ShortRoundsAway(s.lon, Times(stepDeg, m.sin(bearing)));
  }

  // ---------------------------------------------------------------- on the way home

  /** The transit step towards the pad that goes nowhere. */
  predicate StallsHomeward(m: Math, s: Sim, dt: real) {
    LosesBoth(m, s, s.baseLat, s.baseLon, StepDegrees(s.speed, dt))
  }

  lemma HomewardMoves(m: Math, s: Sim, dt: real)
    requires s.state == "RTB" && Distance(m, s) > 10.0
    ensures
      var v := Stepped(m, s, dt).0;
      var stepDeg, bearing := StepDegrees(s.speed, dt), m.atan2(s.baseLon - s.lon, s.baseLat - s.lat);
      && v.state == "RTB" && v.speed == s.speed && v.baseLat == s.baseLat && v.baseLon == s.baseLon
      && if stepDeg >= m.Norm(s.baseLat - s.lat, s.baseLon - s.lon) then v.lat == s.baseLat && v.lon == s.baseLon
         else v.lat == Advanced(s.lat, stepDeg, m.cos(bearing)) && v.lon == Advanced(s.lon, stepDeg, m.sin(bearing))
  {
    hide Drain, Heading, Advanced, StepDegrees, Lowered, Along, Meters, Math.Norm, RoundTo, Patrolled, Hovered,
      TouchingDown;
  }

  /** A vehicle more than 10 m from its pad stays where it is exactly if the step is shorter than the way
      and both of its parts round away. */
  lemma HomewardStallsExactly(m: Math, s: Sim, dt: real)
    requires m.Sound() && s.state == "RTB" && Distance(m, s) > 10.0 && OnSixDecimals(s)
    ensures
      var v := Stepped(m, s, dt).0;
      v.lat == s.lat && v.lon == s.lon <==> StallsHomeward(m, s, dt)
  {
    hide *;
    HomewardMoves(m, s, dt);
    StallsHomewardIs(m, s, dt);
    OnSixDecimalsIs(s);
    DistanceIs(m, s);
    MetersFacts(m, s.baseLat - s.lat, s.baseLon - s.lon);
    var stepDeg, bearing := StepDegrees(s.speed, dt), m.atan2(s.baseLon - s.lon, s.baseLat - s.lat);
    AdvanceStaysExactly(s.lat, stepDeg, m.cos(bearing));
    AdvanceStaysExactly(s.lon, stepDeg, m.sin(bearing));
    WayMeansElsewhere(m, s.lat, s.lon, s.baseLat, s.baseLon);
  }

  lemma StallsHomewardIs(m: Math, s: Sim, dt: real)
    ensures
      var stepDeg, bearing := StepDegrees(s.speed, dt), m.atan2(s.baseLon - s.lon, s.baseLat - s.lat);
      StallsHomeward(m, s, dt) <==>
        && stepDeg < m.Norm(s.baseLat - s.lat, s.baseLon - s.lon)
        && RoundsAway(s.lat, Times(stepDeg, m.cos(bearing)))
        && RoundsAway(s.lon, Times(stepDeg, m.sin(bearing)))
  {
    hide RoundsAway, Times, Math.Norm, StepDegrees;
  }

  lemma WayMeansElsewhere(m: Math, lat: real, lon: real, toLat: real, toLon: real)
    requires m.Sound()
    ensures m.Norm(toLat - lat, toLon - lon) > 0.0 ==> toLat != lat || toLon != lon
  {
    OriginIsNear(m);
    hide Math.Norm, Math.Sound;
  }

  /** Steps of one length. */
  function Ticks(n: nat, dt: real): (acts: seq<Act>)
    ensures |acts| == n && forall a :: a in acts ==> a == Tick(dt)
  {
    seq(n, _ => Tick(dt))
  }

  lemma TicksFront(n: nat, dt: real)
    requires n > 0
    ensures Ticks(n, dt)[..n - 1] == Ticks(n - 1, dt) && Ticks(n, dt)[n - 1] == Tick(dt)
  {}

  /** What a stall depends on. */
  predicate SamePlaceAndPad(s: Sim, v: Sim) {
    && v.state == s.state && v.speed == s.speed && v.lat == s.lat && v.lon == s.lon
    && v.baseLat == s.baseLat && v.baseLon == s.baseLon
  }

  lemma SameStall(m: Math, s: Sim, v: Sim, dt: real)
    requires SamePlaceAndPad(s, v)
    ensures Distance(m, v) == Distance(m, s) && StallsHomeward(m, v, dt) == StallsHomeward(m, s, dt)
    ensures OnSixDecimals(v) == OnSixDecimals(s)
  {
    hide RoundsAway, Times, Math.Norm, StepDegrees, OnGrid;
  }

  /** Once a step stalls, all further steps of its length do: the vehicle is still on its way, in the
      same place, after any number of them. */
  lemma {:induction false} StalledForever(m: Math, s: Sim, dt: real, n: nat)
    requires m.Sound() && s.state == "RTB" && Distance(m, s) > 10.0 && OnSixDecimals(s) && StallsHomeward(m, s, dt)
    ensures SamePlaceAndPad(s, Flown(m, s, Ticks(n, dt)))
  {
    hide Stepped, Distance, OnSixDecimals, StallsHomeward, Math.Sound;
    if n > 0 {
      StalledForever(m, s, dt, n - 1);
      TicksFront(n, dt);
      var v := Flown(m, s, Ticks(n - 1, dt));
      SameStall(m, s, v, dt);
      HomewardStallsExactly(m, v, dt);
      HomewardMoves(m, v, dt);
    }
  }

  lemma ShortSteps(speed: real, dt: real)
    requires speed >= 0.0 && dt >= 0.0
    ensures StepDegrees(speed, dt) < HALF_STEP <==> speed * dt < HALF_STEP * METERS_PER_DEGREE
  {}

  lemma FarInDegrees(m: Math, dLat: real, dLon: real)
    requires Meters(m, dLat, dLon) > 8.0
    ensures m.Norm(dLat, dLon) >= HALF_STEP
  {
    hide Math.Norm;
  }

  /** Recalled from more than 10 m away, a vehicle in steps of one length lands sooner or later exactly
      if that length outdoes the rounding. Between half the sixth decimal (0.056 m) and 0.08 m a step it
      depends on the direction, and `HomewardStallsExactly` decides step by step. */
  lemma LandsExactly(m: Math, s: Sim, dt: real)
    requires m.Sound() && s.state == "RTB" && s.speed == 14.5 && Distance(m, s) > 10.0 && OnSixDecimals(s)
    requires dt >= 0.0 && (StepDegrees(14.5, dt) < HALF_STEP || Gain(dt) > 0.0)
    ensures (exists n :: OnPad(Flown(m, s, Ticks(n, dt)), s.baseLat, s.baseLon)) <==> Gain(dt) > 0.0
  {
    hide Flown, Distance, OnSixDecimals, Math.Sound, Ticks;
    if Gain(dt) > 0.0 {
      var n := StepBound(Distance(m, s), s.alt, dt);
      ReturnsLand(m, s, Ticks(n, dt), dt);
    } else {
      DistanceIs(m, s);
      FarInDegrees(m, s.baseLat - s.lat, s.baseLon - s.lon);
      StepDegreesPositive(14.5, dt);
      ShortLosesBoth(m, s, s.baseLat, s.baseLon, StepDegrees(s.speed, dt));
      forall n: nat
        ensures !OnPad(Flown(m, s, Ticks(n, dt)), s.baseLat, s.baseLon)
      {
        StalledForever(m, s, dt, n);
      }
    }
  }

  lemma DistanceIs(m: Math, s: Sim)
    ensures Distance(m, s) == Meters(m, s.baseLat - s.lat, s.baseLon - s.lon)
  {}

  /** Moving the pad of a vehicle in its final descent by more than 10 m strands it: its speed is 0, so it
      hangs where it is and never lands. */
  lemma RebasedDescentHangs(m: Math, s: Sim, lat: real, lon: real, dt: real, n: nat)
    requires m.Sound() && s.state == "RTB" && s.speed == 0.0 && OnSixDecimals(s) && dt >= 0.0
    requires Distance(m, Rebased(s, lat, lon)) > 10.0
    ensures SamePlaceAndPad(Rebased(s, lat, lon), Flown(m, Rebased(s, lat, lon), Ticks(n, dt)))
  {
    var t := Rebased(s, lat, lon);
    SameDecimals(s, t);
    DistanceIs(m, t);
    FarInDegrees(m, t.baseLat - t.lat, t.baseLon - t.lon);
    NoSpeedNoStep(dt);
    ShortLosesBoth(m, t, t.baseLat, t.baseLon, StepDegrees(t.speed, dt));
    hide Distance, OnSixDecimals, Math.Sound, Flown, LosesBoth;
    StalledForever(m, t, dt, n);
  }

  lemma NoSpeedNoStep(dt: real)
    ensures StepDegrees(0.0, dt) == 0.0
  {}

  // ---------------------------------------------------------------- on the way to the circle

  /** The transit step towards the circle that goes nowhere. */
  predicate StallsOutward(m: Math, s: Sim, dt: real) {
    var f, angle := s.frame, EntryAngle(m, s);
    LosesBoth(m, s, OrbitLat(m, f, angle), OrbitLon(m, f, angle), StepDegrees(Accelerated(s, dt), dt))
  }

  /** A vehicle in transit to its circle stays where it is exactly if the step is shorter than the way and
      both of its parts round away. */
  lemma OutwardStallsExactly(m: Math, s: Sim, dt: real)
    requires m.Sound() && Patrolling(s) && InTransit(m, s, dt) && OnSixDecimals(s)
    ensures
      var v := Stepped(m, s, dt).0;
      v.lat == s.lat && v.lon == s.lon <==> StallsOutward(m, s, dt)
  {
    hide *;
    var f, angle := s.frame, EntryAngle(m, s);
    var toLat, toLon := OrbitLat(m, f, angle), OrbitLon(m, f, angle);
    OutwardMoves(m, s, dt);
    StallsOutwardIs(m, s, dt);
    OnSixDecimalsIs(s);
    FarFromEntry(m, s, dt);
    MetersFacts(m, toLat - s.lat, toLon - s.lon);
    FarInDegrees(m, toLat - s.lat, toLon - s.lon);
    var stepDeg, bearing := StepDegrees(Accelerated(s, dt), dt), m.atan2(toLon - s.lon, toLat - s.lat);
    AdvanceStaysExactly(s.lat, stepDeg, m.cos(bearing));
    AdvanceStaysExactly(s.lon, stepDeg, m.sin(bearing));
    HalfStepIsPositive();
    WayMeansElsewhere(m, s.lat, s.lon, toLat, toLon);
  }

  lemma HalfStepIsPositive()
    ensures HALF_STEP > 0.0
  {}

  lemma OnSixDecimalsIs(s: Sim)
    ensures OnSixDecimals(s) <==> OnGrid(s.lat, 6) && OnGrid(s.lon, 6)
  {}

  lemma StallsOutwardIs(m: Math, s: Sim, dt: real)
    ensures
      var f, angle := s.frame, EntryAngle(m, s);
      var toLat, toLon := OrbitLat(m, f, angle), OrbitLon(m, f, angle);
      var stepDeg, bearing := StepDegrees(Accelerated(s, dt), dt), m.atan2(toLon - s.lon, toLat - s.lat);
      StallsOutward(m, s, dt) <==>
        && stepDeg < m.Norm(toLat - s.lat, toLon - s.lon)
        && RoundsAway(s.lat, Times(stepDeg, m.cos(bearing)))
        && RoundsAway(s.lon, Times(stepDeg, m.sin(bearing)))
  {
    hide RoundsAway, Times, Math.Norm, StepDegrees, Accelerated, OrbitLat, OrbitLon, EntryAngle;
  }

  lemma OutwardMoves(m: Math, s: Sim, dt: real)
    requires Patrolling(s) && InTransit(m, s, dt)
    ensures
      var f, angle, v := s.frame, EntryAngle(m, s), Stepped(m, s, dt).0;
      var toLat, toLon := OrbitLat(m, f, angle), OrbitLon(m, f, angle);
      var stepDeg, bearing := StepDegrees(Accelerated(s, dt), dt), m.atan2(toLon - s.lon, toLat - s.lat);
      && v.frame == s.frame && v.state == s.state && v.cruiseSpeed == s.cruiseSpeed && v.speed == Accelerated(s, dt)
      && if stepDeg >= m.Norm(toLat - s.lat, toLon - s.lon) then v.lat == toLat && v.lon == toLon
         else v.lat == Advanced(s.lat, stepDeg, m.cos(bearing)) && v.lon == Advanced(s.lon, stepDeg, m.sin(bearing))
  {
    hide *;
    var t := s.(sequence := s.sequence + 1);
    var toLat, toLon := OrbitLat(m, t.frame, EntryAngle(m, t)), OrbitLon(m, t.frame, EntryAngle(m, t));
    TransitStepIs(m, s, dt);
    SequenceIsIrrelevant(m, s, dt);
    SameEntryAngle(m, s, t);
    TransitKeeps(m, t, dt, toLat, toLon);
    TransitMoves(m, t, dt, toLat, toLon);
  }

  lemma SameEntryAngle(m: Math, s: Sim, t: Sim)
    requires t.lat == s.lat && t.lon == s.lon && t.frame == s.frame
    ensures EntryAngle(m, t) == EntryAngle(m, s)
  {}

  /** No acceleration passes the cruise speed, if that has two decimals. */
  lemma AcceleratesUpTo(s: Sim, dt: real)
    requires dt >= 0.0 && OnGrid(CruiseTarget(s), 2) && s.speed <= CruiseTarget(s)
    ensures Accelerated(s, dt) <= CruiseTarget(s)
  {
    hide RoundTo, OnGrid;
    var w := CruiseTarget(s);
    RoundToFixedExactly(w, 2);
    RoundToMonotone(Min(w, s.speed + 4.0 * dt), w, 2);
  }

  /** In transit at a place, with the speed still in bounds. */
  ghost predicate Held(m: Math, s: Sim, v: Sim, dt: real) {
    && Patrolling(v) && v.frame == s.frame && v.lat == s.lat && v.lon == s.lon
    && v.cruiseSpeed == s.cruiseSpeed && 0.0 <= v.speed <= CruiseTarget(s) && InTransit(m, v, dt)
  }

  lemma InTransitAgain(m: Math, s: Sim, v: Sim, dt: real)
    requires InTransit(m, s, dt) && v.frame == s.frame && v.lat == s.lat && v.lon == s.lon && v.speed * dt <= 8.0
    ensures InTransit(m, v, dt)
  {
    FarFromEntry(m, s, dt);
    SameEntryAngle(m, s, v);
    hide Meters, OrbitLat, OrbitLon, EntryAngle;
  }

  lemma ShortStaysHeld(m: Math, s: Sim, v: Sim, dt: real)
    requires m.Sound() && dt >= 0.0 && OnSixDecimals(s) && OnGrid(CruiseTarget(s), 2)
    requires StepDegrees(CruiseTarget(s), dt) < HALF_STEP && Held(m, s, v, dt)
    ensures Held(m, s, Stepped(m, v, dt).0, dt)
  {
    hide OnSixDecimals, OnGrid, InTransit, OrbitLat, OrbitLon, EntryAngle, Math.Sound, Math.Norm, Stepped,
      Accelerated, Meters, StallsOutward, LosesBoth, StepDegrees;
    var toLat, toLon := OrbitLat(m, v.frame, EntryAngle(m, v)), OrbitLon(m, v.frame, EntryAngle(m, v));
    AccelerationIsForward(v, dt);
    AcceleratesUpTo(v, dt);
    SlowerIsShorter(Accelerated(v, dt), CruiseTarget(s), dt);
    FarFromEntry(m, v, dt);
    FarInDegrees(m, toLat - v.lat, toLon - v.lon);
    ShortLosesBoth(m, v, toLat, toLon, StepDegrees(Accelerated(v, dt), dt));
    LosesBothStalls(m, v, dt);
    SameDecimals(s, v);
    OutwardStallsExactly(m, v, dt);
    OutwardMoves(m, v, dt);
    InTransitAgain(m, v, Stepped(m, v, dt).0, dt);
  }

  lemma LosesBothStalls(m: Math, s: Sim, dt: real)
    ensures
      var f, angle := s.frame, EntryAngle(m, s);
      StallsOutward(m, s, dt)
      == LosesBoth(m, s, OrbitLat(m, f, angle), OrbitLon(m, f, angle), StepDegrees(Accelerated(s, dt), dt))
  {
    hide LosesBoth;
  }

  lemma SameDecimals(s: Sim, v: Sim)
    requires v.lat == s.lat && v.lon == s.lon
    ensures OnSixDecimals(v) == OnSixDecimals(s)
  {
    hide OnGrid;
  }

  lemma SlowerIsShorter(speed: real, most: real, dt: real)
    requires 0.0 <= speed <= most && dt >= 0.0 && StepDegrees(most, dt) < HALF_STEP
    ensures 0.0 <= StepDegrees(speed, dt) < HALF_STEP && speed * dt <= 8.0
  {
    MulMonotone(speed, most, dt);
    StepDegreesPositive(speed, dt);
    ShortSteps(most, dt);
    ShortSteps(speed, dt);
  }

  lemma {:induction false} HeldForever(m: Math, s: Sim, dt: real, n: nat)
    requires m.Sound() && dt >= 0.0 && OnSixDecimals(s) && OnGrid(CruiseTarget(s), 2)
    requires StepDegrees(CruiseTarget(s), dt) < HALF_STEP && Held(m, s, s, dt)
    ensures Held(m, s, Flown(m, s, Ticks(n, dt)), dt)
  {
    hide Held, Stepped, OnSixDecimals, OnGrid, Math.Sound, StepDegrees;
    if n > 0 {
      HeldForever(m, s, dt, n - 1);
      TicksFront(n, dt);
      ShortStaysHeld(m, s, Flown(m, s, Ticks(n - 1, dt)), dt);
    }
  }

  lemma HeldIsOff(m: Math, s: Sim, v: Sim, dt: real)
    requires m.Sound() && m.Circular() && s.frame.orbitRadius >= 0.0 && Held(m, s, v, dt)
    ensures !OnCircle(m, v)
  {
    hide InTransit, OnCircle, Math.Sound, Math.Circular;
    if OnCircle(m, v) {
      CircleNeedsNoTransit(m, v, dt);
    }
  }

  /** In transit at a cruise speed of two decimals or less, a vehicle in steps of one length reaches its
      circle sooner or later exactly if the cruise speed outdoes the rounding in a step of that length;
      between half the sixth decimal and 0.082 m a step `OutwardStallsExactly` decides step by step. */
  lemma RejoinsExactly(m: Math, s: Sim, dt: real)
    requires m.Sound() && m.Circular() && s.frame.orbitRadius >= 0.0 && Patrolling(s) && InTransit(m, s, dt)
    requires 0.0 <= s.speed <= CruiseTarget(s) && OnGrid(CruiseTarget(s), 2) && OnSixDecimals(s)
    requires dt >= 0.0 && Pickup(dt) > 0.0
    requires StepDegrees(CruiseTarget(s), dt) < HALF_STEP || Closing(CruiseTarget(s), dt) > 0.0
    ensures (exists n :: OnCircle(m, Flown(m, s, Ticks(n, dt)))) <==> Closing(CruiseTarget(s), dt) > 0.0
  {
    hide *;
    if Closing(CruiseTarget(s), dt) > 0.0 {
      var _ := FastRejoins(m, s, dt);
    } else {
      HeldAtStart(m, s, dt);
      forall n: nat
        ensures !OnCircle(m, Flown(m, s, Ticks(n, dt)))
      {
        HeldForever(m, s, dt, n);
        HeldIsOff(m, s, Flown(m, s, Ticks(n, dt)), dt);
      }
    }
  }

  lemma HeldAtStart(m: Math, s: Sim, dt: real)
    requires Patrolling(s) && 0.0 <= s.speed <= CruiseTarget(s) && InTransit(m, s, dt)
    ensures Held(m, s, s, dt)
  {
    hide InTransit;
  }

  lemma FastRejoins(m: Math, s: Sim, dt: real) returns (n: nat)
    requires m.Sound() && m.Circular() && s.frame.orbitRadius >= 0.0 && Patrolling(s) && s.speed >= 0.0
    requires CruiseTarget(s) >= 0.0 && OnGrid(CruiseTarget(s), 2) && dt >= 0.0
    requires Pickup(dt) > 0.0 && Closing(CruiseTarget(s), dt) > 0.0
    ensures OnCircle(m, Flown(m, s, Ticks(n, dt)))
  {
    hide Flown, OnCircle, OnGrid, Math.Sound, Math.Circular, Ticks, Closing, Pickup, CruiseTarget;
    n := RejoinBound(m, s, dt, CruiseTarget(s));
    PatrolsRejoin(m, s, Ticks(n, dt), dt, CruiseTarget(s));
  }
}
