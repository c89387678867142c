/** What every flight of the simulator in Vehicle keeps, and how a recall ends. */
module Flight {
  import opened Rounding
  import opened Vehicle

  // ---------------------------------------------------------------- invariants of every flight

  datatype Act = Tick(dt: real) | Order(target: string, commandType: string)

  function After(m: Math, s: Sim, a: Act): Sim {
    match a
    case Tick(dt) => Stepped(m, s, dt).0
    case Order(target, commandType) => Commanded(s, target, commandType)
  }

  function Flown(m: Math, s: Sim, acts: seq<Act>): Sim {
    if acts == [] then s else After(m, Flown(m, s, acts[..|acts| - 1]), acts[|acts| - 1])
  }

  lemma {:induction false} FlownOn(m: Math, s: Sim, acts: seq<Act>, more: seq<Act>)
    ensures Flown(m, s, acts + more) == Flown(m, Flown(m, s, acts), more)
    decreases more
  {
    hide After;
    if more == [] {
      assert acts + more == acts;
    } else {
      var front := more[..|more| - 1];
      FlownOn(m, s, acts, front);
      assert (acts + more)[..|acts + more| - 1] == acts + front;
    }
  }

  lemma FlownFirst(m: Math, s: Sim, acts: seq<Act>)
    requires acts != []
    ensures Flown(m, s, acts) == Flown(m, After(m, s, acts[0]), acts[1..])
  {
    hide After;
    assert acts == [acts[0]] + acts[1..];
    FlownOn(m, s, [acts[0]], acts[1..]);
    assert [acts[0]][..0] == [];
  }

  predicate KnownState(state: string) {
    state == "AIRBORNE" || state == "PATROL" || state == "HOVER" || state == "RTB" || state == "LANDED"
  }

  function Ceiling(s: Sim): real {
    Max(s.frame.cruiseAlt, 100.0) + 0.05
  }

  predicate Airworthy(m: Math, s: Sim) {
    && KnownState(s.state)
    && s.frame.cruiseAlt > 0.0
    && (s.state == "LANDED" ==> s.alt == 0.0 && s.speed == 0.0)
    && OnGrid(s.battery, 1) && 5.0 <= s.battery <= 98.5
    && 0.0 <= s.alt <= Ceiling(s)
    && (s.state == "RTB" ==> s.speed == 14.5 || Distance(m, s) <= 10.0)
  }

  lemma TenthOf(n: int)
    ensures OnGrid(n as real / 10.0, 1)
  {
    assert Scaled(n as real / 10.0, 1) == n as real by {
      assert Pow10(1) == 10.0 * Pow10(0);
    }
    IntegersFloor(n);
  }

  lemma DrainFacts(battery: real, rate: real, dt: real)
    requires OnGrid(battery, 1) && battery >= 5.0 && rate >= 0.0 && dt >= 0.0
    ensures OnGrid(Drain(battery, rate, dt), 1) && 5.0 <= Drain(battery, rate, dt) <= battery
  {
    hide RoundTo, OnGrid;
    var x := Max(5.0, battery - rate * dt);
    MulMonotoneZero(rate, dt);
    RoundToOnGrid(x, 1);
    IntegerOnGrid(5, 1);
    RoundToFixedExactly(5.0, 1);
    RoundToFixedExactly(battery, 1);
    RoundToMonotone(5.0, x, 1);
    RoundToMonotone(x, battery, 1);
  }

  lemma MulMonotoneZero(a: real, b: real)
    requires a >= 0.0 && b >= 0.0
    ensures a * b >= 0.0
  {}

  lemma ClimbFacts(s: Sim, dt: real)
    requires s.frame.cruiseAlt > 0.0 && 0.0 <= s.alt <= Ceiling(s) && dt >= 0.0
    ensures 0.0 <= Climbed(s, dt) <= Ceiling(s)
  {
    hide RoundTo, HalfUnit;
    if s.alt < s.frame.cruiseAlt {
      var x := Min(s.frame.cruiseAlt, s.alt + 10.0 * dt);
      IntegerOnGrid(0, 1);
      RoundToFixedExactly(0.0, 1);
      RoundToMonotone(0.0, x, 1);
      RoundToMonotone(x, s.frame.cruiseAlt, 1);
      RoundToIsNearest(s.frame.cruiseAlt, 1);
      HalfTenth();
    }
  }

  lemma HalfTenth()
    ensures HalfUnit(1) == 0.05
  {
    assert Pow10(1) == 10.0 * Pow10(0);
  }

  lemma LoweredFacts(alt: real, floor: real, rate: real, dt: real)
    requires rate >= 0.0 && dt >= 0.0 && floor <= alt
    ensures floor <= Lowered(alt, floor, rate, dt) <= alt
  {
    MulMonotoneZero(rate, dt);
  }

  lemma PatrolKeepsAirworthy(m: Math, s: Sim, dt: real)
    requires Airworthy(m, s) && dt >= 0.0 && (s.state == "AIRBORNE" || s.state == "PATROL")
    ensures Airworthy(m, Patrolled(m, s, dt).0) && Patrolled(m, s, dt).0.battery <= s.battery
  {
    hide RoundTo, OnGrid, Drain, Climbed, Meters, Math.Norm, Displaced, Advanced, StepDegrees, Along, Heading,
      Accelerated, OrbitLat, OrbitLon, Turned, OrbitSpeed, Bobbing, Tangent, EntryAngle;
    DrainFacts(s.battery, 0.04, dt);
    ClimbFacts(s, dt);
  }

  lemma ReturnKeepsAirworthy(m: Math, s: Sim, dt: real)
    requires Airworthy(m, s) && dt >= 0.0 && s.state == "RTB"
    ensures Airworthy(m, Returned(m, s, dt).0) && Returned(m, s, dt).0.battery <= s.battery
  {
    hide RoundTo, OnGrid, Drain, Lowered, Meters, Math.Norm, Advanced, StepDegrees, Along, Heading;
    DrainFacts(s.battery, 0.03, dt);
    if s.alt > 15.0 {
      LoweredFacts(s.alt, 15.0, 6.0, dt);
    }
    LoweredFacts(s.alt, 0.0, 10.0, dt);
  }

  lemma StepKeepsAirworthy(m: Math, s: Sim, dt: real)
    requires Airworthy(m, s) && dt >= 0.0
    ensures Airworthy(m, Stepped(m, s, dt).0) && Stepped(m, s, dt).0.battery <= s.battery
  {
    hide Drain, OnGrid, Meters, Patrolled, Returned;
    var t := s.(sequence := s.sequence + 1);
    if s.state == "AIRBORNE" || s.state == "PATROL" {
      PatrolKeepsAirworthy(m, t, dt);
    } else if s.state == "HOVER" {
      DrainFacts(s.battery, 0.02, dt);
    } else if s.state == "RTB" {
      ReturnKeepsAirworthy(m, t, dt);
    }
  }

  lemma CommandKeepsAirworthy(m: Math, s: Sim, target: string, commandType: string)
    requires Airworthy(m, s)
    ensures Airworthy(m, Commanded(s, target, commandType))
    ensures Commanded(s, target, commandType).battery == s.battery
  {
    hide OnGrid, Meters, Addressed;
  }

  /** Moving the pad keeps all of this exactly if the vehicle is not stopped in its final descent, or the
      new pad is within 10 m as well. */
  lemma RebaseKeepsAirworthyExactly(m: Math, s: Sim, lat: real, lon: real)
    requires Airworthy(m, s)
    ensures Airworthy(m, Rebased(s, lat, lon)) <==>
      (s.state == "RTB" && s.speed != 14.5 ==> Distance(m, Rebased(s, lat, lon)) <= 10.0)
  {
    hide OnGrid, Meters;
  }

  /** After any interleaving of commands and steps: the state is one of the five that `Step` handles,
      a landed vehicle is on the ground and still, the battery lies on its grid in [5, 98.5] and has
      not risen, the altitude keeps its ceiling, and a recalled vehicle flies at 14.5 m/s until it is
      within 10 m of its pad. */
  lemma {:induction false} FlightsStayAirworthy(m: Math, s: Sim, acts: seq<Act>)
    requires Airworthy(m, s)
    requires forall a :: a in acts && a.Tick? ==> a.dt >= 0.0
    ensures Airworthy(m, Flown(m, s, acts)) && Flown(m, s, acts).battery <= s.battery
  {
    hide Airworthy, Stepped, Commanded;
    if acts != [] {
      var front, last := acts[..|acts| - 1], acts[|acts| - 1];
      assert last in acts;
      FlightsStayAirworthy(m, s, front);
      match last
      case Tick(dt) => StepKeepsAirworthy(m, Flown(m, s, front), dt);
      case Order(target, commandType) => CommandKeepsAirworthy(m, Flown(m, s, front), target, commandType);
    }
  }

  lemma LaunchIsAirworthy(m: Math, id: string, vehicleType: string, team: string, lat: real, lon: real,
                          alt: real, radius: real, speed: real)
    ensures
      var s := Launched(m, id, vehicleType, team, lat, lon, alt, radius, speed);
      && Airworthy(m, s)
      && s.frame == Airframe(id, vehicleType, team, lat, lon, if alt <= 0.0 then 120.0 else alt,
                             if radius <= 0.0 then 0.008 else radius)
      && s.baseLat == lat && s.baseLon == lon && s.battery == 98.5 && s.sequence == 0 && !s.ewActive
  {
    hide OrbitLat, OrbitLon, OnGrid, Meters;
    TenthOf(985);
  }

  // ---------------------------------------------------------------- the battery that does not drain

  /** A step leaves the battery reading unchanged exactly when it is already at 5 percent or the step
      drains at most half the last decimal. At one step a second no state but the reserve ever drains. */
  lemma BatteryFrozenExactly(battery: real, rate: real, dt: real)
    requires OnGrid(battery, 1) && battery >= 5.0 && rate >= 0.0 && dt >= 0.0
    ensures Drain(battery, rate, dt) == battery <==> battery == 5.0 || rate * dt <= 0.05
  {
    var used := rate * dt;
    MulMonotoneZero(rate, dt);
    var x := Max(5.0, battery - used);
    var n := Scaled(battery, 1).Floor;
    TenfoldScale(battery);
    TenfoldScale(x);
    TenfoldScale(RoundTo(x, 1));
    ScaledRoundTo(x, 1);
    hide RoundTo, OnGrid, Scaled;
    assert Drain(battery, rate, dt) == RoundTo(x, 1);
    assert 10.0 * battery == n as real;
    RoundOrigin(10.0 * x, n);
    if battery != 5.0 && used > 0.05 {
      assert 10.0 * x < n as real - 0.5 || x == 5.0;
    }
  }

  lemma TenfoldScale(v: real)
    ensures Scaled(v, 1) == 10.0 * v
  {
    assert Pow10(1) == 10.0 * Pow10(0);
  }

  lemma RoundOrigin(x: real, n: int)
    requires x >= 0.0
    ensures Round(x) == n <==> n as real - 0.5 <= x < n as real + 0.5
  {}

  // ---------------------------------------------------------------- the way home

  lemma StepDegreesPositive(speed: real, dt: real)
    requires speed >= 0.0 && dt >= 0.0
    ensures StepDegrees(speed, dt) >= 0.0 && speed * dt >= 0.0
  {}

  lemma CountIsNonNegative(n: nat, x: real)
    requires x >= 0.0
    ensures Times(n as real, x) >= 0.0
  {}

  lemma MulMonotone(a: real, b: real, c: real)
    requires a <= b && c >= 0.0
    ensures a * c <= b * c
  {}

  lemma SquareOfSum(a: real, d: real)
    requires 0.0 <= a && d > 0.0
    ensures a * a < (a + d) * (a + d)
  {
    assert (a + d) * (a + d) == a * a + 2.0 * (a * d) + d * d;
    SquarePositive(d);
  }

  lemma SquareStrict(a: real, b: real)
    requires 0.0 <= a < b
    ensures a * a < b * b
  {
    SquareOfSum(a, b - a);
    assert a + (b - a) == b;
  }

  lemma SquarePositive(a: real)
    requires a > 0.0
    ensures a * a > 0.0
  {}

  lemma SquareMonotone(a: real, b: real)
    requires 0.0 <= b && a * a <= b * b
    ensures a <= b
  {
    if a > b {
      SquareStrict(b, a);
    }
  }

  lemma SquareNonNegative(a: real)
    ensures a * a >= 0.0
  {}

  /** Cauchy-Schwarz in the plane. */
  lemma DotBound(a: real, b: real, c: real, d: real, r: real, e: real)
    requires r >= 0.0 && e >= 0.0 && a * a + b * b == r * r && c * c + d * d <= e * e
    ensures a * c + b * d <= r * e
  {
    var dot, cross := a * c + b * d, a * d - b * c;
    SquareNonNegative(cross);
    assert (a * a + b * b) * (c * c + d * d) == dot * dot + cross * cross;
    SquareNonNegative(r);
    assert r * r * (c * c + d * d) <= r * r * (e * e);
    assert r * r * (e * e) == (r * e) * (r * e);
    assert dot * dot <= (r * e) * (r * e);
    SquareMonotone(dot, r * e);
  }

  /** Moving one end of a segment by at most e changes its length by at most e. */
  lemma LengthShift(a: real, b: real, ex: real, ey: real, r: real, e: real, n: real)
    requires r >= 0.0 && e >= 0.0 && n >= 0.0
    requires a * a + b * b == r * r && ex * ex + ey * ey <= e * e
    requires n * n == (a + ex) * (a + ex) + (b + ey) * (b + ey)
    ensures n <= r + e
  {
    DotBound(a, b, ex, ey, r, e);
    assert (a + ex) * (a + ex) == a * a + 2.0 * (a * ex) + ex * ex;
    assert (b + ey) * (b + ey) == b * b + 2.0 * (b * ey) + ey * ey;
    assert (r + e) * (r + e) == r * r + 2.0 * (r * e) + e * e;
    SquareMonotone(n, r + e);
  }

  lemma NormSquared(m: Math, y: real, x: real)
    requires m.Sound()
    ensures m.Norm(y, x) >= 0.0 && Sq(m.Norm(y, x)) == Sq(y) + Sq(x)
  {
    SquareNonNegative(x);
    SquareNonNegative(y);
    var q := y * y + x * x;
    assert m.sqrt(q) * m.sqrt(q) == q;
  }

  /** The bearing towards a point at distance d is a unit vector along the way there. */
  lemma UnitBearing(m: Math, y: real, x: real)
    requires m.Sound() && m.Norm(y, x) > 0.0
    ensures
      var c, s, d := m.cos(m.atan2(y, x)), m.sin(m.atan2(y, x)), m.Norm(y, x);
      && Times(d, c) == x && Times(d, s) == y && Sq(c) + Sq(s) == 1.0
  {
    var c, s, d := m.cos(m.atan2(y, x)), m.sin(m.atan2(y, x)), m.Norm(y, x);
    NormSquared(m, y, x);
    hide Math.Norm;
    UnitOf(c, s, d, x, y);
  }

  lemma UnitOf(c: real, s: real, d: real, x: real, y: real)
    requires d > 0.0 && Times(d, c) == x && Times(d, s) == y && Sq(d) == Sq(y) + Sq(x)
    ensures Sq(c) + Sq(s) == 1.0
  {
    assert x * c + y * s == d * (c * c + s * s);
    assert d * (x * c + y * s) == d * d;
    Cancel(x * c + y * s, d, d);
    Cancel(c * c + s * s, 1.0, d);
  }

  // Half of the sixth decimal in both coordinates: at most this many degrees, and 0.08 m.
  const ROUNDING_DEG: real := 0.0000007072

  lemma RoundingError(v: real, e: real)
    requires e == v - RoundTo(v, 6)
    ensures e * e <= 0.00000000000025
  {
    hide RoundTo, HalfUnit;
    RoundToIsNearest(v, 6);
    HalfMillionth();
    var h := 0.0000005;
    assert -h <= e <= h;
    if e >= 0.0 {
      MulMonotone(e, h, e);
      MulMonotone(e, h, h);
    } else {
      var f := -e;
      MulMonotone(f, h, f);
      MulMonotone(f, h, h);
      assert f * f == e * e;
    }
  }

  lemma HalfMillionth()
    ensures HalfUnit(6) == 0.0000005
  {
    assert Pow10(6) == 10.0 * Pow10(5) && Pow10(5) == 10.0 * Pow10(4) && Pow10(4) == 10.0 * Pow10(3);
    assert Pow10(3) == 10.0 * Pow10(2) && Pow10(2) == 10.0 * Pow10(1) && Pow10(1) == 10.0 * Pow10(0);
  }

  // Products and squares by name, so that lemmas can pass them on without multiplying again.
  function Times(a: real, b: real): real { a * b }

  function Sq(a: real): real { a * a }

  /** Where one coordinate stands after a rounded advance towards its target at distance d. */
  lemma AdvancedOffset(v: real, target: real, stepDeg: real, d: real, direction: real) returns (e: real)
    requires Times(d, direction) == target - v
    ensures target - Advanced(v, stepDeg, direction) == Times(d - stepDeg, direction) + e
    ensures Sq(e) <= 0.00000000000025
  {
    hide RoundTo;
    var exact := v + stepDeg * direction;
    e := exact - RoundTo(exact, 6);
    RoundingError(exact, e);
    assert (d - stepDeg) * direction == d * direction - stepDeg * direction;
  }

  lemma ScaledVector(c: real, s: real, k: real)
    requires c * c + s * s == 1.0
    ensures (k * c) * (k * c) + (k * s) * (k * s) == k * k
  {
    assert (k * c) * (k * c) == k * k * (c * c);
    assert (k * s) * (k * s) == k * k * (s * s);
  }

  /** A rounded advance by stepDeg towards a point at distance d leaves at most d - stepDeg and the
      rounding error. */
  lemma AdvanceShortens(m: Math, lat: real, lon: real, baseLat: real, baseLon: real, stepDeg: real)
    requires m.Sound()
    requires 0.0 <= stepDeg < m.Norm(baseLat - lat, baseLon - lon)
    ensures
      var bearing := m.atan2(baseLon - lon, baseLat - lat);
      m.Norm(baseLat - Advanced(lat, stepDeg, m.cos(bearing)), baseLon - Advanced(lon, stepDeg, m.sin(bearing)))
        <= m.Norm(baseLat - lat, baseLon - lon) - stepDeg + ROUNDING_DEG
  {
    hide *;
    var dLat, dLon := baseLat - lat, baseLon - lon;
    var d := m.Norm(dLat, dLon);
    NormIsSymmetric(m, dLat, dLon);
    UnitBearing(m, dLon, dLat);
    var c, s := m.cos(m.atan2(dLon, dLat)), m.sin(m.atan2(dLon, dLat));
    var newLat, newLon := baseLat - Advanced(lat, stepDeg, c), baseLon - Advanced(lon, stepDeg, s);
    NormSquared(m, newLat, newLon);
    var ex := AdvancedOffset(lat, baseLat, stepDeg, d, c);
    var ey := AdvancedOffset(lon, baseLon, stepDeg, d, s);
    ShortenedLength(d - stepDeg, c, s, ex, ey, newLat, newLon, m.Norm(newLat, newLon));
  }

  lemma ShortenedLength(k: real, c: real, s: real, ex: real, ey: real, p: real, q: real, n: real)
    requires k >= 0.0 && n >= 0.0 && Sq(c) + Sq(s) == 1.0
    requires p == Times(k, c) + ex && q == Times(k, s) + ey && Sq(n) == Sq(p) + Sq(q)
    requires Sq(ex) <= 0.00000000000025 && Sq(ey) <= 0.00000000000025
    ensures n <= k + ROUNDING_DEG
  {
    ScaledVector(c, s, k);
    LengthShift(k * c, k * s, ex, ey, k, ROUNDING_DEG, n);
  }

  lemma NormIsSymmetric(m: Math, y: real, x: real)
    ensures m.Norm(y, x) == m.Norm(x, y)
  {}
}
