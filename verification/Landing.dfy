/** How a recall ends: if left alone, every returning vehicle of Vehicle reaches its pad, within a
  number of steps computed from its distance and altitude. */
module Landing {
  import opened Rounding
  import opened Vehicle
  import opened Flight

  predicate Homebound(m: Math, s: Sim) {
    s.state == "RTB" && (s.speed == 14.5 || Distance(m, s) <= 10.0)
  }

  predicate AtRest(s: Sim) {
    s.state == "LANDED" && s.alt == 0.0 && s.speed == 0.0
  }

  predicate OnPad(s: Sim, lat: real, lon: real) {
    AtRest(s) && s.lat == lat && s.lon == lon && s.baseLat == lat && s.baseLon == lon
  }

  /** Nothing but steps, none shorter than dt. */
  ghost predicate StepsOf(acts: seq<Act>, dt: real) {
    forall a :: a in acts ==> a.Tick? && a.dt >= dt
  }

  /** Metres gained by a transit step: what 14.5 m/s covers, less the rounding of the sixth decimal. */
  function Gain(dt: real): real {
    14.5 * dt - 0.08
  }

  /** Metres lost by a step of the final descent. */
  function Sink(dt: real): real {
    10.0 * dt
  }

  // ---------------------------------------------------------------- one step

  lemma ScaleToMeters(d: real, after: real, dt: real)
    requires after <= d - StepDegrees(14.5, dt) + ROUNDING_DEG
    ensures after * METERS_PER_DEGREE <= d * METERS_PER_DEGREE - Gain(dt)
  {
    assert StepDegrees(14.5, dt) * METERS_PER_DEGREE == 14.5 * dt;
  }

  lemma OriginIsNear(m: Math)
    requires m.Sound()
    ensures m.Norm(0.0, 0.0) == 0.0
  {
    NormSquared(m, 0.0, 0.0);
    hide *;
    var n := m.Norm(0.0, 0.0);
    SquareOfZero(n);
  }

  lemma SquareOfZero(n: real)
    requires n >= 0.0 && Sq(n) == Sq(0.0) + Sq(0.0)
    ensures n == 0.0
  {
    SquareMonotone(n, 0.0);
  }

  lemma MetersFacts(m: Math, dLat: real, dLon: real)
    requires m.Sound()
    ensures Meters(m, dLat, dLon) >= 0.0
    ensures Meters(m, dLat, dLon) > 10.0 ==> m.Norm(dLat, dLon) > 0.0
  {
    NormSquared(m, dLat, dLon);
    hide Math.Norm;
  }

  /** A transit step comes nearer by at least 14.5 dt - 0.08 metres, or arrives. */
  lemma TransitShortens(m: Math, s: Sim, dt: real)
    requires m.Sound() && dt >= 0.0 && s.speed == 14.5 && Distance(m, s) > 10.0
    ensures
      var v := Homeward(m, s, dt).0;
      && v == s.(heading := v.heading, lat := v.lat, lon := v.lon, alt := v.alt)
      && v.alt <= s.alt
      && Distance(m, v) <= Max(0.0, Distance(m, s) - Gain(dt))
  {
    hide RoundTo, Math.Sound, Math.Norm, Heading, Advanced, StepDegrees, Lowered, Along, Gain;
    MetersFacts(m, s.baseLat - s.lat, s.baseLon - s.lon);
    OriginIsNear(m);
    if s.alt > 15.0 {
      LoweredFacts(s.alt, 15.0, 6.0, dt);
    }
    var stepDeg := StepDegrees(14.5, dt);
    if stepDeg < DistDeg(m, s) {
      StepDegreesPositive(14.5, dt);
      AdvanceShortens(m, s.lat, s.lon, s.baseLat, s.baseLon, stepDeg);
      var v := Homeward(m, s, dt).0;
      ScaleToMeters(DistDeg(m, s), DistDeg(m, v), dt);
    }
  }

  lemma TransitStep(m: Math, s: Sim, dt: real)
    requires m.Sound() && dt >= 0.0 && s.state == "RTB" && s.speed == 14.5 && Distance(m, s) > 10.0
    ensures
      var v := Stepped(m, s, dt).0;
      && v.state == "RTB" && v.speed == 14.5 && v.alt <= s.alt
      && v.baseLat == s.baseLat && v.baseLon == s.baseLon
      && Distance(m, v) <= Max(0.0, Distance(m, s) - Gain(dt))
  {
    hide Drain, Homeward, TouchingDown, Meters, Math.Sound, Gain, Patrolled, Hovered;
    var t := s.(sequence := s.sequence + 1, battery := Drain(s.battery, 0.03, dt));
    TransitShortens(m, t, dt);
  }

  /** Within 10 m of the pad a step loses 10 dt metres of altitude, and lands on the pad once that
      leaves 5 m or less. */
  lemma DescentStep(m: Math, s: Sim, dt: real)
    requires s.state == "RTB" && Distance(m, s) <= 10.0
    ensures
      var v := Stepped(m, s, dt).0;
      if s.alt <= 5.0 + Sink(dt) then OnPad(v, s.baseLat, s.baseLon)
      else
        && v.state == "RTB" && v.alt == s.alt - Sink(dt) && Distance(m, v) == Distance(m, s)
        && v.baseLat == s.baseLat && v.baseLon == s.baseLon
  {
    hide Drain, Meters, RoundTo, Patrolled, Hovered, Homeward;
  }

  // ---------------------------------------------------------------- the whole way

  lemma Peel(n: nat, x: real)
    requires n > 0
    ensures Times(n as real, x) == Times((n - 1) as real, x) + x
    ensures n == 1 ==> Times(n as real, x) == x
  {}

  lemma NoneOf(x: real)
    ensures Times(0.0, x) == 0.0
  {}

  /** A vehicle that rests on its pad stays there, whatever the lengths of the steps. */
  lemma {:induction false} RestsForever(m: Math, s: Sim, acts: seq<Act>)
    requires AtRest(s) && forall a :: a in acts ==> a.Tick?
    ensures
      var v := Flown(m, s, acts);
      AtRest(v) && v.lat == s.lat && v.lon == s.lon && v.baseLat == s.baseLat && v.baseLon == s.baseLon
  {
    hide RoundTo, Patrolled, Hovered, Returned;
    if acts != [] {
      assert acts[|acts| - 1] in acts;
      RestsForever(m, s, acts[..|acts| - 1]);
    }
  }

  /** Left to fly: n transit steps cover what is more than 10 m of the distance, and k descent steps
      what is more than 5 m of the altitude. */
  ghost predicate Within(m: Math, s: Sim, dt: real, n: nat, k: nat) {
    && Homebound(m, s)
    && Distance(m, s) <= 10.0 + Times(n as real, Gain(dt))
    && s.alt <= 5.0 + Times(k as real, Sink(dt))
  }

  lemma DescentCounts(m: Math, s: Sim, step: real, dt: real, n: nat, k: nat)
    requires k > 0 && Within(m, s, dt, n, k) && step >= dt
    requires Distance(m, s) <= 10.0 && s.alt > 5.0 + Sink(step)
    ensures k > 1 && Within(m, Stepped(m, s, step).0, dt, n, k - 1)
  {
    hide Distance, Times, Stepped;
    DescentStep(m, s, step);
    Peel(k, Sink(dt));
  }

  lemma TransitCounts(m: Math, s: Sim, step: real, dt: real, n: nat, k: nat)
    requires m.Sound() && Gain(dt) > 0.0 && step >= dt && Within(m, s, dt, n, k) && Distance(m, s) > 10.0
    ensures n > 0 && Within(m, Stepped(m, s, step).0, dt, n - 1, k)
    ensures
      var v := Stepped(m, s, step).0;
      v.baseLat == s.baseLat && v.baseLon == s.baseLon
  {
    NoneOf(Gain(dt));
    if n > 0 {
      Peel(n, Gain(dt));
      CountIsNonNegative(n - 1, Gain(dt));
    }
    hide Distance, Times, Stepped, Math.Sound;
    TransitStep(m, s, step);
  }

  /** Steps of any lengths from dt on: a vehicle within n transit and k descent steps of that length is
      on its pad after n + k of them. */
  lemma {:induction false} Lands(m: Math, s: Sim, acts: seq<Act>, dt: real, n: nat, k: nat)
    requires m.Sound() && Gain(dt) > 0.0 && StepsOf(acts, dt) && k > 0
    requires Within(m, s, dt, n, k) && |acts| >= n + k
    ensures OnPad(Flown(m, s, acts), s.baseLat, s.baseLon)
    decreases n + k
  {
    hide Stepped, Distance, Math.Sound, Within, Gain, Flown;
    var step, rest := acts[0].dt, acts[1..];
    assert acts[0] in acts && forall a :: a in rest ==> a in acts;
    FlownFirst(m, s, acts);
    var v := Stepped(m, s, step).0;
    if Distance(m, s) > 10.0 {
      TransitCounts(m, s, step, dt, n, k);
      Lands(m, v, rest, dt, n - 1, k);
    } else {
      WithinIsHomebound(m, s, dt, n, k);
      DescentStep(m, s, step);
      if s.alt <= 5.0 + Sink(step) {
        RestsForever(m, v, rest);
      } else {
        DescentCounts(m, s, step, dt, n, k);
        Lands(m, v, rest, dt, n, k - 1);
      }
    }
  }

  lemma WithinIsHomebound(m: Math, s: Sim, dt: real, n: nat, k: nat)
    requires Within(m, s, dt, n, k)
    ensures s.state == "RTB"
  {
    hide Distance, Times;
  }

  // ---------------------------------------------------------------- the bound

  /** The least natural number of units that covers a length. */
  function Units(length: real, unit: real): (n: nat)
    requires unit > 0.0
    ensures Times(n as real, unit) >= length
    ensures n > 0 ==> Times((n - 1) as real, unit) < length
  {
    var n := -((-(length / unit)).Floor);
    QuotientBounds(length, unit, n);
    if n <= 0 then
      NoneCovers(length, unit, n);
      0
    else n
  }

  lemma QuotientBounds(length: real, unit: real, n: int)
    requires unit > 0.0 && n == -((-(length / unit)).Floor)
    ensures Times((n - 1) as real, unit) < length <= Times(n as real, unit)
  {
    hide Times;
    var q := length / unit;
    CeilingBounds(q, n);
    DivideBack(length, unit);
    TimesGrowsWith(q, n as real, unit);
    TimesGrowsWith((n - 1) as real, q, unit);
  }

  lemma CeilingBounds(q: real, n: int)
    requires n == -((-q).Floor)
    ensures (n - 1) as real < q <= n as real
  {}

  lemma TimesGrowsWith(a: real, b: real, c: real)
    requires a <= b && c > 0.0
    ensures Times(a, c) <= Times(b, c)
    ensures a < b ==> Times(a, c) < Times(b, c)
  {
    TimesDiffer(a, b, c);
    if a < b {
      TimesPositive(b - a, c);
    }
    hide Times;
  }

  lemma TimesDiffer(a: real, b: real, c: real)
    ensures Times(b, c) - Times(a, c) == Times(b - a, c)
  {}

  lemma TimesPositive(a: real, c: real)
    requires a > 0.0 && c > 0.0
    ensures Times(a, c) > 0.0
  {}

  lemma NoneCovers(length: real, unit: real, n: int)
    requires unit > 0.0 && n <= 0 && length <= Times(n as real, unit)
    ensures length <= Times(0.0, unit)
  {
    hide Times;
    TimesGrowsWith(n as real, 0.0, unit);
  }

  lemma DivideBack(length: real, unit: real)
    requires unit > 0.0
    ensures Times(length / unit, unit) == length
  {}

  /** Steps that suffice from a distance and an altitude: transit steps down to 10 m, then descent
      steps down to 5 m, and at least one of them. */
  function StepBound(distance: real, alt: real, dt: real): nat
    requires Gain(dt) > 0.0
  {
    Units(distance - 10.0, Gain(dt)) + Units(alt - 5.0, Sink(dt)) + 1
  }

  /** Every returning vehicle is on its pad, landed and still, after `StepBound` steps, of which each
      is at least long enough to outdo the rounding, and after every later step. */
  lemma ReturnsLand(m: Math, s: Sim, acts: seq<Act>, dt: real)
    requires m.Sound() && Gain(dt) > 0.0 && StepsOf(acts, dt) && Homebound(m, s)
    requires |acts| >= StepBound(Distance(m, s), s.alt, dt)
    ensures OnPad(Flown(m, s, acts), s.baseLat, s.baseLon)
  {
    hide Flown, Distance, Math.Sound, Times, Units;
    var transit, descent := Units(Distance(m, s) - 10.0, Gain(dt)), Units(s.alt - 5.0, Sink(dt));
    Peel(descent + 1, Sink(dt));
    Lands(m, s, acts, dt, transit, descent + 1);
  }

  /** Recalling any vehicle that obeys brings it down, whatever it was doing. */
  lemma RecallsLand(m: Math, s: Sim, target: string, acts: seq<Act>, dt: real)
    requires m.Sound() && Gain(dt) > 0.0 && StepsOf(acts, dt) && Addressed(target, s.frame.id)
    requires |acts| >= StepBound(Distance(m, s), s.alt, dt)
    ensures OnPad(Flown(m, Commanded(s, target, "RETURN_TO_BASE"), acts), s.baseLat, s.baseLon)
  {
    hide Addressed, Meters, Flown, StepBound, Math.Sound, Gain, StepsOf;
    ReturnsLand(m, Commanded(s, target, "RETURN_TO_BASE"), acts, dt);
  }

  /** Any flight of commands and steps that ends on the way home lands if left alone. */
  lemma FlightsLand(m: Math, s: Sim, acts: seq<Act>, more: seq<Act>, dt: real)
    requires m.Sound() && Gain(dt) > 0.0 && StepsOf(more, dt) && Airworthy(m, s)
    requires forall a :: a in acts && a.Tick? ==> a.dt >= 0.0
    requires Flown(m, s, acts).state == "RTB"
    requires |more| >= StepBound(Distance(m, Flown(m, s, acts)), Flown(m, s, acts).alt, dt)
    ensures
      var v := Flown(m, s, acts);
      OnPad(Flown(m, s, acts + more), v.baseLat, v.baseLon)
  {
    hide Distance, Math.Sound, Flown, OnGrid, StepBound, Gain, StepsOf;
    FlightsStayAirworthy(m, s, acts);
    FlownOn(m, s, acts, more);
    ReturnsLand(m, Flown(m, s, acts), more, dt);
  }
}
