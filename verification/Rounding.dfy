/** Decimal rounding as the source does it: scale, round half away from zero, scale back
  (`roundFloat` in pkg/schema, pkg/mavlink and cmd/edge-agent, `RoundFloat` in pkg/policy),
  over real numbers. */
module Rounding {

  /** `math.Round`. */
  function Round(x: real): int {
    if x >= 0.0 then (x + 0.5).Floor else -((-x + 0.5).Floor)
  }

  function Pow10(decimals: nat): (p: real)
    ensures p >= 1.0
  {
    if decimals == 0 then 1.0 else 10.0 * Pow10(decimals - 1)
  }

  function Scaled(v: real, decimals: nat): real {
    v * Pow10(decimals)
  }

  function RoundTo(v: real, decimals: nat): real {
    Round(Scaled(v, decimals)) as real / Pow10(decimals)
  }

  // ---------------------------------------------------------------- products

  lemma DivTimes(n: real, p: real)
    requires p > 0.0
    ensures n / p * p == n
  {}

  lemma Cancel(r: real, s: real, p: real)
    requires p > 0.0
    ensures r * p <= s * p <==> r <= s
    ensures r * p == s * p <==> r == s
  {}

  lemma SumTimes(a: real, b: real, p: real)
    ensures (a + b) * p == a * p + b * p
  {}

  lemma ScaledRoundTo(v: real, decimals: nat)
    ensures Scaled(RoundTo(v, decimals), decimals) == Round(Scaled(v, decimals)) as real
  {
    hide Round, Pow10;
    var n := Round(Scaled(v, decimals)) as real;
    DivTimes(n, Pow10(decimals));
  }

  lemma ScaledOrder(v: real, w: real, decimals: nat)
    ensures Scaled(v, decimals) <= Scaled(w, decimals) <==> v <= w
    ensures Scaled(v, decimals) == Scaled(w, decimals) <==> v == w
  {
    hide Pow10;
    Cancel(v, w, Pow10(decimals));
  }

  // ---------------------------------------------------------------- laws

  lemma RoundIsNearest(x: real)
    ensures x - 0.5 <= Round(x) as real <= x + 0.5
  {}

  lemma RoundKeepsIntegers(n: int)
    ensures Round(n as real) == n
  {}

  lemma RoundMonotone(x: real, y: real)
    requires x <= y
    ensures Round(x) as real <= Round(y) as real
  {
    if 0.0 <= x {
      FloorMonotone(x + 0.5, y + 0.5);
    } else if y < 0.0 {
      FloorMonotone(-y + 0.5, -x + 0.5);
    } else {
      FloorMonotone(0.5, y + 0.5);
      FloorMonotone(0.5, -x + 0.5);
    }
  }

  lemma FloorMonotone(x: real, y: real)
    requires x <= y
    ensures x.Floor <= y.Floor
  {}

  /** v is a multiple of 10^-decimals. */
  predicate OnGrid(v: real, decimals: nat) {
    Scaled(v, decimals).Floor as real == Scaled(v, decimals)
  }

  lemma IntegersFloor(n: int)
    ensures (n as real).Floor == n
  {}

  lemma RoundToOnGrid(v: real, decimals: nat)
    ensures OnGrid(RoundTo(v, decimals), decimals)
  {
    hide Round, RoundTo, Scaled;
    ScaledRoundTo(v, decimals);
    IntegersFloor(Round(Scaled(v, decimals)));
  }

  /** Rounding changes nothing exactly on the grid. */
  lemma RoundToFixedExactly(v: real, decimals: nat)
    ensures RoundTo(v, decimals) == v <==> OnGrid(v, decimals)
  {
    hide Round, RoundTo, Scaled;
    if OnGrid(v, decimals) {
      RoundKeepsIntegers(Scaled(v, decimals).Floor);
      ScaledRoundTo(v, decimals);
      ScaledOrder(RoundTo(v, decimals), v, decimals);
    }
    RoundToOnGrid(v, decimals);
  }

  lemma RoundToMonotone(v: real, w: real, decimals: nat)
    requires v <= w
    ensures RoundTo(v, decimals) <= RoundTo(w, decimals)
  {
    hide Round, RoundTo, Scaled;
    ScaledOrder(v, w, decimals);
    RoundMonotone(Scaled(v, decimals), Scaled(w, decimals));
    ScaledRoundTo(v, decimals);
    ScaledRoundTo(w, decimals);
    ScaledOrder(RoundTo(v, decimals), RoundTo(w, decimals), decimals);
  }

  function HalfUnit(decimals: nat): real {
    0.5 / Pow10(decimals)
  }

  lemma ScaledShift(v: real, h: real, decimals: nat)
    requires h == HalfUnit(decimals)
    ensures Scaled(v + h, decimals) == Scaled(v, decimals) + 0.5
    ensures Scaled(v - h, decimals) == Scaled(v, decimals) - 0.5
  {
    hide Pow10;
    var p := Pow10(decimals);
    DivTimes(0.5, p);
    SumTimes(v, h, p);
    SumTimes(v, -h, p);
    SumTimes(h, -h, p);
  }

  /** The result is within half a unit of the last kept place. */
  lemma RoundToIsNearest(v: real, decimals: nat)
    ensures v - HalfUnit(decimals) <= RoundTo(v, decimals) <= v + HalfUnit(decimals)
  {
    hide Round, RoundTo, Scaled, HalfUnit;
    var h := HalfUnit(decimals);
    RoundIsNearest(Scaled(v, decimals));
    ScaledRoundTo(v, decimals);
    ScaledShift(v, h, decimals);
    ScaledOrder(v - h, RoundTo(v, decimals), decimals);
    ScaledOrder(RoundTo(v, decimals), v + h, decimals);
  }

  lemma ScaledStep(v: real, decimals: nat)
    ensures Scaled(v, decimals + 1) == 10.0 * Scaled(v, decimals)
  {}

  lemma {:induction false} GridRefines(v: real, decimals: nat, finer: nat)
    requires decimals <= finer && OnGrid(v, decimals)
    ensures OnGrid(v, finer)
    decreases finer
  {
    hide Scaled;
    if decimals < finer {
      GridRefines(v, decimals, finer - 1);
      ScaledStep(v, finer - 1);
      var n := Scaled(v, finer - 1).Floor;
      assert Scaled(v, finer) == (10 * n) as real;
      IntegersFloor(10 * n);
    }
  }

  lemma IntegerOnGrid(n: int, decimals: nat)
    ensures OnGrid(n as real, decimals)
  {
    assert Scaled(n as real, 0) == n as real;
    hide Scaled;
    IntegersFloor(n);
    GridRefines(n as real, 0, decimals);
  }

  /** Rounding stays between integer bounds. */
  lemma RoundToWithin(v: real, low: int, high: int, decimals: nat)
    requires low as real <= v <= high as real
    ensures low as real <= RoundTo(v, decimals) <= high as real
  {
    hide RoundTo, OnGrid;
    IntegerOnGrid(low, decimals);
    IntegerOnGrid(high, decimals);
    RoundToFixedExactly(low as real, decimals);
    RoundToFixedExactly(high as real, decimals);
    RoundToMonotone(low as real, v, decimals);
    RoundToMonotone(v, high as real, decimals);
  }

  /** Rounding to a second precision keeps a value on its first grid: a coarser second grid is part
      of the first, and a finer one changes nothing. */
  lemma RoundToKeepsGrid(v: real, decimals: nat, other: nat)
    requires OnGrid(v, decimals)
    ensures OnGrid(RoundTo(v, other), decimals)
  {
    hide RoundTo, OnGrid;
    if other <= decimals {
      RoundToOnGrid(v, other);
      GridRefines(RoundTo(v, other), other, decimals);
    } else {
      GridRefines(v, decimals, other);
      RoundToFixedExactly(v, other);
    }
  }
}
