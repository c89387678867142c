/** The altitude of a returning vehicle of Vehicle on its way to the pad. */
module Approach {
  import Rounding
  import opened Vehicle
  import opened Flight
  import opened Landing

  /** More than 10 m from the pad a step lowers the vehicle by 6 dt metres, but not below 15 m, if it is
      within 200 m and above 15 m; anywhere else it keeps its altitude. */
  lemma ApproachAltitude(m: Math, s: Sim, dt: real)
    requires s.state == "RTB" && Distance(m, s) > 10.0
    ensures
      var v := Stepped(m, s, dt).0;
      && v.state == "RTB" && v.speed == s.speed
      && v.alt ==
         if Distance(m, s) < 200.0 && s.alt > 15.0 then (if s.alt - 6.0 * dt > 15.0 then s.alt - 6.0 * dt else 15.0)
         else s.alt
  {
    hide Drain, Heading, Advanced, StepDegrees, Along, Meters, Math.Norm, Rounding.RoundTo, Patrolled, Hovered,
      TouchingDown;
  }

  /** Within 10 m it does not leave the pad's surroundings any more. */
  lemma StaysClose(m: Math, s: Sim, dt: real)
    requires m.Sound() && Distance(m, s) <= 10.0 && (s.state == "RTB" || s.state == "LANDED")
    ensures
      var v := Stepped(m, s, dt).0;
      Distance(m, v) <= 10.0 && (v.state == "RTB" || v.state == "LANDED")
  {
    if s.state == "RTB" {
      DescentStep(m, s, dt);
      PadIsClose(m, Stepped(m, s, dt).0);
      hide Stepped;
    } else {
      hide Patrolled, Hovered, Returned, Meters, Rounding.RoundTo;
    }
  }

  lemma PadIsClose(m: Math, s: Sim)
    requires m.Sound()
    ensures s.lat == s.baseLat && s.lon == s.baseLon ==> Distance(m, s) <= 10.0
  {
    OriginIsNear(m);
    hide Math.Sound, Math.Norm;
  }

  /** On the way at 15 m or more, or already over the pad. */
  ghost predicate HighOrClose(m: Math, s: Sim) {
    || (s.state == "RTB" && s.alt >= 15.0)
    || (Distance(m, s) <= 10.0 && (s.state == "RTB" || s.state == "LANDED"))
  }

  /** A returning vehicle that is at 15 m or higher is never below 15 m while it is more than 10 m from its
      pad, whatever the lengths of the steps. */
  lemma {:induction false} NeverLowFarOut(m: Math, s: Sim, acts: seq<Act>)
    requires m.Sound() && s.state == "RTB" && s.alt >= 15.0 && forall a :: a in acts ==> a.Tick?
    ensures HighOrClose(m, Flown(m, s, acts))
    ensures Distance(m, Flown(m, s, acts)) > 10.0 ==> Flown(m, s, acts).alt >= 15.0
  {
    hide Stepped, Distance, Math.Sound;
    if acts != [] {
      var front, last := acts[..|acts| - 1], acts[|acts| - 1];
      assert last in acts;
      NeverLowFarOut(m, s, front);
      var v := Flown(m, s, front);
      if Distance(m, v) > 10.0 {
        ApproachAltitude(m, v, last.dt);
      } else {
        StaysClose(m, v, last.dt);
      }
    }
  }

  /** The time that a row of steps takes. */
  function Elapsed(acts: seq<Act>): real
    requires forall a :: a in acts ==> a.Tick?
  {
    if acts == [] then 0.0
    else
      assert forall a :: a in acts[..|acts| - 1] ==> a in acts;
      Elapsed(acts[..|acts| - 1]) + acts[|acts| - 1].dt
  }

  /** Every step of the row starts within 200 m of the pad and more than 10 m from it. */
  ghost predicate InApproach(m: Math, s: Sim, acts: seq<Act>) {
    forall k :: 0 <= k < |acts| ==> 10.0 < Distance(m, Flown(m, s, acts[..k])) < 200.0
  }

  /** In there it has sunk at 6 m/s for all of the time, down to 15 m and no further. */
  lemma {:induction false} SinksInApproach(m: Math, s: Sim, acts: seq<Act>)
    requires s.state == "RTB" && s.alt >= 15.0 && InApproach(m, s, acts)
    requires forall a :: a in acts ==> a.Tick? && a.dt >= 0.0
    ensures Elapsed(acts) >= 0.0 && Flown(m, s, acts).state == "RTB"
    ensures
      Flown(m, s, acts).alt == if s.alt - 6.0 * Elapsed(acts) > 15.0 then s.alt - 6.0 * Elapsed(acts) else 15.0
  {
    hide Stepped, Distance;
    if acts != [] {
      var n := |acts| - 1;
      var front, last := acts[..n], acts[n];
      assert last in acts && forall a :: a in front ==> a in acts;
      assert forall k :: 0 <= k <= n ==> front[..k] == acts[..k];
      assert front[..n] == front;
      SinksInApproach(m, s, front);
      ApproachAltitude(m, Flown(m, s, front), last.dt);
    }
  }

  /** Farther out than 200 m it keeps the altitude it had. */
  lemma {:induction false} KeepsAltitudeFarOut(m: Math, s: Sim, acts: seq<Act>)
    requires s.state == "RTB" && forall a :: a in acts ==> a.Tick?
    requires forall k :: 0 <= k < |acts| ==> Distance(m, Flown(m, s, acts[..k])) >= 200.0
    ensures Flown(m, s, acts).state == "RTB" && Flown(m, s, acts).alt == s.alt
  {
    hide Stepped, Distance;
    if acts != [] {
      var n := |acts| - 1;
      var front, last := acts[..n], acts[n];
      assert last in acts;
      assert forall k :: 0 <= k <= n ==> front[..k] == acts[..k];
      assert front[..n] == front;
      KeepsAltitudeFarOut(m, s, front);
      ApproachAltitude(m, Flown(m, s, front), last.dt);
    }
  }
}
