/** Who obeys an order, and what each order does: `HandleCommand` of cmd/edge-agent/main.go. */
module Orders {
  import opened Rounding
  import opened Text
  import opened Vehicle
  import opened Flight
  import opened Landing

  // ---------------------------------------------------------------- who obeys

  predicate TeamPrefix(p: string) {
    p == "" || p == "blue-" || p == "red-"
  }

  /** A lower-case callsign without a team prefix. */
  predicate Callsign(n: string) {
    ToLower(n) == n && !HasPrefix(n, "blue-") && !HasPrefix(n, "red-")
  }

  lemma LowerOfCallsign(p: string, n: string)
    requires TeamPrefix(p) && Callsign(n)
    ensures ToLower(p + n) == p + n
  {
    forall i | 0 <= i < |p + n|
      ensures Lower((p + n)[i]) == (p + n)[i]
    {
      if i >= |p| {
        assert ToLower(n)[i - |p|] == Lower(n[i - |p|]);
      }
    }
  }

  lemma ShortNameOfCallsign(p: string, n: string)
    requires TeamPrefix(p) && Callsign(n)
    ensures ShortName(p + n) == n
  {
    LowerOfCallsign(p, n);
    hide ToLower, Callsign;
    TrimsTeam(p, n);
  }

  lemma TrimsTeam(p: string, n: string)
    requires TeamPrefix(p) && !HasPrefix(n, "blue-") && !HasPrefix(n, "red-")
    ensures TrimPrefix(TrimPrefix(p + n, "blue-"), "red-") == n
  {
    if p == "" {
      assert p + n == n;
    } else {
      assert (p + n)[|p|..] == n && (p + n)[..|p|] == p;
      assert p == "red-" ==> (p + n)[0] == 'r';
    }
  }

  lemma AddressedExactly(p: string, n: string, q: string, m: string)
    requires TeamPrefix(p) && Callsign(n) && TeamPrefix(q) && Callsign(m)
    ensures Addressed(q + m, p + n) <==> q + m == "" || m == n
  {
    ShortNameOfCallsign(p, n);
    ShortNameOfCallsign(q, m);
    LowerOfCallsign(p, n);
    LowerOfCallsign(q, m);
    hide ToLower, ShortName, Callsign, TeamPrefix;
  }

  /** Vehicle and target may each carry a team prefix: the vehicle obeys exactly the orders to its own
      callsign and those to nobody. Any other order changes nothing, whatever it is; an order obeyed does
      what the order to nobody does. */
  lemma ObeysExactly(s: Sim, p: string, n: string, q: string, m: string)
    requires TeamPrefix(p) && Callsign(n) && TeamPrefix(q) && Callsign(m) && s.frame.id == p + n
    ensures Commanded(s, q + m, "TOGGLE_EW") != s <==> q + m == "" || m == n
    ensures !(q + m == "" || m == n) ==> forall c :: Commanded(s, q + m, c) == s
    ensures q + m == "" || m == n ==> forall c :: Commanded(s, q + m, c) == Commanded(s, "", c)
  {
    AddressedExactly(p, n, q, m);
    NobodyIsEverybody(s.frame.id);
    hide Addressed, TeamPrefix, Callsign;
    assert Addressed(q + m, s.frame.id) ==> Commanded(s, q + m, "TOGGLE_EW").ewActive != s.ewActive;
  }

  lemma NobodyIsEverybody(id: string)
    ensures Addressed("", id)
  {}

  /** The letter case of the target does not matter. */
  lemma CaseIsIgnored(s: Sim, target: string, other: string, c: string)
    requires ToLower(target) == ToLower(other)
    ensures Commanded(s, target, c) == Commanded(s, other, c)
  {
    assert target == "" <==> other == "";
    assert Addressed(target, s.frame.id) == Addressed(other, s.frame.id);
    hide Addressed;
  }

  // ---------------------------------------------------------------- what an order does

  predicate SamePlace(s: Sim, v: Sim) {
    && v.lat == s.lat && v.lon == s.lon && v.baseLat == s.baseLat && v.baseLon == s.baseLon
    && v.frame == s.frame && v.battery == s.battery
  }

  /** No order moves the vehicle, and only six orders change anything. */
  lemma OrdersDoNotMove(s: Sim, target: string, c: string)
    ensures SamePlace(s, Commanded(s, target, c))
    ensures Commanded(s, target, c) != s ==>
      c in {"RETURN_TO_BASE", "HOVER", "PATROL", "ARM", "DISARM", "TOGGLE_EW"}
  {
    hide Addressed;
  }

  /** Ordered to hover, a vehicle stops and stays where it is, at its altitude, for any number of steps. */
  lemma {:induction false} HoverHolds(m: Math, s: Sim, acts: seq<Act>)
    requires forall a :: a in acts ==> a.Tick?
    ensures
      var v := Flown(m, Commanded(s, "", "HOVER"), acts);
      && v.state == "HOVER" && v.speed == 0.0 && v.alt == s.alt && v.lat == s.lat && v.lon == s.lon
      && v.sequence == s.sequence + |acts|
  {
    hide Drain, RoundTo, Patrolled, Returned;
    if acts != [] {
      assert acts[|acts| - 1] in acts;
      HoverHolds(m, s, acts[..|acts| - 1]);
    }
  }

  /** Disarmed, it is on the ground at once, right where it was, and stays there. */
  lemma DisarmGrounds(m: Math, s: Sim, acts: seq<Act>)
    requires forall a :: a in acts ==> a.Tick?
    ensures
      var v := Flown(m, Commanded(s, "", "DISARM"), acts);
      AtRest(v) && v.lat == s.lat && v.lon == s.lon
  {
    hide Flown;
    RestsForever(m, Commanded(s, "", "DISARM"), acts);
  }

  /** Arming only does something to a landed vehicle: it is airborne at 100 m and 14.5 m/s. */
  lemma ArmExactly(s: Sim)
    ensures s.state != "LANDED" ==> Commanded(s, "", "ARM") == s
    ensures s.state == "LANDED" ==>
      var v := Commanded(s, "", "ARM");
      && v == s.(state := v.state, alt := v.alt, speed := v.speed)
      && v.state == "AIRBORNE" && v.alt == 100.0 && v.speed == 14.5
  {
    hide Addressed;
    NobodyIsEverybody(s.frame.id);
  }

  /** The emitter switch is its own inverse and touches nothing else. */
  lemma ToggleTwice(s: Sim)
    ensures
      var v := Commanded(s, "", "TOGGLE_EW");
      v == s.(ewActive := v.ewActive) && v.ewActive != s.ewActive && Commanded(v, "", "TOGGLE_EW") == s
  {
    hide Addressed;
    NobodyIsEverybody(s.frame.id);
  }

  /** A patrol order starts a vehicle on the ground or at a stand from speed 0 and gives any other its
      cruise speed; a recall gives 14.5 m/s. Neither changes the altitude. */
  lemma StartSpeeds(s: Sim)
    ensures
      var v := Commanded(s, "", "PATROL");
      && v.state == "PATROL" && v.alt == s.alt
      && v.cruiseSpeed == (if s.cruiseSpeed <= 0.0 then 14.5 else s.cruiseSpeed)
      && (v.speed == 0.0 <==> s.alt <= 5.0 || s.speed <= 0.0) && (v.speed != 0.0 ==> v.speed == v.cruiseSpeed)
    ensures
      var v := Commanded(s, "", "RETURN_TO_BASE");
      v == s.(state := v.state, speed := v.speed) && v.state == "RTB" && v.speed == 14.5
  {
    hide Addressed;
    NobodyIsEverybody(s.frame.id);
  }
}
