/** The policy engine of pkg/policy/policy.go: which envelopes may leave the boundary, and how a
  restricted one is sanitised first. */
module Policy {
  import opened Wrappers
  import opened Rounding
  import opened Text
  import opened Schema

  datatype Action = Pass | RedactPass | Quarantine

  datatype Reason =
    | MalformedJson | SchemaViolation | DigestCompromised | UnauthorizedSyntheticTier
    | Tier3EgressProhibited | InvalidCoordinates | BatteryViolation | UnknownViolation

  /** The reason that the source derives from the words of a validation error. */
  function ReasonFor(e: SchemaError): Reason {
    match e
    case UnauthorizedTier => UnauthorizedSyntheticTier
    case MissingClassification | MissingOrigin | MissingTimestamp | MissingDigest
      | MissingVehicleId | MissingVehicleType | MissingTeam
      | MissingCommandId | MissingTarget | MissingCommandType => SchemaViolation
    case InvalidBattery => BatteryViolation
    case OutOfBounds => InvalidCoordinates
    case NoPayload | DigestUnavailable | DigestMismatch => DigestCompromised
  }

  const REDACTED_MISSION: string := "status=[REDACTED_BY_CDS],sanitized=true"

  /** `math.Floor(alt/50.0) * 50.0`. */
  function Floor50(altitude: real): real {
    (altitude / 50.0).Floor as real * 50.0
  }

  datatype PolicyEngine = PolicyEngine(decimals: nat) {

    /** `NewPolicyEngine`: a positive precision is kept, any other becomes 2. */
    static function New(decimals: int): (e: PolicyEngine)
      ensures e.decimals >= 1
      ensures decimals > 0 ==> e.decimals == decimals
      ensures decimals <= 0 ==> e.decimals == 2
    {
      PolicyEngine(if decimals <= 0 then 2 else decimals)
    }

    /** The verdict of `Evaluate` on an envelope that is not nil. */
    function Verdict(digests: Digests, env: Envelope): (Action, Option<Reason>) {
      match Violation(digests, env)
      case Some(e) => (Quarantine, Some(ReasonFor(e)))
      case None =>
        if env.header.classification == TIER1_PUBLIC then (Pass, None)
        else if env.header.classification == TIER2_RESTRICTED then (RedactPass, None)
        else if env.header.classification == TIER3_CRITICAL then (Quarantine, Some(Tier3EgressProhibited))
        else (Quarantine, Some(UnauthorizedSyntheticTier))
    }

    /** `Evaluate`: validation normalises the envelope in place. */
    method Evaluate(digests: Digests, env: SecurityEnvelope?) returns (action: Action, reason: Option<Reason>)
      modifies env
      ensures env == null ==> action == Quarantine && reason == Some(SchemaViolation)
      ensures env != null ==> (action, reason) == Verdict(digests, old(env.Value()))
      ensures env != null ==> env.Value() == Revised(old(env.Value()))
    {
      if env == null {
        return Quarantine, Some(SchemaViolation);
      }
      var err := env.Validate(digests);
      if err.Some? {
        return Quarantine, Some(ReasonFor(err.value));
      }
      if env.header.classification == TIER1_PUBLIC {
        return Pass, None;
      } else if env.header.classification == TIER2_RESTRICTED {
        return RedactPass, None;
      } else if env.header.classification == TIER3_CRITICAL {
        return Quarantine, Some(Tier3EgressProhibited);
      } else {
        return Quarantine, Some(UnauthorizedSyntheticTier);
      }
    }

    function Coarsened(t: Telemetry): Telemetry {
      t.(coordinates := Coordinates(RoundTo(t.coordinates.latitude, decimals),
                                    RoundTo(t.coordinates.longitude, decimals),
                                    Floor50(t.coordinates.altitudeM)),
         mission := if t.mission.Some? then Some(REDACTED_MISSION) else None)
    }

    /** The result of `RedactAndSanitize`; nothing on an error. */
    function Sanitized(digests: Digests, env: Envelope): Option<Envelope> {
      if env.telemetry.None? then None
      else
        var t := Coarsened(env.telemetry.value);
        match digests.ofTelemetry(t)
        case None => None
        case Some(digest) =>
          Some(Envelope(
            SecurityHeader(TIER1_PUBLIC, env.header.originEnclave + "-CDS-SANITIZED", env.header.timestampNs,
                           env.header.messageId + "-sanitized", digest,
                           env.header.caveats + ["REDACTED_FROM_TIER2", "SANITIZED_BY_CDS"]),
            Some(t), None))
    }

    method RedactAndSanitize(digests: Digests, env: SecurityEnvelope?) returns (r: Option<Envelope>)
      ensures env == null ==> r == None
      ensures env != null ==> r == Sanitized(digests, env.Value())
    {
      if env == null || env.telemetry.None? {
        return None;
      }
      var telem := env.telemetry.value;
      telem := telem.(coordinates := telem.coordinates.(latitude := RoundTo(telem.coordinates.latitude, decimals)));
      telem := telem.(coordinates := telem.coordinates.(longitude := RoundTo(telem.coordinates.longitude, decimals)));
      telem := telem.(coordinates := telem.coordinates.(altitudeM := Floor50(telem.coordinates.altitudeM)));
      if telem.mission.Some? {
        telem := telem.(mission := Some(REDACTED_MISSION));
      }
      var caveats := env.header.caveats;
      caveats := caveats + ["REDACTED_FROM_TIER2", "SANITIZED_BY_CDS"];
      var newDigest := digests.ofTelemetry(telem);
      if newDigest.None? {
        return None;
      }
      var header := SecurityHeader(TIER1_PUBLIC, env.header.originEnclave + "-CDS-SANITIZED",
                                   env.header.timestampNs, env.header.messageId + "-sanitized",
                                   newDigest.value, caveats);
      return Some(Envelope(header, Some(telem), None));
    }
  }

  // ---------------------------------------------------------------- laws

  /** Only valid envelopes pass, unchanged as TIER-1 and redacted as TIER-2; everything else stays. */
  lemma VerdictExactly(engine: PolicyEngine, digests: Digests, env: Envelope)
    ensures engine.Verdict(digests, env).0 == Pass <==>
      Violation(digests, env) == None && env.header.classification == TIER1_PUBLIC
    ensures engine.Verdict(digests, env).0 == RedactPass <==>
      Violation(digests, env) == None && env.header.classification == TIER2_RESTRICTED
  {}

  /** Header fields and identity are all there. */
  predicate HeaderComplete(h: SecurityHeader) {
    h.originEnclave != "" && h.timestampNs != 0 && h.digest != ""
  }

  predicate Identified(t: Telemetry) {
    t.vehicleId != "" && t.vehicleType != "" && t.team != ""
  }

  /** Why a telemetry envelope is quarantined: an unknown tier before anything missing, then battery,
      position and digest, and only a valid one for being TIER-3. */
  lemma ReasonExactly(engine: PolicyEngine, digests: Digests, env: Envelope)
    requires env.telemetry.Some?
    ensures
      var (action, reason) := engine.Verdict(digests, env);
      var h, t := env.header, env.telemetry.value.Normalized();
      var tier, p := h.classification, t.coordinates;
      var charged := 0.0 <= t.batteryPct <= 100.0;
      var onGlobe := -90.0 <= p.latitude <= 90.0 && -180.0 <= p.longitude <= 180.0;
      && (action == Quarantine <==> reason.Some?)
      && (reason == Some(UnauthorizedSyntheticTier) <==> tier != "" && !ValidTier(tier))
      && (reason == Some(SchemaViolation) <==>
            tier == "" || (ValidTier(tier) && !(HeaderComplete(h) && Identified(t))))
      && (ValidTier(tier) && HeaderComplete(h) && Identified(t) ==>
            && (reason == Some(BatteryViolation) <==> !charged)
            && (reason == Some(InvalidCoordinates) <==> charged && !onGlobe)
            && (reason == Some(DigestCompromised) <==>
                  charged && onGlobe
                  && (digests.ofTelemetry(t).None? || !EqualFold(h.digest, digests.ofTelemetry(t).value)))
            && (reason == Some(Tier3EgressProhibited) <==>
                  tier == "TIER-3: CRITICAL" && Violation(digests, env) == None))
  {
    hide RoundTo, EqualFold;
  }

  lemma Floor50Facts(a: real)
    ensures Floor50(a) <= a < Floor50(a) + 50.0
    ensures OnGrid(Floor50(a), 2)
    ensures Floor50(Floor50(a)) == Floor50(a)
  {
    var n := (a / 50.0).Floor;
    assert n as real <= a / 50.0 < n as real + 1.0;
    assert Floor50(a) == (n * 50) as real;
    IntegerOnGrid(n * 50, 2);
    assert Floor50(a) / 50.0 == n as real;
    IntegersFloor(n);
  }

  /** The coarsened position of a normalised payload: still normalised, still in bounds, and within
      half a unit of the kept precision and 50 m of altitude. */
  lemma CoarsenedIsNormal(engine: PolicyEngine, t: Telemetry)
    requires engine.decimals >= 1 && t.IsNormal() && TelemetryError(t) == None
    ensures engine.Coarsened(t).IsNormal() && TelemetryError(engine.Coarsened(t)) == None
  {
    hide RoundTo, OnGrid, Floor50;
    var d := engine.decimals;
    NormalExactlyOnGrid(t);
    NormalExactlyOnGrid(engine.Coarsened(t));
    RoundToKeepsGrid(t.coordinates.latitude, 6, d);
    RoundToKeepsGrid(t.coordinates.longitude, 6, d);
    Floor50Facts(t.coordinates.altitudeM);
    RoundToWithin(t.coordinates.latitude, -90, 90, d);
    RoundToWithin(t.coordinates.longitude, -180, 180, d);
  }

  /** What the sanitiser makes of a validated TIER-2 telemetry envelope is a TIER-1 envelope that
      validates as it stands, and sanitising its payload again changes nothing. */
  lemma SanitizedIsValid(engine: PolicyEngine, digests: Digests, env: Envelope)
    requires engine.decimals >= 1 && digests.Sound()
    requires engine.Verdict(digests, env).0 == RedactPass && env.telemetry.Some?
    requires engine.Sanitized(digests, Revised(env)).Some?
    ensures
      var s := engine.Sanitized(digests, Revised(env)).value;
      && s.header.classification == TIER1_PUBLIC
      && Violation(digests, s) == None
      && Revised(s) == s
      && engine.Coarsened(s.telemetry.value) == s.telemetry.value
  {
    hide RoundTo, OnGrid, Floor50;
    var t := env.telemetry.value.Normalized();
    NormalizedIsNormal(env.telemetry.value);
    CoarsenedIsNormal(engine, t);
    var c := engine.Coarsened(t);
    HexIsLower(digests.ofTelemetry(c).value);
    RoundToTwice(t.coordinates.latitude, engine.decimals);
    RoundToTwice(t.coordinates.longitude, engine.decimals);
    Floor50Facts(t.coordinates.altitudeM);
  }

  /** The published position is within half a unit of the kept precision of the normalised one, and
      at most 50 m below it. */
  lemma SanitizedIsNear(engine: PolicyEngine, t: Telemetry)
    ensures
      var c, h := engine.Coarsened(t).coordinates, HalfUnit(engine.decimals);
      && t.coordinates.latitude - h <= c.latitude <= t.coordinates.latitude + h
      && t.coordinates.longitude - h <= c.longitude <= t.coordinates.longitude + h
      && t.coordinates.altitudeM - 50.0 < c.altitudeM <= t.coordinates.altitudeM
  {
    hide RoundTo, OnGrid, Floor50, HalfUnit;
    RoundToIsNearest(t.coordinates.latitude, engine.decimals);
    RoundToIsNearest(t.coordinates.longitude, engine.decimals);
    Floor50Facts(t.coordinates.altitudeM);
  }

  /** Everything about an envelope that its sanitised form may depend on. */
  ghost predicate LowEquivalent(engine: PolicyEngine, a: Envelope, b: Envelope)
    requires a.telemetry.Some? && b.telemetry.Some?
  {
    var t, u := a.telemetry.value, b.telemetry.value;
    && a.header.originEnclave == b.header.originEnclave
    && a.header.timestampNs == b.header.timestampNs
    && a.header.messageId == b.header.messageId
    && a.header.caveats == b.header.caveats
    && t.vehicleId == u.vehicleId && t.vehicleType == u.vehicleType && t.team == u.team
    && t.state == u.state && t.batteryPct == u.batteryPct && t.velocity == u.velocity
    && t.headingDeg == u.headingDeg && t.sequence == u.sequence
    && t.mission.Some? == u.mission.Some?
    && RoundTo(t.coordinates.latitude, engine.decimals) == RoundTo(u.coordinates.latitude, engine.decimals)
    && RoundTo(t.coordinates.longitude, engine.decimals) == RoundTo(u.coordinates.longitude, engine.decimals)
    && (t.coordinates.altitudeM / 50.0).Floor == (u.coordinates.altitudeM / 50.0).Floor
  }

  lemma SuffixCancels<T>(a: seq<T>, b: seq<T>, suffix: seq<T>)
    requires a + suffix == b + suffix
    ensures a == b
  {
    assert |a| == |b|;
    assert a == (a + suffix)[..|a|] && b == (b + suffix)[..|b|];
  }

  /** Two envelopes have the same sanitised form exactly when they agree on those parts: exact
      positions, mission contents, classification and original digests never show, and nothing else
      is hidden. */
  lemma SanitizerHidesExactly(engine: PolicyEngine, digests: Digests, a: Envelope, b: Envelope)
    requires a.telemetry.Some? && b.telemetry.Some?
    requires engine.Sanitized(digests, a).Some? && engine.Sanitized(digests, b).Some?
    ensures engine.Sanitized(digests, a) == engine.Sanitized(digests, b) <==> LowEquivalent(engine, a, b)
  {
    hide RoundTo;
    var s, r := engine.Sanitized(digests, a).value, engine.Sanitized(digests, b).value;
    if s == r {
      SuffixCancels(a.header.originEnclave, b.header.originEnclave, "-CDS-SANITIZED");
      SuffixCancels(a.header.messageId, b.header.messageId, "-sanitized");
      SuffixCancels(a.header.caveats, b.header.caveats, ["REDACTED_FROM_TIER2", "SANITIZED_BY_CDS"]);
      var m := (a.telemetry.value.coordinates.altitudeM / 50.0).Floor;
      var n := (b.telemetry.value.coordinates.altitudeM / 50.0).Floor;
      assert m as real * 50.0 == n as real * 50.0;
      assert m as real == n as real;
    }
  }

  /** The sanitised header is the original one, marked: origin, message ID and caveats start with the
      original's and end with the marks, the time stamp is kept, and the tier is the public one. What is
      left of the mission says only that there was one. */
  lemma SanitizedHeader(engine: PolicyEngine, digests: Digests, env: Envelope)
    requires engine.Sanitized(digests, env).Some?
    ensures env.telemetry.Some?
    ensures
      var s := engine.Sanitized(digests, env).value;
      var h, g := env.header, s.header;
      && g.classification == "TIER-1: PUBLIC"
      && g.originEnclave == h.originEnclave + "-CDS-SANITIZED"
      && g.messageId == h.messageId + "-sanitized"
      && g.timestampNs == h.timestampNs
      && g.caveats == h.caveats + ["REDACTED_FROM_TIER2", "SANITIZED_BY_CDS"]
      && s.command == None && s.telemetry.Some?
      && digests.ofTelemetry(s.telemetry.value) == Some(g.digest)
      && s.telemetry.value.mission
         == if env.telemetry.value.mission.None? then None else Some("status=[REDACTED_BY_CDS],sanitized=true")
  {
    hide RoundTo, Floor50;
  }

  /** The published position lies on the coarse grid, the altitude on a multiple of 50 m; everything
      else of the payload but the mission is the original's. */
  lemma CoarsenedKeepsRest(engine: PolicyEngine, t: Telemetry)
    ensures
      var c := engine.Coarsened(t);
      && c == t.(coordinates := c.coordinates, mission := c.mission)
      && OnGrid(c.coordinates.latitude, engine.decimals) && OnGrid(c.coordinates.longitude, engine.decimals)
      && exists n: int :: c.coordinates.altitudeM == Fifties(n)
  {
    hide RoundTo, OnGrid;
    RoundToOnGrid(t.coordinates.latitude, engine.decimals);
    RoundToOnGrid(t.coordinates.longitude, engine.decimals);
    assert engine.Coarsened(t).coordinates.altitudeM == Fifties((t.coordinates.altitudeM / 50.0).Floor);
  }

  function Fifties(n: int): real {
    n as real * 50.0
  }
}
