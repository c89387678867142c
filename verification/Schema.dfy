/** The security envelope of pkg/schema/telemetry.go: normalisation, construction and fail-closed
  validation.

  JSON text and SHA-256 are outside the model: a digest is whatever function of the payload the
  caller supplies, as long as it yields hexadecimal strings, or nothing when marshalling fails. */
module Schema {
  import opened Wrappers
  import opened Rounding
  import opened Text

  const TIER1_PUBLIC: string := "TIER-1: PUBLIC"
  const TIER2_RESTRICTED: string := "TIER-2: RESTRICTED"
  const TIER3_CRITICAL: string := "TIER-3: CRITICAL"

  predicate ValidTier(classification: string) {
    classification == TIER1_PUBLIC || classification == TIER2_RESTRICTED || classification == TIER3_CRITICAL
  }

  datatype SecurityHeader = SecurityHeader(
    classification: string, originEnclave: string, timestampNs: int, messageId: string,
    digest: string, caveats: seq<string>)

  datatype Coordinates = Coordinates(latitude: real, longitude: real, altitudeM: real) {
    function Normalized(): Coordinates {
      Coordinates(RoundTo(latitude, 6), RoundTo(longitude, 6), RoundTo(altitudeM, 2))
    }

    predicate InBounds() {
      -90.0 <= latitude <= 90.0 && -180.0 <= longitude <= 180.0
    }
  }

  datatype Velocity = Velocity(vx: real, vy: real, vz: real, speedMps: real) {
    function Normalized(): Velocity {
      Velocity(RoundTo(vx, 2), RoundTo(vy, 2), RoundTo(vz, 2), RoundTo(speedMps, 2))
    }
  }

  /** `mission` is the free-form mission payload, absent when the source's map is nil. */
  datatype Telemetry = Telemetry(
    vehicleId: string, vehicleType: string, team: string, state: string,
    batteryPct: real, coordinates: Coordinates, velocity: Velocity, headingDeg: real,
    mission: Option<string>, sequence: nat)
  {
    function Normalized(): Telemetry {
      this.(coordinates := coordinates.Normalized(), velocity := velocity.Normalized(),
            headingDeg := RoundTo(headingDeg, 1), batteryPct := RoundTo(batteryPct, 1))
    }

    predicate IsNormal() {
      Normalized() == this
    }
  }

  datatype Command = Command(
    commandId: string, targetVehicle: string, commandType: string, parameters: Option<string>,
    issuedAtNs: int, issuer: string)

  datatype Envelope = Envelope(header: SecurityHeader, telemetry: Option<Telemetry>, command: Option<Command>)

  // ---------------------------------------------------------------- digests

  predicate IsHex(s: string) {
    s != "" && forall i :: 0 <= i < |s| ==> '0' <= s[i] <= '9' || 'a' <= s[i] <= 'f'
  }

  datatype Digests = Digests(ofTelemetry: Telemetry -> Option<string>, ofCommand: Command -> Option<string>) {
    ghost predicate Sound() {
      && (forall t :: ofTelemetry(t).Some? ==> IsHex(ofTelemetry(t).value))
      && (forall c :: ofCommand(c).Some? ==> IsHex(ofCommand(c).value))
    }

    ghost predicate TelemetryCollisionFree() {
      forall t, u :: ofTelemetry(t).Some? && ofTelemetry(t) == ofTelemetry(u) ==> t == u
    }

    ghost predicate CommandsCollisionFree() {
      forall c, d :: ofCommand(c).Some? && ofCommand(c) == ofCommand(d) ==> c == d
    }
  }

  lemma HexIsLower(s: string)
    requires IsHex(s)
    ensures ToLower(s) == s
  {}

  // ---------------------------------------------------------------- validation

  datatype SchemaError =
    | MissingClassification | UnauthorizedTier
    | MissingOrigin | MissingTimestamp | MissingDigest | NoPayload
    | MissingVehicleId | MissingVehicleType | MissingTeam | InvalidBattery | OutOfBounds
    | MissingCommandId | MissingTarget | MissingCommandType
    | DigestUnavailable | DigestMismatch

  function HeaderError(env: Envelope): Option<SchemaError> {
    if env.header.classification == "" then Some(MissingClassification)
    else if !ValidTier(env.header.classification) then Some(UnauthorizedTier)
    else if env.header.originEnclave == "" then Some(MissingOrigin)
    else if env.header.timestampNs == 0 then Some(MissingTimestamp)
    else if env.header.digest == "" then Some(MissingDigest)
    else if env.telemetry.None? && env.command.None? then Some(NoPayload)
    else None
  }

  function TelemetryError(t: Telemetry): Option<SchemaError> {
    if t.vehicleId == "" then Some(MissingVehicleId)
    else if t.vehicleType == "" then Some(MissingVehicleType)
    else if t.team == "" then Some(MissingTeam)
    else if t.batteryPct < 0.0 || t.batteryPct > 100.0 then Some(InvalidBattery)
    else if !t.coordinates.InBounds() then Some(OutOfBounds)
    else None
  }

  function CommandError(c: Command): Option<SchemaError> {
    if c.commandId == "" then Some(MissingCommandId)
    else if c.targetVehicle == "" then Some(MissingTarget)
    else if c.commandType == "" then Some(MissingCommandType)
    else None
  }

  function DigestError(digest: string, expected: Option<string>): Option<SchemaError> {
    if expected.None? then Some(DigestUnavailable)
    else if !EqualFold(digest, expected.value) then Some(DigestMismatch)
    else None
  }

  /** The error `Validate` reports. */
  function Violation(digests: Digests, env: Envelope): Option<SchemaError> {
    if HeaderError(env).Some? then HeaderError(env)
    else if env.telemetry.Some? then
      var t := env.telemetry.value.Normalized();
      if TelemetryError(t).Some? then TelemetryError(t)
      else DigestError(env.header.digest, digests.ofTelemetry(t))
    else
      var c := env.command.value;
      if CommandError(c).Some? then CommandError(c)
      else DigestError(env.header.digest, digests.ofCommand(c))
  }

  /** What `Validate` leaves behind: telemetry is normalised in place once the header has passed. */
  function Revised(env: Envelope): Envelope {
    if HeaderError(env).None? && env.telemetry.Some? then
      env.(telemetry := Some(env.telemetry.value.Normalized()))
    else env
  }

  class SecurityEnvelope {
    var header: SecurityHeader
    var telemetry: Option<Telemetry>
    var command: Option<Command>

    constructor (env: Envelope)
      ensures Value() == env
    {
      header, telemetry, command := env.header, env.telemetry, env.command;
    }

    function Value(): Envelope
      reads this
    {
      Envelope(header, telemetry, command)
    }

    method Validate(digests: Digests) returns (err: Option<SchemaError>)
      modifies this
      ensures err == Violation(digests, old(Value()))
      ensures Value() == Revised(old(Value()))
    {
      hide Rounding.RoundTo;
      err := HeaderError(Value());
      if err.Some? {
        return;
      }
      if telemetry.Some? {
        telemetry := Some(telemetry.value.Normalized());
        err := TelemetryError(telemetry.value);
        if err.Some? {
          return;
        }
        err := DigestError(header.digest, digests.ofTelemetry(telemetry.value));
      } else {
        err := CommandError(command.value);
        if err.Some? {
          return;
        }
        err := DigestError(header.digest, digests.ofCommand(command.value));
      }
    }
  }

  // ---------------------------------------------------------------- laws of normalisation

  lemma RoundToTwice(v: real, decimals: nat)
    ensures RoundTo(RoundTo(v, decimals), decimals) == RoundTo(v, decimals)
  {
    hide RoundTo, OnGrid;
    RoundToOnGrid(v, decimals);
    RoundToFixedExactly(RoundTo(v, decimals), decimals);
  }

  /** Normalising is idempotent, so a digest taken of a normalised payload can be taken again. */
  lemma NormalizedIsNormal(t: Telemetry)
    ensures t.Normalized().IsNormal()
  {
    hide RoundTo;
    RoundToTwice(t.coordinates.latitude, 6);
    RoundToTwice(t.coordinates.longitude, 6);
    RoundToTwice(t.coordinates.altitudeM, 2);
    RoundToTwice(t.velocity.vx, 2);
    RoundToTwice(t.velocity.vy, 2);
    RoundToTwice(t.velocity.vz, 2);
    RoundToTwice(t.velocity.speedMps, 2);
    RoundToTwice(t.headingDeg, 1);
    RoundToTwice(t.batteryPct, 1);
  }

  /** Normal form, field by field: every number is on its decimal grid. */
  lemma NormalExactlyOnGrid(t: Telemetry)
    ensures t.IsNormal() <==>
      && OnGrid(t.coordinates.latitude, 6) && OnGrid(t.coordinates.longitude, 6)
      && OnGrid(t.coordinates.altitudeM, 2)
      && OnGrid(t.velocity.vx, 2) && OnGrid(t.velocity.vy, 2)
      && OnGrid(t.velocity.vz, 2) && OnGrid(t.velocity.speedMps, 2)
      && OnGrid(t.headingDeg, 1) && OnGrid(t.batteryPct, 1)
  {
    hide RoundTo, OnGrid;
    RoundToFixedExactly(t.coordinates.latitude, 6);
    RoundToFixedExactly(t.coordinates.longitude, 6);
    RoundToFixedExactly(t.coordinates.altitudeM, 2);
    RoundToFixedExactly(t.velocity.vx, 2);
    RoundToFixedExactly(t.velocity.vy, 2);
    RoundToFixedExactly(t.velocity.vz, 2);
    RoundToFixedExactly(t.velocity.speedMps, 2);
    RoundToFixedExactly(t.headingDeg, 1);
    RoundToFixedExactly(t.batteryPct, 1);
  }

  /** Validating what validation left behind gives the same verdict and changes nothing more. */
  lemma ValidationIsStable(digests: Digests, env: Envelope)
    ensures Violation(digests, Revised(env)) == Violation(digests, env)
    ensures Revised(Revised(env)) == Revised(env)
  {
    hide RoundTo;
    if HeaderError(env).None? && env.telemetry.Some? {
      NormalizedIsNormal(env.telemetry.value);
    }
  }

  /** The fields of a telemetry envelope that validates, each with its range. */
  lemma TelemetryValidExactly(digests: Digests, env: Envelope)
    requires env.telemetry.Some?
    ensures
      var h, t := env.header, env.telemetry.value.Normalized();
      Violation(digests, env) == None <==>
        && h.classification in {"TIER-1: PUBLIC", "TIER-2: RESTRICTED", "TIER-3: CRITICAL"}
        && h.originEnclave != "" && h.timestampNs != 0 && h.digest != ""
        && t.vehicleId != "" && t.vehicleType != "" && t.team != ""
        && 0.0 <= t.batteryPct <= 100.0
        && -90.0 <= t.coordinates.latitude <= 90.0 && -180.0 <= t.coordinates.longitude <= 180.0
        && digests.ofTelemetry(t).Some? && EqualFold(h.digest, digests.ofTelemetry(t).value)
  {
    hide RoundTo, EqualFold;
  }

  /** The same of an envelope that holds a command and no telemetry. */
  lemma CommandValidExactly(digests: Digests, env: Envelope)
    requires env.telemetry.None? && env.command.Some?
    ensures
      var h, c := env.header, env.command.value;
      Violation(digests, env) == None <==>
        && h.classification in {"TIER-1: PUBLIC", "TIER-2: RESTRICTED", "TIER-3: CRITICAL"}
        && h.originEnclave != "" && h.timestampNs != 0 && h.digest != ""
        && c.commandId != "" && c.targetVehicle != "" && c.commandType != ""
        && digests.ofCommand(c).Some? && EqualFold(h.digest, digests.ofCommand(c).value)
  {
    hide EqualFold;
  }

  /** Writing a digest in other letter case changes no verdict. */
  lemma DigestCaseIsIgnored(digests: Digests, env: Envelope, digest: string)
    requires |digest| == |env.header.digest|
    requires forall i :: 0 <= i < |digest| ==>
      digest[i] == env.header.digest[i] || digest[i] == Lower(env.header.digest[i])
    ensures Violation(digests, env.(header := env.header.(digest := digest))) == Violation(digests, env)
  {
    hide RoundTo;
    assert ToLower(digest) == ToLower(env.header.digest);
    assert env.header.digest == "" <==> digest == "";
    hide ToLower, TelemetryError, CommandError, Telemetry.Normalized;
  }

  // ---------------------------------------------------------------- constructors

  datatype ConstructionError = InvalidTier | NoDigest

  /** `NewTelemetryEnvelope`; the clock supplies the time and with it the message ID. */
  function NewTelemetryEnvelope(digests: Digests, classification: string, origin: string, telemetry: Telemetry,
                                caveats: seq<string>, now: int, messageId: string)
    : Result<Envelope, ConstructionError>
  {
    if !ValidTier(classification) then Err(InvalidTier)
    else
      var t := telemetry.Normalized();
      match digests.ofTelemetry(t)
      case None => Err(NoDigest)
      case Some(digest) =>
        Ok(Envelope(SecurityHeader(classification, origin, now, messageId, digest, caveats), Some(t), None))
  }

  /** `NewCommandEnvelope`: the digest is taken before a missing issue time is filled in. */
  function NewCommandEnvelope(digests: Digests, classification: string, origin: string, command: Command,
                              caveats: seq<string>, now: int)
    : Result<Envelope, ConstructionError>
  {
    if !ValidTier(classification) then Err(InvalidTier)
    else
      match digests.ofCommand(command)
      case None => Err(NoDigest)
      case Some(digest) =>
        var stamped := if command.issuedAtNs == 0 then command.(issuedAtNs := now) else command;
        Ok(Envelope(SecurityHeader(classification, origin, now, command.commandId, digest, caveats),
                    None, Some(stamped)))
  }

  /** A constructed telemetry envelope validates exactly when its origin and identity fields are
      present and its rounded battery and position are in range. */
  lemma TelemetryEnvelopeValidExactly(digests: Digests, classification: string, origin: string, telemetry: Telemetry,
                                      caveats: seq<string>, now: int, messageId: string)
    requires digests.Sound() && now != 0
    ensures
      var r := NewTelemetryEnvelope(digests, classification, origin, telemetry, caveats, now, messageId);
      r.Ok? ==>
        (Violation(digests, r.value) == None <==>
          origin != "" && TelemetryError(telemetry.Normalized()) == None)
  {
    hide RoundTo;
    NormalizedIsNormal(telemetry);
    var d := digests.ofTelemetry(telemetry.Normalized());
    if d.Some? {
      HexIsLower(d.value);
    }
  }

  /** Exchanging the payload of a constructed telemetry envelope is noticed: it validates exactly when
      the new payload is, once normalised, the old one. */
  lemma AlteredTelemetryExactly(digests: Digests, classification: string, origin: string, telemetry: Telemetry,
                                caveats: seq<string>, now: int, messageId: string, other: Telemetry)
    requires digests.Sound() && digests.TelemetryCollisionFree() && now != 0
    ensures
      var r := NewTelemetryEnvelope(digests, classification, origin, telemetry, caveats, now, messageId);
      r.Ok? ==>
        (Violation(digests, r.value.(telemetry := Some(other))) == None <==>
          && origin != "" && TelemetryError(other.Normalized()) == None
          && other.Normalized() == telemetry.Normalized())
  {
    hide RoundTo, Telemetry.Normalized, TelemetryError;
    var d, e := digests.ofTelemetry(telemetry.Normalized()), digests.ofTelemetry(other.Normalized());
    if d.Some? {
      HexIsLower(d.value);
      if e.Some? {
        HexIsLower(e.value);
      }
    }
  }

  /** What is wrong with such an envelope, if its new payload is in order by itself. */
  lemma AlteredTelemetryIsMismatch(digests: Digests, classification: string, origin: string, telemetry: Telemetry,
                                   caveats: seq<string>, now: int, messageId: string, other: Telemetry)
    requires digests.Sound() && digests.TelemetryCollisionFree() && now != 0 && origin != ""
    requires TelemetryError(other.Normalized()) == None && other.Normalized() != telemetry.Normalized()
    requires digests.ofTelemetry(other.Normalized()).Some?
    ensures
      var r := NewTelemetryEnvelope(digests, classification, origin, telemetry, caveats, now, messageId);
      r.Ok? ==> Violation(digests, r.value.(telemetry := Some(other))) == Some(DigestMismatch)
  {
    hide RoundTo, Telemetry.Normalized, TelemetryError;
    AlteredTelemetryExactly(digests, classification, origin, telemetry, caveats, now, messageId, other);
    var d := digests.ofTelemetry(telemetry.Normalized());
    if d.Some? {
      HexIsLower(d.value);
    }
  }

  /** Exchanging the command of a constructed command envelope is noticed likewise; here even the issue
      time that the constructor fills in counts. */
  lemma AlteredCommandExactly(digests: Digests, classification: string, origin: string, command: Command,
                              caveats: seq<string>, now: int, other: Command)
    requires digests.Sound() && digests.CommandsCollisionFree() && now != 0
    ensures
      var r := NewCommandEnvelope(digests, classification, origin, command, caveats, now);
      r.Ok? ==>
        (Violation(digests, r.value.(command := Some(other))) == None <==>
          origin != "" && CommandError(other) == None && other == command)
  {
    hide CommandError;
    var d, e := digests.ofCommand(command), digests.ofCommand(other);
    if d.Some? {
      HexIsLower(d.value);
      if e.Some? {
        HexIsLower(e.value);
      }
    }
  }

  /** A constructed command envelope validates exactly when, besides, the caller stamped it: left to
      the constructor, the stamp comes after the digest and the digest no longer fits. */
  lemma CommandEnvelopeValidExactly(digests: Digests, classification: string, origin: string, command: Command,
                                    caveats: seq<string>, now: int)
    requires digests.Sound() && digests.CommandsCollisionFree() && now != 0
    ensures
      var r := NewCommandEnvelope(digests, classification, origin, command, caveats, now);
      r.Ok? ==>
        (Violation(digests, r.value) == None <==>
          origin != "" && CommandError(command) == None && command.issuedAtNs != 0)
  {
    hide CommandError, Violation, Digests.Sound, Digests.CommandsCollisionFree;
    var stamped := if command.issuedAtNs == 0 then command.(issuedAtNs := now) else command;
    AlteredCommandExactly(digests, classification, origin, command, caveats, now, stamped);
  }

  /** Both constructors keep the caller's classification, origin and caveats, stamp the clock's time,
      and name the message; the digest is taken of the normalised payload, or of the command as given. */
  lemma ConstructedHeader(digests: Digests, classification: string, origin: string, telemetry: Telemetry,
                          command: Command, caveats: seq<string>, now: int, messageId: string)
    ensures
      var t := NewTelemetryEnvelope(digests, classification, origin, telemetry, caveats, now, messageId);
      var c := NewCommandEnvelope(digests, classification, origin, command, caveats, now);
      && (t.Ok? <==> ValidTier(classification) && digests.ofTelemetry(telemetry.Normalized()).Some?)
      && (c.Ok? <==> ValidTier(classification) && digests.ofCommand(command).Some?)
      && (t.Ok? ==>
            var h := t.value.header;
            && h.classification == classification && h.originEnclave == origin && h.caveats == caveats
            && h.timestampNs == now && h.messageId == messageId
            && digests.ofTelemetry(telemetry.Normalized()) == Some(h.digest)
            && t.value.telemetry == Some(telemetry.Normalized()) && t.value.command == None)
      && (c.Ok? ==>
            var h, sent := c.value.header, c.value.command.value;
            && h.classification == classification && h.originEnclave == origin && h.caveats == caveats
            && h.timestampNs == now && h.messageId == command.commandId
            && digests.ofCommand(command) == Some(h.digest)
            && c.value.telemetry == None
            && sent == command.(issuedAtNs := sent.issuedAtNs)
            && sent.issuedAtNs == if command.issuedAtNs == 0 then now else command.issuedAtNs)
  {
    hide RoundTo;
  }
}
