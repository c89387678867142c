/** The cross-domain guard of cmd/cds-guard/main.go: parse, evaluate, redact, down-tag and publish,
  over whole runs of packets. */
module Guard {
  import opened Wrappers
  import opened Text
  import opened Schema
  import opened Policy
  import opened DeadLetter
  import Topic
  import Selector

  datatype Packet = Packet(key: string, raw: string)

  datatype Publication = Publication(key: string, payload: string)

  /** JSON parsing and printing of envelopes, as the caller supplies them. */
  datatype Codec = Codec(parse: string -> Option<Envelope>, marshal: Envelope -> Option<string>) {

    /** Printed sanitised envelopes parse back. */
    ghost predicate Faithful() {
      forall e: Envelope :: e.telemetry.Some? && e.telemetry.value.IsNormal() && e.command.None? && marshal(e).Some?
                  && (e.telemetry.value.mission.Some? ==> e.telemetry.value.mission.value == REDACTED_MISSION)
                  ==> parse(marshal(e).value) == Some(e)
    }
  }

  /** The guard's configuration. */
  datatype Setup = Setup(codec: Codec, digests: Digests, engine: PolicyEngine) {
    ghost predicate Sound() {
      codec.Faithful() && digests.Sound() && engine.decimals >= 1
    }
  }

  /** What becomes of one packet. A TIER-1 envelope without telemetry makes the source dereference a
      nil pointer, which ends the process. */
  datatype Outcome =
    | Malformed
    | Rejected(reason: Reason)
    | Passed
    | Redacted(publication: Option<Publication>)
    | RedactionFailed
    | Panicked

  /** The key a redacted packet is published on. */
  function EgressKey(sourceKey: string, vehicleId: string): string {
    match Topic.ParseKey(sourceKey)
    case Some(info) => Topic.BuildKey(info.(tierKey := "tier1"))
    case None => "sec/tier1/redacted/" + vehicleId
  }

  function Handled(setup: Setup, p: Packet): Outcome {
    match setup.codec.parse(p.raw)
    case None => Malformed
    case Some(env) =>
      var (action, reason) := setup.engine.Verdict(setup.digests, env);
      match action
      case Quarantine => Rejected(reason.value)
      case Pass => if env.telemetry.None? then Panicked else Passed
      case RedactPass =>
        match setup.engine.Sanitized(setup.digests, Revised(env))
        case None => RedactionFailed
        case Some(s) =>
          match setup.codec.marshal(s)
          case None => Redacted(None)
          case Some(payload) =>
            Redacted(Some(Publication(EgressKey(p.key, env.telemetry.value.vehicleId), payload)))
  }

  function Egress(setup: Setup, p: Packet): seq<Publication> {
    match Handled(setup, p)
    case Passed => [Publication(p.key, p.raw)]
    case Redacted(Some(publication)) => [publication]
    case _ => []
  }

  /** What a dead letter tells, apart from its time stamp, number and error text. */
  datatype Letter = Letter(topic: string, reason: Reason, enclave: string, classification: string, raw: string)

  function Filed(p: Packet, env: Envelope, reason: Reason): Letter {
    Letter(p.key, reason, env.header.originEnclave, env.header.classification, p.raw)
  }

  /** The dead letters that a packet leaves: one if it is quarantined. */
  function DeadLetters(setup: Setup, p: Packet): seq<Letter> {
    match setup.codec.parse(p.raw)
    case None => [Letter(p.key, MalformedJson, "unknown", "UNKNOWN", p.raw)]
    case Some(env) =>
      match Handled(setup, p)
      case Rejected(reason) => [Filed(p, env, reason)]
      case RedactionFailed => [Filed(p, env, UnknownViolation)]
      case _ => []
  }

  // ---------------------------------------------------------------- whole runs

  datatype Tally = Tally(
    ingressTotal: nat, passed: nat, redacted: nat, quarantined: nat,
    letters: seq<Letter>, published: seq<Publication>, crashed: bool)

  const START: Tally := Tally(0, 0, 0, 0, [], [], false)

  /** The effect of `ProcessPacket` on counters, dead letter queue and bus. */
  function Next(setup: Setup, s: Tally, p: Packet): Tally {
    if s.crashed then s
    else
      var t := s.(ingressTotal := s.ingressTotal + 1,
                  letters := s.letters + DeadLetters(setup, p), published := s.published + Egress(setup, p));
      match Handled(setup, p)
      case Malformed => t.(quarantined := s.quarantined + 1)
      case Rejected(_) => t.(quarantined := s.quarantined + 1)
      case Passed => t.(passed := s.passed + 1)
      case Redacted(_) => t.(redacted := s.redacted + 1)
      case RedactionFailed => t.(redacted := s.redacted + 1, quarantined := s.quarantined + 1)
      case Panicked => t.(passed := s.passed + 1, crashed := true)
  }

  function Run(setup: Setup, packets: seq<Packet>): Tally {
    if packets == [] then START
    else Next(setup, Run(setup, packets[..|packets| - 1]), packets[|packets| - 1])
  }

  function Letters(records: seq<Record>): (r: seq<Letter>)
    ensures |r| == |records|
  {
    seq(|records|, i requires 0 <= i < |records| =>
      var c := records[i];
      Letter(c.sourceTopic, c.reason, c.enclave, c.classification, c.rawPayload))
  }

  lemma LettersAppend(records: seq<Record>, c: Record)
    ensures
      Letters(records + [c])
      == Letters(records) + [Letter(c.sourceTopic, c.reason, c.enclave, c.classification, c.rawPayload)]
  {}

  class CDSGuard {
    const setup: Setup
    const dlq: DeadLetterQueue
    var ingressTotal: nat
    var passed: nat
    var redacted: nat
    var quarantined: nat
    /** Everything handed to the bus so far; the bus's own errors are only logged. */
    var published: seq<Publication>
    var crashed: bool

    constructor (setup: Setup, dlq: DeadLetterQueue)
      requires dlq.Valid() && dlq.history == []
      ensures this.setup == setup && this.dlq == dlq && View() == START
    {
      this.setup, this.dlq := setup, dlq;
      ingressTotal, passed, redacted, quarantined := 0, 0, 0, 0;
      published, crashed := [], false;
    }

    ghost function View(): Tally
      reads this, dlq
    {
      Tally(ingressTotal, passed, redacted, quarantined, Letters(dlq.history), published, crashed)
    }

    /** Count and store one quarantined packet. */
    method Isolate(sourceKey: string, reason: Reason, details: string, enclave: string, classification: string,
                   raw: string, now: int, written: bool)
      requires dlq.Valid()
      modifies this`quarantined, dlq
      ensures dlq.Valid()
      ensures
        var letter := Letter(sourceKey, reason, enclave, classification, raw);
        View() == old(View()).(quarantined := old(quarantined) + 1, letters := old(View()).letters + [letter])
    {
      hide Letters;
      quarantined := quarantined + 1;
      ghost var before := dlq.history;
      var rec := dlq.Quarantine(sourceKey, reason, details, enclave, classification, raw, now, written);
      LettersAppend(before, rec);
    }

    /** The redacting branch. */
    method Redact(sourceKey: string, env: SecurityEnvelope, raw: string, now: int, written: bool)
      requires dlq.Valid()
      modifies this, dlq
      ensures dlq.Valid()
      ensures View() == AfterRedaction(setup, old(View()), Packet(sourceKey, raw), env.Value())
    {
      hide PolicyEngine.Sanitized, EgressKey, PolicyEngine.Coarsened, Letters;
      redacted := redacted + 1;
      var sanitized := setup.engine.RedactAndSanitize(setup.digests, env);
      if sanitized.None? {
        Isolate(sourceKey, UnknownViolation, "redaction failure", env.header.originEnclave,
                env.header.classification, raw, now, written);
        return;
      }
      var payload := setup.codec.marshal(sanitized.value);
      if payload.None? {
        return;
      }
      SanitizedHasTelemetry(setup, env.Value());
      published := published + [Publication(EgressKey(sourceKey, env.telemetry.value.vehicleId), payload.value)];
    }

    method ProcessPacket(sourceKey: string, raw: string, now: int, written: bool)
      requires dlq.Valid()
      modifies this, dlq
      ensures dlq.Valid()
      ensures View() == Next(setup, old(View()), Packet(sourceKey, raw))
    {
      hide PolicyEngine.Sanitized, EgressKey, PolicyEngine.Verdict, AfterRedaction, Letters;
      NextByCases(setup, View(), Packet(sourceKey, raw));
      hide Next;
      if crashed {
        return;
      }
      ingressTotal := ingressTotal + 1;
      var parsed := setup.codec.parse(raw);
      if parsed.None? {
        Isolate(sourceKey, MalformedJson, "JSON unmarshal error", "unknown", "UNKNOWN", raw, now, written);
        return;
      }
      var env := new SecurityEnvelope(parsed.value);
      var action, reason := setup.engine.Evaluate(setup.digests, env);
      if action == Quarantine {
        Isolate(sourceKey, reason.value, "Policy violation", env.header.originEnclave,
                env.header.classification, raw, now, written);
      } else if action == Pass {
        passed := passed + 1;
        if env.telemetry.None? {
          crashed := true;
          return;
        }
        published := published + [Publication(sourceKey, raw)];
      } else {
        Redact(sourceKey, env, raw, now, written);
      }
    }
  }

  /** The redacting branch on values; env is the envelope as validation left it. */
  function AfterRedaction(setup: Setup, s: Tally, p: Packet, env: Envelope): Tally {
    var t := s.(redacted := s.redacted + 1);
    match setup.engine.Sanitized(setup.digests, env)
    case None => t.(quarantined := s.quarantined + 1, letters := s.letters + [Filed(p, env, UnknownViolation)])
    case Some(e) =>
      match setup.codec.marshal(e)
      case None => t
      case Some(payload) =>
        SanitizedHasTelemetry(setup, env);
        t.(published := s.published + [Publication(EgressKey(p.key, env.telemetry.value.vehicleId), payload)])
  }

  lemma SanitizedHasTelemetry(setup: Setup, env: Envelope)
    ensures setup.engine.Sanitized(setup.digests, env).Some? ==> env.telemetry.Some?
  {}

  lemma RevisedKeepsIdentity(env: Envelope)
    ensures Revised(env).telemetry.Some? == env.telemetry.Some?
    ensures env.telemetry.Some? ==> Revised(env).telemetry.value.vehicleId == env.telemetry.value.vehicleId
    ensures Revised(env).header == env.header
  {}

  lemma NextByCases(setup: Setup, s: Tally, p: Packet)
    ensures
      var next, t := Next(setup, s, p), s.(ingressTotal := s.ingressTotal + 1);
      if s.crashed then next == s
      else
        match setup.codec.parse(p.raw)
        case None =>
          var letter := Letter(p.key, MalformedJson, "unknown", "UNKNOWN", p.raw);
          next == t.(quarantined := s.quarantined + 1, letters := s.letters + [letter])
        case Some(env) =>
          var (action, reason) := setup.engine.Verdict(setup.digests, env);
          match action
          case Quarantine => reason.Some? &&
            next == t.(quarantined := s.quarantined + 1, letters := s.letters + [Filed(p, env, reason.value)])
          case Pass =>
            if env.telemetry.None? then next == t.(passed := s.passed + 1, crashed := true)
            else next == t.(passed := s.passed + 1, published := s.published + [Publication(p.key, p.raw)])
          case RedactPass => next == AfterRedaction(setup, t, p, Revised(env))
  {
    hide PolicyEngine.Sanitized, EgressKey, Violation;
    assert s.published + [] == s.published && s.letters + [] == s.letters;
    var parsed := setup.codec.parse(p.raw);
    if parsed.Some? {
      RevisedKeepsIdentity(parsed.value);
      SanitizedHasTelemetry(setup, Revised(parsed.value));
    }
    hide Revised;
  }

  /** The handler installed on the subscription to `sec/` `**`: already public keys and commands are
      not looked at. */
  predicate Admitted(key: string) {
    && Selector.Loop(Split("sec/**", '/'), Split(key, '/'))
    && !HasPrefix(key, "sec/tier1/")
    && !HasSuffix(key, "/command")
  }

  // ---------------------------------------------------------------- laws of single packets

  /** The keys that come through: those under sec/, and sec itself. */
  lemma AdmittedExactly(key: string)
    ensures Admitted(key) <==>
      && (key == "sec" || "sec/" <= key)
      && !("sec/tier1/" <= key) && !(|key| >= 8 && key[|key| - 8..] == "/command")
  {
    assert "sec/**" == "sec" + ['/'] + "**";
    SplitAt("sec", '/', "**");
    SplitOfFree("**", '/');
    SplitOfFree("sec", '/');
    FirstPartExactly("sec", '/', key);
    hide Split, Selector.Loop;
    SecLoop(Split(key, '/'));
  }

  lemma SecLoop(chunks: seq<string>)
    requires |chunks| > 0
    ensures Selector.Loop(["sec"] + ["**"], chunks) <==> chunks[0] == "sec"
  {
    assert (["sec"] + ["**"])[1..] == ["**"];
  }

  /** Keys the guard down-tags to lie under the public prefix, so its own subscription ignores them. */
  lemma EgressKeyIsPublic(sourceKey: string, vehicleId: string)
    ensures HasPrefix(EgressKey(sourceKey, vehicleId), "sec/tier1/")
    ensures !Admitted(EgressKey(sourceKey, vehicleId))
  {
    match Topic.ParseKey(sourceKey)
    case Some(info) => Topic.Tier1KeyPrefix(info.(tierKey := "tier1"));
    case None =>
  }

  /** Packets that come in under one key leave under one key, and if that key is not structured, then
      exactly those of one vehicle do. */
  lemma EgressKeysTellVehicles(sourceKey: string, vehicleId: string, other: string)
    ensures
      EgressKey(sourceKey, vehicleId) == EgressKey(sourceKey, other)
      <==> Topic.ParseKey(sourceKey).Some? || vehicleId == other
  {
    hide Topic.BuildKey, Topic.ParseKey;
    var prefix := "sec/tier1/redacted/";
    assert (prefix + vehicleId)[|prefix|..] == vehicleId && (prefix + other)[|prefix|..] == other;
  }

  /** Down-tagging a structured key changes its tier and its case, and nothing else of its address. */
  lemma EgressKeepsAddress(sourceKey: string, vehicleId: string)
    requires Topic.ParseKey(sourceKey).Some?
    ensures
      var info := Topic.ParseKey(sourceKey).value;
      Topic.ParseKey(EgressKey(sourceKey, vehicleId)) == Some(info.(tierKey := "tier1").Lowered())
  {
    Topic.ParsedIsClean(sourceKey);
    Topic.ParseBuildExactly(Topic.ParseKey(sourceKey).value.(tierKey := "tier1"));
    hide Topic.ParseKey, Topic.BuildKey;
  }

  /** The envelope a packet carries was valid and classified as given. */
  ghost predicate Carried(setup: Setup, p: Packet, classification: string) {
    match setup.codec.parse(p.raw)
    case None => false
    case Some(env) => Violation(setup.digests, env) == None && env.header.classification == classification
  }

  /** A publication that may leave: it parses to an envelope that is public and validates. */
  ghost predicate Releasable(setup: Setup, publication: Publication) {
    match setup.codec.parse(publication.payload)
    case None => false
    case Some(env) => Violation(setup.digests, env) == None && env.header.classification == TIER1_PUBLIC
  }

  /** A packet that leads to a publication was valid TIER-1, and then leaves as it came, or valid
      TIER-2, and then leaves under a public key; either way what leaves is releasable. What leaves
      comes back to the guard exactly in the first case. */
  lemma EgressIsSafe(setup: Setup, p: Packet, publication: Publication)
    requires setup.Sound() && publication in Egress(setup, p)
    ensures Releasable(setup, publication)
    ensures (Carried(setup, p, TIER1_PUBLIC) && publication == Publication(p.key, p.raw))
         || (Carried(setup, p, TIER2_RESTRICTED) && !Admitted(publication.key))
    ensures Admitted(p.key) ==> (Admitted(publication.key) <==> Carried(setup, p, TIER1_PUBLIC))
  {
    hide PolicyEngine.Sanitized, Violation, Revised, EgressKey, Admitted, PolicyEngine.Coarsened;
    var env := setup.codec.parse(p.raw).value;
    VerdictExactly(setup.engine, setup.digests, env);
    if Handled(setup, p).Redacted? {
      RedactedIsReleasable(setup, env);
      EgressKeyIsPublic(p.key, env.telemetry.value.vehicleId);
    }
  }

  lemma RedactedIsReleasable(setup: Setup, env: Envelope)
    requires setup.Sound() && setup.engine.Verdict(setup.digests, env).0 == RedactPass
    requires setup.engine.Sanitized(setup.digests, Revised(env)).Some?
    ensures env.telemetry.Some?
    ensures
      var s := setup.engine.Sanitized(setup.digests, Revised(env)).value;
      && Violation(setup.digests, s) == None
      && s.header.classification == TIER1_PUBLIC
      && (setup.codec.marshal(s).Some? ==> setup.codec.parse(setup.codec.marshal(s).value) == Some(s))
  {
    hide Violation, PolicyEngine.Verdict;
    RevisedKeepsIdentity(env);
    SanitizedHasTelemetry(setup, Revised(env));
    SanitizedIsValid(setup.engine, setup.digests, env);
    var s := setup.engine.Sanitized(setup.digests, Revised(env)).value;
    assert s.telemetry.Some? && s.command.None?;
    RevisedFixedIsNormal(setup.digests, s);
  }

  lemma RevisedFixedIsNormal(digests: Digests, s: Envelope)
    requires s.telemetry.Some? && Revised(s) == s && Violation(digests, s) == None
    ensures s.telemetry.value.IsNormal()
  {
    hide Rounding.RoundTo;
  }

  /** A valid TIER-3 packet, like any the guard isolates, leads to no publication. */
  lemma CriticalNeverLeaves(setup: Setup, p: Packet)
    requires Carried(setup, p, TIER3_CRITICAL)
    ensures Handled(setup, p) == Rejected(Tier3EgressProhibited)
    ensures Egress(setup, p) == []
  {
    hide Violation;
  }

  /** A packet that holds a constructed envelope with another payload put in is isolated, and leads to no
      publication; if the new payload is in order by itself, the dead letter names the digest. */
  lemma AlteredIsIsolated(setup: Setup, p: Packet, classification: string, origin: string, telemetry: Telemetry,
                          caveats: seq<string>, now: int, messageId: string, other: Telemetry)
    requires setup.digests.Sound() && setup.digests.TelemetryCollisionFree() && now != 0
    requires other.Normalized() != telemetry.Normalized()
    requires
      var made := NewTelemetryEnvelope(setup.digests, classification, origin, telemetry, caveats, now, messageId);
      made.Ok? && setup.codec.parse(p.raw) == Some(made.value.(telemetry := Some(other)))
    ensures Handled(setup, p).Rejected? && Egress(setup, p) == []
    ensures
      origin != "" && TelemetryError(other.Normalized()) == None
      && setup.digests.ofTelemetry(other.Normalized()).Some? ==>
        DeadLetters(setup, p) == [Letter(p.key, DigestCompromised, origin, classification, p.raw)]
  {
    hide Violation, Telemetry.Normalized, TelemetryError, Digests.Sound, Digests.TelemetryCollisionFree;
    AlteredTelemetryExactly(setup.digests, classification, origin, telemetry, caveats, now, messageId, other);
    if origin != "" && TelemetryError(other.Normalized()) == None
       && setup.digests.ofTelemetry(other.Normalized()).Some? {
      AlteredTelemetryIsMismatch(setup.digests, classification, origin, telemetry, caveats, now, messageId, other);
    }
  }

  // ---------------------------------------------------------------- laws of runs

  function AllEgress(setup: Setup, packets: seq<Packet>): seq<Publication> {
    if packets == [] then []
    else AllEgress(setup, packets[..|packets| - 1]) + Egress(setup, packets[|packets| - 1])
  }

  function AllDeadLetters(setup: Setup, packets: seq<Packet>): seq<Letter> {
    if packets == [] then []
    else AllDeadLetters(setup, packets[..|packets| - 1]) + DeadLetters(setup, packets[|packets| - 1])
  }

  /** How many packets have an outcome of a kind. */
  function Count(setup: Setup, packets: seq<Packet>, kind: Outcome -> bool): nat {
    if packets == [] then 0
    else Count(setup, packets[..|packets| - 1], kind) + if kind(Handled(setup, packets[|packets| - 1])) then 1 else 0
  }

  predicate IsPass(o: Outcome) { o == Passed || o == Panicked }

  predicate IsRedaction(o: Outcome) { o.Redacted? || o == RedactionFailed }

  predicate IsFailure(o: Outcome) { o == RedactionFailed }

  ghost predicate NonePanics(setup: Setup, packets: seq<Packet>) {
    forall p :: p in packets ==> Handled(setup, p) != Panicked
  }

  /** The process survives a run exactly when no packet in it is a valid TIER-1 envelope without
      telemetry. */
  lemma {:induction false} CrashExactly(setup: Setup, packets: seq<Packet>)
    ensures Run(setup, packets).crashed <==> !NonePanics(setup, packets)
  {
    hide Handled, Egress, DeadLetters;
    if packets != [] {
      var front, last := packets[..|packets| - 1], packets[|packets| - 1];
      CrashExactly(setup, front);
      assert packets == front + [last];
    }
  }

  lemma PanicExactly(setup: Setup, p: Packet)
    ensures Handled(setup, p) == Panicked <==>
      Carried(setup, p, TIER1_PUBLIC) && setup.codec.parse(p.raw).value.telemetry.None?
  {
    hide Violation, PolicyEngine.Sanitized, Revised, EgressKey;
    var parsed := setup.codec.parse(p.raw);
    if parsed.Some? {
      VerdictExactly(setup.engine, setup.digests, parsed.value);
    }
  }

  /** Such packets exist: any stamped and complete command in a TIER-1 envelope, as the constructor makes
      it, on a key that the guard admits. */
  lemma PublicCommandPanics(setup: Setup, origin: string, command: Command, caveats: seq<string>, now: int, raw: string)
    requires setup.digests.Sound() && now != 0 && origin != ""
    requires CommandError(command) == None && command.issuedAtNs != 0
    requires
      var made := NewCommandEnvelope(setup.digests, TIER1_PUBLIC, origin, command, caveats, now);
      made.Ok? && setup.codec.parse(raw) == Some(made.value)
    ensures
      var p := Packet("sec/x", raw);
      Admitted(p.key) && Handled(setup, p) == Panicked && Run(setup, [p]).crashed
  {
    var p := Packet("sec/x", raw);
    HexIsLower(setup.digests.ofCommand(command).value);
    PanicExactly(setup, p);
    hide Handled, NewCommandEnvelope, Violation;
    PlainKeyIsAdmitted();
    assert [p][..0] == [];
    assert Run(setup, [p]) == Next(setup, START, p);
  }

  lemma PlainKeyIsAdmitted()
    ensures Admitted("sec/x")
  {
    AdmittedExactly("sec/x");
    assert "sec/x"[4] == 'x' && "sec/tier1/"[4] == 't';
    hide Admitted;
  }

  /** What becomes of a packet, read off what it carries. */
  lemma OutcomeExactly(setup: Setup, p: Packet)
    ensures
      var env, outcome := setup.codec.parse(p.raw), Handled(setup, p);
      var public, restricted := Carried(setup, p, TIER1_PUBLIC), Carried(setup, p, TIER2_RESTRICTED);
      && (outcome == Malformed <==> env.None?)
      && (IsPass(outcome) <==> public)
      && (IsRedaction(outcome) <==> restricted)
      && (IsFailure(outcome) <==> restricted && setup.engine.Sanitized(setup.digests, Revised(env.value)).None?)
      && (outcome.Rejected? <==> env.Some? && !public && !restricted)
  {
    hide Violation, PolicyEngine.Sanitized, Revised, EgressKey;
    var parsed := setup.codec.parse(p.raw);
    if parsed.Some? {
      VerdictExactly(setup.engine, setup.digests, parsed.value);
    }
  }

  /** A dead letter names its packet and why it was held back. */
  lemma LetterNamesPacket(setup: Setup, p: Packet, letter: Letter)
    requires letter in DeadLetters(setup, p)
    ensures letter.topic == p.key && letter.raw == p.raw
    ensures
      match setup.codec.parse(p.raw)
      case None => letter.reason == MalformedJson && letter.enclave == "unknown" && letter.classification == "UNKNOWN"
      case Some(env) =>
        && letter.enclave == env.header.originEnclave && letter.classification == env.header.classification
        && (IsFailure(Handled(setup, p)) ==> letter.reason == UnknownViolation)
        && (!IsFailure(Handled(setup, p)) ==> Handled(setup, p) == Rejected(letter.reason))
  {
    hide PolicyEngine.Sanitized, PolicyEngine.Verdict, Revised, EgressKey;
  }

  /** Every packet that does not crash the guard leaves exactly one trace, a publication or a dead letter,
      unless its sanitised form cannot be printed: then it leaves none and yet counts as redacted. */
  lemma TracedExactly(setup: Setup, p: Packet)
    requires Handled(setup, p) != Panicked
    ensures |Egress(setup, p)| + |DeadLetters(setup, p)| == if Handled(setup, p) == Redacted(None) then 0 else 1
    ensures
      Handled(setup, p) == Redacted(None) <==>
        && Carried(setup, p, TIER2_RESTRICTED)
        && var s := setup.engine.Sanitized(setup.digests, Revised(setup.codec.parse(p.raw).value));
           s.Some? && setup.codec.marshal(s.value).None?
  {
    OutcomeExactly(setup, p);
    hide Violation, PolicyEngine.Sanitized, Revised, EgressKey;
  }

  lemma OneLetterEach(setup: Setup, p: Packet)
    ensures
      var h := Handled(setup, p);
      |DeadLetters(setup, p)| == if h.Malformed? || h.Rejected? || h.RedactionFailed? then 1 else 0
  {
    hide PolicyEngine.Sanitized, PolicyEngine.Verdict, Revised, EgressKey;
  }

  /** Over a run without a crash: every packet is counted under its outcome, every quarantine is one dead
      letter, the counters balance up to the packets whose redaction failed (counted as redacted and as
      quarantined), and the dead letters and publications are those of the packets, in order. */
  lemma {:induction false} RunBalances(setup: Setup, packets: seq<Packet>)
    requires NonePanics(setup, packets)
    ensures
      var s := Run(setup, packets);
      && s.ingressTotal == |packets|
      && s.quarantined == |s.letters|
      && s.letters == AllDeadLetters(setup, packets)
      && s.passed == Count(setup, packets, IsPass)
      && s.redacted == Count(setup, packets, IsRedaction)
      && s.passed + s.redacted + s.quarantined == s.ingressTotal + Count(setup, packets, IsFailure)
      && s.published == AllEgress(setup, packets)
  {
    hide Handled, Egress, DeadLetters;
    CrashExactly(setup, packets);
    if packets != [] {
      var front, last := packets[..|packets| - 1], packets[|packets| - 1];
      assert forall p :: p in front ==> p in packets;
      RunBalances(setup, front);
      CrashExactly(setup, front);
      OneLetterEach(setup, last);
    }
  }

  lemma {:induction false} PublicationHasSource(setup: Setup, packets: seq<Packet>, publication: Publication)
    requires publication in Run(setup, packets).published
    ensures exists p :: p in packets && publication in Egress(setup, p)
  {
    hide Handled, Egress;
    var front, last := packets[..|packets| - 1], packets[|packets| - 1];
    if publication in Run(setup, front).published {
      PublicationHasSource(setup, front, publication);
      var p :| p in front && publication in Egress(setup, p);
      assert p in packets;
    } else {
      assert last in packets && publication in Egress(setup, last);
    }
  }

  /** Safety of whole runs, crashed or not: whatever has been published is releasable and comes from a
      packet that was valid TIER-1 or TIER-2, never from any other. */
  lemma RunIsSafe(setup: Setup, packets: seq<Packet>, publication: Publication)
    requires setup.Sound() && publication in Run(setup, packets).published
    ensures Releasable(setup, publication)
    ensures exists p :: p in packets && publication in Egress(setup, p) &&
              (Carried(setup, p, TIER1_PUBLIC) || (Carried(setup, p, TIER2_RESTRICTED) && !Admitted(publication.key)))
  {
    hide Handled, Egress, Run, Carried, Releasable, Admitted;
    PublicationHasSource(setup, packets, publication);
    var p :| p in packets && publication in Egress(setup, p);
    EgressIsSafe(setup, p, publication);
  }

  function WithoutCritical(setup: Setup, packets: seq<Packet>): seq<Packet> {
    if packets == [] then []
    else
      var front, last := WithoutCritical(setup, packets[..|packets| - 1]), packets[|packets| - 1];
      if Handled(setup, last) == Rejected(Tier3EgressProhibited) then front else front + [last]
  }

  lemma {:induction false} CriticalLeavesNoTrace(setup: Setup, packets: seq<Packet>)
    ensures AllEgress(setup, packets) == AllEgress(setup, WithoutCritical(setup, packets))
  {
    if packets != [] {
      var front, last := packets[..|packets| - 1], packets[|packets| - 1];
      CriticalLeavesNoTrace(setup, front);
      var kept := WithoutCritical(setup, front);
      assert (kept + [last])[..|kept|] == kept;
      RejectedSendsNothing(setup, last);
      hide Handled, Egress;
    }
  }

  lemma RejectedSendsNothing(setup: Setup, p: Packet)
    ensures Handled(setup, p).Rejected? ==> Egress(setup, p) == []
  {
    hide Handled;
  }

  lemma {:induction false} CriticalNeverPanics(setup: Setup, packets: seq<Packet>)
    ensures NonePanics(setup, WithoutCritical(setup, packets)) <==> NonePanics(setup, packets)
  {
    hide Handled;
    if packets != [] {
      var front, last := packets[..|packets| - 1], packets[|packets| - 1];
      CriticalNeverPanics(setup, front);
      assert packets == front + [last];
    }
  }

  /** Two runs that agree once their TIER-3 packets are struck out publish the same, whatever those
      packets contained and however many there were. */
  lemma CriticalIsInvisible(setup: Setup, a: seq<Packet>, b: seq<Packet>)
    requires WithoutCritical(setup, a) == WithoutCritical(setup, b)
    requires NonePanics(setup, a)
    ensures NonePanics(setup, b)
    ensures Run(setup, a).published == Run(setup, b).published
  {
    hide Handled, Egress, Run;
    CriticalLeavesNoTrace(setup, a);
    CriticalLeavesNoTrace(setup, b);
    CriticalNeverPanics(setup, a);
    CriticalNeverPanics(setup, b);
    RunBalances(setup, a);
    RunBalances(setup, b);
  }

  // ---------------------------------------------------------------- what publications reveal

  /** The packet is redacted and its sanitised form goes out. */
  predicate Sanitizes(setup: Setup, p: Packet) {
    Handled(setup, p).Redacted? && Handled(setup, p).publication.Some?
  }

  lemma SanitizesFacts(setup: Setup, p: Packet)
    requires Sanitizes(setup, p)
    ensures setup.codec.parse(p.raw).Some?
    ensures
      var env := setup.codec.parse(p.raw).value;
      && env.telemetry.Some? && Revised(env).telemetry.Some?
      && setup.engine.Verdict(setup.digests, env).0 == RedactPass
      && setup.engine.Sanitized(setup.digests, Revised(env)).Some?
      && setup.codec.marshal(setup.engine.Sanitized(setup.digests, Revised(env)).value).Some?
      && Egress(setup, p) == [Publication(
           EgressKey(p.key, env.telemetry.value.vehicleId),
           setup.codec.marshal(setup.engine.Sanitized(setup.digests, Revised(env)).value).value)]
  {
    var env := setup.codec.parse(p.raw).value;
    RevisedKeepsIdentity(env);
    SanitizedHasTelemetry(setup, Revised(env));
    hide PolicyEngine.Sanitized, PolicyEngine.Verdict, Revised, EgressKey;
  }

  /** Two packets would go out under one key and agree on everything that may show. */
  ghost predicate Alike(setup: Setup, p: Packet, q: Packet)
    requires Sanitizes(setup, p) && Sanitizes(setup, q)
  {
    SanitizesFacts(setup, p);
    SanitizesFacts(setup, q);
    var a, b := setup.codec.parse(p.raw).value, setup.codec.parse(q.raw).value;
    && EgressKey(p.key, a.telemetry.value.vehicleId) == EgressKey(q.key, b.telemetry.value.vehicleId)
    && LowEquivalent(setup.engine, Revised(a), Revised(b))
  }

  /** Two sanitised packets are published alike, key and bytes, exactly if they are alike: exact
      positions, mission contents and original digests never show, and nothing else is hidden. */
  lemma PublishedAlikeExactly(setup: Setup, p: Packet, q: Packet)
    requires setup.Sound() && Sanitizes(setup, p) && Sanitizes(setup, q)
    ensures Egress(setup, p) == Egress(setup, q) <==> Alike(setup, p, q)
  {
    SanitizesFacts(setup, p);
    SanitizesFacts(setup, q);
    var a, b := setup.codec.parse(p.raw).value, setup.codec.parse(q.raw).value;
    hide Handled, Egress, PolicyEngine.Sanitized, PolicyEngine.Verdict, Revised, EgressKey, LowEquivalent, Violation;
    SanitizerHidesExactly(setup.engine, setup.digests, Revised(a), Revised(b));
    RedactedIsReleasable(setup, a);
    RedactedIsReleasable(setup, b);
  }

  /** The packets are the same, or sanitised and alike. */
  ghost predicate Interchangeable(setup: Setup, p: Packet, q: Packet) {
    p == q || (Sanitizes(setup, p) && Sanitizes(setup, q) && Alike(setup, p, q))
  }

  lemma InterchangeableEgress(setup: Setup, p: Packet, q: Packet)
    requires setup.Sound() && Interchangeable(setup, p, q)
    ensures Egress(setup, p) == Egress(setup, q)
    ensures Handled(setup, p) == Panicked <==> Handled(setup, q) == Panicked
  {
    if p != q {
      PublishedAlikeExactly(setup, p, q);
    }
    hide Handled, Egress, Alike;
  }

  lemma {:induction false} InterchangeableEgresses(setup: Setup, a: seq<Packet>, b: seq<Packet>)
    requires setup.Sound() && |a| == |b| && forall i :: 0 <= i < |a| ==> Interchangeable(setup, a[i], b[i])
    ensures AllEgress(setup, a) == AllEgress(setup, b)
    ensures NonePanics(setup, a) ==> NonePanics(setup, b)
  {
    hide Handled, Egress, Interchangeable;
    if a != [] {
      var front, last := a[..|a| - 1], a[|a| - 1];
      InterchangeableEgresses(setup, front, b[..|b| - 1]);
      InterchangeableEgress(setup, last, b[|b| - 1]);
      assert a == front + [last] && b == b[..|b| - 1] + [b[|b| - 1]];
    }
  }

  /** Runs of pairwise interchangeable packets publish the same, key for key and byte for byte. */
  lemma InterchangeableRunsPublishAlike(setup: Setup, a: seq<Packet>, b: seq<Packet>)
    requires setup.Sound() && NonePanics(setup, a)
    requires |a| == |b| && forall i :: 0 <= i < |a| ==> Interchangeable(setup, a[i], b[i])
    ensures NonePanics(setup, b)
    ensures Run(setup, a).published == Run(setup, b).published
  {
    hide Handled, Egress, Run, Interchangeable;
    InterchangeableEgresses(setup, a, b);
    RunBalances(setup, a);
    RunBalances(setup, b);
  }
}
