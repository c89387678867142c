/** Structured keys: pkg/zenohutil/topic.go. */
module Topic {
  import opened Wrappers
  import opened Text
  import opened Schema

  datatype TopicInfo = TopicInfo(
    tierKey: string, vehicleType: string, team: string, unitId: string, streamType: string)
  {
    function Lowered(): TopicInfo {
      TopicInfo(ToLower(tierKey), ToLower(vehicleType), ToLower(team), ToLower(unitId), ToLower(streamType))
    }

    function Parts(): (p: seq<string>)
      ensures |p| == 6
    {
      ["sec", tierKey, vehicleType, team, unitId, streamType]
    }
  }

  function TierToKey(classification: string): Option<string> {
    if classification == TIER1_PUBLIC then Some("tier1")
    else if classification == TIER2_RESTRICTED then Some("tier2")
    else if classification == TIER3_CRITICAL then Some("tier3")
    else None
  }

  function KeyToTier(key: string): Option<string> {
    if key == "tier1" then Some(TIER1_PUBLIC)
    else if key == "tier2" then Some(TIER2_RESTRICTED)
    else if key == "tier3" then Some(TIER3_CRITICAL)
    else None
  }

  /** `BuildKey`. */
  function BuildKey(t: TopicInfo): string {
    var l := t.Lowered();
    "sec" + "/" + (l.tierKey + "/" + (l.vehicleType + "/" + (l.team + "/" + (l.unitId + "/" + l.streamType))))
  }

  function BuildTelemetryKey(classification: string, vehicleType: string, team: string, unitId: string)
    : Option<string>
  {
    match TierToKey(classification)
    case None => None
    case Some(tierKey) => Some(BuildKey(TopicInfo(tierKey, vehicleType, team, unitId, "telemetry")))
  }

  /** `ParseKey`. */
  function ParseKey(key: string): Option<TopicInfo> {
    var parts := Split(Trim(key, '/'), '/');
    if |parts| != 6 || parts[0] != "sec" then None
    else Some(TopicInfo(parts[1], parts[2], parts[3], parts[4], parts[5]))
  }

  // ---------------------------------------------------------------- laws

  lemma BuildKeyIsJoin(t: TopicInfo)
    ensures BuildKey(t) == Join(t.Lowered().Parts(), '/')
  {
    var p := t.Lowered().Parts();
    assert p[1..][1..] == p[2..] && p[2..][1..] == p[3..] && p[3..][1..] == p[4..] && p[4..][1..] == p[5..];
    assert Join(p[5..], '/') == p[5];
    assert Join(p[4..], '/') == p[4] + "/" + p[5];
    assert Join(p[3..], '/') == p[3] + "/" + (p[4] + "/" + p[5]);
    assert Join(p[2..], '/') == p[2] + "/" + (p[3] + "/" + (p[4] + "/" + p[5]));
    assert Join(p[1..], '/') == p[1] + "/" + (p[2] + "/" + (p[3] + "/" + (p[4] + "/" + p[5])));
  }

  lemma LowerKeepsSlash(s: string)
    ensures '/' in ToLower(s) <==> '/' in s
  {
    if '/' in s {
      var i :| 0 <= i < |s| && s[i] == '/';
      assert ToLower(s)[i] == '/';
    }
  }

  ghost predicate SlashFree(t: TopicInfo) {
    && '/' !in t.tierKey && '/' !in t.vehicleType && '/' !in t.team && '/' !in t.unitId && '/' !in t.streamType
  }

  lemma SlashFreeParts(t: TopicInfo)
    ensures AllFree(t.Lowered().Parts(), '/') <==> SlashFree(t)
  {
    LowerKeepsSlash(t.tierKey);
    LowerKeepsSlash(t.vehicleType);
    LowerKeepsSlash(t.team);
    LowerKeepsSlash(t.unitId);
    LowerKeepsSlash(t.streamType);
    var p := t.Lowered().Parts();
    if AllFree(p, '/') {
      assert '/' !in p[1] && '/' !in p[2] && '/' !in p[3] && '/' !in p[4] && '/' !in p[5];
    }
  }

  /** A built key parses back to its lower-cased fields exactly when no field holds a slash and the
      stream type is not empty. */
  lemma ParseBuildExactly(t: TopicInfo)
    ensures ParseKey(BuildKey(t)) == Some(t.Lowered()) <==> SlashFree(t) && t.streamType != ""
  {
    hide BuildKey, Split, Trim, Join, ToLower, SlashFree;
    var key, parts := BuildKey(t), t.Lowered().Parts();
    BuildKeyIsJoin(t);
    SlashFreeParts(t);
    BuiltKeyEnds(t);
    var trimmed := Trim(key, '/');
    SplitIsFree(trimmed, '/');
    JoinSplit(trimmed, '/');
    SplitJoinExactly(parts, '/');
    if ParseKey(key) == Some(t.Lowered()) {
      assert Split(trimmed, '/') == parts;
    }
  }

  lemma BuiltKeyEnds(t: TopicInfo)
    ensures
      var key := BuildKey(t);
      && (t.streamType == "" ==> Trim(key, '/') != key)
      && (SlashFree(t) && t.streamType != "" ==> Trim(key, '/') == key)
  {
    var key, last := BuildKey(t), ToLower(t.streamType);
    assert key[0] == 's';
    assert TrimLeft(key, '/') == key;
    TrimRightShrinks(key, '/');
    if t.streamType == "" {
      assert key[|key| - 1] == '/';
    } else {
      LowerKeepsSlash(t.streamType);
      assert key[|key| - 1] == last[|last| - 1];
      assert SlashFree(t) ==> last[|last| - 1] in last && last[|last| - 1] != '/';
    }
  }

  lemma {:induction false} TrimRightShrinks(s: string, c: char)
    ensures |TrimRight(s, c)| <= |s|
    ensures s != [] && s[|s| - 1] == c ==> |TrimRight(s, c)| < |s|
    ensures s != [] && s[|s| - 1] != c ==> TrimRight(s, c) == s
  {
    if s != [] && s[|s| - 1] == c {
      TrimRightShrinks(s[..|s| - 1], c);
    }
  }

  lemma {:induction false} TrimRightEnds(s: string, c: char)
    ensures TrimRight(s, c) != [] ==> TrimRight(s, c)[|TrimRight(s, c)| - 1] != c
  {
    if s != [] && s[|s| - 1] == c {
      TrimRightEnds(s[..|s| - 1], c);
    }
  }

  lemma {:induction false} LastPart(s: string, c: char)
    requires s != [] && s[|s| - 1] != c
    ensures var parts := Split(s, c); parts[|parts| - 1] != ""
  {
    if |s| > 1 {
      assert s[1..][|s[1..]| - 1] == s[|s| - 1];
      LastPart(s[1..], c);
    }
  }

  /** A key that parses has slash-free fields and a stream type, so it can be built anew. */
  lemma ParsedIsClean(key: string)
    requires ParseKey(key).Some?
    ensures SlashFree(ParseKey(key).value) && ParseKey(key).value.streamType != ""
  {
    var trimmed := Trim(key, '/');
    TrimRightEnds(TrimLeft(key, '/'), '/');
    SplitIsFree(trimmed, '/');
    LastPart(trimmed, '/');
    hide Split, Trim;
    var parts := Split(trimmed, '/');
    assert '/' !in parts[1] && '/' !in parts[2] && '/' !in parts[3] && '/' !in parts[4] && '/' !in parts[5];
  }

  /** A key parses to given fields exactly when, without the slashes around it, it is those fields behind
      sec, joined by slashes, and none of them holds one. */
  lemma ParseExactly(key: string, t: TopicInfo)
    ensures ParseKey(key) == Some(t) <==> Trim(key, '/') == Join(t.Parts(), '/') && SlashFree(t)
  {
    var trimmed := Trim(key, '/');
    var parts := Split(trimmed, '/');
    hide Split, Trim, Join;
    SplitIsFree(trimmed, '/');
    JoinSplit(trimmed, '/');
    SplitJoinExactly(t.Parts(), '/');
    PartsFree(t);
    if ParseKey(key) == Some(t) {
      assert parts == t.Parts();
    }
  }

  lemma PartsFree(t: TopicInfo)
    ensures AllFree(t.Parts(), '/') <==> SlashFree(t)
  {
    var p := t.Parts();
    if AllFree(p, '/') {
      assert '/' !in p[1] && '/' !in p[2] && '/' !in p[3] && '/' !in p[4] && '/' !in p[5];
    }
  }

  /** Slashes around a key do not matter. */
  lemma OuterSlashesAreIgnored(key: string)
    ensures ParseKey("/" + key) == ParseKey(key) == ParseKey(key + "/")
  {
    hide Split, TrimRight;
    TrimLeftOfSnoc(key, '/');
    TrimRightOfSnoc(TrimLeft(key, '/'), '/');
    assert ("/" + key)[1..] == key;
  }

  lemma {:induction false} TrimLeftOfSnoc(s: string, c: char)
    ensures TrimLeft(s + [c], c) == if TrimLeft(s, c) == "" then "" else TrimLeft(s, c) + [c]
  {
    if s == [] {
      assert (s + [c])[1..] == [];
    } else {
      assert (s + [c])[1..] == s[1..] + [c];
      TrimLeftOfSnoc(s[1..], c);
    }
  }

  lemma TrimRightOfSnoc(s: string, c: char)
    ensures TrimRight(s + [c], c) == TrimRight(s, c)
  {
    assert (s + [c])[..|s|] == s;
  }

  /** The two tier tables are inverse to each other, and number the tiers. */
  lemma TierTablesInverse(classification: string, key: string)
    ensures TierToKey("TIER-1: PUBLIC") == Some("tier1")
    ensures TierToKey("TIER-2: RESTRICTED") == Some("tier2") && TierToKey("TIER-3: CRITICAL") == Some("tier3")
    ensures TierToKey(classification) == Some(key) <==> KeyToTier(key) == Some(classification)
    ensures TierToKey(classification).Some? <==> ValidTier(classification)
  {}

  /** A telemetry key is built for exactly the three tiers; it names tier, type, team and unit in this
      order, and its parsed tier is the classification it was built for, unless a field holds a slash. */
  lemma TelemetryKeyNamesItsTier(classification: string, vehicleType: string, team: string, unitId: string)
    ensures BuildTelemetryKey(classification, vehicleType, team, unitId).Some? <==> ValidTier(classification)
    ensures ValidTier(classification) ==>
      var key := BuildTelemetryKey(classification, vehicleType, team, unitId).value;
      && "sec/" <= key
      && key[4..] == TierToKey(classification).value + "/" + ToLower(vehicleType) + "/" + ToLower(team) + "/"
                     + ToLower(unitId) + "/" + "telemetry"
    ensures ValidTier(classification) && '/' !in vehicleType && '/' !in team && '/' !in unitId ==>
      var info := ParseKey(BuildTelemetryKey(classification, vehicleType, team, unitId).value);
      && info.Some? && KeyToTier(info.value.tierKey) == Some(classification)
      && info == Some(TopicInfo(info.value.tierKey, ToLower(vehicleType), ToLower(team), ToLower(unitId), "telemetry"))
  {
    hide ParseKey, BuildKey, ToLower;
    TierTablesInverse(classification, if ValidTier(classification) then TierToKey(classification).value else "");
    if ValidTier(classification) {
      var tierKey := TierToKey(classification).value;
      var info := TopicInfo(tierKey, vehicleType, team, unitId, "telemetry");
      ParseBuildExactly(info);
      TierKeyIsPlain(classification);
      TelemetryIsPlain();
      KeyBehindSec(info);
    }
  }

  lemma KeyBehindSec(t: TopicInfo)
    ensures "sec/" <= BuildKey(t)
    ensures
      var l := t.Lowered();
      BuildKey(t)[4..] == l.tierKey + "/" + l.vehicleType + "/" + l.team + "/" + l.unitId + "/" + l.streamType
  {
    hide ToLower;
  }

  lemma TierKeyIsPlain(classification: string)
    requires TierToKey(classification).Some?
    ensures ToLower(TierToKey(classification).value) == TierToKey(classification).value
    ensures '/' !in TierToKey(classification).value
  {}

  lemma TelemetryIsPlain()
    ensures ToLower("telemetry") == "telemetry"
  {}

  /** Keys built for the public tier lie under its prefix. */
  lemma Tier1KeyPrefix(t: TopicInfo)
    requires t.tierKey == "tier1"
    ensures HasPrefix(BuildKey(t), "sec/tier1/")
  {
    assert ToLower("tier1") == "tier1";
  }
}
