/** Telemetry intake of the command gateway, cmd/c2-gateway/main.go: the feedback filter, the fleet
  table with its breadcrumb trails, and the hand-over to the data mule.

  JSON parsing and the clock are supplied by the caller. */
module Gateway {
  import opened Wrappers
  import opened Text
  import opened Windows
  import opened Schema
  import DataMule

  const MAX_POINTS: nat := 50

  datatype Tracked = Tracked(telemetry: Telemetry, header: SecurityHeader, lastSeen: int, trackPoints: seq<Coordinates>)

  type Fleet = map<string, Tracked>

  datatype Delivery = Delivery(key: string, payload: string, now: int)

  datatype Sighting = Sighting(telemetry: Telemetry, header: SecurityHeader, now: int)

  /** What a delivery tells about a vehicle; nothing if it is bound upstream, malformed or no telemetry. */
  function Heard(parse: string -> Option<Envelope>, d: Delivery): Option<Sighting> {
    if HasPrefix(d.key, "upstream/") || HasPrefix(d.key, "cloud/") then None
    else
      match parse(d.payload)
      case None => None
      case Some(env) =>
        if env.telemetry.None? then None else Some(Sighting(env.telemetry.value, env.header, d.now))
  }

  /** Append a point, then drop the oldest beyond 50. */
  function Extended(points: seq<Coordinates>, point: Coordinates): seq<Coordinates> {
    var longer := points + [point];
    if |longer| > MAX_POINTS then longer[1..] else longer
  }

  function Recorded(fleet: Fleet, g: Sighting): Fleet {
    var id := g.telemetry.vehicleId;
    var points := if id in fleet then fleet[id].trackPoints else [];
    fleet[id := Tracked(g.telemetry, g.header, g.now, Extended(points, g.telemetry.coordinates))]
  }

  function Noted(parse: string -> Option<Envelope>, fleet: Fleet, d: Delivery): Fleet {
    match Heard(parse, d)
    case None => fleet
    case Some(g) => Recorded(fleet, g)
  }

  function FleetAfter(parse: string -> Option<Envelope>, history: seq<Delivery>): Fleet {
    if history == [] then map[]
    else Noted(parse, FleetAfter(parse, history[..|history| - 1]), history[|history| - 1])
  }

  class Gateway {
    const parse: string -> Option<Envelope>
    const mule: DataMule.DataMule?
    var fleet: map<string, Tracked>
    var broadcast: seq<string>

    constructor (parse: string -> Option<Envelope>, mule: DataMule.DataMule?)
      ensures this.parse == parse && this.mule == mule && fleet == map[] && broadcast == []
    {
      this.parse, this.mule := parse, mule;
      fleet, broadcast := map[], [];
    }

    /** A refused delivery reaches neither the mule nor the fleet table nor the dashboards. */
    method HandleTelemetry(key: string, payload: string, now: int, written: bool)
      requires mule != null ==> mule.Valid()
      modifies this, mule, if mule == null then null else mule.upstreamBus
      ensures mule != null ==> mule.Valid()
      ensures fleet == Noted(parse, old(fleet), Delivery(key, payload, now))
      ensures
        var heard := Heard(parse, Delivery(key, payload, now)).Some?;
        && broadcast == old(broadcast) + (if heard then [payload] else [])
        && (mule != null ==>
              mule.history == old(mule.history) + if heard then [DataMule.Packet(key, payload)] else [])
    {
      hide HasPrefix, DataMule.DataMule.Valid, DataMule.Ingested;
      if HasPrefix(key, "upstream/") || HasPrefix(key, "cloud/") {
        return;
      }
      var env := parse(payload);
      if env.None? || env.value.telemetry.None? {
        return;
      }
      if mule != null {
        var _ := mule.Ingest(key, payload, now, written);
      }
      var t := env.value.telemetry.value;
      var points := if t.vehicleId in fleet then fleet[t.vehicleId].trackPoints else [];
      points := points + [t.coordinates];
      if |points| > MAX_POINTS {
        points := points[1..];
      }
      fleet := fleet[t.vehicleId := Tracked(t, env.value.header, now, points)];
      broadcast := broadcast + [payload];
    }
  }

  /** Bound upstream, malformed or without telemetry: exactly such deliveries are refused, and any other
      is taken as it came. */
  lemma HeardExactly(parse: string -> Option<Envelope>, d: Delivery)
    ensures
      Heard(parse, d) == None <==>
        || "upstream/" <= d.key || "cloud/" <= d.key
        || parse(d.payload) == None || parse(d.payload).value.telemetry == None
    ensures Heard(parse, d).Some? ==>
      var env, g := parse(d.payload).value, Heard(parse, d).value;
      env.telemetry == Some(g.telemetry) && env.header == g.header && d.now == g.now
  {}

  // ---------------------------------------------------------------- the table and the history

  /** The accepted sightings of one vehicle, in order. */
  function SightingsOf(parse: string -> Option<Envelope>, history: seq<Delivery>, id: string): seq<Sighting> {
    if history == [] then []
    else
      var earlier := SightingsOf(parse, history[..|history| - 1], id);
      match Heard(parse, history[|history| - 1])
      case None => earlier
      case Some(g) => if g.telemetry.vehicleId == id then earlier + [g] else earlier
  }

  function Points(sightings: seq<Sighting>): (points: seq<Coordinates>)
    ensures |points| == |sightings|
    ensures forall i :: 0 <= i < |points| ==> points[i] == sightings[i].telemetry.coordinates
  {
    seq(|sightings|, i requires 0 <= i < |sightings| => sightings[i].telemetry.coordinates)
  }

  lemma ExtendedIsWindow(points: seq<Coordinates>, point: Coordinates)
    ensures Extended(LastN(points, MAX_POINTS), point) == LastN(points + [point], MAX_POINTS)
  {}

  lemma PointsAppend(sightings: seq<Sighting>, g: Sighting)
    ensures Points(sightings + [g]) == Points(sightings) + [g.telemetry.coordinates]
  {}

  /** The row of a vehicle, as its sightings determine it. */
  ghost predicate RowIs(fleet: Fleet, id: string, sightings: seq<Sighting>) {
    && (id in fleet <==> sightings != [])
    && (id in fleet ==>
          var last := sightings[|sightings| - 1];
          fleet[id] == Tracked(last.telemetry, last.header, last.now, LastN(Points(sightings), 50)))
  }

  lemma RecordedRow(fleet: Fleet, g: Sighting, sightings: seq<Sighting>)
    requires RowIs(fleet, g.telemetry.vehicleId, sightings)
    ensures RowIs(Recorded(fleet, g), g.telemetry.vehicleId, sightings + [g])
  {
    ExtendedIsWindow(Points(sightings), g.telemetry.coordinates);
    PointsAppend(sightings, g);
    assert sightings == [] ==> LastN(Points(sightings), MAX_POINTS) == [];
    hide LastN, Extended, Points;
  }

  /** For every vehicle the table holds its latest accepted telemetry, and as breadcrumbs its last 50
      accepted positions; a vehicle never accepted has no row. */
  lemma {:induction false} FleetIsLatestOfHistory(parse: string -> Option<Envelope>, history: seq<Delivery>, id: string)
    ensures RowIs(FleetAfter(parse, history), id, SightingsOf(parse, history, id))
  {
    if history != [] {
      var front, d := history[..|history| - 1], history[|history| - 1];
      FleetIsLatestOfHistory(parse, front, id);
      hide Extended, Points, LastN, Heard;
      if Heard(parse, d).Some? && Heard(parse, d).value.telemetry.vehicleId == id {
        RecordedRow(FleetAfter(parse, front), Heard(parse, d).value, SightingsOf(parse, front, id));
      }
    }
  }

  // ---------------------------------------------------------------- no re-entry

  /** What the data mule forwards is refused here. */
  lemma ForwardedIsRefused(parse: string -> Option<Envelope>, topic: string, payload: string, now: int)
    ensures Heard(parse, Delivery(DataMule.FormatUpstreamTopic(topic), payload, now)) == None
  {
    DataMule.UpstreamTopicIsForeign(topic, "**");
    hide DataMule.FormatUpstreamTopic, HasPrefix;
  }

  /** A refused delivery, wherever it stands in a history, never shows in the fleet table. */
  lemma {:induction false} RefusedChangesNothing(parse: string -> Option<Envelope>, before: seq<Delivery>,
                                                 d: Delivery, after: seq<Delivery>)
    requires Heard(parse, d) == None
    ensures FleetAfter(parse, before + [d] + after) == FleetAfter(parse, before + after)
    decreases |after|
  {
    hide Heard, Recorded;
    if after == [] {
      assert (before + [d] + after)[..|before|] == before && before + after == before;
    } else {
      var front := after[..|after| - 1];
      RefusedChangesNothing(parse, before, d, front);
      var all, rest := before + [d] + after, before + after;
      assert all[..|all| - 1] == before + [d] + front && rest[..|rest| - 1] == before + front;
    }
  }

  /** So the mule's own traffic, echoed back at any moment, never shows there. */
  lemma EchoesChangeNothing(parse: string -> Option<Envelope>, before: seq<Delivery>,
                            topic: string, payload: string, now: int, after: seq<Delivery>)
    ensures
      var echo := Delivery(DataMule.FormatUpstreamTopic(topic), payload, now);
      FleetAfter(parse, before + [echo] + after) == FleetAfter(parse, before + after)
  {
    ForwardedIsRefused(parse, topic, payload, now);
    hide Heard, DataMule.FormatUpstreamTopic;
    RefusedChangesNothing(parse, before, Delivery(DataMule.FormatUpstreamTopic(topic), payload, now), after);
  }
}
