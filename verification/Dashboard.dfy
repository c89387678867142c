/** The freshness guard and the track window of the operator dashboard, `handleIncomingTelemetry` in
  web/app.js. Receipt times are in milliseconds. */
module Dashboard {
  import opened Windows
  import opened Schema

  const MAX_TRACK: nat := 30
  const MIN_MOVE: real := 0.00005
  const RESTART_GAP: nat := 50
  const RESTART_SILENCE_MS: int := 10000

  datatype Point = Point(lat: real, lon: real)

  datatype Marker = Marker(telemetry: Telemetry, header: SecurityHeader, tracks: seq<Point>, lastUpdate: int)

  type Fleet = map<string, Marker>

  datatype Receipt = Receipt(telemetry: Telemetry, header: SecurityHeader, now: int) {
    predicate Of(id: string) {
      telemetry.vehicleId == id
    }

    function At(): Point {
      Point(telemetry.coordinates.latitude, telemetry.coordinates.longitude)
    }
  }

  predicate IsStale(shown: nat, incoming: nat) {
    incoming <= shown
  }

  /** A sequence number far below the one shown, after a long silence, means the agent restarted. */
  predicate IsRestart(shown: nat, lastUpdate: int, incoming: nat, now: int) {
    shown - incoming > RESTART_GAP && now - lastUpdate > RESTART_SILENCE_MS
  }

  function Abs(x: real): real {
    if x < 0.0 then -x else x
  }

  predicate Moved(from: Point, to: Point) {
    Abs(from.lat - to.lat) > MIN_MOVE || Abs(from.lon - to.lon) > MIN_MOVE
  }

  function Tracked(tracks: seq<Point>, p: Point): seq<Point> {
    if tracks == [] || Moved(tracks[|tracks| - 1], p) then
      var longer := tracks + [p];
      if |longer| > MAX_TRACK then longer[1..] else longer
    else tracks
  }

  predicate Dropped(fleet: Fleet, r: Receipt) {
    var id := r.telemetry.vehicleId;
    && id in fleet
    && IsStale(fleet[id].telemetry.sequence, r.telemetry.sequence)
    && !IsRestart(fleet[id].telemetry.sequence, fleet[id].lastUpdate, r.telemetry.sequence, r.now)
  }

  function Shown(fleet: Fleet, r: Receipt): Fleet {
    if Dropped(fleet, r) then fleet
    else
      var id := r.telemetry.vehicleId;
      var tracks := if id in fleet then fleet[id].tracks else [];
      fleet[id := Marker(r.telemetry, r.header, Tracked(tracks, r.At()), r.now)]
  }

  function FleetAfter(history: seq<Receipt>): Fleet {
    if history == [] then map[]
    else Shown(FleetAfter(history[..|history| - 1]), history[|history| - 1])
  }

  class Dashboard {
    var fleet: map<string, Marker>

    constructor ()
      ensures fleet == map[]
    {
      fleet := map[];
    }

    method HandleIncomingTelemetry(t: Telemetry, header: SecurityHeader, now: int)
      modifies this
      ensures fleet == Shown(old(fleet), Receipt(t, header, now))
    {
      hide Moved;
      var id := t.vehicleId;
      if id in fleet {
        var existing := fleet[id];
        var isStale := t.sequence <= existing.telemetry.sequence;
        var isRestart := existing.telemetry.sequence - t.sequence > RESTART_GAP
                         && now - existing.lastUpdate > RESTART_SILENCE_MS;
        if isStale && !isRestart {
          return;
        }
      }
      if id !in fleet {
        fleet := fleet[id := Marker(t, header, [], now)];
      } else {
        fleet := fleet[id := fleet[id].(telemetry := t, header := header, lastUpdate := now)];
      }
      var coord := Point(t.coordinates.latitude, t.coordinates.longitude);
      var tracks := fleet[id].tracks;
      if |tracks| == 0 || Moved(tracks[|tracks| - 1], coord) {
        tracks := tracks + [coord];
        if |tracks| > MAX_TRACK {
          tracks := tracks[1..];
        }
        fleet := fleet[id := fleet[id].(tracks := tracks)];
      }
    }
  }

  // ---------------------------------------------------------------- one vehicle's history

  /** A receipt is accepted after these accepted ones. */
  predicate Accepts(accepted: seq<Receipt>, r: Receipt) {
    accepted == [] ||
    var last := accepted[|accepted| - 1];
    || !IsStale(last.telemetry.sequence, r.telemetry.sequence)
    || IsRestart(last.telemetry.sequence, last.now, r.telemetry.sequence, r.now)
  }

  /** The accepted receipts of one vehicle. */
  function Accepted(history: seq<Receipt>, id: string): (a: seq<Receipt>)
    ensures forall r :: r in a ==> r in history && r.Of(id)
    ensures a == [] ==> forall r :: r in history ==> !r.Of(id)
  {
    if history == [] then []
    else
      var front, r := history[..|history| - 1], history[|history| - 1];
      var a := Accepted(front, id);
      assert forall x :: x in history <==> x in front || x == r;
      if r.Of(id) && Accepts(a, r) then a + [r] else a
  }

  /** The whole trail: each accepted position that lies off the last one kept. */
  function Trail(accepted: seq<Receipt>): seq<Point> {
    if accepted == [] then []
    else
      var trail, p := Trail(accepted[..|accepted| - 1]), accepted[|accepted| - 1].At();
      if trail == [] || Moved(trail[|trail| - 1], p) then trail + [p] else trail
  }

  lemma TrackedIsWindow(trail: seq<Point>, p: Point)
    ensures
      var longer := if trail == [] || Moved(trail[|trail| - 1], p) then trail + [p] else trail;
      Tracked(LastN(trail, MAX_TRACK), p) == LastN(longer, MAX_TRACK)
  {
    hide Moved;
  }

  ghost predicate MarkerIs(fleet: Fleet, id: string, accepted: seq<Receipt>) {
    && (id in fleet <==> accepted != [])
    && (id in fleet ==>
          var last := accepted[|accepted| - 1];
          fleet[id] == Marker(last.telemetry, last.header, LastN(Trail(accepted), 30), last.now))
  }

  lemma ShownMarker(fleet: Fleet, r: Receipt, id: string, accepted: seq<Receipt>)
    requires MarkerIs(fleet, id, accepted)
    ensures
      MarkerIs(Shown(fleet, r), id,
               if r.Of(id) && Accepts(accepted, r) then accepted + [r] else accepted)
  {
    TrackedIsWindow(Trail(accepted), r.At());
    assert (accepted + [r])[..|accepted|] == accepted;
    assert accepted == [] ==> LastN(Trail(accepted), MAX_TRACK) == [];
    hide Tracked, LastN, Moved, IsStale, IsRestart;
  }

  /** A vehicle's marker shows its last accepted receipt, and its track the last 30 points of its
      whole trail. */
  lemma {:induction false} FleetIsLastAccepted(history: seq<Receipt>, id: string)
    ensures MarkerIs(FleetAfter(history), id, Accepted(history, id))
  {
    hide Shown, MarkerIs;
    if history == [] {
      NothingShown(id);
    } else {
      var front := history[..|history| - 1];
      FleetIsLastAccepted(front, id);
      ShownMarker(FleetAfter(front), history[|history| - 1], id, Accepted(front, id));
    }
  }

  lemma NothingShown(id: string)
    ensures MarkerIs(map[], id, [])
  {}

  /** Two positions are within 0.00005 degrees each way. */
  predicate Close(p: Point, q: Point) {
    -0.00005 <= p.lat - q.lat <= 0.00005 && -0.00005 <= p.lon - q.lon <= 0.00005
  }

  /** Neighbouring points of a trail are apart, and its end is where the vehicle is, give or take
      0.00005 degrees each way. */
  lemma {:induction false} TrailFollows(accepted: seq<Receipt>)
    ensures accepted != [] ==>
      Trail(accepted) != [] && Close(Trail(accepted)[|Trail(accepted)| - 1], accepted[|accepted| - 1].At())
    ensures forall i :: 0 < i < |Trail(accepted)| ==> !Close(Trail(accepted)[i - 1], Trail(accepted)[i])
  {
    if accepted != [] {
      TrailFollows(accepted[..|accepted| - 1]);
    }
  }

  // ---------------------------------------------------------------- freshness

  /** A receipt leaves everything as it was exactly if it is not newer than the one shown and does not
      look like a restart: it is at most 50 behind, or 10 seconds have not passed. Otherwise its vehicle's
      marker shows it, and no other marker changes. */
  lemma ShownExactly(fleet: Fleet, r: Receipt)
    ensures
      var id, next := r.telemetry.vehicleId, Shown(fleet, r);
      && (forall other :: other != id ==> (other in next <==> other in fleet))
      && (forall other :: other != id && other in fleet ==> next[other] == fleet[other])
      && (next == fleet <==>
            && id in fleet
            && var m, n := fleet[id], r.telemetry.sequence;
               n <= m.telemetry.sequence && (m.telemetry.sequence - n <= 50 || r.now - m.lastUpdate <= 10000))
      && id in next
      && (next != fleet ==>
            next[id].telemetry == r.telemetry && next[id].header == r.header && next[id].lastUpdate == r.now)
  {
    hide Tracked;
    var id := r.telemetry.vehicleId;
    if !Dropped(fleet, r) && id in fleet {
      assert r.telemetry.sequence != fleet[id].telemetry.sequence;
      assert Shown(fleet, r)[id].telemetry == r.telemetry;
    }
  }

  /** The same over a history, told by the last receipt that was accepted: within 10 seconds of it nothing
      that is not newer shows. */
  lemma StaleShowsExactly(history: seq<Receipt>, r: Receipt)
    requires Accepted(history, r.telemetry.vehicleId) != []
    ensures
      var a := Accepted(history, r.telemetry.vehicleId);
      var last, n := a[|a| - 1], r.telemetry.sequence;
      FleetAfter(history + [r]) == FleetAfter(history) <==>
        && n <= last.telemetry.sequence
        && (last.telemetry.sequence - n <= 50 || r.now - last.now <= 10000)
  {
    FleetIsLastAccepted(history, r.telemetry.vehicleId);
    ShownExactly(FleetAfter(history), r);
    hide Accepted, Shown, Trail, LastN;
    assert (history + [r])[..|history|] == history;
  }

  // ---------------------------------------------------------------- replays

  predicate TakenForRestart(last: Receipt, r: Receipt) {
    IsRestart(last.telemetry.sequence, last.now, r.telemetry.sequence, r.now)
  }

  /** A receipt of the vehicle that the marker's silence lets through as a restart. */
  ghost predicate RestartsOn(before: seq<Receipt>, r: Receipt, id: string) {
    var a := Accepted(before, id);
    r.Of(id) && a != [] && TakenForRestart(a[|a| - 1], r)
  }

  ghost predicate NoRestart(history: seq<Receipt>, id: string) {
    forall k :: 0 <= k < |history| ==> !RestartsOn(history[..k], history[k], id)
  }

  /** The vehicle's marker, if it was heard at all, carries the highest sequence number received. */
  ghost predicate ShowsHighest(history: seq<Receipt>, id: string) {
    var a := Accepted(history, id);
    forall r :: r in history && r.Of(id) ==>
      a != [] && r.telemetry.sequence <= a[|a| - 1].telemetry.sequence
  }

  lemma AcceptedAppended(front: seq<Receipt>, r: Receipt, id: string)
    ensures
      var a := Accepted(front, id);
      Accepted(front + [r], id) == if r.Of(id) && Accepts(a, r) then a + [r] else a
  {
    hide Accepts;
    assert (front + [r])[..|front|] == front;
  }

  lemma HighestStepExactly(front: seq<Receipt>, r: Receipt, id: string)
    requires ShowsHighest(front, id)
    ensures ShowsHighest(front + [r], id) <==> !RestartsOn(front, r, id)
  {
    AcceptedAppended(front, r, id);
    var a, h := Accepted(front, id), front + [r];
    hide Accepted;
    forall x
      ensures x in h <==> x in front || x == r
    {}
    if RestartsOn(front, r, id) {
      var last := a[|a| - 1];
      assert last in a && last in front && last in h;
      assert Accepted(h, id)[|a|] == r;
    }
  }

  /** At every moment the marker shows the highest sequence number received so far exactly if no
      receipt was taken for a restart. */
  lemma {:induction false} AlwaysHighestExactly(history: seq<Receipt>, id: string)
    ensures (forall k :: 0 <= k <= |history| ==> ShowsHighest(history[..k], id)) <==> NoRestart(history, id)
  {
    hide ShowsHighest, RestartsOn;
    if history == [] {
      assert history[..0] == [];
      NothingHighest(id);
    } else {
      var n := |history| - 1;
      var front, r := history[..n], history[n];
      AlwaysHighestExactly(front, id);
      assert forall k :: 0 <= k <= n ==> front[..k] == history[..k];
      assert history[..n + 1] == front + [r] && front[..n] == front;
      if ShowsHighest(front, id) {
        HighestStepExactly(front, r, id);
      }
    }
  }

  lemma NothingHighest(id: string)
    ensures ShowsHighest([], id)
  {}

  /** One payload per vehicle and sequence number. */
  ghost predicate Consistent(history: seq<Receipt>, other: seq<Receipt>) {
    forall r, q :: r in history && q in other ==> Agree(r, q)
  }

  predicate Agree(r: Receipt, q: Receipt) {
    r.telemetry.vehicleId == q.telemetry.vehicleId && r.telemetry.sequence == q.telemetry.sequence ==>
      r.telemetry == q.telemetry && r.header == q.header
  }

  /** Every packet of the vehicle in one history came in the other too, at whatever time. */
  ghost predicate AllRepeated(history: seq<Receipt>, other: seq<Receipt>, id: string) {
    forall r :: r in history && r.Of(id) ==> exists q :: q in other && q.telemetry == r.telemetry
  }

  lemma NotBehind(history: seq<Receipt>, other: seq<Receipt>, id: string)
    requires ShowsHighest(other, id) && AllRepeated(history, other, id)
    requires Accepted(history, id) != []
    ensures
      var a, b := Accepted(history, id), Accepted(other, id);
      b != [] && a[|a| - 1].telemetry.sequence <= b[|b| - 1].telemetry.sequence
  {
    var a := Accepted(history, id);
    var r := a[|a| - 1];
    assert r in a;
    hide Accepted;
    var q :| q in other && q.telemetry == r.telemetry;
  }

  /** Without restarts, the same packets in any order, with any repeats, leave the same telemetry on
      the dashboard: that of the highest sequence number. */
  lemma ReplaysConverge(history: seq<Receipt>, other: seq<Receipt>, id: string)
    requires NoRestart(history, id) && NoRestart(other, id)
    requires AllRepeated(history, other, id) && AllRepeated(other, history, id) && Consistent(history, other)
    ensures id in FleetAfter(history) <==> id in FleetAfter(other)
    ensures id in FleetAfter(history) ==>
      && FleetAfter(history)[id].telemetry == FleetAfter(other)[id].telemetry
      && FleetAfter(history)[id].header == FleetAfter(other)[id].header
      && forall r :: r in history && r.Of(id) ==>
           r.telemetry.sequence <= FleetAfter(history)[id].telemetry.sequence
  {
    hide *;
    MarkerIsHighest(history, id);
    MarkerIsHighest(other, id);
    if Accepted(history, id) != [] {
      NotBehind(history, other, id);
    }
    if Accepted(other, id) != [] {
      NotBehind(other, history, id);
      SameLast(history, other, id);
    }
  }

  lemma MarkerIsHighest(history: seq<Receipt>, id: string)
    requires NoRestart(history, id)
    ensures ShowsHighest(history, id)
    ensures
      var a, fleet := Accepted(history, id), FleetAfter(history);
      && (id in fleet <==> a != [])
      && (id in fleet ==>
            && fleet[id].telemetry == a[|a| - 1].telemetry && fleet[id].header == a[|a| - 1].header
            && forall r :: r in history && r.Of(id) ==>
                 r.telemetry.sequence <= fleet[id].telemetry.sequence)
  {
    FleetIsLastAccepted(history, id);
    AlwaysHighestExactly(history, id);
    assert history[..|history|] == history;
    hide FleetAfter, Accepted, Trail, LastN, NoRestart;
  }

  lemma SameLast(history: seq<Receipt>, other: seq<Receipt>, id: string)
    requires Consistent(history, other)
    requires Accepted(history, id) != [] && Accepted(other, id) != []
    ensures
      var a, b := Accepted(history, id), Accepted(other, id);
      a[|a| - 1].telemetry.sequence == b[|b| - 1].telemetry.sequence ==>
        a[|a| - 1].telemetry == b[|b| - 1].telemetry && a[|a| - 1].header == b[|b| - 1].header
  {
    var a, b := Accepted(history, id), Accepted(other, id);
    assert a[|a| - 1] in a && b[|b| - 1] in b;
    hide Accepted;
    assert Agree(a[|a| - 1], b[|b| - 1]);
  }

  ghost predicate Steady(history: seq<Receipt>, id: string) {
    forall i, j :: 0 <= i < j < |history| && history[i].Of(id) && history[j].Of(id) ==>
      !TakenForRestart(history[i], history[j])
  }

  /** Restarts cannot happen among receipts of which no earlier one is both more than 50 numbers ahead
      and more than 10 seconds older. */
  lemma SteadyHistoriesNeverRestart(history: seq<Receipt>, id: string)
    requires Steady(history, id)
    ensures NoRestart(history, id)
  {
    hide TakenForRestart, Accepts;
    forall k | 0 <= k < |history|
      ensures !RestartsOn(history[..k], history[k], id)
    {
      var a := Accepted(history[..k], id);
      if a != [] && history[k].Of(id) {
        assert a[|a| - 1] in a;
        var i :| 0 <= i < k && history[..k][i] == a[|a| - 1];
        assert !TakenForRestart(history[i], history[k]);
      }
    }
  }

  /** An accepted restart puts the marker back, so the order of receipts then matters. */
  lemma RestartTurnsBack(t: Telemetry, header: SecurityHeader)
    requires t.sequence == 0
    ensures
      var late := t.(sequence := 51);
      && FleetAfter([Receipt(late, header, 0), Receipt(t, header, 10001)])[t.vehicleId].telemetry == t
      && FleetAfter([Receipt(t, header, 0), Receipt(late, header, 10001)])[t.vehicleId].telemetry == late
  {
    hide Tracked;
    var late := t.(sequence := 51);
    TwoReceipts(Receipt(late, header, 0), Receipt(t, header, 10001));
    TwoReceipts(Receipt(t, header, 0), Receipt(late, header, 10001));
  }

  lemma TwoReceipts(q: Receipt, r: Receipt)
    ensures FleetAfter([q, r]) == Shown(Shown(map[], q), r)
  {
    hide Shown;
    assert [q, r][..1] == [q] && [q][..0] == [];
    assert FleetAfter([q]) == Shown(map[], q);
  }
}
