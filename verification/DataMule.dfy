/** Store and forward across backhaul dropouts: pkg/zenohutil/datamule.go.

  Packets are known by their serial number, the order in which they were ingested. The upstream bus
  may refuse any publish and the disk any write; both are the environment's choice. */
module DataMule {
  import opened Text
  import opened Windows
  import Selector

  datatype Status = Online | DdilBuffering

  datatype Packet = Packet(topic: string, payload: string)

  datatype SpooledPacket = SpooledPacket(stamp: int, ordinal: nat, topic: string, payload: string)

  /** `formatUpstreamTopic`. */
  function FormatUpstreamTopic(topic: string): string {
    if HasPrefix(topic, "upstream/") then topic else "upstream/" + topic
  }

  // ---------------------------------------------------------------- the mule on values

  /** `spooled` lists everything buffered since the buffer was last cleared; `log` the publishes that
      succeeded; `disk` the lines written since the spool file was last truncated. */
  datatype Mule = Mule(
    status: Status, simulated: bool, ingested: nat, buffer: seq<nat>, spooled: seq<nat>,
    log: seq<nat>, syncedTotal: nat, fileOpen: bool, disk: seq<nat>)
  {
    predicate Direct(hasBus: bool) {
      status == Online && !simulated && hasBus
    }
  }

  datatype Config = Config(maxBuffer: nat, hasBus: bool, hasFile: bool)

  function Start(c: Config): Mule {
    Mule(Online, false, 0, [], [], [], 0, c.hasFile, [])
  }

  function Spooled(c: Config, s: Mule, written: bool): Mule {
    s.(ingested := s.ingested + 1,
       buffer := Pushed(s.buffer, s.ingested, c.maxBuffer),
       spooled := s.spooled + [s.ingested],
       disk := if s.fileOpen && written then s.disk + [s.ingested] else s.disk)
  }

  /** `Ingest`: forward directly when the link is up, else buffer; a refused publish switches to
      buffering. */
  function Ingested(c: Config, s: Mule, accepted: bool, written: bool): Mule {
    if s.Direct(c.hasBus) && accepted then
      s.(ingested := s.ingested + 1, log := s.log + [s.ingested], syncedTotal := s.syncedTotal + 1)
    else if s.Direct(c.hasBus) then Spooled(c, s.(status := DdilBuffering), written)
    else Spooled(c, s, written)
  }

  /** `Flush` when the upstream accepts `accepted` publishes and refuses the next: on a refusal the
      buffer stays whole, otherwise it is cleared and the spool file truncated. */
  function Flushed(c: Config, s: Mule, accepted: nat, reopened: bool): Mule {
    if s.buffer == [] then s.(status := Online)
    else if c.hasBus && accepted < |s.buffer| then
      s.(log := s.log + s.buffer[..accepted], syncedTotal := s.syncedTotal + accepted)
    else
      s.(log := if c.hasBus then s.log + s.buffer else s.log,
         syncedTotal := s.syncedTotal + |s.buffer|,
         buffer := [], spooled := [], status := Online,
         fileOpen := c.hasFile && reopened, disk := if c.hasFile && reopened then [] else s.disk)
  }

  datatype Event =
    | Ingest(accepted: bool, written: bool)
    | Flush(count: nat, reopened: bool)
    | BlackoutOn
      // The first lock section of SetSimulationMode(false) alone: other calls may come before its flush.
    | BlackoutOff
      // Both sections of SetSimulationMode(false) in one step, every publish accepted.
    | Restore(fileReopened: bool)

  function Off(s: Mule): Mule {
    s.(simulated := false, status := Online)
  }

  function Step(c: Config, s: Mule, e: Event): Mule {
    match e
    case Ingest(accepted, written) => Ingested(c, s, accepted, written)
    case Flush(count, reopened) => Flushed(c, s, count, reopened)
    case BlackoutOn => s.(simulated := true, status := DdilBuffering)
    case BlackoutOff => Off(s)
    case Restore(reopened) => Flushed(c, Off(s), |s.buffer|, reopened)
  }

  function Run(c: Config, events: seq<Event>): Mule {
    if events == [] then Start(c)
    else Step(c, Run(c, events[..|events| - 1]), events[|events| - 1])
  }

  // ---------------------------------------------------------------- the object

  /** An upstream that accepts or refuses each publish as it likes. */
  class UpstreamBus {
    var received: seq<Packet>

    constructor ()
      ensures received == []
    {
      received := [];
    }

    method Publish(key: string, payload: string) returns (accepted: bool)
      modifies this
      ensures received == old(received) + if accepted then [Packet(key, payload)] else []
    {
      accepted := *;
      if accepted {
        received := received + [Packet(key, payload)];
      }
    }
  }

  function Upstream(p: Packet): Packet {
    Packet(FormatUpstreamTopic(p.topic), p.payload)
  }

  ghost predicate Serials(history: seq<Packet>, serials: seq<nat>) {
    forall i :: 0 <= i < |serials| ==> serials[i] < |history|
  }

  /** `BackhaulMetrics`, without the cloud target and the time of the last sync. */
  datatype BackhaulMetrics = BackhaulMetrics(
    status: Status, latencyMs: int, spooledPackets: nat, spooledBytes: nat, syncedTotal: nat, simulatedMode: bool)

  /** Payload bytes in a row of packets. */
  function Bytes(packets: seq<SpooledPacket>): nat {
    if packets == [] then 0
    else Bytes(packets[..|packets| - 1]) + |packets[|packets| - 1].payload|
  }

  class DataMule {
    var status: Status
    var simulatedDDIL: bool
    var buffer: seq<SpooledPacket>
    const maxBuffer: nat
    var latencyMs: int
    var syncedTotal: nat
    const upstreamBus: UpstreamBus?
    const spoolFile: bool
    /** Whether the handle of the spool file is still writable. */
    var fileOpen: bool

    /** All packets ever ingested, and the serials behind the buffer, the spool and the upstream log. */
    ghost var history: seq<Packet>
    ghost var buffered: seq<nat>
    ghost var spooled: seq<nat>
    ghost var published: seq<nat>
    ghost var onDisk: seq<nat>

    ghost function Setup(): Config {
      Config(maxBuffer, upstreamBus != null, spoolFile)
    }

    ghost function View(): Mule
      reads this
    {
      Mule(status, simulatedDDIL, |history|, buffered, spooled, published, syncedTotal, fileOpen, onDisk)
    }

    ghost predicate BufferIs(serials: seq<nat>)
      reads `buffer, `history
    {
      && |buffer| == |serials|
      && Serials(history, serials)
      && forall i :: 0 <= i < |buffer| ==> Packet(buffer[i].topic, buffer[i].payload) == history[serials[i]]
    }

    /** The buffer holds the packets its serials name, and the bus has received, under upstream topics,
        exactly those the log names. */
    ghost predicate Valid()
      reads this, upstreamBus
    {
      && maxBuffer > 0
      && (fileOpen ==> spoolFile)
      && BufferIs(buffered)
      && Serials(history, published)
      && (upstreamBus != null ==>
            && |upstreamBus.received| == |published|
            && forall i :: 0 <= i < |published| ==> upstreamBus.received[i] == Upstream(history[published[i]]))
    }

    constructor (capacity: int, bus: UpstreamBus?, spoolFile: bool)
      requires bus != null ==> bus.received == []
      ensures Valid() && upstreamBus == bus && history == [] && this.spoolFile == spoolFile
      ensures maxBuffer == if capacity <= 0 then 5000 else capacity
      ensures View() == Start(Setup())
    {
      status, simulatedDDIL := Online, false;
      buffer := [];
      maxBuffer := if capacity <= 0 then 5000 else capacity;
      latencyMs, syncedTotal := 38, 0;
      upstreamBus := bus;
      this.spoolFile := spoolFile;
      fileOpen := spoolFile;
      history, buffered, spooled, published, onDisk := [], [], [], [], [];
    }

    /** One publish of an ingested packet. */
    method Send(topic: string, payload: string, ghost serial: nat) returns (accepted: bool)
      requires Valid() && upstreamBus != null
      requires serial < |history| && history[serial] == Packet(topic, payload)
      modifies this`published, upstreamBus
      ensures Valid()
      ensures published == old(published) + if accepted then [serial] else []
    {
      hide FormatUpstreamTopic;
      accepted := upstreamBus.Publish(FormatUpstreamTopic(topic), payload);
      if accepted {
        published := published + [serial];
      }
    }

    ghost method Record(topic: string, payload: string)
      requires Valid()
      modifies this`history
      ensures Valid() && history == old(history) + [Packet(topic, payload)]
    {
      hide FormatUpstreamTopic;
      history := history + [Packet(topic, payload)];
    }

    /** Into the bounded buffer, and onto disk if that works. */
    method Store(topic: string, payload: string, now: int, written: bool, ghost serial: nat)
      requires Valid()
      requires serial < |history| && history[serial] == Packet(topic, payload)
      modifies this`buffer, this`buffered, this`spooled, this`onDisk
      ensures Valid()
      ensures buffer == Pushed(old(buffer), SpooledPacket(now, |old(buffer)| + 1, topic, payload), maxBuffer)
      ensures buffered == Pushed(old(buffered), serial, maxBuffer)
      ensures spooled == old(spooled) + [serial]
      ensures onDisk == old(onDisk) + if fileOpen && written then [serial] else []
    {
      buffered := Pushed(buffered, serial, maxBuffer);
      var pkt := SpooledPacket(now, |buffer| + 1, topic, payload);
      if |buffer| >= maxBuffer {
        buffer := buffer[1..];
      }
      buffer := buffer + [pkt];
      spooled := spooled + [serial];
      if fileOpen && written {
        onDisk := onDisk + [serial];
      }
    }

    method Ingest(topic: string, payload: string, now: int, written: bool) returns (ghost accepted: bool)
      requires Valid()
      modifies this, upstreamBus
      ensures Valid()
      ensures history == old(history) + [Packet(topic, payload)]
      ensures View() == Ingested(Setup(), old(View()), accepted, written)
      ensures
        var direct := accepted && old(View()).Direct(upstreamBus != null);
        var pkt := SpooledPacket(now, |old(buffer)| + 1, topic, payload);
        buffer == if direct then old(buffer) else Pushed(old(buffer), pkt, maxBuffer)
    {
      hide Pushed, Upstream, Serials, BufferIs;
      accepted := false;
      ghost var serial := |history|;
      Record(topic, payload);
      if status == Online && !simulatedDDIL && upstreamBus != null {
        var ok := Send(topic, payload, serial);
        accepted := ok;
        if ok {
          syncedTotal := syncedTotal + 1;
          return;
        }
        status := DdilBuffering;
      }
      Store(topic, payload, now, written, serial);
    }

    method Flush(reopened: bool) returns (flushed: nat, ok: bool)
      requires Valid()
      modifies this, upstreamBus
      ensures Valid() && history == old(history)
      ensures ok ==> flushed == old(|buffer|)
      ensures !ok ==> upstreamBus != null && flushed < old(|buffer|)
      ensures View() == Flushed(Setup(), old(View()), flushed, reopened) && latencyMs == old(latencyMs)
      ensures simulatedDDIL == old(simulatedDDIL)
    {
      hide FormatUpstreamTopic, Bytes;
      if |buffer| == 0 {
        status := Online;
        return 0, true;
      }
      flushed, ok := SendAll();
      if !ok {
        return;
      }
      assert buffered[..flushed] == buffered;
      Clear(reopened);
    }

    /** What `Flush` does once everything was sent: empty the buffer and truncate the spool file. */
    method Clear(reopened: bool)
      requires Valid()
      modifies this`buffer, this`buffered, this`spooled, this`status, this`onDisk, this`fileOpen
      ensures Valid()
      ensures buffer == [] && buffered == [] && spooled == [] && status == Online
      ensures fileOpen == (spoolFile && reopened)
      ensures onDisk == if spoolFile && reopened then [] else old(onDisk)
    {
      hide FormatUpstreamTopic;
      buffer, buffered, spooled := [], [], [];
      status := Online;
      if spoolFile {
        if reopened {
          onDisk := [];
        }
        fileOpen := reopened;
      }
    }

    /** What the first n rounds of the flush loop publish. */
    ghost function Sent(n: nat): seq<nat>
      requires n <= |buffered|
      reads this
    {
      if upstreamBus == null then [] else buffered[..n]
    }

    /** One round of the flush loop. */
    method SendBuffered(i: nat) returns (ok: bool)
      requires Valid() && i < |buffered|
      modifies this`published, this`syncedTotal, upstreamBus
      ensures Valid()
      ensures !ok ==> upstreamBus != null && published == old(published) && syncedTotal == old(syncedTotal)
      ensures ok ==> syncedTotal == old(syncedTotal) + 1
      ensures ok ==> published == old(published) + if upstreamBus == null then [] else [buffered[i]]
    {
      ok := true;
      if upstreamBus != null {
        ok := Send(buffer[i].topic, buffer[i].payload, buffered[i]);
      }
      if ok {
        syncedTotal := syncedTotal + 1;
      }
    }

    /** The publishing loop of `Flush`. */
    method SendAll() returns (flushed: nat, ok: bool)
      requires Valid()
      modifies this`published, this`syncedTotal, upstreamBus
      ensures Valid()
      ensures ok ==> flushed == |buffer|
      ensures !ok ==> upstreamBus != null && flushed < |buffer|
      ensures flushed <= |buffered|
      ensures published == old(published) + Sent(flushed)
      ensures syncedTotal == old(syncedTotal) + flushed
    {
      flushed := 0;
      while flushed < |buffer|
        invariant 0 <= flushed <= |buffer| == |buffered|
        invariant Valid()
        invariant published == old(published) + Sent(flushed)
        invariant syncedTotal == old(syncedTotal) + flushed
      {
        ok := SendBuffered(flushed);
        if !ok {
          return;
        }
        assert buffered[..flushed + 1] == buffered[..flushed] + [buffered[flushed]];
        flushed := flushed + 1;
      }
      ok := true;
    }

    method Metrics() returns (m: BackhaulMetrics)
      ensures m == BackhaulMetrics(status, latencyMs, |buffer|, Bytes(buffer), syncedTotal, simulatedDDIL)
    {
      var totalBytes := 0;
      for i := 0 to |buffer|
        invariant totalBytes == Bytes(buffer[..i])
      {
        assert buffer[..i + 1][..i] == buffer[..i];
        totalBytes := totalBytes + |buffer[i].payload|;
      }
      assert buffer[..|buffer|] == buffer;
      return BackhaulMetrics(status, latencyMs, |buffer|, totalBytes, syncedTotal, simulatedDDIL);
    }

    /** The two lock sections of `SetSimulationMode`, as they run when no other call comes between. */
    method SetSimulationMode(ddilActive: bool, reopened: bool)
      returns (m: BackhaulMetrics, ghost flushed: nat, ghost ok: bool)
      requires Valid()
      modifies this, upstreamBus
      ensures Valid() && history == old(history)
      ensures ddilActive ==> View() == Step(Setup(), old(View()), BlackoutOn)
      ensures !ddilActive ==> View() == Flushed(Setup(), Off(old(View())), flushed, reopened)
      ensures !ddilActive && ok ==> View() == Step(Setup(), old(View()), Restore(reopened))
      ensures m.latencyMs == latencyMs == if ddilActive then 9999 else 42
      ensures m.status == View().status && m.simulatedMode == ddilActive && m.syncedTotal == View().syncedTotal
      ensures m.spooledPackets == |View().buffer| && m.spooledBytes == Bytes(buffer)
    {
      simulatedDDIL := ddilActive;
      if ddilActive {
        status := DdilBuffering;
        latencyMs := 9999;
        flushed, ok := 0, true;
      } else {
        status := Online;
        latencyMs := 42;
        var n, done := Flush(reopened);
        flushed, ok := n, done;
      }
      m := Metrics();
    }
  }

  // ---------------------------------------------------------------- windows and the disk

  function Front(events: seq<Event>): seq<Event>
    requires events != []
  {
    events[..|events| - 1]
  }

  lemma RunSnoc(c: Config, events: seq<Event>, e: Event)
    ensures Run(c, events + [e]) == Step(c, Run(c, events), e)
  {
    assert (events + [e])[..|events|] == events;
  }

  /** After every run, with any interleaving and any failures, the buffer is the last maxBuffer
      packets spooled since it was last cleared. */
  lemma {:induction false} BufferIsWindow(c: Config, events: seq<Event>)
    requires c.maxBuffer > 0
    ensures Run(c, events).buffer == LastN(Run(c, events).spooled, c.maxBuffer)
  {
    if events != [] {
      BufferIsWindow(c, Front(events));
      StepKeepsWindow(c, Run(c, Front(events)), events[|events| - 1]);
      hide Step, LastN;
    }
  }

  lemma StepKeepsWindow(c: Config, s: Mule, e: Event)
    requires c.maxBuffer > 0 && s.buffer == LastN(s.spooled, c.maxBuffer)
    ensures Step(c, s, e).buffer == LastN(Step(c, s, e).spooled, c.maxBuffer)
  {
    PushIsLastN(s.spooled, s.ingested, c.maxBuffer);
    assert LastN<nat>([], c.maxBuffer) == [];
    hide LastN, Pushed;
  }

  /** No write failed and the spool file could always be reopened. */
  predicate DiskWorks(e: Event) {
    match e
    case Ingest(_, written) => written
    case Flush(_, reopened) => reopened
    case Restore(reopened) => reopened
    case _ => true
  }

  /** If the disk works, the spool file holds everything spooled since it was cleared, so the buffer
      is a suffix of it. */
  lemma {:induction false} BufferIsOnDisk(c: Config, events: seq<Event>)
    requires c.maxBuffer > 0 && c.hasFile
    requires forall e :: e in events ==> DiskWorks(e)
    ensures
      var s := Run(c, events);
      && s.fileOpen && s.disk == s.spooled
      && s.buffer == LastN(s.disk, c.maxBuffer)
  {
    BufferIsWindow(c, events);
    if events != [] {
      assert forall e :: e in Front(events) ==> e in events;
      assert events[|events| - 1] in events;
      BufferIsOnDisk(c, Front(events));
      var s := Run(c, Front(events));
      assert s.buffer == [] <==> s.spooled == [];
    }
  }

  // ---------------------------------------------------------------- outages

  function Between(first: nat, n: nat): (serials: seq<nat>)
    ensures |serials| == n
    ensures forall i :: 0 <= i < n ==> serials[i] == first + i
  {
    seq(n, i => first + i)
  }

  lemma BetweenOneMore(first: nat, n: nat)
    ensures Between(first, n + 1) == Between(first, n) + [first + n]
  {}

  /** The link goes down exactly with a blackout or a refused publish; only a restore, or a flush that
      sends everything there is, brings it up again, and a blackout lasts until it is called off. */
  lemma LinkExactly(c: Config, s: Mule, e: Event)
    requires c.hasBus
    ensures
      var t := Step(c, s, e);
      && (s.Direct(true) ==> (!t.Direct(true) <==> e.BlackoutOn? || (e.Ingest? && !e.accepted)))
      && (!s.Direct(true) ==>
            (t.Direct(true) <==>
              e.BlackoutOff? || e.Restore? || (e.Flush? && e.count >= |s.buffer| && !s.simulated)))
  {}

  /** Since state s the link was down, nothing was published, and n packets were spooled. */
  ghost predicate DownSince(s: Mule, t: Mule, n: nat) {
    && !t.Direct(true) && t.log == s.log && t.ingested == s.ingested + n
    && t.spooled == s.spooled + Between(s.ingested, n)
  }

  lemma DownStays(c: Config, s: Mule, t: Mule, n: nat, e: Event)
    requires c.hasBus && DownSince(s, t, n) && e.Ingest?
    ensures DownSince(s, Step(c, t, e), n + 1)
  {
    BetweenOneMore(s.ingested, n);
    hide Pushed, Between;
  }

  /** While the link is down nothing is published and everything ingested is spooled, in order. */
  lemma {:induction false} OutageSpools(c: Config, before: seq<Event>, ingests: seq<Event>)
    requires c.hasBus && !Run(c, before).Direct(true)
    requires forall e :: e in ingests ==> e.Ingest?
    ensures DownSince(Run(c, before), Run(c, before + ingests), |ingests|)
  {
    hide Run, Step;
    if ingests == [] {
      assert before + ingests == before;
    } else {
      hide DownSince, Mule.Direct;
      var front, e := Front(ingests), ingests[|ingests| - 1];
      assert e in ingests && forall x :: x in front ==> x in ingests;
      OutageSpools(c, before, front);
      assert before + ingests == before + front + [e];
      RunSnoc(c, before + front, e);
      DownStays(c, Run(c, before), Run(c, before + front), |front|, e);
    }
  }

  /** A restore that succeeds makes up for the outage: what was spooled before and during it, as far as
      the buffer holds that much, goes out in ingest order behind what went out before, and the next
      packet goes out directly. */
  lemma OutageIsMadeUp(c: Config, before: seq<Event>, ingests: seq<Event>, reopened: bool)
    requires c.maxBuffer > 0 && c.hasBus && !Run(c, before).Direct(true)
    requires forall e :: e in ingests ==> e.Ingest?
    ensures
      var s, t := Run(c, before), Run(c, before + ingests + [Restore(reopened)]);
      && t.log == s.log + LastN(s.spooled + Between(s.ingested, |ingests|), c.maxBuffer)
      && t.buffer == [] && t.Direct(true) && t.ingested == s.ingested + |ingests|
  {
    OutageSpools(c, before, ingests);
    BufferIsWindow(c, before + ingests);
    RunSnoc(c, before + ingests, Restore(reopened));
    hide Run, LastN, Between;
    var u := Run(c, before + ingests);
    assert u.buffer == [] ==> u.log + u.buffer == u.log;
  }

  // ---------------------------------------------------------------- conservation

  /** At some moment of the run more than maxBuffer packets had been spooled since the last clear, and
      this one was among those beyond the newest maxBuffer. */
  ghost predicate Evicted(c: Config, events: seq<Event>, serial: nat) {
    exists t :: 0 <= t <= |events| && Overflowed(c, Run(c, events[..t]), serial)
  }

  ghost predicate Overflowed(c: Config, s: Mule, serial: nat) {
    |s.spooled| > c.maxBuffer && serial in s.spooled[..|s.spooled| - c.maxBuffer]
  }

  lemma EvictedEarlier(c: Config, events: seq<Event>, serial: nat)
    requires events != [] && Evicted(c, Front(events), serial)
    ensures Evicted(c, events, serial)
  {
    var t :| 0 <= t <= |Front(events)| && Overflowed(c, Run(c, Front(events)[..t]), serial);
    assert Front(events)[..t] == events[..t];
  }

  /** A step keeps what was published; what was buffered is still buffered, is now published, or has
      just overflowed; and a newly ingested packet is one of the first two. */
  lemma StepConserves(c: Config, s: Mule, e: Event, serial: nat)
    requires c.maxBuffer > 0 && c.hasBus && s.buffer == LastN(s.spooled, c.maxBuffer)
    requires serial in s.log || serial in s.buffer || serial == s.ingested
    requires serial < Step(c, s, e).ingested
    ensures
      var t := Step(c, s, e);
      serial in t.log || serial in t.buffer || Overflowed(c, t, serial)
  {
    if e.Ingest? && serial !in s.log {
      SpoolingConserves(c, s, e.written, serial);
      SpoolingConserves(c, s.(status := DdilBuffering), e.written, serial);
      hide Spooled, Overflowed;
    } else {
      hide Pushed, Overflowed;
    }
  }

  lemma SpoolingConserves(c: Config, s: Mule, written: bool, serial: nat)
    requires c.maxBuffer > 0 && s.buffer == LastN(s.spooled, c.maxBuffer)
    requires serial in s.buffer || serial == s.ingested
    ensures serial in Spooled(c, s, written).buffer || Overflowed(c, Spooled(c, s, written), serial)
  {
    var t := Spooled(c, s, written);
    if serial !in t.buffer {
      var i :| 0 <= i < |s.buffer| && s.buffer[i] == serial;
      assert i == 0 && |s.buffer| == c.maxBuffer;
      var k := |s.spooled| - c.maxBuffer;
      assert t.spooled[..k + 1][k] == s.spooled[k] == s.buffer[0];
    }
  }

  /** Nothing is lost silently: in every run with an upstream, whatever fails and however calls come
      between the two sections of a restore, each ingested packet has been published, is still
      buffered, or was evicted from an overflowing buffer. */
  lemma {:induction false} EveryPacketAccountedFor(c: Config, events: seq<Event>, serial: nat)
    requires c.maxBuffer > 0 && c.hasBus
    requires serial < Run(c, events).ingested
    ensures serial in Run(c, events).log || serial in Run(c, events).buffer || Evicted(c, events, serial)
  {
    var front := Front(events);
    var s, e := Run(c, front), events[|events| - 1];
    BufferIsWindow(c, front);
    if serial < s.ingested {
      EveryPacketAccountedFor(c, front, serial);
    }
    if serial < s.ingested && serial !in s.log && serial !in s.buffer {
      EvictedEarlier(c, events, serial);
    } else {
      StepConserves(c, s, e, serial);
      assert events[..|events|] == events;
    }
  }

  /** Hence, as long as no blackout spools more than maxBuffer packets, every ingested packet is
      published or still buffered. */
  lemma NothingLostWithoutOverflow(c: Config, events: seq<Event>, serial: nat)
    requires c.maxBuffer > 0 && c.hasBus
    requires forall t :: 0 <= t <= |events| ==> |Run(c, events[..t]).spooled| <= c.maxBuffer
    requires serial < Run(c, events).ingested
    ensures serial in Run(c, events).log || serial in Run(c, events).buffer
  {
    EveryPacketAccountedFor(c, events, serial);
  }

  /** With an upstream, the synced counter is the number of successful publishes, duplicates included. */
  lemma {:induction false} SyncedCountsPublishes(c: Config, events: seq<Event>)
    requires c.hasBus
    ensures Run(c, events).syncedTotal == |Run(c, events).log|
  {
    if events != [] {
      SyncedCountsPublishes(c, Front(events));
    }
  }

  /** So the counter tells the publishes, in every run, exactly if there is an upstream. */
  lemma CounterIsTrueExactly(c: Config)
    requires c.maxBuffer > 0
    ensures (forall events :: Run(c, events).syncedTotal == |Run(c, events).log|) <==> c.hasBus
  {
    hide Run;
    if c.hasBus {
      forall events
        ensures Run(c, events).syncedTotal == |Run(c, events).log|
      {
        SyncedCountsPublishes(c, events);
      }
    } else {
      FlushWithoutBusLosesPackets(c);
      var events := [Ingest(true, true), Flush(0, true)];
      assert Run(c, events).syncedTotal != |Run(c, events).log|;
    }
  }

  /** Without one a flush counts and discards what was never sent. */
  lemma FlushWithoutBusLosesPackets(c: Config)
    requires c.maxBuffer > 0 && !c.hasBus
    ensures
      var s := Run(c, [Ingest(true, true), Flush(0, true)]);
      s.ingested == 1 && s.syncedTotal == 1 && s.log == [] && s.buffer == []
  {
    RunSnoc(c, [], Ingest(true, true));
    RunSnoc(c, [Ingest(true, true)], Flush(0, true));
    assert [Ingest(true, true)] + [Flush(0, true)] == [Ingest(true, true), Flush(0, true)];
    assert [] + [Ingest(true, true)] == [Ingest(true, true)];
  }

  // ---------------------------------------------------------------- order

  /** The log with repeats removed: each serial where it was first published. */
  function Firsts(log: seq<nat>): (f: seq<nat>)
    ensures forall x :: x in f <==> x in log
  {
    if log == [] then []
    else
      var f, last := Firsts(log[..|log| - 1]), log[|log| - 1];
      assert forall x :: x in log <==> x in log[..|log| - 1] || x == last;
      if last in f then f else f + [last]
  }

  ghost predicate Increasing(s: seq<nat>) {
    forall i, j :: 0 <= i < j < |s| ==> s[i] < s[j]
  }

  /** Every buffered packet not yet published is newer than everything published. */
  ghost predicate NoneOvertaken(buffer: seq<nat>, log: seq<nat>) {
    forall b, l :: b in buffer && b !in log && l in log ==> l < b
  }

  ghost predicate Ordered(s: Mule) {
    && Increasing(s.buffer) && Increasing(Firsts(s.log))
    && (forall b :: b in s.buffer ==> b < s.ingested)
    && (forall l :: l in s.log ==> l < s.ingested)
    && NoneOvertaken(s.buffer, s.log)
  }

  lemma FirstsOfAppend(log: seq<nat>, x: nat)
    ensures Firsts(log + [x]) == if x in log then Firsts(log) else Firsts(log) + [x]
  {
    assert (log + [x])[..|log|] == log;
  }

  lemma IncreasingAppend(s: seq<nat>, x: nat)
    requires Increasing(s) && forall y :: y in s ==> y < x
    ensures Increasing(s + [x])
  {
    assert forall i :: 0 <= i < |s| ==> s[i] in s;
  }

  lemma IncreasingTail(s: seq<nat>)
    requires s != [] && Increasing(s)
    ensures Increasing(s[1..]) && forall y :: y in s[1..] ==> y in s
  {}

  /** Publishing a buffered packet whose predecessors in the buffer are all published. */
  lemma PublishKeepsOrder(buffer: seq<nat>, log: seq<nat>, k: nat)
    requires k < |buffer| && forall i :: 0 <= i < k ==> buffer[i] in log
    requires Increasing(buffer) && Increasing(Firsts(log)) && NoneOvertaken(buffer, log)
    ensures Increasing(Firsts(log + [buffer[k]])) && NoneOvertaken(buffer, log + [buffer[k]])
  {
    var x := buffer[k];
    hide Increasing, Firsts;
    FirstsOfAppend(log, x);
    if x !in log {
      IncreasingAppend(Firsts(log), x);
    }
    PublishOvertakesNone(buffer, log, k);
  }

  lemma PublishOvertakesNone(buffer: seq<nat>, log: seq<nat>, k: nat)
    requires k < |buffer| && forall i :: 0 <= i < k ==> buffer[i] in log
    requires Increasing(buffer) && NoneOvertaken(buffer, log)
    ensures NoneOvertaken(buffer, log + [buffer[k]])
  {
    forall b, l | b in buffer && b !in log + [buffer[k]] && l in log + [buffer[k]]
      ensures l < b
    {
      if l !in log {
        NewerThanPublished(buffer, log, k, b);
      }
    }
  }

  lemma NewerThanPublished(buffer: seq<nat>, log: seq<nat>, k: nat, b: nat)
    requires k < |buffer| && forall i :: 0 <= i < k ==> buffer[i] in log
    requires Increasing(buffer) && b in buffer && b !in log && b != buffer[k]
    ensures buffer[k] < b
  {
    var j :| 0 <= j < |buffer| && buffer[j] == b;
    assert k < j;
  }

  /** Publishing a prefix of the buffer from its start keeps the order, repeats and all. */
  lemma {:induction false} PrefixKeepsOrder(buffer: seq<nat>, log: seq<nat>, n: nat)
    requires n <= |buffer|
    requires Increasing(buffer) && Increasing(Firsts(log)) && NoneOvertaken(buffer, log)
    ensures Increasing(Firsts(log + buffer[..n])) && NoneOvertaken(buffer, log + buffer[..n])
    decreases n
  {
    hide Increasing, NoneOvertaken, Firsts;
    if n == 0 {
      assert log + buffer[..0] == log;
    } else {
      var before := log + buffer[..n - 1];
      PrefixKeepsOrder(buffer, log, n - 1);
      assert forall i :: 0 <= i < n - 1 ==> before[|log| + i] == buffer[i];
      PublishKeepsOrder(buffer, before, n - 1);
      assert log + buffer[..n] == before + [buffer[n - 1]];
    }
  }

  lemma FlushKeepsOrder(c: Config, s: Mule, count: nat, reopened: bool)
    requires c.hasBus && Ordered(s)
    ensures Ordered(Flushed(c, s, count, reopened))
  {
    var n := if count < |s.buffer| then count else |s.buffer|;
    PrefixKeepsOrder(s.buffer, s.log, n);
    assert s.buffer[..|s.buffer|] == s.buffer;
    forall l | l in s.log + s.buffer[..n]
      ensures l < s.ingested
    {
      assert l in s.log || l in s.buffer;
    }
  }

  /** A packet goes out directly while an older one that was never sent still waits. */
  ghost predicate Overtakes(c: Config, s: Mule, e: Event) {
    e.Ingest? && e.accepted && s.Direct(c.hasBus) && exists b :: b in s.buffer && b !in s.log
  }

  lemma IngestKeepsOrderExactly(c: Config, s: Mule, accepted: bool, written: bool)
    requires c.maxBuffer > 0 && c.hasBus && Ordered(s)
    ensures Ordered(Ingested(c, s, accepted, written)) <==> !Overtakes(c, s, Ingest(accepted, written))
  {
    if s.Direct(c.hasBus) && accepted {
      DirectKeepsOrderExactly(s);
      hide Ordered;
    } else {
      var t := if s.Direct(c.hasBus) then s.(status := DdilBuffering) else s;
      assert Ordered(t);
      hide Ordered, Spooled;
      SpoolKeepsOrder(c, t, written);
    }
  }

  lemma DirectKeepsOrderExactly(s: Mule)
    requires Ordered(s)
    ensures
      var t := s.(ingested := s.ingested + 1, log := s.log + [s.ingested], syncedTotal := s.syncedTotal + 1);
      Ordered(t) <==> !exists b :: b in s.buffer && b !in s.log
  {
    hide Increasing, Firsts;
    FirstsOfAppend(s.log, s.ingested);
    IncreasingAppend(Firsts(s.log), s.ingested);
    var log := s.log + [s.ingested];
    if b :| b in s.buffer && b !in s.log {
      assert b !in log && s.ingested in log;
    }
  }

  lemma SpoolKeepsOrder(c: Config, s: Mule, written: bool)
    requires Ordered(s)
    ensures Ordered(Spooled(c, s, written))
  {
    hide Increasing;
    var kept := if |s.buffer| >= c.maxBuffer && s.buffer != [] then s.buffer[1..] else s.buffer;
    if s.buffer != [] {
      IncreasingTail(s.buffer);
    }
    IncreasingAppend(kept, s.ingested);
    assert Spooled(c, s, written).buffer == kept + [s.ingested];
  }

  /** A step from an ordered state keeps it ordered exactly if it does not overtake. */
  lemma StepKeepsOrderExactly(c: Config, s: Mule, e: Event)
    requires c.maxBuffer > 0 && c.hasBus && Ordered(s)
    ensures Ordered(Step(c, s, e)) <==> !Overtakes(c, s, e)
  {
    match e
    case Ingest(accepted, written) => IngestKeepsOrderExactly(c, s, accepted, written);
    case Flush(count, reopened) => FlushKeepsOrder(c, s, count, reopened);
    case Restore(reopened) => FlushKeepsOrder(c, Off(s), |s.buffer|, reopened);
    case _ =>
  }

  /** Once a packet has been overtaken, the next complete flush publishes the two out of order. */
  lemma OvertakenGoesOutLate(c: Config, s: Mule, reopened: bool, b: nat, l: nat)
    requires c.hasBus && b in s.buffer && b !in s.log && l in s.log && b < l
    ensures !Increasing(Firsts(Flushed(c, s, |s.buffer|, reopened).log))
  {
    var after := s.log + s.buffer;
    FirstsKeepPrefix(s.log, s.buffer);
    var first := Firsts(s.log);
    assert l in first && b in Firsts(after);
    var i :| 0 <= i < |first| && first[i] == l;
    var j :| 0 <= j < |Firsts(after)| && Firsts(after)[j] == b;
    assert j >= |first|;
    assert Firsts(after)[i] == l;
  }

  lemma {:induction false} FirstsKeepPrefix(a: seq<nat>, b: seq<nat>)
    ensures Firsts(a) <= Firsts(a + b)
    decreases b
  {
    if b == [] {
      assert a + b == a;
    } else {
      var front, last := b[..|b| - 1], b[|b| - 1];
      FirstsKeepPrefix(a, front);
      assert a + b == (a + front) + [last];
      FirstsOfAppend(a + front, last);
    }
  }

  /** What holds of the buffer and the log in every run: the buffer is in ingest order, and its newest
      packet was never sent. */
  ghost predicate Fresh(s: Mule) {
    && Increasing(s.buffer)
    && (forall b :: b in s.buffer ==> b < s.ingested)
    && (forall l :: l in s.log ==> l < s.ingested)
    && (s.buffer != [] ==> s.buffer[|s.buffer| - 1] !in s.log)
  }

  lemma SpoolKeepsFresh(c: Config, s: Mule, written: bool)
    requires Fresh(s)
    ensures Fresh(Spooled(c, s, written))
  {
    hide Increasing;
    var kept := if |s.buffer| >= c.maxBuffer && s.buffer != [] then s.buffer[1..] else s.buffer;
    if s.buffer != [] {
      IncreasingTail(s.buffer);
    }
    IncreasingAppend(kept, s.ingested);
    assert Spooled(c, s, written).buffer == kept + [s.ingested];
  }

  lemma FlushKeepsFresh(c: Config, s: Mule, count: nat, reopened: bool)
    requires Fresh(s)
    ensures Fresh(Flushed(c, s, count, reopened))
  {
    var n := if count < |s.buffer| then count else |s.buffer|;
    forall l | l in s.log + s.buffer[..n]
      ensures l < s.ingested
    {
      assert l in s.log || l in s.buffer;
    }
    assert s.buffer[..|s.buffer|] == s.buffer;
  }

  lemma StepKeepsFresh(c: Config, s: Mule, e: Event)
    requires c.maxBuffer > 0 && Fresh(s)
    ensures Fresh(Step(c, s, e))
  {
    match e
    case Ingest(accepted, written) =>
      if s.Direct(c.hasBus) && accepted {
        assert s.buffer != [] ==> s.buffer[|s.buffer| - 1] in s.buffer;
      } else {
        SpoolKeepsFresh(c, if s.Direct(c.hasBus) then s.(status := DdilBuffering) else s, written);
      }
      hide Spooled;
    case Flush(count, reopened) => FlushKeepsFresh(c, s, count, reopened);
    case Restore(reopened) => FlushKeepsFresh(c, Off(s), |s.buffer|, reopened);
    case _ =>
  }

  /** The newest buffered packet has never been sent, in every run. */
  lemma {:induction false} NewestIsUnsent(c: Config, events: seq<Event>)
    requires c.maxBuffer > 0
    ensures Fresh(Run(c, events))
  {
    if events != [] {
      NewestIsUnsent(c, Front(events));
      StepKeepsFresh(c, Run(c, Front(events)), events[|events| - 1]);
      hide Fresh, Step;
    }
  }

  /** A direct publish over a buffer that is not empty, as the status and the metrics show before the
      call. */
  predicate PassesBy(c: Config, s: Mule, e: Event) {
    e.Ingest? && e.accepted && s.Direct(c.hasBus) && s.buffer != []
  }

  /** In a run, that is what overtaking is. */
  lemma OvertakingShows(c: Config, events: seq<Event>, e: Event)
    requires c.maxBuffer > 0
    ensures Overtakes(c, Run(c, events), e) <==> PassesBy(c, Run(c, events), e)
  {
    NewestIsUnsent(c, events);
    hide Run, Increasing;
    var s := Run(c, events);
    if s.buffer != [] {
      assert s.buffer[|s.buffer| - 1] in s.buffer;
    }
  }

  /** What the upstream will have received for the first time, once the buffer is flushed, is in ingest
      order. */
  ghost predicate DeliversInOrder(c: Config, s: Mule) {
    Increasing(Firsts(Flushed(c, s, |s.buffer|, true).log))
  }

  lemma IncreasingPrefix(a: seq<nat>, b: seq<nat>)
    requires a <= b && Increasing(b)
    ensures Increasing(a)
  {
    assert forall i :: 0 <= i < |a| ==> a[i] == b[i];
  }

  /** In a run, that is what `Ordered` is. */
  lemma OrderedShows(c: Config, events: seq<Event>)
    requires c.maxBuffer > 0 && c.hasBus
    ensures Ordered(Run(c, events)) <==> DeliversInOrder(c, Run(c, events))
  {
    var s := Run(c, events);
    NewestIsUnsent(c, events);
    hide Run, Increasing, Firsts;
    if Ordered(s) {
      FlushKeepsOrder(c, s, |s.buffer|, true);
    } else if DeliversInOrder(c, s) {
      DeliveredSoFar(c, s);
      var b, l :| b in s.buffer && b !in s.log && l in s.log && !(l < b);
      OvertakenGoesOutLate(c, s, true, b, l);
    }
  }

  lemma DeliveredSoFar(c: Config, s: Mule)
    requires c.hasBus && DeliversInOrder(c, s)
    ensures Increasing(Firsts(s.log))
  {
    hide Increasing, Firsts;
    FirstsKeepPrefix(s.log, s.buffer);
    IncreasingPrefix(Firsts(s.log), Firsts(Flushed(c, s, |s.buffer|, true).log));
  }

  /** Over whole runs: at every moment what is and will be delivered is in ingest order exactly if no
      packet was ever published directly over a buffer that was not empty. */
  lemma {:induction false} OrderKeptExactly(c: Config, events: seq<Event>)
    requires c.maxBuffer > 0 && c.hasBus
    ensures
      (forall t :: 0 <= t <= |events| ==> DeliversInOrder(c, Run(c, events[..t])))
      <==> (forall k :: 0 <= k < |events| ==> !PassesBy(c, Run(c, events[..k]), events[k]))
  {
    hide DeliversInOrder, PassesBy, Ordered, Overtakes, Step, Run;
    if events == [] {
      assert events[..0] == [];
      OrderedShows(c, []);
      NothingIsOrdered(c);
    } else {
      var n := |events| - 1;
      var front, e := events[..n], events[n];
      OrderKeptExactly(c, front);
      assert forall t :: 0 <= t <= n ==> front[..t] == events[..t];
      assert events[..n + 1] == front + [e] && front[..n] == front;
      OrderedShows(c, front);
      OrderedShows(c, front + [e]);
      OvertakingShows(c, front, e);
      RunSnoc(c, front, e);
      if Ordered(Run(c, front)) {
        StepKeepsOrderExactly(c, Run(c, front), e);
      }
    }
  }

  lemma NothingIsOrdered(c: Config)
    ensures Ordered(Run(c, []))
  {}

  /** Runs in which the two sections of SetSimulationMode(false) are one step and its flush succeeds. */
  ghost predicate Tame(events: seq<Event>) {
    forall e :: e in events ==> !e.BlackoutOff?
  }

  /** In such runs, with arbitrary publish failures everywhere else, the link is only ever used
      directly when the buffer is empty, and packets reach the upstream for the first time in the
      order they were ingested. */
  lemma {:induction false} TameRunsKeepOrder(c: Config, events: seq<Event>)
    requires c.maxBuffer > 0 && c.hasBus && Tame(events)
    ensures
      var s := Run(c, events);
      && (s.status == Online && !s.simulated ==> s.buffer == [])
      && Ordered(s)
  {
    if events != [] {
      assert forall e :: e in Front(events) ==> e in events;
      var e := events[|events| - 1];
      assert e in events;
      TameRunsKeepOrder(c, Front(events));
      hide Ordered;
      StepKeepsOrderExactly(c, Run(c, Front(events)), e);
    }
  }

  /** A restore whose flush fails leaves the link open and the buffer full; the next packet then
      overtakes. */
  lemma FailedRestoreLosesOrder(c: Config)
    requires c.maxBuffer > 0 && c.hasBus
    ensures
      var events := [BlackoutOn, Ingest(true, true), BlackoutOff, Flush(0, true), Ingest(true, true), Flush(1, true)];
      Run(c, events).log == [1, 0]
  {
    var events := [BlackoutOn, Ingest(true, true), BlackoutOff, Flush(0, true), Ingest(true, true), Flush(1, true)];
    var e4 := [BlackoutOn, Ingest(true, true), BlackoutOff, Flush(0, true)];
    var e5 := [BlackoutOn, Ingest(true, true), BlackoutOff, Flush(0, true), Ingest(true, true)];
    assert e4 + [Ingest(true, true)] == e5 && e5 + [Flush(1, true)] == events;
    FailedRestoreStalls(c);
    RunSnoc(c, e4, Ingest(true, true));
    RunSnoc(c, e5, Flush(1, true));
    hide Run;
    assert Run(c, e5).buffer == [0] && Run(c, e5).log == [1];
  }

  lemma FailedRestoreStalls(c: Config)
    requires c.maxBuffer > 0 && c.hasBus
    ensures
      var s := Run(c, [BlackoutOn, Ingest(true, true), BlackoutOff, Flush(0, true)]);
      s.buffer == [0] && s.log == [] && s.ingested == 1 && s.Direct(c.hasBus)
  {
    var e1 := [BlackoutOn];
    var e2 := [BlackoutOn, Ingest(true, true)];
    var e3 := [BlackoutOn, Ingest(true, true), BlackoutOff];
    assert [] + [BlackoutOn] == e1 && e1 + [Ingest(true, true)] == e2 && e2 + [BlackoutOff] == e3;
    assert e3 + [Flush(0, true)] == [BlackoutOn, Ingest(true, true), BlackoutOff, Flush(0, true)];
    RunSnoc(c, [], BlackoutOn);
    RunSnoc(c, e1, Ingest(true, true));
    RunSnoc(c, e2, BlackoutOff);
    RunSnoc(c, e3, Flush(0, true));
    assert Run(c, e1) == Start(c).(simulated := true, status := DdilBuffering);
    hide Run;
    assert Run(c, e2).buffer == [0] && Run(c, e2).log == [] && Run(c, e2).ingested == 1;
  }

  // ---------------------------------------------------------------- what is forwarded

  /** Behind the prefix a forwarded topic is the topic itself, the prefix put there or found there. So
      two topics are forwarded alike exactly if they are one but for that prefix. */
  lemma TopicSurvives(topic: string, other: string)
    ensures "upstream/" <= FormatUpstreamTopic(topic)
    ensures FormatUpstreamTopic(topic)[9..] == if "upstream/" <= topic then topic[9..] else topic
    ensures TrimPrefix(FormatUpstreamTopic(topic), "upstream/") == TrimPrefix(topic, "upstream/")
    ensures
      FormatUpstreamTopic(topic) == FormatUpstreamTopic(other)
      <==> TrimPrefix(topic, "upstream/") == TrimPrefix(other, "upstream/")
    ensures
      !("upstream/" <= topic) && !("upstream/" <= other) ==>
        (FormatUpstreamTopic(topic) == FormatUpstreamTopic(other) <==> topic == other)
  {
    TopicBehindPrefix(topic);
    TopicBehindPrefix(other);
    hide FormatUpstreamTopic;
  }

  lemma TopicBehindPrefix(topic: string)
    ensures FormatUpstreamTopic(topic) == "upstream/" + TrimPrefix(topic, "upstream/")
  {}

  /** Every packet on the upstream names, behind the prefix, the topic of the ingested packet that its
      serial points to, and carries that packet's payload. */
  lemma ReceivedKeepsTopic(mule: DataMule, i: nat)
    requires mule.Valid() && mule.upstreamBus != null && i < |mule.published|
    ensures mule.published[i] < |mule.history| && i < |mule.upstreamBus.received|
    ensures
      var sent, got := mule.history[mule.published[i]], mule.upstreamBus.received[i];
      && "upstream/" <= got.topic
      && got.topic[9..] == (if "upstream/" <= sent.topic then sent.topic[9..] else sent.topic)
      && got.payload == sent.payload
  {
    TopicSurvives(mule.history[mule.published[i]].topic, "");
    hide FormatUpstreamTopic, DataMule.BufferIs;
  }

  // ---------------------------------------------------------------- no re-entry

  lemma UpstreamTopicIsForeign(topic: string, selector: string)
    ensures HasPrefix(FormatUpstreamTopic(topic), "upstream/")
    ensures FormatUpstreamTopic(FormatUpstreamTopic(topic)) == FormatUpstreamTopic(topic)
    ensures
      var first := Split(selector, '/')[0];
      !Selector.Wild(first) && first != "upstream" ==>
        !Selector.Loop(Split(selector, '/'), Split(FormatUpstreamTopic(topic), '/'))
  {
    var t := FormatUpstreamTopic(topic);
    assert t[..9] == "upstream/";
    assert t == "upstream" + "/" + t[9..];
    SplitAt("upstream", '/', t[9..]);
  }
}
