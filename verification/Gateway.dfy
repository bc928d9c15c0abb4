/** The gateway's event manager: deduplicate, journal, report to the host, acknowledge, replay. */
module Gateway {
  import opened Bytes
  import opened Clock
  import opened Frames
  import opened Protocol
  import opened Journal
  import opened Registry

  /** "GTW01" */
  const GATEWAY_ID: Id := [71, 84, 87, 48, 49, 0]

  const EVENT_ACK_MIN := 100
  const EVENT_ACK_MAX := 300

  datatype PendingAck =
    | NoAck
    | Ack(frame: Frame, scheduledAt: u32, delayMs: u32)

  /** What the host reads about one event. */
  datatype Report = Report(key: EventKey, eventType: u8, latE7: i32, lonE7: i32,
                           batteryPct: u8, rssiDbm: i16, hopCount: u8, attempt: u16)

  datatype Line =
    | CsvV1(report: Report)
    | ReplayCsvV1(report: Report)
    | HbV1(name: seq<u8>, latE7: i32, lonE7: i32, batteryPct: u8, rssiDbm: i16)

  datatype Counters = Counters(total: u32, duplicates: u32, ackSent: u32, journaled: u32, replayed: u32,
      heartbeats: u32)

  const ZERO := Counters(0, 0, 0, 0, 0, 0)

  datatype GatewayState = GatewayState(
    journal: State, monitor: Monitor, ack: PendingAck, counters: Counters, output: seq<Line>)

  // ---------------------------------------------------------------------
  // Specification
  // ---------------------------------------------------------------------

  function FrameReport(f: Frame): Report {
    Report(FrameKey(f), f.eventType, f.latE7, f.lonE7, f.batteryPct, f.lastRssiDbm, f.hopCount, f.attempt)
  }

  function RecordReport(r: Record): Report {
    Report(RecordKey(r), r.eventType, r.latE7, r.lonE7, r.batteryPct, r.rssiDbm, r.hopCount, r.attempt)
  }

  function ScheduledAck(f: Frame, now: u32, entropy: nat): PendingAck {
    Ack(f, now, Random(EVENT_ACK_MIN, EVENT_ACK_MAX, entropy))
  }

  function AckIfRequested(g: GatewayState, f: Frame, now: u32, entropy: nat): GatewayState {
    if HasFlag(f.flags, FLAG_REQUIRE_ACK) then g.(ack := ScheduledAck(f, now, entropy)) else g
  }

  /** Every frame counts and refreshes the registry. */
  function Heard(g: GatewayState, f: Frame, now: u32): GatewayState {
    g.(counters := g.counters.(total := Succ32(g.counters.total)),
       monitor := g.monitor.(nodes := Seen(g.monitor.nodes, f.originId, f.lastRssiDbm, f.batteryPct,
                                           f.frameType == FRAME_HEARTBEAT, now)))
  }

  function HeartbeatHandled(g: GatewayState, f: Frame, now: u32): GatewayState {
    g.(counters := g.counters.(heartbeats := Succ32(g.counters.heartbeats)),
       monitor := g.monitor.(nodes := Seen(g.monitor.nodes, f.originId, f.lastRssiDbm, f.batteryPct, true, now)),
       output := g.output + [HbV1(CString(f.originId), f.latE7, f.lonE7, f.batteryPct, f.lastRssiDbm)])
  }

  predicate IsEmergency(f: Frame) {
    f.frameType == FRAME_EVENT && f.eventType != EVENT_TEST
  }

  /** The journal step of an emergency that is stored: the first of its two flash writes. */
  function Recorded(g: GatewayState, f: Frame, now: u32, ok: bool): GatewayState {
    g.(journal := Appended(g.journal, f, now, ok))
  }

  function ReportedNew(g: GatewayState, f: Frame, ok: bool): GatewayState {
    g.(counters := g.counters.(journaled := Succ32(g.counters.journaled)),
       output := g.output + [CsvV1(FrameReport(f))],
       journal := Queued(g.journal, FrameKey(f), ok))
  }

  /** The rest: report, mark as queued (the second flash write) and acknowledge. */
  function Announced(g: GatewayState, f: Frame, now: u32, entropy: nat, ok: bool): GatewayState {
    AckIfRequested(ReportedNew(g, f, ok), f, now, entropy)
  }

  function EmergencyHandled(g: GatewayState, f: Frame, now: u32, entropy: nat, appendOk: bool,
                            queueOk: bool): GatewayState {
    if Stores(g.journal, f) then Announced(Recorded(g, f, now, appendOk), f, now, entropy, queueOk)
    else AckIfRequested(g.(counters := g.counters.(duplicates := Succ32(g.counters.duplicates))), f, now, entropy)
  }

  function Processed(g: GatewayState, f: Frame, now: u32, entropy: nat, appendOk: bool, queueOk: bool): GatewayState {
    var h := Heard(g, f, now);
    if f.frameType == FRAME_HEARTBEAT then HeartbeatHandled(h, f, now)
    else if IsEmergency(f) then EmergencyHandled(h, f, now, entropy, appendOk, queueOk)
    else h
  }

  predicate AckDue(g: GatewayState, now: u32) {
    g.ack.Ack? && Due(now, g.ack.scheduledAt, g.ack.delayMs)
  }

  function Updated(g: GatewayState, now: u32): GatewayState {
    var h :=
      if AckDue(g, now) then g.(ack := NoAck, counters := g.counters.(ackSent := Succ32(g.counters.ackSent)))
      else g;
    h.(monitor := Registry.Polled(h.monitor, now))
  }

  function AckOnAir(g: GatewayState, now: u32, auth: Auth): seq<Frame> {
    if AckDue(g, now) then
      [AckFrame(GATEWAY_ID, g.ack.frame.originId, g.ack.frame.eventId, g.ack.frame.eventType, g.ack.frame.maxHops,
          now, auth)]
    else []
  }

  function HostCommitted(g: GatewayState, k: EventKey, ok: bool): GatewayState {
    g.(journal := Committed(g.journal, k, ok))
  }

  // Boot -----------------------------------------------------------------

  /** The synthetic event that stands for a replayed record in the ACK slot. */
  function SynFrame(r: Record, auth: Auth): Frame {
    Sealed(BLANK.(frameType := FRAME_EVENT, eventType := r.eventType, flags := FLAG_REQUIRE_ACK,
                  originId := Cut(r.originId), eventId := r.eventId), auth)
  }

  /** Scheduled into the future with no delay. */
  function ReplayAck(r: Record, rank: nat, now: u32, auth: Auth): PendingAck {
    Ack(SynFrame(r, auth), (now + 500 + rank * 300) % TWO_32, 0)
  }

  function ReplayReported(g: GatewayState, r: Record, ok: bool): GatewayState {
    g.(output := g.output + [ReplayCsvV1(RecordReport(r))],
       journal := if r.status == RECEIVED then Queued(g.journal, RecordKey(r), ok) else g.journal,
       counters := g.counters.(replayed := Succ32(g.counters.replayed)))
  }

  /** One turn of the replay loop, on the record of rank `rank`. */
  function ReplayedOne(g: GatewayState, rank: nat, now: u32, ok: bool, auth: Auth): GatewayState {
    var ps := ReplayPositions(g.journal.records, |g.journal.records|);
    if rank >= |ps| || ps[rank] >= |g.journal.records| then g
    else
      var r := g.journal.records[ps[rank]];
      ReplayReported(g, r, ok).(ack := if g.ack.NoAck? then ReplayAck(r, rank, now, auth) else g.ack)
  }

  /** The first `n` turns; `writes(i)` says whether the flash write of turn `i` succeeds. */
  function Replayed(g: GatewayState, n: nat, now: u32, writes: nat -> bool, auth: Auth): GatewayState {
    if n == 0 then g else ReplayedOne(Replayed(g, n - 1, now, writes, auth), n - 1, now, writes(n - 1), auth)
  }

  /** The journal loaded, nothing replayed yet. */
  function Loaded(flash: Nvs, lastCheckMs: u32): GatewayState {
    GatewayState(Booted(flash), Monitor(seq(MAX_NODES, _ => NO_NODE), lastCheckMs), NoAck, ZERO, [])
  }

  function ReplayLength(s: State): nat {
    |ReplayPositions(s.records, |s.records|)|
  }

  function Initialised(flash: Nvs, now: u32, writes: nat -> bool, auth: Auth): GatewayState {
    var loaded := Loaded(flash, 0);
    var g := Replayed(loaded, ReplayLength(loaded.journal), now, writes, auth);
    g.(monitor := g.monitor.(lastCheckMs := now))
  }

  // ---------------------------------------------------------------------
  // The implementation
  // ---------------------------------------------------------------------

  class EventManager {
    const journal: GatewayJournal
    const nodeReg: NodeRegistry
    const auth: Auth

    var totalPackets: u32
    var duplicatePackets: u32
    var ackSent: u32
    var journaledEvents: u32
    var replayedEvents: u32
    var heartbeatsReceived: u32

    var pendingAckValid: bool
    var pendingAckFrame: Frame
    var ackScheduledAt: u32
    var ackDelayMs: u32
    var lastOfflineCheckMs: u32

    ghost var output: seq<Line>
    ghost var radio: seq<Frame>

    ghost predicate Valid()
      reads journal, journal.records
    {
      journal.Valid() && nodeReg.Valid()
    }

    ghost function CountersView(): Counters
      reads this
    {
      Counters(totalPackets, duplicatePackets, ackSent, journaledEvents, replayedEvents, heartbeatsReceived)
    }

    ghost function AckView(): PendingAck
      reads this
    {
      if pendingAckValid then Ack(pendingAckFrame, ackScheduledAt, ackDelayMs) else NoAck
    }

    ghost function View(): GatewayState
      reads this, journal, journal.records, nodeReg.nodes
    {
      GatewayState(journal.View(), Monitor(nodeReg.nodes[..], lastOfflineCheckMs), AckView(), CountersView(), output)
    }

    /** Power-on; `flash` is what survived. */
    constructor (flash: Nvs, key: Auth)
      ensures Valid() && fresh(journal) && fresh(journal.records) && fresh(nodeReg.nodes)
      ensures journal.nvs == flash && auth == key
      ensures AckView() == NoAck && CountersView() == ZERO && output == [] && radio == []
      ensures lastOfflineCheckMs == 0
    {
      journal := new GatewayJournal(flash);
      nodeReg := new NodeRegistry();
      auth := key;
      totalPackets, duplicatePackets, ackSent, journaledEvents, replayedEvents, heartbeatsReceived := 0, 0, 0, 0, 0, 0;
      pendingAckValid := false;
      pendingAckFrame := BLANK;
      ackScheduledAt, ackDelayMs, lastOfflineCheckMs := 0, 0, 0;
      output, radio := [], [];
    }

    method Init(now: u32, writes: nat -> bool)
      requires Valid() && AckView() == NoAck && CountersView() == ZERO && output == [] && lastOfflineCheckMs == 0
      modifies this, journal, journal.records, nodeReg.nodes
      ensures Valid() && radio == old(radio)
      ensures View() == Initialised(old(journal.nvs), now, writes, auth)
    {
      hide Booted, ReplayedOne, UsedCount;
      ghost var flash := journal.nvs;
      nodeReg.Init();
      var uncommitted := journal.Init();
      assert View() == Loaded(flash, 0);
      ghost var g := View();
      NothingToReplay(g.journal.records, |g.journal.records|);
      assert g.journal.records[..|g.journal.records|] == g.journal.records;
      assert g.journal == journal.View();
      assert uncommitted == 0 ==> ReplayLength(g.journal) == 0;
      if uncommitted > 0 {
        ReplayUncommitted(now, writes);
      }
      lastOfflineCheckMs := now;
    }

    method ReplayUncommitted(now: u32, writes: nat -> bool)
      requires Valid()
      modifies this, journal, journal.records
      ensures Valid() && radio == old(radio)
      ensures View() == Replayed(old(View()), ReplayLength(old(journal.View())), now, writes, auth)
    {
      hide UsedCount, ReplayedOne;
      ghost var g := View();
      var n := journal.ReplayCount();
      for i := 0 to n
        invariant Valid() && radio == old(radio)
        invariant View() == Replayed(g, i, now, writes, auth)
      {
        ReplayOne(i, now, writes(i));
      }
    }

    /** The loop body: select by rank, report, mark as queued, and fill an empty ACK slot. */
    method ReplayOne(rank: nat, now: u32, writeOk: bool)
      requires Valid()
      modifies this, journal, journal.records
      ensures Valid() && radio == old(radio)
      ensures View() == ReplayedOne(old(View()), rank, now, writeOk, auth)
    {
      hide UsedCount, ReplayReported, ReplayAck;
      var found, at := journal.GetReplayRecord(rank);
      PositionsInRange(journal.records[..], MAX_RECORDS);
      if !found {
        return;
      }
      var rec := journal.records[at];
      ReportReplay(rec, writeOk);
      AckForReplay(rec, rank, now);
    }

    method ReportReplay(rec: Record, writeOk: bool)
      requires Valid()
      modifies `output, `replayedEvents, journal, journal.records
      ensures Valid()
      ensures View() == ReplayReported(old(View()), rec, writeOk)
    {
      hide UsedCount, Queued, CString, Matches;
      output := output + [ReplayCsvV1(RecordReport(rec))];
      if rec.status == RECEIVED {
        var _ := journal.MarkHostQueued(RecordKey(rec), writeOk);
      }
      replayedEvents := Succ32(replayedEvents);
    }

    method AckForReplay(rec: Record, rank: nat, now: u32)
      modifies `pendingAckFrame, `ackScheduledAt, `ackDelayMs, `pendingAckValid
      ensures AckView() == if old(AckView()).NoAck? then ReplayAck(rec, rank, now, auth) else old(AckView())
    {
      if !pendingAckValid {
        var syn := BLANK.(frameType := FRAME_EVENT, eventType := rec.eventType, flags := FLAG_REQUIRE_ACK,
                          originId := Cut(rec.originId), eventId := rec.eventId);
        pendingAckFrame := FinalizeFrame(syn, auth);
        ackScheduledAt := (now + 500 + rank * 300) % TWO_32;
        ackDelayMs := 0;
        pendingAckValid := true;
      }
    }

    method ScheduleAck(frame: Frame, now: u32, entropy: nat)
      modifies `pendingAckFrame, `ackScheduledAt, `ackDelayMs, `pendingAckValid
      ensures AckView() == ScheduledAck(frame, now, entropy)
    {
      pendingAckFrame := frame;
      ackScheduledAt := now;
      ackDelayMs := Random(EVENT_ACK_MIN, EVENT_ACK_MAX, entropy);
      pendingAckValid := true;
    }

    method HandleHeartbeat(frame: Frame, now: u32)
      requires Valid()
      modifies `heartbeatsReceived, `output, nodeReg.nodes
      ensures Valid()
      ensures View() == HeartbeatHandled(old(View()), frame, now)
    {
      hide CString, Seen;
      heartbeatsReceived := Succ32(heartbeatsReceived);
      nodeReg.Update(frame.originId, frame.lastRssiDbm, frame.batteryPct, true, now);
      output := output + [HbV1(CString(frame.originId), frame.latE7, frame.lonE7, frame.batteryPct, frame.lastRssiDbm)];
    }

    method ReportNew(frame: Frame, queueOk: bool)
      requires Valid()
      modifies `journaledEvents, `output, journal, journal.records
      ensures Valid()
      ensures View() == ReportedNew(old(View()), frame, queueOk)
    {
      hide UsedCount, Queued, FrameKey, FrameReport;
      journaledEvents := Succ32(journaledEvents);
      output := output + [CsvV1(FrameReport(frame))];
      var _ := journal.MarkHostQueued(FrameKey(frame), queueOk);
    }

    /** The emergency path: append if new, report, mark as queued, schedule the ACK. */
    method HandleEmergency(frame: Frame, now: u32, entropy: nat, appendOk: bool, queueOk: bool) returns (isNew: bool)
      requires Valid()
      modifies this, journal, journal.records
      ensures Valid() && radio == old(radio)
      ensures isNew == Stores(old(journal.View()), frame)
      ensures View() == EmergencyHandled(old(View()), frame, now, entropy, appendOk, queueOk)
    {
      hide UsedCount, Appended, ReportedNew, Stores, ScheduledAck, HasFlag;
      isNew := journal.AppendIfNew(frame, now, appendOk);
      if !isNew {
        NotStored(old(journal.View()), frame, now, appendOk);
        duplicatePackets := Succ32(duplicatePackets);
      } else {
        ReportNew(frame, queueOk);
      }
      if HasFlag(frame.flags, FLAG_REQUIRE_ACK) {
        ScheduleAck(frame, now, entropy);
      }
    }

    method ProcessFrame(frame: Frame, now: u32, entropy: nat, appendOk: bool, queueOk: bool) returns (handled: bool)
      requires Valid()
      modifies this, journal, journal.records, nodeReg.nodes
      ensures Valid() && radio == old(radio)
      ensures View() == Processed(old(View()), frame, now, entropy, appendOk, queueOk)
      ensures handled == (frame.frameType == FRAME_HEARTBEAT
        || (frame.frameType == FRAME_EVENT && (frame.eventType == EVENT_TEST || Stores(old(journal.View()), frame))))
    {
      hide UsedCount, Seen, HeartbeatHandled, EmergencyHandled, Stores, CString;
      totalPackets := Succ32(totalPackets);
      nodeReg.Update(frame.originId, frame.lastRssiDbm, frame.batteryPct, frame.frameType == FRAME_HEARTBEAT, now);
      assert View() == Heard(old(View()), frame, now);
      if frame.frameType == FRAME_ACK {
        return false;
      }
      if frame.frameType == FRAME_HEARTBEAT {
        HandleHeartbeat(frame, now);
        return true;
      }
      if frame.frameType != FRAME_EVENT {
        return false;
      }
      if frame.eventType == EVENT_TEST {
        return true;
      }
      handled := HandleEmergency(frame, now, entropy, appendOk, queueOk);
    }

    /** Sends a due ACK, then runs the periodic offline check. */
    method Update(now: u32)
      requires Valid()
      modifies this, nodeReg.nodes
      ensures Valid()
      ensures View() == Updated(old(View()), now)
      ensures radio == old(radio) + AckOnAir(old(View()), now, auth)
    {
      hide UsedCount, Sealed, CString, Elapsed;
      if pendingAckValid && Due(now, ackScheduledAt, ackDelayMs) {
        pendingAckValid := false;
        var ack := BuildAckFrame(GATEWAY_ID, pendingAckFrame.originId, pendingAckFrame.eventId,
                                 pendingAckFrame.eventType, pendingAckFrame.maxHops, now, auth);
        radio := radio + [ack];
        ackSent := Succ32(ackSent);
      }
      if Due(now, lastOfflineCheckMs, NODE_OFFLINE_CHECK_MS) {
        lastOfflineCheckMs := now;
        nodeReg.CheckOffline(now);
      }
    }

    method HostCommit(k: EventKey, removeOk: bool) returns (ok: bool)
      requires Valid()
      modifies journal, journal.records
      ensures Valid()
      ensures ok <==> Find(old(journal.records[..]), k) < MAX_RECORDS
      ensures View() == HostCommitted(old(View()), k, removeOk)
    {
      ok := journal.MarkHostCommitted(k, removeOk);
    }
  }

  lemma NotStored(s: State, f: Frame, now: u32, ok: bool)
    requires !Stores(s, f)
    ensures Appended(s, f, now, ok) == s
  {
  }

  /** In order, exactly the records in use that are not committed. */
  lemma {:induction false} PositionsInRange(rs: seq<Record>, n: nat)
    requires n <= |rs|
    ensures forall i :: 0 <= i < |ReplayPositions(rs, n)| ==>
              var p := ReplayPositions(rs, n)[i]; p < n && rs[p].used && rs[p].status != 3
    ensures forall i, j :: 0 <= i < j < |ReplayPositions(rs, n)| ==>
            ReplayPositions(rs, n)[i] < ReplayPositions(rs, n)[j]
    ensures forall p :: 0 <= p < n && rs[p].used && rs[p].status != 3 ==> p in ReplayPositions(rs, n)
  {
    if n > 0 {
      PositionsInRange(rs, n - 1);
    }
  }

  lemma {:induction false} NothingToReplay(rs: seq<Record>, n: nat)
    requires n <= |rs|
    ensures UsedCount(rs[..n]) == 0 ==> ReplayPositions(rs, n) == []
  {
    if n > 0 {
      assert rs[..n][..n - 1] == rs[..n - 1];
      NothingToReplay(rs, n - 1);
    }
  }
}
