/** An event that reached the gateway's flash is reported in every later boot, over every run of
    the network, until the host's commit removes it. */
module SystemDurability {
  import opened Bytes
  import opened Frames
  import opened Protocol
  import opened Journal
  import opened System
  import Node
  import Router
  import Gateway
  import GP = GatewayProperties
  import JP = JournalProperties
  import SS = SystemSafety

  /** The host has read an event line with all of this in the current boot. */
  ghost predicate Told(output: seq<Gateway.Line>, report: Gateway.Report) {
    exists i :: 0 <= i < |output| && !output[i].HbV1? && output[i].report == report
  }

  /** Slot `i` would restore the record, RAM holds it, and this boot has reported it. */
  ghost predicate Secured(g: Gateway.GatewayState, i: nat, r: Record) {
    JP.Durable(g.journal, i, r) && Told(g.output, Gateway.RecordReport(r))
  }

  lemma ToldStays(before: seq<Gateway.Line>, after: seq<Gateway.Line>, report: Gateway.Report)
    requires Told(before, report) && before <= after
    ensures Told(after, report)
  {
    var i :| 0 <= i < |before| && !before[i].HbV1? && before[i].report == report;
    assert after[i] == before[i];
  }

  // ---------------------------------------------------------------------
  // Between boots
  // ---------------------------------------------------------------------

  lemma OutputGrows(g: Gateway.GatewayState, f: Frame, now: u32, entropy: nat, ok: bool, queueOk: bool)
    ensures g.output <= Gateway.Processed(g, f, now, entropy, ok, queueOk).output
  {
    hide CString, Appended, Queued, Stores, HasFlag;
  }

  lemma ProcessedKeeps(g: Gateway.GatewayState, f: Frame, now: u32, entropy: nat, ok: bool, queueOk: bool,
                       i: nat, r: Record)
    requires Secured(g, i, r)
    ensures Secured(Gateway.Processed(g, f, now, entropy, ok, queueOk), i, r)
  {
    hide JP.Durable, Told, CString, Appended, Queued, Stores, HasFlag, Gateway.RecordReport;
    var h := Gateway.Processed(g, f, now, entropy, ok, queueOk);
    JP.StepKeepsDurable(g.journal, JP.Append(f, now, ok), i, r);
    JP.StepKeepsDurable(Appended(g.journal, f, now, ok), JP.Queue(FrameKey(f), queueOk), i, r);
    OutputGrows(g, f, now, entropy, ok, queueOk);
    ToldStays(g.output, h.output, Gateway.RecordReport(r));
  }

  lemma CommitKeeps(g: Gateway.GatewayState, k: EventKey, ok: bool, i: nat, r: Record)
    requires Secured(g, i, r) && !(ok && k == RecordKey(r))
    ensures Secured(Gateway.HostCommitted(g, k, ok), i, r)
  {
    hide JP.Durable, Told, Committed, RecordKey;
    JP.StepKeepsDurable(g.journal, JP.Commit(k, ok), i, r);
  }

  // ---------------------------------------------------------------------
  // Boots
  // ---------------------------------------------------------------------

  lemma {:induction false} ReplayKeeps(g: Gateway.GatewayState, n: nat, now: u32, writes: nat -> bool, auth: Auth,
                                       i: nat, r: Record)
    requires JP.Durable(g.journal, i, r)
    ensures JP.Durable(Gateway.Replayed(g, n, now, writes, auth).journal, i, r)
  {
    hide JP.Durable, Queued, Gateway.ReplayAck, Gateway.RecordReport, RecordKey, ReplayPositions;
    if n > 0 {
      ReplayKeeps(g, n - 1, now, writes, auth, i, r);
      TurnKeeps(Gateway.Replayed(g, n - 1, now, writes, auth), n - 1, now, writes(n - 1), auth, i, r);
    }
  }

  lemma TurnKeeps(g: Gateway.GatewayState, rank: nat, now: u32, ok: bool, auth: Auth, i: nat, r: Record)
    requires JP.Durable(g.journal, i, r)
    ensures JP.Durable(Gateway.ReplayedOne(g, rank, now, ok, auth).journal, i, r)
  {
    hide JP.Durable, Queued, Gateway.ReplayAck, Gateway.RecordReport, RecordKey, ReplayPositions;
    var ps := ReplayPositions(g.journal.records, |g.journal.records|);
    if rank < |ps| && ps[rank] < |g.journal.records| {
      JP.StepKeepsDurable(g.journal, JP.Queue(RecordKey(g.journal.records[ps[rank]]), ok), i, r);
    }
  }

  lemma RestorableIn(s: State, i: nat, r: Record)
    requires JP.Durable(s, i, r)
    ensures JP.Restorable(s.nvs, i, r)
  {
  }

  lemma CutKeeps(nvs: Nvs, cut: GP.Interruption, auth: Auth, i: nat, r: Record)
    requires JP.Restorable(nvs, i, r)
    ensures JP.Restorable(GP.FlashAfter(nvs, cut, auth), i, r)
  {
    hide ReadSlot, Swept, Gateway.Replayed, Booted, JP.Durable;
    match cut
    case WhileLoading(n) =>
      SweptReads(nvs, n, i);
    case WhileReplaying(n, now, writes) =>
      JP.BootRestores(nvs, i, r);
      ReplayKeeps(Gateway.Loaded(nvs, 0), n, now, writes, auth, i, r);
      RestorableIn(Gateway.Replayed(Gateway.Loaded(nvs, 0), n, now, writes, auth).journal, i, r);
  }

  lemma {:induction false} CutsKeep(nvs: Nvs, cuts: seq<GP.Interruption>, auth: Auth, i: nat, r: Record)
    requires JP.Restorable(nvs, i, r)
    ensures JP.Restorable(FlashThrough(nvs, cuts, auth), i, r)
    decreases |cuts|
  {
    hide JP.Restorable, GP.FlashAfter;
    if cuts != [] {
      CutKeeps(nvs, cuts[0], auth, i, r);
      CutsKeep(GP.FlashAfter(nvs, cuts[0], auth), cuts[1..], auth, i, r);
    }
  }

  /** The replay restores the record and prints its line. */
  lemma BootSecures(flash: Nvs, now: u32, writes: nat -> bool, auth: Auth, i: nat, r: Record)
    requires GP.FlashSound(flash) && JP.Restorable(flash, i, r)
    ensures Secured(Gateway.Initialised(flash, now, writes, auth), i, r)
  {
    hide GP.FlashSound, ReadSlot, Booted, Gateway.Replayed, CString, GP.Positions, JP.Inv, GP.IsAckFor;
    var g := Gateway.Initialised(flash, now, writes, auth);
    var loaded := Booted(flash);
    JP.BootRestores(flash, i, r);
    ReplayKeeps(Gateway.Loaded(flash, 0), Gateway.ReplayLength(loaded), now, writes, auth, i, r);
    GP.ReplayExactlyOnce(flash, now, writes, auth);
    assert i in GP.Positions(loaded);
    var n :| 0 <= n < |GP.Positions(loaded)| && GP.Positions(loaded)[n] == i;
    assert g.output[n] == Gateway.ReplayCsvV1(Gateway.RecordReport(loaded.records[i]));
  }

  lemma BootedKeeps(s: State, journaled: set<Fact>, cuts: seq<GP.Interruption>, now: u32, writes: nat -> bool,
                    auth: Auth, i: nat, r: Record)
    requires SS.GoodFlash(s.nvs, journaled) && JP.Durable(s, i, r)
    ensures Secured(Gateway.Initialised(FlashThrough(s.nvs, cuts, auth), now, writes, auth), i, r)
  {
    hide GP.FlashSound, JP.Restorable, FlashThrough, Gateway.Initialised, Secured, SS.GoodFlash;
    RestorableIn(s, i, r);
    CutsKeep(s.nvs, cuts, auth, i, r);
    SS.CutsGood(s.nvs, cuts, journaled, auth);
    SS.FlashIsSound(FlashThrough(s.nvs, cuts, auth), journaled);
    BootSecures(FlashThrough(s.nvs, cuts, auth), now, writes, auth, i, r);
  }

  lemma RebootKeeps(w: World, c: GatewayCrash, cuts: seq<GP.Interruption>, now: u32, writes: nat -> bool, auth: Auth,
                    i: nat, r: Record)
    requires SS.Inv(w, auth) && Secured(w.gateway, i, r)
    ensures Secured(GatewayRebooted(w, c, cuts, now, writes, auth).gateway, i, r)
  {
    hide Accepts, JP.Durable, Told, FlashThrough, Gateway.Initialised, Appended, SS.GoodGateway, SS.GoodFlash,
         SS.GoodFrame, SS.NodesGood, SS.RelaysGood, SS.AirGood, Stored;
    match c
    case BetweenEvents =>
      SS.GatewayFlashGood(w.gateway, w.journaled, SS.Safe(w));
      BootedKeeps(w.gateway.journal, w.journaled, cuts, now, writes, auth, i, r);
    case BetweenWrites(f, rssi, at, ok) =>
      var g := f.(lastRssiDbm := rssi);
      if Arrives(w, f, auth) && Gateway.IsEmergency(g) {
        SS.ArrivedGood(w, f, auth);
        ArrivedTerminated(w, f, auth);
        SS.BetweenWritesGood(w.gateway, g, at, ok, w.journaled, SS.Safe(w));
        JP.StepKeepsDurable(w.gateway.journal, JP.Append(g, at, ok), i, r);
        BootedKeeps(Appended(w.gateway.journal, g, at, ok), w.journaled + Stored(w.gateway, g), cuts, now, writes,
                    auth, i, r);
      }
  }

  lemma ArrivedTerminated(w: World, f: Frame, auth: Auth)
    requires SS.Inv(w, auth) && f in w.air
    ensures Terminated(f.originId)
  {
    hide Accepts, CString, SS.GoodGateway, SS.NodesGood, SS.RelaysGood;
    SS.ArrivedGood(w, f, auth);
  }

  // ---------------------------------------------------------------------
  // Steps and runs
  // ---------------------------------------------------------------------

  /** The host commits the key, and the removal of its slot succeeds. */
  predicate Removes(a: Action, k: EventKey) {
    a.HostCommits? && a.key == k && a.ok
  }

  lemma StepKeeps(w: World, a: Action, auth: Auth, i: nat, r: Record)
    requires SS.Inv(w, auth) && WellFormed(a) && Secured(w.gateway, i, r) && !Removes(a, RecordKey(r))
    ensures Secured(Step(w, a, auth).gateway, i, r)
  {
    hide SS.Inv, Secured, Accepts, RecordKey, NodeTriggered, NodePolled, NodeHeard, NodeRebooted, GatewayRebooted,
         HeartbeatFrame, EventFrame, Gateway.Processed, Gateway.HostCommitted, Router.Received, Router.Polled,
         Router.OnAir, Stored, Refused, ReportedFacts;
    match a
    case GatewayHears(f, rssi, now, entropy, ok, queueOk) =>
      if Arrives(w, f, auth) {
        ProcessedKeeps(w.gateway, f.(lastRssiDbm := rssi), now, entropy, ok, queueOk, i, r);
      }
    case GatewayPolls(now) =>
      PollKeeps(w.gateway, now, i, r);
    case HostCommits(k, ok) =>
      CommitKeeps(w.gateway, k, ok, i, r);
    case GatewayReboots(c, cuts, now, writes) =>
      RebootKeeps(w, c, cuts, now, writes, auth, i, r);
    case _ =>
      NodeStepKeepsGateway(w, a, auth);
  }

  lemma PollKeeps(g: Gateway.GatewayState, now: u32, i: nat, r: Record)
    requires Secured(g, i, r)
    ensures Secured(Gateway.Updated(g, now), i, r)
  {
    hide JP.Durable, Told;
  }

  lemma NodeStepKeepsGateway(w: World, a: Action, auth: Auth)
    requires WellFormed(a)
    ensures NodeStep(w, a, auth).gateway == w.gateway
  {
    hide Accepts, HeartbeatFrame, EventFrame, Node.Triggered, Node.Updated, Node.AckHandled, Node.SentByUpdate;
  }

  lemma {:induction false} RunKeeps(w: World, acts: seq<Action>, auth: Auth, i: nat, r: Record)
    requires SS.Inv(w, auth) && Secured(w.gateway, i, r)
    requires forall a :: a in acts ==> WellFormed(a) && !Removes(a, RecordKey(r))
    ensures Secured(Run(w, acts, auth).gateway, i, r)
    decreases |acts|
  {
    hide SS.Inv, Secured, Step, RecordKey;
    if acts != [] {
      StepKeeps(w, acts[0], auth, i, r);
      SS.StepKeepsInv(w, acts[0], auth);
      RunKeeps(Step(w, acts[0], auth), acts[1..], auth, i, r);
    }
  }

  // ---------------------------------------------------------------------
  // Where it starts
  // ---------------------------------------------------------------------

  /** The free slot restores what is written into it, if either write succeeds. */
  lemma PutTwiceRestorable(nvs: Nvs, i: nat, r: Record, ok: bool, queueOk: bool)
    requires r.used && r.status == RECEIVED && (i < MAX_NVS_SLOTS ==> !JP.Live(nvs, i))
    ensures JP.Restorable(GP.PutTwice(nvs, i, r, ok, queueOk), i, r)
            <==> i < MAX_NVS_SLOTS && (ok || queueOk) && r.originId[0] != 0
  {
    hide ReadSlot, WriteSlot;
    ReadAfterWrite(nvs, i, r, ok, i);
    ReadAfterWrite(WriteSlot(nvs, i, r, ok), i, r.(status := HOST_QUEUED), queueOk, i);
  }

  lemma FreeNotLive(s: State, i: nat)
    requires JP.Inv(s) && i < |s.records| && !s.records[i].used
    ensures i < MAX_NVS_SLOTS ==> !JP.Live(s.nvs, i)
  {
    hide ReadSlot, CString;
    if i < MAX_NVS_SLOTS {
      assert JP.SlotBacked(s, i);
    }
  }

  lemma StoredRestorableIff(g: Gateway.GatewayState, f: Frame, now: u32, entropy: nat, ok: bool, queueOk: bool)
    requires GP.Inv(g) && Gateway.IsEmergency(f) && Terminated(f.originId) && Stores(g.journal, f)
    ensures var i := FirstFree(g.journal.records);
      var r := NewRecord(f, now);
      var h := Gateway.Processed(g, f, now, entropy, ok, queueOk);
      && i < MAX_RECORDS == |h.journal.records| && JP.SamePayload(h.journal.records[i], r) && h.journal.records[i].used
      && h.output == g.output + [Gateway.CsvV1(Gateway.FrameReport(f))] && RecordKey(r) == FrameKey(f)
      && (JP.Restorable(h.journal.nvs, i, r) <==> i < 30 && (ok || queueOk) && f.originId[0] != 0)
  {
    hide CString, Cut, HasFlag, Stores, JP.Inv, GP.ReportsExactly, GP.AckSound, GP.RecordsProper, FirstFree, ReadSlot,
         Gateway.EmergencyHandled, JP.Live, JP.Restorable, GP.PutTwice, RecordKey, FrameKey;
    var m := Gateway.Heard(g, f, now);
    GP.HeardKeepsJournal(g, f, now);
    GP.NewEmergencyJournal(m, f, now, entropy, ok, queueOk);
    var h := Gateway.Processed(g, f, now, entropy, ok, queueOk);
    var i := FirstFree(g.journal.records);
    FreeNotLive(g.journal, i);
    PutTwiceRestorable(g.journal.nvs, i, NewRecord(f, now), ok, queueOk);
    JP.CutKeepsFirst(f.originId);
    GP.JournalLength(h.journal);
  }

  /** A new event is secured exactly if it goes to a mirrored slot, one of its two writes succeeds,
      and its origin is not empty. */
  lemma StoredSecuredIff(g: Gateway.GatewayState, f: Frame, now: u32, entropy: nat, ok: bool, queueOk: bool)
    requires GP.Inv(g) && Gateway.IsEmergency(f) && Terminated(f.originId) && Stores(g.journal, f)
    ensures var i := FirstFree(g.journal.records);
      Secured(Gateway.Processed(g, f, now, entropy, ok, queueOk), i, NewRecord(f, now))
      <==> i < 30 && (ok || queueOk) && f.originId[0] != 0
  {
    hide CString, Cut, Stores, GP.Inv, FirstFree, JP.Restorable, Gateway.Processed, RecordKey, FrameKey;
    StoredRestorableIff(g, f, now, entropy, ok, queueOk);
    var h := Gateway.Processed(g, f, now, entropy, ok, queueOk);
    assert h.output[|g.output|] == Gateway.CsvV1(Gateway.FrameReport(f));
    assert Gateway.RecordReport(NewRecord(f, now)) == Gateway.FrameReport(f);
  }

  /** Under the same condition, and no other, a power cut and a boot right after it give the record
      back, although it was acknowledged if it asked for that. */
  lemma StoredReloadedIff(g: Gateway.GatewayState, f: Frame, now: u32, entropy: nat, ok: bool, queueOk: bool)
    requires GP.Inv(g) && Gateway.IsEmergency(f) && Terminated(f.originId) && Stores(g.journal, f)
    ensures var i := FirstFree(g.journal.records);
      var h := Gateway.Processed(g, f, now, entropy, ok, queueOk);
      && i < MAX_RECORDS && (HasFlag(f.flags, FLAG_REQUIRE_ACK) ==> h.ack.Ack? && h.ack.frame == f)
      && var loaded := Booted(h.journal.nvs).records[i];
        loaded.used && JP.SamePayload(loaded, NewRecord(f, now))
        <==> i < 30 && (ok || queueOk) && f.originId[0] != 0
  {
    hide CString, Cut, Stores, GP.Inv, FirstFree, JP.Restorable, RecordKey, FrameKey, Booted, HasFlag, Find,
         Queued, Appended, Gateway.Heard, NewRecord;
    StoredRestorableIff(g, f, now, entropy, ok, queueOk);
    GP.HeardKeepsJournal(g, f, now);
    JP.BootRestores(Gateway.Processed(g, f, now, entropy, ok, queueOk).journal.nvs, FirstFree(g.journal.records),
                    NewRecord(f, now));
  }

  /** A frame that the gateway stores in a mirrored slot when it arrives, by a write that succeeds. */
  predicate StoredOnArrival(w: World, f: Frame, ok: bool, queueOk: bool, auth: Auth) {
    && Arrives(w, f, auth) && Gateway.IsEmergency(f) && Stores(w.gateway.journal, f)
    && FirstFree(w.gateway.journal.records) < 30 && (ok || queueOk) && f.originId[0] != 0
  }

  /** It is then secured by the step in which it arrives. */
  lemma HeardSecured(w: World, f: Frame, rssi: i16, now: u32, entropy: nat, ok: bool, queueOk: bool, auth: Auth)
    requires SS.Inv(w, auth) && StoredOnArrival(w, f, ok, queueOk, auth)
    ensures var r := NewRecord(f.(lastRssiDbm := rssi), now);
      && Secured(Step(w, GatewayHears(f, rssi, now, entropy, ok, queueOk), auth).gateway,
                 FirstFree(w.gateway.journal.records), r)
      && RecordKey(r) == FrameKey(f)
  {
    hide Accepts, CString, Cut, FirstFree, Gateway.Processed, GP.Inv, Secured, SS.GoodRecords, SS.GoodOutput,
         SS.KeysSafe, SS.NodesGood, SS.RelaysGood, SS.AirGood, Find;
    var g := f.(lastRssiDbm := rssi);
    ArrivedTerminated(w, f, auth);
    CutKeepsName(f.originId);
    StoredSecuredIff(w.gateway, g, now, entropy, ok, queueOk);
  }

  /** The line of the event: what its node sent, with the attempt, the hops and the RSSI of the frame
      that was stored. */
  function LineOf(f: Frame, rssi: i16): Gateway.Report {
    Gateway.Report(FrameKey(f), f.eventType, f.latE7, f.lonE7, f.batteryPct, rssi, f.hopCount, f.attempt)
  }

  /** The record says the same, and when and from whom the frame was received. */
  predicate RecordOf(r: Record, f: Frame, rssi: i16, now: u32) {
    && r.used && RecordKey(r) == FrameKey(f) && r.eventType == f.eventType
    && r.latE7 == f.latE7 && r.lonE7 == f.lonE7 && r.batteryPct == f.batteryPct
    && r.rssiDbm == rssi && r.hopCount == f.hopCount && r.attempt == f.attempt
    && r.firstRxMs == now && CString(r.firstSenderId) == Take(CString(f.senderId), 5)
    && r.payloadCrc16 == f.crc16 && r.protocolVersion == f.protocolVersion
  }

  lemma NewRecordOf(f: Frame, rssi: i16, now: u32, r: Record)
    requires Terminated(f.originId) && JP.SamePayload(r, NewRecord(f.(lastRssiDbm := rssi), now))
    ensures r.used ==> RecordOf(r, f, rssi, now)
    ensures Gateway.RecordReport(NewRecord(f.(lastRssiDbm := rssi), now)) == LineOf(f, rssi)
  {
    hide CString, Cut;
    CutKeepsName(f.originId);
    CutName(f.senderId);
  }

  /** What the arrival and all that follows leave of it, in flash, in RAM and on the host's side. */
  ghost predicate SecuredThrough(w: World, f: Frame, rssi: i16, now: u32, entropy: nat, ok: bool, queueOk: bool,
                                 after: seq<Action>, auth: Auth)
    requires forall a :: a in after ==> WellFormed(a)
  {
    var g := Run(Step(w, GatewayHears(f, rssi, now, entropy, ok, queueOk), auth), after, auth).gateway;
    var i := FirstFree(w.gateway.journal.records);
    && Secured(g, i, NewRecord(f.(lastRssiDbm := rssi), now))
    && i < |g.journal.records| && RecordOf(g.journal.records[i], f, rssi, now)
    && Told(g.output, LineOf(f, rssi))
  }

  lemma SecuredRecord(g: Gateway.GatewayState, i: nat, r: Record)
    requires Secured(g, i, r)
    ensures i < |g.journal.records| && g.journal.records[i].used && JP.SamePayload(g.journal.records[i], r)
    ensures Told(g.output, Gateway.RecordReport(r))
  {
    hide ReadSlot;
  }

  lemma SecuredUntilRemoved(w: World, f: Frame, rssi: i16, now: u32, entropy: nat, ok: bool, queueOk: bool,
                            after: seq<Action>, auth: Auth)
    requires SS.Inv(w, auth) && StoredOnArrival(w, f, ok, queueOk, auth)
    requires forall a :: a in after ==> WellFormed(a) && !Removes(a, FrameKey(f))
    ensures SecuredThrough(w, f, rssi, now, entropy, ok, queueOk, after, auth)
  {
    hide SS.Inv, Run, Secured, Accepts, Stores, FirstFree, Step, NewRecord, FrameKey, RecordKey;
    HeardSecured(w, f, rssi, now, entropy, ok, queueOk, auth);
    var hear := GatewayHears(f, rssi, now, entropy, ok, queueOk);
    SS.StepKeepsInv(w, hear, auth);
    var i, r := FirstFree(w.gateway.journal.records), NewRecord(f.(lastRssiDbm := rssi), now);
    RunKeeps(Step(w, hear, auth), after, auth, i, r);
    ArrivedTerminated(w, f, auth);
    var g := Run(Step(w, hear, auth), after, auth).gateway;
    SecuredRecord(g, i, r);
    NewRecordOf(f, rssi, now, g.journal.records[i]);
  }

  /** Over every run of the network, with frames lost, repeated and reordered and with power cuts
      of every device at every flash write, in interrupted loads and replays too: an event stored
      in a mirrored slot by a write that succeeds is in RAM and restorable from flash, and its line
      has been printed in the current boot, until the host commits it and its slot is removed. */
  lemma ReportedUntilRemoved(nodes: seq<Id>, relays: seq<Id>, start: u32, writes: nat -> bool, before: seq<Action>,
                             f: Frame, rssi: i16, now: u32, entropy: nat, ok: bool, queueOk: bool,
                             after: seq<Action>, auth: Auth)
    requires forall a :: a in before + after ==> WellFormed(a)
    requires forall a :: a in after ==> !Removes(a, FrameKey(f))
    ensures var w := Run(SS.Deployed(nodes, relays, start, writes, auth), before, auth);
      StoredOnArrival(w, f, ok, queueOk, auth) ==>
        SecuredThrough(w, f, rssi, now, entropy, ok, queueOk, after, auth)
  {
    hide SS.Inv, SS.Deployed, Run, StoredOnArrival, SecuredThrough, FrameKey;
    assert forall a :: a in before ==> a in before + after;
    assert forall a :: a in after ==> a in before + after;
    SS.DeployedGood(nodes, relays, start, writes, auth);
    SS.RunKeepsInv(SS.Deployed(nodes, relays, start, writes, auth), before, auth);
    var w := Run(SS.Deployed(nodes, relays, start, writes, auth), before, auth);
    if StoredOnArrival(w, f, ok, queueOk, auth) {
      SecuredUntilRemoved(w, f, rssi, now, entropy, ok, queueOk, after, auth);
    }
  }
}
