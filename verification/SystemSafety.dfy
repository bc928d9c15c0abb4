/** End-to-end safety of the network: what is confirmed was recorded and reported, and what is
    recorded or reported was raised. */
module SystemSafety {
  import opened Bytes
  import opened Frames
  import opened Protocol
  import opened Journal
  import opened System
  import opened Clock
  import Node
  import NP = NodeProperties
  import Router
  import Gateway
  import GP = GatewayProperties
  import Registry
  import JP = JournalProperties

  // ---------------------------------------------------------------------
  // The invariant
  // ---------------------------------------------------------------------

  /** Every frame that is sent passes every receiver's check, an emergency carries a fact that
      a node raised, and an ACK carries a key that the gateway accounted for. */
  predicate GoodFrame(f: Frame, facts: set<Fact>, safe: set<EventKey>, auth: Auth) {
    && Accepts(f, auth) && Terminated(f.originId)
    && (Gateway.IsEmergency(f) ==> FrameFact(f) in facts)
    && (f.frameType == FRAME_ACK ==> FrameKey(f) in safe)
  }

  function NodeRecordFact(id: Id, r: Node.EventRecord): Fact {
    Fact(EventKey(CString(id), r.eventId), r.eventType, r.latE7, r.lonE7, r.batteryPct)
  }

  predicate FlashRaised(id: Id, flash: Node.Flash, facts: set<Fact>) {
    NP.Resumable(flash) ==> NodeRecordFact(id, Node.LoadPending(flash).record) in facts
  }

  predicate GoodNode(n: Node.NodeState, facts: set<Fact>, auth: Auth) {
    && NP.Inv(n, auth)
    && (n.pendingValid ==> FrameFact(n.pendingFrame) in facts)
    && FlashRaised(n.nodeId, n.flash, facts)
  }

  predicate GoodRelay(r: Router.Relay, facts: set<Fact>, safe: set<EventKey>, auth: Auth) {
    r.pending.Pending? ==> GoodFrame(r.pending.frame, facts, safe, auth)
  }

  function RecordFact(r: Record): Fact {
    Fact(RecordKey(r), r.eventType, r.latE7, r.lonE7, r.batteryPct)
  }

  /** Records and event lines are of stored events. */
  predicate GoodRecord(r: Record, journaled: set<Fact>) {
    r.used ==> RecordFact(r) in journaled
  }

  ghost predicate GoodRecords(rs: seq<Record>, journaled: set<Fact>) {
    forall i :: 0 <= i < |rs| ==> GoodRecord(rs[i], journaled)
  }

  predicate GoodLine(l: Gateway.Line, journaled: set<Fact>) {
    l.HbV1? || ReportFact(l.report) in journaled
  }

  ghost predicate GoodOutput(output: seq<Gateway.Line>, journaled: set<Fact>) {
    forall i :: 0 <= i < |output| ==> GoodLine(output[i], journaled)
  }

  /** Keys on event lines and the key of a waiting ACK are accounted for. */
  ghost predicate KeysSafe(g: Gateway.GatewayState, safe: set<EventKey>) {
    && (forall k :: k in GP.ReportedKeys(g.output) ==> k in safe)
    && (g.ack.Ack? ==> FrameKey(g.ack.frame) in safe)
  }

  ghost predicate GoodGateway(g: Gateway.GatewayState, journaled: set<Fact>, safe: set<EventKey>) {
    && GP.Inv(g)
    && GoodRecords(g.journal.records, journaled)
    && GoodOutput(g.output, journaled)
    && KeysSafe(g, safe)
  }

  /** What the gateway's flash may restore. */
  ghost predicate GoodFlash(nvs: Nvs, journaled: set<Fact>) {
    && GP.FlashSound(nvs)
    && forall i :: 0 <= i < MAX_NVS_SLOTS && JP.Live(nvs, i) ==> GoodRecord(ReadSlot(nvs, i).record, journaled)
  }

  function KeysOf(facts: set<Fact>): set<EventKey> {
    set t | t in facts :: t.key
  }

  lemma KeysOfUnion(a: set<Fact>, b: set<Fact>)
    ensures KeysOf(a + b) == KeysOf(a) + KeysOf(b)
  {
  }

  lemma KeysOfOne(t: Fact)
    ensures KeysOf({t}) == {t.key}
  {
    assert t in {t};
  }

  lemma NoKeys()
    ensures KeysOf({}) == {}
  {
  }

  function Safe(w: World): set<EventKey> {
    KeysOf(w.reported) + KeysOf(w.turnedAway)
  }

  ghost predicate AirGood(air: set<Frame>, facts: set<Fact>, safe: set<EventKey>, auth: Auth) {
    forall f :: f in air ==> GoodFrame(f, facts, safe, auth)
  }

  ghost predicate NodesGood(nodes: seq<Node.NodeState>, facts: set<Fact>, auth: Auth) {
    forall i :: 0 <= i < |nodes| ==> GoodNode(nodes[i], facts, auth)
  }

  ghost predicate RelaysGood(relays: seq<Router.Relay>, facts: set<Fact>, safe: set<EventKey>, auth: Auth) {
    forall j :: 0 <= j < |relays| ==> GoodRelay(relays[j], facts, safe, auth)
  }

  /** What nodes have made of their triggers. */
  function Raised(w: World): set<Fact> {
    FactsOf(w.triggered)
  }

  ghost predicate Inv(w: World, auth: Auth) {
    && AirGood(w.air, Raised(w), Safe(w), auth)
    && NodesGood(w.nodes, Raised(w), auth)
    && RelaysGood(w.relays, Raised(w), Safe(w), auth)
    && GoodGateway(w.gateway, w.journaled, Safe(w))
    && KeysOf(w.confirmed) <= Safe(w)
    && w.reported <= w.journaled && w.journaled + w.turnedAway + w.confirmed <= Raised(w)
  }

  lemma FactsGrow(a: set<Trigger>, b: set<Trigger>)
    requires a <= b
    ensures FactsOf(a) <= FactsOf(b)
  {
    hide FactOf;
  }

  lemma FactsOfUnion(a: set<Trigger>, b: set<Trigger>)
    ensures FactsOf(a + b) == FactsOf(a) + FactsOf(b)
  {
    hide FactOf;
  }

  lemma FactsOfOne(t: Trigger)
    ensures FactsOf({t}) == {FactOf(t)}
  {
    hide FactOf;
    assert t in {t};
  }

  lemma NoTriggers(w: World)
    ensures Raised(w) + FactsOf({}) == Raised(w) && w.triggered + {} == w.triggered
  {
  }

  /** The histories only grow, and a larger history keeps everything good. */
  lemma MoreKeepsGood(w: World, v: World, auth: Auth)
    requires Inv(w, auth)
    requires v.air == w.air && v.nodes == w.nodes && v.relays == w.relays && v.gateway == w.gateway
    requires w.triggered <= v.triggered && w.journaled <= v.journaled && w.reported <= v.reported
    requires w.turnedAway <= v.turnedAway && v.reported <= v.journaled
    requires KeysOf(v.confirmed) <= Safe(v) && v.journaled + v.turnedAway + v.confirmed <= Raised(v)
    ensures Inv(v, auth)
  {
    hide GP.Inv, NP.Inv, Accepts, CString, FrameFact, RecordFact, ReportFact, RecordKey, FrameKey, NP.Resumable,
         Node.LoadPending;
    FactsGrow(w.triggered, v.triggered);
    assert KeysOf(w.reported) <= KeysOf(v.reported) && KeysOf(w.turnedAway) <= KeysOf(v.turnedAway);
  }

  // ---------------------------------------------------------------------
  // Frames
  // ---------------------------------------------------------------------

  lemma HeartbeatGood(id: Id, now: u32, latE7: i32, lonE7: i32, batt: u8, gps: bool, low: bool,
                      facts: set<Fact>, safe: set<EventKey>, auth: Auth)
    ensures GoodFrame(HeartbeatFrame(id, now, latE7, lonE7, batt, gps, low, auth), facts, safe, auth)
  {
    hide Cut, CString, HeartbeatFrame, Accepts;
    CutName(id);
    HeartbeatTells(id, now, latE7, lonE7, batt, gps, low, auth);
  }

  lemma BuiltAccepted(origin: Id, sender: Id, eventId: u32, eventType: u8, attempt: u16, timeMs: u32,
                      latE7: i32, lonE7: i32, batt: u8, gps: bool, low: bool, auth: Auth)
    ensures var f := EventFrame(origin, sender, eventId, eventType, attempt, timeMs, latE7, lonE7, batt, gps, low,
            auth);
      Accepts(f, auth) && Terminated(f.originId) && f.frameType == FRAME_EVENT && f.eventType == eventType
  {
    hide Cut, CString, EventFrame, Accepts;
    EventFrameTells(origin, sender, eventId, eventType, attempt, timeMs, latE7, lonE7, batt, gps, low, auth,
                    MAX_HOPS_DEFAULT);
  }

  lemma TestGood(id: Id, now: u32, latE7: i32, lonE7: i32, batt: u8, gps: bool, low: bool,
                 facts: set<Fact>, safe: set<EventKey>, auth: Auth)
    ensures GoodFrame(EventFrame(id, id, 0, EVENT_TEST, 0, now, latE7, lonE7, batt, gps, low, auth), facts, safe, auth)
  {
    hide EventFrame, Accepts, CString;
    BuiltAccepted(id, id, 0, EVENT_TEST, 0, now, latE7, lonE7, batt, gps, low, auth);
  }

  lemma AckGood(f: Frame, now: u32, facts: set<Fact>, safe: set<EventKey>, auth: Auth)
    requires Terminated(f.originId) && FrameKey(f) in safe
    ensures GoodFrame(AckFrame(Gateway.GATEWAY_ID, f.originId, f.eventId, f.eventType, f.maxHops, now, auth), facts,
            safe, auth)
  {
    hide Cut, CString, Tag, Body, HasFlag, WithFlag, Accepts;
    CutName(f.originId);
    GP.AckAnswers(f, now, auth);
  }

  /** Receiving and forwarding keep a frame good. */
  lemma ForwardGood(f: Frame, rssi: i16, id: Id, facts: set<Fact>, safe: set<EventKey>, auth: Auth)
    requires GoodFrame(f, facts, safe, auth) && f.hopCount < f.maxHops
    ensures GoodFrame(Forwarded(f.(lastRssiDbm := rssi), id), facts, safe, auth)
  {
    hide Cut, CString, Body, HasFlag;
    var g := f.(lastRssiDbm := rssi);
    assert Tag(auth, g) == Tag(auth, f);
    ForwardKeeps(g, id, auth);
  }

  // ---------------------------------------------------------------------
  // Node steps
  // ---------------------------------------------------------------------

  lemma SameEventSameFact(f: Frame, g: Frame)
    requires NP.SameEvent(f, g)
    ensures FrameFact(f) == FrameFact(g) && FrameKey(f) == FrameKey(g)
  {
    hide CString;
  }

  /** A node's pending frame is an emergency under the node's own name. */
  lemma PendingFact(n: Node.NodeState, auth: Auth)
    requires NP.Inv(n, auth) && n.pendingValid
    ensures Gateway.IsEmergency(n.pendingFrame) && FrameKey(n.pendingFrame)
            == EventKey(CString(n.nodeId), n.pendingFrame.eventId)
    ensures n.pendingFrame.originId == n.nodeId && n.pendingFrame.eventType <= EVENT_SAFE
  {
    hide CString, Cut, Node.LoadPending, HasFlag, Node.NodeFrame;
    NP.OwnOrigin(n, auth);
  }

  /** The frame says what was passed to the trigger. */
  lemma TriggeredFact(n: Node.NodeState, kind: u8, p: Node.Position, batt: u8, now: u32, ok: Node.Writes, auth: Auth)
    requires NP.Inv(n, auth) && Node.Representable(p)
    ensures FrameFact(Node.Triggered(n, kind, p, batt, now, ok, auth).pendingFrame)
            == FactOf(TriggerOf(n, kind, p, batt))
  {
    hide NP.Inv, Node.Triggered, CString, Node.LoadPending, Node.FixedE7, HasFlag, Tag, Body;
    NP.TriggerKeepsInv(n, kind, p, batt, now, ok, auth);
    NP.TriggeredIs(n, kind, p, batt, now, ok, auth);
    PendingFact(Node.Triggered(n, kind, p, batt, now, ok, auth), auth);
  }

  lemma TriggerGood(n: Node.NodeState, kind: u8, p: Node.Position, batt: u8, now: u32, ok: Node.Writes,
                    facts: set<Fact>, auth: Auth)
    requires GoodNode(n, facts, auth) && Node.Representable(p)
    ensures GoodNode(Node.Triggered(n, kind, p, batt, now, ok, auth),
                     facts + {FactOf(TriggerOf(n, kind, p, batt))}, auth)
  {
    hide NP.Inv, Node.Triggered, CString, Node.LoadPending, Node.FixedE7, Node.NodeFrame, FactOf, TriggerOf;
    TriggeredFact(n, kind, p, batt, now, ok, auth);
    NP.TriggerKeepsInv(n, kind, p, batt, now, ok, auth);
    NP.TriggeredIs(n, kind, p, batt, now, ok, auth);
    var m := Node.Triggered(n, kind, p, batt, now, ok, auth);
    PendingFact(m, auth);
  }

  lemma PollOutcomeGood(n: Node.NodeState, m: Node.NodeState, ok: bool, facts: set<Fact>, auth: Auth)
    requires GoodNode(n, facts, auth) && NP.PollOutcome(n, m, ok, auth)
    ensures GoodNode(m, facts, auth)
  {
    hide NP.Inv, CString, Node.LoadPending, NP.Built, HasFlag;
    NP.PollKeepsInv(n, m, ok, auth);
    if n.pendingValid {
      SameEventSameFact(n.pendingFrame, m.pendingFrame);
      PendingFact(m, auth);
    }
  }

  lemma UpdatedGood(n: Node.NodeState, now: u32, later: u32, entropy: nat, ok: bool, facts: set<Fact>, auth: Auth)
    requires GoodNode(n, facts, auth)
    ensures GoodNode(Node.Updated(n, now, later, entropy, ok, auth), facts, auth)
  {
    hide NP.Inv, Node.Updated, NP.PollOutcome, FlashRaised;
    NP.UpdatedIs(n, now, later, entropy, ok, auth);
    PollOutcomeGood(n, Node.Updated(n, now, later, entropy, ok, auth), ok, facts, auth);
  }

  lemma SentGood(n: Node.NodeState, now: u32, facts: set<Fact>, safe: set<EventKey>, auth: Auth)
    requires GoodNode(n, facts, auth)
    ensures forall f :: f in Node.SentByUpdate(n, now, auth) ==> GoodFrame(f, facts, safe, auth)
  {
    hide NP.Inv, Node.ActionDue, Node.Attempted, FlashRaised;
    if n.pendingValid {
      AttemptGood(n, facts, safe, auth);
    }
  }

  lemma AttemptGood(n: Node.NodeState, facts: set<Fact>, safe: set<EventKey>, auth: Auth)
    requires GoodNode(n, facts, auth) && n.pendingValid
    ensures GoodFrame(Node.Attempted(n, auth), facts, safe, auth)
  {
    hide NP.Inv, Node.Attempted, FlashRaised, CString, Cut, Accepts, NP.Built, HasFlag, EventFrame;
    NP.AttemptedRefreshes(n, auth);
    var f := n.pendingFrame;
    NP.BuiltNow(n, auth);
    NP.RefreshedSound(f, n.nodeId, n.retryCount, f.eventTimeMs, auth);
    SameEventSameFact(f, Node.Attempted(n, auth));
    BuiltAccepted(n.nodeId, n.nodeId, f.eventId, f.eventType, n.retryCount, f.eventTimeMs, f.latE7, f.lonE7,
        f.batteryPct,
                  HasFlag(f.flags, FLAG_GPS_VALID), f.batteryPct <= Node.LOW_BATTERY_PCT, auth);
    PendingFact(n, auth);
  }

  lemma AckedGood(n: Node.NodeState, f: Frame, now: u32, ok: Node.Writes, facts: set<Fact>, auth: Auth)
    requires GoodNode(n, facts, auth)
    ensures GoodNode(Node.AckHandled(n, f, now, ok), facts, auth)
  {
    hide NP.Inv, Node.Settled, CString, Node.LoadPending;
    NP.ConfirmedIs(n, now, ok);
    NP.ConfirmedKeepsInv(n, now, ok, auth);
  }

  lemma CrashGood(n: Node.NodeState, c: NP.Crash, facts: set<Fact>, auth: Auth)
    requires GoodNode(n, facts, auth)
    ensures FlashRaised(n.nodeId, NP.FlashAt(n, c, auth), facts)
  {
    hide NP.Inv, Node.Updated, CString, Node.RecordCrc, Node.SavedAs;
    match c
    case BetweenOperations =>
    case AfterCounter =>
      NP.CountedReads(n);
    case AfterPollSave(at, later, entropy, ok) =>
      UpdatedGood(n, at, later, entropy, ok, facts, auth);
      UpdatedName(n, at, later, entropy, ok, auth);
    case AfterAckSave(ack, at, ok) =>
      NP.SavedReads(n, Node.ACKED, at, ok);
  }

  lemma UpdatedName(n: Node.NodeState, now: u32, later: u32, entropy: nat, ok: bool, auth: Auth)
    requires NP.Inv(n, auth)
    ensures Node.Updated(n, now, later, entropy, ok, auth).nodeId == n.nodeId
  {
    hide NP.Inv, Node.Updated;
    NP.UpdatedIs(n, now, later, entropy, ok, auth);
  }

  lemma RebootGood(n: Node.NodeState, c: NP.Crash, now: u32, facts: set<Fact>, auth: Auth)
    requires GoodNode(n, facts, auth)
    ensures GoodNode(Node.Booted(n.nodeId, NP.FlashAt(n, c, auth), now, auth), facts, auth)
  {
    hide NP.Inv, Node.Booted, NP.FlashAt, CString, Node.LoadPending, Node.NodeFrame;
    var flash := NP.FlashAt(n, c, auth);
    NP.OwnName(n, auth);
    NP.CrashKeepsFlashSound(n, c, auth);
    NP.BootedIs(n.nodeId, flash, now, auth);
    CrashGood(n, c, facts, auth);
    var b := Node.Booted(n.nodeId, flash, now, auth);
    if b.pendingValid {
      PendingFact(b, auth);
      MirroredFact(b.nodeId, flash, b.pendingFrame);
    }
  }

  lemma MirroredFact(id: Id, flash: Node.Flash, f: Frame)
    requires NP.Mirrors(flash, f) && f.originId == id
    ensures NodeRecordFact(id, Node.LoadPending(flash).record) == FrameFact(f)
  {
    hide CString, Node.LoadPending;
  }

  // ---------------------------------------------------------------------
  // Repeater steps
  // ---------------------------------------------------------------------

  lemma RelayedGood(r: Router.Relay, f: Frame, rssi: i16, now: u32, entropy: nat,
                    facts: set<Fact>, safe: set<EventKey>, auth: Auth)
    requires GoodRelay(r, facts, safe, auth) && GoodFrame(f, facts, safe, auth)
    ensures GoodRelay(Router.Received(r, f, rssi, now, entropy), facts, safe, auth)
  {
    hide GoodFrame, Forwarded, Router.KeyOf, Router.StoredKey, CString, Cut, Router.Backoff, Router.Recent;
    if f.hopCount < f.maxHops {
      ForwardGood(f, rssi, r.own, facts, safe, auth);
    }
  }

  // ---------------------------------------------------------------------
  // Gateway steps
  // ---------------------------------------------------------------------

  lemma HeardFrame(f: Frame, rssi: i16)
    ensures var g := f.(lastRssiDbm := rssi);
      FrameFact(g) == FrameFact(f) && FrameKey(g) == FrameKey(f) && Gateway.IsEmergency(g) == Gateway.IsEmergency(f)
  {
    hide CString;
  }

  lemma StoredRecordGood(f: Frame, now: u32, status: u8, journaled: set<Fact>)
    requires Terminated(f.originId) && FrameFact(f) in journaled
    ensures GoodRecord(NewRecord(f, now).(status := status), journaled)
  {
    hide CString, Cut;
    CutKeepsName(f.originId);
  }

  lemma UpdateGood(rs: seq<Record>, i: nat, r: Record, journaled: set<Fact>, more: set<Fact>)
    requires GoodRecords(rs, journaled) && i < |rs| && GoodRecord(r, journaled + more)
    ensures GoodRecords(rs[i := r], journaled + more)
  {
    hide RecordFact;
  }

  lemma OutputSnoc(output: seq<Gateway.Line>, l: Gateway.Line, journaled: set<Fact>, more: set<Fact>)
    requires GoodOutput(output, journaled) && GoodLine(l, journaled + more)
    ensures GoodOutput(output + [l], journaled + more)
  {
    hide ReportFact;
  }

  /** The keys of the event lines are the keys of what they tell. */
  lemma {:induction false} ReportedKeysOf(output: seq<Gateway.Line>)
    ensures forall k :: k in GP.ReportedKeys(output) ==> k in KeysOf(ReportedFacts(output))
    decreases |output|
  {
    if output != [] {
      var n := |output| - 1;
      ReportedKeysOf(output[..n]);
      assert ReportedFacts(output[..n]) <= ReportedFacts(output);
      if !output[n].HbV1? {
        assert ReportFact(output[n].report) in ReportedFacts(output);
        assert output[n].report.key in KeysOf(ReportedFacts(output));
      }
    }
  }

  lemma ReportedJournaled(output: seq<Gateway.Line>, journaled: set<Fact>)
    requires GoodOutput(output, journaled)
    ensures ReportedFacts(output) <= journaled
  {
    hide ReportFact;
    forall l | l in output && !l.HbV1?
      ensures ReportFact(l.report) in journaled
    {
      assert GoodLine(l, journaled);
    }
  }

  /** A waiting ACK for a record in RAM is for an event that has been reported. */
  lemma AckReported(g: Gateway.GatewayState, safe: set<EventKey>)
    requires GP.ReportsExactly(g)
    requires g.ack.Ack? ==> FrameKey(g.ack.frame) in safe || GP.HasKey(g.journal.records, FrameKey(g.ack.frame))
    ensures KeysSafe(g, safe + KeysOf(ReportedFacts(g.output)))
  {
    hide GP.HasKey, FrameKey, ReportedFacts, KeysOf;
    ReportedKeysOf(g.output);
  }

  lemma EmergencyGood(g: Gateway.GatewayState, f: Frame, now: u32, entropy: nat, ok: bool, queueOk: bool,
                      journaled: set<Fact>, safe: set<EventKey>)
    requires GoodGateway(g, journaled, safe)
    requires Terminated(f.originId) && Gateway.IsEmergency(f) && Stores(g.journal, f)
    ensures var h := Gateway.EmergencyHandled(g, f, now, entropy, ok, queueOk);
      GoodGateway(h, journaled + {FrameFact(f)}, safe + KeysOf(ReportedFacts(h.output)))
  {
    hide CString, Cut, HasFlag, Gateway.EmergencyHandled, Stores, JP.Inv, FirstFree, GP.ReportsExactly, GP.AckSound,
         GP.RecordsProper, FrameKey, GoodRecord, GoodRecords, GoodOutput, Random, KeysOf, ReportedFacts, GP.HasKey;
    var h := Gateway.EmergencyHandled(g, f, now, entropy, ok, queueOk);
    GP.NewEmergency(g, f, now, entropy, ok, queueOk);
    GP.NewEmergencyJournal(g, f, now, entropy, ok, queueOk);
    var i := FirstFree(g.journal.records);
    var r := NewRecord(f, now).(status := HOST_QUEUED);
    StoredRecordGood(f, now, HOST_QUEUED, journaled + {FrameFact(f)});
    UpdateGood(g.journal.records, i, r, journaled, {FrameFact(f)});
    OutputSnoc(g.output, Gateway.CsvV1(Gateway.FrameReport(f)), journaled, {FrameFact(f)});
    GP.RekeyOne(NewRecord(f, now), HOST_QUEUED);
    GP.StoreAddsKey(g.journal.records, i, r, FrameKey(f));
    AckReported(h, safe);
  }

  lemma DuplicateGood(g: Gateway.GatewayState, f: Frame, now: u32, entropy: nat, ok: bool, queueOk: bool,
                      journaled: set<Fact>, safe: set<EventKey>)
    requires GoodGateway(g, journaled, safe)
    requires Terminated(f.originId) && Gateway.IsEmergency(f) && !Stores(g.journal, f)
    ensures GoodGateway(Gateway.EmergencyHandled(g, f, now, entropy, ok, queueOk), journaled,
            safe + KeysOf(Refused(g, f)))
  {
    hide CString, HasFlag, JP.Inv, GP.AckSound, GP.RecordsProper, FrameKey, GoodOutput, RecordFact, Random, KeysOf,
         GP.HasKey;
    GP.OldEmergency(g, f, now, entropy, ok, queueOk);
    GP.FindFound(g.journal.records, FrameKey(f));
    FirstFreeIsFirst(g.journal.records);
    KeysOfOne(FrameFact(f));
    assert FrameFact(f).key == FrameKey(f);
  }

  lemma HeardGood(g: Gateway.GatewayState, f: Frame, now: u32, journaled: set<Fact>, safe: set<EventKey>)
    requires GoodGateway(g, journaled, safe)
    ensures GoodGateway(Gateway.Heard(g, f, now), journaled, safe)
  {
    hide GP.Inv, GoodRecord, GoodLine, FrameKey;
    GP.HeardKeepsInv(g, f, now);
  }

  lemma HeartbeatLineGood(g: Gateway.GatewayState, f: Frame, now: u32, journaled: set<Fact>, safe: set<EventKey>)
    requires GoodGateway(g, journaled, safe)
    ensures GoodGateway(Gateway.HeartbeatHandled(g, f, now), journaled, safe)
  {
    hide GP.Inv, GoodRecords, GoodOutput, FrameKey, CString;
    GP.HeartbeatKeepsInv(g, f, now);
    var l := Gateway.HbV1(CString(f.originId), f.latE7, f.lonE7, f.batteryPct, f.lastRssiDbm);
    OutputSnoc(g.output, l, journaled, {});
    GP.ReportedSnoc(g.output, l);
    assert journaled + {} == journaled;
  }

  lemma ProcessedGood(g: Gateway.GatewayState, f: Frame, now: u32, entropy: nat, ok: bool, queueOk: bool,
                      journaled: set<Fact>, safe: set<EventKey>)
    requires GoodGateway(g, journaled, safe) && Terminated(f.originId)
    ensures var h := Gateway.Processed(g, f, now, entropy, ok, queueOk);
      GoodGateway(h, journaled + Stored(g, f), safe + KeysOf(ReportedFacts(h.output)) + KeysOf(Refused(g, f)))
  {
    hide GoodGateway, Gateway.Heard, Gateway.HeartbeatHandled, Gateway.EmergencyHandled, Stores, CString, FrameKey,
         KeysOf, ReportedFacts, Refused;
    HeardGood(g, f, now, journaled, safe);
    GP.HeardKeepsJournal(g, f, now);
    var m := Gateway.Heard(g, f, now);
    var h := Gateway.Processed(g, f, now, entropy, ok, queueOk);
    if f.frameType == FRAME_HEARTBEAT {
      HeartbeatLineGood(m, f, now, journaled, safe);
    } else if Gateway.IsEmergency(f) {
      SameRefusal(g, m, f);
      if Stores(g.journal, f) {
        EmergencyGood(m, f, now, entropy, ok, queueOk, journaled, safe);
        MoreSafe(h, journaled + Stored(g, f), safe + KeysOf(ReportedFacts(h.output)), {}, KeysOf(Refused(g, f)));
      } else {
        DuplicateGood(m, f, now, entropy, ok, queueOk, journaled, safe);
        MoreSafe(h, journaled, safe + KeysOf(Refused(g, f)), {}, KeysOf(ReportedFacts(h.output)));
        assert safe + KeysOf(Refused(g, f)) + KeysOf(ReportedFacts(h.output))
            == safe + KeysOf(ReportedFacts(h.output)) + KeysOf(Refused(g, f));
      }
    }
    if !(Gateway.IsEmergency(f) && Stores(g.journal, f)) {
      assert journaled + Stored(g, f) == journaled;
      if !Gateway.IsEmergency(f) {
        MoreSafe(h, journaled, safe, {}, KeysOf(ReportedFacts(h.output)) + KeysOf(Refused(g, f)));
        assert safe + (KeysOf(ReportedFacts(h.output)) + KeysOf(Refused(g, f)))
            == safe + KeysOf(ReportedFacts(h.output)) + KeysOf(Refused(g, f));
      }
    }
  }

  lemma SameRefusal(g: Gateway.GatewayState, h: Gateway.GatewayState, f: Frame)
    requires g.journal == h.journal
    ensures Refused(g, f) == Refused(h, f)
  {
    hide FrameFact;
  }

  lemma MoreSafe(g: Gateway.GatewayState, journaled: set<Fact>, safe: set<EventKey>, more: set<Fact>,
                 also: set<EventKey>)
    requires GoodGateway(g, journaled, safe)
    ensures GoodGateway(g, journaled + more, safe + also) && journaled + {} == journaled
  {
    hide GP.Inv, RecordFact, ReportFact, FrameKey;
  }

  lemma TickGood(g: Gateway.GatewayState, now: u32, facts: set<Fact>, journaled: set<Fact>, safe: set<EventKey>,
                 auth: Auth)
    requires GoodGateway(g, journaled, safe)
    ensures GoodGateway(Gateway.Updated(g, now), journaled, safe)
    ensures forall f :: f in Gateway.AckOnAir(g, now, auth) ==> GoodFrame(f, facts, safe, auth)
  {
    hide JP.Inv, GP.ReportsExactly, GP.RecordsProper, GoodRecord, GoodLine, FrameKey, AckFrame, GoodFrame,
         Registry.Polled, GP.HasKey, GP.Full, HasFlag, CString;
    GP.TickKeepsInv(g, now);
    if g.ack.Ack? {
      AckGood(g.ack.frame, now, facts, safe, auth);
    }
  }

  lemma CommitGood(g: Gateway.GatewayState, k: EventKey, ok: bool, journaled: set<Fact>,
                   safe: set<EventKey>)
    requires GoodGateway(g, journaled, safe)
    ensures GoodGateway(Gateway.HostCommitted(g, k, ok), journaled, safe)
  {
    hide GP.Inv, CString, FrameKey, GoodLine, ClearSlot;
    GP.CommitKeepsInv(g, k, ok);
    FindIsFirst(g.journal.records, k);
  }

  // ---------------------------------------------------------------------
  // Gateway power cuts
  // ---------------------------------------------------------------------

  lemma SamePayloadGood(r: Record, s: Record, journaled: set<Fact>)
    requires GoodRecord(s, journaled) && JP.SamePayload(r, s)
    ensures GoodRecord(r, journaled)
  {
    hide CString;
  }

  /** Flash never restores what RAM does not hold. */
  lemma BackedGood(s: State, journaled: set<Fact>)
    requires JP.Inv(s) && GoodRecords(s.records, journaled)
    requires forall i :: 0 <= i < MAX_RECORDS && s.records[i].used ==> GP.Proper(s.records[i])
    ensures GoodFlash(s.nvs, journaled)
  {
    hide ReadSlot, GP.Proper, GoodRecord, GP.FlashSound;
    GP.BackedFlashSound(s);
    forall i | 0 <= i < MAX_NVS_SLOTS && JP.Live(s.nvs, i)
      ensures GoodRecord(ReadSlot(s.nvs, i).record, journaled)
    {
      assert JP.SlotBacked(s, i);
      SamePayloadGood(ReadSlot(s.nvs, i).record, s.records[i], journaled);
    }
  }

  lemma GatewayFlashGood(g: Gateway.GatewayState, journaled: set<Fact>, safe: set<EventKey>)
    requires GoodGateway(g, journaled, safe)
    ensures GoodFlash(g.journal.nvs, journaled)
  {
    hide JP.Inv, GoodRecords, GoodOutput, GP.ReportsExactly, GP.AckSound, GP.Proper, GoodFlash;
    GP.JournalLength(g.journal);
    BackedGood(g.journal, journaled);
  }

  lemma BetweenWritesGood(g: Gateway.GatewayState, f: Frame, now: u32, ok: bool,
                          journaled: set<Fact>, safe: set<EventKey>)
    requires GoodGateway(g, journaled, safe)
    requires Terminated(f.originId) && Gateway.IsEmergency(f)
    ensures GoodFlash(Appended(g.journal, f, now, ok).nvs, journaled + Stored(g, f))
  {
    hide JP.Inv, GoodRecords, GoodOutput, GP.ReportsExactly, GP.AckSound, GoodFlash, GoodRecord, CString, Cut,
         WriteSlot,
         FrameKey, FirstFree, Find;
    var s := g.journal;
    GP.JournalLength(s);
    if Stores(s, f) {
      var t := Appended(s, f, now, ok);
      var i := FirstFree(s.records);
      JP.StepKeepsInv(s, JP.Append(f, now, ok));
      FirstFreeIsFirst(s.records);
      CutName(f.originId);
      StoredRecordGood(f, now, RECEIVED, journaled + {FrameFact(f)});
      UpdateGood(s.records, i, NewRecord(f, now), journaled, {FrameFact(f)});
      BackedGood(t, journaled + {FrameFact(f)});
    } else {
      GatewayFlashGood(g, journaled, safe);
      assert journaled + {} == journaled;
    }
  }

  lemma LoadedGood(nvs: Nvs, journaled: set<Fact>)
    requires GoodFlash(nvs, journaled)
    ensures GoodRecords(Booted(nvs).records, journaled)
  {
    hide ReadSlot, GP.FlashSound, Swept, RecordFact, RecordKey;
    forall i | 0 <= i < MAX_RECORDS
      ensures GoodRecord(Booted(nvs).records[i], journaled)
    {
      assert i < MAX_NVS_SLOTS && Booted(nvs).records[i].used ==> JP.Live(nvs, i);
    }
  }

  lemma ReplayedGood(loaded: State, rs: seq<Record>, journaled: set<Fact>)
    requires GoodRecords(loaded.records, journaled) && GP.SameButQueued(loaded.records, rs)
    ensures GoodRecords(rs, journaled)
  {
    hide RecordFact, RecordKey;
    forall i | 0 <= i < |rs|
      ensures GoodRecord(rs[i], journaled)
    {
      assert GoodRecord(loaded.records[i], journaled);
      RequeuedGood(loaded.records[i], journaled);
    }
  }

  lemma RequeuedGood(r: Record, journaled: set<Fact>)
    requires GoodRecord(r, journaled)
    ensures GoodRecord(r.(status := HOST_QUEUED), journaled)
  {
    hide CString;
  }

  /** Whatever boot is cut short, the flash restores only what it could before. */
  lemma CutGood(nvs: Nvs, cut: GP.Interruption, journaled: set<Fact>, auth: Auth)
    requires GoodFlash(nvs, journaled)
    ensures GoodFlash(GP.FlashAfter(nvs, cut, auth), journaled)
  {
    hide Gateway.Replayed, GoodRecord, GP.FlashSound;
    GP.InterruptedBootSound(nvs, cut, auth);
    match cut
    case WhileLoading(n) =>
      SweptGood(nvs, n, journaled);
    case WhileReplaying(n, now, writes) =>
      PartialReplayGood(nvs, n, now, writes, journaled, auth);
  }

  lemma SweptGood(nvs: Nvs, n: nat, journaled: set<Fact>)
    requires GoodFlash(nvs, journaled)
    ensures GoodFlash(Swept(nvs, n), journaled)
  {
    hide ReadSlot, Swept, GoodRecord, GP.FlashSound;
    GP.SweptSound(nvs, n);
    forall i | 0 <= i < MAX_NVS_SLOTS && JP.Live(Swept(nvs, n), i)
      ensures GoodRecord(ReadSlot(Swept(nvs, n), i).record, journaled)
    {
      SweptReads(nvs, n, i);
      assert JP.Live(nvs, i);
    }
  }

  lemma PartialReplayGood(nvs: Nvs, n: nat, now: u32, writes: nat -> bool, journaled: set<Fact>,
                          auth: Auth)
    requires GoodFlash(nvs, journaled)
    ensures GoodFlash(Gateway.Replayed(Gateway.Loaded(nvs, 0), n, now, writes, auth).journal.nvs, journaled)
  {
    hide Booted, GP.Positions, Gateway.Replayed, JP.Inv, GP.FlashSound, GP.IsAckFor, GP.Proper, GoodFlash, GoodRecords;
    assert GP.FlashSound(nvs) by { FlashIsSound(nvs, journaled); }
    GP.LoadedProper(nvs);
    LoadedGood(nvs, journaled);
    var loaded := Booted(nvs);
    GP.JournalLength(loaded);
    GP.ReplayPast(loaded, Gateway.Loaded(nvs, 0), n, now, writes, auth);
    var g := Gateway.Replayed(Gateway.Loaded(nvs, 0), n, now, writes, auth);
    ReplayedGood(loaded, g.journal.records, journaled);
    forall i | 0 <= i < MAX_RECORDS && g.journal.records[i].used
      ensures GP.Proper(g.journal.records[i])
    {
      GP.SameProper(loaded.records[i], g.journal.records[i]);
    }
    BackedGood(g.journal, journaled);
  }

  lemma FlashIsSound(nvs: Nvs, journaled: set<Fact>)
    requires GoodFlash(nvs, journaled)
    ensures GP.FlashSound(nvs)
  {
    hide GP.FlashSound;
  }

  lemma {:induction false} CutsGood(nvs: Nvs, cuts: seq<GP.Interruption>, journaled: set<Fact>,
                                    auth: Auth)
    requires GoodFlash(nvs, journaled)
    ensures GoodFlash(FlashThrough(nvs, cuts, auth), journaled)
    decreases |cuts|
  {
    hide GoodFlash, GP.FlashAfter;
    if cuts != [] {
      CutGood(nvs, cuts[0], journaled, auth);
      CutsGood(GP.FlashAfter(nvs, cuts[0], auth), cuts[1..], journaled, auth);
    }
  }

  lemma InitialisedGood(flash: Nvs, now: u32, writes: nat -> bool, journaled: set<Fact>, safe: set<EventKey>,
                        auth: Auth)
    requires GoodFlash(flash, journaled)
    ensures var g := Gateway.Initialised(flash, now, writes, auth);
      GoodGateway(g, journaled, safe + KeysOf(ReportedFacts(g.output)))
  {
    hide Booted, Gateway.Initialised, GP.Positions, JP.Inv, GP.ReportsExactly, GP.AckSound, GP.RecordsProper,
         GP.FlashSound, GP.IsAckFor, GoodFlash, GoodRecords, FrameKey, GoodLine, GP.HasKey, KeysOf, ReportedFacts;
    assert GP.FlashSound(flash) by { FlashIsSound(flash, journaled); }
    GP.BootEstablishesInv(flash, now, writes, auth);
    GP.ReplayExactlyOnce(flash, now, writes, auth);
    LoadedGood(flash, journaled);
    GP.LoadedLength(flash);
    var loaded := Booted(flash);
    var g := Gateway.Initialised(flash, now, writes, auth);
    ReplayedGood(loaded, g.journal.records, journaled);
    var ps := GP.Positions(loaded);
    forall i | 0 <= i < |g.output|
      ensures GoodLine(g.output[i], journaled)
    {
      assert ps[i] in ps;
      ReplayLineGood(loaded.records, ps[i], journaled);
    }
    AckReported(g, safe);
  }

  lemma ReplayLineGood(rs: seq<Record>, p: nat, journaled: set<Fact>)
    requires GoodRecords(rs, journaled) && p < |rs| && rs[p].used
    ensures GoodLine(Gateway.ReplayCsvV1(Gateway.RecordReport(rs[p])), journaled)
  {
    hide RecordKey;
    assert GoodRecord(rs[p], journaled);
  }

  // ---------------------------------------------------------------------
  // Steps and runs
  // ---------------------------------------------------------------------

  /** Sending good frames and replacing one node by a good one. */
  lemma NodeChange(w: World, i: nat, m: Node.NodeState, sent: set<Frame>, raised: set<Trigger>, confirmed: set<Fact>,
                   auth: Auth)
    requires Inv(w, auth) && i < |w.nodes| && GoodNode(m, Raised(w) + FactsOf(raised), auth)
    requires forall f :: f in sent ==> GoodFrame(f, Raised(w) + FactsOf(raised), Safe(w), auth)
    requires KeysOf(confirmed) <= Safe(w) && confirmed <= Raised(w)
    ensures Inv(w.(nodes := w.nodes[i := m], air := w.air + sent, triggered := w.triggered + raised,
                   confirmed := w.confirmed + confirmed), auth)
  {
    hide GoodFrame, GoodNode, GoodRelay, GoodGateway, KeysOf, FactsOf;
    var v := w.(triggered := w.triggered + raised, confirmed := w.confirmed + confirmed);
    KeysOfUnion(w.confirmed, confirmed);
    FactsOfUnion(w.triggered, raised);
    assert Safe(v) == Safe(w);
    MoreKeepsGood(w, v, auth);
  }

  /** A confirming ACK carries the key of the event it confirms. */
  lemma ConfirmationGood(n: Node.NodeState, f: Frame, facts: set<Fact>, safe: set<EventKey>, auth: Auth)
    requires GoodNode(n, facts, auth) && GoodFrame(f, facts, safe, auth)
    ensures KeysOf(Confirmation(n, f)) <= safe && Confirmation(n, f) <= facts
  {
    hide CString, NP.Inv, Accepts, FlashRaised, KeysOf;
    KeysOfOne(FrameFact(n.pendingFrame));
    NoKeys();
    if Node.Confirms(n, f) {
      PendingFact(n, auth);
      assert FrameFact(n.pendingFrame).key == FrameKey(f);
    }
  }

  lemma NodeTriggersGood(w: World, i: nat, kind: u8, p: Node.Position, batt: u8, now: u32, ok: Node.Writes, auth: Auth)
    requires Inv(w, auth) && i < |w.nodes| && Node.Representable(p)
    ensures Inv(NodeTriggered(w, i, kind, p, batt, now, ok, auth), auth)
  {
    hide GoodNode, Node.Triggered, AirGood, RelaysGood, GoodGateway, FactOf, TriggerOf, FactsOf;
    var m := Node.Triggered(w.nodes[i], kind, p, batt, now, ok, auth);
    var t := TriggerOf(w.nodes[i], kind, p, batt);
    TriggerGood(w.nodes[i], kind, p, batt, now, ok, Raised(w), auth);
    FactsOfOne(t);
    NodeChange(w, i, m, {}, {t}, {}, auth);
    assert w.air + {} == w.air && w.confirmed + {} == w.confirmed;
  }

  lemma NodePollsGood(w: World, i: nat, now: u32, later: u32, entropy: nat, ok: bool, auth: Auth)
    requires Inv(w, auth) && i < |w.nodes|
    ensures Inv(NodePolled(w, i, now, later, entropy, ok, auth), auth)
  {
    hide GoodNode, GoodFrame, Node.Updated, Node.SentByUpdate, AirGood, RelaysGood, GoodGateway;
    var n := w.nodes[i];
    UpdatedGood(n, now, later, entropy, ok, Raised(w), auth);
    SentGood(n, now, Raised(w), Safe(w), auth);
    NoTriggers(w);
    assert w.confirmed + {} == w.confirmed;
    NodeChange(w, i, Node.Updated(n, now, later, entropy, ok, auth), OnAir(Node.SentByUpdate(n, now, auth)), {}, {},
               auth);
  }

  lemma ArrivedGood(w: World, f: Frame, auth: Auth)
    requires Inv(w, auth) && f in w.air
    ensures GoodFrame(f, Raised(w), Safe(w), auth)
  {
    hide GoodFrame, NodesGood, RelaysGood, GoodGateway;
  }

  lemma ConfirmationOf(n: Node.NodeState, f: Frame, rssi: i16)
    ensures Confirmation(n, f.(lastRssiDbm := rssi)) == Confirmation(n, f)
  {
  }

  lemma NodeHearsGood(w: World, i: nat, f: Frame, rssi: i16, now: u32, ok: Node.Writes, auth: Auth)
    requires Inv(w, auth) && i < |w.nodes| && f in w.air
    ensures Inv(NodeHeard(w, i, f.(lastRssiDbm := rssi), now, ok), auth)
  {
    hide GoodNode, Node.AckHandled, AirGood, RelaysGood, GoodGateway, Accepts, GoodFrame, Confirmation, KeysOf;
    var n := w.nodes[i];
    var g := f.(lastRssiDbm := rssi);
    ArrivedGood(w, f, auth);
    AckedGood(n, g, now, ok, Raised(w), auth);
    ConfirmationGood(n, f, Raised(w), Safe(w), auth);
    ConfirmationOf(n, f, rssi);
    NoTriggers(w);
    assert w.air + {} == w.air;
    NodeChange(w, i, Node.AckHandled(n, g, now, ok), {}, {}, Confirmation(n, g), auth);
  }

  lemma NodeRebootsGood(w: World, i: nat, c: NP.Crash, now: u32, auth: Auth)
    requires Inv(w, auth) && i < |w.nodes| && (c.AfterAckSave? ==> c.ack in w.air)
    ensures Inv(NodeRebooted(w, i, c, now, auth), auth)
  {
    hide GoodNode, Node.Booted, NP.FlashAt, AirGood, RelaysGood, GoodGateway, Accepts, GoodFrame, Confirmation, KeysOf;
    var n := w.nodes[i];
    RebootGood(n, c, now, Raised(w), auth);
    if c.AfterAckSave? {
      ArrivedGood(w, c.ack, auth);
      ConfirmationGood(n, c.ack, Raised(w), Safe(w), auth);
    }
    NoKeys();
    NoTriggers(w);
    assert w.air + {} == w.air;
    NodeChange(w, i, Node.Booted(n.nodeId, NP.FlashAt(n, c, auth), now, auth), {}, {},
               if c.AfterAckSave? then Confirmation(n, c.ack) else {}, auth);
  }

  lemma SendGood(w: World, f: Frame, auth: Auth)
    requires Inv(w, auth) && GoodFrame(f, Raised(w), Safe(w), auth)
    ensures Inv(w.(air := w.air + {f}), auth)
  {
    hide GoodFrame, NodesGood, RelaysGood, GoodGateway;
  }

  lemma NodeBeaconsGood(w: World, i: nat, now: u32, p: Node.Position, batt: u8, auth: Auth)
    requires Inv(w, auth) && i < |w.nodes| && Node.Representable(p)
    ensures Inv(NodeBeaconed(w, i, now, p, batt, auth), auth)
  {
    hide GoodFrame, NodesGood, RelaysGood, GoodGateway, HeartbeatFrame, Node.FixedE7, AirGood, CString;
    var id, lat, lon := w.nodes[i].nodeId, Node.FixedE7(p.lat), Node.FixedE7(p.lon);
    var f := HeartbeatFrame(id, now, lat, lon, batt, Node.HasFix(p), batt <= Node.LOW_BATTERY_PCT, auth);
    HeartbeatGood(id, now, lat, lon, batt, Node.HasFix(p), batt <= Node.LOW_BATTERY_PCT, Raised(w), Safe(w), auth);
    SendGood(w, f, auth);
  }

  lemma NodeStepKeepsInv(w: World, a: Action, auth: Auth)
    requires Inv(w, auth) && WellFormed(a)
    ensures Inv(NodeStep(w, a, auth), auth)
  {
    hide Inv, NodeTriggered, NodePolled, NodeHeard, NodeRebooted, NodeBeaconed, EventFrame, Accepts, GoodFrame, Safe;
    match a
    case NodeTriggers(i, kind, p, batt, now, ok) =>
      if i < |w.nodes| {
        NodeTriggersGood(w, i, kind, p, batt, now, ok, auth);
      }
    case NodePolls(i, now, later, entropy, ok) =>
      if i < |w.nodes| {
        NodePollsGood(w, i, now, later, entropy, ok, auth);
      }
    case NodeHears(i, f, rssi, now, ok) =>
      if i < |w.nodes| && Arrives(w, f, auth) {
        NodeHearsGood(w, i, f, rssi, now, ok, auth);
      }
    case NodeBeacons(i, now, p, batt) =>
      if i < |w.nodes| {
        NodeBeaconsGood(w, i, now, p, batt, auth);
      }
    case NodeTests(i, now, lat, lon, batt, gps) =>
      if i < |w.nodes| {
        var id := w.nodes[i].nodeId;
        TestGood(id, now, lat, lon, batt, gps, batt <= 15, Raised(w), Safe(w), auth);
        SendGood(w, EventFrame(id, id, 0, EVENT_TEST, 0, now, lat, lon, batt, gps, batt <= 15, auth), auth);
      }
    case NodeReboots(i, c, now) =>
      if i < |w.nodes| && (c.AfterAckSave? ==> Arrives(w, c.ack, auth)) {
        NodeRebootsGood(w, i, c, now, auth);
      }
    case _ =>
  }

  lemma RelayChange(w: World, j: nat, r: Router.Relay, sent: set<Frame>, auth: Auth)
    requires Inv(w, auth) && j < |w.relays| && GoodRelay(r, Raised(w), Safe(w), auth)
    requires forall f :: f in sent ==> GoodFrame(f, Raised(w), Safe(w), auth)
    ensures Inv(w.(relays := w.relays[j := r], air := w.air + sent), auth)
  {
    hide GoodFrame, GoodRelay, NodesGood, GoodGateway;
  }

  lemma RelayHearsGood(w: World, j: nat, f: Frame, rssi: i16, now: u32, entropy: nat, auth: Auth)
    requires Inv(w, auth) && j < |w.relays| && f in w.air
    ensures Inv(w.(relays := w.relays[j := Router.Received(w.relays[j], f, rssi, now, entropy)]), auth)
  {
    hide GoodFrame, GoodRelay, Router.Received, NodesGood, GoodGateway, AirGood;
    ArrivedGood(w, f, auth);
    RelayedGood(w.relays[j], f, rssi, now, entropy, Raised(w), Safe(w), auth);
    RelayChange(w, j, Router.Received(w.relays[j], f, rssi, now, entropy), {}, auth);
    assert w.air + {} == w.air;
  }

  lemma RelayPollsGood(w: World, j: nat, now: u32, auth: Auth)
    requires Inv(w, auth) && j < |w.relays|
    ensures Inv(w.(relays := w.relays[j := Router.Polled(w.relays[j], now)],
            air := w.air + OnAir(Router.OnAir(w.relays[j], now))), auth)
  {
    hide GoodFrame, NodesGood, GoodGateway, AirGood, Router.Expired;
    var r := w.relays[j];
    assert GoodRelay(r, Raised(w), Safe(w), auth);
    RelayChange(w, j, Router.Polled(r, now), OnAir(Router.OnAir(r, now)), auth);
  }

  /** A gateway step that stores `journaled` and turns `turnedAway` away. */
  lemma GatewayChange(w: World, g: Gateway.GatewayState, journaled: set<Fact>, turnedAway: set<Fact>, auth: Auth)
    requires Inv(w, auth) && journaled + turnedAway <= Raised(w)
    requires GoodGateway(g, w.journaled + journaled, Safe(w) + KeysOf(ReportedFacts(g.output)) + KeysOf(turnedAway))
    ensures Inv(w.(gateway := g, journaled := w.journaled + journaled,
                   reported := w.reported + ReportedFacts(g.output), turnedAway := w.turnedAway + turnedAway), auth)
  {
    hide GoodFrame, GoodNode, GoodRelay, GP.Inv, GoodRecords, KeysSafe, KeysOf, ReportedFacts;
    var told := ReportedFacts(g.output);
    var v := w.(journaled := w.journaled + journaled, reported := w.reported + told,
                turnedAway := w.turnedAway + turnedAway);
    KeysOfUnion(w.reported, told);
    KeysOfUnion(w.turnedAway, turnedAway);
    ReportedJournaled(g.output, v.journaled);
    assert Safe(v) == Safe(w) + KeysOf(told) + KeysOf(turnedAway);
    MoreKeepsGood(w, v, auth);
  }

  /** A gateway step that stores and reports nothing. */
  lemma GatewayKeeps(w: World, g: Gateway.GatewayState, sent: set<Frame>, auth: Auth)
    requires Inv(w, auth) && GoodGateway(g, w.journaled, Safe(w))
    requires forall f :: f in sent ==> GoodFrame(f, Raised(w), Safe(w), auth)
    ensures Inv(w.(gateway := g, air := w.air + sent), auth)
  {
    hide GoodFrame, GoodGateway, NodesGood, RelaysGood, KeysOf;
  }

  lemma StoredRaised(g: Gateway.GatewayState, f: Frame, facts: set<Fact>)
    requires Gateway.IsEmergency(f) ==> FrameFact(f) in facts
    ensures Stored(g, f) <= facts && Refused(g, f) <= facts
  {
    hide FrameFact, Stores, GP.Full;
  }

  lemma GatewayHearsGood(w: World, f: Frame, rssi: i16, now: u32, entropy: nat, ok: bool, queueOk: bool, auth: Auth)
    requires Inv(w, auth) && f in w.air
    ensures Inv(GatewayHeard(w, f.(lastRssiDbm := rssi), now, entropy, ok, queueOk), auth)
  {
    hide Accepts, CString, FrameFact, FrameKey, GoodGateway, NodesGood, RelaysGood, AirGood, Gateway.Processed, Stored,
         Refused, KeysOf, ReportedFacts;
    var g := f.(lastRssiDbm := rssi);
    ArrivedGood(w, f, auth);
    HeardFrame(f, rssi);
    ProcessedGood(w.gateway, g, now, entropy, ok, queueOk, w.journaled, Safe(w));
    StoredRaised(w.gateway, g, Raised(w));
    GatewayChange(w, Gateway.Processed(w.gateway, g, now, entropy, ok, queueOk), Stored(w.gateway, g),
                  Refused(w.gateway, g), auth);
  }

  lemma GatewayPollsGood(w: World, now: u32, auth: Auth)
    requires Inv(w, auth)
    ensures Inv(GatewayPolled(w, now, auth), auth)
  {
    hide GoodFrame, GoodGateway, NodesGood, RelaysGood, AirGood, Gateway.Updated, Gateway.AckOnAir, KeysOf;
    TickGood(w.gateway, now, Raised(w), w.journaled, Safe(w), auth);
    GatewayKeeps(w, Gateway.Updated(w.gateway, now), OnAir(Gateway.AckOnAir(w.gateway, now, auth)), auth);
  }

  lemma HostCommitsGood(w: World, k: EventKey, ok: bool, auth: Auth)
    requires Inv(w, auth)
    ensures Inv(w.(gateway := Gateway.HostCommitted(w.gateway, k, ok)), auth)
  {
    hide GoodFrame, GoodGateway, NodesGood, RelaysGood, AirGood, Gateway.HostCommitted, KeysOf;
    CommitGood(w.gateway, k, ok, w.journaled, Safe(w));
    GatewayKeeps(w, Gateway.HostCommitted(w.gateway, k, ok), {}, auth);
    assert w.air + {} == w.air;
  }

  lemma GatewayBootsGood(w: World, flash: Nvs, stored: set<Fact>, cuts: seq<GP.Interruption>, now: u32,
                         writes: nat -> bool, auth: Auth)
    requires Inv(w, auth) && stored <= Raised(w)
    requires GoodFlash(flash, w.journaled + stored)
    ensures Inv(GatewayBooted(w.(journaled := w.journaled + stored), flash, cuts, now, writes, auth), auth)
  {
    hide GoodFrame, GoodGateway, GoodFlash, NodesGood, RelaysGood, AirGood, Gateway.Initialised, FlashThrough, KeysOf,
         ReportedFacts;
    CutsGood(flash, cuts, w.journaled + stored, auth);
    var last := FlashThrough(flash, cuts, auth);
    var g := Gateway.Initialised(last, now, writes, auth);
    InitialisedGood(last, now, writes, w.journaled + stored, Safe(w), auth);
    NoKeys();
    assert Safe(w) + KeysOf(ReportedFacts(g.output)) + {} == Safe(w) + KeysOf(ReportedFacts(g.output));
    GatewayChange(w, g, stored, {}, auth);
    assert w.turnedAway + {} == w.turnedAway;
  }

  lemma GatewayRebootsGood(w: World, c: GatewayCrash, cuts: seq<GP.Interruption>, now: u32, writes: nat -> bool,
                           auth: Auth)
    requires Inv(w, auth)
    ensures Inv(GatewayRebooted(w, c, cuts, now, writes, auth), auth)
  {
    hide Accepts, CString, FrameFact, FrameKey, GoodGateway, GoodFlash, NodesGood, RelaysGood, AirGood, GatewayBooted,
         Stored,
         Appended;
    match c
    case BetweenEvents =>
      GatewayFlashGood(w.gateway, w.journaled, Safe(w));
      assert w.journaled + {} == w.journaled;
      GatewayBootsGood(w, w.gateway.journal.nvs, {}, cuts, now, writes, auth);
    case BetweenWrites(f, rssi, at, ok) =>
      var g := f.(lastRssiDbm := rssi);
      if Arrives(w, f, auth) && Gateway.IsEmergency(g) {
        ArrivedGood(w, f, auth);
        HeardFrame(f, rssi);
        StoredRaised(w.gateway, g, Raised(w));
        BetweenWritesGood(w.gateway, g, at, ok, w.journaled, Safe(w));
        GatewayBootsGood(w, Appended(w.gateway.journal, g, at, ok).nvs, Stored(w.gateway, g), cuts, now, writes, auth);
      }
  }

  lemma StepKeepsInv(w: World, a: Action, auth: Auth)
    requires Inv(w, auth) && WellFormed(a)
    ensures Inv(Step(w, a, auth), auth)
  {
    hide Inv, NodeStep, GatewayHeard, GatewayRebooted, Gateway.Updated, Gateway.AckOnAir, Gateway.HostCommitted,
         Router.Received, Router.Polled, Router.OnAir, Accepts;
    match a
    case RelayHears(j, f, rssi, now, entropy) =>
      if j < |w.relays| && Arrives(w, f, auth) {
        RelayHearsGood(w, j, f, rssi, now, entropy, auth);
      }
    case RelayPolls(j, now) =>
      if j < |w.relays| {
        RelayPollsGood(w, j, now, auth);
      }
    case RelayReboots(j) =>
      if j < |w.relays| {
        RelayChange(w, j, Router.Fresh(w.relays[j].own), {}, auth);
        assert w.air + {} == w.air;
      }
    case GatewayHears(f, rssi, now, entropy, ok, queueOk) =>
      if Arrives(w, f, auth) {
        GatewayHearsGood(w, f, rssi, now, entropy, ok, queueOk, auth);
      }
    case GatewayPolls(now) =>
      GatewayPollsGood(w, now, auth);
    case HostCommits(k, ok) =>
      HostCommitsGood(w, k, ok, auth);
    case GatewayReboots(c, cuts, now, writes) =>
      GatewayRebootsGood(w, c, cuts, now, writes, auth);
    case _ =>
      NodeStepKeepsInv(w, a, auth);
  }

  lemma {:induction false} RunKeepsInv(w: World, acts: seq<Action>, auth: Auth)
    requires Inv(w, auth) && forall a :: a in acts ==> WellFormed(a)
    ensures Inv(Run(w, acts, auth), auth)
    decreases |acts|
  {
    hide Inv, Step;
    if acts != [] {
      StepKeepsInv(w, acts[0], auth);
      RunKeepsInv(Step(w, acts[0], auth), acts[1..], auth);
    }
  }

  /** Every flash erased, every device just switched on. */
  function Deployed(nodes: seq<Id>, relays: seq<Id>, now: u32, writes: nat -> bool, auth: Auth): World {
    World(seq(|nodes|, i requires 0 <= i < |nodes| => Node.PoweredOn(nodes[i], Node.Flash(0, Node.Missing))),
          seq(|relays|, i requires 0 <= i < |relays| => Router.Fresh(relays[i])),
          Gateway.Initialised(map[], now, writes, auth), {}, {}, {}, {}, {}, {}, {})
  }

  lemma DeployedGood(nodes: seq<Id>, relays: seq<Id>, now: u32, writes: nat -> bool, auth: Auth)
    ensures Inv(Deployed(nodes, relays, now, writes, auth), auth)
  {
    hide Cut, Gateway.Initialised, GoodGateway, CString, ReportedFacts;
    var w := Deployed(nodes, relays, now, writes, auth);
    FreshGatewayGood(now, writes, auth);
    assert KeysOf(w.confirmed) == {} == Safe(w);
    forall i | 0 <= i < |nodes|
      ensures GoodNode(w.nodes[i], {}, auth)
    {
      CutIdempotent(nodes[i]);
      NP.NothingSaved(w.nodes[i].flash);
    }
  }

  /** A gateway on erased flash reports nothing. */
  lemma FreshGatewayGood(now: u32, writes: nat -> bool, auth: Auth)
    ensures GoodGateway(Gateway.Initialised(map[], now, writes, auth), {}, {})
  {
    hide Gateway.Initialised, KeysSafe, GoodRecords, GP.Inv, ReportedFacts, KeysOf;
    var g := Gateway.Initialised(map[], now, writes, auth);
    assert GoodFlash(map[], {}) by { ErasedGood(map[]); }
    InitialisedGood(map[], now, writes, {}, {}, auth);
    ReportedJournaled(g.output, {});
    NoKeys();
    assert ReportedFacts(g.output) == {};
    assert {} + KeysOf(ReportedFacts(g.output)) == {};
  }

  lemma ErasedGood(nvs: Nvs)
    requires nvs == map[]
    ensures GoodFlash(nvs, {})
  {
  }

  /** What a node saw confirmed was reported to the host, or met a journal with all records in
      use; and what was reported had been stored. */
  ghost predicate Accounted(w: World) {
    && w.reported <= w.journaled
    && forall t :: t in w.confirmed ==> exists s :: s in w.reported + w.turnedAway && s.key == t.key
  }

  /** Over every run of the network, with loss, duplication, reordering, relaying, failed flash
      writes, and power cuts of nodes, repeaters and the gateway at any flash write: an event
      that a node sees confirmed had been stored by the gateway and was on an event line to the
      host in some boot, or had met a journal with all records in use. */
  lemma ConfirmedWasReported(nodes: seq<Id>, relays: seq<Id>, now: u32, writes: nat -> bool, acts: seq<Action>,
                             auth: Auth)
    requires forall a :: a in acts ==> WellFormed(a)
    ensures Accounted(Run(Deployed(nodes, relays, now, writes, auth), acts, auth))
  {
    hide Deployed, Run, Inv;
    DeployedGood(nodes, relays, now, writes, auth);
    RunKeepsInv(Deployed(nodes, relays, now, writes, auth), acts, auth);
    GoodIsAccounted(Run(Deployed(nodes, relays, now, writes, auth), acts, auth), auth);
  }

  lemma GoodIsAccounted(w: World, auth: Auth)
    requires Inv(w, auth)
    ensures Accounted(w)
  {
    hide GoodGateway, NodesGood, RelaysGood, AirGood;
    forall t | t in w.confirmed
      ensures exists s :: s in w.reported + w.turnedAway && s.key == t.key
    {
      assert t.key in KeysOf(w.confirmed);
    }
  }

  /** `fixed` is the position in units of 10^-7 degrees, cut off toward zero. */
  predicate Near(fixed: i32, degrees: real) {
    var left := degrees - fixed as real / 10000000.0;
    if degrees >= 0.0 then fixed >= 0 && 0.0 <= left < 0.0000001 else fixed <= 0 && -0.0000001 < left <= 0.0
  }

  /** What is said of an event is what was passed to the trigger that raised it. */
  predicate Tells(said: Fact, t: Request) {
    && said.key == t.key
    && said.eventType == (if t.kind in {1, 2, 3, 4} then t.kind else 0)
    && Near(said.latE7, t.position.lat) && Near(said.lonE7, t.position.lon)
    && said.batteryPct == t.batteryPct
  }

  lemma FixedNear(value: real)
    requires -Node.MAX_DEGREES <= value <= Node.MAX_DEGREES
    ensures Near(Node.FixedE7(value), value)
  {
    var v := value * 10000000.0;
    var fixed := Node.FixedE7(value);
    assert fixed as real / 10000000.0 * 10000000.0 == fixed as real;
  }

  lemma FactTells(t: Trigger)
    ensures Tells(FactOf(t), t)
  {
    hide Near, Node.FixedE7;
    FixedNear(t.position.lat);
    FixedNear(t.position.lon);
  }

  ghost predicate Told(said: Fact, triggers: set<Trigger>) {
    exists t: Trigger :: t in triggers && Tells(said, t)
  }

  lemma RaisedIsTold(w: World, said: Fact)
    requires said in Raised(w)
    ensures Told(said, w.triggered)
  {
    hide Tells, FactOf;
    var t: Trigger :| t in w.triggered && said == FactOf(t);
    FactTells(t);
  }

  /** Every frame on the air passes every receiver's check, and every record of the gateway and
      every event line of this and earlier boots tells what was passed to the trigger that raised
      the event of that name and number. */
  ghost predicate Faithful(w: World, auth: Auth) {
    && (forall f :: f in w.air ==> Accepts(f, auth))
    && (forall r :: r in w.gateway.journal.records && r.used ==> Told(RecordFact(r), w.triggered))
    && (forall l :: l in w.gateway.output && !l.HbV1? ==> Told(ReportFact(l.report), w.triggered))
    && (forall t :: t in w.reported ==> Told(t, w.triggered))
  }

  /** On the same runs nothing is made up on the way. */
  lemma NothingIsInvented(nodes: seq<Id>, relays: seq<Id>, now: u32, writes: nat -> bool, acts: seq<Action>, auth: Auth)
    requires forall a :: a in acts ==> WellFormed(a)
    ensures Faithful(Run(Deployed(nodes, relays, now, writes, auth), acts, auth), auth)
  {
    hide Deployed, Run, Inv, Faithful;
    DeployedGood(nodes, relays, now, writes, auth);
    RunKeepsInv(Deployed(nodes, relays, now, writes, auth), acts, auth);
    GoodIsFaithful(Run(Deployed(nodes, relays, now, writes, auth), acts, auth), auth);
  }

  lemma GoodIsFaithful(w: World, auth: Auth)
    requires Inv(w, auth)
    ensures Faithful(w, auth)
  {
    hide RecordFact, ReportFact, Accepts, GP.Inv, NodesGood, RelaysGood, FactsOf, Told;
    forall t | t in Raised(w)
      ensures Told(t, w.triggered)
    {
      RaisedIsTold(w, t);
    }
    forall r | r in w.gateway.journal.records && r.used
      ensures RecordFact(r) in Raised(w)
    {
      assert GoodRecord(r, w.journaled);
    }
    forall l | l in w.gateway.output && !l.HbV1?
      ensures ReportFact(l.report) in Raised(w)
    {
      assert GoodLine(l, w.journaled);
    }
  }
}
