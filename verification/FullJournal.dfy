/** A run of the whole network in which a node sees an event confirmed that the gateway never
    stored: one node, no repeater, no loss, no power cut, and one event more than the journal
    holds. */
module FullJournal {
  import opened Bytes
  import opened Frames
  import opened Protocol
  import opened Journal
  import opened System
  import Node
  import NP = NodeProperties
  import Gateway
  import GP = GatewayProperties
  import JP = JournalProperties
  import SS = SystemSafety

  const NOWHERE := Node.Position(0.0, 0.0)
  const SAVED := Node.Writes(true, true)

  const RAISE: Action := NodeTriggers(0, EVENT_FIRE, NOWHERE, 50, 0, SAVED)
  const SEND: Action := NodePolls(0, 0, 0, 0, true)

  function Hear(f: Frame): Action {
    GatewayHears(f, 0, 0, 0, true, true)
  }

  /** One node that has raised `n` events, all of them recorded, first fit. */
  ghost predicate Filled(w: World, n: nat, auth: Auth) {
    && SS.Inv(w, auth) && |w.nodes| == 1 && w.nodes[0].flash.counter == n
    && FirstRecords(w.gateway.journal.records, n)
    && IdsUpTo(w.journaled, n)
  }

  /** The first `n` records are in use, for events with ids up to `n`. */
  ghost predicate FirstRecords(rs: seq<Record>, n: nat) {
    && |rs| == MAX_RECORDS
    && (forall j :: 0 <= j < MAX_RECORDS ==> (rs[j].used <==> j < n))
    && (forall j :: 0 <= j < MAX_RECORDS && rs[j].used ==> RecordKey(rs[j]).eventId <= n)
  }

  predicate IdsUpTo(facts: set<Fact>, n: nat) {
    forall t :: t in facts ==> t.key.eventId <= n
  }

  /** The node has raised and sent event `id` and waits for its ACK. */
  predicate Waiting(n: Node.NodeState, id: u32) {
    && n.phase == Node.WaitingAck && n.pendingValid
    && n.pendingFrame.eventId == id && n.pendingFrame.originId == n.nodeId
    && Gateway.IsEmergency(n.pendingFrame) && HasFlag(n.pendingFrame.flags, FLAG_REQUIRE_ACK)
  }

  /** An event is raised, and the first poll sends it. */
  lemma NodeRound(n: Node.NodeState, kind: u8, p: Node.Position, batt: u8, auth: Auth)
    requires NP.Inv(n, auth) && Node.Representable(p) && n.flash.counter + 1 < TWO_32
    ensures var raised := Node.Triggered(n, kind, p, batt, 0, SAVED, auth);
      var sent := Node.Updated(raised, 0, 0, 0, true, auth);
      && Waiting(sent, n.flash.counter + 1) && sent.flash.counter == n.flash.counter + 1
      && sent.nodeId == n.nodeId && NP.SameEvent(raised.pendingFrame, sent.pendingFrame)
      && Node.SentByUpdate(raised, 0, auth) == [sent.pendingFrame]
  {
    hide NP.Inv, Node.Triggered, Node.SavedAs, Node.Attempted, NP.PollOutcome, HasFlag, Node.NodeFrame, Node.FixedE7,
         NP.SameEvent;
    var raised := Node.Triggered(n, kind, p, batt, 0, SAVED, auth);
    NP.TriggerKeepsInv(n, kind, p, batt, 0, SAVED, auth);
    NP.TriggeredIs(n, kind, p, batt, 0, SAVED, auth);
    NP.TriggeredId(n, kind, p, batt, 0, SAVED, auth);
    NP.UpdatedIs(raised, 0, 0, 0, true, auth);
    var sent := Node.Updated(raised, 0, 0, 0, true, auth);
    NP.SavedReads(raised.(pendingFrame := Node.Attempted(raised, auth)), Node.PENDING_ACK, 0, true);
    NP.PollKeepsInv(raised, sent, true, auth);
    NP.OwnOrigin(sent, auth);
    SS.PendingFact(sent, auth);
    PollKeepsId(raised, sent, auth);
  }

  lemma PollKeepsId(n: Node.NodeState, m: Node.NodeState, auth: Auth)
    requires NP.PollOutcome(n, m, true, auth) && n.pendingValid
    ensures m.pendingFrame.eventId == n.pendingFrame.eventId && m.flash.counter == n.flash.counter
            && m.nodeId == n.nodeId && NP.SameEvent(n.pendingFrame, m.pendingFrame)
  {
  }

  /** Event `n` is on the air and not yet heard. */
  ghost predicate Sent(v: World, n: nat, auth: Auth) {
    && SS.Inv(v, auth) && |v.nodes| == 1 && 0 < n == v.nodes[0].flash.counter
    && Waiting(v.nodes[0], n) && v.nodes[0].pendingFrame in v.air
    && FirstRecords(v.gateway.journal.records, n - 1)
    && IdsUpTo(v.journaled, n - 1)
  }

  /** Raising and sending the next event touches nothing but the node and the air. */
  lemma RaiseAndSend(w: World, n: nat, auth: Auth)
    requires Filled(w, n, auth) && n + 1 < TWO_32
    ensures Sent(Step(Step(w, RAISE, auth), SEND, auth), n + 1, auth)
  {
    hide SS.Inv, NP.Inv, Node.Triggered, Node.Updated, Node.SentByUpdate, Waiting, FrameFact, FirstRecords, IdsUpTo;
    GoodNodes(w, auth);
    NodeRound(w.nodes[0], EVENT_FIRE, NOWHERE, 50, auth);
    SS.StepKeepsInv(w, RAISE, auth);
    SS.StepKeepsInv(Step(w, RAISE, auth), SEND, auth);
  }

  lemma GoodNodes(w: World, auth: Auth)
    requires SS.Inv(w, auth)
    ensures forall i :: 0 <= i < |w.nodes| ==> NP.Inv(w.nodes[i], auth)
    ensures GP.Inv(w.gateway)
    ensures forall f :: f in w.air ==> Accepts(f, auth) && Terminated(f.originId)
  {
    hide NP.Inv, GP.Inv, Accepts, SS.KeysOf, SS.FlashRaised;
    forall i | 0 <= i < |w.nodes|
      ensures NP.Inv(w.nodes[i], auth)
    {
      assert SS.GoodNode(w.nodes[i], SS.Raised(w), auth);
    }
  }

  /** A key above all recorded ones is new. */
  lemma NewKey(rs: seq<Record>, n: nat, f: Frame)
    requires FirstRecords(rs, n) && n <= MAX_RECORDS && f.eventId == n + 1
    ensures FirstFree(rs) == n && Find(rs, FrameKey(f)) == |rs|
  {
    hide CString;
    assert n < MAX_RECORDS ==> !rs[n].used;
    assert forall j :: 0 <= j < n ==> rs[j].used;
    FirstFreeIsFirst(rs);
    FindIsFirst(rs, FrameKey(f));
  }

  lemma OneMore(rs: seq<Record>, n: nat, r: Record)
    requires FirstRecords(rs, n) && n < MAX_RECORDS && r.used && RecordKey(r).eventId <= n + 1
    ensures FirstRecords(rs[n := r], n + 1)
  {
    hide RecordKey;
  }

  lemma KeyId(f: Frame)
    ensures FrameKey(f).eventId == f.eventId && FrameFact(f).key == FrameKey(f)
  {
  }

  /** While a record is free the emergency is stored. */
  lemma GatewayStores(g: Gateway.GatewayState, f: Frame, n: nat)
    requires GP.Inv(g) && FirstRecords(g.journal.records, n) && n < MAX_RECORDS
    requires Gateway.IsEmergency(f) && Terminated(f.originId) && f.eventId == n + 1
    ensures Stores(g.journal, f)
    ensures FirstRecords(Gateway.Processed(g, f, 0, 0, true, true).journal.records, n + 1)
  {
    hide JP.Inv, GP.ReportsExactly, GP.AckSound, GP.RecordsProper, CString, Cut, HasFlag, Gateway.EmergencyHandled,
         Gateway.ScheduledAck, Gateway.Heard, RecordKey, FrameKey, Find, FirstFree, FirstRecords;
    FullLength(g.journal.records, n);
    NewKey(g.journal.records, n, f);
    var h := Gateway.Heard(g, f, 0);
    GP.HeardKeepsJournal(g, f, 0);
    GP.NewEmergencyJournal(h, f, 0, 0, true, true);
    GP.RekeyOne(NewRecord(f, 0), HOST_QUEUED);
    KeyId(f);
    OneMore(g.journal.records, n, NewRecord(f, 0).(status := HOST_QUEUED));
  }

  lemma FullLength(rs: seq<Record>, n: nat)
    requires FirstRecords(rs, n)
    ensures |rs| == MAX_RECORDS && (n == MAX_RECORDS ==> GP.Full(rs))
  {
  }

  /** Without a free record it is not, but the ACK is scheduled. */
  lemma GatewayRefuses(g: Gateway.GatewayState, f: Frame)
    requires GP.Inv(g) && FirstRecords(g.journal.records, MAX_RECORDS)
    requires Gateway.IsEmergency(f) && Terminated(f.originId) && f.eventId == MAX_RECORDS + 1
    requires HasFlag(f.flags, FLAG_REQUIRE_ACK)
    ensures !Stores(g.journal, f)
    ensures Gateway.Processed(g, f, 0, 0, true, true).ack == Gateway.Ack(f, 0, 100)
  {
    hide GP.Inv, CString, HasFlag, FrameKey, Find, FirstFree, FirstRecords;
    FullLength(g.journal.records, MAX_RECORDS);
    NewKey(g.journal.records, MAX_RECORDS, f);
    GP.AcknowledgedWithoutRecordIff(g, f, 0, 0, true, true);
  }

  // ---------------------------------------------------------------------
  // Rounds
  // ---------------------------------------------------------------------

  lemma HearRound(v: World, n: nat, auth: Auth)
    requires Sent(v, n + 1, auth) && n < MAX_RECORDS
    ensures Filled(Step(v, Hear(v.nodes[0].pendingFrame), auth), n + 1, auth)
  {
    hide SS.Inv, GP.Inv, Accepts, HasFlag, Gateway.Processed, Stores, FirstRecords, FrameFact, CString, Refused, Step;
    var f := v.nodes[0].pendingFrame;
    var g := f.(lastRssiDbm := 0);
    GoodNodes(v, auth);
    SS.StepKeepsInv(v, Hear(f), auth);
    GatewayStores(v.gateway, g, n);
    KeyId(g);
    HearStep(v, f, auth);
  }

  lemma HearStep(v: World, f: Frame, auth: Auth)
    requires f in v.air && Accepts(f, auth)
    ensures Step(v, Hear(f), auth) == GatewayHeard(v, f.(lastRssiDbm := 0), 0, 0, true, true)
  {
    hide Accepts, GatewayHeard;
  }

  /** Three steps fill one more record. */
  lemma Round(w: World, n: nat, auth: Auth) returns (acts: seq<Action>)
    requires Filled(w, n, auth) && n < MAX_RECORDS
    ensures forall a :: a in acts ==> WellFormed(a)
    ensures Filled(Run(w, acts, auth), n + 1, auth)
  {
    hide SS.Inv, Step, Waiting, FirstRecords, IdsUpTo;
    RaiseAndSend(w, n, auth);
    var v := Step(Step(w, RAISE, auth), SEND, auth);
    HearRound(v, n, auth);
    acts := [RAISE, SEND, Hear(v.nodes[0].pendingFrame)];
    RunThree(w, acts, auth);
  }

  lemma RunThree(w: World, acts: seq<Action>, auth: Auth)
    requires |acts| == 3 && forall a :: a in acts ==> WellFormed(a)
    ensures Run(w, acts, auth) == Step(Step(Step(w, acts[0], auth), acts[1], auth), acts[2], auth)
  {
    hide Step;
    assert acts[1..][0] == acts[1] && acts[1..][1..] == [acts[2]] && acts[1..][1..][1..] == [];
    assert Run(Step(w, acts[0], auth), acts[1..], auth) == Run(Step(Step(w, acts[0], auth), acts[1], auth),
        [acts[2]], auth);
    var u := Step(Step(w, acts[0], auth), acts[1], auth);
    assert [acts[2]][1..] == [];
    assert Run(u, [acts[2]], auth) == Run(Step(u, acts[2], auth), [], auth);
  }

  lemma {:induction false} RunConcat(w: World, a: seq<Action>, b: seq<Action>, auth: Auth)
    requires (forall x :: x in a ==> WellFormed(x)) && forall x :: x in b ==> WellFormed(x)
    ensures forall x :: x in a + b ==> WellFormed(x)
    ensures Run(w, a + b, auth) == Run(Run(w, a, auth), b, auth)
    decreases |a|
  {
    hide Step;
    if a == [] {
      assert a + b == b;
    } else {
      assert (a + b)[1..] == a[1..] + b;
      RunConcat(Step(w, a[0], auth), a[1..], b, auth);
    }
  }

  lemma {:induction false} Fill(w: World, n: nat, auth: Auth) returns (acts: seq<Action>)
    requires Filled(w, 0, auth) && n <= MAX_RECORDS
    ensures forall a :: a in acts ==> WellFormed(a)
    ensures Filled(Run(w, acts, auth), n, auth)
  {
    hide Filled, Step;
    if n == 0 {
      acts := [];
    } else {
      var front := Fill(w, n - 1, auth);
      var last := Round(Run(w, front, auth), n - 1, auth);
      RunConcat(w, front, last, auth);
      acts := front + last;
    }
  }

  lemma DeployedFilled(id: Id, writes: nat -> bool, auth: Auth)
    ensures Filled(SS.Deployed([id], [], 0, writes, auth), 0, auth)
  {
    hide SS.Inv, Cut, CString, Gateway.Initialised, GP.Inv, RecordKey, Booted;
    SS.DeployedGood([id], [], 0, writes, auth);
    ErasedRecords(map[], 0, writes, auth);
  }

  lemma ErasedRecords(flash: Nvs, now: u32, writes: nat -> bool, auth: Auth)
    requires flash == map[]
    ensures FirstRecords(Gateway.Initialised(flash, now, writes, auth).journal.records, 0)
  {
    hide Gateway.Initialised, RecordKey, GP.IsAckFor, Gateway.RecordReport, JP.Inv;
    assert GP.FlashSound(flash);
    GP.ReplayExactlyOnce(flash, now, writes, auth);
  }

  // ---------------------------------------------------------------------
  // One event too many
  // ---------------------------------------------------------------------

  function AckOf(f: Frame, auth: Auth): Frame {
    AckFrame(Gateway.GATEWAY_ID, f.originId, f.eventId, f.eventType, f.maxHops, 100, auth)
  }

  /** The gateway hears the event, stores nothing and schedules the ACK. */
  lemma HearRefused(v: World, auth: Auth)
    requires Sent(v, MAX_RECORDS + 1, auth)
    ensures var f := v.nodes[0].pendingFrame;
      var u := Step(v, Hear(f), auth);
      && SS.Inv(u, auth) && u.nodes == v.nodes && u.journaled == v.journaled
      && u.gateway.ack == Gateway.Ack(f.(lastRssiDbm := 0), 0, 100)
  {
    hide SS.Inv, GP.Inv, Accepts, HasFlag, Gateway.Processed, Stores, FirstRecords, FrameFact, CString, Refused, Step;
    var f := v.nodes[0].pendingFrame;
    GoodNodes(v, auth);
    SS.StepKeepsInv(v, Hear(f), auth);
    HearStep(v, f, auth);
    GatewayRefuses(v.gateway, f.(lastRssiDbm := 0));
    assert v.journaled + {} == v.journaled;
  }

  /** 100 ms later the ACK is on the air. */
  lemma AckSent(u: World, f: Frame, auth: Auth)
    requires SS.Inv(u, auth) && u.gateway.ack == Gateway.Ack(f.(lastRssiDbm := 0), 0, 100)
    ensures var t := GatewayPolled(u, 100, auth);
      && SS.Inv(t, auth) && t == u.(gateway := t.gateway, air := t.air) && AckOf(f, auth) in t.air
      && t.gateway.output == u.gateway.output
  {
    hide SS.Inv, AckFrame, SS.GoodGateway;
    SS.GatewayPollsGood(u, 100, auth);
    assert Gateway.AckDue(u.gateway, 100);
    assert AckOf(f, auth) in Gateway.AckOnAir(u.gateway, 100, auth);
  }

  lemma StepPolls(u: World, auth: Auth)
    ensures Step(u, GatewayPolls(100), auth) == GatewayPolled(u, 100, auth)
  {
    hide GatewayPolled;
  }

  lemma AckConfirms(n: Node.NodeState, id: u32, auth: Auth)
    requires Waiting(n, id) && NP.Inv(n, auth)
    ensures Node.Confirms(n, AckOf(n.pendingFrame, auth).(lastRssiDbm := 0))
  {
    hide NP.Inv, Cut, CString, Tag, Body, WithFlag;
    NP.OwnName(n, auth);
  }

  /** The node takes it for the confirmation of its event. */
  lemma NodeConfirms(t: World, auth: Auth)
    requires SS.Inv(t, auth) && |t.nodes| == 1 && Waiting(t.nodes[0], MAX_RECORDS + 1)
    requires AckOf(t.nodes[0].pendingFrame, auth) in t.air && IdsUpTo(t.journaled, MAX_RECORDS)
    ensures ConfirmedUnstored(NodeHeard(t, 0, AckOf(t.nodes[0].pendingFrame, auth).(lastRssiDbm := 0), 0, SAVED))
  {
    hide SS.Inv, NP.Inv, Accepts, AckOf, Node.Confirms, Node.AckHandled, FrameFact;
    var n := t.nodes[0];
    GoodNodes(t, auth);
    AckConfirms(n, MAX_RECORDS + 1, auth);
    KeyId(n.pendingFrame);
    var w := NodeHeard(t, 0, AckOf(n.pendingFrame, auth).(lastRssiDbm := 0), 0, SAVED);
    assert FrameFact(n.pendingFrame) in w.confirmed;
  }

  lemma NodeStepHears(t: World, a: Frame, auth: Auth)
    requires |t.nodes| == 1 && a in t.air && Accepts(a, auth)
    ensures Step(t, NodeHears(0, a, 0, 0, SAVED), auth) == NodeHeard(t, 0, a.(lastRssiDbm := 0), 0, SAVED)
  {
    hide Accepts, NodeHeard;
  }

  /** A node has seen an event confirmed, and none with its key has been stored. */
  ghost predicate ConfirmedUnstored(w: World) {
    exists e :: e in w.confirmed && forall s :: s in w.journaled ==> s.key != e.key
  }

  /** After a hundred recorded events the next one is confirmed, though no event with its key has
      been stored: the full journal in the statement of end-to-end safety cannot be left out. */
  lemma ConfirmedUnrecorded(id: Id, writes: nat -> bool, auth: Auth) returns (acts: seq<Action>)
    ensures forall a :: a in acts ==> WellFormed(a)
    ensures ConfirmedUnstored(Run(SS.Deployed([id], [], 0, writes, auth), acts, auth))
  {
    hide SS.Inv, Step, Waiting, FirstRecords, IdsUpTo, SS.Deployed, AckOf, GatewayPolled, NodeHeard, Accepts;
    var start := SS.Deployed([id], [], 0, writes, auth);
    DeployedFilled(id, writes, auth);
    var front := Fill(start, MAX_RECORDS, auth);
    var w := Run(start, front, auth);
    RaiseAndSend(w, MAX_RECORDS, auth);
    var v := Step(Step(w, RAISE, auth), SEND, auth);
    var f := v.nodes[0].pendingFrame;
    HearRefused(v, auth);
    AckSent(Step(v, Hear(f), auth), f, auth);
    var t := GatewayPolled(Step(v, Hear(f), auth), 100, auth);
    StepPolls(Step(v, Hear(f), auth), auth);
    NodeConfirms(t, auth);
    GoodNodes(t, auth);
    NodeStepHears(t, AckOf(f, auth), auth);
    var three := [RAISE, SEND, Hear(f)];
    var two := [GatewayPolls(100), NodeHears(0, AckOf(f, auth), 0, 0, SAVED)];
    RunThree(w, three, auth);
    RunTwo(Run(w, three, auth), two, auth);
    RunConcat(w, three, two, auth);
    RunConcat(start, front, three + two, auth);
    acts := front + (three + two);
  }

  lemma RunTwo(w: World, acts: seq<Action>, auth: Auth)
    requires |acts| == 2 && forall a :: a in acts ==> WellFormed(a)
    ensures Run(w, acts, auth) == Step(Step(w, acts[0], auth), acts[1], auth)
  {
    hide Step;
    assert acts[1..] == [acts[1]] && [acts[1]][1..] == [];
    assert Run(Step(w, acts[0], auth), [acts[1]], auth) == Run(Step(Step(w, acts[0], auth), acts[1], auth), [], auth);
  }
}
