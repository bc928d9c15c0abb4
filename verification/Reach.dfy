/** What the network can do: an event and its ACK each travel over a chain of up to twenty repeaters,
    and the event is reported to the host and confirmed to the node. */
module Reach {
  import opened Bytes
  import opened Frames
  import opened Protocol
  import opened Journal
  import opened System
  import Node
  import NP = NodeProperties
  import Router
  import Gateway
  import GP = GatewayProperties
  import SS = SystemSafety
  import SD = SystemDurability
  import FJ = FullJournal

  // ---------------------------------------------------------------------
  // One repeater
  // ---------------------------------------------------------------------

  /** The repeater hears the frame, and 300 ms later it is polled. */
  function Relaying(j: nat, f: Frame): seq<Action> {
    [RelayHears(j, f, 0, 0, 0), RelayPolls(j, 300)]
  }

  function Copy(r: Router.Relay, f: Frame): Frame
    requires f.hopCount < f.maxHops
  {
    Forwarded(f.(lastRssiDbm := 0), r.own)
  }

  /** Nothing pending, at most one frame relayed so far, and none of this key. */
  predicate Quiet(r: Router.Relay, k: Router.Key) {
    r.pending == Router.Idle && |r.marked| <= 1 && k !in r.marked
  }

  /** A frame that a repeater of another name has to relay. */
  predicate Travels(f: Frame, auth: Auth) {
    Accepts(f, auth) && Terminated(f.originId) && f.frameType in {FRAME_EVENT, FRAME_ACK}
  }

  /** The repeater after it: idle again, one more key marked. */
  predicate Passed(r: Router.Relay, s: Router.Relay, k: Router.Key) {
    s.own == r.own && s.pending == Router.Idle && s.marked == r.marked + [k]
  }

  lemma HeardAndSent(r: Router.Relay, f: Frame, auth: Auth)
    requires Travels(f, auth) && f.hopCount < f.maxHops && Quiet(r, Router.KeyOf(f)) && !SameId(f.senderId, r.own)
    ensures var s := Router.Received(r, f, 0, 0, 0);
      && Router.OnAir(s, 300) == [Copy(r, f)]
      && Passed(r, Router.Polled(s, 300), Router.KeyOf(f))
  {
    hide CString, Cut, Accepts, Forwarded;
    CutKeepsName(f.originId);
  }

  lemma CopyTravels(r: Router.Relay, f: Frame, auth: Auth)
    requires Travels(f, auth) && f.hopCount < f.maxHops
    ensures var g := Copy(r, f);
      && Travels(g, auth) && StableOf(g) == StableOf(f) && Router.KeyOf(g) == Router.KeyOf(f)
      && g.hopCount == f.hopCount + 1 && g.senderId == Cut(r.own)
  {
    hide CString, Cut, Body, HasFlag;
    var g := f.(lastRssiDbm := 0);
    assert Tag(auth, g) == Tag(auth, f);
    ForwardKeeps(g, r.own, auth);
  }

  lemma Pass(w: World, j: nat, f: Frame, auth: Auth)
    requires j < |w.relays| && f in w.air && Travels(f, auth) && f.hopCount < f.maxHops
    requires Quiet(w.relays[j], Router.KeyOf(f)) && !SameId(f.senderId, w.relays[j].own)
    ensures forall a :: a in Relaying(j, f) ==> WellFormed(a)
    ensures var v := Run(w, Relaying(j, f), auth);
      && |v.relays| == |w.relays| && Passed(w.relays[j], v.relays[j], Router.KeyOf(f))
      && v == w.(relays := w.relays[j := v.relays[j]], air := w.air + {Copy(w.relays[j], f)})
  {
    hide Accepts, Router.Received, Router.Polled, Router.OnAir, Forwarded, Router.KeyOf, CString, Step;
    HeardAndSent(w.relays[j], f, auth);
    FJ.RunTwo(w, Relaying(j, f), auth);
    var u := Step(w, RelayHears(j, f, 0, 0, 0), auth);
    StepHears(w, j, f, auth);
    StepPolls(u, j, auth);
  }

  lemma StepHears(w: World, j: nat, f: Frame, auth: Auth)
    requires j < |w.relays| && f in w.air && Travels(f, auth)
    ensures Step(w, RelayHears(j, f, 0, 0, 0), auth)
         == w.(relays := w.relays[j := Router.Received(w.relays[j], f, 0, 0, 0)])
  {
    hide Accepts, Router.Received, CString;
  }

  lemma StepPolls(w: World, j: nat, auth: Auth)
    requires j < |w.relays|
    ensures Step(w, RelayPolls(j, 300), auth)
         == w.(relays := w.relays[j := Router.Polled(w.relays[j], 300)],
               air := w.air + OnAir(Router.OnAir(w.relays[j], 300)))
  {
    hide Router.Polled, Router.OnAir;
  }

  // ---------------------------------------------------------------------
  // A chain of repeaters
  // ---------------------------------------------------------------------

  /** Repeaters of the network, none of them twice. */
  predicate Path(path: seq<nat>, n: nat) {
    (forall i :: 0 <= i < |path| ==> path[i] < n) && forall i, j :: 0 <= i < j < |path| ==> path[i] != path[j]
  }

  /** The repeaters have names of their own. */
  predicate NamesApart(relays: seq<Router.Relay>) {
    forall i, j :: 0 <= i < j < |relays| ==> !SameId(relays[i].own, relays[j].own)
  }

  /** All of them are ready for the frame, and it was sent by none of them. */
  ghost predicate Ready(relays: seq<Router.Relay>, path: seq<nat>, f: Frame) {
    && Path(path, |relays|) && NamesApart(relays)
    && (forall i :: 0 <= i < |path| ==> Quiet(relays[path[i]], Router.KeyOf(f)))
    && (forall i :: 0 <= i < |path| ==> !SameId(f.senderId, relays[path[i]].own))
    && (forall j :: 0 <= j < |relays| ==> Cut(relays[j].own) == relays[j].own)
  }

  /** What a frame leaves behind on its way. */
  ghost predicate Carried(before: seq<Router.Relay>, after: seq<Router.Relay>, path: seq<nat>, k: Router.Key) {
    && |before| == |after|
    && forall j :: 0 <= j < |before| ==>
         if j in path then Passed(before[j], after[j], k) else after[j] == before[j]
  }

  /** The frame at the end of the path. */
  ghost predicate Arrived(f: Frame, g: Frame, relays: seq<Router.Relay>, path: seq<nat>)
    requires Path(path, |relays|)
  {
    && StableOf(g) == StableOf(f) && g.hopCount == f.hopCount + |path|
    && if path == [] then g == f else g.senderId == relays[path[|path| - 1]].own
  }

  predicate RelayAction(a: Action) {
    a.RelayHears? || a.RelayPolls?
  }

  lemma NextReady(before: seq<Router.Relay>, after: seq<Router.Relay>, path: seq<nat>, f: Frame, auth: Auth)
    requires Ready(before, path, f) && path != [] && Travels(f, auth) && f.hopCount < f.maxHops
    requires |after| == |before| && after == before[path[0] := after[path[0]]]
    requires after[path[0]].own == before[path[0]].own
    ensures Ready(after, path[1..], Copy(before[path[0]], f))
  {
    hide CString, Cut, Accepts, Router.KeyOf, Copy, Quiet;
    CopyTravels(before[path[0]], f, auth);
    var rest := path[1..];
    assert forall i :: 0 <= i < |rest| ==> rest[i] == path[i + 1] && rest[i] != path[0];
  }

  lemma CarriedOn(a: seq<Router.Relay>, b: seq<Router.Relay>, c: seq<Router.Relay>, path: seq<nat>, k: Router.Key)
    requires Path(path, |a|) && path != [] && |a| == |b| && b == a[path[0] := b[path[0]]]
    requires Passed(a[path[0]], b[path[0]], k) && Carried(b, c, path[1..], k)
    ensures Carried(a, c, path, k)
  {
    hide Passed;
    var rest := path[1..];
    assert forall i :: 0 <= i < |rest| ==> rest[i] == path[i + 1] && rest[i] != path[0];
    assert forall j :: j in path <==> j == path[0] || j in rest;
  }

  lemma {:induction false} PassAll(w: World, path: seq<nat>, f: Frame, auth: Auth)
    returns (acts: seq<Action>, g: Frame)
    requires Ready(w.relays, path, f) && f in w.air && Travels(f, auth) && f.hopCount + |path| <= f.maxHops
    ensures (forall a :: a in acts ==> WellFormed(a)) && forall a :: a in acts ==> RelayAction(a)
    ensures Travels(g, auth) && Arrived(f, g, w.relays, path)
    ensures var v := Run(w, acts, auth);
      && v == w.(relays := v.relays, air := v.air) && w.air <= v.air && g in v.air
      && Carried(w.relays, v.relays, path, Router.KeyOf(f))
    decreases |path|
  {
    hide Accepts, CString, Cut, Router.KeyOf, Step, Copy, Run, Quiet, NamesApart;
    if path == [] {
      acts, g := [], f;
      RunNone(w, auth);
    } else {
      var j, h := path[0], Copy(w.relays[path[0]], f);
      Pass(w, j, f, auth);
      CopyTravels(w.relays[j], f, auth);
      var v := Run(w, Relaying(j, f), auth);
      NextReady(w.relays, v.relays, path, f, auth);
      var rest;
      rest, g := PassAll(v, path[1..], h, auth);
      acts := Relaying(j, f) + rest;
      FJ.RunConcat(w, Relaying(j, f), rest, auth);
      CarriedOn(w.relays, v.relays, Run(v, rest, auth).relays, path, Router.KeyOf(f));
    }
  }

  lemma RunNone(w: World, auth: Auth)
    ensures Run(w, [], auth) == w
  {
  }

  // ---------------------------------------------------------------------
  // There and back
  // ---------------------------------------------------------------------

  function Raise(kind: u8, p: Node.Position, batt: u8): Action {
    NodeTriggers(0, kind, p, batt, 0, FJ.SAVED)
  }

  /** Event 1 of the only node is on the air, the gateway is empty and no repeater has heard a thing. */
  ghost predicate Sent(v: World, auth: Auth) {
    && SS.Inv(v, auth) && |v.nodes| == 1 && FJ.Waiting(v.nodes[0], 1) && v.nodes[0].pendingFrame in v.air
    && FJ.FirstRecords(v.gateway.journal.records, 0)
    && forall j :: 0 <= j < |v.relays| ==> v.relays[j].marked == [] && v.relays[j].pending == Router.Idle
  }

  predicate Named(relays: seq<Router.Relay>, names: seq<Id>) {
    |relays| == |names| && forall j :: 0 <= j < |relays| ==> relays[j].own == Cut(names[j])
  }

  lemma StepRaises(w: World, kind: u8, p: Node.Position, batt: u8, auth: Auth)
    requires Node.Representable(p) && |w.nodes| == 1
    ensures Step(w, Raise(kind, p, batt), auth) == NodeTriggered(w, 0, kind, p, batt, 0, FJ.SAVED, auth)
  {
    hide NodeTriggered;
  }

  lemma StepSends(w: World, auth: Auth)
    requires |w.nodes| == 1
    ensures Step(w, FJ.SEND, auth) == NodePolled(w, 0, 0, 0, 0, true, auth)
  {
    hide NodePolled;
  }

  lemma SentAtOnce(id: Id, names: seq<Id>, kind: u8, p: Node.Position, batt: u8, writes: nat -> bool, auth: Auth)
    requires Node.Representable(p)
    ensures var w := SS.Deployed([id], names, 0, writes, auth);
      var v := NodePolled(NodeTriggered(w, 0, kind, p, batt, 0, FJ.SAVED, auth), 0, 0, 0, 0, true, auth);
      && Sent(v, auth) && Named(v.relays, names) && v.nodes[0].nodeId == Cut(id)
      && FrameFact(v.nodes[0].pendingFrame) == FactOf(Request(EventKey(CString(Cut(id)), 1), kind, p, batt))
  {
    hide SS.Inv, NP.Inv, Node.Triggered, Node.Updated, Node.SentByUpdate, FJ.Waiting, FrameFact, FJ.FirstRecords,
         FactOf,
         Gateway.Initialised, Cut, CString, NP.SameEvent;
    var w := SS.Deployed([id], names, 0, writes, auth);
    SS.DeployedGood([id], names, 0, writes, auth);
    FJ.ErasedRecords(map[], 0, writes, auth);
    FJ.GoodNodes(w, auth);
    FJ.NodeRound(w.nodes[0], kind, p, batt, auth);
    SS.TriggeredFact(w.nodes[0], kind, p, batt, 0, FJ.SAVED, auth);
    var raised := Node.Triggered(w.nodes[0], kind, p, batt, 0, FJ.SAVED, auth);
    SS.SameEventSameFact(raised.pendingFrame, Node.Updated(raised, 0, 0, 0, true, auth).pendingFrame);
    SS.NodeTriggersGood(w, 0, kind, p, batt, 0, FJ.SAVED, auth);
    SS.NodePollsGood(NodeTriggered(w, 0, kind, p, batt, 0, FJ.SAVED, auth), 0, 0, 0, 0, true, auth);
  }

  /** The gateway hears a copy of the pending event: stored, reported, and to be acknowledged. */
  lemma GatewayTakes(v: World, f: Frame, auth: Auth)
    requires SS.Inv(v, auth) && FJ.FirstRecords(v.gateway.journal.records, 0)
    requires f in v.air && Gateway.IsEmergency(f) && f.eventId == 1 && HasFlag(f.flags, FLAG_REQUIRE_ACK)
    ensures var u := GatewayHeard(v, f.(lastRssiDbm := 0), 0, 0, true, true);
      && u.gateway.ack == Gateway.Ack(f.(lastRssiDbm := 0), 0, 100)
      && Gateway.CsvV1(Gateway.FrameReport(f.(lastRssiDbm := 0))) in u.gateway.output
      && FrameFact(f) in u.journaled
  {
    hide SS.Inv, GP.Inv, Accepts, HasFlag, Gateway.Processed, Stores, FJ.FirstRecords, FrameFact, CString, Refused;
    var g := f.(lastRssiDbm := 0);
    FJ.GoodNodes(v, auth);
    FJ.GatewayStores(v.gateway, g, 0);
    TakesFrame(v.gateway, g);
    SS.HeardFrame(f, 0);
  }

  lemma TakesFrame(g: Gateway.GatewayState, f: Frame)
    requires GP.Inv(g) && Gateway.IsEmergency(f) && Terminated(f.originId) && Stores(g.journal, f)
    requires HasFlag(f.flags, FLAG_REQUIRE_ACK)
    ensures var h := Gateway.Processed(g, f, 0, 0, true, true);
      h.ack == Gateway.Ack(f, 0, 100) && Gateway.CsvV1(Gateway.FrameReport(f)) in h.output
  {
    hide GP.ReportsExactly, GP.AckSound, GP.RecordsProper, CString, HasFlag, Stores, Gateway.EmergencyHandled,
         Gateway.Heard;
    var m := Gateway.Heard(g, f, 0);
    GP.HeardKeepsJournal(g, f, 0);
    GP.NewEmergencyJournal(m, f, 0, 0, true, true);
  }

  lemma AckTravels(f: Frame, auth: Auth)
    requires Terminated(f.originId)
    ensures var a := FJ.AckOf(f, auth);
      && Travels(a, auth) && a.frameType == FRAME_ACK && a.hopCount == 0 && a.maxHops == f.maxHops
      && SameId(a.originId, f.originId) && a.eventId == f.eventId && SameId(a.senderId, Gateway.GATEWAY_ID)
  {
    hide Cut, CString, Tag, Body, HasFlag, WithFlag, Accepts;
    CutName(f.originId);
    GP.AckAnswers(f, 100, auth);
    GP.GatewayName();
    CutKeepsName(Gateway.GATEWAY_ID);
    GatewayEnds();
  }

  lemma GatewayEnds()
    ensures Terminated(Gateway.GATEWAY_ID)
  {
    CStringIsPrefix(Gateway.GATEWAY_ID);
  }

  /** The node hears a copy of that ACK and takes it for the confirmation of its event. */
  lemma NodeTakes(t: World, a: Frame, auth: Auth)
    requires SS.Inv(t, auth) && |t.nodes| == 1 && FJ.Waiting(t.nodes[0], 1)
    requires StableOf(a) == StableOf(FJ.AckOf(t.nodes[0].pendingFrame, auth))
    ensures var u := NodeHeard(t, 0, a.(lastRssiDbm := 0), 0, FJ.SAVED);
      && |u.nodes| == 1 && u.nodes[0].phase == Node.Confirmed && !u.nodes[0].pendingValid
      && u.gateway == t.gateway && u.journaled == t.journaled
      && FrameFact(t.nodes[0].pendingFrame) in u.confirmed
  {
    hide SS.Inv, NP.Inv, Accepts, FJ.AckOf, FrameFact, CString, Node.SavedAs, FJ.Waiting;
    var n := t.nodes[0];
    FJ.GoodNodes(t, auth);
    FJ.AckConfirms(n, 1, auth);
    SameStableConfirms(n, FJ.AckOf(n.pendingFrame, auth), a);
  }

  lemma SameStableConfirms(n: Node.NodeState, a: Frame, b: Frame)
    requires StableOf(a) == StableOf(b) && Node.Confirms(n, a.(lastRssiDbm := 0))
    ensures Node.Confirms(n, b.(lastRssiDbm := 0))
  {
    hide CString;
  }

  /** The repeaters, the node and the gateway have names of their own. */
  ghost predicate AllApart(id: Id, names: seq<Id>) {
    && (forall i, j :: 0 <= i < j < |names| ==> !SameId(Cut(names[i]), Cut(names[j])))
    && (forall i :: 0 <= i < |names| ==> !SameId(Cut(id), Cut(names[i])) && !SameId(Gateway.GATEWAY_ID, Cut(names[i])))
  }

  /** A run from end to end. */
  datatype Journey = Journey(raise: Action, there: seq<Action>, event: Frame, back: seq<Action>, ack: Frame)

  function Actions(t: Journey): seq<Action> {
    [t.raise, FJ.SEND] + t.there + [FJ.Hear(t.event), GatewayPolls(100)] + t.back
      + [NodeHears(0, t.ack, 0, 0, FJ.SAVED)]
  }

  /** The journey takes the event along one path and the ACK along another. */
  ghost predicate Takes(t: Journey, names: seq<Id>, there: seq<nat>, back: seq<nat>)
    requires Path(there, |names|) && Path(back, |names|)
  {
    && (forall a :: a in t.there + t.back ==> RelayAction(a))
    && t.event.hopCount as nat == |there| && t.ack.hopCount as nat == |back|
    && (there != [] ==> SameId(t.event.senderId, Cut(names[there[|there| - 1]])))
    && (back != [] ==> SameId(t.ack.senderId, Cut(names[back[|back| - 1]])))
  }

  /** The event on its way to the gateway. */
  lemma There(v: World, names: seq<Id>, path: seq<nat>, id: Id, auth: Auth) returns (acts: seq<Action>, g: Frame)
    requires Sent(v, auth) && Named(v.relays, names) && v.nodes[0].nodeId == Cut(id)
    requires AllApart(id, names) && Path(path, |names|) && |path| <= 20
    ensures (forall a :: a in acts ==> WellFormed(a)) && forall a :: a in acts ==> RelayAction(a)
    ensures Arrived(v.nodes[0].pendingFrame, g, v.relays, path) && Travels(g, auth)
    ensures var u := Run(v, acts, auth);
      && SS.Inv(u, auth) && u == v.(relays := u.relays, air := u.air) && g in u.air
      && Carried(v.relays, u.relays, path, Router.KeyOf(v.nodes[0].pendingFrame))
  {
    hide SS.Inv, Accepts, CString, Cut, Step, Run, FJ.FirstRecords;
    var f := v.nodes[0].pendingFrame;
    FJ.GoodNodes(v, auth);
    CutTwice(v.relays, names);
    PendingTravels(v, auth);
    assert forall j :: 0 <= j < |v.relays| ==> Quiet(v.relays[j], Router.KeyOf(f));
    acts, g := PassAll(v, path, f, auth);
    SS.RunKeepsInv(v, acts, auth);
  }

  lemma CutTwice(relays: seq<Router.Relay>, names: seq<Id>)
    requires Named(relays, names)
    ensures forall j :: 0 <= j < |relays| ==> Cut(relays[j].own) == relays[j].own
  {
    hide Cut;
    forall j | 0 <= j < |relays|
      ensures Cut(relays[j].own) == relays[j].own
    {
      CutIdempotent(names[j]);
    }
  }

  /** What a node has just sent has all its hops before it, and its own name on it. */
  lemma PendingTravels(v: World, auth: Auth)
    requires Sent(v, auth)
    ensures var f := v.nodes[0].pendingFrame;
      Travels(f, auth) && f.hopCount == 0 && f.maxHops == 20 && SameId(f.senderId, v.nodes[0].nodeId)
  {
    hide SS.Inv, CString, Cut, Accepts, FJ.FirstRecords, NP.Inv;
    FJ.GoodNodes(v, auth);
    NP.OwnName(v.nodes[0], auth);
    BuiltHops(v.nodes[0], auth);
  }

  lemma BuiltHops(n: Node.NodeState, auth: Auth)
    requires NP.Inv(n, auth) && n.pendingValid && n.nodeId == Cut(n.nodeId)
    ensures n.pendingFrame.hopCount == 0 && n.pendingFrame.maxHops == 20 && n.pendingFrame.senderId == n.nodeId
  {
    hide CString, Cut, Tag, Body, HasFlag, WithFlag, Node.LoadPending;
  }

  /** The gateway takes the event and puts its ACK on the air. */
  lemma AtGateway(u: World, f: Frame, auth: Auth)
    requires SS.Inv(u, auth) && FJ.FirstRecords(u.gateway.journal.records, 0) && f in u.air
    requires Gateway.IsEmergency(f) && f.eventId == 1 && HasFlag(f.flags, FLAG_REQUIRE_ACK)
    ensures var t := GatewayPolled(GatewayHeard(u, f.(lastRssiDbm := 0), 0, 0, true, true), 100, auth);
      && SS.Inv(t, auth) && t.nodes == u.nodes && t.relays == u.relays && FJ.AckOf(f, auth) in t.air
      && Gateway.CsvV1(Gateway.FrameReport(f.(lastRssiDbm := 0))) in t.gateway.output
  {
    hide SS.Inv, Accepts, HasFlag, CString, GatewayHeard, GatewayPolled, FJ.FirstRecords, FJ.AckOf, Gateway.FrameReport;
    GatewayTakes(u, f, auth);
    SS.GatewayHearsGood(u, f, 0, 0, 0, true, true, auth);
    HeardFields(u, f.(lastRssiDbm := 0));
    FJ.AckSent(GatewayHeard(u, f.(lastRssiDbm := 0), 0, 0, true, true), f, auth);
  }

  lemma HeardFields(u: World, f: Frame)
    ensures var v := GatewayHeard(u, f, 0, 0, true, true);
      v.nodes == u.nodes && v.relays == u.relays
  {
    hide Gateway.Processed, Stored, Refused, ReportedFacts;
  }

  /** The ACK on its way back, over repeaters that may have relayed the event. */
  lemma BackReady(before: seq<Router.Relay>, after: seq<Router.Relay>, names: seq<Id>, there: seq<nat>, back: seq<nat>,
                  id: Id, f: Frame, a: Frame)
    requires Named(before, names) && AllApart(id, names) && Path(there, |names|) && Path(back, |names|)
    requires forall j :: 0 <= j < |before| ==> before[j].marked == [] && before[j].pending == Router.Idle
    requires Carried(before, after, there, Router.KeyOf(f)) && f.frameType != a.frameType
    requires SameId(a.senderId, Gateway.GATEWAY_ID)
    ensures Ready(after, back, a)
  {
    hide Cut, CString;
    CutTwice(before, names);
    assert Router.KeyOf(f) != Router.KeyOf(a);
    assert forall j :: 0 <= j < |after| ==> after[j].own == Cut(names[j]) && Quiet(after[j], Router.KeyOf(a));
  }

  lemma SameAck(f: Frame, g: Frame, auth: Auth)
    requires StableOf(f) == StableOf(g)
    ensures FJ.AckOf(f, auth) == FJ.AckOf(g, auth) && Gateway.IsEmergency(f) == Gateway.IsEmergency(g)
    ensures FrameFact(f) == FrameFact(g) && FrameKey(f) == FrameKey(g)
  {
    hide AckFrame, CString;
  }

  /** The host has read the line of the event, and the node sees it confirmed. */
  ghost predicate Delivered(w: World, event: Frame, t: Request) {
    && |w.nodes| == 1 && w.nodes[0].phase == Node.Confirmed && !w.nodes[0].pendingValid
    && Gateway.CsvV1(SD.LineOf(event, 0)) in w.gateway.output
    && SS.Tells(FrameFact(event), t) && FrameFact(event) in w.confirmed
  }

  lemma RunOne(w: World, a: Action, auth: Auth)
    requires WellFormed(a)
    ensures Run(w, [a], auth) == Step(w, a, auth)
  {
    hide Step;
    assert [a][1..] == [];
    assert Run(w, [a], auth) == Run(Step(w, a, auth), [], auth);
  }

  /** The four legs of a journey, put together. */
  lemma Legs(w: World, t: Journey, auth: Auth)
    requires forall a :: a in Actions(t) ==> WellFormed(a)
    ensures (forall a :: a in t.there ==> WellFormed(a)) && (forall a :: a in t.back ==> WellFormed(a))
    ensures WellFormed(t.raise)
    ensures var v := Step(Step(w, t.raise, auth), FJ.SEND, auth);
      var u := Run(v, t.there, auth);
      var x := Step(Step(u, FJ.Hear(t.event), auth), GatewayPolls(100), auth);
      Run(w, Actions(t), auth) == Step(Run(x, t.back, auth), NodeHears(0, t.ack, 0, 0, FJ.SAVED), auth)
  {
    hide Step, WellFormed;
    var start := [t.raise, FJ.SEND];
    var middle := [FJ.Hear(t.event), GatewayPolls(100)];
    var end := [NodeHears(0, t.ack, 0, 0, FJ.SAVED)];
    assert forall a :: a in start + t.there + middle + t.back + end <==>
                       a in start || a in t.there || a in middle || a in t.back || a in end;
    assert t.raise in start;
    FJ.RunConcat(w, start, t.there, auth);
    FJ.RunConcat(w, start + t.there, middle, auth);
    FJ.RunConcat(w, start + t.there + middle, t.back, auth);
    FJ.RunConcat(w, start + t.there + middle + t.back, end, auth);
    FJ.RunTwo(w, start, auth);
    FJ.RunTwo(Run(w, start + t.there, auth), middle, auth);
    RunOne(Run(w, start + t.there + middle + t.back, auth), end[0], auth);
  }

  /** The world once the gateway has taken the event. */
  ghost function AfterGateway(u: World, event: Frame, auth: Auth): World {
    GatewayPolled(GatewayHeard(u, event.(lastRssiDbm := 0), 0, 0, true, true), 100, auth)
  }

  /** The copy at the end of the path is still the event, and the gateway takes it. */
  lemma EventAtGateway(v: World, u: World, path: seq<nat>, g: Frame, auth: Auth)
    requires Sent(v, auth) && SS.Inv(u, auth) && u == v.(relays := u.relays, air := u.air) && g in u.air
    requires StableOf(g) == StableOf(v.nodes[0].pendingFrame)
    ensures var x := AfterGateway(u, g, auth);
      var f := v.nodes[0].pendingFrame;
      && SS.Inv(x, auth) && x.nodes == v.nodes && x.relays == u.relays && FJ.AckOf(f, auth) in x.air
      && Gateway.CsvV1(Gateway.FrameReport(g.(lastRssiDbm := 0))) in x.gateway.output
      && FrameFact(g) == FrameFact(f)
  {
    hide SS.Inv, HasFlag, CString, GatewayHeard, GatewayPolled, FJ.FirstRecords, FJ.AckOf, Gateway.FrameReport;
    SameAck(v.nodes[0].pendingFrame, g, auth);
    AtGateway(u, g, auth);
  }

  /** The ACK on its way to the node. */
  lemma Back(v: World, x: World, names: seq<Id>, there: seq<nat>, back: seq<nat>, id: Id, auth: Auth)
    returns (acts: seq<Action>, a: Frame)
    requires Sent(v, auth) && Named(v.relays, names)
    requires AllApart(id, names) && Path(there, |names|) && Path(back, |names|) && |back| <= 20
    requires SS.Inv(x, auth) && FJ.AckOf(v.nodes[0].pendingFrame, auth) in x.air
    requires Carried(v.relays, x.relays, there, Router.KeyOf(v.nodes[0].pendingFrame))
    ensures (forall b :: b in acts ==> WellFormed(b)) && forall b :: b in acts ==> RelayAction(b)
    ensures Arrived(FJ.AckOf(v.nodes[0].pendingFrame, auth), a, x.relays, back) && Travels(a, auth)
    ensures var y := Run(x, acts, auth);
      SS.Inv(y, auth) && y == x.(relays := y.relays, air := y.air) && a in y.air
  {
    hide SS.Inv, Accepts, CString, Cut, Step, Run, FJ.FirstRecords, FJ.AckOf, FJ.Waiting, Named, AllApart, Quiet;
    var f := v.nodes[0].pendingFrame;
    PendingTravels(v, auth);
    assert |v.relays| == |names| by { NamedLength(v.relays, names); }
    AckTravels(f, auth);
    PendingIsEvent(v, auth);
    BackReady(v.relays, x.relays, names, there, back, id, f, FJ.AckOf(f, auth));
    acts, a := PassAll(x, back, FJ.AckOf(f, auth), auth);
    SS.RunKeepsInv(x, acts, auth);
  }

  lemma NamedLength(relays: seq<Router.Relay>, names: seq<Id>)
    requires Named(relays, names)
    ensures |relays| == |names|
  {
  }

  lemma PendingIsEvent(v: World, auth: Auth)
    requires Sent(v, auth)
    ensures v.nodes[0].pendingFrame.frameType == FRAME_EVENT
  {
    hide SS.Inv, CString, FJ.FirstRecords;
  }

  /** The last repeater of a path put its name on the frame. */
  lemma LastName(f: Frame, g: Frame, before: seq<Router.Relay>, relays: seq<Router.Relay>, names: seq<Id>,
                 path: seq<nat>)
    requires Named(before, names) && Path(path, |names|) && |relays| == |before|
    requires forall j :: 0 <= j < |relays| ==> relays[j].own == before[j].own
    requires f.hopCount == 0 && Arrived(f, g, relays, path)
    ensures g.hopCount as nat == |path|
    ensures path != [] ==> SameId(g.senderId, Cut(names[path[|path| - 1]]))
  {
    hide Cut, CString, StableOf;
  }

  lemma CarriedNames(before: seq<Router.Relay>, after: seq<Router.Relay>, path: seq<nat>, k: Router.Key)
    requires Carried(before, after, path, k)
    ensures |after| == |before| && forall j :: 0 <= j < |after| ==> after[j].own == before[j].own
  {
  }

  /** From the sent event to the confirmation. */
  lemma Deliver(v: World, names: seq<Id>, there: seq<nat>, back: seq<nat>, id: Id, t: Action, auth: Auth)
    returns (j: Journey)
    requires Sent(v, auth) && Named(v.relays, names) && v.nodes[0].nodeId == Cut(id)
    requires AllApart(id, names) && Path(there, |names|) && Path(back, |names|) && |there| <= 20 && |back| <= 20
    ensures j.raise == t && Takes(j, names, there, back)
    ensures (forall a :: a in j.there ==> WellFormed(a)) && forall a :: a in j.back ==> WellFormed(a)
    ensures var u := Run(v, j.there, auth);
      var x := AfterGateway(u, j.event, auth);
      var y := Run(x, j.back, auth);
      && j.event in u.air && Accepts(j.event, auth)
      && |y.nodes| == 1 && j.ack in y.air && Accepts(j.ack, auth)
      && Ended(NodeHeard(y, 0, j.ack.(lastRssiDbm := 0), 0, FJ.SAVED), j.event, v.nodes[0].pendingFrame)
  {
    hide SS.Inv, Accepts, CString, Cut, Step, Run, FJ.FirstRecords, FJ.AckOf, FJ.Waiting, Named, AllApart, Quiet,
         AfterGateway, FrameFact, NodeHeard, Router.KeyOf, StableOf, Gateway.FrameReport, Carried;
    var f := v.nodes[0].pendingFrame;
    PendingTravels(v, auth);
    NamedLength(v.relays, names);
    var outward, event := There(v, names, there, id, auth);
    var u := Run(v, outward, auth);
    EventAtGateway(v, u, there, event, auth);
    var x := AfterGateway(u, event, auth);
    var homeward, ack := Back(v, x, names, there, back, id, auth);
    var y := Run(x, homeward, auth);
    CarriedNames(v.relays, u.relays, there, Router.KeyOf(f));
    AckTravels(f, auth);
    LastName(f, event, v.relays, v.relays, names, there);
    LastName(FJ.AckOf(f, auth), ack, v.relays, x.relays, names, back);
    NodeTakes(y, ack, auth);
    j := Journey(t, outward, event, homeward, ack);
  }

  ghost predicate Ended(w: World, event: Frame, f: Frame) {
    && |w.nodes| == 1 && w.nodes[0].phase == Node.Confirmed && !w.nodes[0].pendingValid
    && Gateway.CsvV1(Gateway.FrameReport(event.(lastRssiDbm := 0))) in w.gateway.output
    && FrameFact(event) == FrameFact(f) && FrameFact(event) in w.confirmed
  }

  /** For any node, any repeaters with names of their own and any two paths of at most twenty of them,
      any key pressed at any position: there is a run in which the event goes along one path and its
      ACK along the other, the host reads the line of the event, and the node sees it confirmed. */
  lemma ConfirmedThroughRelays(id: Id, names: seq<Id>, there: seq<nat>, back: seq<nat>, kind: u8, p: Node.Position,
                               batt: u8, writes: nat -> bool, auth: Auth) returns (t: Journey)
    requires AllApart(id, names) && Path(there, |names|) && Path(back, |names|)
    requires |there| <= 20 && |back| <= 20 && Node.Representable(p)
    ensures t.raise == NodeTriggers(0, kind, p, batt, 0, FJ.SAVED) && Takes(t, names, there, back)
    ensures forall a :: a in Actions(t) ==> WellFormed(a)
    ensures Delivered(Run(SS.Deployed([id], names, 0, writes, auth), Actions(t), auth), t.event,
                      Request(EventKey(CString(Cut(id)), 1), kind, p, batt))
  {
    hide SS.Inv, Accepts, CString, Cut, Step, Run, Sent, FJ.FirstRecords, FJ.AckOf, FrameFact, Gateway.Initialised,
         NodeTriggered, NodePolled, NodeHeard, GatewayHeard, GatewayPolled, AllApart, Takes, Path, FactOf, SS.Tells,
         Node.Representable, Gateway.FrameReport, Named;
    var w := SS.Deployed([id], names, 0, writes, auth);
    SentAtOnce(id, names, kind, p, batt, writes, auth);
    var raise := Raise(kind, p, batt);
    StepRaises(w, kind, p, batt, auth);
    var raised := Step(w, raise, auth);
    RaisedLength(w, kind, p, batt, auth);
    StepSends(raised, auth);
    var v := Step(raised, FJ.SEND, auth);
    t := Deliver(v, names, there, back, id, raise, auth);
    var u := Run(v, t.there, auth);
    FJ.HearStep(u, t.event, auth);
    FJ.StepPolls(Step(u, FJ.Hear(t.event), auth), auth);
    FJ.NodeStepHears(Run(AfterGateway(u, t.event, auth), t.back, auth), t.ack, auth);
    Legs(w, t, auth);
    SS.FactTells(Request(EventKey(CString(Cut(id)), 1), kind, p, batt));
    EventLine(t.event);
  }

  lemma EventLine(f: Frame)
    ensures Gateway.FrameReport(f.(lastRssiDbm := 0)) == SD.LineOf(f, 0)
  {
    hide CString;
  }

  lemma RaisedLength(w: World, kind: u8, p: Node.Position, batt: u8, auth: Auth)
    requires Node.Representable(p) && |w.nodes| == 1
    ensures |NodeTriggered(w, 0, kind, p, batt, 0, FJ.SAVED, auth).nodes| == 1
  {
    hide Node.Triggered;
  }
}
