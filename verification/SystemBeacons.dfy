/** Heartbeats across the network: what the host reads of one is what its node put into it. */
module SystemBeacons {
  import opened Bytes
  import opened Frames
  import opened Protocol
  import opened Journal
  import opened System
  import Node
  import NP = NodeProperties
  import Router
  import Gateway
  import GP = GatewayProperties
  import SS = SystemSafety

  /** What is said of a node's position and battery level was passed to one of its heartbeats. */
  ghost predicate Sent(name: seq<u8>, latE7: i32, lonE7: i32, batteryPct: u8, beacons: set<Beacon>) {
    exists b :: b in beacons && b.name == name && b.batteryPct == batteryPct
      && SS.Near(latE7, b.position.lat) && SS.Near(lonE7, b.position.lon)
  }

  ghost predicate TrueFrame(f: Frame, beacons: set<Beacon>) {
    f.frameType == FRAME_HEARTBEAT ==> Sent(CString(f.originId), f.latE7, f.lonE7, f.batteryPct, beacons)
  }

  ghost predicate TrueLine(l: Gateway.Line, beacons: set<Beacon>) {
    l.HbV1? ==> Sent(l.name, l.latE7, l.lonE7, l.batteryPct, beacons)
  }

  ghost predicate TrueAir(air: set<Frame>, beacons: set<Beacon>) {
    forall f :: f in air ==> TrueFrame(f, beacons)
  }

  ghost predicate TrueRelays(relays: seq<Router.Relay>, beacons: set<Beacon>) {
    forall j :: 0 <= j < |relays| && relays[j].pending.Pending? ==> TrueFrame(relays[j].pending.frame, beacons)
  }

  ghost predicate TrueOutput(output: seq<Gateway.Line>, beacons: set<Beacon>) {
    forall i :: 0 <= i < |output| ==> TrueLine(output[i], beacons)
  }

  ghost predicate Inv(w: World) {
    TrueAir(w.air, w.beacons) && TrueRelays(w.relays, w.beacons) && TrueOutput(w.gateway.output, w.beacons)
  }

  // ---------------------------------------------------------------------
  // Nodes
  // ---------------------------------------------------------------------

  lemma BeaconKeeps(w: World, i: nat, now: u32, p: Node.Position, batt: u8, auth: Auth)
    requires Inv(w) && i < |w.nodes| && Node.Representable(p) && Cut(w.nodes[i].nodeId) == w.nodes[i].nodeId
    ensures Inv(NodeBeaconed(w, i, now, p, batt, auth))
  {
    hide CString, Cut, Sealed, Node.FixedE7, SS.Near;
    var v := NodeBeaconed(w, i, now, p, batt, auth);
    SS.FixedNear(p.lat);
    SS.FixedNear(p.lon);
    var id, lat, lon := w.nodes[i].nodeId, Node.FixedE7(p.lat), Node.FixedE7(p.lon);
    BeaconFrame(id, now, lat, lon, batt, Node.HasFix(p), batt <= Node.LOW_BATTERY_PCT, auth);
    var b := Beacon(CString(id), p, batt);
    assert b in v.beacons;
    assert Sent(CString(id), lat, lon, batt, v.beacons);
    MoreBeacons(w, {b});
  }

  lemma BeaconFrame(id: Id, now: u32, lat: i32, lon: i32, batt: u8, gps: bool, low: bool, auth: Auth)
    ensures var f := HeartbeatFrame(id, now, lat, lon, batt, gps, low, auth);
      f.originId == Cut(id) && f.latE7 == lat && f.lonE7 == lon && f.batteryPct == batt
  {
    hide Cut, Tag, Body;
  }

  lemma MoreBeacons(w: World, more: set<Beacon>)
    requires Inv(w)
    ensures Inv(w.(beacons := w.beacons + more))
  {
    hide CString, SS.Near;
    forall name, lat, lon, batt | Sent(name, lat, lon, batt, w.beacons)
      ensures Sent(name, lat, lon, batt, w.beacons + more)
    {
      var b :| b in w.beacons && b.name == name && b.batteryPct == batt
        && SS.Near(lat, b.position.lat) && SS.Near(lon, b.position.lon);
      assert b in w.beacons + more;
    }
  }

  /** A node's own sending loop sends events only, a test is an event, an ACK is an ACK. */
  lemma AttemptIsEvent(n: Node.NodeState, now: u32, auth: Auth)
    requires NP.Inv(n, auth)
    ensures forall f :: f in Node.SentByUpdate(n, now, auth) ==> f.frameType == FRAME_EVENT
  {
    hide NP.Inv, Cut, CString, Tag, Body, WithFlag;
    if n.pendingValid {
      SS.PendingFact(n, auth);
    }
  }

  lemma EventFrameType(origin: Id, sender: Id, eventId: u32, eventType: u8, attempt: u16, timeMs: u32, latE7: i32,
                       lonE7: i32, batt: u8, gps: bool, low: bool, auth: Auth)
    ensures EventFrame(origin, sender, eventId, eventType, attempt, timeMs, latE7, lonE7, batt, gps, low,
                       auth).frameType == FRAME_EVENT
  {
    hide Cut, Tag, Body;
  }

  lemma NodeStepKeeps(w: World, a: Action, auth: Auth)
    requires SS.Inv(w, auth) && Inv(w) && WellFormed(a)
    ensures Inv(NodeStep(w, a, auth))
  {
    hide NP.Inv, Accepts, Node.Triggered, Node.Updated, Node.Booted, Node.AckHandled, NP.FlashAt, CString, Cut,
         EventFrame, Node.SentByUpdate, NodeBeaconed, TrueRelays, TrueOutput, SS.GoodGateway, SS.RelaysGood,
         SS.AirGood, Sent, SS.FlashRaised, Node.Confirms, TriggerOf;
    match a
    case NodePolls(i, now, later, entropy, ok) =>
      if i < |w.nodes| {
        assert SS.GoodNode(w.nodes[i], SS.Raised(w), auth);
        AttemptIsEvent(w.nodes[i], now, auth);
      }
    case NodeBeacons(i, now, p, batt) =>
      if i < |w.nodes| {
        assert SS.GoodNode(w.nodes[i], SS.Raised(w), auth);
        NP.OwnName(w.nodes[i], auth);
        BeaconKeeps(w, i, now, p, batt, auth);
      }
    case NodeTests(i, now, lat, lon, batt, gps) =>
      if i < |w.nodes| {
        var id := w.nodes[i].nodeId;
        EventFrameType(id, id, 0, EVENT_TEST, 0, now, lat, lon, batt, gps, batt <= 15, auth);
      }
    case _ =>
  }

  // ---------------------------------------------------------------------
  // Repeaters
  // ---------------------------------------------------------------------

  lemma RelayedTrue(r: Router.Relay, f: Frame, rssi: i16, now: u32, entropy: nat, beacons: set<Beacon>)
    requires TrueFrame(f, beacons) && (r.pending.Pending? ==> TrueFrame(r.pending.frame, beacons))
    ensures var p := Router.Received(r, f, rssi, now, entropy).pending;
      p.Pending? ==> TrueFrame(p.frame, beacons)
  {
    hide CString, Cut, Body, Router.KeyOf, Router.StoredKey, Router.Backoff, Router.Recent, Sent;
  }

  // ---------------------------------------------------------------------
  // The gateway
  // ---------------------------------------------------------------------

  /** A heartbeat prints one line, with what it carries and the RSSI it was heard with; no other frame
      prints such a line. */
  lemma HeartbeatPrinted(g: Gateway.GatewayState, f: Frame, rssi: i16, now: u32, entropy: nat, ok: bool, queueOk: bool)
    ensures var h := Gateway.Processed(g, f.(lastRssiDbm := rssi), now, entropy, ok, queueOk);
      if f.frameType == 3
      then h.output == g.output + [Gateway.HbV1(CString(f.originId), f.latE7, f.lonE7, f.batteryPct, rssi)]
      else h.output == g.output || exists r :: h.output == g.output + [Gateway.CsvV1(r)]
  {
    hide CString, Appended, Queued, Stores, HasFlag;
  }

  lemma PrintedTrue(g: Gateway.GatewayState, f: Frame, rssi: i16, now: u32, entropy: nat, ok: bool, queueOk: bool,
                    beacons: set<Beacon>)
    requires TrueOutput(g.output, beacons) && TrueFrame(f, beacons)
    ensures TrueOutput(Gateway.Processed(g, f.(lastRssiDbm := rssi), now, entropy, ok, queueOk).output, beacons)
  {
    hide CString, Gateway.Processed, Sent;
    HeartbeatPrinted(g, f, rssi, now, entropy, ok, queueOk);
  }

  /** The replay prints no heartbeats. */
  lemma {:induction false} ReplayTrue(g: Gateway.GatewayState, n: nat, now: u32, writes: nat -> bool, auth: Auth,
                                      beacons: set<Beacon>)
    requires TrueOutput(g.output, beacons)
    ensures TrueOutput(Gateway.Replayed(g, n, now, writes, auth).output, beacons)
  {
    hide Sent, Queued, Gateway.RecordReport, ReplayPositions, Gateway.ReplayAck;
    if n > 0 {
      ReplayTrue(g, n - 1, now, writes, auth, beacons);
    }
  }

  lemma InitialisedTrue(flash: Nvs, now: u32, writes: nat -> bool, auth: Auth, beacons: set<Beacon>)
    ensures TrueOutput(Gateway.Initialised(flash, now, writes, auth).output, beacons)
  {
    hide Gateway.Replayed, Booted;
    ReplayTrue(Gateway.Loaded(flash, 0), Gateway.ReplayLength(Booted(flash)), now, writes, auth, beacons);
  }

  lemma RebootKeeps(w: World, c: GatewayCrash, cuts: seq<GP.Interruption>, now: u32, writes: nat -> bool, auth: Auth)
    requires Inv(w)
    ensures Inv(GatewayRebooted(w, c, cuts, now, writes, auth))
  {
    hide TrueAir, TrueRelays, TrueOutput, Gateway.Initialised, FlashThrough, Accepts, Appended, Stored, ReportedFacts;
    match c
    case BetweenEvents =>
      InitialisedTrue(FlashThrough(w.gateway.journal.nvs, cuts, auth), now, writes, auth, w.beacons);
    case BetweenWrites(f, rssi, at, ok) =>
      var flash := Appended(w.gateway.journal, f.(lastRssiDbm := rssi), at, ok).nvs;
      InitialisedTrue(FlashThrough(flash, cuts, auth), now, writes, auth, w.beacons);
  }

  lemma AckIsAck(g: Gateway.GatewayState, now: u32, auth: Auth)
    ensures forall f :: f in Gateway.AckOnAir(g, now, auth) ==> f.frameType == FRAME_ACK
  {
    hide Cut, Tag, Body, Gateway.AckDue;
  }

  // ---------------------------------------------------------------------
  // Steps and runs
  // ---------------------------------------------------------------------

  lemma StepKeepsInv(w: World, a: Action, auth: Auth)
    requires SS.Inv(w, auth) && Inv(w) && WellFormed(a)
    ensures Inv(Step(w, a, auth))
  {
    hide SS.Inv, TrueFrame, TrueOutput, NodeStep, Gateway.Processed, GatewayRebooted, Gateway.AckOnAir, Accepts,
         Router.Received, Stored, Refused, ReportedFacts;
    match a
    case RelayHears(j, f, rssi, now, entropy) =>
      if j < |w.relays| && Arrives(w, f, auth) {
        RelayedTrue(w.relays[j], f, rssi, now, entropy, w.beacons);
      }
    case RelayPolls(j, now) =>
    case RelayReboots(j) =>
    case GatewayHears(f, rssi, now, entropy, ok, queueOk) =>
      if Arrives(w, f, auth) {
        PrintedTrue(w.gateway, f, rssi, now, entropy, ok, queueOk, w.beacons);
      }
    case GatewayPolls(now) =>
      AckIsAck(w.gateway, now, auth);
      AckTrue(w, OnAir(Gateway.AckOnAir(w.gateway, now, auth)));
    case HostCommits(k, ok) =>
    case GatewayReboots(c, cuts, now, writes) =>
      RebootKeeps(w, c, cuts, now, writes, auth);
    case _ =>
      NodeStepKeeps(w, a, auth);
  }

  lemma AckTrue(w: World, sent: set<Frame>)
    requires TrueAir(w.air, w.beacons) && forall f :: f in sent ==> f.frameType == FRAME_ACK
    ensures TrueAir(w.air + sent, w.beacons)
  {
    hide Sent, CString;
  }

  lemma {:induction false} RunKeepsInv(w: World, acts: seq<Action>, auth: Auth)
    requires SS.Inv(w, auth) && Inv(w) && forall a :: a in acts ==> WellFormed(a)
    ensures Inv(Run(w, acts, auth))
    decreases |acts|
  {
    hide Inv, SS.Inv, Step;
    if acts != [] {
      StepKeepsInv(w, acts[0], auth);
      SS.StepKeepsInv(w, acts[0], auth);
      RunKeepsInv(Step(w, acts[0], auth), acts[1..], auth);
    }
  }

  /** Over every run of the network, every heartbeat line the host reads tells a position and battery
      level that the node of that name passed to a heartbeat. */
  lemma HeartbeatsAreTrue(nodes: seq<Id>, relays: seq<Id>, now: u32, writes: nat -> bool, acts: seq<Action>, auth: Auth)
    requires forall a :: a in acts ==> WellFormed(a)
    ensures var w := Run(SS.Deployed(nodes, relays, now, writes, auth), acts, auth);
      TrueOutput(w.gateway.output, w.beacons)
  {
    hide Run, SS.Inv, Gateway.Initialised, Cut, TrueOutput;
    var start := SS.Deployed(nodes, relays, now, writes, auth);
    SS.DeployedGood(nodes, relays, now, writes, auth);
    InitialisedTrue(map[], now, writes, auth, {});
    RunKeepsInv(start, acts, auth);
  }
}
