/** The whole network: nodes, repeaters and one gateway around a channel that loses,
    duplicates and reorders frames, with power cuts at every flash write. */
module System {
  import opened Bytes
  import opened Frames
  import opened Protocol
  import opened Journal
  import Node
  import NP = NodeProperties
  import Router
  import Gateway
  import GP = GatewayProperties

  /** What was passed to a trigger: the key pressed, the position in degrees, the battery level;
      and the key that names the event. */
  datatype Request = Request(key: EventKey, kind: u8, position: Node.Position, batteryPct: u8)

  type Trigger = t: Request | Node.Representable(t.position)
    witness Request(EventKey([], 0), 0, Node.Position(0.0, 0.0), 0)

  /** What was passed to a heartbeat, and by whom. */
  datatype Beacon = Beacon(name: seq<u8>, position: Node.Position, batteryPct: u8)

  /** What frames, records and event lines say of an event. */
  datatype Fact = Fact(key: EventKey, eventType: u8, latE7: i32, lonE7: i32, batteryPct: u8)

  /** What a node makes of it. */
  function FactOf(t: Trigger): Fact {
    Fact(t.key, Node.EventType(t.kind), Node.FixedE7(t.position.lat), Node.FixedE7(t.position.lon), t.batteryPct)
  }

  function FactsOf(triggers: set<Trigger>): set<Fact> {
    set t | t in triggers :: FactOf(t)
  }

  function FrameFact(f: Frame): Fact {
    Fact(FrameKey(f), f.eventType, f.latE7, f.lonE7, f.batteryPct)
  }

  function ReportFact(r: Gateway.Report): Fact {
    Fact(r.key, r.eventType, r.latE7, r.lonE7, r.batteryPct)
  }

  /** What the event lines tell the host. */
  function ReportedFacts(output: seq<Gateway.Line>): set<Fact> {
    set l | l in output && !l.HbV1? :: ReportFact(l.report)
  }

  /** The channel is the set of all frames ever sent. Last come the histories: what was passed to
      triggers and to heartbeats, what the gateway stored, what it reported to the host in any boot,
      what it met with a full journal, and what nodes have seen confirmed. */
  datatype World = World(
    nodes: seq<Node.NodeState>, relays: seq<Router.Relay>, gateway: Gateway.GatewayState, air: set<Frame>,
    triggered: set<Trigger>, beacons: set<Beacon>,
    journaled: set<Fact>, reported: set<Fact>, turnedAway: set<Fact>, confirmed: set<Fact>)

  /** Where the gateway loses power: between two events, or between the two flash writes of
      an emergency it is storing. */
  datatype GatewayCrash =
    | BetweenEvents
    | BetweenWrites(frame: Frame, rssi: i16, at: u32, ok: bool)

  datatype Action =
    | NodeTriggers(i: nat, kind: u8, position: Node.Position, batteryPct: u8, now: u32, pair: Node.Writes)
    | NodePolls(i: nat, now: u32, later: u32, entropy: nat, ok: bool)
    | NodeHears(i: nat, frame: Frame, rssi: i16, now: u32, pair: Node.Writes)
    | NodeBeacons(i: nat, now: u32, position: Node.Position, batteryPct: u8)
    | NodeTests(i: nat, now: u32, latE7: i32, lonE7: i32, batteryPct: u8, gpsValid: bool)
    | NodeReboots(i: nat, nodeCrash: NP.Crash, now: u32)
    | RelayHears(j: nat, frame: Frame, rssi: i16, now: u32, entropy: nat)
    | RelayPolls(j: nat, now: u32)
    | RelayReboots(j: nat)
    | GatewayHears(frame: Frame, rssi: i16, now: u32, entropy: nat, ok: bool, queueOk: bool)
    | GatewayPolls(now: u32)
    | HostCommits(key: EventKey, ok: bool)
    | GatewayReboots(crash: GatewayCrash, cuts: seq<GP.Interruption>, now: u32, writes: nat -> bool)

  predicate WellFormed(a: Action) {
    a.NodeTriggers? || a.NodeBeacons? ==> Node.Representable(a.position)
  }

  /** The frame reaches a receiver and passes its check. */
  predicate Arrives(w: World, f: Frame, auth: Auth) {
    f in w.air && Accepts(f, auth)
  }

  function OnAir(fs: seq<Frame>): set<Frame> {
    set f | f in fs
  }

  // ---------------------------------------------------------------------
  // Nodes
  // ---------------------------------------------------------------------

  /** The event takes the name of its node and the next number of its counter. */
  function TriggerOf(n: Node.NodeState, kind: u8, p: Node.Position, batteryPct: u8): Trigger
    requires Node.Representable(p)
  {
    Request(EventKey(CString(n.nodeId), Succ32(n.flash.counter)), kind, p, batteryPct)
  }

  function NodeTriggered(w: World, i: nat, kind: u8, p: Node.Position, batteryPct: u8, now: u32, ok: Node.Writes,
                         auth: Auth): World
    requires i < |w.nodes| && Node.Representable(p)
  {
    var m := Node.Triggered(w.nodes[i], kind, p, batteryPct, now, ok, auth);
    w.(nodes := w.nodes[i := m], triggered := w.triggered + {TriggerOf(w.nodes[i], kind, p, batteryPct)})
  }

  /** A heartbeat with the position and the battery level of the moment. */
  function NodeBeaconed(w: World, i: nat, now: u32, p: Node.Position, batteryPct: u8, auth: Auth): World
    requires i < |w.nodes| && Node.Representable(p)
  {
    var id := w.nodes[i].nodeId;
    w.(air := w.air + {HeartbeatFrame(id, now, Node.FixedE7(p.lat), Node.FixedE7(p.lon), batteryPct, Node.HasFix(p),
                                      batteryPct <= Node.LOW_BATTERY_PCT, auth)},
       beacons := w.beacons + {Beacon(CString(id), p, batteryPct)})
  }

  function NodePolled(w: World, i: nat, now: u32, later: u32, entropy: nat, ok: bool, auth: Auth): World
    requires i < |w.nodes|
  {
    w.(nodes := w.nodes[i := Node.Updated(w.nodes[i], now, later, entropy, ok, auth)],
       air := w.air + OnAir(Node.SentByUpdate(w.nodes[i], now, auth)))
  }

  function Confirmation(n: Node.NodeState, f: Frame): set<Fact> {
    if Node.Confirms(n, f) then {FrameFact(n.pendingFrame)} else {}
  }

  function NodeHeard(w: World, i: nat, f: Frame, now: u32, ok: Node.Writes): World
    requires i < |w.nodes|
  {
    var n := w.nodes[i];
    w.(nodes := w.nodes[i := Node.AckHandled(n, f, now, ok)],
       confirmed := w.confirmed + Confirmation(n, f))
  }

  /** An event whose record is marked as acknowledged will not be sent again, so it counts as
      confirmed even if the power fails before the record is removed. */
  function NodeRebooted(w: World, i: nat, c: NP.Crash, now: u32, auth: Auth): World
    requires i < |w.nodes|
  {
    var n := w.nodes[i];
    w.(nodes := w.nodes[i := Node.Booted(n.nodeId, NP.FlashAt(n, c, auth), now, auth)],
       confirmed := w.confirmed + if c.AfterAckSave? then Confirmation(n, c.ack) else {})
  }

  // ---------------------------------------------------------------------
  // The gateway
  // ---------------------------------------------------------------------

  function Stored(g: Gateway.GatewayState, f: Frame): set<Fact> {
    if Gateway.IsEmergency(f) && Stores(g.journal, f) then {FrameFact(f)} else {}
  }

  /** All records are in use when the emergency arrives. */
  ghost function Refused(g: Gateway.GatewayState, f: Frame): set<Fact> {
    if Gateway.IsEmergency(f) && GP.Full(g.journal.records) then {FrameFact(f)} else {}
  }

  ghost function GatewayHeard(w: World, f: Frame, now: u32, entropy: nat, ok: bool, queueOk: bool): World {
    var g := Gateway.Processed(w.gateway, f, now, entropy, ok, queueOk);
    w.(gateway := g,
       journaled := w.journaled + Stored(w.gateway, f),
       reported := w.reported + ReportedFacts(g.output),
       turnedAway := w.turnedAway + Refused(w.gateway, f))
  }

  function GatewayPolled(w: World, now: u32, auth: Auth): World {
    w.(gateway := Gateway.Updated(w.gateway, now), air := w.air + OnAir(Gateway.AckOnAir(w.gateway, now, auth)))
  }

  function FlashThrough(nvs: Nvs, cuts: seq<GP.Interruption>, auth: Auth): Nvs
    decreases |cuts|
  {
    if cuts == [] then nvs else FlashThrough(GP.FlashAfter(nvs, cuts[0], auth), cuts[1..], auth)
  }

  /** Any number of interrupted boots, whose lines are not counted on, then one that completes. */
  function GatewayBooted(w: World, flash: Nvs, cuts: seq<GP.Interruption>, now: u32, writes: nat -> bool,
                         auth: Auth): World {
    var g := Gateway.Initialised(FlashThrough(flash, cuts, auth), now, writes, auth);
    w.(gateway := g, reported := w.reported + ReportedFacts(g.output))
  }

  function GatewayRebooted(w: World, c: GatewayCrash, cuts: seq<GP.Interruption>, now: u32, writes: nat -> bool,
                           auth: Auth): World {
    match c
    case BetweenEvents => GatewayBooted(w, w.gateway.journal.nvs, cuts, now, writes, auth)
    case BetweenWrites(f, rssi, at, ok) =>
      var g := f.(lastRssiDbm := rssi);
      if !Arrives(w, f, auth) || !Gateway.IsEmergency(g) then w
      else GatewayBooted(w.(journaled := w.journaled + Stored(w.gateway, g)),
                         Appended(w.gateway.journal, g, at, ok).nvs, cuts, now, writes, auth)
  }

  // ---------------------------------------------------------------------
  // Runs
  // ---------------------------------------------------------------------

  ghost function NodeStep(w: World, a: Action, auth: Auth): World
    requires WellFormed(a)
  {
    match a
    case NodeTriggers(i, kind, p, batt, now, ok) =>
      if i < |w.nodes| then NodeTriggered(w, i, kind, p, batt, now, ok, auth) else w
    case NodePolls(i, now, later, entropy, ok) =>
      if i < |w.nodes| then NodePolled(w, i, now, later, entropy, ok, auth) else w
    case NodeHears(i, f, rssi, now, ok) =>
      if i < |w.nodes| && Arrives(w, f, auth) then NodeHeard(w, i, f.(lastRssiDbm := rssi), now, ok) else w
    case NodeBeacons(i, now, p, batt) =>
      if i < |w.nodes| then NodeBeaconed(w, i, now, p, batt, auth) else w
    case NodeTests(i, now, lat, lon, batt, gps) =>
      if i < |w.nodes| then
        var id := w.nodes[i].nodeId;
        w.(air := w.air + {EventFrame(id, id, 0, EVENT_TEST, 0, now, lat, lon, batt, gps, batt <= 15, auth)}) else w
    case NodeReboots(i, c, now) =>
      if i < |w.nodes| && (c.AfterAckSave? ==> Arrives(w, c.ack, auth)) then NodeRebooted(w, i, c, now, auth) else w
    case _ => w
  }

  ghost function Step(w: World, a: Action, auth: Auth): World
    requires WellFormed(a)
  {
    match a
    case RelayHears(j, f, rssi, now, entropy) =>
      if j < |w.relays| && Arrives(w, f, auth) then
        w.(relays := w.relays[j := Router.Received(w.relays[j], f, rssi, now, entropy)]) else w
    case RelayPolls(j, now) =>
      if j < |w.relays| then
        w.(relays := w.relays[j := Router.Polled(w.relays[j], now)], air := w.air + OnAir(Router.OnAir(w.relays[j],
            now)))
      else w
    case RelayReboots(j) =>
      if j < |w.relays| then w.(relays := w.relays[j := Router.Fresh(w.relays[j].own)]) else w
    case GatewayHears(f, rssi, now, entropy, ok, queueOk) =>
      if Arrives(w, f, auth) then GatewayHeard(w, f.(lastRssiDbm := rssi), now, entropy, ok, queueOk) else w
    case GatewayPolls(now) => GatewayPolled(w, now, auth)
    case HostCommits(k, ok) =>
      w.(gateway := Gateway.HostCommitted(w.gateway, k, ok))
    case GatewayReboots(c, cuts, now, writes) =>
      GatewayRebooted(w, c, cuts, now, writes, auth)
    case _ => NodeStep(w, a, auth)
  }

  ghost function Run(w: World, acts: seq<Action>, auth: Auth): World
    requires forall a :: a in acts ==> WellFormed(a)
    decreases |acts|
  {
    if acts == [] then w else Run(Step(w, acts[0], auth), acts[1..], auth)
  }
}
