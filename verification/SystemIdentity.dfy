/** Below the wrap-around of the event counters an id names one event, network-wide. */
module SystemIdentity {
  import opened Bytes
  import opened Protocol
  import opened Journal
  import opened System
  import Node
  import NP = NodeProperties
  import Router
  import Gateway
  import SS = SystemSafety

  /** The event of a node that an action stands for, if it stands for one. */
  predicate Touches(w: World, a: Action, i: nat, e: NP.Event, auth: Auth) {
    match a
    case NodeTriggers(j, kind, p, batt, now, ok) => i == j && e == NP.Trigger(kind, p, batt, now, ok)
    case NodePolls(j, now, later, entropy, ok) => i == j && e == NP.Poll(now, later, entropy, ok)
    case NodeHears(j, f, rssi, now, ok) => i == j && Arrives(w, f, auth)
        && e == NP.Ack(f.(lastRssiDbm := rssi), now, ok)
    case NodeReboots(j, c, now) => i == j && (c.AfterAckSave? ==> Arrives(w, c.ack, auth)) && e == NP.Reboot(c, now)
    case _ => false
  }

  /** Counter increments of node `i` in an action, and in a run. */
  function Bump(a: Action, i: nat): nat {
    if (a.NodeTriggers? && a.i == i && a.pair.first) || (a.NodeReboots? && a.i == i && a.nodeCrash.AfterCounter?) then 1
    else 0
  }

  function Bumps(acts: seq<Action>, i: nat): nat {
    if acts == [] then 0 else Bump(acts[0], i) + Bumps(acts[1..], i)
  }

  /** The counter put of a trigger succeeds. */
  predicate Counts(a: Action) {
    a.NodeTriggers? ==> a.pair.first
  }

  /** No counter wraps around in the run. */
  predicate Room(w: World, acts: seq<Action>) {
    forall i :: 0 <= i < |w.nodes| ==> w.nodes[i].flash.counter + Bumps(acts, i) < TWO_32
  }

  function RaisedBy(n: Node.NodeState, e: NP.Event): set<Trigger>
    requires NP.WellFormed(e)
  {
    if e.Trigger? then {TriggerOf(n, e.kind, e.position, e.batteryPct)} else {}
  }

  /** `v` differs from `w` by event `e` of node `i`, and by what that raises. */
  predicate ByNode(w: World, v: World, i: nat, e: NP.Event, auth: Auth) {
    && i < |w.nodes| && NP.WellFormed(e)
    && v.nodes == w.nodes[i := NP.Step(w.nodes[i], e, auth)]
    && v.triggered == w.triggered + RaisedBy(w.nodes[i], e)
  }

  /** A step leaves the nodes and what they raised alone, or is one event of one node. */
  lemma StepOfOneNode(w: World, a: Action, auth: Auth)
    requires WellFormed(a)
    ensures var v := Step(w, a, auth);
      || (v.nodes == w.nodes && v.triggered == w.triggered)
      || exists i: nat, e :: Touches(w, a, i, e, auth) && ByNode(w, v, i, e, auth)
  {
    hide Accepts, CString, Node.Triggered, Node.Updated, Node.Booted, Node.AckHandled, NP.FlashAt, Gateway.Initialised,
         Gateway.Processed, Router.Received, FlashThrough, Appended, FrameFact, Node.SentByUpdate, HeartbeatFrame,
             EventFrame, Node.Confirms;
    var v := Step(w, a, auth);
    assert w.triggered + {} == w.triggered;
    match a
    case NodeTriggers(i, kind, p, batt, now, ok) =>
      if i < |w.nodes| {
        assert Touches(w, a, i, NP.Trigger(kind, p, batt, now, ok), auth);
      }
    case NodePolls(i, now, later, entropy, ok) =>
      if i < |w.nodes| {
        assert Touches(w, a, i, NP.Poll(now, later, entropy, ok), auth);
      }
    case NodeHears(i, f, rssi, now, ok) =>
      if i < |w.nodes| && Arrives(w, f, auth) {
        assert Touches(w, a, i, NP.Ack(f.(lastRssiDbm := rssi), now, ok), auth);
      }
    case NodeReboots(i, c, now) =>
      if i < |w.nodes| && (c.AfterAckSave? ==> Arrives(w, c.ack, auth)) {
        assert Touches(w, a, i, NP.Reboot(c, now), auth);
      }
    case _ =>
  }

  /** Nodes with different names, and every trigger's number below its node's counter. */
  ghost predicate Inv(w: World) {
    && (forall i, j :: 0 <= i < j < |w.nodes| ==> CString(w.nodes[i].nodeId) != CString(w.nodes[j].nodeId))
    && (forall t :: t in w.triggered ==> Owned(w.nodes, t))
    && Unique(w.triggered)
  }

  ghost predicate Owned(nodes: seq<Node.NodeState>, t: Trigger) {
    exists i :: 0 <= i < |nodes| && t.key.name == CString(nodes[i].nodeId) && t.key.eventId <= nodes[i].flash.counter
  }

  ghost predicate Unique(triggers: set<Trigger>) {
    forall s, t :: s in triggers && t in triggers && s.key == t.key ==> s == t
  }

  lemma NodeEventCounts(n: Node.NodeState, e: NP.Event, auth: Auth)
    requires NP.Inv(n, auth) && NP.WellFormed(e) && NP.Counts(e) && n.flash.counter + NP.Bump(e) < TWO_32
    ensures var m := NP.Step(n, e, auth);
      && m.nodeId == n.nodeId && m.flash.counter == n.flash.counter + NP.Bump(e)
      && forall t :: t in RaisedBy(n, e) ==> t.key == EventKey(CString(n.nodeId), m.flash.counter)
  {
    hide NP.Inv, NP.Step, CString;
    NP.StepKeepsInv(n, e, auth);
    NP.StepCounts(n, e, auth);
  }

  /** Replacing node `i` by one with the same name and no lower counter. */
  lemma OwnedStays(nodes: seq<Node.NodeState>, i: nat, m: Node.NodeState, t: Trigger)
    requires i < |nodes| && m.nodeId == nodes[i].nodeId && nodes[i].flash.counter <= m.flash.counter
    requires Owned(nodes, t)
    ensures Owned(nodes[i := m], t)
  {
    hide CString;
    var j :| 0 <= j < |nodes| && t.key.name == CString(nodes[j].nodeId) && t.key.eventId <= nodes[j].flash.counter;
    assert nodes[i := m][j].nodeId == nodes[j].nodeId;
  }

  lemma NodeChange(w: World, v: World, i: nat, m: Node.NodeState, raised: set<Trigger>)
    requires Inv(w) && i < |w.nodes| && v.nodes == w.nodes[i := m] && v.triggered == w.triggered + raised
    requires m.nodeId == w.nodes[i].nodeId && w.nodes[i].flash.counter <= m.flash.counter
    requires forall t :: t in raised ==> t.key == EventKey(CString(m.nodeId), m.flash.counter)
    requires forall s, t :: s in raised && t in raised ==> s == t
    requires raised != {} ==> w.nodes[i].flash.counter < m.flash.counter
    ensures Inv(v)
  {
    hide CString;
    forall t | t in v.triggered
      ensures Owned(v.nodes, t)
    {
      if t in w.triggered {
        OwnedStays(w.nodes, i, m, t);
      } else {
        assert v.nodes[i] == m;
      }
    }
    forall s, t | s in w.triggered && t in raised
      ensures s.key != t.key
    {
      var j :| 0 <= j < |w.nodes| && s.key.name == CString(w.nodes[j].nodeId)
          && s.key.eventId <= w.nodes[j].flash.counter;
    }
  }

  lemma NodeEventKeepsInv(w: World, v: World, i: nat, e: NP.Event, auth: Auth)
    requires ByNode(w, v, i, e, auth) && NP.Inv(w.nodes[i], auth) && NP.Counts(e)
    requires Inv(w) && w.nodes[i].flash.counter + NP.Bump(e) < TWO_32
    ensures Inv(v) && |v.nodes| == |w.nodes|
    ensures forall j :: 0 <= j < |w.nodes| ==>
              v.nodes[j].flash.counter == w.nodes[j].flash.counter + if j == i then NP.Bump(e) else 0
  {
    hide Inv, CString, NP.Step, FrameFact, NP.Inv;
    NodeEventCounts(w.nodes[i], e, auth);
    NodeChange(w, v, i, v.nodes[i], RaisedBy(w.nodes[i], e));
  }

  lemma StepKeepsInv(w: World, a: Action, auth: Auth)
    requires SS.Inv(w, auth) && Inv(w) && WellFormed(a) && Counts(a)
    requires forall i :: 0 <= i < |w.nodes| ==> w.nodes[i].flash.counter + Bump(a, i) < TWO_32
    ensures var v := Step(w, a, auth);
      && Inv(v) && |v.nodes| == |w.nodes|
      && forall i :: 0 <= i < |w.nodes| ==> v.nodes[i].flash.counter <= w.nodes[i].flash.counter + Bump(a, i)
  {
    hide Step, NP.Step, FrameFact, NP.Inv, SS.AirGood, SS.RelaysGood, SS.GoodGateway, Accepts, NP.WellFormed, Inv;
    StepOfOneNode(w, a, auth);
    var v := Step(w, a, auth);
    if !(v.nodes == w.nodes && v.triggered == w.triggered) {
      var i: nat, e :| Touches(w, a, i, e, auth) && ByNode(w, v, i, e, auth);
      assert SS.GoodNode(w.nodes[i], SS.Raised(w), auth);
      assert NP.Bump(e) == Bump(a, i) && NP.Counts(e);
      NodeEventKeepsInv(w, v, i, e, auth);
    } else {
      SameNodes(w, v);
    }
  }

  lemma SameNodes(w: World, v: World)
    requires Inv(w) && v.nodes == w.nodes && v.triggered == w.triggered
    ensures Inv(v)
  {
    hide CString;
  }

  lemma {:induction false} RunKeepsInv(w: World, acts: seq<Action>, auth: Auth)
    requires SS.Inv(w, auth) && Inv(w) && (forall a :: a in acts ==> WellFormed(a) && Counts(a)) && Room(w, acts)
    ensures Inv(Run(w, acts, auth))
    decreases |acts|
  {
    hide Inv, SS.Inv, Step;
    if acts != [] {
      forall i | 0 <= i < |w.nodes|
        ensures w.nodes[i].flash.counter + Bump(acts[0], i) < TWO_32
      {
        assert Bumps(acts, i) == Bump(acts[0], i) + Bumps(acts[1..], i);
      }
      StepKeepsInv(w, acts[0], auth);
      SS.StepKeepsInv(w, acts[0], auth);
      RunKeepsInv(Step(w, acts[0], auth), acts[1..], auth);
    }
  }

  /** A record and a trigger with the same key go together. */
  ghost predicate RecordsTell(w: World) {
    forall r, t: Trigger :: r in w.gateway.journal.records && t in w.triggered && Under(r, t) ==>
      SS.Tells(SS.RecordFact(r), t)
  }

  predicate Under(r: Record, t: Request) {
    r.used && t.key == RecordKey(r)
  }

  /** What the gateway holds under a key tells what was passed to the one trigger of that name and
      number, and what a node saw confirmed was reported to the host with its type, position and
      battery level, or met a full journal. */
  ghost predicate Exact(w: World) {
    && Unique(w.triggered)
    && RecordsTell(w)
    && w.confirmed <= w.reported + w.turnedAway && w.reported <= w.journaled
  }

  /** With different node names, counter puts that succeed, and fewer than 2^32 of them on each
      node, a node raises one event per id over all its reboots, and that event is what the
      gateway records and reports, and what the node sees confirmed. */
  lemma RecordsAreTheRaisedEvents(nodes: seq<Id>, relays: seq<Id>, now: u32, writes: nat -> bool, acts: seq<Action>,
                                  auth: Auth)
    requires forall a :: a in acts ==> WellFormed(a) && Counts(a)
    requires forall i, j :: 0 <= i < j < |nodes| ==> CString(Cut(nodes[i])) != CString(Cut(nodes[j]))
    requires forall i :: 0 <= i < |nodes| ==> Bumps(acts, i) < TWO_32
    ensures Exact(Run(SS.Deployed(nodes, relays, now, writes, auth), acts, auth))
  {
    hide Run, CString, Cut, Gateway.Initialised, SS.Inv, Exact;
    var start := SS.Deployed(nodes, relays, now, writes, auth);
    SS.DeployedGood(nodes, relays, now, writes, auth);
    RunKeepsInv(start, acts, auth);
    SS.RunKeepsInv(start, acts, auth);
    GoodIsExact(Run(start, acts, auth), auth);
  }

  lemma GoodIsExact(w: World, auth: Auth)
    requires SS.Inv(w, auth) && Inv(w)
    ensures Exact(w)
  {
    hide SS.GoodGateway, SS.NodesGood, SS.RelaysGood, SS.AirGood, SS.GoodRecord, SS.Faithful, SS.Accounted, RecordKey,
         Owned, SS.Raised;
    SS.GoodIsFaithful(w, auth);
    SS.GoodIsAccounted(w, auth);
    ConfirmedExactly(w);
    RecordedExactly(w, auth);
  }

  lemma ConfirmedExactly(w: World)
    requires SS.Accounted(w) && Unique(w.triggered) && w.journaled + w.turnedAway + w.confirmed <= SS.Raised(w)
    ensures w.confirmed <= w.reported + w.turnedAway
  {
    hide Node.FixedE7;
    forall t | t in w.confirmed
      ensures t in w.reported + w.turnedAway
    {
      var s :| s in w.reported + w.turnedAway && s.key == t.key;
      assert s in SS.Raised(w) && t in SS.Raised(w);
      var a: Trigger :| a in w.triggered && s == FactOf(a);
      var b: Trigger :| b in w.triggered && t == FactOf(b);
      assert a == b;
    }
  }

  lemma RecordedExactly(w: World, auth: Auth)
    requires SS.Faithful(w, auth) && Unique(w.triggered)
    ensures RecordsTell(w)
  {
    hide RecordKey, Accepts, SS.Near;
    forall r, t: Trigger | r in w.gateway.journal.records && t in w.triggered && Under(r, t)
      ensures SS.Tells(SS.RecordFact(r), t)
    {
      assert SS.Told(SS.RecordFact(r), w.triggered);
      var u: Trigger :| u in w.triggered && SS.Tells(SS.RecordFact(r), u);
      assert u == t;
    }
  }
}
