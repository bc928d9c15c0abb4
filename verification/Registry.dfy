/** Liveness of the nodes a gateway has heard. */
module Registry {
  import opened Bytes
  import opened Clock

  const MAX_NODES := 20
  const NODE_OFFLINE_THRESHOLD_MS: u32 := 1080000
  const NODE_OFFLINE_CHECK_MS: u32 := 60000

  datatype NodeStatus = Unknown | Online | Offline

  datatype NodeRecord = NodeRecord(
    used: bool, originId: Id, lastSeenMs: u32, lastBattery: u8, lastRssi: i16,
    status: NodeStatus, framesReceived: u32, heartbeatsReceived: u32)

  const NO_NODE: NodeRecord := NodeRecord(false, NO_ID, 0, 0, 0, Unknown, 0, 0)

  // ---------------------------------------------------------------------
  // Specification
  // ---------------------------------------------------------------------

  function FindNode(nodes: seq<NodeRecord>, id: Id): nat {
    if nodes == [] || (nodes[0].used && SameId(nodes[0].originId, id)) then 0 else 1 + FindNode(nodes[1..], id)
  }

  function FreeNode(nodes: seq<NodeRecord>): nat {
    if nodes == [] || !nodes[0].used then 0 else 1 + FreeNode(nodes[1..])
  }

  function Bump(n: u32, counts: bool): u32 {
    if counts then Succ32(n) else n
  }

  function Refreshed(n: NodeRecord, rssi: i16, battery: u8, heartbeat: bool, now: u32): NodeRecord {
    n.(lastSeenMs := now, lastRssi := rssi, lastBattery := battery, status := Online,
       framesReceived := Succ32(n.framesReceived), heartbeatsReceived := Bump(n.heartbeatsReceived, heartbeat))
  }

  function Registered(id: Id, rssi: i16, battery: u8, heartbeat: bool, now: u32): NodeRecord {
    NodeRecord(true, Cut(id), now, battery, rssi, Online, 1, if heartbeat then 1 else 0)
  }

  /** The slot that a frame from `id` refreshes or takes; the length if there is none. */
  function SlotFor(nodes: seq<NodeRecord>, id: Id): nat {
    var at := FindNode(nodes, id);
    if at < |nodes| then at else FreeNode(nodes)
  }

  function Seen(nodes: seq<NodeRecord>, id: Id, rssi: i16, battery: u8, heartbeat: bool, now: u32): seq<NodeRecord> {
    var at := SlotFor(nodes, id);
    if at >= |nodes| then nodes
    else if nodes[at].used then nodes[at := Refreshed(nodes[at], rssi, battery, heartbeat, now)]
    else nodes[at := Registered(id, rssi, battery, heartbeat, now)]
  }

  function Checked(n: NodeRecord, now: u32): NodeRecord {
    if n.used && Elapsed(now, n.lastSeenMs) >= NODE_OFFLINE_THRESHOLD_MS then n.(status := Offline) else n
  }

  function CheckedAll(nodes: seq<NodeRecord>, now: u32): (r: seq<NodeRecord>)
    ensures |r| == |nodes|
  {
    seq(|nodes|, i requires 0 <= i < |nodes| => Checked(nodes[i], now))
  }

  lemma FindNodeIsFirst(nodes: seq<NodeRecord>, id: Id)
    ensures var i := FindNode(nodes, id);
      && i <= |nodes|
      && (i < |nodes| ==> nodes[i].used && SameId(nodes[i].originId, id))
      && forall j :: 0 <= j < i ==> !(nodes[j].used && SameId(nodes[j].originId, id))
  {
    if nodes != [] && !(nodes[0].used && SameId(nodes[0].originId, id)) {
      FindNodeIsFirst(nodes[1..], id);
      var i := FindNode(nodes[1..], id);
      forall j | 0 <= j < 1 + i
        ensures !(nodes[j].used && SameId(nodes[j].originId, id))
      {
        if j > 0 {
          assert nodes[j] == nodes[1..][j - 1];
        }
      }
    }
  }

  lemma FreeNodeIsFirst(nodes: seq<NodeRecord>)
    ensures var i := FreeNode(nodes);
      && i <= |nodes|
      && (i < |nodes| ==> !nodes[i].used)
      && forall j :: 0 <= j < i ==> nodes[j].used
  {
    if nodes != [] && nodes[0].used {
      FreeNodeIsFirst(nodes[1..]);
      var i := FreeNode(nodes[1..]);
      forall j | 0 <= j < 1 + i
        ensures nodes[j].used
      {
        if j > 0 {
          assert nodes[j] == nodes[1..][j - 1];
        }
      }
    }
  }

  // ---------------------------------------------------------------------
  // The implementation
  // ---------------------------------------------------------------------

  class NodeRegistry {
    const nodes: array<NodeRecord>

    ghost predicate Valid() {
      nodes.Length == MAX_NODES
    }

    constructor ()
      ensures Valid() && fresh(nodes)
      ensures nodes[..] == seq(MAX_NODES, _ => NO_NODE)
    {
      nodes := new NodeRecord[MAX_NODES](_ => NO_NODE);
      new;
      assert nodes[..] == seq(MAX_NODES, _ => NO_NODE);
    }

    method Init()
      requires Valid()
      modifies nodes
      ensures nodes[..] == seq(MAX_NODES, _ => NO_NODE)
    {
      for i := 0 to nodes.Length
        invariant forall j :: 0 <= j < i ==> nodes[j] == NO_NODE
      {
        nodes[i] := NO_NODE;
      }
      assert nodes[..] == seq(MAX_NODES, _ => NO_NODE);
    }

    method Update(id: Id, rssi: i16, battery: u8, heartbeat: bool, now: u32)
      requires Valid()
      modifies nodes
      ensures nodes[..] == Seen(old(nodes[..]), id, rssi, battery, heartbeat, now)
    {
      hide CString;
      ghost var before := nodes[..];
      FindNodeIsFirst(before, id);
      FreeNodeIsFirst(before);
      for i := 0 to MAX_NODES
        invariant nodes[..] == before
        invariant forall j :: 0 <= j < i ==> !(before[j].used && SameId(before[j].originId, id))
      {
        if nodes[i].used && SameId(nodes[i].originId, id) {
          nodes[i] := Refreshed(nodes[i], rssi, battery, heartbeat, now);
          assert FindNode(before, id) == i;
          return;
        }
      }
      for i := 0 to MAX_NODES
        invariant nodes[..] == before
        invariant forall j :: 0 <= j < i ==> before[j].used
      {
        if !nodes[i].used {
          nodes[i] := Registered(id, rssi, battery, heartbeat, now);
          assert FreeNode(before) == i;
          return;
        }
      }
    }

    method CheckOffline(now: u32)
      requires Valid()
      modifies nodes
      ensures nodes[..] == CheckedAll(old(nodes[..]), now)
    {
      ghost var before := nodes[..];
      for i := 0 to MAX_NODES
        invariant forall j :: 0 <= j < i ==> nodes[j] == Checked(before[j], now)
        invariant forall j :: i <= j < MAX_NODES ==> nodes[j] == before[j]
      {
        if !nodes[i].used || nodes[i].status == Offline {
          continue;
        }
        if Elapsed(now, nodes[i].lastSeenMs) >= NODE_OFFLINE_THRESHOLD_MS {
          nodes[i] := nodes[i].(status := Offline);
        }
      }
      assert nodes[..] == CheckedAll(before, now);
    }
  }

  // ---------------------------------------------------------------------
  // Offline detection over true time
  // ---------------------------------------------------------------------

  /** The registry and its check timer, with the true times behind the 32-bit stamps. */
  datatype Monitor = Monitor(nodes: seq<NodeRecord>, lastCheckMs: u32)

  function Polled(m: Monitor, now: u32): Monitor {
    if Due(now, m.lastCheckMs, NODE_OFFLINE_CHECK_MS) then Monitor(CheckedAll(m.nodes, now), now) else m
  }

  datatype Happening =
    | FrameFrom(t: nat, id: Id, rssi: i16, battery: u8, heartbeat: bool)
    | Poll(t: nat)

  /** `seenAt`, `checkedAt` and `polledAt` are history variables. */
  datatype Watch = Watch(m: Monitor, seenAt: seq<nat>, checkedAt: nat, polledAt: nat, now: nat)

  function Start(t: nat): Watch {
    Watch(Monitor(seq(MAX_NODES, _ => NO_NODE), Millis(t)), seq(MAX_NODES, _ => 0), t, t, t)
  }

  /** Time goes forward, and polls are at most `gap` apart. */
  predicate Timely(w: Watch, h: Happening, gap: nat) {
    w.now <= h.t && (h.Poll? ==> h.t - w.polledAt <= gap)
  }

  /** The largest polling gap for which the 32-bit tests are exact. */
  const MAX_POLL_GAP := TWO_32 - NODE_OFFLINE_THRESHOLD_MS - NODE_OFFLINE_CHECK_MS + 1

  function Observe(w: Watch, h: Happening): Watch
    requires |w.seenAt| == |w.m.nodes|
  {
    match h
    case FrameFrom(t, id, rssi, battery, heartbeat) =>
      var at := SlotFor(w.m.nodes, id);
      w.(m := w.m.(nodes := Seen(w.m.nodes, id, rssi, battery, heartbeat, Millis(t))),
         seenAt := if at < |w.seenAt| then w.seenAt[at := t] else w.seenAt, now := t)
    case Poll(t) =>
      w.(m := Polled(w.m, Millis(t)), polledAt := t, now := t,
         checkedAt := if Due(Millis(t), w.m.lastCheckMs, NODE_OFFLINE_CHECK_MS) then t else w.checkedAt)
  }

  ghost predicate NodeTracked(w: Watch, i: nat)
    requires i < |w.m.nodes| && i < |w.seenAt|
  {
    var n := w.m.nodes[i];
    n.used ==>
      && n.lastSeenMs == Millis(w.seenAt[i]) && w.seenAt[i] <= w.now
      && n.status != Unknown
      && (n.status == Offline ==> w.seenAt[i] + NODE_OFFLINE_THRESHOLD_MS <= w.polledAt)
      && (n.status == Online ==> w.checkedAt < w.seenAt[i] + NODE_OFFLINE_THRESHOLD_MS)
  }

  ghost predicate Tracked(w: Watch) {
    && |w.m.nodes| == |w.seenAt| == MAX_NODES
    && w.m.lastCheckMs == Millis(w.checkedAt)
    && w.checkedAt <= w.polledAt <= w.now && w.polledAt < w.checkedAt + NODE_OFFLINE_CHECK_MS
    && forall i :: 0 <= i < MAX_NODES ==> NodeTracked(w, i)
  }

  lemma PollKeepsTracked(w: Watch, t: nat)
    requires Tracked(w) && Timely(w, Poll(t), MAX_POLL_GAP)
    ensures Tracked(Observe(w, Poll(t)))
  {
    hide Millis, Elapsed;
    var v := Observe(w, Poll(t));
    ElapsedBelowWrap(t, w.checkedAt);
    forall i | 0 <= i < MAX_NODES
      ensures NodeTracked(v, i)
    {
      assert NodeTracked(w, i);
      var n := w.m.nodes[i];
      if n.used && n.status == Online {
        ElapsedBelowWrap(t, w.seenAt[i]);
      }
    }
  }

  lemma FrameKeepsTracked(w: Watch, h: Happening)
    requires Tracked(w) && Timely(w, h, MAX_POLL_GAP) && h.FrameFrom?
    ensures Tracked(Observe(w, h))
  {
    hide CString, Cut, Elapsed, Millis;
    var v := Observe(w, h);
    forall i | 0 <= i < MAX_NODES
      ensures NodeTracked(v, i)
    {
      assert NodeTracked(w, i);
    }
  }

  function Watched(w: Watch, hs: seq<Happening>): Watch
    requires |w.seenAt| == |w.m.nodes|
    decreases |hs|
  {
    if hs == [] then w else Watched(Observe(w, hs[0]), hs[1..])
  }

  ghost predicate AllTimely(w: Watch, hs: seq<Happening>, gap: nat)
    requires |w.seenAt| == |w.m.nodes|
    decreases |hs|
  {
    hs != [] ==> Timely(w, hs[0], gap) && AllTimely(Observe(w, hs[0]), hs[1..], gap)
  }

  lemma {:induction false} WatchedTracked(w: Watch, hs: seq<Happening>)
    requires Tracked(w) && AllTimely(w, hs, MAX_POLL_GAP)
    ensures Tracked(Watched(w, hs))
    decreases |hs|
  {
    if hs != [] {
      if hs[0].Poll? {
        PollKeepsTracked(w, hs[0].t);
      } else {
        FrameKeepsTracked(w, hs[0]);
      }
      WatchedTracked(Observe(w, hs[0]), hs[1..]);
    }
  }

  lemma {:induction false} SmallerGap(w: Watch, hs: seq<Happening>, gap: nat, more: nat)
    requires |w.seenAt| == |w.m.nodes| && AllTimely(w, hs, gap) && gap <= more
    ensures AllTimely(w, hs, more)
    decreases |hs|
  {
    if hs != [] {
      SmallerGap(Observe(w, hs[0]), hs[1..], gap, more);
    }
  }

  /** A registered node is Offline only after 18 minutes of true silence, and a node that is
      Online at a poll has been silent for less than 18 minutes and 60 seconds. */
  predicate StatusExact(w: Watch, i: nat)
    requires i < |w.m.nodes| && i < |w.seenAt|
  {
    w.m.nodes[i].used ==>
      if w.m.nodes[i].status == Offline
      then w.polledAt >= w.seenAt[i] + NODE_OFFLINE_THRESHOLD_MS
      else w.polledAt < w.seenAt[i] + NODE_OFFLINE_THRESHOLD_MS + NODE_OFFLINE_CHECK_MS
  }

  lemma OfflineExactly(t0: nat, hs: seq<Happening>, i: nat, gap: nat)
    requires AllTimely(Start(t0), hs, gap) && gap <= MAX_POLL_GAP && i < MAX_NODES
    ensures var w := Watched(Start(t0), hs);
      |w.m.nodes| == |w.seenAt| == MAX_NODES && StatusExact(w, i)
  {
    hide Millis, Observe;
    assert Tracked(Start(t0));
    SmallerGap(Start(t0), hs, gap, MAX_POLL_GAP);
    WatchedTracked(Start(t0), hs);
    assert NodeTracked(Watched(Start(t0), hs), i);
  }

  ghost predicate ExactAfter(t0: nat, hs: seq<Happening>, i: nat) {
    var w := Watched(Start(t0), hs);
    i < |w.m.nodes| && i < |w.seenAt| && StatusExact(w, i)
  }

  ghost predicate AlwaysExact(gap: nat) {
    forall t0, hs, i :: AllTimely(Start(t0), hs, gap) && 0 <= i < MAX_NODES ==> ExactAfter(t0, hs, i)
  }

  /** The statuses are exact in every run if and only if polls are never further apart than
      that; one millisecond more, and 2^32 ms of silence can look like none. */
  lemma ExactIffPollingGap(gap: nat)
    ensures AlwaysExact(gap) <==> gap <= MAX_POLL_GAP
  {
    hide AllTimely, StatusExact, Watched;
    if gap <= MAX_POLL_GAP {
      forall t0, hs, i | AllTimely(Start(t0), hs, gap) && 0 <= i < MAX_NODES
        ensures ExactAfter(t0, hs, i)
      {
        OfflineExactly(t0, hs, i, gap);
      }
    } else {
      UnnoticedSilence(gap);
    }
  }

  /** A registry that has heard one node, once, one millisecond after its start. */
  function HeardOnce(checkedAt: nat, polledAt: nat, now: nat): Watch {
    Watch(Monitor(seq(MAX_NODES, _ => NO_NODE)[0 := Registered(NO_ID, 0, 100, true, 1)], Millis(checkedAt)),
          seq(MAX_NODES, _ => 0)[0 := 1], checkedAt, polledAt, now)
  }

  lemma HearOnce()
    ensures Observe(Start(0), FrameFrom(1, NO_ID, 0, 100, true)) == HeardOnce(0, 0, 1)
  {
    hide CString, Cut;
    FindNodeIsFirst(Start(0).m.nodes, NO_ID);
    assert FreeNode(Start(0).m.nodes) == 0;
  }

  /** A poll that is not due, or less than 18 minutes after the frame in 32-bit time, changes
      no status. */
  lemma PollOnce(checkedAt: nat, polledAt: nat, now: nat, t: nat)
    requires Due(Millis(t), Millis(checkedAt), NODE_OFFLINE_CHECK_MS) ==>
             Elapsed(Millis(t), 1) < NODE_OFFLINE_THRESHOLD_MS
    ensures Observe(HeardOnce(checkedAt, polledAt, now), Poll(t))
         == HeardOnce(if Due(Millis(t), Millis(checkedAt), NODE_OFFLINE_CHECK_MS) then t else checkedAt, t, t)
  {
    hide Cut, Elapsed, Millis;
    var w := HeardOnce(checkedAt, polledAt, now);
    if Due(Millis(t), w.m.lastCheckMs, NODE_OFFLINE_CHECK_MS) {
      assert CheckedAll(w.m.nodes, Millis(t)) == w.m.nodes;
    }
  }

  const SILENT_RUN := [FrameFrom(1, NO_ID, 0, 100, true), Poll(1080000), Poll(1139999), Poll(1 + TWO_32)]

  /** One frame, two polls 59.999 s apart, and a poll exactly 2^32 ms after the frame. */
  lemma UnnoticedSilence(gap: nat)
    requires gap > MAX_POLL_GAP
    ensures AllTimely(Start(0), SILENT_RUN, gap) && !ExactAfter(0, SILENT_RUN, 0)
  {
    hide Observe;
    HearOnce();
    PollOnce(0, 0, 1, 1080000);
    PollOnce(1080000, 1080000, 1080000, 1139999);
    PollOnce(1080000, 1139999, 1139999, 1 + TWO_32);
    var rest := SILENT_RUN[1..];
    assert rest[1..] == [Poll(1139999), Poll(1 + TWO_32)];
    assert rest[1..][1..] == [Poll(1 + TWO_32)];
    assert rest[1..][1..][1..] == [];
    var last := HeardOnce(1 + TWO_32, 1 + TWO_32, 1 + TWO_32);
    assert Watched(HeardOnce(1080000, 1139999, 1139999), [Poll(1 + TWO_32)]) == last;
    assert Watched(HeardOnce(1080000, 1080000, 1080000), rest[1..]) == last;
    assert Watched(Start(0), SILENT_RUN) == last;
    assert AllTimely(HeardOnce(1080000, 1139999, 1139999), [Poll(1 + TWO_32)], gap);
    assert AllTimely(HeardOnce(1080000, 1080000, 1080000), rest[1..], gap);
  }
}
