/** The registry by name: whom it knows, and what it knows of them. */
module RegistryProperties {
  import opened Bytes
  import opened Clock
  import opened Registry
  import Frames
  import Protocol
  import Journal
  import Gateway
  import GP = GatewayProperties

  /** The names heard, in the order in which they were heard first. */
  function Names(hs: seq<Happening>): seq<seq<u8>>
    decreases |hs|
  {
    if hs == [] then []
    else
      var before := Names(hs[..|hs| - 1]);
      var h := hs[|hs| - 1];
      if h.FrameFrom? && CString(h.id) !in before then before + [CString(h.id)] else before
  }

  predicate From(h: Happening, name: seq<u8>) {
    h.FrameFrom? && CString(h.id) == name
  }

  /** How many frames, and how many heartbeats, came under a name. */
  function FrameCount(hs: seq<Happening>, name: seq<u8>): nat
    decreases |hs|
  {
    if hs == [] then 0
    else FrameCount(hs[..|hs| - 1], name) + if From(hs[|hs| - 1], name) then 1 else 0
  }

  function BeatCount(hs: seq<Happening>, name: seq<u8>): nat
    decreases |hs|
  {
    if hs == [] then 0
    else
      var h := hs[|hs| - 1];
      BeatCount(hs[..|hs| - 1], name) + if From(h, name) && h.heartbeat then 1 else 0
  }

  /** The last frame under a name. */
  ghost predicate LastFrom(hs: seq<Happening>, j: nat, name: seq<u8>) {
    j < |hs| && From(hs[j], name) && forall k :: j < k < |hs| ==> !From(hs[k], name)
  }

  /** Slot `i` belongs to that name and tells of its frames. */
  ghost predicate Owns(w: Watch, i: nat, hs: seq<Happening>, name: seq<u8>)
    requires i < |w.m.nodes| && i < |w.seenAt|
  {
    var n := w.m.nodes[i];
    && n.used && CString(n.originId) == name
    && n.framesReceived == FrameCount(hs, name) % TWO_32 && n.heartbeatsReceived == BeatCount(hs, name) % TWO_32
    && exists j: nat :: LastFrom(hs, j, name) && TellsOf(n, w.seenAt[i], hs[j])
  }

  /** The record was last written for this frame. */
  predicate TellsOf(n: NodeRecord, seenAt: nat, h: Happening) {
    && h.FrameFrom? && seenAt == h.t && n.lastSeenMs == Millis(h.t)
    && n.lastRssi == h.rssi && n.lastBattery == h.battery
  }

  /** The slots hold the first twenty names heard, in that order, and nothing else. */
  ghost predicate HoldsNames(w: Watch, hs: seq<Happening>) {
    && |w.m.nodes| == |w.seenAt| == 20
    && forall i :: 0 <= i < 20 ==>
         if i < |Names(hs)| then Owns(w, i, hs, Names(hs)[i]) else !w.m.nodes[i].used
  }

  /** The ids in frames are C strings, as all builders make them. */
  ghost predicate NamesEnd(hs: seq<Happening>) {
    forall h :: h in hs && h.FrameFrom? ==> Terminated(h.id)
  }

  lemma {:induction false} NamesAreHeard(hs: seq<Happening>)
    ensures forall i, j :: 0 <= i < j < |Names(hs)| ==> Names(hs)[i] != Names(hs)[j]
    ensures forall h :: h in hs && h.FrameFrom? ==> CString(h.id) in Names(hs)
    ensures forall name :: name in Names(hs) ==> exists h :: h in hs && From(h, name)
    decreases |hs|
  {
    hide CString;
    if hs != [] {
      var front := hs[..|hs| - 1];
      NamesAreHeard(front);
      assert hs == front + [hs[|hs| - 1]];
      forall name | name in Names(hs)
        ensures exists h :: h in hs && From(h, name)
      {
        if name in Names(front) {
          var h :| h in front && From(h, name);
          assert h in hs;
        } else {
          assert From(hs[|hs| - 1], name);
        }
      }
    }
  }

  lemma {:induction false} WatchedSnoc(w: Watch, hs: seq<Happening>, h: Happening)
    requires |w.seenAt| == |w.m.nodes|
    ensures |Watched(w, hs).seenAt| == |Watched(w, hs).m.nodes|
    ensures Watched(w, hs + [h]) == Observe(Watched(w, hs), h)
    decreases |hs|
  {
    hide Observe;
    if hs == [] {
      assert [] + [h] == [h] && [h][1..] == [];
      ObserveLengths(w, h);
      assert Watched(w, [h]) == Watched(Observe(w, h), []);
    } else {
      assert (hs + [h])[1..] == hs[1..] + [h];
      ObserveLengths(w, hs[0]);
      WatchedSnoc(Observe(w, hs[0]), hs[1..], h);
    }
  }

  lemma ObserveLengths(w: Watch, h: Happening)
    requires |w.seenAt| == |w.m.nodes|
    ensures |Observe(w, h).seenAt| == |Observe(w, h).m.nodes|
  {
    hide CString, Cut;
  }

  // ---------------------------------------------------------------------
  // One happening more
  // ---------------------------------------------------------------------

  /** A frame under another name, or a poll, leaves what is told of a name alone. */
  lemma OtherKeepsLast(hs: seq<Happening>, h: Happening, j: nat, name: seq<u8>)
    requires LastFrom(hs, j, name) && !From(h, name)
    ensures LastFrom(hs + [h], j, name)
    ensures FrameCount(hs + [h], name) == FrameCount(hs, name) && BeatCount(hs + [h], name) == BeatCount(hs, name)
  {
    hide CString;
    assert (hs + [h])[..|hs|] == hs;
  }

  lemma OwnIsLast(hs: seq<Happening>, h: Happening, name: seq<u8>)
    requires From(h, name)
    ensures LastFrom(hs + [h], |hs|, name)
    ensures FrameCount(hs + [h], name) == FrameCount(hs, name) + 1
    ensures BeatCount(hs + [h], name) == BeatCount(hs, name) + if h.heartbeat then 1 else 0
  {
    hide CString;
    assert (hs + [h])[..|hs|] == hs;
  }

  lemma {:induction false} UnheardCounts(hs: seq<Happening>, name: seq<u8>)
    requires forall h :: h in hs ==> !From(h, name)
    ensures FrameCount(hs, name) == 0 && BeatCount(hs, name) == 0
    decreases |hs|
  {
    if hs != [] {
      UnheardCounts(hs[..|hs| - 1], name);
    }
  }

  lemma NamesSnoc(hs: seq<Happening>, h: Happening)
    ensures Names(hs + [h]) == if h.FrameFrom? && CString(h.id) !in Names(hs) then Names(hs) + [CString(h.id)]
                               else Names(hs)
  {
    assert (hs + [h])[..|hs|] == hs;
  }

  lemma OtherKeepsOwner(w: Watch, v: Watch, i: nat, hs: seq<Happening>, h: Happening, name: seq<u8>)
    requires i < |w.m.nodes| == |w.seenAt| == |v.m.nodes| == |v.seenAt| && Owns(w, i, hs, name) && !From(h, name)
    requires v.m.nodes[i] == w.m.nodes[i].(status := v.m.nodes[i].status) && v.seenAt[i] == w.seenAt[i]
    ensures Owns(v, i, hs + [h], name)
  {
    hide CString, Millis;
    var j: nat :| LastFrom(hs, j, name) && TellsOf(w.m.nodes[i], w.seenAt[i], hs[j]);
    OtherKeepsLast(hs, h, j, name);
    assert (hs + [h])[j] == hs[j];
  }

  lemma OwnerRefreshed(w: Watch, v: Watch, i: nat, hs: seq<Happening>, h: Happening, name: seq<u8>)
    requires i < |w.m.nodes| == |w.seenAt| == |v.m.nodes| == |v.seenAt| && Owns(w, i, hs, name) && From(h, name)
    requires v.m.nodes[i] == Refreshed(w.m.nodes[i], h.rssi, h.battery, h.heartbeat, Millis(h.t))
    requires v.seenAt[i] == h.t
    ensures Owns(v, i, hs + [h], name)
  {
    hide CString, Millis;
    OwnIsLast(hs, h, name);
    assert (hs + [h])[|hs|] == h;
  }

  lemma OwnerRegistered(v: Watch, i: nat, hs: seq<Happening>, h: Happening)
    requires i < |v.m.nodes| == |v.seenAt| && h.FrameFrom? && Terminated(h.id) && CString(h.id) !in Names(hs)
    requires v.m.nodes[i] == Registered(h.id, h.rssi, h.battery, h.heartbeat, Millis(h.t)) && v.seenAt[i] == h.t
    ensures Owns(v, i, hs + [h], CString(h.id))
  {
    hide CString, Millis, Cut, LastFrom;
    NamesAreHeard(hs);
    UnheardCounts(hs, CString(h.id));
    OwnIsLast(hs, h, CString(h.id));
    CutKeepsName(h.id);
    assert (hs + [h])[|hs|] == h;
  }

  function Held(hs: seq<Happening>): nat {
    if |Names(hs)| < 20 then |Names(hs)| else 20
  }

  /** The slot a frame takes is the place of its name. */
  lemma SlotIsPlace(w: Watch, hs: seq<Happening>, id: Id)
    requires HoldsNames(w, hs)
    ensures var at := SlotFor(w.m.nodes, id);
      if CString(id) in Names(hs)[..Held(hs)] then at < Held(hs) && Names(hs)[at] == CString(id) else at == Held(hs)
  {
    hide CString, LastFrom, TellsOf, FrameCount, BeatCount, Names;
    FindNodeIsFirst(w.m.nodes, id);
    FreeNodeIsFirst(w.m.nodes);
    var names := Names(hs)[..Held(hs)];
    assert forall i :: 0 <= i < Held(hs) ==> Owns(w, i, hs, names[i]);
    if CString(id) in names {
      var i :| 0 <= i < |names| && names[i] == CString(id);
      assert w.m.nodes[i].used && SameId(w.m.nodes[i].originId, id);
    }
    assert forall i :: 0 <= i < Held(hs) ==> w.m.nodes[i].used;
    assert Held(hs) < 20 ==> !w.m.nodes[Held(hs)].used;
    assert FreeNode(w.m.nodes) == Held(hs);
    var at := FindNode(w.m.nodes, id);
    if at < 20 {
      assert at < Held(hs) && Owns(w, at, hs, names[at]);
    }
  }

  lemma FrameKeepsNames(w: Watch, hs: seq<Happening>, h: Happening)
    requires HoldsNames(w, hs) && h.FrameFrom? && Terminated(h.id)
    ensures HoldsNames(Observe(w, h), hs + [h])
  {
    hide CString, Cut, Owns, Names, Millis;
    var v := Observe(w, h);
    var name := CString(h.id);
    SlotIsPlace(w, hs, h.id);
    NamesSnoc(hs, h);
    NamesAreHeard(hs);
    var at := SlotFor(w.m.nodes, h.id);
    forall i | 0 <= i < |Names(hs + [h])| && i < 20
      ensures Owns(v, i, hs + [h], Names(hs + [h])[i])
    {
      if i != at {
        assert Names(hs)[i] != name;
        OtherKeepsOwner(w, v, i, hs, h, Names(hs)[i]);
      } else if i < |Names(hs)| {
        assert w.m.nodes[i].used by { OwnsUsed(w, i, hs, name); }
        OwnerRefreshed(w, v, i, hs, h, name);
      } else {
        OwnerRegistered(v, i, hs, h);
      }
    }
  }

  lemma OwnsUsed(w: Watch, i: nat, hs: seq<Happening>, name: seq<u8>)
    requires i < |w.m.nodes| == |w.seenAt| && Owns(w, i, hs, name)
    ensures w.m.nodes[i].used
  {
  }

  lemma PollKeepsNames(w: Watch, hs: seq<Happening>, h: Happening)
    requires HoldsNames(w, hs) && h.Poll?
    ensures HoldsNames(Observe(w, h), hs + [h])
  {
    hide CString, Owns, Names, Millis, Elapsed;
    var v := Observe(w, h);
    NamesSnoc(hs, h);
    forall i | 0 <= i < |Names(hs)| && i < 20
      ensures Owns(v, i, hs + [h], Names(hs)[i])
    {
      OtherKeepsOwner(w, v, i, hs, h, Names(hs)[i]);
    }
  }

  /** From an empty registry, whatever is heard and polled: the slots hold the first twenty names, each
      with the time, RSSI and battery level of its last frame and with the number of its frames and
      heartbeats; every name after them is turned away. */
  lemma {:induction false} RegistryByName(t0: nat, hs: seq<Happening>)
    requires NamesEnd(hs)
    ensures |Watched(Start(t0), hs).seenAt| == |Watched(Start(t0), hs).m.nodes|
    ensures HoldsNames(Watched(Start(t0), hs), hs)
    decreases |hs|
  {
    hide Observe, HoldsNames, CString;
    if hs == [] {
      StartHoldsNone(t0);
    } else {
      var front, h := hs[..|hs| - 1], hs[|hs| - 1];
      assert hs == front + [h];
      RegistryByName(t0, front);
      WatchedSnoc(Start(t0), front, h);
      var w := Watched(Start(t0), front);
      if h.Poll? {
        PollKeepsNames(w, front, h);
      } else {
        FrameKeepsNames(w, front, h);
      }
      ObserveLengths(w, h);
    }
  }

  lemma StartHoldsNone(t0: nat)
    ensures HoldsNames(Start(t0), [])
  {
  }

  /** A registered name is Offline only after 18 minutes without a frame of its own, and not Offline at a
      poll only if its last frame is less than 19 minutes old. */
  lemma OfflineByName(t0: nat, hs: seq<Happening>, i: nat, j: nat, gap: nat)
    requires NamesEnd(hs) && AllTimely(Start(t0), hs, gap) && gap <= MAX_POLL_GAP
    requires i < |Names(hs)| && i < 20 && LastFrom(hs, j, Names(hs)[i])
    ensures var w := Watched(Start(t0), hs);
      && |w.m.nodes| == 20 && w.m.nodes[i].used && CString(w.m.nodes[i].originId) == Names(hs)[i]
      && if w.m.nodes[i].status == Offline then w.polledAt >= hs[j].t + 1080000
         else w.polledAt < hs[j].t + 1140000
  {
    hide CString, Names, FrameCount, BeatCount, Watched, AllTimely;
    RegistryByName(t0, hs);
    OfflineExactly(t0, hs, i, gap);
    var w := Watched(Start(t0), hs);
    assert Owns(w, i, hs, Names(hs)[i]);
    var k: nat :| LastFrom(hs, k, Names(hs)[i]) && TellsOf(w.m.nodes[i], w.seenAt[i], hs[k]);
    assert k == j;
  }

  // ---------------------------------------------------------------------
  // The gateway's registry
  // ---------------------------------------------------------------------

  /** What an event of the gateway at true time `t` is to its registry: a heartbeat counts twice. */
  function Happens(e: GP.Event, t: nat): seq<Happening> {
    match e
    case Rx(f, _, _, _, _) =>
      var h := FrameFrom(t, f.originId, f.lastRssiDbm, f.batteryPct, f.frameType == 3);
      if f.frameType == 3 then [h, h] else [h]
    case Tick(_) => [Poll(t)]
    case HostCommit(_, _) => []
  }

  function Happened(es: seq<GP.Event>, ts: seq<nat>): seq<Happening>
    requires |es| == |ts|
    decreases |es|
  {
    if es == [] then [] else Happens(es[0], ts[0]) + Happened(es[1..], ts[1..])
  }

  /** The events carry the clock readings of those true times. */
  predicate At(e: GP.Event, t: nat) {
    match e
    case Rx(_, now, _, _, _) => now == Millis(t)
    case Tick(now) => now == Millis(t)
    case HostCommit(_, _) => true
  }

  ghost predicate Stamped(es: seq<GP.Event>, ts: seq<nat>) {
    |es| == |ts| && forall i :: 0 <= i < |es| ==> At(es[i], ts[i])
  }

  lemma EventObserved(g: Gateway.GatewayState, w: Watch, e: GP.Event, t: nat)
    requires g.monitor == w.m && |w.seenAt| == |w.m.nodes| && At(e, t)
    ensures |Watched(w, Happens(e, t)).seenAt| == |Watched(w, Happens(e, t)).m.nodes|
    ensures GP.Step(g, e).monitor == Watched(w, Happens(e, t)).m
  {
    hide CString, Cut, Millis, Elapsed, Journal.Stores, Journal.Appended, Journal.Queued, Journal.Committed,
         Frames.HasFlag, SlotFor;
    var hs := Happens(e, t);
    if |hs| > 0 {
      ObserveLengths(w, hs[0]);
      if |hs| > 1 {
        assert hs[1..] == [hs[1]] && hs[1..][1..] == [];
        ObserveLengths(Observe(w, hs[0]), hs[1]);
        assert Watched(w, hs) == Watched(Observe(w, hs[0]), [hs[1]])
            == Watched(Observe(Observe(w, hs[0]), hs[1]), []);
      } else {
        assert hs[1..] == [];
        assert Watched(w, hs) == Watched(Observe(w, hs[0]), []);
      }
    }
  }

  lemma {:induction false} WatchedConcat(w: Watch, a: seq<Happening>, b: seq<Happening>)
    requires |w.seenAt| == |w.m.nodes|
    ensures |Watched(w, a).seenAt| == |Watched(w, a).m.nodes|
    ensures Watched(w, a + b) == Watched(Watched(w, a), b)
    decreases |a|
  {
    hide Observe;
    if a == [] {
      assert a + b == b;
    } else {
      assert (a + b)[1..] == a[1..] + b;
      ObserveLengths(w, a[0]);
      WatchedConcat(Observe(w, a[0]), a[1..], b);
    }
  }

  lemma {:induction false} RunObserved(g: Gateway.GatewayState, w: Watch, es: seq<GP.Event>, ts: seq<nat>)
    requires g.monitor == w.m && |w.seenAt| == |w.m.nodes| && Stamped(es, ts)
    ensures GP.Run(g, es).monitor == Watched(w, Happened(es, ts)).m
    decreases |es|
  {
    hide GP.Step, Happens, At;
    if es != [] {
      EventObserved(g, w, es[0], ts[0]);
      WatchedConcat(w, Happens(es[0], ts[0]), Happened(es[1..], ts[1..]));
      RunObserved(GP.Step(g, es[0]), Watched(w, Happens(es[0], ts[0])), es[1..], ts[1..]);
    }
  }

  lemma {:induction false} ReplayKeepsRegistry(g: Gateway.GatewayState, n: nat, now: u32, writes: nat -> bool,
                                               auth: Protocol.Auth)
    ensures Gateway.Replayed(g, n, now, writes, auth).monitor == g.monitor
  {
    hide Journal.Queued, Journal.ReplayPositions, Gateway.ReplayAck;
    if n > 0 {
      ReplayKeepsRegistry(g, n - 1, now, writes, auth);
    }
  }

  lemma {:induction false} HappenedNames(es: seq<GP.Event>, ts: seq<nat>)
    requires |es| == |ts| && forall e :: e in es ==> GP.WellFormed(e)
    ensures NamesEnd(Happened(es, ts))
    decreases |es|
  {
    hide CString;
    if es != [] {
      HappenedNames(es[1..], ts[1..]);
      assert GP.WellFormed(es[0]);
    }
  }

  /** So after every boot and every run of it the gateway's registry holds the first twenty names it has
      heard since, with their last frames and the numbers of their frames. */
  lemma GatewayKnowsNodes(flash: Journal.Nvs, t0: nat, writes: nat -> bool, auth: Protocol.Auth, es: seq<GP.Event>,
                          ts: seq<nat>)
    requires Stamped(es, ts) && forall e :: e in es ==> GP.WellFormed(e)
    ensures var hs := Happened(es, ts);
      var w := Watched(Start(t0), hs);
      && |w.seenAt| == |w.m.nodes| && HoldsNames(w, hs)
      && GP.Run(Gateway.Initialised(flash, Millis(t0), writes, auth), es).monitor == w.m
  {
    hide Happened, GP.Run, Watched, Journal.Booted, HoldsNames, Gateway.Replayed, CString;
    ReplayKeepsRegistry(Gateway.Loaded(flash, 0), Gateway.ReplayLength(Journal.Booted(flash)), Millis(t0), writes,
                        auth);
    RunObserved(Gateway.Initialised(flash, Millis(t0), writes, auth), Start(t0), es, ts);
    HappenedNames(es, ts);
    RegistryByName(t0, Happened(es, ts));
  }
}
