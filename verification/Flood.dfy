/** Flooding among any number of repeaters always dies out, even if duplicate
    suppression never helps: hop limits alone bound the work. */
module Flood {
  import opened Bytes
  import opened Frames
  import opened Router
  import Crc

  /** A copy of a frame on its way to one repeater. */
  datatype Delivery = Delivery(to: nat, frame: Frame)

  datatype Net = Net(relays: seq<Relay>, air: seq<Delivery>)

  datatype Action =
    | Arrive(i: nat, rssi: i16, now: u32, entropy: nat)
    | Vanish(i: nat)
    | Poll(j: nat, now: u32)

  function Broadcast(n: nat, f: Frame): (ds: seq<Delivery>)
    ensures |ds| == n && forall j :: 0 <= j < n ==> ds[j] == Delivery(j, f)
  {
    if n == 0 then [] else Broadcast(n - 1, f) + [Delivery(n - 1, f)]
  }

  /** Arrivals and losses consume a copy; a poll counts when it sends or expires a relay. */
  ghost predicate Enabled(s: Net, a: Action) {
    match a
    case Arrive(i, _, _, _) => i < |s.air| && s.air[i].to < |s.relays|
    case Vanish(i) => i < |s.air|
    case Poll(j, now) => j < |s.relays| && (Sends(s.relays[j].pending, now) || Expired(s.relays[j].pending, now))
  }

  function Next(s: Net, a: Action): Net
    requires Enabled(s, a)
  {
    match a
    case Arrive(i, rssi, now, entropy) =>
      var d := s.air[i];
      Net(s.relays[d.to := Received(s.relays[d.to], d.frame, rssi, now, entropy)], s.air[..i] + s.air[i + 1..])
    case Vanish(i) =>
      s.(air := s.air[..i] + s.air[i + 1..])
    case Poll(j, now) =>
      var r := s.relays[j];
      Net(s.relays[j := Polled(r, now)],
          s.air + if Sends(r.pending, now) then Broadcast(|s.relays|, r.pending.frame) else [])
  }

  /** `actions` is a run from `s`. */
  ghost predicate IsRun(s: Net, actions: seq<Action>)
    decreases |actions|
  {
    actions != [] ==> Enabled(s, actions[0]) && IsRun(Next(s, actions[0]), actions[1..])
  }

  // ---------------------------------------------------------------------
  // The measure
  // ---------------------------------------------------------------------

  function Remaining(f: Frame): nat {
    if f.hopCount <= f.maxHops then f.maxHops - f.hopCount else 0
  }

  /** `(n + 2)^h`: what a copy with `h` hops left can still cause among `n` repeaters. */
  function CopyWeight(n: nat, h: nat): (w: nat)
    ensures w >= 1
  {
    if h == 0 then 1 else Times(n + 2, CopyWeight(n, h - 1))
  }

  function Times(a: nat, b: nat): (p: nat)
    ensures a >= 1 && b >= 1 ==> p >= 1
  {
    if a == 0 then 0 else Times(a - 1, b) + b
  }

  function PendingWeight(n: nat, p: Pending): nat {
    if p.Pending? then Times(n, CopyWeight(n, Remaining(p.frame))) + 1 else 0
  }

  function AirWeight(n: nat, air: seq<Delivery>): nat
    decreases |air|
  {
    if air == [] then 0
    else AirWeight(n, air[..|air| - 1]) + CopyWeight(n, Remaining(air[|air| - 1].frame))
  }

  function RelayWeight(n: nat, relays: seq<Relay>): nat
    decreases |relays|
  {
    if relays == [] then 0
    else RelayWeight(n, relays[..|relays| - 1]) + PendingWeight(n, relays[|relays| - 1].pending)
  }

  function Measure(s: Net): nat {
    AirWeight(|s.relays|, s.air) + RelayWeight(|s.relays|, s.relays)
  }

  lemma {:induction false} AirConcat(n: nat, a: seq<Delivery>, b: seq<Delivery>)
    ensures AirWeight(n, a + b) == AirWeight(n, a) + AirWeight(n, b)
    decreases |b|
  {
    if b == [] {
      assert a + b == a;
    } else {
      var k := |b| - 1;
      assert (a + b)[..|a + b| - 1] == a + b[..k];
      AirConcat(n, a, b[..k]);
    }
  }

  lemma AirWithout(n: nat, air: seq<Delivery>, i: nat)
    requires i < |air|
    ensures AirWeight(n, air[..i] + air[i + 1..]) + CopyWeight(n, Remaining(air[i].frame)) == AirWeight(n, air)
  {
    AirConcat(n, air[..i], air[i + 1..]);
    AirConcat(n, air[..i] + [air[i]], air[i + 1..]);
    AirConcat(n, air[..i], [air[i]]);
    assert air[..i] + [air[i]] + air[i + 1..] == air;
    assert [air[i]][..0] == [];
  }

  lemma {:induction false} BroadcastWeight(n: nat, k: nat, f: Frame)
    ensures AirWeight(n, Broadcast(k, f)) == Times(k, CopyWeight(n, Remaining(f)))
  {
    if k > 0 {
      assert Broadcast(k, f)[..k - 1] == Broadcast(k - 1, f);
      BroadcastWeight(n, k - 1, f);
    }
  }

  lemma {:induction false} RelayUpdate(n: nat, relays: seq<Relay>, j: nat, r: Relay)
    requires j < |relays|
    ensures RelayWeight(n, relays[j := r]) + PendingWeight(n, relays[j].pending)
         == RelayWeight(n, relays) + PendingWeight(n, r.pending)
    decreases |relays|
  {
    var k := |relays| - 1;
    var next := relays[j := r];
    if j < k {
      RelayUpdate(n, relays[..k], j, r);
      assert next[..k] == relays[..k][j := r];
    } else {
      assert next[..k] == relays[..k];
    }
  }

  /** Queueing turns a copy into something strictly lighter. */
  lemma ArrivalIsLighter(n: nat, r: Relay, f: Frame, rssi: i16, now: u32, entropy: nat)
    ensures PendingWeight(n, Received(r, f, rssi, now, entropy).pending)
          < PendingWeight(n, r.pending) + CopyWeight(n, Remaining(f))
  {
    hide Crc.Crc16, CString, Cut, Recent;
    var g := f.(lastRssiDbm := rssi);
    if Wanted(r, g) {
      var h := Remaining(f) - 1;
      var next := Received(r, f, rssi, now, entropy);
      assert Remaining(next.pending.frame) == h;
      var w := CopyWeight(n, h);
      assert CopyWeight(n, h + 1) == Times(n + 2, w) == Times(n, w) + w + w;
    }
  }

  lemma StepDecreases(s: Net, a: Action)
    requires Enabled(s, a)
    ensures |Next(s, a).relays| == |s.relays|
    ensures Measure(Next(s, a)) < Measure(s)
  {
    hide Received, Polled;
    var n := |s.relays|;
    match a
    case Arrive(i, rssi, now, entropy) =>
      var d := s.air[i];
      AirWithout(n, s.air, i);
      RelayUpdate(n, s.relays, d.to, Received(s.relays[d.to], d.frame, rssi, now, entropy));
      ArrivalIsLighter(n, s.relays[d.to], d.frame, rssi, now, entropy);
    case Vanish(i) =>
      AirWithout(n, s.air, i);
    case Poll(j, now) =>
      var r := s.relays[j];
      RelayUpdate(n, s.relays, j, Polled(r, now));
      PollEmpties(r, now);
      if Sends(r.pending, now) {
        BroadcastWeight(n, n, r.pending.frame);
        AirConcat(n, s.air, Broadcast(n, r.pending.frame));
      } else {
        assert s.air + [] == s.air;
      }
  }

  lemma PollEmpties(r: Relay, now: u32)
    requires Sends(r.pending, now) || Expired(r.pending, now)
    ensures Polled(r, now).pending == Idle
  {
  }

  /** Every run from `s` is over after at most `Measure(s)` steps. */
  lemma {:induction false} FloodTerminates(s: Net, actions: seq<Action>)
    requires IsRun(s, actions)
    ensures |actions| <= Measure(s)
    decreases |actions|
  {
    if actions != [] {
      StepDecreases(s, actions[0]);
      FloodTerminates(Next(s, actions[0]), actions[1..]);
    }
  }

  // ---------------------------------------------------------------------
  // Hop limits
  // ---------------------------------------------------------------------

  ghost predicate WithinLimits(s: Net) {
    && (forall d :: d in s.air ==> d.frame.hopCount <= d.frame.maxHops)
    && (forall r :: r in s.relays ==> r.pending.Pending? ==> r.pending.frame.hopCount <= r.pending.frame.maxHops)
  }

  lemma {:induction false} InBroadcast(n: nat, f: Frame, d: Delivery)
    requires d in Broadcast(n, f)
    ensures d.frame == f
  {
    if n > 0 && d in Broadcast(n - 1, f) {
      InBroadcast(n - 1, f, d);
    }
  }

  lemma ReceivedWithinLimits(r: Relay, f: Frame, rssi: i16, now: u32, entropy: nat)
    requires r.pending.Pending? ==> r.pending.frame.hopCount <= r.pending.frame.maxHops
    ensures var p := Received(r, f, rssi, now, entropy).pending;
      p.Pending? ==> p.frame.hopCount <= p.frame.maxHops
  {
    hide Crc.Crc16, CString, Cut, Recent;
  }

  lemma StepKeepsLimits(s: Net, a: Action)
    requires Enabled(s, a) && WithinLimits(s)
    ensures WithinLimits(Next(s, a))
  {
    hide Received;
    var t := Next(s, a);
    match a
    case Arrive(i, rssi, now, entropy) =>
      var d := s.air[i];
      assert s.relays[d.to] in s.relays;
      ReceivedWithinLimits(s.relays[d.to], d.frame, rssi, now, entropy);
    case Vanish(i) =>
    case Poll(j, now) =>
      var r := s.relays[j];
      assert r in s.relays;
      forall d | d in t.air
        ensures d.frame.hopCount <= d.frame.maxHops
      {
        if d !in s.air {
          InBroadcast(|s.relays|, r.pending.frame, d);
        }
      }
  }

  function After(s: Net, actions: seq<Action>): Net
    requires IsRun(s, actions)
    decreases |actions|
  {
    if actions == [] then s else After(Next(s, actions[0]), actions[1..])
  }

  /** No run ever pushes a frame past its hop limit. */
  lemma {:induction false} FloodWithinLimits(s: Net, actions: seq<Action>)
    requires IsRun(s, actions) && WithinLimits(s)
    ensures WithinLimits(After(s, actions))
    decreases |actions|
  {
    if actions != [] {
      StepKeepsLimits(s, actions[0]);
      FloodWithinLimits(Next(s, actions[0]), actions[1..]);
    }
  }
}
