/** What a repeater keeps over every run of received frames and loop ticks. */
module RouterProperties {
  import opened Bytes
  import opened Clock
  import opened Frames
  import opened Protocol
  import opened Router

  datatype Event =
    | Rx(frame: Frame, rssi: i16, now: u32, entropy: nat)
    | Tick(now: u32)

  function Step(r: Relay, e: Event): Relay {
    match e
    case Rx(f, rssi, now, entropy) => Received(r, f, rssi, now, entropy)
    case Tick(now) => Polled(r, now)
  }

  /** The state after a run, newest event last. */
  function Run(own: Id, es: seq<Event>): Relay
    decreases |es|
  {
    if es == [] then Fresh(own) else Step(Run(own, es[..|es| - 1]), es[|es| - 1])
  }

  /** Every received origin is a C string, as all builders guarantee. */
  ghost predicate WellFormed(e: Event) {
    e.Rx? ==> Terminated(e.frame.originId)
  }

  // ---------------------------------------------------------------------
  // Distinct keys within the cache horizon
  // ---------------------------------------------------------------------

  ghost predicate WindowDistinct(marked: seq<Key>) {
    forall i, j :: 0 <= i < j < |marked| && j - i <= CACHE_SIZE ==> marked[i] != marked[j]
  }

  ghost predicate PendingIsNewest(r: Relay) {
    r.pending.Pending? ==>
      && r.marked != []
      && KeyOf(r.pending.frame) == r.marked[|r.marked| - 1]
      && 0 < r.pending.frame.hopCount <= r.pending.frame.maxHops
  }

  ghost predicate Inv(r: Relay) {
    WindowDistinct(r.marked) && PendingIsNewest(r)
  }

  lemma MarkKeepsDistinct(marked: seq<Key>, k: Key)
    requires WindowDistinct(marked) && k !in Recent(marked)
    ensures WindowDistinct(marked + [k])
  {
    var next := marked + [k];
    forall i, j | 0 <= i < j < |next| && j - i <= CACHE_SIZE
      ensures next[i] != next[j]
    {
      if j == |marked| {
        var recent := Recent(marked);
        assert recent[i - (|marked| - |recent|)] == marked[i];
      }
    }
  }

  lemma StepKeepsInv(r: Relay, e: Event)
    requires Inv(r) && WellFormed(e)
    ensures Inv(Step(r, e))
    ensures r.marked <= Step(r, e).marked
  {
    hide CString, Cut, Crc.Crc16, Recent;
    if e.Rx? {
      var g := e.frame.(lastRssiDbm := e.rssi);
      if Wanted(r, g) {
        CutKeepsName(g.originId);
        MarkKeepsDistinct(r.marked, KeyOf(g));
        var next := Step(r, e);
        assert next.marked == r.marked + [KeyOf(g)];
        assert next.pending.frame.originId == g.originId;
      }
    }
  }

  /** From power-on, any 151 consecutive queued keys are pairwise distinct and a pending
      relay carries the newest of them, within its hop limit. */
  lemma {:induction false} RunKeepsInv(own: Id, es: seq<Event>)
    requires forall e :: e in es ==> WellFormed(e)
    ensures Inv(Run(own, es))
    decreases |es|
  {
    if es != [] {
      var n := |es| - 1;
      RunKeepsInv(own, es[..n]);
      StepKeepsInv(Run(own, es[..n]), es[n]);
    }
  }

  // ---------------------------------------------------------------------
  // At most one transmission per queued key
  // ---------------------------------------------------------------------

  /** A transmission, with the position of its key among the marks. */
  datatype Transmission = Transmission(mark: int, frame: Frame)

  function Transmissions(own: Id, es: seq<Event>): seq<Transmission>
    decreases |es|
  {
    if es == [] then []
    else
      var n := |es| - 1;
      var r := Run(own, es[..n]);
      Transmissions(own, es[..n]) +
      if es[n].Tick? && Sends(r.pending, es[n].now) then [Transmission(|r.marked| - 1, r.pending.frame)] else []
  }

  /** The log so far: increasing marks, each carrying its marked key, and a relay still
      pending lies beyond all of them. */
  ghost predicate LogMatches(log: seq<Transmission>, r: Relay) {
    && (forall i :: 0 <= i < |log| ==> 0 <= log[i].mark < |r.marked| && r.marked[log[i].mark] == KeyOf(log[i].frame))
    && (forall i, j :: 0 <= i < j < |log| ==> log[i].mark < log[j].mark)
    && (r.pending.Pending? ==> forall i :: 0 <= i < |log| ==> log[i].mark < |r.marked| - 1)
  }

  lemma {:induction false} LogMatchesRun(own: Id, es: seq<Event>)
    requires forall e :: e in es ==> WellFormed(e)
    ensures LogMatches(Transmissions(own, es), Run(own, es))
    decreases |es|
  {
    if es != [] {
      var n := |es| - 1;
      var before := es[..n];
      LogMatchesRun(own, before);
      RunKeepsInv(own, before);
      LogStep(Transmissions(own, before), Run(own, before), es[n]);
    }
  }

  lemma LogStep(log: seq<Transmission>, r: Relay, e: Event)
    requires LogMatches(log, r) && Inv(r) && WellFormed(e)
    ensures LogMatches(log + if e.Tick? && Sends(r.pending, e.now) then
            [Transmission(|r.marked| - 1, r.pending.frame)] else [],
                       Step(r, e))
  {
    hide CString, Cut, Crc.Crc16, Recent, WindowDistinct;
    StepKeepsInv(r, e);
    PendingOnlyAfterMark(r, e);
  }

  lemma PendingOnlyAfterMark(r: Relay, e: Event)
    ensures Step(r, e).pending.Pending? && !r.pending.Pending? ==> |Step(r, e).marked| == |r.marked| + 1
    ensures |r.marked| <= |Step(r, e).marked|
  {
  }

  /** A key goes on the air again only after 150 other keys have been queued. */
  lemma AtMostOncePerWindow(own: Id, es: seq<Event>, i: nat, j: nat)
    requires forall e :: e in es ==> WellFormed(e)
    requires var log := Transmissions(own, es);
      i < j < |log| && KeyOf(log[i].frame) == KeyOf(log[j].frame)
    ensures var log := Transmissions(own, es); log[j].mark - log[i].mark > CACHE_SIZE
  {
    LogMatchesRun(own, es);
    RunKeepsInv(own, es);
    var log := Transmissions(own, es);
    var marked := Run(own, es).marked;
    assert marked[log[i].mark] == marked[log[j].mark];
  }

  // ---------------------------------------------------------------------
  // Every received frame meets exactly one fate
  // ---------------------------------------------------------------------

  ghost predicate Balanced(r: Relay) {
    var s := r.stats;
    s.received == (s.dropped + s.relayed + s.cancelled + s.overwritten + Waiting(r.pending)) % TWO_32
  }

  lemma SuccOfSum(x: u32, y: int, z: int)
    requires x == (y + z) % TWO_32
    ensures Succ32(x) == (y + 1 + z) % TWO_32
  {
  }

  lemma ResidueShift(y: u32, z: int)
    ensures (Succ32(y) + z) % TWO_32 == (y + 1 + z) % TWO_32
  {
  }

  function Waiting(p: Pending): nat {
    if p.Pending? then 1 else 0
  }

  lemma PollKeepsBalance(r: Relay, now: u32)
    requires Balanced(r)
    ensures Balanced(Polled(r, now))
  {
    hide Elapsed;
    var s := r.stats;
    ResidueShift(s.dropped, s.relayed + s.cancelled + s.overwritten);
    ResidueShift(s.relayed, s.dropped + s.cancelled + s.overwritten);
  }

  lemma TurnedDownKeepsBalance(r: Relay, f: Frame)
    requires Balanced(r) && !Wanted(r, f)
    ensures Balanced(Offered(r, f))
  {
    hide CString, KeyOf, Recent;
    var s := r.stats;
    var w := Waiting(r.pending);
    SuccOfSum(s.received, s.dropped, s.relayed + s.cancelled + s.overwritten + w);
    ResidueShift(s.dropped, s.relayed + s.cancelled + s.overwritten + w);
    ResidueShift(s.dropped, s.relayed + s.cancelled + 1 + s.overwritten);
  }

  lemma QueuedKeepsBalance(r: Relay, f: Frame, now: u32, entropy: nat)
    requires Balanced(r) && Wanted(r, f)
    ensures Balanced(Queued(Offered(r, f), f, now, entropy))
  {
    hide CString, KeyOf, StoredKey, Recent, Forwarded, Backoff;
    var s := r.stats;
    SuccOfSum(s.received, s.dropped, s.relayed + s.cancelled + s.overwritten + Waiting(r.pending));
  }

  lemma StepKeepsBalance(r: Relay, e: Event)
    requires Balanced(r)
    ensures Balanced(Step(r, e))
  {
    hide Balanced, Wanted, Offered, Queued, Polled;
    match e
    case Tick(now) =>
      PollKeepsBalance(r, now);
    case Rx(f, rssi, now, entropy) =>
      var g := f.(lastRssiDbm := rssi);
      if Wanted(r, g) {
        QueuedKeepsBalance(r, g, now, entropy);
      } else {
        TurnedDownKeepsBalance(r, g);
      }
  }

  /** Received = dropped + relayed + cancelled + overwritten + pending, modulo 2^32. */
  lemma {:induction false} Conservation(own: Id, es: seq<Event>)
    ensures Balanced(Run(own, es))
    decreases |es|
  {
    if es != [] {
      var n := |es| - 1;
      Conservation(own, es[..n]);
      StepKeepsBalance(Run(own, es[..n]), es[n]);
    }
  }

  // ---------------------------------------------------------------------
  // When a relay goes on the air
  // ---------------------------------------------------------------------

  /** The polls `ticks[..k]` leave the relay waiting and poll `k` sends it. */
  ghost predicate SentAt(p: Pending, ticks: seq<nat>, k: nat) {
    && k < |ticks|
    && (forall i :: 0 <= i < k ==> !Sends(p, Millis(ticks[i])) && !Expired(p, Millis(ticks[i])))
    && Sends(p, Millis(ticks[k]))
  }

  function PollBefore(start: nat, ticks: seq<nat>, i: nat): nat
    requires i < |ticks|
  {
    if i == 0 then start else ticks[i - 1]
  }

  ghost predicate PolledWithin(start: nat, ticks: seq<nat>, gap: nat) {
    forall i :: 0 <= i < |ticks| ==> PollBefore(start, ticks, i) <= ticks[i] <= PollBefore(start, ticks, i) + gap
  }

  /** A relay queued at true time `start`. */
  ghost predicate QueuedAt(p: Pending, start: nat) {
    p.Pending? && p.queuedAt == p.scheduledAt == Millis(start) && 0 < p.delayMs < RELAY_MAX_DELAY
  }

  lemma {:induction false} WaitingIsShort(p: Pending, start: nat, ticks: seq<nat>, i: nat)
    requires QueuedAt(p, start)
    requires PolledWithin(start, ticks, TWO_32 - p.delayMs) && i < |ticks|
    requires forall j :: 0 <= j <= i ==> !Sends(p, Millis(ticks[j])) && !Expired(p, Millis(ticks[j]))
    ensures start <= ticks[i] < start + p.delayMs
  {
    if i > 0 {
      WaitingIsShort(p, start, ticks, i - 1);
    }
    assert PollBefore(start, ticks, i) < start + p.delayMs;
    ElapsedBelowWrap(ticks[i], start);
  }

  lemma TransmissionWindow(p: Pending, start: nat, ticks: seq<nat>, k: nat)
    requires QueuedAt(p, start)
    requires PolledWithin(start, ticks, TWO_32 - p.delayMs) && SentAt(p, ticks, k)
    ensures start + p.delayMs <= ticks[k] <= start + RELAY_TTL_MS
  {
    hide Millis, Elapsed;
    if k > 0 {
      WaitingIsShort(p, start, ticks, k - 1);
    }
    assert PollBefore(start, ticks, k) < start + p.delayMs;
    ElapsedBelowWrap(ticks[k], start);
  }

  /** Whatever the polls, as long as they are at most `gap` ms apart, the relay goes on the
      air no earlier than its backoff and no later than 30 s after it was queued. */
  ghost predicate AlwaysInWindow(p: Pending, start: nat, gap: nat)
    requires p.Pending?
  {
    forall ticks, k :: PolledWithin(start, ticks, gap) && SentAt(p, ticks, k) ==>
      start + p.delayMs <= ticks[k] <= start + 30000
  }

  /** The exact bound on the polling gap: 2^32 ms less the backoff. Polls merely less
      than 2^32 ms apart can send a relay more than 2^32 ms after it was queued. */
  lemma WindowIffPollingGap(p: Pending, start: nat, gap: nat)
    requires QueuedAt(p, start)
    ensures AlwaysInWindow(p, start, gap) <==> gap <= TWO_32 - p.delayMs
  {
    if gap <= TWO_32 - p.delayMs {
      forall ticks, k | PolledWithin(start, ticks, gap) && SentAt(p, ticks, k)
        ensures start + p.delayMs <= ticks[k] <= start + RELAY_TTL_MS
      {
        TransmissionWindow(p, start, ticks, k);
      }
    } else {
      var ticks := SlowPolls(p, start, gap);
    }
  }

  lemma SlowPolls(p: Pending, start: nat, gap: nat) returns (ticks: seq<nat>)
    requires QueuedAt(p, start) && gap > TWO_32 - p.delayMs
    ensures PolledWithin(start, ticks, gap) && SentAt(p, ticks, 2)
    ensures ticks[2] > start + TWO_32
  {
    hide Millis, Elapsed;
    var d := p.delayMs;
    ticks := [start + d - 1, start + TWO_32, start + TWO_32 + d];
    ElapsedBelowWrap(start + d - 1, start);
    ElapsedIsTrueTime(start + TWO_32, start);
    ElapsedIsTrueTime(start + TWO_32 + d, start);
    assert (TWO_32 + d) % TWO_32 == d;
  }

  /** Queueing starts both timers and draws the backoff from the documented ranges. */
  lemma QueuedBackoff(r: Relay, f: Frame, now: u32, entropy: nat)
    requires f.hopCount < f.maxHops
    ensures var p := Queued(r, f, now, entropy).pending;
      && p.Pending? && p.queuedAt == p.scheduledAt == now
      && (f.frameType == FRAME_ACK ==> 100 <= p.delayMs < 300)
      && (f.frameType != FRAME_ACK ==> 300 <= p.delayMs < 1000)
  {
  }

  // ---------------------------------------------------------------------
  // What is relayed
  // ---------------------------------------------------------------------

  lemma {:induction false} RunKeepsName(own: Id, es: seq<Event>)
    ensures Run(own, es).own == Cut(own)
    decreases |es|
  {
    hide Cut, CString, Forwarded;
    if es != [] {
      RunKeepsName(own, es[..|es| - 1]);
    }
  }

  lemma RunSnoc(own: Id, es: seq<Event>, e: Event)
    ensures Run(own, es + [e]) == Step(Run(own, es), e)
  {
    assert (es + [e])[..|es|] == es;
  }

  /** The key is that of one of the last 150 frames the repeater has queued. */
  ghost predicate QueuedLately(marked: seq<Key>, k: Key) {
    exists i :: 0 <= i < |marked| && |marked| - 150 <= i && marked[i] == k
  }

  lemma RecentlyQueued(marked: seq<Key>, k: Key)
    ensures k in Recent(marked) <==> QueuedLately(marked, k)
  {
    var recent := Recent(marked);
    if k in recent {
      var j :| 0 <= j < |recent| && recent[j] == k;
      assert marked[j + |marked| - |recent|] == k;
    }
    if i :| 0 <= i < |marked| && |marked| - 150 <= i && marked[i] == k {
      assert recent[i - (|marked| - |recent|)] == k;
    }
  }

  /** What the cache tells frames apart by: the name and number of the event, and the frame type. */
  function Seen(f: Frame): Key {
    Key(CString(f.originId), f.eventId, f.frameType)
  }

  /** The pending relay is a copy of `f` that has made one more hop, sent under this name. */
  predicate CopyOf(g: Frame, f: Frame, own: Id) {
    && StableOf(g) == StableOf(f) && g.authTag == f.authTag
    && g.hopCount == f.hopCount + 1 && SameId(g.senderId, Cut(own)) && g.lastRssiDbm == f.lastRssiDbm
  }

  /** After any run: exactly an event, an ACK or a heartbeat that has hops left, was sent under another
      name and was not queued lately becomes the pending relay; no other frame is ever queued, and a
      second copy of the pending one, from elsewhere, cancels it. */
  lemma QueuedIff(own: Id, es: seq<Event>, f: Frame, rssi: i16, now: u32, entropy: nat)
    ensures var before := Run(own, es);
      var after := Run(own, es + [Rx(f, rssi, now, entropy)]);
      if f.frameType in {1, 2, 3} && f.hopCount < f.maxHops && CString(f.senderId) != CString(Cut(own))
         && !QueuedLately(before.marked, Seen(f))
      then
        && |after.marked| == |before.marked| + 1 && after.marked[..|before.marked|] == before.marked
        && (Terminated(f.originId) ==> after.marked[|before.marked|] == Seen(f))
        && after.pending.Pending? && CopyOf(after.pending.frame, f.(lastRssiDbm := rssi), own)
        && after.pending.scheduledAt == after.pending.queuedAt == now
        && (if f.frameType == 2 then 100 <= after.pending.delayMs < 300 else 300 <= after.pending.delayMs < 1000)
      else
        && after.marked == before.marked
        && after.pending == if CString(f.senderId) != CString(Cut(own)) && QueuedLately(before.marked, Seen(f))
                               && before.pending.Pending? && Seen(before.pending.frame) == Seen(f)
                            then Idle else before.pending
  {
    hide CString, Cut, Recent, Run, QueuedLately;
    var r := Run(own, es);
    var g := f.(lastRssiDbm := rssi);
    RunKeepsName(own, es);
    RunSnoc(own, es, Rx(f, rssi, now, entropy));
    RecentlyQueued(r.marked, KeyOf(f));
    CutIdempotent(own);
    assert KeyOf(g) == KeyOf(f) == Seen(f);
    CutKeepsName(f.originId);
    if g.hopCount < g.maxHops {
      CopyIs(g, r.own, own);
    }
  }

  lemma CopyIs(g: Frame, id: Id, own: Id)
    requires g.hopCount < g.maxHops && id == Cut(own)
    ensures CopyOf(Forwarded(g, id), g, own)
  {
    hide CString, Cut;
    CutIdempotent(own);
  }

  // ---------------------------------------------------------------------
  // That it is sent, once
  // ---------------------------------------------------------------------

  /** Polls at true times between `from` and `to`. */
  ghost predicate PolledFrom(ticks: seq<nat>, from: nat, to: nat) {
    forall i :: 0 <= i < |ticks| ==> from <= ticks[i] <= to
  }

  function Ticks(ticks: seq<nat>): (es: seq<Event>)
    ensures |es| == |ticks|
  {
    seq(|ticks|, i requires 0 <= i < |ticks| => Tick(Millis(ticks[i])))
  }

  ghost predicate SomeDue(ticks: seq<nat>, deadline: nat) {
    exists i :: 0 <= i < |ticks| && ticks[i] >= deadline
  }

  lemma TransmissionsSnoc(own: Id, es: seq<Event>, e: Event)
    ensures var r := Run(own, es);
      Transmissions(own, es + [e]) == Transmissions(own, es)
        + if e.Tick? && Sends(r.pending, e.now) then [Transmission(|r.marked| - 1, r.pending.frame)] else []
  {
    hide Run, Sends;
    assert (es + [e])[..|es|] == es;
  }

  lemma PollWaiting(r: Relay, start: nat, t: nat)
    requires QueuedAt(r.pending, start) && start <= t <= start + 30000
    ensures Sends(r.pending, Millis(t)) <==> t >= start + r.pending.delayMs
    ensures if Sends(r.pending, Millis(t)) then Polled(r, Millis(t)).pending == Idle
            else Polled(r, Millis(t)) == r
    ensures Polled(r, Millis(t)).marked == r.marked
  {
    hide Millis, Elapsed;
    ElapsedBelowWrap(t, start);
  }

  /** A run that leaves the relay waiting, or has sent it once. */
  predicate Outcome(own: Id, es: seq<Event>, later: seq<Event>, sent: bool)
    requires Run(own, es).pending.Pending?
  {
    var r := Run(own, es);
    var u := Run(own, later);
    if sent
    then && u.pending == Idle
         && Transmissions(own, later) == Transmissions(own, es) + [Transmission(|r.marked| - 1, r.pending.frame)]
    else u == r && Transmissions(own, later) == Transmissions(own, es)
  }

  /** A pending relay under polls within 30 s: sent at the first of them that is due, if there is one. */
  lemma {:induction false} PolledSends(own: Id, es: seq<Event>, start: nat, ticks: seq<nat>) returns (sent: bool)
    requires Run(own, es).pending.Pending?
    requires QueuedAt(Run(own, es).pending, start) && PolledFrom(ticks, start, start + 30000)
    ensures sent <==> SomeDue(ticks, start + Run(own, es).pending.delayMs)
    ensures Outcome(own, es, es + Ticks(ticks), sent)
    decreases |ticks|
  {
    hide Run, Transmissions, Outcome, QueuedAt;
    if ticks == [] {
      assert es + Ticks(ticks) == es;
      sent := false;
      assert Outcome(own, es, es, false) by { NothingSent(own, es); }
    } else {
      var n := |ticks| - 1;
      var front := ticks[..n];
      var before := PolledSends(own, es, start, front);
      assert es + Ticks(ticks) == es + Ticks(front) + [Tick(Millis(ticks[n]))];
      sent := before || ticks[n] >= start + Run(own, es).pending.delayMs;
      OnePollMore(own, es, es + Ticks(front), before, start, ticks[n]);
      assert forall j :: 0 <= j < n ==> ticks[j] == front[j];
    }
  }

  lemma NothingSent(own: Id, es: seq<Event>)
    requires Run(own, es).pending.Pending?
    ensures Outcome(own, es, es, false)
  {
  }

  lemma OnePollMore(own: Id, es: seq<Event>, front: seq<Event>, before: bool, start: nat, t: nat)
    requires Run(own, es).pending.Pending? && QueuedAt(Run(own, es).pending, start) && start <= t <= start + 30000
    requires Outcome(own, es, front, before)
    ensures Outcome(own, es, front + [Tick(Millis(t))], before || t >= start + Run(own, es).pending.delayMs)
  {
    hide Run, Transmissions, QueuedAt, Millis, Sends;
    RunSnoc(own, front, Tick(Millis(t)));
    TransmissionsSnoc(own, front, Tick(Millis(t)));
    PollWaiting(Run(own, es), start, t);
    if before {
      IdlePoll(Run(own, front), Millis(t));
    }
  }

  lemma IdlePoll(r: Relay, now: u32)
    requires r.pending == Idle
    ensures Polled(r, now) == r && !Sends(r.pending, now)
  {
  }

  /** Received at true time `start` and polled within the next 30 s, at least once not before the
      longest backoff of its type: the copy goes on the air exactly once. */
  lemma RelayedOnce(own: Id, es: seq<Event>, f: Frame, rssi: i16, start: nat, entropy: nat, ticks: seq<nat>)
    requires f.frameType in {1, 2, 3} && f.hopCount < f.maxHops && CString(f.senderId) != CString(Cut(own))
    requires !QueuedLately(Run(own, es).marked, Seen(f))
    requires PolledFrom(ticks, start, start + 30000)
    requires SomeDue(ticks, start + if f.frameType == 2 then 299 else 999)
    ensures var before := Transmissions(own, es);
      var after := Transmissions(own, es + [Rx(f, rssi, Millis(start), entropy)] + Ticks(ticks));
      && |after| == |before| + 1 && after[..|before|] == before
      && CopyOf(after[|before|].frame, f.(lastRssiDbm := rssi), own)
  {
    hide CString, Cut, QueuedLately, KeyOf, CopyOf, Run, Transmissions;
    var heard := es + [Rx(f, rssi, Millis(start), entropy)];
    QueuedIff(own, es, f, rssi, Millis(start), entropy);
    TransmissionsSnoc(own, es, Rx(f, rssi, Millis(start), entropy));
    var p := Run(own, heard).pending;
    var i :| 0 <= i < |ticks| && ticks[i] >= start + if f.frameType == 2 then 299 else 999;
    assert ticks[i] >= start + p.delayMs;
    var sent := PolledSends(own, heard, start, ticks);
  }

  // ---------------------------------------------------------------------
  // What the counters count
  // ---------------------------------------------------------------------

  datatype Tally = Tally(received: nat, relayed: nat, duplicates: nat, expired: nat)

  /** One event more, in the state it meets. */
  function Counts(r: Relay, c: Tally, e: Event): Tally {
    match e
    case Rx(f, _, _, _) =>
      var again := CString(f.senderId) != CString(r.own) && KeyOf(f) in Recent(r.marked);
      c.(received := c.received + 1, duplicates := c.duplicates + if again then 1 else 0)
    case Tick(now) =>
      if r.pending.Pending? && Elapsed(now, r.pending.queuedAt) > 30000 then c.(expired := c.expired + 1)
      else c.(relayed := c.relayed + if Sends(r.pending, now) then 1 else 0)
  }

  function Counted(own: Id, es: seq<Event>): Tally
    decreases |es|
  {
    if es == [] then Tally(0, 0, 0, 0)
    else Counts(Run(own, es[..|es| - 1]), Counted(own, es[..|es| - 1]), es[|es| - 1])
  }

  predicate Shows(s: Stats, c: Tally) {
    && Reads(s.received, c.received) && Reads(s.relayed, c.relayed)
    && Reads(s.duplicates, c.duplicates) && Reads(s.expired, c.expired)
  }

  /** Modulo 2^32 the counters tell how many frames were received, how many were sent, how many were copies
      of frames queued lately, and how many relays were dropped for their age. */
  lemma {:induction false} CountersTell(own: Id, es: seq<Event>)
    ensures Shows(Run(own, es).stats, Counted(own, es))
    ensures Counted(own, es).relayed == |Transmissions(own, es)|
    decreases |es|
  {
    hide Shows, Run, Transmissions, Counts, Sends;
    if es == [] {
      Nothing(own);
    } else {
      var front, e := es[..|es| - 1], es[|es| - 1];
      assert es == front + [e];
      CountersTell(own, front);
      RunSnoc(own, front, e);
      TransmissionsSnoc(own, front, e);
      StepCounted(Run(own, front), Counted(own, front), e);
    }
  }

  lemma StepCounted(r: Relay, c: Tally, e: Event)
    requires Shows(r.stats, c)
    ensures Shows(Step(r, e).stats, Counts(r, c, e))
    ensures Counts(r, c, e).relayed == c.relayed + if e.Tick? && Sends(r.pending, e.now) then 1 else 0
  {
    hide CString, Recent, Received, Polled, KeyOf, Elapsed, Reads, Succ32;
    ReadsNext(r.stats.received, c.received);
    ReadsNext(r.stats.relayed, c.relayed);
    ReadsNext(r.stats.duplicates, c.duplicates);
    ReadsNext(r.stats.expired, c.expired);
    match e
    case Rx(f, rssi, now, entropy) => ReceivedCounters(r, f, rssi, now, entropy);
    case Tick(now) => PolledCounters(r, now);
  }

  /** A 32-bit counter that has counted up to `n`. */
  predicate Reads(x: u32, n: nat) {
    x == n % TWO_32
  }

  lemma ReadsNext(x: u32, n: nat)
    requires Reads(x, n)
    ensures Reads(Succ32(x), n + 1)
  {
  }

  lemma Nothing(own: Id)
    ensures Shows(Run(own, []).stats, Tally(0, 0, 0, 0)) && Transmissions(own, []) == []
  {
  }

  lemma PolledCounters(r: Relay, now: u32)
    ensures var s := Polled(r, now).stats;
      var stale := r.pending.Pending? && Elapsed(now, r.pending.queuedAt) > 30000;
      && s.received == r.stats.received && s.duplicates == r.stats.duplicates
      && s.expired == (if stale then Succ32(r.stats.expired) else r.stats.expired)
      && s.relayed == (if Sends(r.pending, now) then Succ32(r.stats.relayed) else r.stats.relayed)
      && (Sends(r.pending, now) ==> !stale)
  {
    hide Elapsed;
  }

  lemma ReceivedCounters(r: Relay, f: Frame, rssi: i16, now: u32, entropy: nat)
    ensures var s := Received(r, f, rssi, now, entropy).stats;
      && s.received == Succ32(r.stats.received) && s.relayed == r.stats.relayed && s.expired == r.stats.expired
      && s.duplicates == if CString(f.senderId) != CString(r.own) && KeyOf(f) in Recent(r.marked)
                         then Succ32(r.stats.duplicates) else r.stats.duplicates
  {
    hide CString, Cut, Recent, Forwarded, Backoff;
    assert KeyOf(f.(lastRssiDbm := rssi)) == KeyOf(f);
  }
}
