/** How often a node transmits an event that nobody acknowledges, in true time. */
module Cadence {
  import opened Bytes
  import opened Clock
  import opened Frames
  import opened Protocol
  import opened Node
  import NP = NodeProperties

  /** One `update()` call; `end` is the true time at which its blocking sounds are over. */
  datatype Poll = Poll(at: nat, end: nat, entropy: nat, ok: bool)

  datatype Shot = Shot(at: nat, end: nat, frame: Frame)

  /** A node with the true time of its last scheduled action, the time its last poll was
      over, and its transmissions. */
  datatype Timed = Timed(n: NodeState, since: nat, now: nat, shots: seq<Shot>)

  function Polled(t: Timed, p: Poll, auth: Auth): Timed {
    var acts := ActionDue(t.n, Millis(p.at));
    var sent := SentByUpdate(t.n, Millis(p.at), auth);
    Timed(Updated(t.n, Millis(p.at), Millis(p.end), p.entropy, p.ok, auth),
          if acts then p.end else t.since,
          if acts then p.end else p.at,
          t.shots + if sent == [] then [] else [Shot(p.at, p.end, sent[0])])
  }

  function Run(t: Timed, ps: seq<Poll>, auth: Auth): Timed
    decreases |ps|
  {
    if ps == [] then t else Run(Polled(t, ps[0], auth), ps[1..], auth)
  }

  /** Polls follow each other, and are over at most `gap` after one another. */
  predicate Timely(t: Timed, ps: seq<Poll>, gap: nat, auth: Auth)
    decreases |ps|
  {
    ps != [] ==>
      && t.now <= ps[0].at <= ps[0].end
      && Polled(t, ps[0], auth).now <= t.now + gap
      && Timely(Polled(t, ps[0], auth), ps[1..], gap, auth)
  }

  const LONGEST_BACKOFF := 5000
  const LONGEST_PERIOD := 75000

  /** From the end of the transmission with an attempt number to the next one, at the soonest, and at
      the latest under polls at most `gap` apart: the ACK timeout and the backoff of the next attempt,
      or a minute after the last of the four has failed. */
  function Soonest(attempt: nat): nat {
    match attempt
    case 0 => 15600
    case 1 => 16800
    case 2 => 19000
    case _ => 75000
  }

  function Latest(attempt: nat, gap: nat): nat {
    match attempt
    case 0 => 15900 + 2 * gap
    case 1 => 17400 + 2 * gap
    case 2 => 20000 + 2 * gap
    case _ => 75000 + 3 * gap
  }

  /** An event is pending, its timer was set at `since`, and no poll has come too late. */
  predicate Ticking(t: Timed, auth: Auth) {
    && NP.Inv(t.n, auth) && t.n.pendingValid
    && t.n.scheduledAt == Millis(t.since)
    && (t.n.phase == PendingTx ==> t.n.delayMs <= LONGEST_BACKOFF)
    && (t.n.phase == WaitingAck ==> t.n.delayMs == ACK_TIMEOUT_MS)
    && (t.n.phase == Failed ==> t.n.delayMs == FAILED_RETRY_INTERVAL_MS)
    && (t.now == t.since || t.since <= t.now < t.since + t.n.delayMs)
  }

  /** No transmission before this time. */
  function Floor(t: Timed): nat {
    t.since +
    match t.n.phase
    case WaitingAck => Soonest(t.n.retryCount)
    case _ => t.n.delayMs
  }

  /** A transmission by this time. */
  function Deadline(t: Timed, gap: nat): nat {
    t.since +
    match t.n.phase
    case WaitingAck => Latest(t.n.retryCount, gap)
    case Failed => FAILED_RETRY_INTERVAL_MS + 2 * gap
    case _ => t.n.delayMs + gap
  }

  /** The attempt number of the next transmission. */
  function NextAttempt(t: Timed): nat {
    match t.n.phase
    case PendingTx => t.n.retryCount
    case WaitingAck => if t.n.retryCount < MAX_RETRIES then t.n.retryCount + 1 else 0
    case _ => 0
  }

  /** The polling gap up to which the wrapping timer test is exact here. */
  const MAX_GAP := TWO_32 - 60000

  lemma PollIsExact(t: Timed, p: Poll, gap: nat, auth: Auth)
    requires Ticking(t, auth) && gap <= MAX_GAP
    requires t.now <= p.at <= p.end && Polled(t, p, auth).now <= t.now + gap
    ensures ActionDue(t.n, Millis(p.at)) <==> p.at >= t.since + t.n.delayMs
  {
    hide Updated, SentByUpdate, NP.Inv;
    RetryBound(t.n, auth);
    DueRefinesTrueTime(p.at, t.since, t.n.delayMs);
  }

  /** A poll with no action due only lets time pass. */
  lemma IdlePoll(t: Timed, p: Poll, gap: nat, auth: Auth)
    requires Ticking(t, auth) && gap <= MAX_GAP
    requires t.now <= p.at <= p.end && Polled(t, p, auth).now <= t.now + gap
    requires !ActionDue(t.n, Millis(p.at))
    ensures Polled(t, p, auth) == t.(now := p.at) && Ticking(t.(now := p.at), auth)
  {
    hide NP.Inv, ActionDue, Transmitted, Retried;
    PollIsExact(t, p, gap, auth);
    assert t.shots + [] == t.shots;
  }

  function NextPhase(n: NodeState): Phase {
    match n.phase
    case PendingTx => WaitingAck
    case WaitingAck => if n.retryCount < MAX_RETRIES then PendingTx else Failed
    case _ => PendingTx
  }

  /** What one due poll does to the timetable. */
  predicate Advances(t: Timed, u: Timed, p: Poll, gap: nat, auth: Auth) {
    && Ticking(u, auth) && u.since == u.now == p.end
    && NP.SameEvent(t.n.pendingFrame, u.n.pendingFrame)
    && u.n.phase == NextPhase(t.n)
    && if t.n.phase == PendingTx then
         && u.shots == t.shots + [Shot(p.at, p.end, u.n.pendingFrame)]
         && u.n.pendingFrame.attempt == NextAttempt(t)
         && NextAttempt(u) == (NextAttempt(t) + 1) % 4
       else
         && u.shots == t.shots
         && NextAttempt(u) == NextAttempt(t)
         && Floor(t) <= Floor(u) && Deadline(u, gap) <= Deadline(t, gap)
  }

  lemma SendingPoll(t: Timed, p: Poll, gap: nat, auth: Auth)
    requires Ticking(t, auth) && ActionDue(t.n, Millis(p.at)) && t.n.phase == PendingTx
    ensures Advances(t, Polled(t, p, auth), p, gap, auth)
  {
    hide NP.Inv, ActionDue, SavedAs, Attempted, NP.PollOutcome;
    var now, later := Millis(p.at), Millis(p.end);
    NP.TransmittedIs(t.n, now, later, p.ok, auth);
    Outcome(t.n, Transmitted(t.n, now, later, p.ok, auth), p.ok, auth);
    NP.SavedReads(t.n.(pendingFrame := Attempted(t.n, auth)), PENDING_ACK, now, p.ok);
    SentAttempt(t.n, auth);
    RetryBound(t.n, auth);
  }

  lemma Outcome(n: NodeState, m: NodeState, ok: bool, auth: Auth)
    requires NP.Inv(n, auth) && n.pendingValid && NP.PollOutcome(n, m, ok, auth)
    ensures NP.Inv(m, auth) && m.pendingValid && NP.SameEvent(n.pendingFrame, m.pendingFrame)
  {
    hide NP.Inv;
    NP.PollKeepsInv(n, m, ok, auth);
  }

  lemma RetryBound(n: NodeState, auth: Auth)
    requires NP.Inv(n, auth)
    ensures n.retryCount <= MAX_RETRIES
    ensures n.pendingValid <==> n.phase in {PendingTx, WaitingAck, Failed}
  {
  }

  lemma SentAttempt(n: NodeState, auth: Auth)
    ensures Attempted(n, auth).attempt == n.retryCount
  {
  }

  lemma BackoffBounds(retry: nat, entropy: nat)
    requires 1 <= retry <= MAX_RETRIES
    ensures RetryBackoff(retry, entropy) <= LONGEST_BACKOFF
    ensures Soonest(retry - 1) <= ACK_TIMEOUT_MS + RetryBackoff(retry, entropy) <= Latest(retry - 1, 0)
  {
  }

  lemma RetryingPoll(t: Timed, p: Poll, gap: nat, auth: Auth)
    requires Ticking(t, auth) && ActionDue(t.n, Millis(p.at)) && t.n.phase == WaitingAck && t.n.retryCount < MAX_RETRIES
    requires t.since + t.n.delayMs <= p.at <= p.end <= t.since + t.n.delayMs + gap
    ensures Advances(t, Polled(t, p, auth), p, gap, auth)
  {
    hide NP.Inv, ActionDue, SavedAs, Sealed, NP.PollOutcome, RetryBackoff, NP.SameEvent;
    var later := Millis(p.end);
    NP.RetriedIs(t.n, later, p.entropy, p.ok, auth);
    Outcome(t.n, Retried(t.n, later, p.entropy, p.ok, auth), p.ok, auth);
    var r := t.n.retryCount + 1;
    BackoffBounds(r, p.entropy);
    var f := Sealed(t.n.pendingFrame.(attempt := r, eventTimeMs := later), auth);
    NP.SavedReads(t.n.(retryCount := r, pendingFrame := f), PENDING_ACK, later, p.ok);
    assert t.shots + [] == t.shots;
  }

  lemma GivingUpPoll(t: Timed, p: Poll, gap: nat, auth: Auth)
    requires Ticking(t, auth) && ActionDue(t.n, Millis(p.at)) && t.n.phase == WaitingAck
             && t.n.retryCount >= MAX_RETRIES
    requires t.since + t.n.delayMs <= p.at <= p.end <= t.since + t.n.delayMs + gap
    ensures Advances(t, Polled(t, p, auth), p, gap, auth)
  {
    hide NP.Inv, ActionDue, SavedAs, Sealed, NP.PollOutcome, NP.SameEvent;
    var later := Millis(p.end);
    NP.RetriedIs(t.n, later, p.entropy, p.ok, auth);
    Outcome(t.n, Retried(t.n, later, p.entropy, p.ok, auth), p.ok, auth);
    NP.SavedReads(t.n, PENDING_ACK, later, p.ok);
    assert t.shots + [] == t.shots;
  }

  lemma RearmingPoll(t: Timed, p: Poll, gap: nat, auth: Auth)
    requires Ticking(t, auth) && ActionDue(t.n, Millis(p.at)) && t.n.phase == Failed
    requires t.since + t.n.delayMs <= p.at <= p.end <= t.since + t.n.delayMs + gap
    ensures Advances(t, Polled(t, p, auth), p, gap, auth)
  {
    hide ActionDue, NP.FrameSound, NP.FlashSound;
    assert t.shots + [] == t.shots;
    var u := Polled(t, p, auth);
    assert NP.FrameSound(u.n, auth) by { Rearmed(t.n, u.n, auth); }
    NP.SameEventReflexive(t.n.pendingFrame);
  }

  lemma Rearmed(n: NodeState, m: NodeState, auth: Auth)
    requires NP.FrameSound(n, auth) && m.nodeId == n.nodeId && m.pendingFrame == n.pendingFrame
             && m.currentEventId == n.currentEventId && m.currentType == n.currentType
    ensures NP.FrameSound(m, auth)
  {
  }

  lemma DuePoll(t: Timed, p: Poll, gap: nat, auth: Auth)
    requires Ticking(t, auth) && gap <= MAX_GAP
    requires t.now <= p.at <= p.end && Polled(t, p, auth).now <= t.now + gap
    requires ActionDue(t.n, Millis(p.at))
    ensures Advances(t, Polled(t, p, auth), p, gap, auth)
    ensures t.since + t.n.delayMs <= p.at <= p.end <= t.since + t.n.delayMs + gap
  {
    hide NP.Inv, ActionDue, Updated, SentByUpdate, Advances;
    PollIsExact(t, p, gap, auth);
    RetryBound(t.n, auth);
    if t.n.phase == PendingTx {
      SendingPoll(t, p, gap, auth);
    } else if t.n.phase == WaitingAck {
      if t.n.retryCount < MAX_RETRIES {
        RetryingPoll(t, p, gap, auth);
      } else {
        GivingUpPoll(t, p, gap, auth);
      }
    } else {
      RearmingPoll(t, p, gap, auth);
    }
  }

  // ---------------------------------------------------------------------
  // Whole runs
  // ---------------------------------------------------------------------

  /** `b` follows `a`: not too early, not too late, next attempt number, same event. */
  predicate Follows(a: Shot, b: Shot, gap: nat) {
    && a.end + Soonest(a.frame.attempt) <= b.at <= b.end <= a.end + Latest(a.frame.attempt, gap)
    && b.frame.attempt == (a.frame.attempt + 1) % 4
    && NP.SameEvent(a.frame, b.frame)
  }

  predicate Regular(shots: seq<Shot>, gap: nat) {
    forall i :: 0 < i < |shots| ==> Follows(shots[i - 1], shots[i], gap)
  }

  /** What is left to the next transmission fits the last one. */
  predicate OnSchedule(t: Timed, gap: nat) {
    t.shots != [] ==>
      var last := t.shots[|t.shots| - 1];
      && last.end + Soonest(last.frame.attempt) <= Floor(t)
      && Deadline(t, gap) <= last.end + Latest(last.frame.attempt, gap)
      && last.frame.attempt < 4 && NextAttempt(t) == (last.frame.attempt + 1) % 4
      && NP.SameEvent(last.frame, t.n.pendingFrame)
  }

  /** The time by which `n` transmissions are over. */
  function Horizon(start: nat, n: nat, gap: nat): nat {
    if n == 0 then start else Horizon(start, n - 1, gap) + LONGEST_PERIOD + 3 * gap
  }

  /** Transmissions keep pace with the time since `start`. */
  predicate KeepsPace(t: Timed, start: nat, gap: nat) {
    && (t.shots != [] ==> t.shots[|t.shots| - 1].end <= Horizon(start, |t.shots|, gap))
    && (t.shots == [] ==> Deadline(t, gap) <= start + LONGEST_PERIOD + 3 * gap)
  }

  predicate Cadent(t: Timed, start: nat, gap: nat, auth: Auth) {
    Ticking(t, auth) && Regular(t.shots, gap) && OnSchedule(t, gap) && KeepsPace(t, start, gap)
  }

  lemma SentOnSchedule(t: Timed, u: Timed, p: Poll, start: nat, gap: nat, auth: Auth)
    requires Cadent(t, start, gap, auth) && Advances(t, u, p, gap, auth) && t.n.phase == PendingTx
    requires t.since + t.n.delayMs <= p.at <= p.end <= t.since + t.n.delayMs + gap
    ensures Cadent(u, start, gap, auth)
  {
    hide NP.Inv, NP.SameEvent;
    var b := Shot(p.at, p.end, u.n.pendingFrame);
    RetryBound(u.n, auth);
    RetryBound(t.n, auth);
    EventCarries(t, u);
    RegularSnoc(t.shots, b, gap);
    assert Horizon(start, |u.shots|, gap) == Horizon(start, |t.shots|, gap) + LONGEST_PERIOD + 3 * gap;
  }

  lemma RegularSnoc(shots: seq<Shot>, b: Shot, gap: nat)
    requires Regular(shots, gap) && (shots != [] ==> Follows(shots[|shots| - 1], b, gap))
    ensures Regular(shots + [b], gap)
  {
    hide Follows;
  }

  lemma WaitingOnSchedule(t: Timed, u: Timed, p: Poll, start: nat, gap: nat, auth: Auth)
    requires Cadent(t, start, gap, auth) && Advances(t, u, p, gap, auth) && t.n.phase != PendingTx
    ensures Cadent(u, start, gap, auth)
  {
    hide NP.Inv, NP.SameEvent, Regular, Ticking, Floor, Deadline, NextAttempt, Horizon;
    EventCarries(t, u);
  }

  lemma PollKeepsCadence(t: Timed, p: Poll, start: nat, gap: nat, auth: Auth)
    requires Cadent(t, start, gap, auth) && gap <= MAX_GAP
    requires t.now <= p.at <= p.end && Polled(t, p, auth).now <= t.now + gap
    ensures Cadent(Polled(t, p, auth), start, gap, auth)
  {
    hide NP.Inv, ActionDue, Polled, Advances, Regular, NP.SameEvent;
    if !ActionDue(t.n, Millis(p.at)) {
      IdlePoll(t, p, gap, auth);
    } else {
      DuePoll(t, p, gap, auth);
      if t.n.phase == PendingTx {
        SentOnSchedule(t, Polled(t, p, auth), p, start, gap, auth);
      } else {
        WaitingOnSchedule(t, Polled(t, p, auth), p, start, gap, auth);
      }
    }
  }

  lemma EventCarries(t: Timed, u: Timed)
    requires NP.SameEvent(t.n.pendingFrame, u.n.pendingFrame)
    ensures t.shots != [] && NP.SameEvent(t.shots[|t.shots| - 1].frame, t.n.pendingFrame) ==>
              NP.SameEvent(t.shots[|t.shots| - 1].frame, u.n.pendingFrame)
    ensures NP.SameEvent(u.n.pendingFrame, u.n.pendingFrame)
  {
  }

  /** As long as the event is neither acknowledged nor superseded, polls at most `gap` apart
      transmit it for ever: the attempt numbers run 0, 1, 2, 3, 0, ..., the times between
      transmissions are 15.6 to 15.9 s, 16.8 to 17.4 s, 19 to 20 s and 75 s and at most three gaps
      more, and by any time there have been as many as the longest period allows. */
  lemma {:induction false} RetransmissionCadence(t: Timed, ps: seq<Poll>, start: nat, gap: nat, auth: Auth)
    requires Cadent(t, start, gap, auth) && gap <= MAX_GAP && Timely(t, ps, gap, auth)
    ensures var u := Run(t, ps, auth);
      && Cadent(u, start, gap, auth)
      && u.now <= Horizon(start, |u.shots| + 1, gap)
    decreases |ps|
  {
    hide Polled, Cadent;
    if ps == [] {
      NeverSilent(t, start, gap, auth);
    } else {
      PollKeepsCadence(t, ps[0], start, gap, auth);
      RetransmissionCadence(Polled(t, ps[0], auth), ps[1..], start, gap, auth);
    }
  }

  lemma NeverSilent(t: Timed, start: nat, gap: nat, auth: Auth)
    requires Cadent(t, start, gap, auth)
    ensures t.now <= Horizon(start, |t.shots| + 1, gap)
  {
    hide NP.Inv, NP.SameEvent;
    RetryBound(t.n, auth);
    assert Horizon(start, |t.shots| + 1, gap) == Horizon(start, |t.shots|, gap) + LONGEST_PERIOD + 3 * gap;
  }

  function Raised(n: NodeState, kind: u8, p: Position, batt: u8, at: nat, ok: Writes, auth: Auth): Timed
    requires Representable(p)
  {
    Timed(Triggered(n, kind, p, batt, Millis(at), ok, auth), at, at, [])
  }

  /** A trigger starts the cadence. */
  lemma TriggerStarts(n: NodeState, kind: u8, p: Position, batt: u8, at: nat, ok: Writes, gap: nat, auth: Auth)
    requires NP.Inv(n, auth) && Representable(p)
    ensures Cadent(Raised(n, kind, p, batt, at, ok, auth), at, gap, auth)
  {
    hide NP.Inv, Triggered, NodeFrame, FixedE7, LoadPending;
    NP.TriggerKeepsInv(n, kind, p, batt, Millis(at), ok, auth);
    NP.TriggeredIs(n, kind, p, batt, Millis(at), ok, auth);
  }

  /** So does a boot that resumes an event, after half a second. */
  lemma BootStarts(id: Id, flash: Flash, at: nat, gap: nat, auth: Auth)
    requires id == Cut(id) && NP.FlashSound(flash) && NP.Resumable(flash)
    ensures Cadent(Timed(Booted(id, flash, Millis(at), auth), at, at, []), at, gap, auth)
  {
    hide NP.Inv, LoadPending, NodeFrame, Cut;
    NP.BootedIs(id, flash, Millis(at), auth);
  }

  // ---------------------------------------------------------------------
  // The bound on the polling gap is exact
  // ---------------------------------------------------------------------

  /** Polls 59.999 s and a whole wrap-around after each other's start. */
  function Aliased(now: nat, k: nat): seq<Poll>
    decreases k
  {
    if k == 0 then []
    else
      [Poll(now + 59999, now + 59999, 0, true), Poll(now + TWO_32, now + TWO_32, 0, true)]
      + Aliased(now + TWO_32, k - 1)
  }

  lemma AliasedPair(t: Timed, gap: nat, auth: Auth)
    requires t.n.phase == Failed && t.n.delayMs == FAILED_RETRY_INTERVAL_MS && t.n.scheduledAt == Millis(t.now)
    ensures var a := Polled(t, Poll(t.now + 59999, t.now + 59999, 0, true), auth);
      && a == t.(now := t.now + 59999)
      && Polled(a, Poll(t.now + TWO_32, t.now + TWO_32, 0, true), auth) == t.(now := t.now + TWO_32)
  {
    ElapsedIsTrueTime(t.now + 59999, t.now);
    ElapsedIsTrueTime(t.now + TWO_32, t.now);
    assert t.shots + [] == t.shots;
  }

  /** With any larger gap there are timely polls under which a failed event is never sent again,
      however long one waits. */
  lemma {:induction false} SlowPollsStarve(t: Timed, k: nat, gap: nat, auth: Auth)
    requires t.n.phase == Failed && t.n.delayMs == FAILED_RETRY_INTERVAL_MS && t.n.scheduledAt == Millis(t.now)
    requires gap > MAX_GAP
    ensures Timely(t, Aliased(t.now, k), gap, auth)
    ensures Run(t, Aliased(t.now, k), auth) == t.(now := t.now + k * TWO_32)
    decreases k
  {
    hide Polled;
    if k > 0 {
      var ps := Aliased(t.now, k);
      AliasedPair(t, gap, auth);
      var a := Polled(t, ps[0], auth);
      var b := Polled(a, ps[1], auth);
      assert ps[1..][1..] == Aliased(t.now + TWO_32, k - 1) && ps[1..][0] == ps[1];
      SlowPollsStarve(b, k - 1, gap, auth);
      assert k * TWO_32 == TWO_32 + (k - 1) * TWO_32;
      assert Timely(a, ps[1..], gap, auth);
    }
  }

  // ---------------------------------------------------------------------
  // From a trigger to that state
  // ---------------------------------------------------------------------

  lemma {:induction false} RunConcat(t: Timed, ps: seq<Poll>, qs: seq<Poll>, gap: nat, auth: Auth)
    requires Timely(t, ps, gap, auth) && Timely(Run(t, ps, auth), qs, gap, auth)
    ensures Timely(t, ps + qs, gap, auth) && Run(t, ps + qs, auth) == Run(Run(t, ps, auth), qs, auth)
    decreases |ps|
  {
    hide Polled;
    if ps == [] {
      assert ps + qs == qs;
    } else {
      assert (ps + qs)[1..] == ps[1..] + qs;
      RunConcat(Polled(t, ps[0], auth), ps[1..], qs, gap, auth);
    }
  }

  lemma {:induction false} LargerGap(t: Timed, ps: seq<Poll>, gap: nat, more: nat, auth: Auth)
    requires Timely(t, ps, gap, auth) && gap <= more
    ensures Timely(t, ps, more, auth)
    decreases |ps|
  {
    hide Polled;
    if ps != [] {
      LargerGap(Polled(t, ps[0], auth), ps[1..], gap, more, auth);
    }
  }

  /** Due polls left until the node gives up. */
  function StepsToFailure(n: NodeState): nat
    requires n.retryCount <= MAX_RETRIES
  {
    match n.phase
    case PendingTx => 8 - 2 * n.retryCount
    case WaitingAck => 7 - 2 * n.retryCount
    case _ => 0
  }

  /** Unacknowledged, every pending event fails under polls that come exactly when due. */
  lemma {:induction false} FailsInTheEnd(t: Timed, auth: Auth) returns (ps: seq<Poll>)
    requires Ticking(t, auth) && t.now == t.since && t.n.retryCount <= MAX_RETRIES
    ensures Timely(t, ps, 60000, auth)
    ensures var u := Run(t, ps, auth);
      Ticking(u, auth) && u.now == u.since && u.n.phase == Failed
    decreases StepsToFailure(t.n)
  {
    hide NP.Inv, Advances, Updated, ActionDue, SentByUpdate;
    RetryBound(t.n, auth);
    if t.n.phase == Failed {
      ps := [];
    } else {
      var p := Poll(t.since + t.n.delayMs, t.since + t.n.delayMs, 0, true);
      PollIsExact(t, p, 60000, auth);
      DuePoll(t, p, 60000, auth);
      var u := Polled(t, p, auth);
      CloserToFailure(t, u, p, auth);
      var rest := FailsInTheEnd(u, auth);
      ps := [p] + rest;
      assert ps[1..] == rest;
    }
  }

  lemma CloserToFailure(t: Timed, u: Timed, p: Poll, auth: Auth)
    requires Ticking(t, auth) && Advances(t, u, p, 60000, auth) && t.n.phase != Failed
    ensures t.n.retryCount <= MAX_RETRIES && u.n.retryCount <= MAX_RETRIES
    ensures Ticking(u, auth) && u.now == u.since && StepsToFailure(u.n) < StepsToFailure(t.n)
  {
    hide NP.Inv, NP.SameEvent;
    RetryBound(t.n, auth);
    RetryBound(u.n, auth);
  }

  /** What a node promises from a trigger on: regular transmissions that keep pace. */
  predicate Paced(u: Timed, start: nat, gap: nat) {
    Regular(u.shots, gap) && u.now <= Horizon(start, |u.shots| + 1, gap)
  }

  ghost predicate AlwaysPaced(gap: nat, auth: Auth) {
    forall n, kind, p, batt, at, ok, ps ::
      NP.Inv(n, auth) && Representable(p) && Timely(Raised(n, kind, p, batt, at, ok, auth), ps, gap, auth) ==>
        Paced(Run(Raised(n, kind, p, batt, at, ok, auth), ps, auth), at, gap)
  }

  /** Every trigger of every node is followed by that cadence, under all polls at most `gap` apart,
      if and only if the gap is at most 2^32 - 60000 ms. */
  lemma CadenceIffPollingGap(gap: nat, auth: Auth)
    ensures AlwaysPaced(gap, auth) <==> gap <= MAX_GAP
  {
    hide NP.Inv, Timely, Run, Raised, Cadent;
    if gap <= MAX_GAP {
      forall n, kind, p, batt, at, ok, ps |
        NP.Inv(n, auth) && Representable(p) && Timely(Raised(n, kind, p, batt, at, ok, auth), ps, gap, auth)
        ensures Paced(Run(Raised(n, kind, p, batt, at, ok, auth), ps, auth), at, gap)
      {
        TriggerStarts(n, kind, p, batt, at, ok, gap, auth);
        RetransmissionCadence(Raised(n, kind, p, batt, at, ok, auth), ps, at, gap, auth);
        CadentIsRegular(Run(Raised(n, kind, p, batt, at, ok, auth), ps, auth), at, gap, auth);
      }
    } else {
      var ps := StarvedTrigger(gap, auth);
    }
  }

  lemma CadentIsRegular(t: Timed, start: nat, gap: nat, auth: Auth)
    requires Cadent(t, start, gap, auth)
    ensures Regular(t.shots, gap)
  {
  }

  const ORIGIN := Position(0.0, 0.0)

  lemma StarvedTrigger(gap: nat, auth: Auth) returns (ps: seq<Poll>)
    requires gap > MAX_GAP
    ensures var n := PoweredOn(NO_ID, Flash(0, Missing));
      var t := Raised(n, EVENT_SAFE, ORIGIN, 100, 0, Writes(true, true), auth);
      NP.Inv(n, auth) && Timely(t, ps, gap, auth) && !Paced(Run(t, ps, auth), 0, gap)
  {
    hide Polled, Horizon, Triggered, Cadent, Cut, NP.FlashSound;
    var n := PoweredOn(NO_ID, Flash(0, Missing));
    CutIdempotent(NO_ID);
    assert NP.FlashSound(n.flash) by { NP.NothingSaved(n.flash); NothingToResume(n.flash); }
    var t := Raised(n, EVENT_SAFE, ORIGIN, 100, 0, Writes(true, true), auth);
    TriggerStarts(n, EVENT_SAFE, ORIGIN, 100, 0, Writes(true, true), gap, auth);
    StartsTicking(t, gap, auth);
    var qs := FailsInTheEnd(t, auth);
    LargerGap(t, qs, 60000, gap, auth);
    var u := Run(t, qs, auth);
    var k := Horizon(0, |u.shots| + 1, gap) + 1;
    SlowPollsStarve(u, k, gap, auth);
    ps := qs + Aliased(u.now, k);
    RunConcat(t, qs, Aliased(u.now, k), gap, auth);
    assert k * TWO_32 >= k;
  }

  lemma StartsTicking(t: Timed, gap: nat, auth: Auth)
    requires Cadent(t, t.since, gap, auth)
    ensures Ticking(t, auth) && t.n.retryCount <= MAX_RETRIES
  {
  }

  lemma NothingToResume(flash: Flash)
    requires !NP.Resumable(flash)
    ensures NP.FlashSound(flash)
  {
  }
}
