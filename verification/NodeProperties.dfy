/** What a node keeps over every run of triggers, polls, acknowledgements, failed writes and
    power cuts. */
module NodeProperties {
  import opened Bytes
  import opened Clock
  import opened Frames
  import opened Protocol
  import opened Node

  /** Where the power fails. Within one operation the flash changes in at most two steps, so
      these are all the contents that a crash can leave behind. */
  datatype Crash =
    | BetweenOperations
    | AfterCounter
    | AfterPollSave(at: u32, later: u32, entropy: nat, ok: bool)
    | AfterAckSave(ack: Frame, at: u32, ok: bool)

  datatype Event =
    | Trigger(kind: u8, position: Position, batteryPct: u8, now: u32, pair: Writes)
    | Poll(at: u32, later: u32, entropy: nat, ok: bool)
    | Ack(frame: Frame, now: u32, pair: Writes)
    | Reboot(crash: Crash, now: u32)

  predicate WellFormed(e: Event) {
    e.Trigger? ==> Representable(e.position)
  }

  function FlashAt(n: NodeState, c: Crash, auth: Auth): Flash {
    match c
    case BetweenOperations => n.flash
    case AfterCounter => Counted(n, true).flash
    case AfterPollSave(at, later, entropy, ok) => Updated(n, at, later, entropy, ok, auth).flash
    case AfterAckSave(ack, at, ok) => if Confirms(n, ack) then MarkedAcked(n, at, ok).flash else n.flash
  }

  function Step(n: NodeState, e: Event, auth: Auth): NodeState
    requires WellFormed(e)
  {
    match e
    case Trigger(kind, p, batt, now, ok) => Triggered(n, kind, p, batt, now, ok, auth)
    case Poll(at, later, entropy, ok) => Updated(n, at, later, entropy, ok, auth)
    case Ack(f, now, ok) => AckHandled(n, f, now, ok)
    case Reboot(c, now) => Booted(n.nodeId, FlashAt(n, c, auth), now, auth)
  }

  function Run(n: NodeState, es: seq<Event>, auth: Auth): NodeState
    requires forall e :: e in es ==> WellFormed(e)
    decreases |es|
  {
    if es == [] then n else Run(Step(n, es[0], auth), es[1..], auth)
  }

  // ---------------------------------------------------------------------
  // State invariant
  // ---------------------------------------------------------------------

  /** The frame is what the builder makes of its own fields. */
  predicate Built(f: Frame, id: Id, auth: Auth) {
    f == NodeFrame(id, f.eventId, f.eventType, f.attempt, f.eventTimeMs, f.latE7, f.lonE7, f.batteryPct,
                   HasFlag(f.flags, FLAG_GPS_VALID), auth)
  }

  predicate SoundRecord(r: EventRecord) {
    r.attempt <= MAX_RETRIES && r.eventType <= EVENT_SAFE
  }

  /** A record that boot would resume. */
  predicate Resumable(flash: Flash) {
    LoadPending(flash).Loaded? && LoadPending(flash).record.state == PENDING_ACK
  }

  predicate FlashSound(flash: Flash) {
    Resumable(flash) ==> SoundRecord(LoadPending(flash).record)
  }

  predicate FrameSound(n: NodeState, auth: Auth) {
    && Built(n.pendingFrame, n.nodeId, auth)
    && n.pendingFrame.eventId == n.currentEventId
    && n.pendingFrame.attempt <= MAX_RETRIES
    && n.pendingFrame.eventType <= EVENT_SAFE
    && n.pendingFrame.eventType == if n.currentType in {1, 2, 3, 4} then n.currentType else 0
  }

  predicate Inv(n: NodeState, auth: Auth) {
    && n.nodeId == Cut(n.nodeId)
    && (n.pendingValid <==> n.phase in {PendingTx, WaitingAck, Failed})
    && n.retryCount <= MAX_RETRIES
    && (n.pendingValid ==> FrameSound(n, auth))
    && FlashSound(n.flash)
  }

  lemma FlagsOfBuilt(gpsValid: bool, low: bool)
    ensures var flags := WithFlag(StatusFlags(FLAG_REQUIRE_ACK, gpsValid, low), FLAG_AUTH_PRESENT);
      && WithFlag(flags, FLAG_AUTH_PRESENT) == flags
      && (HasFlag(flags, FLAG_GPS_VALID) <==> gpsValid)
      && HasFlag(flags, FLAG_REQUIRE_ACK) && HasFlag(flags, FLAG_AUTH_PRESENT)
  {
    assert 1 / 4 % 2 == 0 && 5 / 4 % 2 == 1 && 3 / 4 % 2 == 0 && 7 / 4 % 2 == 1;
  }

  /** A built frame is built from its own fields, accepted, and asks for an ACK. */
  lemma NodeFrameBuilt(id: Id, eventId: u32, eventType: u8, attempt: u16, timeMs: u32, latE7: i32, lonE7: i32,
                       batteryPct: u8, gpsValid: bool, auth: Auth)
    ensures var f := NodeFrame(id, eventId, eventType, attempt, timeMs, latE7, lonE7, batteryPct, gpsValid, auth);
      && Built(f, id, auth)
      && f.eventId == eventId && f.eventType == eventType && f.attempt == attempt && f.eventTimeMs == timeMs
      && f.latE7 == latE7 && f.lonE7 == lonE7 && f.batteryPct == batteryPct
      && f.frameType == FRAME_EVENT && f.originId == Cut(id)
      && (HasFlag(f.flags, FLAG_GPS_VALID) <==> gpsValid) && HasFlag(f.flags, FLAG_REQUIRE_ACK)
  {
    hide Cut, Tag, Body, HasFlag, WithFlag, StatusFlags;
    FlagsOfBuilt(gpsValid, batteryPct <= LOW_BATTERY_PCT);
  }

  /** Sealing again after a change of attempt and time gives what the builder would. */
  lemma ResealedBuilt(f: Frame, id: Id, attempt: u16, timeMs: u32, auth: Auth)
    requires Built(f, id, auth) && id == Cut(id)
    ensures var g := f.(attempt := attempt, eventTimeMs := timeMs);
      && Sealed(g, auth) == Sealed(g.(hopCount := 0, senderId := Cut(id)), auth)
      && Sealed(g, auth) == NodeFrame(id, f.eventId, f.eventType, attempt, timeMs, f.latE7, f.lonE7, f.batteryPct,
                                   HasFlag(f.flags, FLAG_GPS_VALID), auth)
  {
    hide Cut, HasFlag, WithFlag, StatusFlags;
    var gps := HasFlag(f.flags, FLAG_GPS_VALID);
    FlagsOfBuilt(gps, f.batteryPct <= LOW_BATTERY_PCT);
    var g := f.(attempt := attempt, eventTimeMs := timeMs);
    var h := NodeFrame(id, f.eventId, f.eventType, attempt, timeMs, f.latE7, f.lonE7, f.batteryPct, gps, auth);
    SealForgets(g, h, auth);
    SealedTwice(BLANK.(frameType := FRAME_EVENT, eventType := f.eventType,
                  flags := StatusFlags(FLAG_REQUIRE_ACK, gps, f.batteryPct <= LOW_BATTERY_PCT),
                  originId := Cut(id), senderId := Cut(id), eventId := f.eventId, attempt := attempt,
                  eventTimeMs := timeMs, latE7 := f.latE7, lonE7 := f.lonE7, batteryPct := f.batteryPct), auth);
  }

  /** Sealing overwrites the tag and the checksum. */
  lemma SealForgets(f: Frame, g: Frame, auth: Auth)
    requires f == g.(authTag := f.authTag, crc16 := f.crc16)
    ensures Sealed(f, auth) == Sealed(g, auth)
  {
    hide HasFlag, WithFlag;
    var flags := WithFlag(f.flags, FLAG_AUTH_PRESENT);
    assert Inner(f.(flags := flags)) == Inner(g.(flags := flags));
    var t := Tag(auth, f.(flags := flags));
    assert Body(f.(flags := flags, authTag := t)) == Body(g.(flags := flags, authTag := t));
  }

  lemma SealedTwice(f: Frame, auth: Auth)
    requires f.protocolVersion == PROTOCOL_VERSION
    ensures Sealed(Sealed(f, auth), auth) == Sealed(f, auth)
  {
    hide Sealed, Accepts, HasFlag;
    SealedAccepted(f, auth);
    assert Sealed(f, auth).protocolVersion == PROTOCOL_VERSION by { SealedVersion(f, auth); }
    AcceptedIffSealed(Sealed(f, auth), auth);
  }

  lemma SealedVersion(f: Frame, auth: Auth)
    ensures Sealed(f, auth).protocolVersion == f.protocolVersion
  {
  }

  /** The same event with another attempt number and time. */
  function Refreshed(f: Frame, id: Id, attempt: u16, timeMs: u32, auth: Auth): Frame {
    NodeFrame(id, f.eventId, f.eventType, attempt, timeMs, f.latE7, f.lonE7, f.batteryPct,
              HasFlag(f.flags, FLAG_GPS_VALID), auth)
  }

  /** The identity of a pending event and what its frame keeps over all attempts. */
  predicate SameEvent(f: Frame, g: Frame) {
    && f.eventId == g.eventId && f.eventType == g.eventType
    && f.latE7 == g.latE7 && f.lonE7 == g.lonE7 && f.batteryPct == g.batteryPct
    && f.originId == g.originId
  }

  lemma RefreshedSound(f: Frame, id: Id, attempt: u16, timeMs: u32, auth: Auth)
    requires Built(f, id, auth)
    ensures var g := Refreshed(f, id, attempt, timeMs, auth);
      && Built(g, id, auth) && SameEvent(f, g) && g.attempt == attempt && g.eventTimeMs == timeMs
      && HasFlag(g.flags, FLAG_GPS_VALID) == HasFlag(f.flags, FLAG_GPS_VALID)
  {
    hide NodeFrame, HasFlag;
    NodeFrameBuilt(id, f.eventId, f.eventType, attempt, timeMs, f.latE7, f.lonE7, f.batteryPct,
                   HasFlag(f.flags, FLAG_GPS_VALID), auth);
    NodeFrameBuilt(id, f.eventId, f.eventType, f.attempt, f.eventTimeMs, f.latE7, f.lonE7, f.batteryPct,
                   HasFlag(f.flags, FLAG_GPS_VALID), auth);
  }

  lemma AttemptedRefreshes(n: NodeState, auth: Auth)
    requires Inv(n, auth) && n.pendingValid
    ensures Attempted(n, auth) == Refreshed(n.pendingFrame, n.nodeId, n.retryCount, n.pendingFrame.eventTimeMs, auth)
  {
    hide Sealed, NodeFrame, Cut, LoadPending, HasFlag;
    ResealedBuilt(n.pendingFrame, n.nodeId, n.retryCount, n.pendingFrame.eventTimeMs, auth);
  }

  lemma RetriedRefreshes(n: NodeState, later: u32, entropy: nat, ok: bool, auth: Auth)
    requires Inv(n, auth) && n.pendingValid && n.retryCount < MAX_RETRIES
    ensures Retried(n, later, entropy, ok, auth).pendingFrame
         == Refreshed(n.pendingFrame, n.nodeId, n.retryCount + 1, later, auth)
  {
    hide Sealed, NodeFrame, Cut, LoadPending, HasFlag, Saved;
    ResealedBuilt(n.pendingFrame, n.nodeId, n.retryCount + 1, later, auth);
  }

  /** What a save leaves for the next boot. */
  lemma SavedReads(n: NodeState, state: u8, now: u32, ok: bool)
    ensures var m := SavedAs(n, state, now, ok);
      && m == n.(flash := m.flash)
      && m.flash.counter == n.flash.counter
      && (!n.pendingValid || !ok ==> m.flash == n.flash)
      && LoadPending(m.flash) == (if n.pendingValid && ok then Loaded(Projection(n.pendingFrame, state, now))
                                  else LoadPending(n.flash))
  {
    hide RecordCrc, LoadPending;
    LoadAfterSave(n.flash, Projection(n.pendingFrame, state, now), ok);
  }

  lemma TriggeredIs(n: NodeState, kind: u8, p: Position, batt: u8, now: u32, ok: Writes, auth: Auth)
    requires Representable(p)
    ensures var m := Triggered(n, kind, p, batt, now, ok, auth);
      var id := Succ32(n.flash.counter);
      && m.nodeId == n.nodeId && m.flash.counter == (if ok.first then id else n.flash.counter) && m.currentEventId == id
      && m.phase == PendingTx && m.pendingValid && m.retryCount == 0 && m.scheduledAt == now && m.delayMs == 0
      && m.currentType == kind
      && m.pendingFrame == NodeFrame(n.nodeId, id, EventType(kind), 0, now, FixedE7(p.lat), FixedE7(p.lon), batt,
                                     HasFix(p), auth)
      && LoadPending(m.flash) == (if ok.second then Loaded(Projection(m.pendingFrame, PENDING_ACK, now))
                                  else LoadPending(n.flash))
  {
    hide Saved, NodeFrame, FixedE7, RecordCrc;
    var id := Succ32(n.flash.counter);
    var f := NodeFrame(n.nodeId, id, EventType(kind), 0, now, FixedE7(p.lat), FixedE7(p.lon), batt, HasFix(p), auth);
    SavedReads(Counted(n, ok.first).(currentType := kind, currentEventId := id, retryCount := 0, pendingFrame := f,
                                     pendingValid := true), PENDING_ACK, now, ok.second);
  }

  /** What a successful save puts into flash: the pending event as it stands, its state, and when. */
  lemma SavedTells(n: NodeState, state: u8, now: u32)
    requires n.pendingValid
    ensures var f := n.pendingFrame;
      LoadPending(SavedAs(n, state, now, true).flash)
        == Loaded(EventRecord(f.eventId, f.eventType, f.attempt, state, f.batteryPct, f.latE7, f.lonE7,
            f.eventTimeMs, now))
  {
    hide RecordCrc, Saved, LoadPending;
    LoadAfterSave(n.flash, Projection(n.pendingFrame, state, now), true);
  }

  lemma TriggerKeepsInv(n: NodeState, kind: u8, p: Position, batt: u8, now: u32, ok: Writes, auth: Auth)
    requires Representable(p) && Inv(n, auth)
    ensures Inv(Triggered(n, kind, p, batt, now, ok, auth), auth)
  {
    hide Triggered, LoadPending, NodeFrame, Cut, HasFlag, FixedE7;
    TriggeredIs(n, kind, p, batt, now, ok, auth);
    NodeFrameBuilt(n.nodeId, Succ32(n.flash.counter), EventType(kind), 0, now, FixedE7(p.lat), FixedE7(p.lon), batt,
                   HasFix(p), auth);
  }

  /** The flash holds the projection of `f`, to be resumed at the next boot. */
  predicate Mirrors(flash: Flash, f: Frame) {
    Resumable(flash) && LoadPending(flash).record == Projection(f, PENDING_ACK, LoadPending(flash).record.updatedMs)
  }

  /** What a poll may do: it keeps the event, and it changes the flash only by saving the
      new pending frame. */
  predicate PollOutcome(n: NodeState, m: NodeState, ok: bool, auth: Auth) {
    && m.nodeId == n.nodeId && m.flash.counter == n.flash.counter
    && m.pendingValid == n.pendingValid && m.currentEventId == n.currentEventId && m.currentType == n.currentType
    && (m.pendingValid <==> m.phase in {PendingTx, WaitingAck, Failed}) && m.retryCount <= MAX_RETRIES
    && (n.pendingValid ==>
          && Built(m.pendingFrame, n.nodeId, auth) && SameEvent(n.pendingFrame, m.pendingFrame)
          && m.pendingFrame.attempt <= MAX_RETRIES
          && HasFlag(m.pendingFrame.flags, FLAG_GPS_VALID) == HasFlag(n.pendingFrame.flags, FLAG_GPS_VALID))
    && ((m.flash == n.flash && (ok ==> m.pendingFrame == n.pendingFrame))
        || (ok && m.pendingValid && Mirrors(m.flash, m.pendingFrame)))
  }

  lemma TransmittedIs(n: NodeState, now: u32, later: u32, ok: bool, auth: Auth)
    requires Inv(n, auth) && n.pendingValid
    ensures PollOutcome(n, Transmitted(n, now, later, ok, auth), ok, auth)
  {
    hide LoadPending, NodeFrame, Cut, HasFlag, Attempted, SavedAs, Built, Refreshed;
    BuiltNow(n, auth);
    AttemptedRefreshes(n, auth);
    RefreshedSound(n.pendingFrame, n.nodeId, n.retryCount, n.pendingFrame.eventTimeMs, auth);
    SavedReads(n.(pendingFrame := Attempted(n, auth)), PENDING_ACK, now, ok);
  }

  lemma RetriedIs(n: NodeState, later: u32, entropy: nat, ok: bool, auth: Auth)
    requires Inv(n, auth) && n.pendingValid
    ensures PollOutcome(n, Retried(n, later, entropy, ok, auth), ok, auth)
  {
    hide LoadPending, NodeFrame, Cut, HasFlag, SavedAs, Built, Refreshed, Sealed, RetryBackoff;
    BuiltNow(n, auth);
    var m := Retried(n, later, entropy, ok, auth);
    if n.retryCount < MAX_RETRIES {
      RetriedRefreshes(n, later, entropy, ok, auth);
      RefreshedSound(n.pendingFrame, n.nodeId, n.retryCount + 1, later, auth);
      var f := Sealed(n.pendingFrame.(attempt := n.retryCount + 1, eventTimeMs := later), auth);
      SavedReads(n.(retryCount := n.retryCount + 1, pendingFrame := f), PENDING_ACK, later, ok);
    } else {
      SavedReads(n, PENDING_ACK, later, ok);
    }
  }

  lemma UpdatedIs(n: NodeState, at: u32, later: u32, entropy: nat, ok: bool, auth: Auth)
    requires Inv(n, auth)
    ensures PollOutcome(n, Updated(n, at, later, entropy, ok, auth), ok, auth)
  {
    hide LoadPending, HasFlag, ActionDue, Built, Transmitted, Retried, SameEvent, Mirrors;
    if n.pendingValid {
      BuiltNow(n, auth);
      assert SameEvent(n.pendingFrame, n.pendingFrame) by { SameEventReflexive(n.pendingFrame); }
      TransmittedIs(n, at, later, ok, auth);
      RetriedIs(n, later, entropy, ok, auth);
    }
  }

  lemma SameEventReflexive(f: Frame)
    ensures SameEvent(f, f)
  {
  }

  lemma BuiltNow(n: NodeState, auth: Auth)
    requires Inv(n, auth) && n.pendingValid
    ensures Built(n.pendingFrame, n.nodeId, auth) && n.pendingFrame.attempt <= MAX_RETRIES
  {
  }

  /** A confirmed event leaves a record to resume only if both writes fail. */
  lemma ConfirmedIs(n: NodeState, now: u32, ok: Writes)
    ensures var m := Settled(n, now, ok);
      && m.nodeId == n.nodeId && m.flash.counter == n.flash.counter
      && m.phase == Confirmed && !m.pendingValid && m.retryCount == 0 && m.currentEventId == 0 && m.currentType == 0
      && (n.pendingValid && (ok.first || ok.second) ==> !Resumable(m.flash))
      && (ok.second ==> !Resumable(m.flash))
      && (!ok.first && !ok.second ==> m.flash == n.flash)
      && (Resumable(m.flash) ==> LoadPending(m.flash) == LoadPending(n.flash))
  {
    hide RecordCrc;
    LoadAfterSave(n.flash, Projection(n.pendingFrame, ACKED, now), ok.first);
  }

  lemma BootedIs(id: Id, flash: Flash, now: u32, auth: Auth)
    requires id == Cut(id) && FlashSound(flash)
    ensures var n := Booted(id, flash, now, auth);
      && Inv(n, auth) && n.nodeId == id && n.flash == flash
      && (n.pendingValid <==> Resumable(flash))
      && (n.pendingValid ==>
            && n.pendingFrame == Resumed(id, LoadPending(flash).record, auth)
            && n.phase == PendingTx && n.retryCount == n.pendingFrame.attempt && n.delayMs == 500
            && Mirrors(flash, n.pendingFrame))
  {
    hide LoadPending, NodeFrame, Cut, HasFlag;
    if Resumable(flash) {
      var r := LoadPending(flash).record;
      NodeFrameBuilt(id, r.eventId, r.eventType, r.attempt, r.createdMs, r.latE7, r.lonE7, r.batteryPct,
                     !(r.latE7 == 0 && r.lonE7 == 0), auth);
      assert Resumed(id, r, auth) == NodeFrame(id, r.eventId, r.eventType, r.attempt, r.createdMs, r.latE7, r.lonE7,
                                               r.batteryPct, !(r.latE7 == 0 && r.lonE7 == 0), auth);
    }
  }

  // ---------------------------------------------------------------------
  // The invariant over every run
  // ---------------------------------------------------------------------

  lemma MirrorsSound(flash: Flash, f: Frame)
    requires Mirrors(flash, f) && f.attempt <= MAX_RETRIES && f.eventType <= EVENT_SAFE
    ensures FlashSound(flash)
  {
    hide LoadPending;
  }

  lemma PollKeepsInv(n: NodeState, m: NodeState, ok: bool, auth: Auth)
    requires Inv(n, auth) && PollOutcome(n, m, ok, auth)
    ensures Inv(m, auth)
  {
    hide LoadPending, NodeFrame, Cut, HasFlag, Mirrors, FlashSound;
    if m.flash != n.flash {
      MirrorsSound(m.flash, m.pendingFrame);
    }
  }

  lemma CrashKeepsFlashSound(n: NodeState, c: Crash, auth: Auth)
    requires Inv(n, auth)
    ensures FlashSound(FlashAt(n, c, auth))
  {
    hide Updated, NodeFrame, Cut, HasFlag, RecordCrc, Built, SavedAs;
    match c
    case BetweenOperations =>
    case AfterCounter =>
    case AfterPollSave(at, later, entropy, ok) =>
      UpdatedIs(n, at, later, entropy, ok, auth);
      PollKeepsInv(n, Updated(n, at, later, entropy, ok, auth), ok, auth);
    case AfterAckSave(ack, at, ok) =>
      SavedReads(n, ACKED, at, ok);
  }

  lemma StepKeepsInv(n: NodeState, e: Event, auth: Auth)
    requires Inv(n, auth) && WellFormed(e)
    ensures Inv(Step(n, e, auth), auth) && Step(n, e, auth).nodeId == n.nodeId
  {
    hide Inv, Triggered, Updated, Booted, FlashAt, Settled, LoadPending;
    match e
    case Trigger(kind, p, batt, now, ok) =>
      TriggerKeepsInv(n, kind, p, batt, now, ok, auth);
      TriggeredIs(n, kind, p, batt, now, ok, auth);
    case Poll(at, later, entropy, ok) =>
      UpdatedIs(n, at, later, entropy, ok, auth);
      PollKeepsInv(n, Updated(n, at, later, entropy, ok, auth), ok, auth);
    case Ack(f, now, ok) =>
      ConfirmedIs(n, now, ok);
      ConfirmedKeepsInv(n, now, ok, auth);
    case Reboot(c, now) =>
      CrashKeepsFlashSound(n, c, auth);
      OwnName(n, auth);
      BootedIs(n.nodeId, FlashAt(n, c, auth), now, auth);
  }

  lemma OwnName(n: NodeState, auth: Auth)
    requires Inv(n, auth)
    ensures n.nodeId == Cut(n.nodeId)
  {
  }

  lemma ConfirmedKeepsInv(n: NodeState, now: u32, ok: Writes, auth: Auth)
    requires Inv(n, auth)
    ensures Inv(Settled(n, now, ok), auth)
  {
    hide Settled, LoadPending, Cut, Built;
    ConfirmedIs(n, now, ok);
  }

  /** Over every run from boot, with failing writes and power cuts at any flash write: a frame
      is pending exactly in the three retrying phases, retry count and stored attempt stay at
      most three, and the pending frame is a sealed frame of this node. */
  lemma {:induction false} RunKeepsInv(n: NodeState, es: seq<Event>, auth: Auth)
    requires Inv(n, auth) && forall e :: e in es ==> WellFormed(e)
    ensures Inv(Run(n, es, auth), auth)
    decreases |es|
  {
    hide Inv, Step;
    if es != [] {
      StepKeepsInv(n, es[0], auth);
      RunKeepsInv(Step(n, es[0], auth), es[1..], auth);
    }
  }

  // ---------------------------------------------------------------------
  // A saved event is not lost
  // ---------------------------------------------------------------------

  predicate RecordOf(r: EventRecord, f: Frame) {
    && r.eventId == f.eventId && r.eventType == f.eventType
    && r.latE7 == f.latE7 && r.lonE7 == f.lonE7 && r.batteryPct == f.batteryPct
  }

  /** The event of `f` is pending, and would be resumed. */
  predicate Secured(n: NodeState, f: Frame) {
    && n.pendingValid && SameEvent(n.pendingFrame, f)
    && Resumable(n.flash) && RecordOf(LoadPending(n.flash).record, f)
  }

  /** The step neither raises another event nor acknowledges the pending one. */
  predicate Quiet(n: NodeState, e: Event) {
    match e
    case Trigger(_, _, _, _, _) => false
    case Poll(_, _, _, _) => true
    case Ack(f, _, _) => !Confirms(n, f)
    case Reboot(c, _) => c.AfterAckSave? && c.ok ==> !Confirms(n, c.ack)
  }

  predicate QuietRun(n: NodeState, es: seq<Event>, auth: Auth)
    requires forall e :: e in es ==> WellFormed(e)
    decreases |es|
  {
    es != [] ==> Quiet(n, es[0]) && QuietRun(Step(n, es[0], auth), es[1..], auth)
  }

  lemma TriggerSecures(n: NodeState, kind: u8, p: Position, batt: u8, now: u32, counterOk: bool, auth: Auth)
    requires Representable(p)
    ensures var m := Triggered(n, kind, p, batt, now, Writes(counterOk, true), auth);
      Secured(m, m.pendingFrame)
  {
    hide Triggered, LoadPending, NodeFrame, FixedE7, Cut;
    TriggeredIs(n, kind, p, batt, now, Writes(counterOk, true), auth);
  }

  lemma BootKeepsSecured(n: NodeState, flash: Flash, now: u32, f: Frame, auth: Auth)
    requires Inv(n, auth) && Secured(n, f) && FlashSound(flash)
    requires Resumable(flash) && RecordOf(LoadPending(flash).record, f)
    ensures Secured(Booted(n.nodeId, flash, now, auth), f)
  {
    hide LoadPending, NodeFrame, Cut, HasFlag, Booted;
    BootedIs(n.nodeId, flash, now, auth);
    var r := LoadPending(flash).record;
    NodeFrameBuilt(n.nodeId, r.eventId, r.eventType, r.attempt, r.createdMs, r.latE7, r.lonE7, r.batteryPct,
                   !(r.latE7 == 0 && r.lonE7 == 0), auth);
    NodeFrameBuilt(n.nodeId, n.pendingFrame.eventId, n.pendingFrame.eventType, n.pendingFrame.attempt,
                   n.pendingFrame.eventTimeMs, n.pendingFrame.latE7, n.pendingFrame.lonE7, n.pendingFrame.batteryPct,
                   HasFlag(n.pendingFrame.flags, FLAG_GPS_VALID), auth);
  }

  lemma PollKeepsSecured(n: NodeState, m: NodeState, ok: bool, f: Frame, auth: Auth)
    requires PollOutcome(n, m, ok, auth) && Secured(n, f)
    ensures Secured(m, f)
  {
    hide LoadPending, Built, HasFlag;
  }

  lemma StepKeepsSecured(n: NodeState, e: Event, f: Frame, auth: Auth)
    requires Inv(n, auth) && WellFormed(e) && Secured(n, f) && Quiet(n, e)
    ensures Secured(Step(n, e, auth), f)
  {
    hide Inv, Updated, Booted, Triggered, Settled, LoadPending, MarkedAcked, Secured, PollOutcome;
    match e
    case Trigger(_, _, _, _, _) =>
    case Poll(at, later, entropy, ok) =>
      UpdatedIs(n, at, later, entropy, ok, auth);
      PollKeepsSecured(n, Step(n, e, auth), ok, f, auth);
    case Ack(g, now, ok) =>
    case Reboot(c, now) =>
      CrashKeepsFlashSound(n, c, auth);
      CrashKeepsRecord(n, c, f, auth);
      BootKeepsSecured(n, FlashAt(n, c, auth), now, f, auth);
  }

  lemma CrashKeepsRecord(n: NodeState, c: Crash, f: Frame, auth: Auth)
    requires Inv(n, auth) && Secured(n, f) && Quiet(n, Reboot(c, 0))
    ensures var flash := FlashAt(n, c, auth); Resumable(flash) && RecordOf(LoadPending(flash).record, f)
  {
    hide Inv, Updated, Booted, RecordCrc, SavedAs, PollOutcome;
    match c
    case BetweenOperations =>
    case AfterCounter =>
    case AfterPollSave(at, later, entropy, ok) =>
      UpdatedIs(n, at, later, entropy, ok, auth);
      PollKeepsSecured(n, Updated(n, at, later, entropy, ok, auth), ok, f, auth);
    case AfterAckSave(ack, at, ok) =>
      SavedReads(n, ACKED, at, ok);
  }

  /** Once the record of an event has been saved, the event stays pending with its type and
      position over every run of polls, failed writes, foreign ACKs and power cuts, until it
      is acknowledged or superseded. */
  lemma {:induction false} PendingSurvives(n: NodeState, es: seq<Event>, f: Frame, auth: Auth)
    requires Inv(n, auth) && Secured(n, f)
    requires (forall e :: e in es ==> WellFormed(e)) && QuietRun(n, es, auth)
    ensures Secured(Run(n, es, auth), f)
    decreases |es|
  {
    hide Inv, Step, Secured, Quiet;
    if es != [] {
      StepKeepsSecured(n, es[0], f, auth);
      StepKeepsInv(n, es[0], auth);
      PendingSurvives(Step(n, es[0], auth), es[1..], f, auth);
    }
  }

  // ---------------------------------------------------------------------
  // The flash mirrors the pending frame, and boot rebuilds it
  // ---------------------------------------------------------------------

  predicate Synced(n: NodeState) {
    if n.pendingValid then Mirrors(n.flash, n.pendingFrame) else !Resumable(n.flash)
  }

  predicate WritesSucceed(e: Event) {
    (e.Trigger? ==> e.pair.second) && (e.Poll? ==> e.ok) && (e.Ack? ==> e.pair.first || e.pair.second)
  }

  /** The flag that boot recomputes agrees with the flag of the frame. */
  predicate GpsConsistent(f: Frame) {
    HasFlag(f.flags, FLAG_GPS_VALID) <==> !(f.latE7 == 0 && f.lonE7 == 0)
  }

  /** A position that truncates to (0, 0) is (0, 0). */
  predicate KeepsFix(p: Position)
    requires Representable(p)
  {
    FixedE7(p.lat) == 0 && FixedE7(p.lon) == 0 ==> !HasFix(p)
  }

  predicate Recoverable(n: NodeState) {
    Synced(n) && (n.pendingValid ==> GpsConsistent(n.pendingFrame))
  }

  predicate Clean(e: Event)
    requires WellFormed(e)
  {
    WritesSucceed(e) && (e.Trigger? ==> KeepsFix(e.position))
  }

  /** An ACK confirms exactly if the node has sent its event and waits for the answer, and the ACK names
      this node and this event; any other frame, at any other time, changes nothing. */
  lemma ConfirmedIff(n: NodeState, ack: Frame, now: u32, ok: Writes, auth: Auth)
    requires Inv(n, auth)
    ensures var m := AckHandled(n, ack, now, ok);
      if n.phase == WaitingAck && ack.frameType == 2 && CString(ack.originId) == CString(n.nodeId)
         && ack.eventId == n.pendingFrame.eventId
      then && m.phase == Confirmed && !m.pendingValid && (ok.first || ok.second ==> !Resumable(m.flash))
           && m.currentEventId == 0 && m.currentType == 0 && m.retryCount == 0
      else m == n
  {
    hide CString, Settled, LoadPending, FrameSound, FlashSound;
    ConfirmedIs(n, now, ok);
  }

  /** A confirmation at true time `start` is shown for a second: polls before that change nothing, the
      first one after it makes the node idle, and none sends anything. */
  lemma ShownForASecond(n: NodeState, ack: Frame, start: nat, ok: Writes, poll: nat, later: u32, entropy: nat,
                        pollOk: bool, auth: Auth)
    requires Confirms(n, ack) && start <= poll < start + TWO_32
    ensures var m := AckHandled(n, ack, Millis(start), ok);
      && Updated(m, Millis(poll), later, entropy, pollOk, auth) == (if poll < start + 1000 then
          m else m.(phase := Idle))
      && SentByUpdate(m, Millis(poll), auth) == []
  {
    hide CString, Millis, Elapsed, SavedAs;
    DueRefinesTrueTime(poll, start, 1000);
  }

  /** What the flags of a pending event tell, after every run: it asks for an ACK, it is authenticated, and
      the battery is low exactly at 15 percent and below. */
  lemma FlagsTell(n: NodeState, es: seq<Event>, auth: Auth)
    requires Inv(n, auth) && forall e :: e in es ==> WellFormed(e)
    ensures var m := Run(n, es, auth);
      m.pendingValid ==>
        && HasFlag(m.pendingFrame.flags, 1) && HasFlag(m.pendingFrame.flags, 16)
        && (HasFlag(m.pendingFrame.flags, 2) <==> m.pendingFrame.batteryPct <= 15)
  {
    hide Inv, Run, HasFlag, NodeFrame;
    RunKeepsInv(n, es, auth);
    var m := Run(n, es, auth);
    if m.pendingValid {
      assert Built(m.pendingFrame, m.nodeId, auth) by { BuiltNow(m, auth); }
      BuiltFlags(m.pendingFrame, m.nodeId, auth);
    }
  }

  lemma BuiltFlags(f: Frame, id: Id, auth: Auth)
    requires Built(f, id, auth)
    ensures HasFlag(f.flags, 1) && HasFlag(f.flags, 16) && (HasFlag(f.flags, 2) <==> f.batteryPct <= 15)
  {
    hide Cut, Tag, Body;
    StatusBits(FLAG_REQUIRE_ACK, HasFlag(f.flags, FLAG_GPS_VALID), f.batteryPct <= LOW_BATTERY_PCT);
  }

  lemma TriggerGps(n: NodeState, kind: u8, p: Position, batt: u8, now: u32, ok: Writes, auth: Auth)
    requires Representable(p)
    ensures GpsConsistent(Triggered(n, kind, p, batt, now, ok, auth).pendingFrame) <==> KeepsFix(p)
  {
    hide Triggered, LoadPending, NodeFrame, Cut, HasFlag;
    TriggeredIs(n, kind, p, batt, now, ok, auth);
    NodeFrameBuilt(n.nodeId, Succ32(n.flash.counter), EventType(kind), 0, now, FixedE7(p.lat), FixedE7(p.lon), batt,
                   HasFix(p), auth);
  }

  /** The frame a boot rebuilds is the frame that was pending exactly when its GPS flag is
      the one that its fixed-point position gives. */
  lemma BootRebuildsIff(n: NodeState, now: u32, auth: Auth)
    requires Inv(n, auth) && n.pendingValid && Mirrors(n.flash, n.pendingFrame)
    ensures var b := Booted(n.nodeId, n.flash, now, auth);
      && b.pendingValid && b.currentEventId == n.currentEventId && GpsConsistent(b.pendingFrame)
      && (b.pendingFrame == n.pendingFrame <==> GpsConsistent(n.pendingFrame))
  {
    hide LoadPending, NodeFrame, Cut, HasFlag, Booted;
    BootedIs(n.nodeId, n.flash, now, auth);
    var r := LoadPending(n.flash).record;
    NodeFrameBuilt(n.nodeId, r.eventId, r.eventType, r.attempt, r.createdMs, r.latE7, r.lonE7, r.batteryPct,
                   !(r.latE7 == 0 && r.lonE7 == 0), auth);
    assert FrameSound(Booted(n.nodeId, n.flash, now, auth), auth);
  }

  /** A fix one centimetre away from (0, 0) does not survive a reboot. */
  lemma GpsFlagLost(auth: Auth)
    ensures var n := Triggered(PoweredOn(NO_ID, Flash(0, Missing)), 1, Position(0.00000009, 0.0), 50, 0, Writes(true,
            true), auth);
      && n.pendingValid && HasFlag(n.pendingFrame.flags, FLAG_GPS_VALID)
      && !HasFlag(Booted(n.nodeId, n.flash, 0, auth).pendingFrame.flags, FLAG_GPS_VALID)
  {
    hide LoadPending, NodeFrame, Cut, HasFlag, Booted, Triggered, StatusFlags;
    var p := Position(0.00000009, 0.0);
    assert FixedE7(p.lat) == 0 && FixedE7(p.lon) == 0;
    var on := PoweredOn(NO_ID, Flash(0, Missing));
    CutIdempotent(NO_ID);
    assert !Resumable(on.flash) by { NothingSaved(on.flash); }
    TriggerKeepsInv(on, 1, p, 50, 0, Writes(true, true), auth);
    TriggeredIs(on, 1, p, 50, 0, Writes(true, true), auth);
    NodeFrameBuilt(on.nodeId, 1, 1, 0, 0, 0, 0, 50, true, auth);
    BootRebuildsIff(Triggered(on, 1, p, 50, 0, Writes(true, true), auth), 0, auth);
    BootedIs(on.nodeId, Triggered(on, 1, p, 50, 0, Writes(true, true), auth).flash, 0, auth);
  }

  lemma NothingSaved(flash: Flash)
    requires flash.pending == Missing
    ensures !Resumable(flash)
  {
  }

  lemma BootRecoverable(id: Id, flash: Flash, now: u32, auth: Auth)
    requires id == Cut(id) && FlashSound(flash)
    ensures Recoverable(Booted(id, flash, now, auth))
  {
    hide LoadPending, NodeFrame, Cut, HasFlag, Booted;
    BootedIs(id, flash, now, auth);
    if Resumable(flash) {
      var r := LoadPending(flash).record;
      NodeFrameBuilt(id, r.eventId, r.eventType, r.attempt, r.createdMs, r.latE7, r.lonE7, r.batteryPct,
                     !(r.latE7 == 0 && r.lonE7 == 0), auth);
    }
  }

  lemma PollKeepsRecoverable(n: NodeState, m: NodeState, auth: Auth)
    requires PollOutcome(n, m, true, auth) && Recoverable(n)
    ensures Recoverable(m)
  {
    hide LoadPending, Built, HasFlag;
  }

  lemma StepKeepsRecoverable(n: NodeState, e: Event, auth: Auth)
    requires Inv(n, auth) && Recoverable(n) && WellFormed(e) && Clean(e)
    ensures Recoverable(Step(n, e, auth))
  {
    hide Inv, Updated, Booted, Triggered, Settled, LoadPending, FlashAt, HasFlag, PollOutcome;
    match e
    case Trigger(kind, p, batt, now, ok) =>
      TriggerGps(n, kind, p, batt, now, ok, auth);
      TriggeredIs(n, kind, p, batt, now, ok, auth);
    case Poll(at, later, entropy, ok) =>
      UpdatedIs(n, at, later, entropy, ok, auth);
      PollKeepsRecoverable(n, Step(n, e, auth), auth);
    case Ack(g, now, ok) =>
      ConfirmedIs(n, now, ok);
    case Reboot(c, now) =>
      CrashKeepsFlashSound(n, c, auth);
      OwnName(n, auth);
      BootRecoverable(n.nodeId, FlashAt(n, c, auth), now, auth);
  }

  lemma {:induction false} RunKeepsRecoverable(n: NodeState, es: seq<Event>, auth: Auth)
    requires Inv(n, auth) && Recoverable(n) && forall e :: e in es ==> WellFormed(e) && Clean(e)
    ensures Inv(Run(n, es, auth), auth) && Recoverable(Run(n, es, auth))
    decreases |es|
  {
    hide Inv, Recoverable, Step;
    if es != [] {
      StepKeepsInv(n, es[0], auth);
      StepKeepsRecoverable(n, es[0], auth);
      RunKeepsRecoverable(Step(n, es[0], auth), es[1..], auth);
    }
  }

  // ---------------------------------------------------------------------
  // Crash recovery, whatever writes fail
  // ---------------------------------------------------------------------

  /** History: the frame of the last save that succeeded, unless its event has ended since. */
  datatype Kept = Nothing | Kept(frame: Frame)

  predicate PollSaves(n: NodeState, at: u32) {
    ActionDue(n, at) && n.pendingValid && n.phase in {PendingTx, WaitingAck}
  }

  function KeptByPoll(k: Kept, n: NodeState, at: u32, later: u32, entropy: nat, ok: bool, auth: Auth): Kept {
    if ok && PollSaves(n, at) then Kept(Updated(n, at, later, entropy, ok, auth).pendingFrame) else k
  }

  function KeptThrough(k: Kept, n: NodeState, c: Crash, auth: Auth): Kept {
    match c
    case AfterPollSave(at, later, entropy, ok) => KeptByPoll(k, n, at, later, entropy, ok, auth)
    case AfterAckSave(ack, _, ok) => if Confirms(n, ack) && ok then Nothing else k
    case _ => k
  }

  function KeptAfter(k: Kept, n: NodeState, e: Event, auth: Auth): Kept
    requires WellFormed(e)
  {
    match e
    case Trigger(_, _, _, _, ok) => if ok.second then Kept(Step(n, e, auth).pendingFrame) else k
    case Poll(at, later, entropy, ok) => KeptByPoll(k, n, at, later, entropy, ok, auth)
    case Ack(f, _, ok) => if Confirms(n, f) && (ok.first || ok.second) then Nothing else k
    case Reboot(c, _) => KeptThrough(k, n, c, auth)
  }

  function KeptOver(k: Kept, n: NodeState, es: seq<Event>, auth: Auth): Kept
    requires forall e :: e in es ==> WellFormed(e)
    decreases |es|
  {
    if es == [] then k else KeptOver(KeptAfter(k, n, es[0], auth), Step(n, es[0], auth), es[1..], auth)
  }

  /** The flash resumes the kept frame's record, and nothing else. */
  predicate Keeps(flash: Flash, id: Id, k: Kept, auth: Auth) {
    match k
    case Nothing => !Resumable(flash)
    case Kept(f) => Mirrors(flash, f) && Built(f, id, auth)
  }

  lemma UpdatedSaves(n: NodeState, at: u32, later: u32, entropy: nat, ok: bool, auth: Auth)
    requires Inv(n, auth)
    ensures var m := Updated(n, at, later, entropy, ok, auth);
      if ok && PollSaves(n, at) then Mirrors(m.flash, m.pendingFrame) && Built(m.pendingFrame, n.nodeId, auth)
      else m.flash == n.flash
  {
    hide LoadPending, NodeFrame, Cut, HasFlag, SavedAs, Built, Sealed, RetryBackoff, Inv, Attempted;
    UpdatedIs(n, at, later, entropy, ok, auth);
    if ActionDue(n, at) && n.pendingValid {
      var f := Sealed(n.pendingFrame.(attempt := (n.retryCount + 1) % TWO_16, eventTimeMs := later), auth);
      SavedReads(n.(pendingFrame := Attempted(n, auth)), PENDING_ACK, at, ok);
      SavedReads(n.(retryCount := (n.retryCount + 1) % TWO_8, pendingFrame := f), PENDING_ACK, later, ok);
      SavedReads(n, PENDING_ACK, later, ok);
    }
  }

  lemma CrashKeeps(n: NodeState, k: Kept, c: Crash, auth: Auth)
    requires Inv(n, auth) && Keeps(n.flash, n.nodeId, k, auth)
    ensures Keeps(FlashAt(n, c, auth), n.nodeId, KeptThrough(k, n, c, auth), auth)
  {
    hide Inv, Updated, RecordCrc, SavedAs, HasFlag, Built, PollSaves;
    match c
    case BetweenOperations =>
    case AfterCounter =>
      CountedReads(n);
    case AfterPollSave(at, later, entropy, ok) =>
      UpdatedSaves(n, at, later, entropy, ok, auth);
    case AfterAckSave(ack, at, ok) =>
      SavedReads(n, ACKED, at, ok);
  }

  lemma TriggerKeeps(n: NodeState, k: Kept, e: Event, auth: Auth)
    requires Keeps(n.flash, n.nodeId, k, auth) && e.Trigger? && WellFormed(e)
    ensures Keeps(Step(n, e, auth).flash, n.nodeId, KeptAfter(k, n, e, auth), auth)
  {
    hide LoadPending, NodeFrame, Cut, HasFlag, Triggered, FixedE7, EventType;
    TriggeredIs(n, e.kind, e.position, e.batteryPct, e.now, e.pair, auth);
    NodeFrameBuilt(n.nodeId, Succ32(n.flash.counter), EventType(e.kind), 0, e.now, FixedE7(e.position.lat),
                   FixedE7(e.position.lon), e.batteryPct, HasFix(e.position), auth);
  }

  lemma StepKeeps(n: NodeState, k: Kept, e: Event, auth: Auth)
    requires Inv(n, auth) && WellFormed(e) && Keeps(n.flash, n.nodeId, k, auth)
    ensures Keeps(Step(n, e, auth).flash, n.nodeId, KeptAfter(k, n, e, auth), auth)
  {
    hide Inv, Updated, Triggered, Booted, Settled, LoadPending, FlashAt, Built, PollSaves, FlashSound;
    match e
    case Trigger(_, _, _, _, _) =>
      TriggerKeeps(n, k, e, auth);
    case Poll(at, later, entropy, ok) =>
      UpdatedSaves(n, at, later, entropy, ok, auth);
    case Ack(f, now, ok) =>
      ConfirmedIs(n, now, ok);
    case Reboot(c, now) =>
      CrashKeeps(n, k, c, auth);
      CrashKeepsFlashSound(n, c, auth);
      OwnName(n, auth);
      BootedIs(n.nodeId, FlashAt(n, c, auth), now, auth);
  }

  lemma {:induction false} RunKeeps(n: NodeState, k: Kept, es: seq<Event>, auth: Auth)
    requires Inv(n, auth) && Keeps(n.flash, n.nodeId, k, auth) && forall e :: e in es ==> WellFormed(e)
    ensures var m := Run(n, es, auth);
      Inv(m, auth) && m.nodeId == n.nodeId && Keeps(m.flash, n.nodeId, KeptOver(k, n, es, auth), auth)
    decreases |es|
  {
    hide Inv, Keeps, Step, KeptAfter;
    if es != [] {
      StepKeepsInv(n, es[0], auth);
      StepKeeps(n, k, es[0], auth);
      RunKeeps(Step(n, es[0], auth), KeptAfter(k, n, es[0], auth), es[1..], auth);
    }
  }

  /** Over every run, whatever writes fail: a power cut at any point and a boot resume an event
      exactly if one is kept, and give back exactly the kept frame, tag and checksum included, if
      and only if its GPS flag is the one its fixed-point position gives. */
  lemma CrashRecovery(n: NodeState, k: Kept, es: seq<Event>, c: Crash, now: u32, auth: Auth)
    requires Inv(n, auth) && Keeps(n.flash, n.nodeId, k, auth) && forall e :: e in es ==> WellFormed(e)
    ensures var m := Run(n, es, auth);
      var last := KeptThrough(KeptOver(k, n, es, auth), m, c, auth);
      var b := Booted(m.nodeId, FlashAt(m, c, auth), now, auth);
      && (b.pendingValid <==> last.Kept?)
      && (last.Kept? ==> (b.pendingFrame == last.frame <==> GpsConsistent(last.frame)))
  {
    hide Inv, Run, KeptOver, Keeps, Booted, FlashAt, KeptThrough;
    RunKeeps(n, k, es, auth);
    var m := Run(n, es, auth);
    CrashKeeps(m, KeptOver(k, n, es, auth), c, auth);
    OwnName(m, auth);
    CrashKeepsFlashSound(m, c, auth);
    KeptRecovered(m.nodeId, FlashAt(m, c, auth), KeptThrough(KeptOver(k, n, es, auth), m, c, auth), now, auth);
  }

  lemma KeptRecovered(id: Id, flash: Flash, k: Kept, now: u32, auth: Auth)
    requires id == Cut(id) && FlashSound(flash) && Keeps(flash, id, k, auth)
    ensures var b := Booted(id, flash, now, auth);
      && (b.pendingValid <==> k.Kept?)
      && (k.Kept? ==> (b.pendingFrame == k.frame <==> GpsConsistent(k.frame)))
  {
    hide LoadPending, Cut, HasFlag, Booted, NodeFrame;
    BootedIs(id, flash, now, auth);
    if k.Kept? {
      var r := LoadPending(flash).record;
      NodeFrameBuilt(id, r.eventId, r.eventType, r.attempt, r.createdMs, r.latE7, r.lonE7, r.batteryPct,
                     !(r.latE7 == 0 && r.lonE7 == 0), auth);
    }
  }

  /** What is in flash when a node boots is what is kept from then on. */
  lemma BootKeeps(id: Id, flash: Flash, now: u32, auth: Auth)
    requires id == Cut(id) && FlashSound(flash)
    ensures var b := Booted(id, flash, now, auth);
      Keeps(b.flash, id, if b.pendingValid then Kept(b.pendingFrame) else Nothing, auth)
  {
    hide LoadPending, Cut, HasFlag, Booted, NodeFrame;
    BootedIs(id, flash, now, auth);
  }

  /** A confirmed event is pending again after a reboot exactly if it could be resumed before and
      both marking and removing its record failed. */
  lemma ConfirmedResumedIff(n: NodeState, ack: Frame, now: u32, ok: Writes, later: u32, auth: Auth)
    requires Inv(n, auth) && Confirms(n, ack)
    ensures var m := AckHandled(n, ack, now, ok);
      Booted(m.nodeId, m.flash, later, auth).pendingValid <==> !ok.first && !ok.second && Resumable(n.flash)
  {
    hide Settled, LoadPending, Cut, CString, Built, Booted, Inv;
    OwnName(n, auth);
    ConfirmedIs(n, now, ok);
    ConfirmedKeepsInv(n, now, ok, auth);
    var m := AckHandled(n, ack, now, ok);
    assert FlashSound(m.flash) by { SoundFlash(m, auth); }
    BootedIs(m.nodeId, m.flash, later, auth);
  }

  lemma SoundFlash(n: NodeState, auth: Auth)
    requires Inv(n, auth)
    ensures FlashSound(n.flash)
  {
  }

  /** It does happen, to every node: an event is raised, sent and confirmed, both writes fail, and
      the next boot takes it up again. */
  lemma ConfirmedResumed(id: Id, auth: Auth)
    ensures var raised := Triggered(PoweredOn(id, Flash(0, Missing)), EVENT_FIRE, Position(0.0, 0.0), 50, 0,
                                    Writes(true, true), auth);
      var sent := Updated(raised, 0, 0, 0, true, auth);
      var ack := AckFrame(NO_ID, sent.pendingFrame.originId, sent.pendingFrame.eventId, EVENT_FIRE, 20, 0, auth);
      var done := AckHandled(sent, ack, 0, Writes(false, false));
      && Confirms(sent, ack) && done.phase == Confirmed && !done.pendingValid
      && Booted(done.nodeId, done.flash, 0, auth).pendingValid
  {
    hide Inv, Triggered, SavedAs, Attempted, PollOutcome, Sealed, Settled, LoadPending, Booted, NodeFrame, Cut,
         CString, FixedE7,
         Confirms;
    var on := PoweredOn(id, Flash(0, Missing));
    FreshIds(id, auth);
    var ok := Writes(true, true);
    var raised := Triggered(on, EVENT_FIRE, Position(0.0, 0.0), 50, 0, ok, auth);
    TriggerKeepsInv(on, EVENT_FIRE, Position(0.0, 0.0), 50, 0, ok, auth);
    TriggeredIs(on, EVENT_FIRE, Position(0.0, 0.0), 50, 0, ok, auth);
    TriggerSecures(on, EVENT_FIRE, Position(0.0, 0.0), 50, 0, true, auth);
    var sent := Updated(raised, 0, 0, 0, true, auth);
    UpdatedIs(raised, 0, 0, 0, true, auth);
    PollKeepsInv(raised, sent, true, auth);
    SavedReads(raised.(pendingFrame := Attempted(raised, auth)), PENDING_ACK, 0, true);
    PollKeepsSecured(raised, sent, true, raised.pendingFrame, auth);
    var ack := AckFrame(NO_ID, sent.pendingFrame.originId, sent.pendingFrame.eventId, EVENT_FIRE, 20, 0, auth);
    OwnAckConfirms(sent, NO_ID, EVENT_FIRE, 20, 0, auth);
    ConfirmedIs(sent, 0, Writes(false, false));
    ConfirmedResumedIff(sent, ack, 0, Writes(false, false), 0, auth);
  }

  lemma OwnAckConfirms(n: NodeState, sender: Id, eventType: u8, maxHops: u8, now: u32, auth: Auth)
    requires Inv(n, auth) && n.pendingValid && n.phase == WaitingAck
    ensures Confirms(n, AckFrame(sender, n.pendingFrame.originId, n.pendingFrame.eventId, eventType, maxHops, now,
            auth))
  {
    hide Inv, Cut, CString, Tag, Body, WithFlag;
    OwnName(n, auth);
    OwnOrigin(n, auth);
  }

  predicate Fixed(n: NodeState, k: Kept) {
    && (n.pendingValid ==> GpsConsistent(n.pendingFrame))
    && (k.Kept? ==> GpsConsistent(k.frame))
  }

  lemma StepKeepsFixed(n: NodeState, k: Kept, e: Event, auth: Auth)
    requires Inv(n, auth) && WellFormed(e) && Fixed(n, k) && (e.Trigger? ==> KeepsFix(e.position))
    ensures Fixed(Step(n, e, auth), KeptAfter(k, n, e, auth))
  {
    hide Inv, Updated, Triggered, Booted, Settled, LoadPending, FlashAt, HasFlag, PollOutcome, ActionDue;
    match e
    case Trigger(kind, p, batt, now, ok) =>
      TriggerGps(n, kind, p, batt, now, ok, auth);
    case Poll(at, later, entropy, ok) =>
      PollKeepsFix(n, at, later, entropy, ok, auth);
    case Ack(f, now, ok) =>
      ConfirmedIs(n, now, ok);
    case Reboot(c, now) =>
      CrashKeepsFlashSound(n, c, auth);
      OwnName(n, auth);
      BootRecoverable(n.nodeId, FlashAt(n, c, auth), now, auth);
      if c.AfterPollSave? {
        PollKeepsFix(n, c.at, c.later, c.entropy, c.ok, auth);
      }
  }

  lemma PollKeepsFix(n: NodeState, at: u32, later: u32, entropy: nat, ok: bool, auth: Auth)
    requires Inv(n, auth) && (n.pendingValid ==> GpsConsistent(n.pendingFrame))
    ensures var m := Updated(n, at, later, entropy, ok, auth);
      (m.pendingValid <==> n.pendingValid) && (m.pendingValid ==> GpsConsistent(m.pendingFrame))
  {
    hide Inv, Updated, HasFlag, Built, LoadPending;
    UpdatedIs(n, at, later, entropy, ok, auth);
  }

  /** If no fix vanishes in fixed point, every power cut of every run gives back exactly the
      frame that was saved last, and nothing once the end of its event was saved. */
  lemma {:induction false} ExactRecovery(n: NodeState, k: Kept, es: seq<Event>, c: Crash, now: u32, auth: Auth)
    requires Inv(n, auth) && Keeps(n.flash, n.nodeId, k, auth) && Fixed(n, k)
    requires forall e :: e in es ==> WellFormed(e) && (e.Trigger? ==> KeepsFix(e.position))
    ensures var m := Run(n, es, auth);
      var last := KeptThrough(KeptOver(k, n, es, auth), m, c, auth);
      var b := Booted(m.nodeId, FlashAt(m, c, auth), now, auth);
      if last.Kept? then b.pendingValid && b.pendingFrame == last.frame else !b.pendingValid
    decreases |es|
  {
    hide Inv, Keeps, Step, KeptAfter, Fixed, FlashAt, Booted;
    if es == [] {
      CrashRecovery(n, k, es, c, now, auth);
      CrashKeepsFix(n, k, c, auth);
    } else {
      StepKeepsInv(n, es[0], auth);
      StepKeeps(n, k, es[0], auth);
      StepKeepsFixed(n, k, es[0], auth);
      ExactRecovery(Step(n, es[0], auth), KeptAfter(k, n, es[0], auth), es[1..], c, now, auth);
    }
  }

  lemma CrashKeepsFix(n: NodeState, k: Kept, c: Crash, auth: Auth)
    requires Inv(n, auth) && Fixed(n, k)
    ensures var last := KeptThrough(k, n, c, auth); last.Kept? ==> GpsConsistent(last.frame)
  {
    hide Inv, Updated, HasFlag, PollOutcome;
    if c.AfterPollSave? {
      PollKeepsFix(n, c.at, c.later, c.entropy, c.ok, auth);
    }
  }

  // ---------------------------------------------------------------------
  // Event ids
  // ---------------------------------------------------------------------

  /** A node with what has happened to it: the frame each event was raised with, and the
      events that are over. */
  datatype History = History(n: NodeState, issued: map<u32, Frame>, done: set<u32>)

  function Acknowledged(n: NodeState, e: Event): set<u32> {
    match e
    case Ack(f, _, ok) => if Confirms(n, f) && (ok.first || ok.second) then {f.eventId} else {}
    case Reboot(AfterAckSave(f, _, ok), _) => if Confirms(n, f) && ok then {f.eventId} else {}
    case _ => {}
  }

  function Advance(h: History, e: Event, auth: Auth): History
    requires WellFormed(e)
  {
    var m := Step(h.n, e, auth);
    History(m,
            if e.Trigger? then h.issued[m.currentEventId := m.pendingFrame] else h.issued,
            h.done + Acknowledged(h.n, e))
  }

  function Evolved(h: History, es: seq<Event>, auth: Auth): History
    requires forall e :: e in es ==> WellFormed(e)
    decreases |es|
  {
    if es == [] then h else Evolved(Advance(h, es[0], auth), es[1..], auth)
  }

  /** The counter put of a trigger succeeds. */
  predicate Counts(e: Event) {
    e.Trigger? ==> e.pair.first
  }

  function Bump(e: Event): nat {
    if (e.Trigger? && e.pair.first) || (e.Reboot? && e.crash.AfterCounter?) then 1 else 0
  }

  function Bumps(es: seq<Event>): nat {
    if es == [] then 0 else Bump(es[0]) + Bumps(es[1..])
  }

  /** What the record in flash would resume is an issued event that is not over. */
  ghost predicate FlashKnown(flash: Flash, id: Id, issued: map<u32, Frame>, done: set<u32>) {
    Resumable(flash) ==>
      var r := LoadPending(flash).record;
      && r.eventId in issued && r.eventId !in done
      && RecordOf(r, issued[r.eventId]) && issued[r.eventId].originId == id
  }

  ghost predicate PendingKnown(n: NodeState, issued: map<u32, Frame>, done: set<u32>) {
    n.pendingValid ==>
      && n.currentEventId in issued && n.currentEventId !in done
      && SameEvent(n.pendingFrame, issued[n.currentEventId])
  }

  ghost predicate IdsInv(h: History) {
    && (forall id :: id in h.issued ==> 0 < id <= h.n.flash.counter && h.issued[id].eventId == id)
    && h.done <= h.issued.Keys
    && PendingKnown(h.n, h.issued, h.done)
    && FlashKnown(h.n.flash, h.n.nodeId, h.issued, h.done)
  }

  lemma PollKeepsKnown(n: NodeState, m: NodeState, issued: map<u32, Frame>, done: set<u32>, ok: bool, auth: Auth)
    requires Inv(n, auth) && PollOutcome(n, m, ok, auth)
    requires PendingKnown(n, issued, done) && FlashKnown(n.flash, n.nodeId, issued, done)
    ensures PendingKnown(m, issued, done) && FlashKnown(m.flash, m.nodeId, issued, done)
  {
    hide LoadPending, HasFlag, Cut, NodeFrame;
    if n.pendingValid {
      OwnOrigin(n, auth);
      assert n.pendingFrame.eventId == n.currentEventId;
    }
  }

  lemma OwnOrigin(n: NodeState, auth: Auth)
    requires Inv(n, auth) && n.pendingValid
    ensures n.pendingFrame.originId == n.nodeId && n.pendingFrame.frameType == FRAME_EVENT
    ensures HasFlag(n.pendingFrame.flags, FLAG_REQUIRE_ACK)
  {
    hide LoadPending, HasFlag, Cut, NodeFrame;
    var f := n.pendingFrame;
    NodeFrameBuilt(n.nodeId, f.eventId, f.eventType, f.attempt, f.eventTimeMs, f.latE7, f.lonE7, f.batteryPct,
                   HasFlag(f.flags, FLAG_GPS_VALID), auth);
  }

  lemma CrashKeepsKnown(n: NodeState, c: Crash, now: u32, issued: map<u32, Frame>, done: set<u32>, auth: Auth)
    requires Inv(n, auth) && PendingKnown(n, issued, done) && FlashKnown(n.flash, n.nodeId, issued, done)
    ensures FlashKnown(FlashAt(n, c, auth), n.nodeId, issued, done + Acknowledged(n, Reboot(c, now)))
    ensures n.flash.counter + Bump(Reboot(c, now)) < TWO_32 ==>
              FlashAt(n, c, auth).counter == n.flash.counter + Bump(Reboot(c, now))
  {
    hide Inv, Updated, RecordCrc, SavedAs, PollOutcome, PendingKnown;
    match c
    case BetweenOperations =>
    case AfterCounter =>
      CountedReads(n);
    case AfterPollSave(at, later, entropy, ok) =>
      UpdatedIs(n, at, later, entropy, ok, auth);
      PollKeepsKnown(n, Updated(n, at, later, entropy, ok, auth), issued, done, ok, auth);
      PollKeepsCounter(n, Updated(n, at, later, entropy, ok, auth), ok, auth);
    case AfterAckSave(ack, at, ok) =>
      SavedReads(n, ACKED, at, ok);
  }

  lemma CountedReads(n: NodeState)
    ensures LoadPending(Counted(n, true).flash) == LoadPending(n.flash)
    ensures n.flash.counter + 1 < TWO_32 ==> Counted(n, true).flash.counter == n.flash.counter + 1
  {
    hide RecordCrc;
  }

  lemma PollKeepsCounter(n: NodeState, m: NodeState, ok: bool, auth: Auth)
    requires PollOutcome(n, m, ok, auth)
    ensures m.flash.counter == n.flash.counter && m.nodeId == n.nodeId
  {
  }

  lemma BootKnown(id: Id, flash: Flash, now: u32, issued: map<u32, Frame>, done: set<u32>, auth: Auth)
    requires id == Cut(id) && FlashSound(flash) && FlashKnown(flash, id, issued, done)
    ensures PendingKnown(Booted(id, flash, now, auth), issued, done)
  {
    hide LoadPending, HasFlag, Cut, NodeFrame, Booted;
    BootedIs(id, flash, now, auth);
    if Resumable(flash) {
      var r := LoadPending(flash).record;
      NodeFrameBuilt(id, r.eventId, r.eventType, r.attempt, r.createdMs, r.latE7, r.lonE7, r.batteryPct,
                     !(r.latE7 == 0 && r.lonE7 == 0), auth);
      assert FrameSound(Booted(id, flash, now, auth), auth);
    }
  }

  lemma TriggerKnown(n: NodeState, kind: u8, p: Position, batt: u8, now: u32, ok: Writes,
                     issued: map<u32, Frame>, done: set<u32>, auth: Auth)
    requires Representable(p) && Inv(n, auth) && FlashKnown(n.flash, n.nodeId, issued, done)
    requires ok.first && n.flash.counter + 1 < TWO_32 && n.flash.counter + 1 !in issued && done <= issued.Keys
    ensures var m := Triggered(n, kind, p, batt, now, ok, auth);
      var after := issued[m.currentEventId := m.pendingFrame];
      && m.currentEventId == m.flash.counter == n.flash.counter + 1 == m.pendingFrame.eventId
      && PendingKnown(m, after, done) && FlashKnown(m.flash, m.nodeId, after, done)
  {
    hide LoadPending, HasFlag, Cut, NodeFrame, Triggered, FixedE7, EventType;
    TriggeredIs(n, kind, p, batt, now, ok, auth);
    NodeFrameBuilt(n.nodeId, n.flash.counter + 1, EventType(kind), 0, now, FixedE7(p.lat), FixedE7(p.lon), batt,
                   HasFix(p), auth);
    OwnName(n, auth);
    SameEventReflexive(Triggered(n, kind, p, batt, now, ok, auth).pendingFrame);
  }

  lemma AckKnown(n: NodeState, g: Frame, now: u32, ok: Writes, issued: map<u32, Frame>, done: set<u32>)
    requires PendingKnown(n, issued, done) && FlashKnown(n.flash, n.nodeId, issued, done)
    ensures var m := AckHandled(n, g, now, ok);
      && m.nodeId == n.nodeId && m.flash.counter == n.flash.counter
      && PendingKnown(m, issued, done + Acknowledged(n, Ack(g, now, ok)))
      && FlashKnown(m.flash, m.nodeId, issued, done + Acknowledged(n, Ack(g, now, ok)))
  {
    hide LoadPending, Settled, CString;
    ConfirmedIs(n, now, ok);
  }

  /** Below the wrap-around of the counter, every step keeps the ids, and a trigger gets one
      that is above all that were issued before. */
  lemma AdvanceKeepsIds(h: History, e: Event, auth: Auth)
    requires Inv(h.n, auth) && IdsInv(h) && WellFormed(e) && Counts(e) && h.n.flash.counter + Bump(e) < TWO_32
    ensures var t := Advance(h, e, auth);
      && IdsInv(t) && t.n.flash.counter == h.n.flash.counter + Bump(e)
      && (forall id :: id in h.issued ==> id in t.issued && t.issued[id] == h.issued[id])
      && (e.Trigger? ==> forall id :: id in h.issued ==> id < t.n.currentEventId)
  {
    hide Inv, Updated, Booted, Triggered, AckHandled, FlashAt, PollOutcome, FlashKnown, PendingKnown;
    var n := h.n;
    assert h.done + {} == h.done;
    match e
    case Trigger(kind, p, batt, now, ok) =>
      TriggerKnown(n, kind, p, batt, now, ok, h.issued, h.done, auth);
    case Poll(at, later, entropy, ok) =>
      UpdatedIs(n, at, later, entropy, ok, auth);
      PollKeepsKnown(n, Step(n, e, auth), h.issued, h.done, ok, auth);
      PollKeepsCounter(n, Step(n, e, auth), ok, auth);
    case Ack(g, now, ok) =>
      AckKnown(n, g, now, ok, h.issued, h.done);
      AckedKnown(h, e);
    case Reboot(c, now) =>
      CrashKeepsFlashSound(n, c, auth);
      OwnName(n, auth);
      CrashKeepsKnown(n, c, now, h.issued, h.done, auth);
      AckedKnown(h, e);
      var flash := FlashAt(n, c, auth);
      BootedIs(n.nodeId, flash, now, auth);
      BootKnown(n.nodeId, flash, now, h.issued, h.done + Acknowledged(n, e), auth);
  }

  lemma AckedKnown(h: History, e: Event)
    requires IdsInv(h)
    ensures Acknowledged(h.n, e) <= h.issued.Keys
  {
    hide LoadPending, CString, Resumable;
    var n := h.n;
    if n.pendingValid {
      assert n.pendingFrame.eventId == h.issued[n.currentEventId].eventId == n.currentEventId;
      assert n.pendingFrame.eventId in h.issued.Keys;
    }
    forall id | id in Acknowledged(n, e)
      ensures id in h.issued.Keys
    {
      assert n.pendingValid && id == n.pendingFrame.eventId;
    }
  }

  /** Below 2^32 triggers, all counted: ids increase strictly over triggers and reboots, a pending
      event is always the one that was raised with its id, and one whose end was saved, as
      acknowledged or by removal, never comes back. */
  lemma {:induction false} EventsNeverMixedUp(h: History, es: seq<Event>, auth: Auth)
    requires Inv(h.n, auth) && IdsInv(h) && (forall e :: e in es ==> WellFormed(e) && Counts(e))
    requires h.n.flash.counter + Bumps(es) < TWO_32
    ensures var t := Evolved(h, es, auth);
      && IdsInv(t) && t.n == Run(h.n, es, auth)
      && (forall id :: id in h.issued ==> id in t.issued && t.issued[id] == h.issued[id])
      && h.done <= t.done
    decreases |es|
  {
    hide Inv, IdsInv, Step;
    if es != [] {
      AdvanceKeepsIds(h, es[0], auth);
      StepKeepsInv(h.n, es[0], auth);
      EventsNeverMixedUp(Advance(h, es[0], auth), es[1..], auth);
    }
  }

  /** After a later event has been raised, an ACK for any earlier one changes nothing as long as
      that later event is pending, whatever reboots come between and even if its counter put or
      its save failed; if its save succeeded, it is pending. */
  lemma OldAckIgnored(h: History, e: Event, es: seq<Event>, ack: Frame, now: u32, ok: Writes, auth: Auth)
    requires Inv(h.n, auth) && IdsInv(h) && ack.eventId in h.issued
    requires e.Trigger? && WellFormed(e) && h.n.flash.counter + 1 < TWO_32
    requires (forall d :: d in es ==> WellFormed(d)) && QuietRun(Step(h.n, e, auth), es, auth)
    ensures var later := Step(h.n, e, auth).currentEventId;
      var m := Run(Step(h.n, e, auth), es, auth);
      && ack.eventId < later
      && (e.pair.second ==> m.pendingValid && m.pendingFrame.eventId == later)
      && (m.pendingValid && m.pendingFrame.eventId == later ==> AckHandled(m, ack, now, ok) == m)
  {
    hide Inv, Triggered, CString, LoadPending, Settled, FixedE7, PendingKnown, FlashKnown;
    StepKeepsInv(h.n, e, auth);
    var m := Step(h.n, e, auth);
    TriggeredId(h.n, e.kind, e.position, e.batteryPct, e.now, e.pair, auth);
    if e.pair.second {
      TriggerSecures(h.n, e.kind, e.position, e.batteryPct, e.now, e.pair.first, auth);
      PendingSurvives(m, es, m.pendingFrame, auth);
    }
  }

  /** A node with erased flash has issued nothing. */
  lemma FreshIds(id: Id, auth: Auth)
    ensures var n := PoweredOn(id, Flash(0, Missing));
      Inv(n, auth) && IdsInv(History(n, map[], {}))
  {
    hide Cut;
    CutIdempotent(id);
    NothingSaved(Flash(0, Missing));
  }

  lemma TriggeredId(n: NodeState, kind: u8, p: Position, batt: u8, now: u32, ok: Writes, auth: Auth)
    requires Representable(p)
    ensures var m := Triggered(n, kind, p, batt, now, ok, auth);
      && m.pendingFrame.eventId == m.currentEventId == Succ32(n.flash.counter)
      && m.flash.counter == if ok.first then m.currentEventId else n.flash.counter
  {
    hide Triggered, Cut, LoadPending, Tag, Body, FixedE7;
    TriggeredIs(n, kind, p, batt, now, ok, auth);
  }

  lemma StepCounts(n: NodeState, e: Event, auth: Auth)
    requires Inv(n, auth) && WellFormed(e)
    ensures Step(n, e, auth).flash.counter == (n.flash.counter + Bump(e)) % TWO_32
  {
    hide Inv, Updated, Booted, Triggered, Settled, LoadPending, PollOutcome, SavedAs, FixedE7;
    match e
    case Trigger(kind, p, batt, now, ok) =>
      TriggeredId(n, kind, p, batt, now, ok, auth);
    case Poll(at, later, entropy, ok) =>
      UpdatedIs(n, at, later, entropy, ok, auth);
      PollKeepsCounter(n, Step(n, e, auth), ok, auth);
    case Ack(g, now, ok) =>
      ConfirmedIs(n, now, ok);
    case Reboot(c, now) =>
      CrashKeepsFlashSound(n, c, auth);
      OwnName(n, auth);
      BootedIs(n.nodeId, FlashAt(n, c, auth), now, auth);
      if c.AfterPollSave? {
        UpdatedIs(n, c.at, c.later, c.entropy, c.ok, auth);
        PollKeepsCounter(n, Updated(n, c.at, c.later, c.entropy, c.ok, auth), c.ok, auth);
      } else if c.AfterAckSave? {
        SavedReads(n, ACKED, c.at, c.ok);
      }
  }

  lemma CountOn(c: nat, a: nat, b: nat)
    ensures ((c + a) % TWO_32 + b) % TWO_32 == (c + (a + b)) % TWO_32
  {
    var q := (c + a) / TWO_32;
    assert (c + a) % TWO_32 + b == c + (a + b) - q * TWO_32;
  }

  lemma SameCountIff(x: u32, d: nat)
    ensures (x + d) % TWO_32 == x <==> d % TWO_32 == 0
  {
    var q, r := d / TWO_32, d % TWO_32;
    assert x + d == x + r + q * TWO_32;
    assert (x + d) % TWO_32 == (x + r) % TWO_32;
  }

  lemma SameSuccessorIff(c: u32, a: nat, b: nat)
    ensures Succ32(((c + a) % TWO_32 + b) % TWO_32) == Succ32(c) <==> (a + b) % TWO_32 == 0
  {
    CountOn(c, a, b);
    CountOn(c, a + b, 1);
    CountOn(c, 1, a + b);
    SameCountIff(Succ32(c), a + b);
  }

  lemma {:induction false} CounterCounts(n: NodeState, es: seq<Event>, auth: Auth)
    requires Inv(n, auth) && forall e :: e in es ==> WellFormed(e)
    ensures Run(n, es, auth).flash.counter == (n.flash.counter + Bumps(es)) % TWO_32
    decreases |es|
  {
    hide Inv, Step;
    if es != [] {
      StepCounts(n, es[0], auth);
      StepKeepsInv(n, es[0], auth);
      CounterCounts(Step(n, es[0], auth), es[1..], auth);
      CountOn(n.flash.counter, Bump(es[0]), Bumps(es[1..]));
    }
  }

  /** Two triggers get the same id exactly when the successful counter puts from the first up to
      the second are a multiple of 2^32: a whole wrap-around, or none at all because the put of
      the first had failed. */
  lemma IdsRepeatIff(n: NodeState, first: Event, es: seq<Event>, second: Event, auth: Auth)
    requires Inv(n, auth) && first.Trigger? && second.Trigger? && WellFormed(first) && WellFormed(second)
    requires forall e :: e in es ==> WellFormed(e)
    ensures var a := Step(n, first, auth);
      var b := Step(Run(a, es, auth), second, auth);
      a.currentEventId == b.currentEventId <==> (Bump(first) + Bumps(es)) % TWO_32 == 0
  {
    hide Inv, Triggered, FixedE7, Run, Bumps, Succ32;
    var a := Step(n, first, auth);
    StepKeepsInv(n, first, auth);
    StepCounts(n, first, auth);
    CounterCounts(a, es, auth);
    var m := Run(a, es, auth);
    TriggeredId(n, first.kind, first.position, first.batteryPct, first.now, first.pair, auth);
    TriggeredId(m, second.kind, second.position, second.batteryPct, second.now, second.pair, auth);
    SameSuccessorIff(n.flash.counter, Bump(first), Bumps(es));
  }
}
