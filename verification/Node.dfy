/** The emergency node: a retry state machine whose pending event is kept in flash. */
module Node {
  import opened Bytes
  import opened Clock
  import opened Frames
  import opened Protocol
  import Crc

  const ACK_TIMEOUT_MS: u32 := 15000
  const FAILED_RETRY_INTERVAL_MS: u32 := 60000
  const MAX_RETRIES := 3
  const LOW_BATTERY_PCT := 15

  const NODE_EVENT_MAGIC: u32 := 0x53434556
  const PENDING_ACK: u8 := 1
  const ACKED: u8 := 2

  // ---------------------------------------------------------------------
  // Flash
  // ---------------------------------------------------------------------

  datatype EventRecord = EventRecord(
    eventId: u32, eventType: u8, attempt: u16, state: u8, batteryPct: u8,
    latE7: i32, lonE7: i32, createdMs: u32, updatedMs: u32)

  datatype Blob =
    | Missing
    | WrongSize
    | Blob(magic: u32, record: EventRecord, crc16: u16)

  /** `evt_ctr` and `pend_evt`. */
  datatype Flash = Flash(counter: u32, pending: Blob)

  datatype LoadResult = NotLoaded | Loaded(record: EventRecord)

  /** The 34 bytes under the record's checksum, padding and the zeroed checksum included. */
  function RecordBytes(magic: u32, r: EventRecord): seq<u8> {
    LE32(magic) + LE32(r.eventId) + [r.eventType, 0] + LE16(r.attempt) + [r.state, r.batteryPct, 0, 0]
    + LE32(Unsigned32(r.latE7)) + LE32(Unsigned32(r.lonE7)) + LE32(r.createdMs) + LE32(r.updatedMs) + [0, 0]
  }

  function RecordCrc(magic: u32, r: EventRecord): u16 {
    Crc.Crc16(RecordBytes(magic, r))
  }

  function Saved(flash: Flash, r: EventRecord, ok: bool): Flash {
    if ok then flash.(pending := Blob(NODE_EVENT_MAGIC, r, RecordCrc(NODE_EVENT_MAGIC, r))) else flash
  }

  function Cleared(flash: Flash, ok: bool): Flash {
    if ok then flash.(pending := Missing) else flash
  }

  function LoadPending(flash: Flash): LoadResult {
    var b := flash.pending;
    if b.Blob? && b.magic == NODE_EVENT_MAGIC && b.crc16 == RecordCrc(b.magic, b.record) then Loaded(b.record)
    else NotLoaded
  }

  lemma LoadAfterSave(flash: Flash, r: EventRecord, ok: bool)
    ensures LoadPending(Saved(flash, r, ok)) == if ok then Loaded(r) else LoadPending(flash)
    ensures Saved(flash, r, ok).counter == flash.counter
  {
    hide RecordCrc;
  }

  /** What can be loaded is exactly what a save has written, with its magic and its checksum. */
  lemma LoadedIffSaved(flash: Flash, r: EventRecord)
    ensures LoadPending(flash) == Loaded(r) <==> flash == Saved(flash, r, true)
  {
    hide RecordCrc;
  }

  class Storage {
    var evtCtr: u32
    var pendEvt: Blob

    ghost function View(): Flash
      reads this
    {
      Flash(evtCtr, pendEvt)
    }

    constructor (flash: Flash)
      ensures View() == flash
    {
      evtCtr, pendEvt := flash.counter, flash.pending;
    }

    method NextEventCounter(putOk: bool) returns (next: u32)
      modifies this
      ensures next == Succ32(old(evtCtr))
      ensures View() == if putOk then old(View()).(counter := next) else old(View())
    {
      next := Succ32(evtCtr);
      if putOk {
        evtCtr := next;
      }
    }

    method SavePendingEvent(record: EventRecord, writeOk: bool) returns (ok: bool)
      modifies this
      ensures View() == Saved(old(View()), record, writeOk) && ok == writeOk
    {
      var crc := Crc.CalcCrc16(RecordBytes(NODE_EVENT_MAGIC, record));
      if writeOk {
        pendEvt := Blob(NODE_EVENT_MAGIC, record, crc);
      }
      ok := writeOk;
    }

    method LoadPendingEvent() returns (r: LoadResult)
      ensures r == LoadPending(View())
    {
      if !pendEvt.Blob? || pendEvt.magic != NODE_EVENT_MAGIC {
        return NotLoaded;
      }
      var expected := Crc.CalcCrc16(RecordBytes(pendEvt.magic, pendEvt.record));
      if pendEvt.crc16 != expected {
        return NotLoaded;
      }
      return Loaded(pendEvt.record);
    }

    method ClearPendingEvent(removeOk: bool)
      modifies this
      ensures View() == Cleared(old(View()), removeOk)
    {
      if removeOk {
        pendEvt := Missing;
      }
    }
  }

  // ---------------------------------------------------------------------
  // Specification
  // ---------------------------------------------------------------------

  datatype Phase = Idle | PendingTx | WaitingAck | Confirmed | Failed

  datatype NodeState = NodeState(
    nodeId: Id, flash: Flash, phase: Phase, retryCount: u8, pendingFrame: Frame, pendingValid: bool,
    scheduledAt: u32, delayMs: u32, currentEventId: u32, currentType: u8)

  /** A position in degrees that fits the fixed-point fields. */
  datatype Position = Position(lat: real, lon: real)

  const MAX_DEGREES := 214.0

  predicate Representable(p: Position) {
    -MAX_DEGREES <= p.lat <= MAX_DEGREES && -MAX_DEGREES <= p.lon <= MAX_DEGREES
  }

  /** `(int32_t)(value * 10000000.0f)`: truncation toward zero. */
  function FixedE7(value: real): i32
    requires -MAX_DEGREES <= value <= MAX_DEGREES
  {
    var v := value * 10000000.0;
    if v >= 0.0 then v.Floor else -(-v).Floor
  }

  function HasFix(p: Position): bool {
    !(p.lat == 0.0 && p.lon == 0.0)
  }

  /** FIRE, FLOOD, CRIME and SAFE keep their codes, anything else is NONE. */
  function EventType(t: u8): u8 {
    if t in {EVENT_FIRE, EVENT_FLOOD, EVENT_CRIME, EVENT_SAFE} then t else EVENT_NONE
  }

  function Projection(f: Frame, state: u8, now: u32): EventRecord {
    EventRecord(f.eventId, f.eventType, f.attempt, state, f.batteryPct, f.latE7, f.lonE7, f.eventTimeMs, now)
  }

  function SavedAs(n: NodeState, state: u8, now: u32, ok: bool): NodeState {
    if n.pendingValid then n.(flash := Saved(n.flash, Projection(n.pendingFrame, state, now), ok)) else n
  }

  function Scheduled(n: NodeState, phase: Phase, now: u32, delay: u32): NodeState {
    n.(phase := phase, scheduledAt := now, delayMs := delay)
  }

  function NodeFrame(id: Id, eventId: u32, eventType: u8, attempt: u16, timeMs: u32, latE7: i32, lonE7: i32,
                     batteryPct: u8, gpsValid: bool, auth: Auth): Frame {
    EventFrame(id, id, eventId, eventType, attempt, timeMs, latE7, lonE7, batteryPct, gpsValid,
               batteryPct <= LOW_BATTERY_PCT, auth)
  }

  /** Whether the two flash writes of one operation succeed, in the order they are made. */
  datatype Writes = Writes(first: bool, second: bool)

  function Counted(n: NodeState, ok: bool): NodeState {
    if ok then n.(flash := n.flash.(counter := Succ32(n.flash.counter))) else n
  }

  /** Two flash writes: the counter, then the record. */
  function Triggered(n: NodeState, t: u8, p: Position, batteryPct: u8, now: u32, ok: Writes, auth: Auth): NodeState
    requires Representable(p)
  {
    var id := Succ32(n.flash.counter);
    var m := Counted(n, ok.first);
    var f := NodeFrame(n.nodeId, id, EventType(t), 0, now, FixedE7(p.lat), FixedE7(p.lon), batteryPct, HasFix(p), auth);
    Scheduled(SavedAs(m.(currentType := t, currentEventId := id, retryCount := 0, pendingFrame := f,
        pendingValid := true),
                      PENDING_ACK, now, ok.second),
              PendingTx, now, 0)
  }

  function Attempted(n: NodeState, auth: Auth): Frame {
    Sealed(n.pendingFrame.(attempt := n.retryCount, hopCount := 0, senderId := Cut(n.nodeId)), auth)
  }

  /** `later` is the clock after the blocking sounds of a call that began at `now`. */
  function Transmitted(n: NodeState, now: u32, later: u32, ok: bool, auth: Auth): NodeState {
    if !n.pendingValid then n
    else
      Scheduled(SavedAs(n.(pendingFrame := Attempted(n, auth)), PENDING_ACK, now, ok),
                WaitingAck, later, ACK_TIMEOUT_MS)
  }

  function RetryBackoff(retry: nat, entropy: nat): u32 {
    if retry == 1 then Random(600, 901, entropy)
    else if retry == 2 then Random(1800, 2401, entropy)
    else if retry == 3 then Random(4000, 5001, entropy)
    else Random(8000, 10001, entropy)
  }

  function GivenUp(n: NodeState, later: u32, ok: bool): NodeState {
    Scheduled(SavedAs(n, PENDING_ACK, later, ok), Failed, later, FAILED_RETRY_INTERVAL_MS)
  }

  function Retried(n: NodeState, later: u32, entropy: nat, ok: bool, auth: Auth): NodeState {
    if !n.pendingValid then n
    else if n.retryCount >= MAX_RETRIES then GivenUp(n, later, ok)
    else
      var r := n.retryCount + 1;
      var f := Sealed(n.pendingFrame.(attempt := r, eventTimeMs := later), auth);
      Scheduled(SavedAs(n.(retryCount := r, pendingFrame := f), PENDING_ACK, later, ok),
                PendingTx, later, RetryBackoff(r, entropy))
  }

  function ActionDue(n: NodeState, now: u32): bool {
    Due(now, n.scheduledAt, n.delayMs)
  }

  function Updated(n: NodeState, now: u32, later: u32, entropy: nat, ok: bool, auth: Auth): NodeState {
    if !ActionDue(n, now) then n
    else
      match n.phase
      case Idle => n
      case PendingTx => Transmitted(n, now, later, ok, auth)
      case WaitingAck => Retried(n, later, entropy, ok, auth)
      case Confirmed => n.(phase := Idle)
      case Failed => if n.pendingValid then Scheduled(n.(retryCount := 0), PendingTx, later, 0) else n
  }

  function SentByUpdate(n: NodeState, now: u32, auth: Auth): seq<Frame> {
    if ActionDue(n, now) && n.phase == PendingTx && n.pendingValid then [Attempted(n, auth)] else []
  }

  function MarkedAcked(n: NodeState, now: u32, ok: bool): NodeState {
    SavedAs(n, ACKED, now, ok)
  }

  /** Two flash writes: the record is saved as acknowledged and then removed. */
  function Settled(n: NodeState, now: u32, ok: Writes): NodeState {
    var m := MarkedAcked(n, now, ok.first);
    Scheduled(m.(flash := Cleared(m.flash, ok.second), pendingValid := false, currentEventId := 0,
                 currentType := 0, retryCount := 0), Confirmed, now, 1000)
  }

  predicate Confirms(n: NodeState, ack: Frame) {
    && n.phase == WaitingAck && n.pendingValid
    && ack.frameType == FRAME_ACK
    && SameId(ack.originId, n.nodeId)
    && ack.eventId == n.pendingFrame.eventId
  }

  function AckHandled(n: NodeState, ack: Frame, now: u32, ok: Writes): NodeState {
    if Confirms(n, ack) then Settled(n, now, ok) else n
  }

  const ZERO_FRAME: Frame := BLANK.(protocolVersion := 0, maxHops := 0)

  function PoweredOn(id: Id, flash: Flash): NodeState {
    NodeState(Cut(id), flash, Idle, 0, ZERO_FRAME, false, 0, 0, 0, 0)
  }

  /** `init` followed by `resumePending`. */
  function Booted(id: Id, flash: Flash, now: u32, auth: Auth): NodeState {
    var n := PoweredOn(id, flash);
    match LoadPending(flash)
    case NotLoaded => n
    case Loaded(r) =>
      if r.state != PENDING_ACK then n
      else
        Scheduled(n.(currentEventId := r.eventId, currentType := EventType(r.eventType),
            retryCount := r.attempt % TWO_8,
                     pendingFrame := Resumed(n.nodeId, r, auth), pendingValid := true),
                  PendingTx, now, 500)
  }

  /** The GPS flag is recomputed from the fixed-point position. */
  function Resumed(id: Id, r: EventRecord, auth: Auth): Frame {
    NodeFrame(id, r.eventId, r.eventType, r.attempt, r.createdMs, r.latE7, r.lonE7, r.batteryPct,
              !(r.latE7 == 0 && r.lonE7 == 0), auth)
  }

  // ---------------------------------------------------------------------
  // The implementation
  // ---------------------------------------------------------------------

  class EmergencyManager {
    const storage: Storage
    const auth: Auth
    const nodeId: Id
    var phase: Phase
    var retryCount: u8
    var pendingFrame: Frame
    var pendingFrameValid: bool
    var actionScheduledAt: u32
    var actionDelayMs: u32
    var currentEventId: u32
    var currentEmergencyType: u8
    ghost var radio: seq<Frame>

    ghost function View(): NodeState
      reads this, storage
    {
      NodeState(nodeId, storage.View(), phase, retryCount, pendingFrame, pendingFrameValid,
                actionScheduledAt, actionDelayMs, currentEventId, currentEmergencyType)
    }

    constructor (id: Id, store: Storage, key: Auth)
      ensures storage == store && auth == key && radio == []
      ensures View() == PoweredOn(id, store.View())
    {
      storage, auth, nodeId := store, key, Cut(id);
      phase, retryCount, pendingFrame, pendingFrameValid := Idle, 0, ZERO_FRAME, false;
      actionScheduledAt, actionDelayMs, currentEventId, currentEmergencyType := 0, 0, 0, 0;
      radio := [];
    }

    method ScheduleAction(next: Phase, now: u32, delayMs: u32)
      modifies `phase, `actionScheduledAt, `actionDelayMs
      ensures View() == Scheduled(old(View()), next, now, delayMs)
    {
      phase := next;
      actionScheduledAt := now;
      actionDelayMs := delayMs;
    }

    method SaveJournal(state: u8, now: u32, writeOk: bool) returns (ok: bool)
      modifies storage
      ensures View() == SavedAs(old(View()), state, now, writeOk)
      ensures ok == (pendingFrameValid && writeOk)
    {
      hide RecordCrc;
      if !pendingFrameValid {
        return false;
      }
      var f := pendingFrame;
      var rec := EventRecord(f.eventId, f.eventType, f.attempt, state, f.batteryPct, f.latE7, f.lonE7, f.eventTimeMs,
          now);
      ok := storage.SavePendingEvent(rec, writeOk);
    }

    method Trigger(kind: u8, p: Position, batteryPct: u8, now: u32, writeOk: Writes)
      requires Representable(p)
      modifies this, storage
      ensures radio == old(radio)
      ensures View() == Triggered(old(View()), kind, p, batteryPct, now, writeOk, auth)
    {
      hide Sealed, Cut, Saved, FixedE7;
      currentEmergencyType := kind;
      currentEventId := storage.NextEventCounter(writeOk.first);
      retryCount := 0;
      var gpsValid := !(p.lat == 0.0 && p.lon == 0.0);
      var lowBattery := batteryPct <= 15;
      pendingFrame := BuildEventFrame(nodeId, nodeId, currentEventId, EventType(kind), 0, now,
                                      FixedE7(p.lat), FixedE7(p.lon), batteryPct, gpsValid, lowBattery, auth);
      pendingFrameValid := true;
      var _ := SaveJournal(PENDING_ACK, now, writeOk.second);
      ScheduleAction(PendingTx, now, 0);
    }

    method TransmitNow(now: u32, later: u32, writeOk: bool)
      modifies this, storage
      ensures View() == Transmitted(old(View()), now, later, writeOk, auth)
      ensures radio == old(radio) + if old(pendingFrameValid) then [Attempted(old(View()), auth)] else []
    {
      hide Sealed, Cut, Saved;
      if !pendingFrameValid {
        return;
      }
      pendingFrame := pendingFrame.(attempt := retryCount);
      pendingFrame := pendingFrame.(hopCount := 0);
      pendingFrame := pendingFrame.(senderId := Cut(nodeId));
      pendingFrame := FinalizeFrame(pendingFrame, auth);
      var _ := SaveJournal(PENDING_ACK, now, writeOk);
      radio := radio + [pendingFrame];
      ScheduleAction(WaitingAck, later, ACK_TIMEOUT_MS);
    }

    method MarkFailed(later: u32, writeOk: bool)
      modifies this, storage
      ensures radio == old(radio)
      ensures View() == GivenUp(old(View()), later, writeOk)
    {
      hide Saved;
      var _ := SaveJournal(PENDING_ACK, later, writeOk);
      ScheduleAction(Failed, later, FAILED_RETRY_INTERVAL_MS);
    }

    method ScheduleRetry(later: u32, entropy: nat, writeOk: bool)
      modifies this, storage
      ensures radio == old(radio)
      ensures View() == Retried(old(View()), later, entropy, writeOk, auth)
    {
      hide Sealed, Cut, Saved, Random;
      if !pendingFrameValid {
        return;
      }
      if retryCount >= MAX_RETRIES {
        MarkFailed(later, writeOk);
        return;
      }
      retryCount := retryCount + 1;
      var backoff := RetryBackoff(retryCount, entropy);
      pendingFrame := pendingFrame.(attempt := retryCount, eventTimeMs := later);
      pendingFrame := FinalizeFrame(pendingFrame, auth);
      var _ := SaveJournal(PENDING_ACK, later, writeOk);
      ScheduleAction(PendingTx, later, backoff);
    }

    method MarkConfirmed(now: u32, writeOk: Writes)
      modifies this, storage
      ensures radio == old(radio)
      ensures View() == Settled(old(View()), now, writeOk)
    {
      hide Saved;
      var _ := SaveJournal(ACKED, now, writeOk.first);
      storage.ClearPendingEvent(writeOk.second);
      pendingFrameValid := false;
      currentEventId := 0;
      currentEmergencyType := 0;
      retryCount := 0;
      ScheduleAction(Confirmed, now, 1000);
    }

    method Update(now: u32, later: u32, entropy: nat, writeOk: bool)
      modifies this, storage
      ensures View() == Updated(old(View()), now, later, entropy, writeOk, auth)
      ensures radio == old(radio) + SentByUpdate(old(View()), now, auth)
    {
      hide Transmitted, Retried, Attempted, Elapsed;
      if !Due(now, actionScheduledAt, actionDelayMs) {
        return;
      }
      match phase
      case Idle =>
      case PendingTx => UnsentIfInvalid(View(), now, later, writeOk, auth); TransmitNow(now, later, writeOk);
      case WaitingAck => ScheduleRetry(later, entropy, writeOk);
      case Confirmed => phase := Idle;
      case Failed =>
        if pendingFrameValid {
          retryCount := 0;
          ScheduleAction(PendingTx, later, 0);
        }
    }

    method HandleAck(ack: Frame, now: u32, writeOk: Writes)
      modifies this, storage
      ensures radio == old(radio)
      ensures View() == AckHandled(old(View()), ack, now, writeOk)
    {
      hide Settled, CString;
      if phase != WaitingAck || !pendingFrameValid || ack.frameType != FRAME_ACK {
        return;
      }
      if !SameId(ack.originId, nodeId) {
        return;
      }
      if ack.eventId != pendingFrame.eventId {
        return;
      }
      MarkConfirmed(now, writeOk);
    }

    method ResumePending(now: u32) returns (resumed: bool)
      requires View() == PoweredOn(nodeId, storage.View())
      modifies this
      ensures radio == old(radio)
      ensures View() == Booted(nodeId, old(storage.View()), now, auth)
      ensures resumed == pendingFrameValid
    {
      hide Sealed, Cut, LoadPending;
      var r := storage.LoadPendingEvent();
      if r.NotLoaded? || r.record.state != PENDING_ACK {
        return false;
      }
      var rec := r.record;
      currentEventId := rec.eventId;
      currentEmergencyType := EventType(rec.eventType);
      retryCount := rec.attempt % TWO_8;
      var gpsValid := !(rec.latE7 == 0 && rec.lonE7 == 0);
      var lowBattery := rec.batteryPct <= 15;
      pendingFrame := BuildEventFrame(nodeId, nodeId, rec.eventId, rec.eventType, rec.attempt, rec.createdMs,
                                      rec.latE7, rec.lonE7, rec.batteryPct, gpsValid, lowBattery, auth);
      pendingFrameValid := true;
      ScheduleAction(PendingTx, now, 500);
      return true;
    }
  }

  lemma UnsentIfInvalid(n: NodeState, now: u32, later: u32, ok: bool, auth: Auth)
    ensures !n.pendingValid ==> Transmitted(n, now, later, ok, auth) == n
  {
  }
}
