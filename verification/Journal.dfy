/** The gateway journal: 100 records in RAM, the first 30 mirrored to flash slots. */
module Journal {
  import opened Bytes
  import opened Frames
  import Crc

  const MAX_RECORDS := 100
  const MAX_NVS_SLOTS := 30
  const SLOT_MAGIC: u32 := 0x474A4F55

  const RECEIVED: u8 := 1
  const HOST_QUEUED: u8 := 2
  const HOST_COMMITTED: u8 := 3

  datatype Record = Record(
    used: bool, originId: Id, eventId: u32, eventType: u8, firstSenderId: Id, firstRxMs: u32,
    latE7: i32, lonE7: i32, batteryPct: u8, hopCount: u8, rssiDbm: i16, attempt: u16,
    status: u8, protocolVersion: u8, payloadCrc16: u16)

  const UNUSED: Record := Record(false, NO_ID, 0, 0, NO_ID, 0, 0, 0, 0, 0, 0, 0, 0, 0, 0)

  /** The logical identity of an event. */
  datatype EventKey = EventKey(name: seq<u8>, eventId: u32)

  function RecordKey(r: Record): EventKey {
    EventKey(CString(r.originId), r.eventId)
  }

  function FrameKey(f: Frame): EventKey {
    EventKey(CString(f.originId), f.eventId)
  }

  /** The key under which a frame is recorded: the origin is cut to five characters. */
  function RecordedKey(f: Frame): EventKey {
    EventKey(CString(Cut(f.originId)), f.eventId)
  }

  // ---------------------------------------------------------------------
  // Flash: a key-value store with atomic put and remove
  // ---------------------------------------------------------------------

  datatype Slot =
    | Slot(magic: u32, record: Record, crc16: u16)
    | WrongSize

  type Nvs = map<nat, Slot>

  datatype ReadResult = Unreadable | Found(record: Record)

  function RecordBytes(r: Record): seq<u8> {
    [if r.used then 1 else 0] + r.originId + [0] + LE32(r.eventId) + [r.eventType] + r.firstSenderId + [0]
    + LE32(r.firstRxMs) + LE32(Unsigned32(r.latE7)) + LE32(Unsigned32(r.lonE7))
    + [r.batteryPct, r.hopCount] + LE16(Unsigned16(r.rssiDbm)) + LE16(r.attempt)
    + [r.status, r.protocolVersion] + LE16(r.payloadCrc16) + [0, 0]
  }

  function SlotCrc(magic: u32, r: Record): u16 {
    Crc.Crc16(LE32(magic) + RecordBytes(r))
  }

  function ReadSlot(nvs: Nvs, i: nat): ReadResult {
    if i !in nvs || nvs[i].WrongSize? then Unreadable
    else if nvs[i].magic != SLOT_MAGIC || nvs[i].crc16 != SlotCrc(nvs[i].magic, nvs[i].record) then Unreadable
    else Found(nvs[i].record)
  }

  /** A put that fails leaves the store as it was. */
  function WriteSlot(nvs: Nvs, i: nat, r: Record, ok: bool): Nvs {
    if i < MAX_NVS_SLOTS && ok then nvs[i := Slot(SLOT_MAGIC, r, SlotCrc(SLOT_MAGIC, r))] else nvs
  }

  /** So does a removal that fails. */
  function ClearSlot(nvs: Nvs, i: nat, ok: bool): Nvs {
    if i < MAX_NVS_SLOTS && ok then nvs - {i} else nvs
  }

  lemma ReadAfterWrite(nvs: Nvs, i: nat, r: Record, ok: bool, k: nat)
    ensures ReadSlot(WriteSlot(nvs, i, r, ok), k)
         == if k == i && i < MAX_NVS_SLOTS && ok then Found(r) else ReadSlot(nvs, k)
  {
    hide SlotCrc;
  }

  /** What can be read is exactly what a put has written, with its magic and its checksum. */
  lemma FoundIffWritten(nvs: Nvs, i: nat, r: Record)
    ensures ReadSlot(nvs, i) == Found(r) <==> i in nvs && nvs[i] == WriteSlot(map[], 0, r, true)[0]
  {
    hide SlotCrc;
  }

  lemma ReadAfterClear(nvs: Nvs, i: nat, ok: bool, k: nat)
    ensures ReadSlot(ClearSlot(nvs, i, ok), k)
         == if k == i && i < MAX_NVS_SLOTS && ok then Unreadable else ReadSlot(nvs, k)
  {
    hide SlotCrc;
  }

  // ---------------------------------------------------------------------
  // Specification
  // ---------------------------------------------------------------------

  datatype State = State(records: seq<Record>, nvs: Nvs)

  predicate Matches(r: Record, k: EventKey) {
    r.used && RecordKey(r) == k
  }

  /** The first record with key `k`, or the length. */
  function Find(rs: seq<Record>, k: EventKey): nat {
    if rs == [] || Matches(rs[0], k) then 0 else 1 + Find(rs[1..], k)
  }

  /** The first free record, or the length. */
  function FirstFree(rs: seq<Record>): nat {
    if rs == [] || !rs[0].used then 0 else 1 + FirstFree(rs[1..])
  }

  function UsedCount(rs: seq<Record>): nat
    decreases |rs|
  {
    if rs == [] then 0 else UsedCount(rs[..|rs| - 1]) + if rs[|rs| - 1].used then 1 else 0
  }

  lemma FindIsFirst(rs: seq<Record>, k: EventKey)
    ensures var i := Find(rs, k);
      && i <= |rs|
      && (i < |rs| ==> Matches(rs[i], k))
      && forall j :: 0 <= j < i ==> !Matches(rs[j], k)
  {
    if rs != [] && !Matches(rs[0], k) {
      FindIsFirst(rs[1..], k);
      var i := Find(rs[1..], k);
      forall j | 0 <= j < 1 + i
        ensures !Matches(rs[j], k)
      {
        if j > 0 {
          assert rs[j] == rs[1..][j - 1];
        }
      }
    }
  }

  lemma FindUnique(rs: seq<Record>, k: EventKey, i: nat)
    requires i <= |rs| && (i < |rs| ==> Matches(rs[i], k))
    requires forall j :: 0 <= j < i ==> !Matches(rs[j], k)
    ensures Find(rs, k) == i
  {
    FindIsFirst(rs, k);
  }

  lemma FirstFreeIsFirst(rs: seq<Record>)
    ensures var i := FirstFree(rs);
      && i <= |rs|
      && (i < |rs| ==> !rs[i].used)
      && forall j :: 0 <= j < i ==> rs[j].used
  {
    if rs != [] && rs[0].used {
      FirstFreeIsFirst(rs[1..]);
      var i := FirstFree(rs[1..]);
      forall j | 0 <= j < 1 + i
        ensures rs[j].used
      {
        if j > 0 {
          assert rs[j] == rs[1..][j - 1];
        }
      }
    }
  }

  lemma {:induction false} UsedCountUpdate(rs: seq<Record>, i: nat, r: Record)
    requires i < |rs|
    ensures UsedCount(rs[i := r]) == UsedCount(rs) - (if rs[i].used then 1 else 0) + (if r.used then 1 else 0)
    decreases |rs|
  {
    var n := |rs| - 1;
    var next := rs[i := r];
    if i < n {
      UsedCountUpdate(rs[..n], i, r);
      assert next[..n] == rs[..n][i := r];
    } else {
      assert next[..n] == rs[..n];
    }
  }

  /** What `appendIfNew` writes into a free record. */
  function NewRecord(f: Frame, now: u32): Record {
    Record(true, Cut(f.originId), f.eventId, f.eventType, Cut(f.senderId), now, f.latE7, f.lonE7,
           f.batteryPct, f.hopCount, f.lastRssiDbm, f.attempt, RECEIVED, f.protocolVersion, f.crc16)
  }

  /** `appendIfNew` stores the frame: its key is not recorded and a record is free. */
  predicate Stores(s: State, f: Frame) {
    Find(s.records, FrameKey(f)) >= |s.records| && FirstFree(s.records) < |s.records|
  }

  function Put(s: State, i: nat, r: Record, ok: bool): State
    requires i < |s.records|
  {
    State(s.records[i := r], WriteSlot(s.nvs, i, r, ok))
  }

  function Appended(s: State, f: Frame, now: u32, ok: bool): State {
    if Stores(s, f) then Put(s, FirstFree(s.records), NewRecord(f, now), ok) else s
  }

  function Queued(s: State, k: EventKey, ok: bool): State {
    var i := Find(s.records, k);
    if i < |s.records| then Put(s, i, s.records[i].(status := HOST_QUEUED), ok) else s
  }

  function Committed(s: State, k: EventKey, ok: bool): State {
    var i := Find(s.records, k);
    if i < |s.records| then
      State(s.records[i := s.records[i].(status := HOST_COMMITTED)], ClearSlot(s.nvs, i, ok))
    else s
  }

  // Boot -----------------------------------------------------------------

  /** The slot holds a used record that boot throws away: no origin, or already committed. */
  predicate Discarded(nvs: Nvs, i: nat) {
    match ReadSlot(nvs, i)
    case Unreadable => false
    case Found(r) => r.used && (r.originId[0] == 0 || r.status == HOST_COMMITTED)
  }

  function LoadedRecord(nvs: Nvs, i: nat): Record {
    match ReadSlot(nvs, i)
    case Unreadable => UNUSED
    case Found(r) =>
      if !r.used || r.originId[0] == 0 then UNUSED
      else if r.status == HOST_COMMITTED then r.(used := false)
      else r
  }

  /** The records after the first `n` slots have been read. */
  function LoadedRecords(nvs: Nvs, n: nat): (rs: seq<Record>)
    requires n <= MAX_NVS_SLOTS
    ensures |rs| == MAX_RECORDS
  {
    seq(MAX_RECORDS, i requires 0 <= i < MAX_RECORDS => if i < n then LoadedRecord(nvs, i) else UNUSED)
  }

  /** The flash after the first `n` slots have been read. */
  function Swept(nvs: Nvs, n: nat): Nvs {
    map i | i in nvs && !(i < n && Discarded(nvs, i)) :: nvs[i]
  }

  function Booted(nvs: Nvs): State {
    State(LoadedRecords(nvs, MAX_NVS_SLOTS), Swept(nvs, MAX_NVS_SLOTS))
  }

  // Replay ---------------------------------------------------------------

  predicate Uncommitted(r: Record) {
    r.used && r.status != HOST_COMMITTED
  }

  /** The positions below `n` of records that need replay. */
  function ReplayPositions(rs: seq<Record>, n: nat): seq<nat>
    requires n <= |rs|
  {
    if n == 0 then []
    else ReplayPositions(rs, n - 1) + if Uncommitted(rs[n - 1]) then [n - 1] else []
  }

  // ---------------------------------------------------------------------
  // The implementation
  // ---------------------------------------------------------------------

  class GatewayJournal {
    const records: array<Record>
    var count: nat
    var nvs: Nvs

    ghost predicate Valid()
      reads this, records
    {
      records.Length == MAX_RECORDS && count == UsedCount(records[..])
    }

    ghost function View(): State
      reads this, records
    {
      State(records[..], nvs)
    }

    constructor (flash: Nvs)
      ensures Valid() && fresh(records)
      ensures View() == State(seq(MAX_RECORDS, _ => UNUSED), flash) && nvs == flash
    {
      records := new Record[MAX_RECORDS](_ => UNUSED);
      count := 0;
      nvs := flash;
      new;
      assert records[..] == seq(MAX_RECORDS, _ => UNUSED);
      NoneUsed(records[..]);
    }

    method NvsWriteSlot(i: nat, ok: bool)
      requires i < records.Length
      modifies `nvs
      ensures nvs == WriteSlot(old(nvs), i, records[i], ok)
    {
      if i >= MAX_NVS_SLOTS {
        return;
      }
      var crc := Crc.CalcCrc16(LE32(SLOT_MAGIC) + RecordBytes(records[i]));
      if ok {
        nvs := nvs[i := Slot(SLOT_MAGIC, records[i], crc)];
      }
    }

    method NvsReadSlot(i: nat) returns (out: ReadResult)
      ensures out == ReadSlot(nvs, i)
    {
      if i !in nvs || nvs[i].WrongSize? {
        return Unreadable;
      }
      var slot := nvs[i];
      if slot.magic != SLOT_MAGIC {
        return Unreadable;
      }
      var expected := Crc.CalcCrc16(LE32(slot.magic) + RecordBytes(slot.record));
      if slot.crc16 != expected {
        return Unreadable;
      }
      return Found(slot.record);
    }

    method NvsClearSlot(i: nat, ok: bool)
      modifies `nvs
      ensures nvs == ClearSlot(old(nvs), i, ok)
    {
      if i < MAX_NVS_SLOTS && ok {
        nvs := nvs - {i};
      }
    }

    /** Reads the thirty slots into RAM, dropping and clearing what needs no replay. */
    method Init() returns (uncommitted: nat)
      requires Valid()
      modifies this, records
      ensures Valid()
      ensures View() == Booted(old(nvs))
      ensures uncommitted == count
    {
      hide ReadSlot, ClearSlot;
      ghost var flash := nvs;
      count := 0;
      for j := 0 to records.Length
        invariant forall k :: 0 <= k < j ==> records[k] == UNUSED
        invariant nvs == flash && count == 0
      {
        records[j] := UNUSED;
      }
      assert records[..] == LoadedRecords(flash, 0);
      NoneUsed(records[..]);
      assert nvs == Swept(flash, 0);
      uncommitted := 0;
      for i := 0 to MAX_NVS_SLOTS
        invariant records[..] == LoadedRecords(flash, i)
        invariant nvs == Swept(flash, i)
        invariant count == uncommitted == UsedCount(records[..])
      {
        SweptReads(flash, i, i);
        LoadStep(flash, i);
        SweepStep(flash, i);
        var slot := NvsReadSlot(i);
        if slot.Unreadable? {
          continue;
        }
        var rec := slot.record;
        if !rec.used {
          continue;
        }
        if rec.originId[0] == 0 {
          NvsClearSlot(i, true);
          continue;
        }
        ghost var before := records[..];
        records[i] := rec;
        count := count + 1;
        if rec.status != HOST_COMMITTED {
          uncommitted := uncommitted + 1;
        } else {
          NvsClearSlot(i, true);
          records[i] := records[i].(used := false);
          count := count - 1;
        }
        assert records[..] == before[i := LoadedRecord(flash, i)];
        UsedCountUpdate(before, i, LoadedRecord(flash, i));
      }
    }

    method ReplayCount() returns (n: nat)
      requires Valid()
      ensures n == |ReplayPositions(records[..], MAX_RECORDS)|
    {
      n := 0;
      for i := 0 to MAX_RECORDS
        invariant n == |ReplayPositions(records[..], i)|
      {
        if records[i].used && records[i].status != HOST_COMMITTED {
          n := n + 1;
        }
      }
    }

    /** Selects by rank: the position of the `rank`-th record that needs replay. */
    method GetReplayRecord(rank: nat) returns (found: bool, at: nat)
      requires Valid()
      ensures found <==> rank < |ReplayPositions(records[..], MAX_RECORDS)|
      ensures found ==> at == ReplayPositions(records[..], MAX_RECORDS)[rank]
    {
      var n := 0;
      for i := 0 to MAX_RECORDS
        invariant n == |ReplayPositions(records[..], i)| <= rank
      {
        if records[i].used && records[i].status != HOST_COMMITTED {
          if n == rank {
            PositionsPrefix(records[..], i + 1, MAX_RECORDS);
            assert ReplayPositions(records[..], i + 1)[rank] == i;
            return true, i;
          }
          n := n + 1;
        }
      }
      return false, 0;
    }

    method FindIndex(k: EventKey) returns (i: int)
      requires Valid()
      ensures var at := Find(records[..], k); i == if at < MAX_RECORDS then at else -1
    {
      for j := 0 to MAX_RECORDS
        invariant forall l :: 0 <= l < j ==> !Matches(records[l], k)
      {
        if records[j].used && RecordKey(records[j]) == k {
          FindUnique(records[..], k, j);
          return j;
        }
      }
      FindUnique(records[..], k, MAX_RECORDS);
      return -1;
    }

    method AppendIfNew(frame: Frame, now: u32, writeOk: bool) returns (stored: bool)
      requires Valid()
      modifies this, records
      ensures Valid()
      ensures stored == Stores(old(View()), frame)
      ensures View() == Appended(old(View()), frame, now, writeOk)
    {
      hide Cut, CString, WriteSlot;
      ghost var before := records[..];
      var at := FindIndex(FrameKey(frame));
      FindIsFirst(before, FrameKey(frame));
      FirstFreeIsFirst(before);
      if at >= 0 {
        return false;
      }
      for i := 0 to MAX_RECORDS
        invariant records[..] == before
        invariant forall j :: 0 <= j < i ==> before[j].used
        invariant View() == old(View()) && Valid()
      {
        if records[i].used {
          continue;
        }
        assert FirstFree(before) == i;
        records[i] := NewRecord(frame, now);
        assert records[..] == before[i := NewRecord(frame, now)];
        UsedCountUpdate(before, i, NewRecord(frame, now));
        count := count + 1;
        NvsWriteSlot(i, writeOk);
        return true;
      }
      return false;
    }

    method MarkHostQueued(k: EventKey, writeOk: bool) returns (found: bool)
      requires Valid()
      modifies this, records
      ensures Valid()
      ensures found <==> Find(old(records[..]), k) < MAX_RECORDS
      ensures View() == Queued(old(View()), k, writeOk)
    {
      ghost var before := records[..];
      var i := FindIndex(k);
      if i < 0 {
        return false;
      }
      records[i] := records[i].(status := HOST_QUEUED);
      assert records[..] == before[i := before[i].(status := HOST_QUEUED)];
      UsedCountUpdate(before, i, records[i]);
      NvsWriteSlot(i, writeOk);
      return true;
    }

    method MarkHostCommitted(k: EventKey, removeOk: bool) returns (found: bool)
      requires Valid()
      modifies this, records
      ensures Valid()
      ensures found <==> Find(old(records[..]), k) < MAX_RECORDS
      ensures View() == Committed(old(View()), k, removeOk)
    {
      ghost var before := records[..];
      var i := FindIndex(k);
      if i < 0 {
        return false;
      }
      records[i] := records[i].(status := HOST_COMMITTED);
      assert records[..] == before[i := before[i].(status := HOST_COMMITTED)];
      UsedCountUpdate(before, i, records[i]);
      NvsClearSlot(i, removeOk);
      return true;
    }
  }

  lemma {:induction false} NoneUsed(rs: seq<Record>)
    requires forall i :: 0 <= i < |rs| ==> rs[i] == UNUSED
    ensures UsedCount(rs) == 0
    decreases |rs|
  {
    if rs != [] {
      NoneUsed(rs[..|rs| - 1]);
    }
  }

  lemma LoadStep(nvs: Nvs, i: nat)
    requires i < MAX_NVS_SLOTS
    ensures LoadedRecords(nvs, i + 1) == LoadedRecords(nvs, i)[i := LoadedRecord(nvs, i)]
    ensures LoadedRecords(nvs, i)[i] == UNUSED
  {
  }

  lemma SweptReads(nvs: Nvs, n: nat, k: nat)
    ensures ReadSlot(Swept(nvs, n), k) == if k < n && Discarded(nvs, k) then Unreadable else ReadSlot(nvs, k)
  {
    hide SlotCrc;
  }

  lemma SweepStep(nvs: Nvs, i: nat)
    requires i < MAX_NVS_SLOTS
    ensures Swept(nvs, i + 1) == if Discarded(nvs, i) then ClearSlot(Swept(nvs, i), i, true) else Swept(nvs, i)
  {
    hide ReadSlot;
  }

  lemma {:induction false} PositionsPrefix(rs: seq<Record>, m: nat, n: nat)
    requires m <= n <= |rs|
    ensures ReplayPositions(rs, m) <= ReplayPositions(rs, n)
  {
    if m < n {
      PositionsPrefix(rs, m, n - 1);
    }
  }
}
