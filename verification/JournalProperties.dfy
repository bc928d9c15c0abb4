/** What the journal keeps over every sequence of operations, failed writes and reboots. */
module JournalProperties {
  import opened Bytes
  import opened Frames
  import opened Journal

  /** One persistence step. A reboot loses the RAM at any point; `cuts` lists boots that
      were themselves interrupted after so many slots, before the one that completes. */
  datatype Action =
    | Append(frame: Frame, now: u32, ok: bool)
    | Queue(key: EventKey, ok: bool)
    | Commit(key: EventKey, ok: bool)
    | Reboot(cuts: seq<nat>)

  function AfterCuts(nvs: Nvs, cuts: seq<nat>): Nvs
    decreases |cuts|
  {
    if cuts == [] then nvs else AfterCuts(Swept(nvs, cuts[0]), cuts[1..])
  }

  function Step(s: State, a: Action): State {
    match a
    case Append(f, now, ok) => Appended(s, f, now, ok)
    case Queue(k, ok) => Queued(s, k, ok)
    case Commit(k, ok) => Committed(s, k, ok)
    case Reboot(cuts) => Booted(AfterCuts(s.nvs, cuts))
  }

  function Run(s: State, acts: seq<Action>): State
    decreases |acts|
  {
    if acts == [] then s else Run(Step(s, acts[0]), acts[1..])
  }

  /** Slot `i` holds a readable record in use; boot loads it unless it discards it. */
  predicate Live(nvs: Nvs, i: nat) {
    ReadSlot(nvs, i).Found? && ReadSlot(nvs, i).record.used
  }

  /** Everything but the delivery status. */
  predicate SamePayload(r: Record, s: Record) {
    r == s.(status := r.status)
  }

  lemma {:induction false} CutsRead(nvs: Nvs, cuts: seq<nat>, k: nat)
    ensures ReadSlot(AfterCuts(nvs, cuts), k) == ReadSlot(nvs, k)
         || (Discarded(nvs, k) && ReadSlot(AfterCuts(nvs, cuts), k) == Unreadable)
    decreases |cuts|
  {
    hide ReadSlot;
    if cuts != [] {
      SweptReads(nvs, cuts[0], k);
      CutsRead(Swept(nvs, cuts[0]), cuts[1..], k);
    }
  }

  // ---------------------------------------------------------------------
  // Representation invariant
  // ---------------------------------------------------------------------

  ghost predicate Distinct(rs: seq<Record>) {
    forall i, j :: 0 <= i < j < |rs| && rs[i].used && rs[j].used ==> RecordKey(rs[i]) != RecordKey(rs[j])
  }

  predicate KnownStatus(r: Record) {
    r.status in {RECEIVED, HOST_QUEUED, HOST_COMMITTED}
  }

  /** A slot never holds what RAM does not, nor a later status than RAM. */
  ghost predicate SlotBacked(s: State, i: nat)
    requires i < |s.records|
  {
    Live(s.nvs, i) ==>
      var kept := ReadSlot(s.nvs, i).record;
      && s.records[i].used && SamePayload(kept, s.records[i])
      && kept.status in {RECEIVED, HOST_QUEUED} && kept.status <= s.records[i].status
  }

  ghost predicate Inv(s: State) {
    && |s.records| == MAX_RECORDS
    && Distinct(s.records)
    && (forall i :: 0 <= i < MAX_RECORDS && s.records[i].used ==> KnownStatus(s.records[i]))
    && forall i :: 0 <= i < MAX_NVS_SLOTS ==> SlotBacked(s, i)
  }

  /** What may be found in flash at first boot: statuses the gateway writes, and no two
      slots with the same key. */
  ghost predicate NvsSound(nvs: Nvs) {
    && (forall i :: 0 <= i < MAX_NVS_SLOTS && Live(nvs, i) ==> KnownStatus(ReadSlot(nvs, i).record))
    && forall i, j :: 0 <= i < j < MAX_NVS_SLOTS && Live(nvs, i) && Live(nvs, j) ==>
         RecordKey(ReadSlot(nvs, i).record) != RecordKey(ReadSlot(nvs, j).record)
  }

  lemma BootInv(nvs: Nvs)
    requires NvsSound(nvs)
    ensures Inv(Booted(nvs))
  {
    hide ReadSlot, CString;
    var s := Booted(nvs);
    forall i | 0 <= i < MAX_NVS_SLOTS
      ensures SlotBacked(s, i)
    {
      SweptReads(nvs, MAX_NVS_SLOTS, i);
    }
  }

  lemma InvGivesNvsSound(s: State)
    requires Inv(s)
    ensures NvsSound(s.nvs)
  {
    hide ReadSlot, CString;
    forall i | 0 <= i < MAX_NVS_SLOTS && Live(s.nvs, i)
      ensures KnownStatus(ReadSlot(s.nvs, i).record)
    {
      assert SlotBacked(s, i);
    }
    forall i, j | 0 <= i < j < MAX_NVS_SLOTS && Live(s.nvs, i) && Live(s.nvs, j)
      ensures RecordKey(ReadSlot(s.nvs, i).record) != RecordKey(ReadSlot(s.nvs, j).record)
    {
      assert SlotBacked(s, i) && SlotBacked(s, j);
    }
  }

  lemma CutsKeepSound(nvs: Nvs, cuts: seq<nat>)
    requires NvsSound(nvs)
    ensures NvsSound(AfterCuts(nvs, cuts))
  {
    hide ReadSlot, CString;
    var after := AfterCuts(nvs, cuts);
    forall i | 0 <= i < MAX_NVS_SLOTS && Live(after, i)
      ensures KnownStatus(ReadSlot(after, i).record)
    {
      CutsRead(nvs, cuts, i);
    }
    forall i, j | 0 <= i < j < MAX_NVS_SLOTS && Live(after, i) && Live(after, j)
      ensures RecordKey(ReadSlot(after, i).record) != RecordKey(ReadSlot(after, j).record)
    {
      CutsRead(nvs, cuts, i);
      CutsRead(nvs, cuts, j);
    }
  }

  /** `Append` stores a key that is not recorded yet, or nothing. */
  predicate AppendsNewKey(s: State, f: Frame) {
    !Stores(s, f) || Find(s.records, RecordedKey(f)) >= |s.records|
  }

  lemma AppendKeepsDistinctIff(s: State, f: Frame, now: u32, ok: bool)
    requires Distinct(s.records)
    ensures Distinct(Appended(s, f, now, ok).records) <==> AppendsNewKey(s, f)
  {
    hide CString, Cut, WriteSlot;
    var k := RecordedKey(f);
    FindIsFirst(s.records, k);
    FirstFreeIsFirst(s.records);
    if Stores(s, f) {
      var i := FirstFree(s.records);
      var next := Appended(s, f, now, ok).records;
      assert RecordKey(next[i]) == k;
      var at := Find(s.records, k);
      if at < |s.records| {
        assert next[at] == s.records[at] && at != i;
      }
    }
  }

  /** Terminated identifiers are recorded under the key they are looked up by. */
  lemma TerminatedAppendsNewKey(s: State, f: Frame)
    requires Terminated(f.originId)
    ensures AppendsNewKey(s, f) && RecordedKey(f) == FrameKey(f)
  {
    CutKeepsName(f.originId);
  }

  ghost predicate AlwaysDistinct(f: Frame) {
    forall s: State, now, ok :: Distinct(s.records) ==> Distinct(Appended(s, f, now, ok).records)
  }

  /** The frames that no journal stores twice are exactly those with a terminated origin. */
  lemma DistinctIffTerminated(f: Frame)
    ensures AlwaysDistinct(f) <==> Terminated(f.originId)
  {
    hide CString, Cut, Distinct, Appended;
    if Terminated(f.originId) {
      forall s: State, now, ok | Distinct(s.records)
        ensures Distinct(Appended(s, f, now, ok).records)
      {
        TerminatedAppendsNewKey(s, f);
        AppendKeepsDistinctIff(s, f, now, ok);
      }
    } else {
      var once := UnterminatedAppendedTwice(f);
    }
  }

  /** An unterminated origin is recorded under five characters and not found again: the second
      copy of the same frame makes the keys collide. */
  lemma UnterminatedAppendedTwice(f: Frame) returns (once: State)
    requires !Terminated(f.originId)
    ensures once == Appended(Booted(map[]), f, 0, true) && Stores(once, f)
    ensures Distinct(once.records) && !Distinct(Appended(once, f, 0, true).records)
  {
    var empty := Booted(map[]);
    assert forall i :: 0 <= i < MAX_RECORDS ==> !empty.records[i].used;
    hide CString, Cut;
    FindUnique(empty.records, FrameKey(f), MAX_RECORDS);
    FindUnique(empty.records, RecordedKey(f), MAX_RECORDS);
    FirstFreeIsFirst(empty.records);
    AppendKeepsDistinctIff(empty, f, 0, true);
    once := Appended(empty, f, 0, true);
    CutKeepsName(f.originId);
    FindUnique(once.records, FrameKey(f), MAX_RECORDS);
    assert !once.records[1].used;
    FirstFreeIsFirst(once.records);
    FindUnique(once.records, RecordedKey(f), 0);
    AppendKeepsDistinctIff(once, f, 0, true);
  }

  /** Stores whose frames carry C strings as origins, as all builders make them. */
  ghost predicate WellFormed(a: Action) {
    a.Append? ==> Terminated(a.frame.originId)
  }

  lemma StepKeepsInv(s: State, a: Action)
    requires Inv(s) && WellFormed(a)
    ensures Inv(Step(s, a))
  {
    hide ReadSlot, WriteSlot, ClearSlot, CString, Cut, Swept;
    var t := Step(s, a);
    match a
    case Append(f, now, ok) =>
      TerminatedAppendsNewKey(s, f);
      AppendKeepsDistinctIff(s, f, now, ok);
      FirstFreeIsFirst(s.records);
      forall i | 0 <= i < MAX_NVS_SLOTS
        ensures SlotBacked(t, i)
      {
        assert SlotBacked(s, i);
        ReadAfterWrite(s.nvs, FirstFree(s.records), NewRecord(f, now), ok, i);
      }
    case Queue(k, ok) =>
      FindIsFirst(s.records, k);
      var at := Find(s.records, k);
      forall i | 0 <= i < MAX_NVS_SLOTS
        ensures SlotBacked(t, i)
      {
        assert SlotBacked(s, i);
        if at < MAX_RECORDS {
          ReadAfterWrite(s.nvs, at, s.records[at].(status := HOST_QUEUED), ok, i);
        }
      }
    case Commit(k, ok) =>
      FindIsFirst(s.records, k);
      forall i | 0 <= i < MAX_NVS_SLOTS
        ensures SlotBacked(t, i)
      {
        assert SlotBacked(s, i);
        ReadAfterClear(s.nvs, Find(s.records, k), ok, i);
      }
    case Reboot(cuts) =>
      InvGivesNvsSound(s);
      CutsKeepSound(s.nvs, cuts);
      BootInv(AfterCuts(s.nvs, cuts));
  }

  /** Nothing that RAM has committed would be restored. */
  ghost predicate CommitsCleared(s: State) {
    |s.records| == MAX_RECORDS && forall i :: 0 <= i < MAX_NVS_SLOTS && Live(s.nvs, i) ==> Uncommitted(s.records[i])
  }

  lemma BootCleared(nvs: Nvs)
    ensures CommitsCleared(Booted(nvs))
  {
    hide ReadSlot;
    forall i | 0 <= i < MAX_NVS_SLOTS && Live(Booted(nvs).nvs, i)
      ensures Uncommitted(Booted(nvs).records[i])
    {
      SweptReads(nvs, MAX_NVS_SLOTS, i);
    }
  }

  lemma StepKeepsCleared(s: State, a: Action)
    requires Inv(s) && CommitsCleared(s) && (a.Commit? ==> a.ok)
    ensures CommitsCleared(Step(s, a))
  {
    hide ReadSlot, WriteSlot, ClearSlot, CString, Cut, Swept;
    var t := Step(s, a);
    if a.Reboot? {
      BootCleared(AfterCuts(s.nvs, a.cuts));
    } else {
      FirstFreeIsFirst(s.records);
      if !a.Append? {
        FindIsFirst(s.records, a.key);
      }
      forall i | 0 <= i < MAX_NVS_SLOTS && Live(t.nvs, i)
        ensures Uncommitted(t.records[i])
      {
        match a
        case Append(f, now, ok) => ReadAfterWrite(s.nvs, FirstFree(s.records), NewRecord(f, now), ok, i);
        case Commit(k, ok) => ReadAfterClear(s.nvs, Find(s.records, k), ok, i);
        case Queue(k, ok) =>
          if Find(s.records, k) < MAX_RECORDS {
            ReadAfterWrite(s.nvs, Find(s.records, k), s.records[Find(s.records, k)].(status := HOST_QUEUED), ok, i);
          }
      }
    }
  }

  /** The invariant holds after every run from boot, whatever writes and removals fail and
      wherever the reboots fall; if only the removals of commits succeed, then in addition nothing
      that RAM has committed would be restored. */
  lemma {:induction false} RunKeepsInv(s: State, acts: seq<Action>)
    requires Inv(s) && forall a :: a in acts ==> WellFormed(a)
    ensures Inv(Run(s, acts))
    ensures CommitsCleared(s) && (forall a :: a in acts ==> a.Commit? ==> a.ok) ==> CommitsCleared(Run(s, acts))
    decreases |acts|
  {
    hide Inv, CommitsCleared, Step;
    if acts != [] {
      StepKeepsInv(s, acts[0]);
      if CommitsCleared(s) && (acts[0].Commit? ==> acts[0].ok) {
        StepKeepsCleared(s, acts[0]);
      }
      RunKeepsInv(Step(s, acts[0]), acts[1..]);
      assert acts[0] in acts;
    }
  }

  // ---------------------------------------------------------------------
  // When every write succeeds, flash mirrors RAM exactly
  // ---------------------------------------------------------------------

  ghost predicate SlotExact(s: State, i: nat)
    requires i < |s.records|
  {
    if Uncommitted(s.records[i]) then ReadSlot(s.nvs, i) == Found(s.records[i]) else !Live(s.nvs, i)
  }

  ghost predicate Exact(s: State) {
    |s.records| == MAX_RECORDS && forall i :: 0 <= i < MAX_NVS_SLOTS ==> SlotExact(s, i)
  }

  predicate WritesSucceed(a: Action) {
    a.Append? || a.Queue? || a.Commit? ==> a.ok
  }

  lemma BootExact(nvs: Nvs)
    ensures Exact(Booted(nvs))
  {
    hide ReadSlot;
    forall i | 0 <= i < MAX_NVS_SLOTS
      ensures SlotExact(Booted(nvs), i)
    {
      SweptReads(nvs, MAX_NVS_SLOTS, i);
    }
  }

  lemma StepKeepsExact(s: State, a: Action)
    requires Exact(s) && WritesSucceed(a)
    ensures Exact(Step(s, a))
  {
    hide ReadSlot, WriteSlot, ClearSlot, CString, Cut, Swept;
    var t := Step(s, a);
    if a.Reboot? {
      BootExact(AfterCuts(s.nvs, a.cuts));
    } else {
      FirstFreeIsFirst(s.records);
      if !a.Append? {
        FindIsFirst(s.records, a.key);
      }
      forall i | 0 <= i < MAX_NVS_SLOTS
        ensures SlotExact(t, i)
      {
        assert SlotExact(s, i);
        match a
        case Append(f, now, ok) => ReadAfterWrite(s.nvs, FirstFree(s.records), NewRecord(f, now), ok, i);
        case Commit(k, ok) => ReadAfterClear(s.nvs, Find(s.records, k), ok, i);
        case Queue(k, ok) =>
          if Find(s.records, k) < MAX_RECORDS {
            ReadAfterWrite(s.nvs, Find(s.records, k), s.records[Find(s.records, k)].(status := HOST_QUEUED), ok, i);
          }
      }
    }
  }

  /** From any boot on, over every run whose writes succeed, each mirrored slot is exactly its
      record while that is in use and uncommitted, and otherwise restores nothing. */
  lemma {:induction false} RunKeepsExact(s: State, acts: seq<Action>)
    requires Exact(s) && forall a :: a in acts ==> WritesSucceed(a)
    ensures Exact(Run(s, acts))
    decreases |acts|
  {
    hide Exact, Step;
    if acts != [] {
      StepKeepsExact(s, acts[0]);
      RunKeepsExact(Step(s, acts[0]), acts[1..]);
    }
  }

  // ---------------------------------------------------------------------
  // Durability
  // ---------------------------------------------------------------------

  /** Flash slot `i` would restore `r`. */
  predicate Restorable(nvs: Nvs, i: nat, r: Record) {
    && i < MAX_NVS_SLOTS && Live(nvs, i)
    && SamePayload(ReadSlot(nvs, i).record, r)
    && ReadSlot(nvs, i).record.status != HOST_COMMITTED
    && r.originId[0] != 0
  }

  /** And RAM holds it too. */
  predicate Durable(s: State, i: nat, r: Record) {
    Restorable(s.nvs, i, r) && |s.records| == MAX_RECORDS && s.records[i].used && SamePayload(s.records[i], r)
  }

  /** Boot has the record at its index exactly if its slot would restore it, and keeps the slot. */
  lemma BootRestores(nvs: Nvs, i: nat, r: Record)
    requires i < MAX_RECORDS
    ensures var loaded := Booted(nvs).records[i];
      loaded.used && SamePayload(loaded, r) <==> Restorable(nvs, i, r)
    ensures Durable(Booted(nvs), i, r) <==> Restorable(nvs, i, r)
  {
    hide ReadSlot, CString, Swept;
    SweptReads(nvs, MAX_NVS_SLOTS, i);
  }

  /** Storing a record in a mirrored slot with a successful write makes it durable. */
  lemma AppendIsDurable(s: State, f: Frame, now: u32)
    requires |s.records| == MAX_RECORDS && Stores(s, f) && FirstFree(s.records) < MAX_NVS_SLOTS
    requires f.originId[0] != 0
    ensures Durable(Appended(s, f, now, true), FirstFree(s.records), NewRecord(f, now))
  {
    hide ReadSlot, WriteSlot;
    var i := FirstFree(s.records);
    ReadAfterWrite(s.nvs, i, NewRecord(f, now), true, i);
  }

  predicate Removes(a: Action, k: EventKey) {
    a.Commit? && a.key == k && a.ok
  }

  lemma StepKeepsDurable(s: State, a: Action, i: nat, r: Record)
    requires Durable(s, i, r) && !Removes(a, RecordKey(r))
    ensures Durable(Step(s, a), i, r)
  {
    hide ReadSlot, WriteSlot, ClearSlot, CString, Cut, Swept;
    match a
    case Append(f, now, ok) =>
      FirstFreeIsFirst(s.records);
      ReadAfterWrite(s.nvs, FirstFree(s.records), NewRecord(f, now), ok, i);
    case Queue(k, ok) =>
      FindIsFirst(s.records, k);
      var at := Find(s.records, k);
      if at < MAX_RECORDS {
        ReadAfterWrite(s.nvs, at, s.records[at].(status := HOST_QUEUED), ok, i);
      }
    case Commit(k, ok) =>
      FindIsFirst(s.records, k);
      ReadAfterClear(s.nvs, Find(s.records, k), ok, i);
    case Reboot(cuts) =>
      CutsRead(s.nvs, cuts, i);
      SweptReads(AfterCuts(s.nvs, cuts), MAX_NVS_SLOTS, i);
  }

  /** A durable record is at the same index with the same key and payload after every run
      of operations, failed writes and removals, and reboots in which no removal of it succeeds. */
  lemma {:induction false} DurableUntilRemoved(s: State, acts: seq<Action>, i: nat, r: Record)
    requires Durable(s, i, r)
    requires forall a :: a in acts ==> !Removes(a, RecordKey(r))
    ensures Durable(Run(s, acts), i, r)
    decreases |acts|
  {
    if acts != [] {
      StepKeepsDurable(s, acts[0], i, r);
      DurableUntilRemoved(Step(s, acts[0]), acts[1..], i, r);
    }
  }

  /** No slot holds a record in use with key `k`. */
  ghost predicate Gone(nvs: Nvs, k: EventKey) {
    forall i :: 0 <= i < MAX_NVS_SLOTS && Live(nvs, i) ==> RecordKey(ReadSlot(nvs, i).record) != k
  }

  /** After a commit no slot holds the key, unless one did and its removal failed. */
  lemma CommitMakesGone(s: State, k: EventKey, ok: bool)
    requires Inv(s)
    ensures Gone(Committed(s, k, ok).nvs, k) <==> ok || Gone(s.nvs, k)
  {
    hide ReadSlot, ClearSlot, CString;
    FindIsFirst(s.records, k);
    var nvs := Committed(s, k, ok).nvs;
    forall i | 0 <= i < MAX_NVS_SLOTS
      ensures ReadSlot(nvs, i) == ReadSlot(s.nvs, i) || (ok && ReadSlot(nvs, i) == Unreadable)
      ensures ok && Live(nvs, i) ==> RecordKey(ReadSlot(nvs, i).record) != k
    {
      assert SlotBacked(s, i);
      ReadAfterClear(s.nvs, Find(s.records, k), ok, i);
    }
    if !ok && !Gone(s.nvs, k) {
      var i :| 0 <= i < MAX_NVS_SLOTS && Live(s.nvs, i) && RecordKey(ReadSlot(s.nvs, i).record) == k;
      assert Live(nvs, i) && RecordKey(ReadSlot(nvs, i).record) == k;
    }
  }

  /** Boot loads a record with key `k`. */
  predicate Reloads(nvs: Nvs, k: EventKey) {
    Find(Booted(nvs).records, k) < MAX_RECORDS
  }

  /** A committed event is reloaded exactly if it would have been before and its removal failed. */
  lemma CommitReloadedIff(s: State, k: EventKey, ok: bool)
    requires Inv(s)
    ensures Reloads(Committed(s, k, ok).nvs, k) <==> !ok && Reloads(s.nvs, k)
  {
    hide ReadSlot, CString;
    CommitMakesGone(s, k, ok);
    GoneNotReloaded(Committed(s, k, ok).nvs, k);
  }

  lemma GoneNotReloaded(nvs: Nvs, k: EventKey)
    ensures Gone(nvs, k) ==> !Reloads(nvs, k)
  {
    hide ReadSlot, CString;
    FindIsFirst(Booted(nvs).records, k);
    var i := Find(Booted(nvs).records, k);
    if i < MAX_RECORDS {
      assert i < MAX_NVS_SLOTS && Live(nvs, i);
    }
  }

  /** It does happen, to every event with a terminated, non-empty origin: stored, queued, committed
      with a removal that fails, and loaded again. */
  lemma CommittedReloaded(f: Frame, now: u32)
    requires Terminated(f.originId) && f.originId[0] != 0
    ensures var once := Appended(Booted(map[]), f, now, true);
      var done := Committed(Queued(once, FrameKey(f), true), FrameKey(f), false);
      && done.records[0].used && done.records[0].status == HOST_COMMITTED
      && RecordKey(done.records[0]) == FrameKey(f)
      && Reloads(done.nvs, FrameKey(f))
  {
    var empty := Booted(map[]);
    var k := FrameKey(f);
    assert forall i :: 0 <= i < MAX_RECORDS ==> !empty.records[i].used;
    hide ReadSlot, WriteSlot, CString, Cut;
    FindUnique(empty.records, k, MAX_RECORDS);
    FirstFreeIsFirst(empty.records);
    TerminatedAppendsNewKey(empty, f);
    var once := Appended(empty, f, now, true);
    FindUnique(once.records, k, 0);
    var queued := Queued(once, k, true);
    ReadAfterWrite(once.nvs, 0, queued.records[0], true, 0);
    FindUnique(queued.records, k, 0);
    var done := Committed(queued, k, false);
    assert ReadSlot(done.nvs, 0) == Found(queued.records[0]);
    CutKeepsFirst(f.originId);
    var loaded := Booted(done.nvs).records;
    assert loaded[0] == queued.records[0];
    FindUnique(loaded, k, 0);
  }

  lemma CutKeepsFirst(a: Id)
    ensures Cut(a)[0] == a[0]
  {
    CStringIsPrefix(a);
    assert a[0] != 0 ==> CString(a) != [];
  }

  lemma StepKeepsGone(s: State, a: Action, k: EventKey)
    requires |s.records| == MAX_RECORDS && Gone(s.nvs, k)
    requires !(a.Append? && RecordedKey(a.frame) == k) && !(a.Queue? && a.key == k)
    ensures Gone(Step(s, a).nvs, k)
  {
    hide ReadSlot, WriteSlot, ClearSlot, CString, Cut, Swept;
    var t := Step(s, a);
    FirstFreeIsFirst(s.records);
    if !a.Append? && !a.Reboot? {
      FindIsFirst(s.records, a.key);
    }
    forall i | 0 <= i < MAX_NVS_SLOTS && Live(t.nvs, i)
      ensures RecordKey(ReadSlot(t.nvs, i).record) != k
    {
      match a
      case Append(f, now, ok) => ReadAfterWrite(s.nvs, FirstFree(s.records), NewRecord(f, now), ok, i);
      case Commit(key, ok) => ReadAfterClear(s.nvs, Find(s.records, key), ok, i);
      case Queue(key, ok) =>
        if Find(s.records, key) < MAX_RECORDS {
          ReadAfterWrite(s.nvs, Find(s.records, key), s.records[Find(s.records, key)].(status := HOST_QUEUED), ok, i);
        }
      case Reboot(cuts) =>
        CutsRead(s.nvs, cuts, i);
        SweptReads(AfterCuts(s.nvs, cuts), MAX_NVS_SLOTS, i);
    }
  }

  /** A committed event is never reloaded, unless it is received or queued again. */
  lemma {:induction false} CommittedStaysGone(s: State, acts: seq<Action>, k: EventKey)
    requires |s.records| == MAX_RECORDS && Gone(s.nvs, k)
    requires forall a :: a in acts ==> !(a.Append? && RecordedKey(a.frame) == k) && !(a.Queue? && a.key == k)
    ensures Gone(Run(s, acts).nvs, k)
    decreases |acts|
  {
    if acts != [] {
      StepKeepsGone(s, acts[0], k);
      StepLength(s, acts[0]);
      CommittedStaysGone(Step(s, acts[0]), acts[1..], k);
    }
  }

  lemma StepLength(s: State, a: Action)
    requires |s.records| == MAX_RECORDS
    ensures |Step(s, a).records| == MAX_RECORDS
  {
  }

  // ---------------------------------------------------------------------
  // Capacity within one boot
  // ---------------------------------------------------------------------

  /** First fit: nothing lies beyond the mirrored slots while one of them is free. */
  ghost predicate FirstFit(rs: seq<Record>) {
    && |rs| == MAX_RECORDS
    && forall i, j :: 0 <= i < MAX_NVS_SLOTS <= j < MAX_RECORDS && rs[j].used ==> rs[i].used
  }

  lemma {:induction false} CountBounds(rs: seq<Record>)
    ensures UsedCount(rs) <= |rs|
    ensures UsedCount(rs) == |rs| <==> forall i :: 0 <= i < |rs| ==> rs[i].used
    decreases |rs|
  {
    if rs != [] {
      var n := |rs| - 1;
      CountBounds(rs[..n]);
      assert forall i :: 0 <= i < n ==> rs[..n][i] == rs[i];
    }
  }

  lemma {:induction false} CountSplit(rs: seq<Record>, n: nat)
    requires n <= |rs|
    ensures UsedCount(rs) == UsedCount(rs[..n]) + UsedCount(rs[n..])
    decreases |rs|
  {
    if n == |rs| {
      assert rs[..n] == rs && rs[n..] == [];
    } else {
      var m := |rs| - 1;
      CountSplit(rs[..m], n);
      assert rs[..m][..n] == rs[..n] && rs[..m][n..] == rs[n..][..m - n];
    }
  }

  lemma {:induction false} CountZero(rs: seq<Record>)
    requires forall i :: 0 <= i < |rs| ==> !rs[i].used
    ensures UsedCount(rs) == 0
    decreases |rs|
  {
    if rs != [] {
      CountZero(rs[..|rs| - 1]);
    }
  }

  /** Under first fit the number of used records alone tells where the next one goes. */
  lemma NextSlot(rs: seq<Record>)
    requires FirstFit(rs)
    ensures FirstFree(rs) < MAX_RECORDS <==> UsedCount(rs) < MAX_RECORDS
    ensures FirstFree(rs) < MAX_NVS_SLOTS <==> UsedCount(rs) < MAX_NVS_SLOTS
  {
    FirstFreeIsFirst(rs);
    CountBounds(rs);
    var low, high := rs[..MAX_NVS_SLOTS], rs[MAX_NVS_SLOTS..];
    CountSplit(rs, MAX_NVS_SLOTS);
    CountBounds(low);
    var i := FirstFree(rs);
    if i < MAX_NVS_SLOTS {
      assert !low[i].used;
      forall j | 0 <= j < |high|
        ensures !high[j].used
      {
        assert high[j] == rs[MAX_NVS_SLOTS + j];
      }
      CountZero(high);
    } else {
      assert forall j :: 0 <= j < |low| ==> low[j] == rs[j];
    }
  }

  predicate WithinBoot(a: Action) {
    !a.Reboot?
  }

  /** How many appends of a run were stored. */
  function StoredCount(s: State, acts: seq<Action>): nat
    decreases |acts|
  {
    if acts == [] then 0
    else (if acts[0].Append? && Stores(s, acts[0].frame) then 1 else 0) + StoredCount(Step(s, acts[0]), acts[1..])
  }

  /** Changing a record that is used, or the first one that is free. */
  lemma PutCounts(rs: seq<Record>, i: nat, r: Record)
    requires FirstFit(rs) && i < MAX_RECORDS && r.used && (rs[i].used || i == FirstFree(rs))
    ensures FirstFit(rs[i := r])
    ensures UsedCount(rs[i := r]) == UsedCount(rs) + if rs[i].used then 0 else 1
  {
    hide UsedCount;
    FirstFreeIsFirst(rs);
    UsedCountUpdate(rs, i, r);
  }

  lemma StepCounts(s: State, a: Action)
    requires FirstFit(s.records) && WithinBoot(a)
    ensures FirstFit(Step(s, a).records)
    ensures UsedCount(Step(s, a).records) == UsedCount(s.records) + if a.Append? && Stores(s, a.frame) then 1 else 0
  {
    hide WriteSlot, ClearSlot, CString, Cut, UsedCount, FirstFit;
    assert |s.records| == MAX_RECORDS by { FitLength(s.records); }
    FirstFreeIsFirst(s.records);
    if !a.Append? {
      FindIsFirst(s.records, a.key);
    }
    match a
    case Append(f, now, ok) =>
      if Stores(s, f) {
        PutCounts(s.records, FirstFree(s.records), NewRecord(f, now));
      }
    case Queue(k, ok) =>
      if Find(s.records, k) < MAX_RECORDS {
        PutCounts(s.records, Find(s.records, k), s.records[Find(s.records, k)].(status := HOST_QUEUED));
      }
    case Commit(k, _) =>
      if Find(s.records, k) < MAX_RECORDS {
        PutCounts(s.records, Find(s.records, k), s.records[Find(s.records, k)].(status := HOST_COMMITTED));
      }
  }

  lemma FitLength(rs: seq<Record>)
    requires FirstFit(rs)
    ensures |rs| == MAX_RECORDS
  {
  }

  lemma {:induction false} RunCounts(s: State, acts: seq<Action>)
    requires FirstFit(s.records) && forall a :: a in acts ==> WithinBoot(a)
    ensures FirstFit(Run(s, acts).records)
    ensures UsedCount(Run(s, acts).records) == UsedCount(s.records) + StoredCount(s, acts)
    decreases |acts|
  {
    if acts != [] {
      StepCounts(s, acts[0]);
      RunCounts(Step(s, acts[0]), acts[1..]);
    }
  }

  lemma BootFirstFit(nvs: Nvs)
    ensures FirstFit(Booted(nvs).records)
    ensures UsedCount(Booted(nvs).records) <= MAX_NVS_SLOTS
  {
    hide ReadSlot;
    var rs := Booted(nvs).records;
    CountSplit(rs, MAX_NVS_SLOTS);
    CountBounds(rs[..MAX_NVS_SLOTS]);
    CountZero(rs[MAX_NVS_SLOTS..]);
  }

  /** After a boot that loaded `u` records and any run that stored `n` new ones, whatever was
      committed in between: a new key is accepted exactly while `u + n < 100`, and goes to
      a mirrored slot exactly while `u + n < 30`. */
  lemma CapacityUnderFirstFit(nvs: Nvs, acts: seq<Action>, f: Frame)
    requires forall a :: a in acts ==> WithinBoot(a)
    ensures var boot := Booted(nvs);
      var s := Run(boot, acts);
      var filled := UsedCount(boot.records) + StoredCount(boot, acts);
      && filled <= 100
      && (Stores(s, f) <==> filled < 100 && Find(s.records, FrameKey(f)) >= 100)
      && (FirstFree(s.records) < 30 <==> filled < 30)
  {
    hide CString;
    var boot := Booted(nvs);
    BootFirstFit(nvs);
    RunCounts(boot, acts);
    var rs := Run(boot, acts).records;
    NextSlot(rs);
    CountBounds(rs);
  }
}
