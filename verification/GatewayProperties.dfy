/** What the gateway keeps within a boot: each event is reported to the host exactly once,
    statuses only grow, and nothing is acknowledged that was not recorded or turned away by
    a full journal. */
module GatewayProperties {
  import opened Bytes
  import opened Clock
  import opened Frames
  import opened Protocol
  import opened Journal
  import opened Gateway
  import JP = JournalProperties

  datatype Event =
    | Rx(frame: Frame, now: u32, entropy: nat, appendOk: bool, queueOk: bool)
    | Tick(now: u32)
    | HostCommit(key: EventKey, ok: bool)

  function Step(g: GatewayState, e: Event): GatewayState {
    match e
    case Rx(f, now, entropy, appendOk, queueOk) => Processed(g, f, now, entropy, appendOk, queueOk)
    case Tick(now) => Updated(g, now)
    case HostCommit(k, ok) => HostCommitted(g, k, ok)
  }

  function Run(g: GatewayState, es: seq<Event>): GatewayState
    decreases |es|
  {
    if es == [] then g else Run(Step(g, es[0]), es[1..])
  }

  ghost predicate WellFormed(e: Event) {
    e.Rx? ==> Terminated(e.frame.originId)
  }

  // ---------------------------------------------------------------------
  // Keys
  // ---------------------------------------------------------------------

  ghost predicate HasKey(rs: seq<Record>, k: EventKey) {
    exists i :: 0 <= i < |rs| && Matches(rs[i], k)
  }

  ghost predicate Full(rs: seq<Record>) {
    forall i :: 0 <= i < |rs| ==> rs[i].used
  }

  /** The keys of all event lines, in order. */
  function ReportedKeys(output: seq<Line>): seq<EventKey>
    decreases |output|
  {
    if output == [] then []
    else
      var last := output[|output| - 1];
      ReportedKeys(output[..|output| - 1]) + if last.HbV1? then [] else [last.report.key]
  }

  lemma ReportedSnoc(output: seq<Line>, l: Line)
    ensures ReportedKeys(output + [l]) == ReportedKeys(output) + if l.HbV1? then [] else [l.report.key]
  {
    assert (output + [l])[..|output|] == output;
  }

  ghost predicate NoDuplicates(ks: seq<EventKey>) {
    forall i, j :: 0 <= i < j < |ks| ==> ks[i] != ks[j]
  }

  /** Every record in RAM has been reported once, and nothing else has. */
  ghost predicate ReportsExactly(g: GatewayState) {
    && NoDuplicates(ReportedKeys(g.output))
    && forall k :: k in ReportedKeys(g.output) <==> HasKey(g.journal.records, k)
  }

  /** A scheduled acknowledgement answers an emergency that asked for it and whose key is
      recorded, unless the journal is full. */
  ghost predicate AckSound(g: GatewayState) {
    g.ack.Ack? ==>
      && IsEmergency(g.ack.frame)
      && HasFlag(g.ack.frame.flags, FLAG_REQUIRE_ACK)
      && Terminated(g.ack.frame.originId)
      && (HasKey(g.journal.records, FrameKey(g.ack.frame)) || Full(g.journal.records))
  }

  predicate Proper(r: Record) {
    Terminated(r.originId) && r.eventType != EVENT_TEST
  }

  ghost predicate RecordsProper(rs: seq<Record>) {
    forall i :: 0 <= i < |rs| && rs[i].used ==> Proper(rs[i]) && rs[i].status >= HOST_QUEUED
  }

  ghost predicate Inv(g: GatewayState) {
    JP.Inv(g.journal) && RecordsProper(g.journal.records) && ReportsExactly(g) && AckSound(g)
  }

  /** What a gateway's flash may hold when it boots. */
  ghost predicate FlashSound(nvs: Nvs) {
    JP.NvsSound(nvs) && forall i :: 0 <= i < MAX_NVS_SLOTS && JP.Live(nvs, i) ==> Proper(ReadSlot(nvs, i).record)
  }

  /** Records stay where they are with their payload, and their status does not go back. */
  ghost predicate Grows(before: seq<Record>, after: seq<Record>) {
    && |before| == |after|
    && forall i :: 0 <= i < |before| && before[i].used ==>
         after[i].used && JP.SamePayload(before[i], after[i]) && before[i].status <= after[i].status
  }

  // ---------------------------------------------------------------------
  // The journal steps
  // ---------------------------------------------------------------------

  lemma FindFound(rs: seq<Record>, k: EventKey)
    ensures Find(rs, k) < |rs| <==> HasKey(rs, k)
  {
    hide RecordKey;
    FindIsFirst(rs, k);
  }

  /** The two flash writes of a new event: as received, then as queued. */
  function PutTwice(nvs: Nvs, i: nat, r: Record, ok: bool, queueOk: bool): Nvs {
    WriteSlot(WriteSlot(nvs, i, r, ok), i, r.(status := HOST_QUEUED), queueOk)
  }

  /** Recording a new event and marking it as queued. */
  lemma RecordAndQueue(s: State, f: Frame, now: u32, appendOk: bool, queueOk: bool)
    requires JP.Inv(s) && Stores(s, f) && Terminated(f.originId)
    ensures var t := Queued(Appended(s, f, now, appendOk), FrameKey(f), queueOk);
      && JP.Inv(t)
      && t.records == s.records[FirstFree(s.records) := NewRecord(f, now).(status := HOST_QUEUED)]
      && t.nvs == PutTwice(s.nvs, FirstFree(s.records), NewRecord(f, now), appendOk, queueOk)
      && FirstFree(s.records) < |s.records| && !s.records[FirstFree(s.records)].used
  {
    hide CString, Cut, WriteSlot, ReadSlot;
    JP.TerminatedAppendsNewKey(s, f);
    JP.StepKeepsInv(s, JP.Append(f, now, appendOk));
    var mid := Appended(s, f, now, appendOk);
    JP.StepKeepsInv(mid, JP.Queue(FrameKey(f), queueOk));
    FirstFreeIsFirst(s.records);
    FindIsFirst(s.records, FrameKey(f));
    var i := FirstFree(s.records);
    assert Matches(mid.records[i], FrameKey(f));
    FindIsFirst(mid.records, FrameKey(f));
    assert Find(mid.records, FrameKey(f)) == i;
  }

  lemma StoreAddsKey(rs: seq<Record>, i: nat, r: Record, k: EventKey)
    requires i < |rs| && !rs[i].used && r.used
    ensures HasKey(rs[i := r], k) <==> HasKey(rs, k) || k == RecordKey(r)
  {
    hide RecordKey;
    var next := rs[i := r];
    if HasKey(rs, k) {
      var j :| 0 <= j < |rs| && Matches(rs[j], k);
      assert Matches(next[j], k);
    }
    if k == RecordKey(r) {
      assert Matches(next[i], k);
    }
  }

  lemma RekeyNothing(rs: seq<Record>, i: nat, status: u8, k: EventKey)
    requires i < |rs|
    ensures HasKey(rs[i := rs[i].(status := status)], k) <==> HasKey(rs, k)
  {
    hide CString;
    var next := rs[i := rs[i].(status := status)];
    assert forall j :: 0 <= j < |rs| ==> (Matches(next[j], k) <==> Matches(rs[j], k));
  }

  // ---------------------------------------------------------------------
  // Received frames
  // ---------------------------------------------------------------------

  lemma NewEmergencyJournal(g: GatewayState, f: Frame, now: u32, entropy: nat, appendOk: bool, queueOk: bool)
    requires JP.Inv(g.journal) && Terminated(f.originId) && Stores(g.journal, f)
    ensures var h := EmergencyHandled(g, f, now, entropy, appendOk, queueOk);
      var i := FirstFree(g.journal.records);
      && h.journal == Queued(Appended(g.journal, f, now, appendOk), FrameKey(f), queueOk)
      && h.journal.nvs == PutTwice(g.journal.nvs, i, NewRecord(f, now), appendOk, queueOk)
      && h.output == g.output + [CsvV1(FrameReport(f))]
      && h.ack == (if HasFlag(f.flags, FLAG_REQUIRE_ACK) then ScheduledAck(f, now, entropy) else g.ack)
      && JP.Inv(h.journal) && i < |g.journal.records| && !g.journal.records[i].used
      && h.journal.records == g.journal.records[i := NewRecord(f, now).(status := HOST_QUEUED)]
      && RecordKey(NewRecord(f, now)) == FrameKey(f)
  {
    hide CString, Cut, HasFlag, ScheduledAck, Appended, Queued, Stores, JP.Inv, FirstFree, PutTwice;
    RecordAndQueue(g.journal, f, now, appendOk, queueOk);
    JP.TerminatedAppendsNewKey(g.journal, f);
  }

  lemma NewEmergencyReports(g: GatewayState, f: Frame, i: nat, r: Record, h: GatewayState)
    requires ReportsExactly(g) && i < |g.journal.records| && !g.journal.records[i].used && r.used
    requires RecordKey(r) == FrameKey(f) && FrameKey(f) !in ReportedKeys(g.output)
    requires h.output == g.output + [CsvV1(FrameReport(f))] && h.journal.records == g.journal.records[i := r]
    ensures ReportsExactly(h)
  {
    hide HasKey, FrameKey, RecordKey;
    ReportedSnoc(g.output, CsvV1(FrameReport(f)));
    assert FrameReport(f).key == FrameKey(f);
    forall q
      ensures q in ReportedKeys(h.output) <==> HasKey(h.journal.records, q)
    {
      StoreAddsKey(g.journal.records, i, r, q);
    }
  }

  /** An emergency with a new key is stored, reported and acknowledged. */
  lemma NewEmergency(g: GatewayState, f: Frame, now: u32, entropy: nat, appendOk: bool, queueOk: bool)
    requires Inv(g) && IsEmergency(f) && Terminated(f.originId) && Stores(g.journal, f)
    ensures var h := EmergencyHandled(g, f, now, entropy, appendOk, queueOk);
      Inv(h) && Grows(g.journal.records, h.journal.records)
  {
    hide CString, Cut, HasFlag, Random, EmergencyHandled, Stores, JP.Inv, FirstFree, ReportsExactly, HasKey, FrameKey,
         RecordKey;
    var h := EmergencyHandled(g, f, now, entropy, appendOk, queueOk);
    NewEmergencyJournal(g, f, now, entropy, appendOk, queueOk);
    var i := FirstFree(g.journal.records);
    var r := NewRecord(f, now).(status := HOST_QUEUED);
    RekeyOne(NewRecord(f, now), HOST_QUEUED);
    CutName(f.originId);
    NewKeyUnreported(g, f);
    NewEmergencyReports(g, f, i, r, h);
    if h.ack.Ack? {
      StoreAddsKey(g.journal.records, i, r, FrameKey(h.ack.frame));
    }
  }

  lemma RekeyOne(r: Record, status: u8)
    ensures RecordKey(r.(status := status)) == RecordKey(r)
  {
  }

  lemma NewKeyUnreported(g: GatewayState, f: Frame)
    requires ReportsExactly(g) && Stores(g.journal, f)
    ensures FrameKey(f) !in ReportedKeys(g.output)
  {
    hide CString;
    FindFound(g.journal.records, FrameKey(f));
  }

  /** A key already recorded, or a full journal: no line and no record, but an ACK. */
  lemma OldEmergency(g: GatewayState, f: Frame, now: u32, entropy: nat, appendOk: bool, queueOk: bool)
    requires Inv(g) && IsEmergency(f) && Terminated(f.originId) && !Stores(g.journal, f)
    ensures var h := EmergencyHandled(g, f, now, entropy, appendOk, queueOk);
      Inv(h) && h.journal == g.journal && h.output == g.output
  {
    hide CString, HasFlag, Random;
    FindFound(g.journal.records, FrameKey(f));
    FirstFreeIsFirst(g.journal.records);
  }

  lemma HeardKeepsInv(g: GatewayState, f: Frame, now: u32)
    requires Inv(g)
    ensures Inv(Heard(g, f, now))
  {
  }

  lemma HeartbeatKeepsInv(g: GatewayState, f: Frame, now: u32)
    requires Inv(g)
    ensures Inv(HeartbeatHandled(g, f, now))
    ensures HeartbeatHandled(g, f, now).journal == g.journal && HeartbeatHandled(g, f, now).ack == g.ack
  {
    ReportedSnoc(g.output, HbV1(CString(f.originId), f.latE7, f.lonE7, f.batteryPct, f.lastRssiDbm));
  }

  lemma GrowsReflexive(rs: seq<Record>)
    ensures Grows(rs, rs)
  {
  }

  /** Every step keeps the invariant, and only an emergency touches the journal or the ACK slot
      of a gateway that hears a frame: heartbeats and tests are neither recorded nor acknowledged. */
  lemma StepKeepsInv(g: GatewayState, e: Event)
    requires Inv(g) && WellFormed(e)
    ensures Inv(Step(g, e)) && Grows(g.journal.records, Step(g, e).journal.records)
    ensures e.Rx? && !IsEmergency(e.frame) ==> Step(g, e).journal == g.journal && Step(g, e).ack == g.ack
  {
    hide Inv, Grows, Heard, HeartbeatHandled, EmergencyHandled, Stores, CString;
    GrowsReflexive(g.journal.records);
    match e
    case Rx(f, now, entropy, appendOk, queueOk) =>
      HeardKeepsInv(g, f, now);
      var h := Heard(g, f, now);
      HeardKeepsJournal(g, f, now);
      if f.frameType == FRAME_HEARTBEAT {
        HeartbeatKeepsInv(h, f, now);
      } else if IsEmergency(f) {
        if Stores(h.journal, f) {
          NewEmergency(h, f, now, entropy, appendOk, queueOk);
        } else {
          OldEmergency(h, f, now, entropy, appendOk, queueOk);
        }
      }
    case Tick(now) =>
      TickKeepsInv(g, now);
    case HostCommit(k, ok) =>
      CommitKeepsInv(g, k, ok);
  }

  lemma HeardKeepsJournal(g: GatewayState, f: Frame, now: u32)
    ensures Heard(g, f, now).journal == g.journal && Heard(g, f, now).ack == g.ack
  {
  }

  lemma TickKeepsInv(g: GatewayState, now: u32)
    requires Inv(g)
    ensures Inv(Updated(g, now)) && Updated(g, now).journal == g.journal
  {
  }

  lemma CommitKeepsInv(g: GatewayState, k: EventKey, ok: bool)
    requires Inv(g)
    ensures Inv(HostCommitted(g, k, ok)) && Grows(g.journal.records, HostCommitted(g, k, ok).journal.records)
  {
    hide ReadSlot, ClearSlot, CString, HasKey, JP.Inv;
    assert |g.journal.records| == MAX_RECORDS by { JournalLength(g.journal); }
    JP.StepKeepsInv(g.journal, JP.Commit(k, ok));
    FindIsFirst(g.journal.records, k);
    var i := Find(g.journal.records, k);
    var h := HostCommitted(g, k, ok);
    KnownStatuses(g.journal);
    if i < |g.journal.records| {
      forall q
        ensures HasKey(h.journal.records, q) <==> HasKey(g.journal.records, q)
      {
        RekeyNothing(g.journal.records, i, HOST_COMMITTED, q);
      }
    }
  }

  lemma JournalLength(s: State)
    requires JP.Inv(s)
    ensures |s.records| == MAX_RECORDS
  {
  }

  lemma KnownStatuses(s: State)
    requires JP.Inv(s)
    ensures forall i :: 0 <= i < |s.records| && s.records[i].used ==> s.records[i].status <= HOST_COMMITTED
  {
  }

  // ---------------------------------------------------------------------
  // Boot and replay
  // ---------------------------------------------------------------------

  /** Positions that need replay, in the state as it was loaded. */
  function Positions(s: State): seq<nat> {
    ReplayPositions(s.records, |s.records|)
  }

  /** Two record lists that differ at most in the status of replayed records. */
  ghost predicate SameButQueued(before: seq<Record>, after: seq<Record>) {
    && |before| == |after|
    && forall i :: 0 <= i < |before| ==>
         after[i] == before[i] || (Uncommitted(before[i]) && after[i] == before[i].(status := HOST_QUEUED))
  }

  lemma {:induction false} SamePositions(before: seq<Record>, after: seq<Record>, n: nat)
    requires SameButQueued(before, after) && n <= |before|
    ensures ReplayPositions(after, n) == ReplayPositions(before, n)
  {
    if n > 0 {
      SamePositions(before, after, n - 1);
    }
  }

  /** After `n` turns of the replay loop: the first `n` positions have been reported in
      order and queued, and the rest is as loaded. */
  ghost predicate ReplayedTo(loaded: State, g: GatewayState, n: nat) {
    var ps := Positions(loaded);
    && n <= |ps| == |g.output| + |ps| - n
    && JP.Inv(g.journal)
    && SameButQueued(loaded.records, g.journal.records)
    && (forall i :: 0 <= i < n ==>
          && ps[i] < |loaded.records|
          && g.output[i] == ReplayCsvV1(RecordReport(loaded.records[ps[i]]))
          && g.journal.records[ps[i]].status >= HOST_QUEUED)
    && (n == 0 ==> g.ack.NoAck?)
    && (n > 0 ==> g.ack.Ack? && g.ack.delayMs == 0 && IsAckFor(g.ack.frame, loaded.records[ps[0]]))
  }

  /** The synthetic event of a replayed record. */
  predicate IsAckFor(f: Frame, r: Record) {
    && f.frameType == FRAME_EVENT && f.eventType == r.eventType
    && f.originId == Cut(r.originId) && f.eventId == r.eventId && f.maxHops == MAX_HOPS_DEFAULT
    && HasFlag(f.flags, FLAG_REQUIRE_ACK)
  }

  lemma SynFrameIsAck(r: Record, auth: Auth)
    ensures IsAckFor(SynFrame(r, auth), r)
  {
    hide Cut, Tag, WithFlag, Body;
    AuthFlagKeepsAckRequest(FLAG_REQUIRE_ACK);
  }

  lemma ReplayTurn(loaded: State, g: GatewayState, n: nat, now: u32, ok: bool, auth: Auth)
    requires |loaded.records| == MAX_RECORDS && ReplayedTo(loaded, g, n) && n < |Positions(loaded)|
    ensures ReplayedTo(loaded, ReplayedOne(g, n, now, ok, auth), n + 1)
  {
    hide CString, Cut, ReadSlot, WriteSlot, Sealed, SynFrame, JP.Inv, HasFlag, ReplayAck;
    var ps := Positions(loaded);
    SamePositions(loaded.records, g.journal.records, |loaded.records|);
    PositionsInRange(loaded.records, |loaded.records|);
    var p := ps[n];
    var r := g.journal.records[p];
    ReplayQueues(g.journal, p, ok);
    SynFrameIsAck(r, auth);
    ReplayAckFrame(r, n, now, auth);
    assert RecordReport(r) == RecordReport(loaded.records[p]);
    if n > 0 {
      assert ps[0] < p;
    }
  }

  lemma ReplayAckFrame(r: Record, rank: nat, now: u32, auth: Auth)
    ensures var a := ReplayAck(r, rank, now, auth); a.Ack? && a.frame == SynFrame(r, auth) && a.delayMs == 0
  {
  }

  lemma ReplayQueues(s: State, p: nat, ok: bool)
    requires JP.Inv(s) && p < |s.records| && Uncommitted(s.records[p])
    ensures var r := s.records[p];
      var t := if r.status == RECEIVED then Queued(s, RecordKey(r), ok) else s;
      && JP.Inv(t)
      && t.records == s.records[p := r.(status := HOST_QUEUED)]
  {
    hide CString, ReadSlot, WriteSlot;
    var r := s.records[p];
    JP.StepKeepsInv(s, JP.Queue(RecordKey(r), ok));
    FindIsFirst(s.records, RecordKey(r));
    assert Matches(r, RecordKey(r));
  }

  lemma {:induction false} ReplayRun(loaded: State, g: GatewayState, n: nat, now: u32, writes: nat -> bool, auth: Auth)
    requires |loaded.records| == MAX_RECORDS && ReplayedTo(loaded, g, 0) && n <= |Positions(loaded)|
    ensures ReplayedTo(loaded, Replayed(g, n, now, writes, auth), n)
  {
    hide ReplayedTo, ReplayedOne;
    if n > 0 {
      ReplayRun(loaded, g, n - 1, now, writes, auth);
      ReplayTurn(loaded, Replayed(g, n - 1, now, writes, auth), n - 1, now, writes(n - 1), auth);
    }
  }

  /** Turns beyond the last rank find nothing to replay. */
  lemma {:induction false} ReplayPast(loaded: State, g: GatewayState, n: nat, now: u32, writes: nat -> bool, auth: Auth)
    requires |loaded.records| == MAX_RECORDS && ReplayedTo(loaded, g, 0)
    ensures var m := if n <= |Positions(loaded)| then n else |Positions(loaded)|;
      ReplayedTo(loaded, Replayed(g, n, now, writes, auth), m)
  {
    hide ReplayedTo, ReplayedOne;
    if n <= |Positions(loaded)| {
      ReplayRun(loaded, g, n, now, writes, auth);
    } else {
      ReplayPast(loaded, g, n - 1, now, writes, auth);
      NothingLeft(loaded, Replayed(g, n - 1, now, writes, auth), n - 1, now, writes(n - 1), auth);
    }
  }

  lemma NothingLeft(loaded: State, g: GatewayState, rank: nat, now: u32, ok: bool, auth: Auth)
    requires |loaded.records| == MAX_RECORDS && ReplayedTo(loaded, g, |Positions(loaded)|)
             && rank >= |Positions(loaded)|
    ensures ReplayedOne(g, rank, now, ok, auth) == g
  {
    hide IsAckFor, JP.Inv, RecordReport;
    SamePositions(loaded.records, g.journal.records, |loaded.records|);
  }

  lemma {:induction false} KeysOfReplays(output: seq<Line>)
    requires forall i :: 0 <= i < |output| ==> output[i].ReplayCsvV1?
    ensures |ReportedKeys(output)| == |output|
    ensures forall i :: 0 <= i < |output| ==> ReportedKeys(output)[i] == output[i].report.key
    decreases |output|
  {
    if output != [] {
      KeysOfReplays(output[..|output| - 1]);
    }
  }

  lemma LoadedProper(nvs: Nvs)
    requires FlashSound(nvs)
    ensures JP.Inv(Booted(nvs))
    ensures forall i :: 0 <= i < MAX_RECORDS && Booted(nvs).records[i].used ==>
              Proper(Booted(nvs).records[i]) && Uncommitted(Booted(nvs).records[i])
  {
    hide ReadSlot, Swept, JP.Inv, CString;
    JP.BootInv(nvs);
  }

  /** The replay loop reports every reloaded uncommitted record, in slot order, exactly
      once, although it changes statuses while it iterates by rank. */
  lemma ReplayExactlyOnce(flash: Nvs, now: u32, writes: nat -> bool, auth: Auth)
    requires FlashSound(flash)
    ensures var loaded := Booted(flash);
      var g := Initialised(flash, now, writes, auth);
      && ReplayedTo(loaded, g, |Positions(loaded)|)
      && |g.output| == |Positions(loaded)|
      && (forall p :: p in Positions(loaded) <==> 0 <= p < MAX_RECORDS && loaded.records[p].used)
      && (forall i, j :: 0 <= i < j < |Positions(loaded)| ==> Positions(loaded)[i] < Positions(loaded)[j])
  {
    hide Booted, ReplayedOne, JP.Inv, Proper, RecordReport;
    LoadedProper(flash);
    var loaded := Booted(flash);
    JournalLength(loaded);
    PositionsInRange(loaded.records, |loaded.records|);
    ReplayRun(loaded, Loaded(flash, 0), |Positions(loaded)|, now, writes, auth);
  }

  lemma BootEstablishesInv(flash: Nvs, now: u32, writes: nat -> bool, auth: Auth)
    requires FlashSound(flash)
    ensures var g := Initialised(flash, now, writes, auth);
      Inv(g) && (g.ack.Ack? ==> HasKey(g.journal.records, FrameKey(g.ack.frame)))
  {
    hide Booted, Initialised, JP.Inv, ReportsExactly, AckSound, Proper, CString, HasKey;
    var loaded := Booted(flash);
    var g := Initialised(flash, now, writes, auth);
    ReplayExactlyOnce(flash, now, writes, auth);
    LoadedProper(flash);
    JournalLength(loaded);
    BootReports(loaded, g);
    BootAck(loaded, g);
    forall i | 0 <= i < MAX_RECORDS && g.journal.records[i].used
      ensures Proper(g.journal.records[i]) && g.journal.records[i].status >= HOST_QUEUED
    {
      SameProper(loaded.records[i], g.journal.records[i]);
      var n :| 0 <= n < |Positions(loaded)| && Positions(loaded)[n] == i;
    }
  }

  lemma SameProper(r: Record, s: Record)
    requires JP.SamePayload(r, s) || s == r.(status := HOST_QUEUED)
    ensures Proper(r) == Proper(s)
  {
  }

  lemma BootReports(loaded: State, g: GatewayState)
    requires |loaded.records| == MAX_RECORDS && ReplayedTo(loaded, g, |Positions(loaded)|)
    requires forall p :: p in Positions(loaded) <==> 0 <= p < MAX_RECORDS && loaded.records[p].used
    requires forall i, j :: 0 <= i < j < |Positions(loaded)| ==> Positions(loaded)[i] < Positions(loaded)[j]
    ensures ReportsExactly(g)
  {
    hide CString, IsAckFor, JP.Inv, Positions, HasKey;
    var ps := Positions(loaded);
    var keys := ReportedKeys(g.output);
    KeysOfReplays(g.output);
    InvDistinct(g.journal);
    forall i | 0 <= i < |ps|
      ensures 0 <= ps[i] < |g.journal.records| && keys[i] == RecordKey(g.journal.records[ps[i]])
    {
      assert g.output[i].report.key == RecordKey(loaded.records[ps[i]]);
    }
    KeysOfPositions(g.journal.records, ps, keys);
  }

  lemma InvDistinct(s: State)
    requires JP.Inv(s)
    ensures JP.Distinct(s.records)
  {
  }

  /** Listing the positions of the used records lists each of their keys once. */
  lemma KeysOfPositions(rs: seq<Record>, ps: seq<nat>, keys: seq<EventKey>)
    requires JP.Distinct(rs) && |keys| == |ps|
    requires forall i :: 0 <= i < |ps| ==> ps[i] < |rs| && keys[i] == RecordKey(rs[ps[i]])
    requires forall p :: p in ps <==> 0 <= p < |rs| && rs[p].used
    requires forall i, j :: 0 <= i < j < |ps| ==> ps[i] < ps[j]
    ensures NoDuplicates(keys)
    ensures forall k :: k in keys <==> HasKey(rs, k)
  {
    hide RecordKey;
    forall i | 0 <= i < |ps|
      ensures rs[ps[i]].used && HasKey(rs, keys[i])
    {
      assert ps[i] in ps;
      assert Matches(rs[ps[i]], keys[i]);
    }
    forall k | HasKey(rs, k)
      ensures k in keys
    {
      var p :| 0 <= p < |rs| && Matches(rs[p], k);
      assert p in ps;
      var i :| 0 <= i < |ps| && ps[i] == p;
      assert keys[i] == k;
    }
  }

  lemma BootAck(loaded: State, g: GatewayState)
    requires |loaded.records| == MAX_RECORDS && ReplayedTo(loaded, g, |Positions(loaded)|)
    requires forall p :: p in Positions(loaded) <==> 0 <= p < MAX_RECORDS && loaded.records[p].used
    requires forall i :: 0 <= i < MAX_RECORDS && loaded.records[i].used ==> Proper(loaded.records[i])
    ensures AckSound(g) && (g.ack.Ack? ==> HasKey(g.journal.records, FrameKey(g.ack.frame)))
  {
    hide JP.Inv, HasFlag, Positions;
    if g.ack.Ack? {
      var p := Positions(loaded)[0];
      assert p in Positions(loaded);
      var r := loaded.records[p];
      assert Proper(r);
      CutKeepsName(r.originId);
      CutName(r.originId);
      assert Matches(g.journal.records[p], FrameKey(g.ack.frame));
    }
  }

  /** The invariant holds after every run of a boot, and over the run no record moves, changes its
      payload or goes back in status. */
  lemma {:induction false} RunKeepsInv(g: GatewayState, es: seq<Event>)
    requires Inv(g) && forall e :: e in es ==> WellFormed(e)
    ensures Inv(Run(g, es)) && Grows(g.journal.records, Run(g, es).journal.records)
    decreases |es|
  {
    hide Inv, Step;
    if es == [] {
      GrowsReflexive(g.journal.records);
    } else {
      StepKeepsInv(g, es[0]);
      RunKeepsInv(Step(g, es[0]), es[1..]);
      GrowsTransitive(g.journal.records, Step(g, es[0]).journal.records, Run(g, es).journal.records);
    }
  }

  lemma GrowsTransitive(a: seq<Record>, b: seq<Record>, c: seq<Record>)
    requires Grows(a, b) && Grows(b, c)
    ensures Grows(a, c)
  {
  }

  /** What the counters count: frames, lines of each kind, and emergencies that printed none. */
  datatype Tally = Tally(total: nat, emergencies: nat, acks: nat)

  function Plus(a: Tally, b: Tally): Tally {
    Tally(a.total + b.total, a.emergencies + b.emergencies, a.acks + b.acks)
  }

  function One(g: GatewayState, e: Event): Tally {
    match e
    case Rx(f, _, _, _, _) => Tally(1, if f.frameType == 1 && f.eventType != 255 then 1 else 0, 0)
    case Tick(now) => Tally(0, 0, if g.ack.Ack? && Due(now, g.ack.scheduledAt, g.ack.delayMs) then 1 else 0)
    case HostCommit(_, _) => Tally(0, 0, 0)
  }

  function Counted(g: GatewayState, es: seq<Event>): Tally
    decreases |es|
  {
    if es == [] then Tally(0, 0, 0) else Plus(One(g, es[0]), Counted(Step(g, es[0]), es[1..]))
  }

  /** The lines of each kind. */
  datatype Printed = Printed(events: nat, replays: nat, heartbeats: nat)

  function LinesOf(output: seq<Line>): Printed
    decreases |output|
  {
    if output == [] then Printed(0, 0, 0)
    else
      var n := LinesOf(output[..|output| - 1]);
      match output[|output| - 1]
      case CsvV1(_) => n.(events := n.events + 1)
      case ReplayCsvV1(_) => n.(replays := n.replays + 1)
      case HbV1(_, _, _, _, _) => n.(heartbeats := n.heartbeats + 1)
  }

  lemma LinesSnoc(output: seq<Line>, l: Line)
    ensures var n := LinesOf(output);
      LinesOf(output + [l]) == match l
                               case CsvV1(_) => n.(events := n.events + 1)
                               case ReplayCsvV1(_) => n.(replays := n.replays + 1)
                               case HbV1(_, _, _, _, _) => n.(heartbeats := n.heartbeats + 1)
  {
    assert (output + [l])[..|output|] == output;
  }

  /** A 32-bit counter that has counted up to `n`. */
  predicate Reads(x: u32, n: nat) {
    x == n % TWO_32
  }

  lemma ReadsNext(x: u32, n: nat)
    requires Reads(x, n)
    ensures Reads(Succ32(x), n + 1)
  {
  }

  /** The counters show the printed lines and, counted from `c` on, the rest; every emergency printed
      its line or is a duplicate. */
  predicate Shows(g: GatewayState, c: Tally) {
    var n := LinesOf(g.output);
    && Reads(g.counters.journaled, n.events) && Reads(g.counters.replayed, n.replays)
    && Reads(g.counters.heartbeats, n.heartbeats)
    && Reads(g.counters.total, c.total) && Reads(g.counters.ackSent, c.acks)
    && n.events <= c.emergencies && Reads(g.counters.duplicates, c.emergencies - n.events)
  }

  lemma FrameCounted(g: GatewayState, f: Frame, now: u32, entropy: nat, appendOk: bool, queueOk: bool, c: Tally)
    requires Shows(g, c)
    ensures Shows(Processed(g, f, now, entropy, appendOk, queueOk),
                  Plus(c, Tally(1, if f.frameType == 1 && f.eventType != 255 then 1 else 0, 0)))
  {
    hide CString, HasFlag, Stores, Appended, Queued, FrameReport, LinesOf, ScheduledAck, Reads, Succ32;
    LinesSnoc(g.output, CsvV1(FrameReport(f)));
    LinesSnoc(g.output, HbV1(CString(f.originId), f.latE7, f.lonE7, f.batteryPct, f.lastRssiDbm));
    var n := LinesOf(g.output);
    ReadsNext(g.counters.total, c.total);
    ReadsNext(g.counters.journaled, n.events);
    ReadsNext(g.counters.heartbeats, n.heartbeats);
    ReadsNext(g.counters.duplicates, c.emergencies - n.events);
  }

  lemma StepCounted(g: GatewayState, e: Event, c: Tally)
    requires Shows(g, c)
    ensures Shows(Step(g, e), Plus(c, One(g, e)))
  {
    hide Processed, Elapsed, LinesOf, Committed, Reads, Succ32;
    match e
    case Rx(f, now, entropy, appendOk, queueOk) =>
      FrameCounted(g, f, now, entropy, appendOk, queueOk, c);
    case Tick(now) =>
      ReadsNext(g.counters.ackSent, c.acks);
    case HostCommit(_, _) =>
  }

  lemma {:induction false} RunCounted(g: GatewayState, es: seq<Event>, c: Tally)
    requires Shows(g, c)
    ensures Shows(Run(g, es), Plus(c, Counted(g, es)))
    decreases |es|
  {
    hide Shows, Step, One;
    if es != [] {
      StepCounted(g, es[0], c);
      RunCounted(Step(g, es[0]), es[1..], Plus(c, One(g, es[0])));
    }
  }

  lemma {:induction false} ReplayCounted(g: GatewayState, n: nat, now: u32, writes: nat -> bool, auth: Auth)
    requires Shows(g, Tally(0, 0, 0))
    ensures Shows(Replayed(g, n, now, writes, auth), Tally(0, 0, 0))
  {
    hide ReplayedOne, Shows;
    if n > 0 {
      ReplayCounted(g, n - 1, now, writes, auth);
      TurnCounted(Replayed(g, n - 1, now, writes, auth), n - 1, now, writes(n - 1), auth);
    }
  }

  lemma TurnCounted(g: GatewayState, rank: nat, now: u32, ok: bool, auth: Auth)
    requires Shows(g, Tally(0, 0, 0))
    ensures Shows(ReplayedOne(g, rank, now, ok, auth), Tally(0, 0, 0))
  {
    hide Queued, LinesOf, ReplayPositions, ReplayAck, RecordReport, Reads, Succ32, RecordKey;
    var ps := ReplayPositions(g.journal.records, |g.journal.records|);
    if rank < |ps| && ps[rank] < |g.journal.records| {
      LinesSnoc(g.output, ReplayCsvV1(RecordReport(g.journal.records[ps[rank]])));
      ReadsNext(g.counters.replayed, LinesOf(g.output).replays);
    }
  }

  /** Modulo 2^32, after every boot and every run of it: the counters tell how many frames came, how many
      lines of each kind were printed and how many ACKs were sent, and every emergency either printed its
      line or counts as a duplicate. */
  lemma CountersTell(flash: Nvs, now: u32, writes: nat -> bool, auth: Auth, es: seq<Event>)
    ensures var start := Initialised(flash, now, writes, auth);
      Shows(Run(start, es), Counted(start, es))
  {
    hide Replayed, Booted, Run, Counted;
    ReplayCounted(Loaded(flash, 0), ReplayLength(Booted(flash)), now, writes, auth);
    var start := Initialised(flash, now, writes, auth);
    RunCounted(start, es, Tally(0, 0, 0));
    assert Plus(Tally(0, 0, 0), Counted(start, es)) == Counted(start, es);
  }

  /** In every boot and after every run of it, each key of an event line is the key of
      exactly one line, and these are the keys of the records in RAM. */
  lemma ExactlyOncePerBoot(flash: Nvs, now: u32, writes: nat -> bool, auth: Auth, es: seq<Event>)
    requires FlashSound(flash) && forall e :: e in es ==> WellFormed(e)
    ensures var g := Run(Initialised(flash, now, writes, auth), es);
      ReportsExactly(g) && AckSound(g)
  {
    hide Initialised, ReportsExactly, AckSound, RecordsProper, JP.Inv;
    BootEstablishesInv(flash, now, writes, auth);
    RunKeepsInv(Initialised(flash, now, writes, auth), es);
  }

  /** The replay turn that fills the ACK slot sets its start half a second and 300 ms for each rank after
      the boot, and no delay. */
  lemma ReplayAckStart(g: GatewayState, rank: nat, now: u32, ok: bool, auth: Auth)
    requires g.ack.NoAck? && rank < |ReplayPositions(g.journal.records, |g.journal.records|)|
    ensures var h := ReplayedOne(g, rank, now, ok, auth);
      h.ack.Ack? && h.ack.scheduledAt == (now + 500 + 300 * rank) % TWO_32 && h.ack.delayMs == 0
  {
    hide Queued, SynFrame, RecordReport;
    PositionsInRange(g.journal.records, |g.journal.records|);
  }

  /** The ACK of the first replayed record goes out at the first poll after the boot, whenever
      that is: its start lies in the future, and the unsigned test takes that for long past. */
  lemma FirstPollAcknowledgesReplay(flash: Nvs, now: u32, writes: nat -> bool, later: u32, auth: Auth)
    requires FlashSound(flash) && Positions(Booted(flash)) != []
    ensures var rs := Booted(flash).records;
      var p := Positions(Booted(flash))[0];
      && p < |rs|
      && AckOnAir(Initialised(flash, now, writes, auth), later, auth)
         == [AckFrame(GATEWAY_ID, rs[p].originId, rs[p].eventId, rs[p].eventType, MAX_HOPS_DEFAULT, later, auth)]
  {
    hide Booted, Initialised, JP.Inv, HasFlag, CString, Positions, Sealed, RecordReport;
    ReplayExactlyOnce(flash, now, writes, auth);
    var loaded := Booted(flash);
    LoadedLength(flash);
    var p := Positions(loaded)[0];
    assert p in Positions(loaded);
    CutIdempotent(loaded.records[p].originId);
  }

  lemma LoadedLength(flash: Nvs)
    ensures |Booted(flash).records| == MAX_RECORDS
  {
  }

  /** An acknowledgement of `f`: a sealed ACK frame under the gateway's name with the name, number, type
      and hop limit of the event, which has not made a hop yet. */
  predicate Answers(a: Frame, f: Frame, auth: Auth) {
    && Accepts(a, auth) && HasFlag(a.flags, FLAG_AUTH_PRESENT) && a.frameType == 2
    && FrameKey(a) == FrameKey(f) && a.eventType == f.eventType
    && CString(a.senderId) == [71, 84, 87, 48, 49] && a.hopCount == 0 && a.maxHops == f.maxHops
  }

  lemma AckAnswers(f: Frame, now: u32, auth: Auth)
    requires Terminated(f.originId)
    ensures Answers(AckFrame(GATEWAY_ID, f.originId, f.eventId, f.eventType, f.maxHops, now, auth), f, auth)
  {
    hide Cut, CString, Tag, Body, HasFlag, WithFlag, Accepts;
    CutKeepsName(f.originId);
    SealedAccepted(BLANK.(frameType := FRAME_ACK, eventType := f.eventType, originId := Cut(f.originId),
                     senderId := Cut(GATEWAY_ID), eventId := f.eventId, maxHops := f.maxHops, eventTimeMs := now,
                     batteryPct := 100), auth);
    GatewayName();
  }

  lemma GatewayName()
    ensures CString(Cut(GATEWAY_ID)) == [71, 84, 87, 48, 49]
  {
    CutName(GATEWAY_ID);
    var id := GATEWAY_ID;
    assert id[1..] == [84, 87, 48, 49, 0] && id[1..][1..] == [87, 48, 49, 0] && id[1..][1..][1..] == [48, 49, 0]
      && id[1..][1..][1..][1..] == [49, 0] && id[1..][1..][1..][1..][1..] == [0];
    assert CString(id[1..][1..][1..]) == [48, 49];
    assert CString(id) == [71, 84, 87, 48, 49];
  }

  /** An emergency heard at true time `start` that asks for it, whether it is stored, known or turned
      away: no poll within the next 100 ms sends its ACK, the first one after 299 ms does if none has
      before, and one that does leaves none to be sent. */
  lemma AckWindow(g: GatewayState, f: Frame, start: nat, entropy: nat, appendOk: bool, queueOk: bool, poll: nat,
                  auth: Auth)
    requires Inv(g) && f.frameType == 1 && f.eventType != 255 && Terminated(f.originId)
    requires HasFlag(f.flags, FLAG_REQUIRE_ACK) && start <= poll < start + TWO_32
    ensures var h := Processed(g, f, Millis(start), entropy, appendOk, queueOk);
      && (poll < start + 100 ==> AckOnAir(h, Millis(poll), auth) == [])
      && (poll >= start + 299 ==> |AckOnAir(h, Millis(poll), auth)| == 1)
      && (forall a :: a in AckOnAir(h, Millis(poll), auth) ==> Answers(a, f, auth) && a.eventTimeMs == Millis(poll))
      && Updated(h, Millis(poll)).ack == if AckOnAir(h, Millis(poll), auth) == [] then h.ack else NoAck
  {
    hide CString, HasFlag, FrameKey, JP.Inv, ReportsExactly, AckSound, RecordsProper, Stores, Answers, Appended, Queued,
         Millis, Elapsed, AckFrame;
    var h := Processed(g, f, Millis(start), entropy, appendOk, queueOk);
    assert h.ack == ScheduledAck(f, Millis(start), entropy);
    DueRefinesTrueTime(poll, start, h.ack.delayMs);
    AckAnswers(f, Millis(poll), auth);
    AckTime(f, Millis(poll), auth);
  }

  lemma AckTime(f: Frame, now: u32, auth: Auth)
    ensures AckFrame(GATEWAY_ID, f.originId, f.eventId, f.eventType, f.maxHops, now, auth).eventTimeMs == now
  {
    hide Cut, Tag, Body;
  }

  /** An emergency that asks for it is always acknowledged; afterwards its key is recorded
      exactly if it was before, or a record was free. */
  lemma AcknowledgedWithoutRecordIff(g: GatewayState, f: Frame, now: u32, entropy: nat, appendOk: bool, queueOk: bool)
    requires Inv(g) && IsEmergency(f) && Terminated(f.originId) && HasFlag(f.flags, FLAG_REQUIRE_ACK)
    ensures var h := Processed(g, f, now, entropy, appendOk, queueOk);
      && h.ack == ScheduledAck(f, now, entropy)
      && (HasKey(h.journal.records, FrameKey(f)) <==>
            HasKey(g.journal.records, FrameKey(f)) || !Full(g.journal.records))
  {
    hide CString, HasFlag, Random, JP.Inv, ReportsExactly, RecordKey, FrameKey, HasKey, RecordsProper, ScheduledAck;
    FindFound(g.journal.records, FrameKey(f));
    FirstFreeIsFirst(g.journal.records);
    HeardKeepsInv(g, f, now);
    HeardKeepsJournal(g, f, now);
    var m := Heard(g, f, now);
    if Stores(g.journal, f) {
      NewEmergencyJournal(m, f, now, entropy, appendOk, queueOk);
      RekeyOne(NewRecord(f, now), HOST_QUEUED);
      StoreAddsKey(g.journal.records, FirstFree(g.journal.records), NewRecord(f, now).(status := HOST_QUEUED),
                   FrameKey(f));
    } else {
      OldEmergency(m, f, now, entropy, appendOk, queueOk);
    }
  }

  /** A record that a reboot reloads sits where it was with its payload and comes back queued,
      even if the write of that status had failed. Unless the removal of a commit failed, it was
      uncommitted and comes back exactly as it was. */
  lemma ReloadKeepsStatus(g: GatewayState, now: u32, writes: nat -> bool, auth: Auth, i: nat)
    requires Inv(g) && i < MAX_RECORDS
    ensures var before, after := g.journal.records, Initialised(g.journal.nvs, now, writes, auth).journal.records;
      && |before| == |after| == MAX_RECORDS
      && (after[i].used ==> i < MAX_NVS_SLOTS && before[i].used && after[i] == before[i].(status := HOST_QUEUED))
      && (after[i].used && JP.CommitsCleared(g.journal) ==> after[i] == before[i])
  {
    hide Booted, Initialised, Inv, ReportsExactly, AckSound, CString, FlashSound, IsAckFor, RecordReport, Positions,
         Proper;
    var h := Initialised(g.journal.nvs, now, writes, auth);
    InvFlashSound(g);
    BootEstablishesInv(g.journal.nvs, now, writes, auth);
    ReplayExactlyOnce(g.journal.nvs, now, writes, auth);
    LoadedLength(g.journal.nvs);
    KnownQueued(g, i);
    KnownQueued(h, i);
    if h.journal.records[i].used {
      ReloadedFrom(g.journal, i);
    }
  }

  lemma KnownQueued(g: GatewayState, i: nat)
    requires Inv(g) && i < MAX_RECORDS
    ensures JP.Inv(g.journal) && |g.journal.records| == MAX_RECORDS
    ensures g.journal.records[i].used ==> g.journal.records[i].status in {HOST_QUEUED, HOST_COMMITTED}
  {
  }

  lemma ReloadedFrom(s: State, i: nat)
    requires JP.Inv(s) && i < MAX_RECORDS && Booted(s.nvs).records[i].used
    ensures i < MAX_NVS_SLOTS && s.records[i].used && JP.SamePayload(Booted(s.nvs).records[i], s.records[i])
    ensures Booted(s.nvs).records[i].status != HOST_COMMITTED
    ensures JP.CommitsCleared(s) ==> Uncommitted(s.records[i])
  {
    hide ReadSlot, CString;
    assert i < MAX_NVS_SLOTS ==> JP.SlotBacked(s, i);
    assert i < MAX_NVS_SLOTS ==> JP.Live(s.nvs, i);
  }

  // ---------------------------------------------------------------------
  // What a crash leaves behind
  // ---------------------------------------------------------------------

  lemma BackedFlashSound(s: State)
    requires JP.Inv(s) && forall i :: 0 <= i < MAX_RECORDS && s.records[i].used ==> Proper(s.records[i])
    ensures FlashSound(s.nvs)
  {
    hide ReadSlot, CString;
    JP.InvGivesNvsSound(s);
    forall i | 0 <= i < MAX_NVS_SLOTS && JP.Live(s.nvs, i)
      ensures Proper(ReadSlot(s.nvs, i).record)
    {
      assert JP.SlotBacked(s, i);
    }
  }

  lemma InvFlashSound(g: GatewayState)
    requires Inv(g)
    ensures FlashSound(g.journal.nvs)
  {
    hide JP.Inv, Proper, FlashSound, ReportsExactly, AckSound;
    JournalLength(g.journal);
    BackedFlashSound(g.journal);
  }

  /** Power fails between the two flash writes of a new emergency. */
  lemma CrashBetweenWrites(g: GatewayState, f: Frame, now: u32, ok: bool)
    requires Inv(g) && IsEmergency(f) && Terminated(f.originId)
    ensures FlashSound(Appended(g.journal, f, now, ok).nvs)
  {
    hide JP.Inv, FlashSound, ReportsExactly, AckSound, CString, Cut, WriteSlot;
    JournalLength(g.journal);
    JP.StepKeepsInv(g.journal, JP.Append(f, now, ok));
    FirstFreeIsFirst(g.journal.records);
    CutName(f.originId);
    JournalLength(Appended(g.journal, f, now, ok));
    BackedFlashSound(Appended(g.journal, f, now, ok));
  }

  /** A boot that is interrupted after sweeping some slots, or in the middle of the replay. */
  datatype Interruption =
    | WhileLoading(slots: nat)
    | WhileReplaying(turns: nat, now: u32, writes: nat -> bool)

  function FlashAfter(nvs: Nvs, cut: Interruption, auth: Auth): Nvs {
    match cut
    case WhileLoading(n) => Swept(nvs, n)
    case WhileReplaying(n, now, writes) => Replayed(Loaded(nvs, 0), n, now, writes, auth).journal.nvs
  }

  lemma InterruptedBootSound(nvs: Nvs, cut: Interruption, auth: Auth)
    requires FlashSound(nvs)
    ensures FlashSound(FlashAfter(nvs, cut, auth))
  {
    match cut
    case WhileLoading(n) =>
      SweptSound(nvs, n);
    case WhileReplaying(n, now, writes) =>
      PartialReplaySound(nvs, n, now, writes, auth);
  }

  lemma SweptSound(nvs: Nvs, n: nat)
    requires FlashSound(nvs)
    ensures FlashSound(Swept(nvs, n))
  {
    hide ReadSlot, Swept, CString;
    JP.CutsKeepSound(nvs, [n]);
    assert JP.AfterCuts(nvs, [n]) == Swept(nvs, n);
    forall i | 0 <= i < MAX_NVS_SLOTS && JP.Live(Swept(nvs, n), i)
      ensures Proper(ReadSlot(Swept(nvs, n), i).record)
    {
      SweptReads(nvs, n, i);
    }
  }

  lemma PartialReplaySound(nvs: Nvs, n: nat, now: u32, writes: nat -> bool, auth: Auth)
    requires FlashSound(nvs)
    ensures FlashSound(Replayed(Loaded(nvs, 0), n, now, writes, auth).journal.nvs)
  {
    hide Booted, Positions, Replayed, JP.Inv, FlashSound, IsAckFor, Proper;
    LoadedProper(nvs);
    var loaded := Booted(nvs);
    JournalLength(loaded);
    ReplayPast(loaded, Loaded(nvs, 0), n, now, writes, auth);
    var g := Replayed(Loaded(nvs, 0), n, now, writes, auth);
    forall i | 0 <= i < MAX_RECORDS && g.journal.records[i].used
      ensures Proper(g.journal.records[i])
    {
      SameProper(loaded.records[i], g.journal.records[i]);
    }
    BackedFlashSound(g.journal);
  }
}
