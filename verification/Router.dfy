/** The repeater: a ring cache of recently queued keys and one pending relay. */
module Router {
  import opened Bytes
  import opened Clock
  import opened Frames
  import opened Protocol

  const CACHE_SIZE := 150
  const RELAY_MIN_DELAY := 300
  const RELAY_MAX_DELAY := 1000
  const RELAY_TTL_MS := 30000

  /** What duplicate suppression compares. */
  datatype Key = Key(name: seq<u8>, eventId: u32, frameType: u8)

  function KeyOf(f: Frame): Key {
    Key(CString(f.originId), f.eventId, f.frameType)
  }

  /** What the cache remembers of a frame: its origin is cut to five characters. */
  function StoredKey(f: Frame): Key {
    Key(CString(Cut(f.originId)), f.eventId, f.frameType)
  }

  datatype Pending =
    | Idle
    | Pending(frame: Frame, scheduledAt: u32, delayMs: u32, queuedAt: u32)

  /** The repeater's counters, and two fates it does not count itself. */
  datatype Stats = Stats(received: u32, relayed: u32, dropped: u32, duplicates: u32, expired: u32,
                         cancelled: nat, overwritten: nat)

  datatype Relay = Relay(own: Id, marked: seq<Key>, pending: Pending, stats: Stats)

  // ---------------------------------------------------------------------
  // Specification
  // ---------------------------------------------------------------------

  /** The keys of the last 150 marks. */
  function Recent(marked: seq<Key>): seq<Key> {
    if |marked| <= CACHE_SIZE then marked else marked[|marked| - CACHE_SIZE..]
  }

  predicate Cancels(p: Pending, f: Frame) {
    p.Pending? && KeyOf(p.frame) == KeyOf(f)
  }

  function Drop(s: Stats): Stats {
    s.(dropped := Succ32(s.dropped))
  }

  predicate Relayable(f: Frame) {
    f.hopCount < f.maxHops && f.frameType in {FRAME_EVENT, FRAME_ACK, FRAME_HEARTBEAT}
  }

  predicate Wanted(r: Relay, f: Frame) {
    !SameId(f.senderId, r.own) && KeyOf(f) !in Recent(r.marked) && Relayable(f)
  }

  /** `shouldRelayV1`, whose answer is `Wanted`. */
  function Offered(r: Relay, f: Frame): Relay {
    var s := r.stats.(received := Succ32(r.stats.received));
    if Wanted(r, f) then r.(stats := s)
    else if SameId(f.senderId, r.own) || KeyOf(f) !in Recent(r.marked) then r.(stats := Drop(s))
    else
      var s := Drop(s.(duplicates := Succ32(s.duplicates)));
      if Cancels(r.pending, f) then r.(pending := Idle, stats := s.(cancelled := s.cancelled + 1))
      else r.(stats := s)
  }

  function Backoff(f: Frame, entropy: nat): u32 {
    if f.frameType == FRAME_ACK then Random(RELAY_MIN_DELAY / 3, RELAY_MIN_DELAY, entropy)
    else Random(RELAY_MIN_DELAY, RELAY_MAX_DELAY, entropy)
  }

  /** `queueRelayV1`. A frame out of hops is not queued, but it has by then already
      replaced the frame of a relay that is still pending. */
  function Queued(r: Relay, f: Frame, now: u32, entropy: nat): Relay {
    if f.hopCount >= f.maxHops then
      r.(pending := if r.pending.Pending? then r.pending.(frame := f) else Idle, stats := Drop(r.stats))
    else
      r.(marked := r.marked + [StoredKey(f)],
         pending := Pending(Forwarded(f, r.own), now, Backoff(f, entropy), now),
         stats := if r.pending.Pending? then r.stats.(overwritten := r.stats.overwritten + 1) else r.stats)
  }

  predicate Expired(p: Pending, now: u32) {
    p.Pending? && Elapsed(now, p.queuedAt) > RELAY_TTL_MS
  }

  predicate Sends(p: Pending, now: u32) {
    p.Pending? && !Expired(p, now) && Due(now, p.scheduledAt, p.delayMs)
  }

  /** `update`, and the frames it puts on the air. */
  function Polled(r: Relay, now: u32): Relay {
    if Expired(r.pending, now) then
      r.(pending := Idle, stats := Drop(r.stats.(expired := Succ32(r.stats.expired))))
    else if Sends(r.pending, now) then
      r.(pending := Idle, stats := r.stats.(relayed := Succ32(r.stats.relayed)))
    else r
  }

  function OnAir(r: Relay, now: u32): seq<Frame> {
    if Sends(r.pending, now) then [r.pending.frame] else []
  }

  /** A frame taken from the radio: RSSI, then offer, then queue if wanted. */
  function Received(r: Relay, f: Frame, rssi: i16, now: u32, entropy: nat): Relay {
    var g := f.(lastRssiDbm := rssi);
    if Wanted(r, g) then Queued(Offered(r, g), g, now, entropy) else Offered(r, g)
  }

  function Fresh(own: Id): Relay {
    Relay(Cut(own), [], Idle, Stats(0, 0, 0, 0, 0, 0, 0))
  }

  // ---------------------------------------------------------------------
  // The implementation
  // ---------------------------------------------------------------------

  datatype CacheEntry = CacheEntry(originId: Id, eventId: u32, frameType: u8, used: bool)

  function EntryKey(e: CacheEntry): Key {
    Key(CString(e.originId), e.eventId, e.frameType)
  }

  /** The ring holds the last marks: slot `i` below the write index belongs to the
      current round, the others to the round before. */
  ghost predicate RingHolds(ring: seq<CacheEntry>, index: nat, marked: seq<Key>, rounds: nat) {
    && |ring| == CACHE_SIZE
    && index < CACHE_SIZE
    && |marked| == CACHE_SIZE * rounds + index
    && (forall i :: 0 <= i < index ==> ring[i].used && EntryKey(ring[i]) == marked[CACHE_SIZE * rounds + i])
    && (forall i :: index <= i < CACHE_SIZE ==>
          if rounds == 0 then !ring[i].used
          else ring[i].used && EntryKey(ring[i]) == marked[CACHE_SIZE * (rounds - 1) + i])
  }

  lemma RingIsRecent(ring: seq<CacheEntry>, index: nat, marked: seq<Key>, rounds: nat, k: Key)
    requires RingHolds(ring, index, marked, rounds)
    ensures (exists i :: 0 <= i < CACHE_SIZE && ring[i].used && EntryKey(ring[i]) == k) <==> k in Recent(marked)
  {
    var recent := Recent(marked);
    if i :| 0 <= i < CACHE_SIZE && ring[i].used && EntryKey(ring[i]) == k {
      if i < index {
        assert recent[CACHE_SIZE * rounds + i - (|marked| - |recent|)] == k;
      } else {
        assert rounds > 0;
        assert recent[i - index] == k;
      }
    }
    if k in recent {
      var j :| 0 <= j < |recent| && recent[j] == k;
      var at := j + |marked| - |recent|;
      assert marked[at] == k;
      var i := if at >= CACHE_SIZE * rounds then at - CACHE_SIZE * rounds else at - CACHE_SIZE * (rounds - 1);
      assert ring[i].used && EntryKey(ring[i]) == k;
    }
  }

  /** `v1Seen[]` and `v1SeenIndex`. */
  class SeenCache {
    const entries: array<CacheEntry>
    var index: nat
    ghost var marked: seq<Key>
    ghost var rounds: nat

    ghost predicate Valid()
      reads this, entries
    {
      RingHolds(entries[..], index, marked, rounds)
    }

    constructor ()
      ensures Valid() && fresh(entries)
      ensures marked == []
    {
      entries := new CacheEntry[CACHE_SIZE](_ => CacheEntry(NO_ID, 0, 0, false));
      index := 0;
      marked, rounds := [], 0;
    }

    /** Scans the ring: true exactly for the keys of the last 150 marks. */
    method IsDuplicate(frame: Frame) returns (dup: bool)
      requires Valid()
      ensures dup <==> KeyOf(frame) in Recent(marked)
    {
      var k := KeyOf(frame);
      RingIsRecent(entries[..], index, marked, rounds, k);
      for i := 0 to CACHE_SIZE
        invariant forall j :: 0 <= j < i ==> !(entries[j].used && EntryKey(entries[j]) == k)
      {
        if !entries[i].used {
          continue;
        }
        if EntryKey(entries[i]) == k {
          assert entries[..][i].used && EntryKey(entries[..][i]) == k;
          return true;
        }
      }
      return false;
    }

    method MarkSeen(frame: Frame)
      requires Valid()
      modifies this, entries
      ensures Valid()
      ensures marked == old(marked) + [StoredKey(frame)]
    {
      hide CString, Cut;
      entries[index] := CacheEntry(Cut(frame.originId), frame.eventId, frame.frameType, true);
      index := (index + 1) % CACHE_SIZE;
      marked := marked + [StoredKey(frame)];
      if index == 0 {
        rounds := rounds + 1;
      }
    }
  }

  class RepeaterRouter {
    var ownNodeId: Id
    const seen: SeenCache
    var pendingV1: Frame
    var pendingV1Valid: bool
    var pendingV1ScheduledAt: u32
    var pendingV1DelayMs: u32
    var pendingV1QueuedAt: u32
    var packetsReceived: u32
    var packetsRelayed: u32
    var packetsDropped: u32
    var duplicatesDropped: u32
    var ttlExpired: u32

    ghost var cancelled: nat
    ghost var overwritten: nat
    ghost var radio: seq<Frame>

    ghost predicate Valid()
      reads seen, seen.entries
    {
      seen.Valid()
    }

    ghost function PendingView(): Pending
      reads this
    {
      if pendingV1Valid then Pending(pendingV1, pendingV1ScheduledAt, pendingV1DelayMs, pendingV1QueuedAt) else Idle
    }

    ghost function StatsView(): Stats
      reads this
    {
      Stats(packetsReceived, packetsRelayed, packetsDropped, duplicatesDropped, ttlExpired, cancelled, overwritten)
    }

    ghost function View(): Relay
      reads this, seen
    {
      Relay(ownNodeId, seen.marked, PendingView(), StatsView())
    }

    constructor (nodeId: Id)
      ensures Valid() && fresh(seen) && fresh(seen.entries)
      ensures View() == Fresh(nodeId) && radio == []
    {
      ownNodeId := Cut(nodeId);
      seen := new SeenCache();
      pendingV1 := BLANK;
      pendingV1Valid := false;
      pendingV1ScheduledAt, pendingV1DelayMs, pendingV1QueuedAt := 0, 0, 0;
      packetsReceived, packetsRelayed, packetsDropped, duplicatesDropped, ttlExpired := 0, 0, 0, 0, 0;
      cancelled, overwritten, radio := 0, 0, [];
    }

    /** Counts the frame and decides; a duplicate of the pending relay cancels it. */
    method ShouldRelay(frame: Frame) returns (wanted: bool)
      requires Valid()
      modifies this
      ensures Valid() && radio == old(radio)
      ensures wanted == Wanted(old(View()), frame)
      ensures View() == Offered(old(View()), frame)
    {
      hide RingHolds, CString, Recent, Cut, Succ32;
      packetsReceived := Succ32(packetsReceived);
      if SameId(frame.senderId, ownNodeId) {
        packetsDropped := Succ32(packetsDropped);
        return false;
      }
      var dup := seen.IsDuplicate(frame);
      if dup {
        duplicatesDropped := Succ32(duplicatesDropped);
        packetsDropped := Succ32(packetsDropped);
        if pendingV1Valid && SameId(pendingV1.originId, frame.originId)
           && pendingV1.eventId == frame.eventId && pendingV1.frameType == frame.frameType {
          pendingV1Valid := false;
          cancelled := cancelled + 1;
        }
        return false;
      }
      if frame.hopCount >= frame.maxHops {
        packetsDropped := Succ32(packetsDropped);
        return false;
      }
      if !(frame.frameType == FRAME_EVENT || frame.frameType == FRAME_ACK || frame.frameType == FRAME_HEARTBEAT) {
        packetsDropped := Succ32(packetsDropped);
        return false;
      }
      return true;
    }

    method Schedule(delayMs: u32, now: u32)
      modifies `pendingV1Valid, `pendingV1ScheduledAt, `pendingV1DelayMs, `pendingV1QueuedAt, `overwritten
      ensures PendingView() == Pending(pendingV1, now, delayMs, now)
      ensures overwritten == old(if pendingV1Valid then overwritten + 1 else overwritten)
    {
      if pendingV1Valid {
        overwritten := overwritten + 1;
      }
      pendingV1ScheduledAt := now;
      pendingV1DelayMs := delayMs;
      pendingV1QueuedAt := now;
      pendingV1Valid := true;
    }

    /** The frame is copied into the pending slot and prepared there, so that a frame out
        of hops has overwritten it when it is turned down. */
    method QueueRelay(frame: Frame, now: u32, entropy: nat)
      requires Valid()
      modifies this, seen, seen.entries
      ensures Valid() && radio == old(radio)
      ensures View() == Queued(old(View()), frame, now, entropy)
    {
      hide RingHolds, Forwarded, Cut, Backoff;
      var ok;
      ok, pendingV1 := PrepareRelay(frame, ownNodeId);
      if !ok {
        packetsDropped := Succ32(packetsDropped);
      } else {
        seen.MarkSeen(frame);
        Schedule(Backoff(frame, entropy), now);
      }
    }

    /** Drops a stale relay, or transmits a due one. */
    method Update(now: u32)
      requires Valid()
      modifies this
      ensures Valid()
      ensures View() == Polled(old(View()), now)
      ensures radio == old(radio) + OnAir(old(View()), now)
    {
      if pendingV1Valid {
        if Elapsed(now, pendingV1QueuedAt) > RELAY_TTL_MS {
          pendingV1Valid := false;
          ttlExpired := Succ32(ttlExpired);
          packetsDropped := Succ32(packetsDropped);
        } else if Due(now, pendingV1ScheduledAt, pendingV1DelayMs) {
          radio := radio + [pendingV1];
          pendingV1Valid := false;
          packetsRelayed := Succ32(packetsRelayed);
        }
      }
    }

    /** The receive branch of the repeater's loop, for a frame that passed validation. */
    method Receive(frame: Frame, rssi: i16, now: u32, entropy: nat)
      requires Valid()
      modifies this, seen, seen.entries
      ensures Valid() && radio == old(radio)
      ensures View() == Received(old(View()), frame, rssi, now, entropy)
    {
      var rx := frame.(lastRssiDbm := rssi);
      var wanted := ShouldRelay(rx);
      if wanted {
        QueueRelay(rx, now, entropy);
      }
    }
  }
}
