/** What a receiver rejects: every change of a sealed frame within sixteen consecutive bits. And what
    such a change of a stored record can do to a boot: nothing but lose the record. */
module Integrity {
  import opened Bytes
  import opened Crc
  import opened Frames
  import opened Protocol
  import Journal
  import Node

  lemma {:induction false} MessageBitsOf(a: seq<u8>, b: seq<u8>)
    ensures MessageBits(a + b) == MessageBits(a) + MessageBits(b)
    decreases |a|
  {
    if a == [] {
      assert a + b == b;
    } else {
      assert (a + b)[1..] == a[1..] + b;
      MessageBitsOf(a[1..], b);
    }
  }

  lemma PrefixBits(x: seq<u8>, n: nat)
    requires n <= |x|
    ensures MessageBits(x[..n]) == MessageBits(x)[..8 * n]
  {
    MessageBitsOf(x[..n], x[n..]);
    assert x[..n] + x[n..] == x;
  }

  /** Messages whose first `8 * n` bits agree have the same first `n` bytes. */
  lemma PrefixAgrees(x: seq<u8>, y: seq<u8>, n: nat)
    requires n <= |x| && |x| == |y|
    requires forall i :: 0 <= i < 8 * n ==> MessageBits(x)[i] == MessageBits(y)[i]
    ensures x[..n] == y[..n]
  {
    PrefixBits(x, n);
    PrefixBits(y, n);
    MessageBitsInjective(x[..n], y[..n]);
  }

  lemma BurstInFront(m: seq<u8>, v: seq<u8>, n: seq<u8>, w: seq<u8>, lo: nat)
    requires |m| == |n| && BurstAt(m + v, n + w, lo)
    ensures BurstAt(m, n, lo)
  {
    MessageBitsOf(m, v);
    MessageBitsOf(n, w);
    forall i | 0 <= i < 8 * |m| && !(lo <= i < lo + 16)
      ensures MessageBits(m)[i] == MessageBits(n)[i]
    {
      assert MessageBits(m + v)[i] == MessageBits(n + w)[i];
    }
  }

  /** If the checksums behind two messages differ then the burst reaches them, and so it leaves
      all but the last two bytes of the messages alone. */
  lemma ChecksumHit(m: seq<u8>, c: u16, n: seq<u8>, d: u16, lo: nat)
    requires |m| == |n| >= 2 && BurstAt(m + LE16(c), n + LE16(d), lo) && c != d
    ensures lo > 8 * |m| - 16 && m[..|m| - 2] == n[..|m| - 2]
  {
    if lo <= 8 * |m| - 16 {
      ChecksumBits(m, c, n, d, lo);
    }
    PrefixAgrees(m + LE16(c), n + LE16(d), |m| - 2);
    assert (m + LE16(c))[..|m| - 2] == m[..|m| - 2] && (n + LE16(d))[..|m| - 2] == n[..|m| - 2];
  }

  lemma ChecksumBits(m: seq<u8>, c: u16, n: seq<u8>, d: u16, lo: nat)
    requires |m| == |n| && BurstAt(m + LE16(c), n + LE16(d), lo) && lo + 16 <= 8 * |m|
    ensures c == d
  {
    hide LE16;
    MessageBitsOf(m, LE16(c));
    MessageBitsOf(n, LE16(d));
    var v, w := MessageBits(LE16(c)), MessageBits(LE16(d));
    forall i | 0 <= i < 16
      ensures v[i] == w[i]
    {
      assert v[i] == MessageBits(m + LE16(c))[8 * |m| + i] && w[i] == MessageBits(n + LE16(d))[8 * |m| + i];
    }
    MessageBitsInjective(LE16(c), LE16(d));
    LE16RoundTrip(c, LE16(c));
    LE16RoundTrip(d, LE16(d));
  }

  lemma SameUpToTag(f: Frame, g: Frame)
    requires Serialize(f)[..39] == Serialize(g)[..39]
    ensures StableOf(f) == StableOf(g)
    ensures f.authTag == g.authTag ==> Body(f) == Body(g)
  {
    var x, y := Serialize(f), Serialize(g);
    var h := g.(authTag := f.authTag, crc16 := f.crc16);
    BodyParts(f);
    BodyParts(g);
    BodyParts(h);
    assert x[..39] == Body(f)[..39] && y[..39] == Body(g)[..39];
    assert Body(h) == Kind(g) + Ids(g) + Counters(g) + Position(g) + Tail(g) + LE32(h.authTag);
    assert Body(g)[..39] == Kind(g) + Ids(g) + Counters(g) + Position(g) + Tail(g) == Body(h)[..39];
    assert Body(f) == Body(f)[..39] + LE32(f.authTag);
    assert Serialize(h) == Serialize(f);
    ParseSerialize(h);
    ParseSerialize(f);
  }

  /** Two accepted frames that differ only in a short burst have the same body. */
  lemma AcceptedBurstKeepsBody(f: Frame, g: Frame, auth: Auth, lo: nat)
    requires Accepts(f, auth) && Accepts(g, auth) && HasFlag(f.flags, FLAG_AUTH_PRESENT)
    requires BurstAt(Serialize(f), Serialize(g), lo)
    ensures Body(f) == Body(g)
  {
    if Body(f) != Body(g) {
      BurstInFront(Body(f), LE16(f.crc16), Body(g), LE16(g.crc16), lo);
      BurstDetected(Body(f), Body(g), lo);
      ChecksumHit(Body(f), f.crc16, Body(g), g.crc16, lo);
      FirstBytes(f, g);
      SameUpToTag(f, g);
      SameTag(f, g, auth);
    }
  }

  lemma FirstBytes(f: Frame, g: Frame)
    requires Body(f)[..41] == Body(g)[..41]
    ensures Serialize(f)[..39] == Serialize(g)[..39]
  {
    assert Serialize(f)[..39] == Body(f)[..41][..39] && Serialize(g)[..39] == Body(g)[..41][..39];
  }

  lemma SameTag(f: Frame, g: Frame, auth: Auth)
    requires Accepts(f, auth) && Accepts(g, auth) && HasFlag(f.flags, FLAG_AUTH_PRESENT)
    requires StableOf(f) == StableOf(g)
    ensures f.authTag == g.authTag
  {
    InnerInjective(f, g);
  }

  /** A burst of at most sixteen bits anywhere in the 45 bytes of a sealed frame,
      in particular any damage to a single byte, is rejected. */
  lemma CorruptionRejected(f: Frame, auth: Auth, received: seq<u8>, lo: nat)
    requires Accepts(f, auth) && HasFlag(f.flags, FLAG_AUTH_PRESENT)
    requires BurstAt(Serialize(f), received, lo) && received != Serialize(f)
    ensures !Accepts(Parse(received), auth)
  {
    var g := Parse(received);
    SerializeParse(received);
    if Accepts(g, auth) {
      AcceptedBurstKeepsBody(f, g, auth, lo);
    }
  }

  // ---------------------------------------------------------------------
  // Without the authentication flag
  // ---------------------------------------------------------------------

  lemma BurstBehindBody(f: Frame, g: Frame, lo: nat)
    requires BurstAt(Serialize(f), Serialize(g), lo) && lo >= 8 * BODY_SIZE
    ensures Body(f) == Body(g)
  {
    PrefixAgrees(Serialize(f), Serialize(g), BODY_SIZE);
    assert Serialize(f)[..BODY_SIZE] == Body(f) && Serialize(g)[..BODY_SIZE] == Body(g);
  }

  /** With or without a tag, a burst that stays inside the body or inside the stored checksum
      is rejected. */
  lemma OneSidedBurstRejected(f: Frame, auth: Auth, received: seq<u8>, lo: nat)
    requires Accepts(f, auth) && BurstAt(Serialize(f), received, lo) && received != Serialize(f)
    requires lo + 16 <= 8 * BODY_SIZE || lo >= 8 * BODY_SIZE
    ensures !Accepts(Parse(received), auth)
  {
    hide MessageBits;
    var g := Parse(received);
    SerializeParse(received);
    if lo >= 8 * BODY_SIZE {
      BurstBehindBody(f, g, lo);
    } else {
      BurstInFront(Body(f), LE16(f.crc16), Body(g), LE16(g.crc16), lo);
      if f.crc16 != g.crc16 {
        ChecksumHit(Body(f), f.crc16, Body(g), g.crc16, lo);
      } else {
        assert Body(f) != Body(g);
        BurstDetected(Body(f), Body(g), lo);
      }
    }
  }

  /** Damage to the last byte of the body and the low byte of the checksum. */
  function Struck(b: seq<u8>): (r: seq<u8>)
    requires |b| == FRAME_SIZE
    ensures |r| == FRAME_SIZE
  {
    b[42 := Xor8(b[42], 0x89)][43 := Xor8(b[43], 0xA1)]
  }

  /** Because the checksum is sent low byte first, this sixteen-bit burst across the border is
      not seen by any receiver unless the frame is authenticated. */
  lemma StrikeEscapes(f: Frame, auth: Auth)
    requires Accepts(f, auth) && !HasFlag(f.flags, FLAG_AUTH_PRESENT)
    ensures var received := Struck(Serialize(f));
      && received != Serialize(f) && BurstAt(Serialize(f), received, 336)
      && Accepts(Parse(received), auth)
  {
    hide Crc16, MessageBits, Xor8, Body;
    var x := Serialize(f);
    var y := Struck(x);
    StrikeIsBurst(x);
    SerializeParse(y);
    var g := Parse(y);
    BodyParts(f);
    assert x[..43] == Body(f) && y[..43] == Body(g) && x[43..] == LE16(f.crc16) && y[43..] == LE16(g.crc16);
    assert Body(g) == Body(f)[42 := Xor8(Body(f)[42], 0x89)];
    StrikeMovesChecksum(Body(f));
    assert LE16(Crc16(Body(g))) == y[43..];
    LE16RoundTrip(g.crc16, [0, 0]);
    LE16RoundTrip(Crc16(Body(g)), [0, 0]);
  }

  lemma StrikeIsBurst(x: seq<u8>)
    requires |x| == FRAME_SIZE
    ensures Struck(x) != x && BurstAt(x, Struck(x), 336)
  {
    hide MessageBits;
    var y := Struck(x);
    assert Xor8(x[42], 0x89) % 2 != x[42] % 2;
    hide Xor8;
    assert x[..42] == y[..42] && x[44..] == y[44..];
    SameEnds(x, y, 42, 44);
  }

  /** Outside the bytes `lo..hi` the bits agree if the bytes do. */
  lemma SameEnds(x: seq<u8>, y: seq<u8>, lo: nat, hi: nat)
    requires |x| == |y| && lo <= hi <= |x| && x[..lo] == y[..lo] && x[hi..] == y[hi..]
    ensures forall i :: 0 <= i < 8 * |x| && !(8 * lo <= i < 8 * hi) ==> MessageBits(x)[i] == MessageBits(y)[i]
  {
    PrefixBits(x, lo);
    PrefixBits(y, lo);
    SuffixBits(x, hi);
    SuffixBits(y, hi);
    hide MessageBits;
    var v, w := MessageBits(x), MessageBits(y);
    forall i | 0 <= i < 8 * |x| && !(8 * lo <= i < 8 * hi)
      ensures v[i] == w[i]
    {
      if i < 8 * lo {
        assert v[i] == v[..8 * lo][i] && w[i] == w[..8 * lo][i];
      } else {
        assert v[i] == v[8 * hi..][i - 8 * hi] && w[i] == w[8 * hi..][i - 8 * hi];
      }
    }
  }

  lemma SuffixBits(x: seq<u8>, n: nat)
    requires n <= |x|
    ensures MessageBits(x[n..]) == MessageBits(x)[8 * n..]
  {
    MessageBitsOf(x[..n], x[n..]);
    assert x[..n] + x[n..] == x;
  }

  ghost predicate RejectsBursts(f: Frame, auth: Auth) {
    forall received, lo :: BurstAt(Serialize(f), received, lo) && received != Serialize(f) ==>
      !Accepts(Parse(received), auth)
  }

  /** Every burst of at most sixteen bits is rejected exactly for authenticated frames. */
  lemma BurstsRejectedIffAuthenticated(f: Frame, auth: Auth)
    requires Accepts(f, auth)
    ensures RejectsBursts(f, auth) <==> HasFlag(f.flags, FLAG_AUTH_PRESENT)
  {
    hide Accepts, BurstAt, HasFlag, Serialize;
    if HasFlag(f.flags, FLAG_AUTH_PRESENT) {
      forall received, lo | BurstAt(Serialize(f), received, lo) && received != Serialize(f)
        ensures |received| == FRAME_SIZE && !Accepts(Parse(received), auth)
      {
        BurstLength(Serialize(f), received, lo);
        CorruptionRejected(f, auth, received, lo);
      }
    } else {
      StrikeEscapes(f, auth);
    }
  }

  lemma BurstLength(x: seq<u8>, y: seq<u8>, lo: nat)
    requires BurstAt(x, y, lo)
    ensures |x| == |y|
  {
  }

  // ---------------------------------------------------------------------
  // Damaged flash
  // ---------------------------------------------------------------------

  lemma BurstWithTail(m: seq<u8>, n: seq<u8>, z: seq<u8>, lo: nat)
    requires |m| == |n| && BurstAt(m, n, lo)
    ensures BurstAt(m + z, n + z, lo)
  {
    MessageBitsOf(m, z);
    MessageBitsOf(n, z);
  }

  /** A message in front of its checksum, which also covers the constant `z`, and what became of
      both: if they still fit, all but the last two bytes of the message are as they were. */
  lemma GuardedBurst(m: seq<u8>, n: seq<u8>, z: seq<u8>, d: u16, lo: nat)
    requires |m| == |n| >= 2 && BurstAt(m + LE16(Crc16(m + z)), n + LE16(d), lo)
    ensures Crc16(n + z) == d ==> m[..|m| - 2] == n[..|m| - 2]
    ensures Crc16(n + z) == d && Crc16(m + z) == d ==> m == n
  {
    hide Crc16, MessageBits;
    var c := Crc16(m + z);
    if c != d {
      ChecksumHit(m, c, n, d, lo);
    } else if m != n {
      BurstInFront(m, LE16(c), n, LE16(d), lo);
      BurstWithTail(m, n, z, lo);
      assert (m + z)[..|m|] == m && (n + z)[..|m|] == n;
      BurstDetected(m + z, n + z, lo);
    }
  }

  /** The bytes of a slot of the gateway: magic, record, checksum. */
  function SlotBytes(s: Journal.Slot): seq<u8>
    requires s.Slot?
  {
    LE32(s.magic) + Journal.RecordBytes(s.record) + LE16(s.crc16)
  }

  /** What a put leaves in the slot of a record. */
  function WrittenSlot(r: Journal.Record): (s: Journal.Slot)
    ensures s.Slot?
  {
    Journal.WriteSlot(map[], 0, r, true)[0]
  }

  /** Nothing of a record is left out of its bytes. */
  lemma SlotBytesInjective(r: Journal.Record, t: Journal.Record)
    ensures Journal.RecordBytes(r) == Journal.RecordBytes(t) <==> r == t
  {
    hide Head, Place, Rest;
    SlotParts(r);
    SlotParts(t);
    if Journal.RecordBytes(r) == Journal.RecordBytes(t) {
      SameParts(Head(r), Place(r), Rest(r), Head(t), Place(t), Rest(t));
      HeadInjective(r, t);
      PlaceInjective(r, t);
      RestInjective(r, t);
    }
  }

  lemma HeadInjective(r: Journal.Record, t: Journal.Record)
    requires Head(r) == Head(t)
    ensures r.used == t.used && r.originId == t.originId && r.eventId == t.eventId && r.eventType == t.eventType
    ensures r.firstSenderId == t.firstSenderId
  {
    hide LE32, FromLE32, Head;
    HeadFields(r);
    HeadFields(t);
    LE32RoundTrip(r.eventId, LE32(r.eventId));
    LE32RoundTrip(t.eventId, LE32(t.eventId));
  }

  lemma PlaceInjective(r: Journal.Record, t: Journal.Record)
    requires Place(r) == Place(t)
    ensures r.firstRxMs == t.firstRxMs && r.latE7 == t.latE7 && r.lonE7 == t.lonE7
  {
    hide LE32, FromLE32, Place, Unsigned32;
    PlaceFields(r);
    PlaceFields(t);
    LE32RoundTrip(r.firstRxMs, LE32(r.firstRxMs));
    LE32RoundTrip(t.firstRxMs, LE32(t.firstRxMs));
    SamePoint(r.latE7, t.latE7);
    SamePoint(r.lonE7, t.lonE7);
  }

  lemma RestInjective(r: Journal.Record, t: Journal.Record)
    requires Rest(r) == Rest(t)
    ensures r.batteryPct == t.batteryPct && r.hopCount == t.hopCount && r.rssiDbm == t.rssiDbm
    ensures r.attempt == t.attempt && r.status == t.status && r.protocolVersion == t.protocolVersion
    ensures r.payloadCrc16 == t.payloadCrc16
  {
    hide LE16, FromLE16, Rest, Unsigned16;
    RestFields(r);
    RestFields(t);
    SameLevel(r.rssiDbm, t.rssiDbm);
    LE16RoundTrip(r.attempt, LE16(r.attempt));
    LE16RoundTrip(t.attempt, LE16(t.attempt));
    LE16RoundTrip(r.payloadCrc16, LE16(r.payloadCrc16));
    LE16RoundTrip(t.payloadCrc16, LE16(t.payloadCrc16));
  }

  /** The bytes in the middle of three parts. */
  lemma Middle(x: seq<u8>, a: seq<u8>, b: seq<u8>, c: seq<u8>)
    requires x == a + b + c
    ensures x[|a|..|a| + |b|] == b
  {
  }

  lemma SameParts(a: seq<u8>, b: seq<u8>, c: seq<u8>, d: seq<u8>, e: seq<u8>, f: seq<u8>)
    requires |a| == |d| && |b| == |e| && |c| == |f| && a + b + c == d + e + f
    ensures a == d && b == e && c == f
  {
    Middle(a + b + c, [], a, b + c);
    Middle(a + b + c, a, b, c);
    Middle(a + b + c, a + b, c, []);
    Middle(d + e + f, [], d, e + f);
    Middle(d + e + f, d, e, f);
    Middle(d + e + f, d + e, f, []);
  }

  function Head(r: Journal.Record): (x: seq<u8>)
    ensures |x| == 20
  {
    [if r.used then 1 else 0] + r.originId + [0] + LE32(r.eventId) + [r.eventType] + r.firstSenderId + [0]
  }

  function Place(r: Journal.Record): (x: seq<u8>)
    ensures |x| == 12
  {
    LE32(r.firstRxMs) + LE32(Unsigned32(r.latE7)) + LE32(Unsigned32(r.lonE7))
  }

  function Rest(r: Journal.Record): (x: seq<u8>)
    ensures |x| == 12
  {
    [r.batteryPct, r.hopCount] + LE16(Unsigned16(r.rssiDbm)) + LE16(r.attempt) + [r.status, r.protocolVersion]
    + LE16(r.payloadCrc16) + [0, 0]
  }

  lemma SlotParts(r: Journal.Record)
    ensures Journal.RecordBytes(r) == Head(r) + Place(r) + Rest(r)
  {
    hide LE32, LE16, Unsigned32, Unsigned16;
  }

  lemma HeadFields(r: Journal.Record)
    ensures var x := Head(r);
      && x[0] == (if r.used then 1 else 0) && x[1..7] == r.originId && x[8..12] == LE32(r.eventId)
      && x[12] == r.eventType && x[13..19] == r.firstSenderId
  {
    hide LE32;
    var u, z, t := [if r.used then 1 else 0], [0], [r.eventType];
    var id := LE32(r.eventId);
    Middle(Head(r), u, r.originId, z + id + t + r.firstSenderId + z);
    Middle(Head(r), u + r.originId + z, id, t + r.firstSenderId + z);
    Middle(Head(r), u + r.originId + z + id + t, r.firstSenderId, z);
  }

  lemma PlaceFields(r: Journal.Record)
    ensures var x := Place(r);
      x[..4] == LE32(r.firstRxMs) && x[4..8] == LE32(Unsigned32(r.latE7)) && x[8..] == LE32(Unsigned32(r.lonE7))
  {
    hide LE32, Unsigned32;
  }

  lemma RestFields(r: Journal.Record)
    ensures var x := Rest(r);
      && x[0] == r.batteryPct && x[1] == r.hopCount && x[2..4] == LE16(Unsigned16(r.rssiDbm))
      && x[4..6] == LE16(r.attempt) && x[6] == r.status && x[7] == r.protocolVersion
      && x[8..10] == LE16(r.payloadCrc16)
  {
    hide LE16, Unsigned16;
    var b, v, z := [r.batteryPct, r.hopCount], [r.status, r.protocolVersion], [0, 0];
    var l, a, c := LE16(Unsigned16(r.rssiDbm)), LE16(r.attempt), LE16(r.payloadCrc16);
    Middle(Rest(r), b, l, a + v + c + z);
    Middle(Rest(r), b + l, a, v + c + z);
    Middle(Rest(r), b + l + a + v, c, z);
  }

  lemma SameLevel(a: i16, b: i16)
    requires LE16(Unsigned16(a)) == LE16(Unsigned16(b))
    ensures a == b
  {
    LE16RoundTrip(Unsigned16(a), LE16(Unsigned16(a)));
    LE16RoundTrip(Unsigned16(b), LE16(Unsigned16(b)));
  }

  /** Whatever sixteen consecutive bits of a written slot are damaged, the slot is unreadable, and
      boot leaves its record unused. */
  lemma DamagedSlotUnreadable(nvs: Journal.Nvs, i: nat, r: Journal.Record, lo: nat)
    requires i in nvs && nvs[i].Slot? && SlotBytes(nvs[i]) != SlotBytes(WrittenSlot(r))
    requires BurstAt(SlotBytes(WrittenSlot(r)), SlotBytes(nvs[i]), lo)
    ensures Journal.ReadSlot(nvs, i) == Journal.Unreadable
    ensures i < Journal.MAX_RECORDS ==> Journal.Booted(nvs).records[i] == Journal.UNUSED
  {
    hide Crc16, MessageBits, LE16, LE32, Unsigned32, Unsigned16, BurstAt;
    var s, w := nvs[i], WrittenSlot(r);
    var m := LE32(w.magic) + Journal.RecordBytes(r);
    var n := LE32(s.magic) + Journal.RecordBytes(s.record);
    assert m == m[..|m| - 2] + [0, 0] && n == n[..|n| - 2] + [0, 0] && m + [] == m && n + [] == n;
    GuardedBurst(m, n, [], s.crc16, lo);
  }

  /** The bytes of the pending record of a node: magic, record, checksum. */
  function BlobBytes(b: Node.Blob): seq<u8>
    requires b.Blob?
  {
    Node.RecordBytes(b.magic, b.record)[..32] + LE16(b.crc16)
  }

  function WrittenBlob(r: Node.EventRecord): (b: Node.Blob)
    ensures b.Blob?
  {
    Node.Saved(Node.Flash(0, Node.Missing), r, true).pending
  }

  lemma RecordPrefix(m: u32, r: Node.EventRecord, n: u32, s: Node.EventRecord)
    requires Node.RecordBytes(m, r)[..30] == Node.RecordBytes(n, s)[..30]
    ensures m == n && s == r.(updatedMs := s.updatedMs)
  {
    hide LE32, LE16, FromLE32, FromLE16, Unsigned32, Signed32;
    var x, y := Node.RecordBytes(m, r), Node.RecordBytes(n, s);
    RecordParts(m, r);
    RecordParts(n, s);
    assert forall i :: 0 <= i < 30 ==> x[i] == x[..30][i] && y[i] == y[..30][i];
    assert x[..4] == y[..4] && x[4..8] == y[4..8] && x[10..12] == y[10..12];
    assert x[16..20] == y[16..20] && x[20..24] == y[20..24] && x[24..28] == y[24..28];
    LE32RoundTrip(m, LE32(m));
    LE32RoundTrip(n, LE32(n));
    LE32RoundTrip(r.eventId, LE32(r.eventId));
    LE32RoundTrip(s.eventId, LE32(s.eventId));
    LE16RoundTrip(r.attempt, LE16(r.attempt));
    LE16RoundTrip(s.attempt, LE16(s.attempt));
    LE32RoundTrip(r.createdMs, LE32(r.createdMs));
    LE32RoundTrip(s.createdMs, LE32(s.createdMs));
    SamePoint(r.latE7, s.latE7);
    SamePoint(r.lonE7, s.lonE7);
  }

  lemma BlobBytesInjective(m: u32, r: Node.EventRecord, n: u32, t: Node.EventRecord)
    ensures Node.RecordBytes(m, r) == Node.RecordBytes(n, t) <==> m == n && r == t
  {
    hide LE32, LE16, FromLE32;
    if Node.RecordBytes(m, r) == Node.RecordBytes(n, t) {
      RecordPrefix(m, r, n, t);
      assert Node.RecordBytes(m, r)[28..32] == LE32(r.updatedMs) && Node.RecordBytes(n, t)[28..32] == LE32(t.updatedMs);
      LE32RoundTrip(r.updatedMs, LE32(r.updatedMs));
      LE32RoundTrip(t.updatedMs, LE32(t.updatedMs));
    }
  }

  lemma RecordParts(m: u32, r: Node.EventRecord)
    ensures var x := Node.RecordBytes(m, r);
      && x[..4] == LE32(m) && x[4..8] == LE32(r.eventId) && x[8] == r.eventType && x[10..12] == LE16(r.attempt)
      && x[12] == r.state && x[13] == r.batteryPct && x[16..20] == LE32(Unsigned32(r.latE7))
      && x[20..24] == LE32(Unsigned32(r.lonE7)) && x[24..28] == LE32(r.createdMs)
  {
    hide LE32, LE16, Unsigned32;
  }

  lemma SamePoint(a: i32, b: i32)
    requires LE32(Unsigned32(a)) == LE32(Unsigned32(b))
    ensures a == b
  {
    LE32RoundTrip(Unsigned32(a), LE32(Unsigned32(a)));
    LE32RoundTrip(Unsigned32(b), LE32(Unsigned32(b)));
  }

  /** Whatever sixteen consecutive bits of a saved record are damaged, what can still be loaded is
      that record, but for the time of its last update; and nothing can be if the damage stays in
      front of the checksum or within it. */
  lemma DamagedRecord(flash: Node.Flash, r: Node.EventRecord, lo: nat)
    requires flash.pending.Blob? && BlobBytes(flash.pending) != BlobBytes(WrittenBlob(r))
    requires BurstAt(BlobBytes(WrittenBlob(r)), BlobBytes(flash.pending), lo)
    ensures Node.LoadPending(flash).Loaded? ==>
              var u := Node.LoadPending(flash).record.updatedMs;
              Node.LoadPending(flash) == Node.Loaded(r.(updatedMs := u)) && lo < 256 < lo + 16
  {
    hide Crc16, MessageBits, LE16, LE32, Unsigned32, BurstAt;
    var b, w := flash.pending, WrittenBlob(r);
    var m, n := Node.RecordBytes(w.magic, r)[..32], Node.RecordBytes(b.magic, b.record)[..32];
    assert m + [0, 0] == Node.RecordBytes(w.magic, r) && n + [0, 0] == Node.RecordBytes(b.magic, b.record);
    GuardedBurst(m, n, [0, 0], b.crc16, lo);
    if Node.LoadPending(flash).Loaded? {
      assert m[..30] == Node.RecordBytes(w.magic, r)[..30] && n[..30] == Node.RecordBytes(b.magic, b.record)[..30];
      RecordPrefix(w.magic, r, b.magic, b.record);
      OneSided(m, n, w.crc16, b.crc16, lo);
    }
  }

  /** If the burst leaves the message or the checksum alone, only the other one differs. */
  lemma OneSided(m: seq<u8>, n: seq<u8>, c: u16, d: u16, lo: nat)
    requires |m| == |n| && BurstAt(m + LE16(c), n + LE16(d), lo)
    ensures 8 * |m| <= lo ==> m == n
    ensures lo + 16 <= 8 * |m| ==> c == d
  {
    hide LE16;
    var x, y := m + LE16(c), n + LE16(d);
    if 8 * |m| <= lo {
      PrefixAgrees(x, y, |m|);
      assert x[..|m|] == m && y[..|m|] == n;
    }
    if lo + 16 <= 8 * |m| {
      ChecksumBits(m, c, n, d, lo);
    }
  }

  /** So a boot resumes nothing, or the very event that was saved. */
  lemma DamagedRecordNeverMisleads(id: Id, flash: Node.Flash, r: Node.EventRecord, lo: nat, now: u32, auth: Auth)
    requires flash.pending.Blob? && BlobBytes(flash.pending) != BlobBytes(WrittenBlob(r))
    requires BurstAt(BlobBytes(WrittenBlob(r)), BlobBytes(flash.pending), lo)
    ensures var b := Node.Booted(id, flash, now, auth);
      || (b == Node.PoweredOn(id, flash) && !b.pendingValid)
      || b == Node.Booted(id, Node.Saved(flash, r, true), now, auth).(flash := flash)
    ensures lo + 16 <= 256 || lo >= 256 ==> !Node.Booted(id, flash, now, auth).pendingValid
  {
    hide Node.LoadPending, Node.Saved, BurstAt, BlobBytes, WrittenBlob, Node.NodeFrame, Cut;
    DamagedRecord(flash, r, lo);
    Node.LoadAfterSave(flash, r, true);
  }
}
