/** The version-1 wire frame: 45 packed bytes, and the 30 hop-stable bytes under the tag. */
module Frames {
  import opened Bytes

  const PROTOCOL_VERSION: u8 := 1
  const MAX_HOPS_DEFAULT: u8 := 20

  const FRAME_EVENT: u8 := 1
  const FRAME_ACK: u8 := 2
  const FRAME_HEARTBEAT: u8 := 3

  const EVENT_NONE: u8 := 0
  const EVENT_FIRE: u8 := 1
  const EVENT_FLOOD: u8 := 2
  const EVENT_CRIME: u8 := 3
  const EVENT_SAFE: u8 := 4
  const EVENT_TEST: u8 := 0xFF

  const FLAG_REQUIRE_ACK: u8 := 1
  const FLAG_LOW_BATTERY: u8 := 2
  const FLAG_GPS_VALID: u8 := 4
  const FLAG_AUTH_PRESENT: u8 := 16

  datatype Frame = Frame(
    protocolVersion: u8, frameType: u8, eventType: u8, flags: u8,
    originId: Id, senderId: Id,
    eventId: u32, attempt: u16, hopCount: u8, maxHops: u8,
    eventTimeMs: u32, latE7: i32, lonE7: i32,
    batteryPct: u8, lastRssiDbm: i16, authTag: u32, crc16: u16)

  /** The fields that no relay may change. */
  datatype Stable = Stable(
    protocolVersion: u8, frameType: u8, eventType: u8, flags: u8, originId: Id,
    eventId: u32, attempt: u16, maxHops: u8, eventTimeMs: u32, latE7: i32, lonE7: i32, batteryPct: u8)

  function StableOf(f: Frame): Stable {
    Stable(f.protocolVersion, f.frameType, f.eventType, f.flags, f.originId,
           f.eventId, f.attempt, f.maxHops, f.eventTimeMs, f.latE7, f.lonE7, f.batteryPct)
  }

  /** `flags & mask` and `flags |= mask` for a one-bit mask. */
  predicate HasFlag(flags: u8, mask: u8)
    requires mask > 0
  {
    flags / mask % 2 == 1
  }

  function WithFlag(flags: u8, mask: u8): (r: u8)
    requires mask in {1, 2, 4, 16}
  {
    if HasFlag(flags, mask) then flags
    else
      assert flags + mask < TWO_8;
      flags + mask
  }

  lemma AuthFlagSet(flags: u8)
    ensures HasFlag(WithFlag(flags, FLAG_AUTH_PRESENT), FLAG_AUTH_PRESENT)
  {
    assert (flags + 16) / 16 == flags / 16 + 1;
  }

  lemma AuthFlagKeepsAckRequest(flags: u8)
    ensures HasFlag(WithFlag(flags, FLAG_AUTH_PRESENT), FLAG_REQUIRE_ACK) == HasFlag(flags, FLAG_REQUIRE_ACK)
  {
    assert (flags + 16) % 2 == flags % 2;
  }

  // ---------------------------------------------------------------------
  // Layout
  // ---------------------------------------------------------------------

  const FRAME_SIZE := 45
  const BODY_SIZE := 43

  function Kind(f: Frame): (b: seq<u8>)
    ensures |b| == 4
  {
    [f.protocolVersion, f.frameType, f.eventType, f.flags]
  }

  function Ids(f: Frame): (b: seq<u8>)
    ensures |b| == 12
  {
    f.originId + f.senderId
  }

  function Counters(f: Frame): (b: seq<u8>)
    ensures |b| == 8
  {
    LE32(f.eventId) + LE16(f.attempt) + [f.hopCount, f.maxHops]
  }

  function Position(f: Frame): (b: seq<u8>)
    ensures |b| == 12
  {
    LE32(f.eventTimeMs) + LE32(Unsigned32(f.latE7)) + LE32(Unsigned32(f.lonE7))
  }

  function Tail(f: Frame): (b: seq<u8>)
    ensures |b| == 3
  {
    [f.batteryPct] + LE16(Unsigned16(f.lastRssiDbm))
  }

  /** All bytes in front of the checksum. */
  function Body(f: Frame): (b: seq<u8>)
    ensures |b| == BODY_SIZE
  {
    Kind(f) + Ids(f) + Counters(f) + Position(f) + Tail(f) + LE32(f.authTag)
  }

  function Serialize(f: Frame): (b: seq<u8>)
    ensures |b| == FRAME_SIZE
  {
    Body(f) + LE16(f.crc16)
  }

  function Parse(b: seq<u8>): Frame
    requires |b| == FRAME_SIZE
  {
    Frame(b[0], b[1], b[2], b[3], b[4..10], b[10..16],
          FromLE32(b[16..20]), FromLE16(b[20..22]), b[22], b[23],
          FromLE32(b[24..28]), Signed32(FromLE32(b[28..32])), Signed32(FromLE32(b[32..36])),
          b[36], Signed16(FromLE16(b[37..39])), FromLE32(b[39..43]), FromLE16(b[43..45]))
  }

  /** The 30 bytes under the authentication tag. */
  function Inner(f: Frame): (b: seq<u8>)
    ensures |b| == 30
  {
    Kind(f) + f.originId + LE32(f.eventId) + LE16(f.attempt) + [f.maxHops] + Position(f) + [f.batteryPct]
  }

  lemma BodyParts(f: Frame)
    ensures var b := Body(f);
      && b[..4] == Kind(f) && b[4..16] == Ids(f) && b[16..24] == Counters(f)
      && b[24..36] == Position(f) && b[36..39] == Tail(f) && b[39..43] == LE32(f.authTag)
  {
    var b1 := Kind(f) + Ids(f);
    var b2 := b1 + Counters(f);
    var b3 := b2 + Position(f);
    var b4 := b3 + Tail(f);
    assert b1[..4] == Kind(f) && b1[4..16] == Ids(f);
    assert b2[..16] == b1 && b2[16..24] == Counters(f);
    assert b3[..24] == b2 && b3[24..36] == Position(f);
    assert b4[..36] == b3 && b4[36..39] == Tail(f);
    var b := Body(f);
    assert b[..39] == b4 && b[39..43] == LE32(f.authTag);
    assert b[..4] == b1[..4] && b[4..16] == b1[4..16] && b[16..24] == b2[16..24];
    assert b[24..36] == b3[24..36] && b[36..39] == b4[36..39];
  }

  lemma ParseSerialize(f: Frame)
    ensures Parse(Serialize(f)) == f
  {
    BodyParts(f);
    var b, body := Serialize(f), Body(f);
    assert b[..43] == body && b[43..45] == LE16(f.crc16);
    assert b[0] == Kind(f)[0] && b[1] == Kind(f)[1] && b[2] == Kind(f)[2] && b[3] == Kind(f)[3];
    assert b[4..10] == Ids(f)[..6] == f.originId && b[10..16] == Ids(f)[6..] == f.senderId;
    assert b[16..20] == Counters(f)[..4] == LE32(f.eventId) && b[20..22] == Counters(f)[4..6] == LE16(f.attempt);
    assert b[22] == Counters(f)[6] && b[23] == Counters(f)[7];
    assert b[24..28] == Position(f)[..4] == LE32(f.eventTimeMs);
    assert b[28..32] == Position(f)[4..8] == LE32(Unsigned32(f.latE7));
    assert b[32..36] == Position(f)[8..12] == LE32(Unsigned32(f.lonE7));
    assert b[36] == Tail(f)[0] && b[37..39] == Tail(f)[1..3] == LE16(Unsigned16(f.lastRssiDbm));
    assert b[39..43] == body[39..43];
    var z4, z2 := [0, 0, 0, 0], [0, 0];
    LE32RoundTrip(f.eventId, z4);
    LE32RoundTrip(f.eventTimeMs, z4);
    LE32RoundTrip(Unsigned32(f.latE7), z4);
    LE32RoundTrip(Unsigned32(f.lonE7), z4);
    LE32RoundTrip(f.authTag, z4);
    LE16RoundTrip(f.attempt, z2);
    LE16RoundTrip(Unsigned16(f.lastRssiDbm), z2);
    LE16RoundTrip(f.crc16, z2);
  }

  lemma ParsedFront(b: seq<u8>)
    requires |b| == FRAME_SIZE
    ensures var f := Parse(b);
      Kind(f) == b[..4] && Ids(f) == b[4..16] && Counters(f) == b[16..24]
  {
    var f := Parse(b);
    LE32RoundTrip(0, b[16..20]);
    LE16RoundTrip(0, b[20..22]);
    assert Counters(f) == b[16..20] + b[20..22] + [b[22], b[23]];
  }

  lemma ParsedBack(b: seq<u8>)
    requires |b| == FRAME_SIZE
    ensures var f := Parse(b);
      Position(f) == b[24..36] && Tail(f) == b[36..39] && LE32(f.authTag) == b[39..43] && LE16(f.crc16) == b[43..]
  {
    LE32RoundTrip(0, b[24..28]);
    LE32RoundTrip(0, b[28..32]);
    LE32RoundTrip(0, b[32..36]);
    LE16RoundTrip(0, b[37..39]);
    LE32RoundTrip(0, b[39..43]);
    LE16RoundTrip(0, b[43..45]);
    hide LE32, LE16, FromLE32, FromLE16;
    assert Position(Parse(b)) == b[24..28] + b[28..32] + b[32..36];
  }

  lemma SerializeParse(b: seq<u8>)
    requires |b| == FRAME_SIZE
    ensures Serialize(Parse(b)) == b
  {
    hide Parse, Kind, Ids, Counters, Position, Tail, LE32, LE16;
    ParsedFront(b);
    ParsedBack(b);
    assert Body(Parse(b)) == b[..43];
  }

  /** The tag covers an injective encoding of the stable fields. */
  lemma InnerInjective(f: Frame, g: Frame)
    ensures Inner(f) == Inner(g) <==> StableOf(f) == StableOf(g)
  {
    if Inner(f) == Inner(g) {
      InnerParts(f);
      InnerParts(g);
      assert Kind(f)[0] == Kind(g)[0] && Kind(f)[1] == Kind(g)[1] && Kind(f)[2] == Kind(g)[2]
          && Kind(f)[3] == Kind(g)[3];
      assert LE32(f.eventTimeMs) == Position(f)[..4] == Position(g)[..4] == LE32(g.eventTimeMs);
      assert LE32(Unsigned32(f.latE7)) == Position(f)[4..8] == Position(g)[4..8] == LE32(Unsigned32(g.latE7));
      assert LE32(Unsigned32(f.lonE7)) == Position(f)[8..12] == Position(g)[8..12] == LE32(Unsigned32(g.lonE7));
      var z4, z2 := [0, 0, 0, 0], [0, 0];
      LE32RoundTrip(f.eventId, z4);
      LE32RoundTrip(g.eventId, z4);
      LE16RoundTrip(f.attempt, z2);
      LE16RoundTrip(g.attempt, z2);
      LE32RoundTrip(f.eventTimeMs, z4);
      LE32RoundTrip(g.eventTimeMs, z4);
      LE32RoundTrip(Unsigned32(f.latE7), z4);
      LE32RoundTrip(Unsigned32(g.latE7), z4);
      LE32RoundTrip(Unsigned32(f.lonE7), z4);
      LE32RoundTrip(Unsigned32(g.lonE7), z4);
    }
  }

  lemma InnerParts(f: Frame)
    ensures var b := Inner(f);
      && b[..4] == Kind(f) && b[4..10] == f.originId && b[10..14] == LE32(f.eventId)
      && b[14..16] == LE16(f.attempt) && b[16] == f.maxHops && b[17..29] == Position(f) && b[29] == f.batteryPct
  {
    var b1 := Kind(f) + f.originId;
    var b2 := b1 + LE32(f.eventId);
    var b3 := b2 + LE16(f.attempt);
    var b4 := b3 + [f.maxHops];
    var b5 := b4 + Position(f);
    assert b1[..4] == Kind(f) && b1[4..10] == f.originId;
    assert b2[..10] == b1 && b2[10..14] == LE32(f.eventId);
    assert b3[..14] == b2 && b3[14..16] == LE16(f.attempt);
    assert b4[..16] == b3 && b4[16] == f.maxHops;
    assert b5[..17] == b4 && b5[17..29] == Position(f);
    var b := Inner(f);
    assert b[..29] == b5;
    assert b[..4] == b1[..4] && b[4..10] == b1[4..10] && b[10..14] == b2[10..14];
    assert b[14..16] == b3[14..16] && b[16] == b4[16] && b[17..29] == b5[17..29];
  }
}
