/** Building, sealing, checking and relaying frames. */
module Protocol {
  import opened Bytes
  import opened Frames
  import Crc

  /** A device's key and its keyed hash; the hash itself is not interpreted. */
  datatype Auth = Auth(psk: seq<u8>, hmac: (seq<u8>, seq<u8>) -> u32)

  // ---------------------------------------------------------------------
  // Specification
  // ---------------------------------------------------------------------

  function Tag(auth: Auth, f: Frame): u32 {
    auth.hmac(auth.psk, Inner(f))
  }

  function WithChecksum(f: Frame): Frame {
    f.(crc16 := Crc.Crc16(Body(f)))
  }

  function Sealed(f: Frame, auth: Auth): Frame {
    var g := f.(flags := WithFlag(f.flags, FLAG_AUTH_PRESENT));
    WithChecksum(g.(authTag := Tag(auth, g)))
  }

  predicate Accepts(f: Frame, auth: Auth) {
    && f.protocolVersion == PROTOCOL_VERSION
    && f.crc16 == Crc.Crc16(Body(f))
    && (HasFlag(f.flags, FLAG_AUTH_PRESENT) ==> f.authTag == Tag(auth, f))
  }

  const BLANK: Frame :=
    Frame(PROTOCOL_VERSION, 0, 0, 0, NO_ID, NO_ID, 0, 0, 0, MAX_HOPS_DEFAULT, 0, 0, 0, 0, 0, 0, 0)

  function StatusFlags(base: u8, gpsValid: bool, lowBattery: bool): u8 {
    var flags := if gpsValid then WithFlag(base, FLAG_GPS_VALID) else base;
    if lowBattery then WithFlag(flags, FLAG_LOW_BATTERY) else flags
  }

  function EventFrame(origin: Id, sender: Id, eventId: u32, eventType: u8, attempt: u16, timeMs: u32,
                      latE7: i32, lonE7: i32, batteryPct: u8, gpsValid: bool, lowBattery: bool,
                      auth: Auth, maxHops: u8 := MAX_HOPS_DEFAULT): Frame {
    Sealed(BLANK.(frameType := FRAME_EVENT, eventType := eventType, flags := StatusFlags(FLAG_REQUIRE_ACK, gpsValid,
        lowBattery),
                  originId := Cut(origin), senderId := Cut(sender), eventId := eventId, attempt := attempt,
                  maxHops := maxHops, eventTimeMs := timeMs, latE7 := latE7, lonE7 := lonE7,
                  batteryPct := batteryPct), auth)
  }

  function AckFrame(sender: Id, origin: Id, eventId: u32, eventType: u8, maxHops: u8, now: u32, auth: Auth): Frame {
    Sealed(BLANK.(frameType := FRAME_ACK, eventType := eventType, originId := Cut(origin), senderId := Cut(sender),
                  eventId := eventId, maxHops := maxHops, eventTimeMs := now, batteryPct := 100), auth)
  }

  function HeartbeatFrame(node: Id, now: u32, latE7: i32, lonE7: i32, batteryPct: u8,
                          gpsValid: bool, lowBattery: bool, auth: Auth): Frame {
    Sealed(BLANK.(frameType := FRAME_HEARTBEAT, eventType := EVENT_NONE,
                  flags := StatusFlags(0, gpsValid, lowBattery),
                  originId := Cut(node), senderId := Cut(node), eventTimeMs := now,
                  latE7 := latE7, lonE7 := lonE7, batteryPct := batteryPct), auth)
  }

  /** What a relay with identifier `id` sends for `f`. */
  function Forwarded(f: Frame, id: Id): Frame
    requires f.hopCount < f.maxHops
  {
    WithChecksum(f.(hopCount := f.hopCount + 1, senderId := Cut(id)))
  }

  // ---------------------------------------------------------------------
  // The operations
  // ---------------------------------------------------------------------

  method CopyInto(inner: array<u8>, pos: nat, src: seq<u8>) returns (next: nat)
    requires pos + |src| <= inner.Length
    modifies inner
    ensures next == pos + |src|
    ensures inner[..next] == old(inner[..pos]) + src
  {
    for i := 0 to |src|
      invariant inner[..pos + i] == old(inner[..pos]) + src[..i]
    {
      inner[pos + i] := src[i];
      assert inner[..pos + i + 1] == inner[..pos + i] + [src[i]];
      assert src[..i + 1] == src[..i] + [src[i]];
    }
    assert src[..|src|] == src;
    next := pos + |src|;
  }

  /** The first half of the buffer: what names the event and its attempt. */
  method CopyIdentity(inner: array<u8>, f: Frame) returns (next: nat)
    requires inner.Length == 30
    modifies inner
    ensures next == 17
    ensures inner[..next] == Kind(f) + f.originId + LE32(f.eventId) + LE16(f.attempt) + [f.maxHops]
  {
    hide LE32, LE16, Kind;
    next := CopyInto(inner, 0, Kind(f));
    next := CopyInto(inner, next, f.originId);
    next := CopyInto(inner, next, LE32(f.eventId));
    next := CopyInto(inner, next, LE16(f.attempt));
    next := CopyInto(inner, next, [f.maxHops]);
  }

  /** Fills the 30-byte buffer field by field and hashes it. */
  method ComputeHmac32(auth: Auth, f: Frame) returns (tag: u32)
    ensures tag == Tag(auth, f)
  {
    hide LE32, LE16, Unsigned32, Kind, Position, Inner;
    var inner := new u8[30];
    var pos := CopyIdentity(inner, f);
    ghost var front := inner[..pos];
    pos := CopyInto(inner, pos, LE32(f.eventTimeMs));
    pos := CopyInto(inner, pos, LE32(Unsigned32(f.latE7)));
    pos := CopyInto(inner, pos, LE32(Unsigned32(f.lonE7)));
    pos := CopyInto(inner, pos, [f.batteryPct]);
    InnerGrouping(f, front);
    tag := auth.hmac(auth.psk, inner[..pos]);
  }

  lemma InnerGrouping(f: Frame, front: seq<u8>)
    requires front == Kind(f) + f.originId + LE32(f.eventId) + LE16(f.attempt) + [f.maxHops]
    ensures front + LE32(f.eventTimeMs) + LE32(Unsigned32(f.latE7)) + LE32(Unsigned32(f.lonE7)) + [f.batteryPct]
            == Inner(f)
  {
    assert front + LE32(f.eventTimeMs) + LE32(Unsigned32(f.latE7)) + LE32(Unsigned32(f.lonE7)) == front + Position(f);
  }

  method FinalizeFrame(frame: Frame, auth: Auth) returns (f: Frame)
    ensures f == Sealed(frame, auth)
  {
    f := frame.(flags := WithFlag(frame.flags, FLAG_AUTH_PRESENT));
    var tag := ComputeHmac32(auth, f);
    f := f.(authTag := tag);
    f := f.(crc16 := 0);
    var crc := Crc.CalcCrc16(Body(f));
    f := f.(crc16 := crc);
  }

  method ValidateFrame(frame: Frame, auth: Auth) returns (ok: bool)
    ensures ok == Accepts(frame, auth)
  {
    if frame.protocolVersion != PROTOCOL_VERSION {
      return false;
    }
    var tmp := frame.(crc16 := 0);
    var expected := Crc.CalcCrc16(Body(tmp));
    assert Body(tmp) == Body(frame);
    if frame.crc16 != expected {
      return false;
    }
    if HasFlag(frame.flags, FLAG_AUTH_PRESENT) {
      var tag := ComputeHmac32(auth, frame);
      if frame.authTag != tag {
        return false;
      }
    }
    return true;
  }

  method BuildEventFrame(origin: Id, sender: Id, eventId: u32, eventType: u8, attempt: u16, timeMs: u32,
                         latE7: i32, lonE7: i32, batteryPct: u8, gpsValid: bool, lowBattery: bool,
                         auth: Auth, maxHops: u8 := MAX_HOPS_DEFAULT) returns (f: Frame)
    ensures f == EventFrame(origin, sender, eventId, eventType, attempt, timeMs, latE7, lonE7,
                            batteryPct, gpsValid, lowBattery, auth, maxHops)
  {
    var flags := FLAG_REQUIRE_ACK;
    if gpsValid {
      flags := WithFlag(flags, FLAG_GPS_VALID);
    }
    if lowBattery {
      flags := WithFlag(flags, FLAG_LOW_BATTERY);
    }
    f := BLANK;
    f := f.(frameType := FRAME_EVENT, eventType := eventType, flags := flags);
    f := f.(originId := Cut(origin), senderId := Cut(sender));
    f := f.(eventId := eventId, attempt := attempt, hopCount := 0, maxHops := maxHops, eventTimeMs := timeMs);
    f := f.(latE7 := latE7, lonE7 := lonE7, batteryPct := batteryPct, lastRssiDbm := 0);
    f := FinalizeFrame(f, auth);
  }

  method BuildAckFrame(sender: Id, origin: Id, eventId: u32, eventType: u8, maxHops: u8, now: u32, auth: Auth)
    returns (f: Frame)
    ensures f == AckFrame(sender, origin, eventId, eventType, maxHops, now, auth)
  {
    f := BLANK;
    f := f.(frameType := FRAME_ACK, eventType := eventType, flags := 0);
    f := f.(originId := Cut(origin), senderId := Cut(sender));
    f := f.(eventId := eventId, attempt := 0, hopCount := 0, maxHops := maxHops, eventTimeMs := now);
    f := f.(batteryPct := 100, lastRssiDbm := 0);
    f := FinalizeFrame(f, auth);
  }

  method PrepareRelay(frame: Frame, newSender: Id) returns (ok: bool, f: Frame)
    ensures ok <==> frame.hopCount < frame.maxHops
    ensures f == if ok then Forwarded(frame, newSender) else frame
  {
    f := frame;
    if f.hopCount >= f.maxHops {
      return false, f;
    }
    f := f.(hopCount := f.hopCount + 1);
    f := f.(senderId := Cut(newSender));
    f := f.(crc16 := 0);
    var crc := Crc.CalcCrc16(Body(f));
    f := f.(crc16 := crc);
    ok := true;
  }

  // ---------------------------------------------------------------------
  // Sealing and checking
  // ---------------------------------------------------------------------

  /** The frames that validate are exactly the version-1 frames that finalizing leaves as they are, or, for
      those without the authentication flag, computing the checksum does. */
  lemma AcceptedIffSealed(f: Frame, auth: Auth)
    ensures Accepts(f, auth) <==>
              f.protocolVersion == 1 && f == if HasFlag(f.flags, 16) then Sealed(f, auth) else WithChecksum(f)
  {
    hide HasFlag;
    var g := f.(authTag := Tag(auth, f));
    assert Body(WithChecksum(g)) == Body(g) && Body(WithChecksum(f)) == Body(f);
    if HasFlag(f.flags, FLAG_AUTH_PRESENT) {
      assert WithFlag(f.flags, FLAG_AUTH_PRESENT) == f.flags;
    }
  }

  /** A built event says what was passed to the builder, under both names cut to five characters, and has
      all its hops before it. */
  lemma EventFrameTells(origin: Id, sender: Id, eventId: u32, eventType: u8, attempt: u16, timeMs: u32, latE7: i32,
                        lonE7: i32, batteryPct: u8, gpsValid: bool, lowBattery: bool, auth: Auth, maxHops: u8)
    ensures var f := EventFrame(origin, sender, eventId, eventType, attempt, timeMs, latE7, lonE7, batteryPct, gpsValid,
                                lowBattery, auth, maxHops);
      && Accepts(f, auth) && f.frameType == 1 && f.eventType == eventType && f.eventId == eventId
      && CString(f.originId) == Take(CString(origin), 5) && CString(f.senderId) == Take(CString(sender), 5)
      && f.attempt == attempt && f.hopCount == 0 && f.maxHops == maxHops && f.eventTimeMs == timeMs
      && f.latE7 == latE7 && f.lonE7 == lonE7 && f.batteryPct == batteryPct
      && HasFlag(f.flags, 1) && (HasFlag(f.flags, 2) <==> lowBattery) && (HasFlag(f.flags, 4) <==> gpsValid)
      && HasFlag(f.flags, 16)
  {
    hide Cut, CString, Tag, Body, Accepts;
    CutName(origin);
    CutName(sender);
    SealedAccepted(BLANK.(frameType := FRAME_EVENT, eventType := eventType,
                     flags := StatusFlags(FLAG_REQUIRE_ACK, gpsValid, lowBattery), originId := Cut(origin),
                     senderId := Cut(sender), eventId := eventId, attempt := attempt, maxHops := maxHops,
                     eventTimeMs := timeMs, latE7 := latE7, lonE7 := lonE7, batteryPct := batteryPct), auth);
    StatusBits(FLAG_REQUIRE_ACK, gpsValid, lowBattery);
  }

  /** The status flags, and the authentication flag that sealing adds to them. */
  lemma StatusBits(base: u8, gps: bool, low: bool)
    requires base in {0, 1}
    ensures var flags := WithFlag(StatusFlags(base, gps, low), FLAG_AUTH_PRESENT);
      && (HasFlag(flags, 1) <==> base == 1) && (HasFlag(flags, 2) <==> low)
      && (HasFlag(flags, 4) <==> gps) && HasFlag(flags, 16)
  {
  }

  /** A heartbeat tells of a fix and of a low battery, and asks for no ACK. */
  lemma HeartbeatTells(id: Id, now: u32, latE7: i32, lonE7: i32, batteryPct: u8, gpsValid: bool, lowBattery: bool,
                       auth: Auth)
    ensures var f := HeartbeatFrame(id, now, latE7, lonE7, batteryPct, gpsValid, lowBattery, auth);
      && Accepts(f, auth) && f.frameType == 3 && f.eventType == 0 && f.eventId == 0 && f.attempt == 0
      && CString(f.originId) == CString(f.senderId) == Take(CString(id), 5)
      && f.hopCount == 0 && f.maxHops == 20 && f.eventTimeMs == now
      && f.latE7 == latE7 && f.lonE7 == lonE7 && f.batteryPct == batteryPct
      && !HasFlag(f.flags, 1) && (HasFlag(f.flags, 2) <==> lowBattery) && (HasFlag(f.flags, 4) <==> gpsValid)
      && HasFlag(f.flags, 16)
  {
    hide Cut, CString, Tag, Body, Accepts;
    CutName(id);
    SealedAccepted(BLANK.(frameType := FRAME_HEARTBEAT, eventType := EVENT_NONE,
                     flags := StatusFlags(0, gpsValid, lowBattery), originId := Cut(id), senderId := Cut(id),
                     eventTimeMs := now, latE7 := latE7, lonE7 := lonE7, batteryPct := batteryPct), auth);
    StatusBits(0, gpsValid, lowBattery);
  }

  lemma SealedAccepted(f: Frame, auth: Auth)
    requires f.protocolVersion == PROTOCOL_VERSION
    ensures Accepts(Sealed(f, auth), auth) && HasFlag(Sealed(f, auth).flags, FLAG_AUTH_PRESENT)
  {
    AuthFlagSet(f.flags);
    var g := f.(flags := WithFlag(f.flags, FLAG_AUTH_PRESENT));
    var h := g.(authTag := Tag(auth, g));
    assert Inner(h) == Inner(g) == Inner(WithChecksum(h));
    assert Body(WithChecksum(h)) == Body(h);
  }

  /** One hop: the receiver records its RSSI and then forwards. */
  datatype Hop = Hop(rssi: i16, relay: Id)

  function Relayed(f: Frame, hops: seq<Hop>): Frame
    requires f.hopCount + |hops| <= f.maxHops
    decreases |hops|
  {
    if hops == [] then f
    else Relayed(Forwarded(f.(lastRssiDbm := hops[0].rssi), hops[0].relay), hops[1..])
  }

  /** An accepted frame stays acceptable over every admissible chain of relays, which
      changes none of the stable fields nor the tag and counts the hops. */
  lemma {:induction false} MultiHopValidity(f: Frame, hops: seq<Hop>, auth: Auth)
    requires Accepts(f, auth) && f.hopCount + |hops| <= f.maxHops
    ensures var g := Relayed(f, hops);
      && Accepts(g, auth)
      && StableOf(g) == StableOf(f) && g.authTag == f.authTag
      && g.hopCount == f.hopCount + |hops|
      && (hops != [] ==> g.senderId == Cut(hops[|hops| - 1].relay) && g.lastRssiDbm == hops[|hops| - 1].rssi)
    decreases |hops|
  {
    if hops != [] {
      var g := f.(lastRssiDbm := hops[0].rssi);
      ForwardKeeps(g, hops[0].relay, auth);
      assert Tag(auth, g) == Tag(auth, f);
      MultiHopValidity(Forwarded(g, hops[0].relay), hops[1..], auth);
      if |hops| > 1 {
        assert hops[1..][|hops| - 2] == hops[|hops| - 1];
      }
    }
  }

  /** The tag of a sealed frame is the hash of its stable bytes under the sealing device's key. */
  lemma SealedTag(f: Frame, auth: Auth)
    ensures var g := Sealed(f, auth);
      g.authTag == auth.hmac(auth.psk, Inner(g))
  {
    var g := f.(flags := WithFlag(f.flags, FLAG_AUTH_PRESENT));
    assert Inner(Sealed(f, auth)) == Inner(g);
  }

  /** A device with another key accepts what is sealed under this one, after any admissible chain of
      relays, exactly if the two keys hash the stable bytes of the frame to the same tag. */
  lemma ForeignKeyIff(f: Frame, hops: seq<Hop>, auth: Auth, key: seq<u8>)
    requires f.protocolVersion == PROTOCOL_VERSION && f.hopCount + |hops| <= f.maxHops
    ensures var g := Relayed(Sealed(f, auth), hops);
      Accepts(g, Auth(key, auth.hmac)) <==> auth.hmac(key, Inner(g)) == auth.hmac(auth.psk, Inner(g))
  {
    hide Accepts, Sealed, HasFlag;
    var sealed := Sealed(f, auth);
    SealedAccepted(f, auth);
    SealedTag(f, auth);
    assert sealed.protocolVersion == PROTOCOL_VERSION && sealed.hopCount == f.hopCount && sealed.maxHops == f.maxHops
      by { SealedKeeps(f, auth); }
    MultiHopValidity(sealed, hops, auth);
    var g := Relayed(sealed, hops);
    InnerInjective(g, sealed);
    TaggedAccepted(g, auth, key);
  }

  lemma SealedKeeps(f: Frame, auth: Auth)
    ensures var g := Sealed(f, auth);
      g == f.(flags := g.flags, authTag := g.authTag, crc16 := g.crc16)
  {
  }

  lemma TaggedAccepted(g: Frame, auth: Auth, key: seq<u8>)
    requires Accepts(g, auth) && HasFlag(g.flags, FLAG_AUTH_PRESENT)
    ensures Accepts(g, Auth(key, auth.hmac)) <==> auth.hmac(key, Inner(g)) == g.authTag
  {
  }

  lemma ForwardKeeps(f: Frame, id: Id, auth: Auth)
    requires f.protocolVersion == PROTOCOL_VERSION && f.hopCount < f.maxHops
    requires HasFlag(f.flags, FLAG_AUTH_PRESENT) ==> f.authTag == Tag(auth, f)
    ensures var g := Forwarded(f, id);
      Accepts(g, auth) && StableOf(g) == StableOf(f) && g.authTag == f.authTag
  {
    var g := f.(hopCount := f.hopCount + 1, senderId := Cut(id));
    assert Body(WithChecksum(g)) == Body(g);
    InnerInjective(f, Forwarded(f, id));
  }
}
