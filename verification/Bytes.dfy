/** Fixed-width integers, little-endian encodings and fixed-size C strings. */
module Bytes {

  const TWO_8 := 0x100
  const TWO_16 := 0x1_0000
  const TWO_32 := 0x1_0000_0000

  type u8 = x: int | 0 <= x < TWO_8
  type u16 = x: int | 0 <= x < TWO_16
  type u32 = x: int | 0 <= x < TWO_32
  type i16 = x: int | -0x8000 <= x < 0x8000
  type i32 = x: int | -0x8000_0000 <= x < 0x8000_0000

  /** `x + 1` in a `uint32_t`. */
  function Succ32(x: u32): u32 {
    (x + 1) % TWO_32
  }

  // ---------------------------------------------------------------------
  // Little-endian layout of the multi-byte fields
  // ---------------------------------------------------------------------

  function LE16(x: u16): (b: seq<u8>)
    ensures |b| == 2
  {
    [x % 256, x / 256]
  }

  function LE32(x: u32): (b: seq<u8>)
    ensures |b| == 4
  {
    LE16(x % TWO_16) + LE16(x / TWO_16)
  }

  function FromLE16(b: seq<u8>): u16
    requires |b| == 2
  {
    var lo: int, hi: int := b[0], b[1];
    lo + 256 * hi
  }

  function FromLE32(b: seq<u8>): u32
    requires |b| == 4
  {
    var lo: int, hi: int := FromLE16(b[..2]), FromLE16(b[2..]);
    lo + TWO_16 * hi
  }

  /** Two's complement view of the signed fields. */
  function Unsigned16(x: i16): u16 { if x < 0 then x + TWO_16 else x }
  function Signed16(x: u16): i16 { if x >= 0x8000 then x - TWO_16 else x }
  function Unsigned32(x: i32): u32 { if x < 0 then x + TWO_32 else x }
  function Signed32(x: u32): i32 { if x >= 0x8000_0000 then x - TWO_32 else x }

  lemma LE16RoundTrip(x: u16, b: seq<u8>)
    requires |b| == 2
    ensures FromLE16(LE16(x)) == x
    ensures LE16(FromLE16(b)) == b
  {
  }

  lemma LE32RoundTrip(x: u32, b: seq<u8>)
    requires |b| == 4
    ensures FromLE32(LE32(x)) == x
    ensures LE32(FromLE32(b)) == b
  {
    var lo, hi := LE16(x % TWO_16), LE16(x / TWO_16);
    assert (lo + hi)[..2] == lo && (lo + hi)[2..] == hi;
    LE16RoundTrip(x % TWO_16, b[..2]);
    LE16RoundTrip(x / TWO_16, b[2..]);
    var y := FromLE32(b);
    assert y % TWO_16 == FromLE16(b[..2]) && y / TWO_16 == FromLE16(b[2..]);
    assert b == b[..2] + b[2..];
  }

  // ---------------------------------------------------------------------
  // Device identifiers: char[6] compared with strncmp and copied with strncpy
  // ---------------------------------------------------------------------

  const DEVICE_ID_LEN := 6

  type Id = s: seq<u8> | |s| == DEVICE_ID_LEN witness [0, 0, 0, 0, 0, 0]

  const NO_ID: Id := [0, 0, 0, 0, 0, 0]

  /** The characters before the first NUL. */
  function CString(s: seq<u8>): seq<u8> {
    if s == [] || s[0] == 0 then [] else [s[0]] + CString(s[1..])
  }

  lemma CStringIsPrefix(s: seq<u8>)
    ensures var c := CString(s);
      && |c| <= |s| && c == s[..|c|]
      && (|c| < |s| ==> s[|c|] == 0)
      && forall i :: 0 <= i < |c| ==> c[i] != 0
  {
    if s == [] || s[0] == 0 {
    } else {
      CStringIsPrefix(s[1..]);
      var c := CString(s[1..]);
      assert [s[0]] + c == s[..1 + |c|];
    }
  }

  /** `strncmp(a, b, 6) == 0`: equal up to the first NUL, or in all six bytes. */
  predicate SameId(a: Id, b: Id) {
    CString(a) == CString(b)
  }

  /** The array holds a NUL, so that it is a C string. */
  predicate Terminated(a: Id) {
    |CString(a)| < DEVICE_ID_LEN
  }

  function Zeros(n: nat): (z: seq<u8>)
    ensures |z| == n
  {
    seq(n, _ => 0)
  }

  function Take(s: seq<u8>, n: nat): seq<u8> {
    if |s| <= n then s else s[..n]
  }

  /** `strncpy(dst, src, 6)` or `strncpy(dst, src, 5)` followed by `dst[5] = 0`:
      at most five characters, padded with NULs. */
  function Cut(src: Id): Id {
    var c := Take(CString(src), DEVICE_ID_LEN - 1);
    c + Zeros(DEVICE_ID_LEN - |c|)
  }

  lemma CutName(src: Id)
    ensures CString(Cut(src)) == Take(CString(src), DEVICE_ID_LEN - 1)
    ensures Terminated(Cut(src))
  {
    var c := Take(CString(src), DEVICE_ID_LEN - 1);
    CStringIsPrefix(src);
    CStringOfPadded(c, DEVICE_ID_LEN - |c|);
  }

  lemma CStringOfPadded(c: seq<u8>, n: nat)
    requires forall i :: 0 <= i < |c| ==> c[i] != 0
    ensures CString(c + Zeros(n)) == c
  {
    var s := c + Zeros(n);
    if c == [] {
    } else {
      assert s[1..] == c[1..] + Zeros(n);
      CStringOfPadded(c[1..], n);
    }
  }

  /** Cutting leaves an identifier's name alone exactly when it is terminated. */
  lemma CutKeepsName(a: Id)
    ensures SameId(Cut(a), a) <==> Terminated(a)
  {
    CutName(a);
    CStringIsPrefix(a);
  }

  /** An identifier that has been cut once is not changed by cutting again. */
  lemma CutIdempotent(a: Id)
    ensures Cut(Cut(a)) == Cut(a)
  {
    CutName(a);
  }
}
