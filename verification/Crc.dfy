/** CRC-16 with generator x^16 + x^12 + x^5 + 1, most significant bit first,
    initial value 0xFFFF and no final complement. A `uint16_t` register is
    written as its sixteen bits, most significant first. */
module Crc {
  import opened Bytes

  type Bits = seq<bool>
  type Register = s: seq<bool> | |s| == 16 witness Repeat(false, 16)

  // ---------------------------------------------------------------------
  // Bits and numbers
  // ---------------------------------------------------------------------

  function Repeat(b: bool, n: nat): (r: Bits)
    ensures |r| == n
  {
    seq(n, _ => b)
  }

  function Pow2(n: nat): (p: nat)
    ensures p > 0
  {
    if n == 0 then 1 else 2 * Pow2(n - 1)
  }

  /** The low `n` bits of `x`. */
  function ToBits(x: nat, n: nat): (b: Bits)
    ensures |b| == n
  {
    if n == 0 then [] else ToBits(x / 2, n - 1) + [x % 2 == 1]
  }

  function Digit(b: bool): nat { if b then 1 else 0 }

  function ToNat(b: Bits): (x: nat)
    ensures x < Pow2(|b|)
    decreases |b|
  {
    if b == [] then 0 else 2 * ToNat(b[..|b| - 1]) + Digit(b[|b| - 1])
  }

  lemma {:induction false} NatRoundTrip(x: nat, n: nat)
    requires x < Pow2(n)
    ensures ToNat(ToBits(x, n)) == x
  {
    if n > 0 {
      var b := ToBits(x, n);
      assert b[..n - 1] == ToBits(x / 2, n - 1);
      NatRoundTrip(x / 2, n - 1);
    }
  }

  lemma {:induction false} ToNatInjective(a: Bits, b: Bits)
    requires |a| == |b| && ToNat(a) == ToNat(b)
    ensures a == b
    decreases |a|
  {
    if a != [] {
      var n := |a| - 1;
      ToNatInjective(a[..n], b[..n]);
      assert a == a[..n] + [a[n]] && b == b[..n] + [b[n]];
    }
  }

  /** `x << n`. */
  function Scaled(x: nat, n: nat): nat {
    if n == 0 then x else 2 * Scaled(x, n - 1)
  }

  lemma {:induction false} ToNatConcat(a: Bits, b: Bits)
    ensures ToNat(a + b) == Scaled(ToNat(a), |b|) + ToNat(b)
    decreases |b|
  {
    if b == [] {
      assert a + b == a;
    } else {
      var n := |b| - 1;
      assert (a + b)[..|a| + n] == a + b[..n];
      assert (a + b)[|a| + n] == b[n];
      ToNatConcat(a, b[..n]);
    }
  }

  lemma ScaledByte(x: nat)
    ensures Scaled(x, 8) == 256 * x
  {
    assert Scaled(x, 1) == 2 * x;
    assert Scaled(x, 2) == 4 * x;
    assert Scaled(x, 4) == 4 * Scaled(x, 2);
    assert Scaled(x, 6) == 4 * Scaled(x, 4);
  }

  /** Bitwise exclusive or of two unsigned numbers. */
  function BitXor(a: nat, b: nat): nat
    decreases a + b
  {
    if a == 0 && b == 0 then 0 else 2 * BitXor(a / 2, b / 2) + Digit(a % 2 != b % 2)
  }

  lemma {:induction false} XorIsBitXor(a: Bits, b: Bits)
    requires |a| == |b|
    ensures ToNat(Xor(a, b)) == BitXor(ToNat(a), ToNat(b))
    decreases |a|
  {
    if a != [] {
      hide BitXor, Pow2, Xor;
      var n := |a| - 1;
      XorSnoc(a, b);
      XorIsBitXor(a[..n], b[..n]);
      BitXorSnoc(ToNat(a[..n]), ToNat(b[..n]), a[n], b[n]);
    }
  }

  lemma XorSnoc(a: Bits, b: Bits)
    requires |a| == |b| > 0
    ensures var n := |a| - 1;
      Xor(a, b)[..n] == Xor(a[..n], b[..n]) && Xor(a, b)[n] == (a[n] != b[n])
  {
  }

  lemma BitXorSnoc(a: nat, b: nat, x: bool, y: bool)
    ensures BitXor(2 * a + Digit(x), 2 * b + Digit(y)) == 2 * BitXor(a, b) + Digit(x != y)
  {
    assert (2 * a + Digit(x)) / 2 == a && (2 * b + Digit(y)) / 2 == b;
  }

  lemma {:induction false} BitsOfXor(a: nat, b: nat, n: nat)
    ensures ToBits(BitXor(a, b), n) == Xor(ToBits(a, n), ToBits(b, n))
    decreases n
  {
    if n > 0 {
      BitsOfXor(a / 2, b / 2, n - 1);
      assert BitXor(a, b) / 2 == BitXor(a / 2, b / 2);
    }
  }

  /** `^` on bytes and on 16-bit words. */
  function Xor8(a: u8, b: u8): u8 {
    Pow2Values();
    XorBelow(a, b, 8);
    BitXor(a, b)
  }

  function Xor16(a: u16, b: u16): u16 {
    Pow2Values();
    XorBelow(a, b, 16);
    BitXor(a, b)
  }

  lemma XorBelow(a: nat, b: nat, n: nat)
    requires n in {8, 16} && a < Pow2(n) && b < Pow2(n)
    ensures BitXor(a, b) < Pow2(n) && Pow2(8) == TWO_8 && Pow2(16) == TWO_16
  {
    Pow2Values();
    NatRoundTrip(a, n);
    NatRoundTrip(b, n);
    XorIsBitXor(ToBits(a, n), ToBits(b, n));
  }

  // ---------------------------------------------------------------------
  // The algorithm
  // ---------------------------------------------------------------------

  const ONES: Register := Repeat(true, 16)

  /** 0x1021: bits 12, 5 and 0. */
  const POLY: Register :=
    [false, false, false, true, false, false, false, false,
     false, false, true, false, false, false, false, true]

  function Xor(a: Bits, b: Bits): (c: Bits)
    requires |a| == |b|
    ensures |c| == |a|
  {
    seq(|a|, i requires 0 <= i < |a| => a[i] != b[i])
  }

  /** `c << 1`, dropping the top bit. */
  function ShiftLeft(c: Register): Register {
    c[1..] + [false]
  }

  /** One turn of the inner loop. */
  function Shift(c: Register): Register {
    if c[0] then Xor(ShiftLeft(c), POLY) else ShiftLeft(c)
  }

  function Shifts(c: Register, n: nat): Register
    decreases n
  {
    if n == 0 then c else Shifts(Shift(c), n - 1)
  }

  /** `w` in the top bits of a register. */
  function Left(w: Bits): Register
    requires |w| <= 16
  {
    w + Repeat(false, 16 - |w|)
  }

  /** One turn of the outer loop: xor a byte into the top half, then shift eight times. */
  function FeedByte(c: Register, b: u8): Register {
    Shifts(Xor(c, Left(ToBits(b, 8))), 8)
  }

  function FeedBytes(c: Register, data: seq<u8>): Register
    decreases |data|
  {
    if data == [] then c else FeedBytes(FeedByte(c, data[0]), data[1..])
  }

  function Crc16(data: seq<u8>): u16 {
    ToUint16(FeedBytes(ONES, data))
  }

  function ToUint16(c: Register): u16 {
    Pow2Values();
    ToNat(c)
  }

  lemma {:induction false} ShiftsLast(c: Register, n: nat)
    ensures Shifts(c, n + 1) == Shift(Shifts(c, n))
    decreases n
  {
    if n > 0 {
      ShiftsLast(Shift(c), n - 1);
    }
  }

  lemma {:induction false} FeedLast(c: Register, data: seq<u8>, b: u8)
    ensures FeedBytes(c, data + [b]) == FeedByte(FeedBytes(c, data), b)
    decreases |data|
  {
    if data == [] {
      assert [b][1..] == [];
    } else {
      assert (data + [b])[1..] == data[1..] + [b];
      FeedLast(FeedByte(c, data[0]), data[1..], b);
    }
  }

  /** One turn of the inner loop on the `uint16_t` itself. */
  function ShiftWord(crc: u16): u16 {
    var shifted := 2 * crc % TWO_16;
    if crc >= 0x8000 then Xor16(shifted, 0x1021) else shifted
  }

  lemma ShiftLeftIsUint16(c: Register)
    ensures ToNat(ShiftLeft(c)) == 2 * ToNat(c) % TWO_16
    ensures c[0] <==> ToNat(c) >= 0x8000
  {
    Pow2Values();
    ToNatCons(c[0], c[1..]);
    assert [c[0]] + c[1..] == c;
    assert ShiftLeft(c)[..15] == c[1..];
  }

  /** The register's shift is `(crc & 0x8000) ? (crc << 1) ^ 0x1021 : crc << 1`. */
  lemma ShiftIsUint16(c: Register)
    ensures ToUint16(Shift(c)) == ShiftWord(ToUint16(c))
  {
    hide ToNat, ShiftLeft, BitXor, Xor;
    ShiftLeftIsUint16(c);
    PolyValue();
    XorIsBitXor(ShiftLeft(c), POLY);
  }

  /** Xoring a byte into the top half is `crc ^ (b << 8)`. */
  lemma LoadIsUint16(c: Register, b: u8)
    ensures ToUint16(Xor(c, Left(ToBits(b, 8)))) == Xor16(ToUint16(c), 256 * b)
  {
    Pow2Values();
    NatRoundTrip(b, 8);
    ToNatConcat(ToBits(b, 8), Repeat(false, 8));
    ScaledByte(b);
    ZerosValue(8);
    XorIsBitXor(c, Left(ToBits(b, 8)));
  }

  lemma {:induction false} ZerosValue(n: nat)
    ensures ToNat(Repeat(false, n)) == 0
  {
    if n > 0 {
      assert Repeat(false, n)[..n - 1] == Repeat(false, n - 1);
      ZerosValue(n - 1);
    }
  }

  /** The inner loop: xor the byte into the top half, then eight conditional shifts. */
  method FoldByte(crc: u16, b: u8) returns (c: u16)
    ensures c == ToUint16(FeedByte(ToBits(crc, 16), b))
  {
    hide ToNat, ToBits, Shift, Xor, BitXor;
    Pow2Values();
    NatRoundTrip(crc, 16);
    LoadIsUint16(ToBits(crc, 16), b);
    ghost var loaded := Xor(ToBits(crc, 16), Left(ToBits(b, 8)));
    c := Xor16(crc, 256 * b);
    for j := 0 to 8
      invariant c == ToUint16(Shifts(loaded, j))
    {
      ShiftsLast(loaded, j);
      ShiftIsUint16(Shifts(loaded, j));
      c := if c >= 0x8000 then Xor16(2 * c % TWO_16, 0x1021) else 2 * c % TWO_16;
    }
  }

  /** The outer loop. */
  method CalcCrc16(data: seq<u8>) returns (crc: u16)
    ensures crc == Crc16(data)
  {
    hide ToNat, ToBits, FeedByte;
    crc := 0xFFFF;
    Pow2Values();
    OnesValue(16);
    for i := 0 to |data|
      invariant crc == ToUint16(FeedBytes(ONES, data[..i]))
    {
      WordIsRegister(FeedBytes(ONES, data[..i]));
      crc := FoldByte(crc, data[i]);
      FeedLast(ONES, data[..i], data[i]);
      assert data[..i + 1] == data[..i] + [data[i]];
    }
    assert data[..|data|] == data;
  }

  lemma WordIsRegister(c: Register)
    ensures ToBits(ToUint16(c), 16) == c
  {
    Pow2Values();
    NatRoundTrip(ToUint16(c), 16);
    ToNatInjective(ToBits(ToUint16(c), 16), c);
  }

  lemma Pow2Values()
    ensures Pow2(8) == 256 && Pow2(15) == 0x8000 && Pow2(16) == TWO_16
  {
    assert Pow2(4) == 16;
    assert Pow2(12) == 16 * Pow2(8);
    assert Pow2(15) == 8 * Pow2(12);
  }

  lemma {:induction false} ToNatCons(top: bool, rest: Bits)
    ensures ToNat([top] + rest) == (if top then Pow2(|rest|) else 0) + ToNat(rest)
    decreases |rest|
  {
    var b := [top] + rest;
    var n := |rest|;
    if n == 0 {
      assert b[..0] == [];
    } else {
      assert b[..n] == [top] + rest[..n - 1];
      ToNatCons(top, rest[..n - 1]);
    }
  }

  lemma {:induction false} OnesValue(n: nat)
    ensures ToNat(Repeat(true, n)) == Pow2(n) - 1
  {
    if n > 0 {
      ToNatCons(true, Repeat(true, n - 1));
      assert Repeat(true, n) == [true] + Repeat(true, n - 1);
      OnesValue(n - 1);
    }
  }

  lemma ToNatSnoc(b: Bits, x: bool)
    ensures ToNat(b + [x]) == 2 * ToNat(b) + Digit(x)
  {
    assert (b + [x])[..|b|] == b;
  }

  lemma PolyValue()
    ensures ToNat(POLY) == 0x1021
  {
    hide ToNat;
    PolyTop();
    var c := POLY;
    ValueOfPrefix(c, 8, 0x10);
    ValueOfPrefix(c, 9, 0x20);
    ValueOfPrefix(c, 10, 0x40);
    ValueOfPrefix(c, 11, 0x81);
    ValueOfPrefix(c, 12, 0x102);
    ValueOfPrefix(c, 13, 0x204);
    ValueOfPrefix(c, 14, 0x408);
    ValueOfPrefix(c, 15, 0x810);
    assert c[..16] == c;
  }

  lemma PolyTop()
    ensures ToNat(POLY[..8]) == 0x10
  {
    var c := POLY;
    assert ToNat(c[..0]) == 0;
    hide ToNat;
    ValueOfPrefix(c, 0, 0);
    ValueOfPrefix(c, 1, 0);
    ValueOfPrefix(c, 2, 0);
    ValueOfPrefix(c, 3, 0);
    ValueOfPrefix(c, 4, 1);
    ValueOfPrefix(c, 5, 2);
    ValueOfPrefix(c, 6, 4);
    ValueOfPrefix(c, 7, 8);
  }

  lemma ValueOfPrefix(c: Bits, k: nat, v: nat)
    requires k < |c| && ToNat(c[..k]) == v
    ensures ToNat(c[..k + 1]) == 2 * v + Digit(c[k])
  {
    ToNatSnoc(c[..k], c[k]);
    assert c[..k + 1] == c[..k] + [c[k]];
  }

  // ---------------------------------------------------------------------
  // Error detection
  // ---------------------------------------------------------------------

  /** A shift loses nothing: the polynomial's low bit tells whether the top bit was set. */
  lemma ShiftInjective(c: Register, d: Register)
    requires Shift(c) == Shift(d)
    ensures c == d
  {
    assert Shift(c)[15] == c[0] && Shift(d)[15] == d[0];
    forall i | 1 <= i < 16
      ensures c[i] == d[i]
    {
      assert Shift(c)[i - 1] == (c[i] != (c[0] && POLY[i - 1]));
      assert Shift(d)[i - 1] == (d[i] != (d[0] && POLY[i - 1]));
    }
  }

  lemma {:induction false} ShiftsInjective(c: Register, d: Register, n: nat)
    requires Shifts(c, n) == Shifts(d, n)
    ensures c == d
    decreases n
  {
    if n > 0 {
      ShiftsInjective(Shift(c), Shift(d), n - 1);
      ShiftInjective(c, d);
    }
  }

  /** The bit-serial form: one message bit enters at the top of the register per shift. */
  function FeedBit(c: Register, b: bool): Register {
    Shift(c[0 := c[0] != b])
  }

  function FeedBits(c: Register, w: Bits): Register
    decreases |w|
  {
    if w == [] then c else FeedBits(FeedBit(c, w[0]), w[1..])
  }

  /** Xoring up to sixteen bits in at once and shifting equals feeding them one by one. */
  lemma {:induction false} BlockIsSerial(c: Register, w: Bits)
    requires |w| <= 16
    ensures Shifts(Xor(c, Left(w)), |w|) == FeedBits(c, w)
    decreases |w|
  {
    var x := Xor(c, Left(w));
    if w == [] {
      assert x == c;
    } else {
      var next := FeedBit(c, w[0]);
      var y := Xor(next, Left(w[1..]));
      forall i | 0 <= i < 16
        ensures Shift(x)[i] == y[i]
      {
        if i < 15 {
          assert Left(w)[i + 1] == Left(w[1..])[i];
        }
      }
      assert Shift(x) == y;
      BlockIsSerial(next, w[1..]);
    }
  }

  function MessageBits(data: seq<u8>): (b: Bits)
    ensures |b| == 8 * |data|
    decreases |data|
  {
    if data == [] then [] else ToBits(data[0], 8) + MessageBits(data[1..])
  }

  lemma {:induction false} FeedConcat(c: Register, v: Bits, w: Bits)
    ensures FeedBits(c, v + w) == FeedBits(FeedBits(c, v), w)
    decreases |v|
  {
    if v == [] {
      assert v + w == w;
    } else {
      assert (v + w)[1..] == v[1..] + w;
      FeedConcat(FeedBit(c, v[0]), v[1..], w);
    }
  }

  /** The bytewise algorithm processes exactly the message's bit stream. */
  lemma {:induction false} BytewiseIsSerial(c: Register, data: seq<u8>)
    ensures FeedBytes(c, data) == FeedBits(c, MessageBits(data))
    decreases |data|
  {
    if data != [] {
      var first := ToBits(data[0], 8);
      BlockIsSerial(c, first);
      FeedConcat(c, first, MessageBits(data[1..]));
      BytewiseIsSerial(FeedByte(c, data[0]), data[1..]);
    }
  }

  lemma {:induction false} FeedInjective(c: Register, d: Register, w: Bits)
    requires FeedBits(c, w) == FeedBits(d, w)
    ensures c == d
    decreases |w|
  {
    if w != [] {
      FeedInjective(FeedBit(c, w[0]), FeedBit(d, w[0]), w[1..]);
      var c', d' := c[0 := c[0] != w[0]], d[0 := d[0] != w[0]];
      ShiftInjective(c', d');
      assert forall i :: 0 <= i < 16 ==> c'[i] == d'[i];
      assert c'[0] == d'[0];
      assert forall i :: 1 <= i < 16 ==> c[i] == c'[i] && d[i] == d'[i];
    }
  }

  lemma BurstInjective(c: Register, v: Bits, w: Bits)
    requires |v| == |w| <= 16
    requires FeedBits(c, v) == FeedBits(c, w)
    ensures v == w
  {
    BlockIsSerial(c, v);
    BlockIsSerial(c, w);
    var x, y := Xor(c, Left(v)), Xor(c, Left(w));
    ShiftsInjective(x, y, |v|);
    forall i | 0 <= i < |v|
      ensures v[i] == w[i]
    {
      assert x[i] == (c[i] != Left(v)[i]) && y[i] == (c[i] != Left(w)[i]);
    }
  }

  /** Two messages agree outside the bits `lo..lo+16`. */
  ghost predicate BurstAt(x: seq<u8>, y: seq<u8>, lo: nat) {
    && |x| == |y|
    && forall i :: 0 <= i < 8 * |x| && !(lo <= i < lo + 16) ==> MessageBits(x)[i] == MessageBits(y)[i]
  }

  lemma {:induction false} MessageBitsInjective(x: seq<u8>, y: seq<u8>)
    requires |x| == |y| && MessageBits(x) == MessageBits(y)
    ensures x == y
    decreases |x|
  {
    if x != [] {
      var n := |MessageBits(x)|;
      assert MessageBits(x)[..8] == ToBits(x[0], 8) && MessageBits(y)[..8] == ToBits(y[0], 8);
      assert MessageBits(x)[8..] == MessageBits(x[1..]) && MessageBits(y)[8..] == MessageBits(y[1..]);
      Pow2Values();
      NatRoundTrip(x[0], 8);
      NatRoundTrip(y[0], 8);
      MessageBitsInjective(x[1..], y[1..]);
      assert x == [x[0]] + x[1..] && y == [y[0]] + y[1..];
    }
  }

  /** Every change confined to sixteen consecutive bits of a message of any length
      changes its checksum. */
  lemma BurstDetected(x: seq<u8>, y: seq<u8>, lo: nat)
    requires BurstAt(x, y, lo) && x != y
    ensures Crc16(x) != Crc16(y)
  {
    var v, w := MessageBits(x), MessageBits(y);
    var n := |v|;
    var a := if lo <= n then lo else n;
    var b := if lo + 16 <= n then lo + 16 else n;
    assert v == v[..a] + (v[a..b] + v[b..]);
    assert w == w[..a] + (w[a..b] + w[b..]);
    assert v[..a] == w[..a] && v[b..] == w[b..];
    var c := FeedBits(ONES, v[..a]);
    FeedConcat(ONES, v[..a], v[a..b] + v[b..]);
    FeedConcat(ONES, w[..a], w[a..b] + w[b..]);
    FeedConcat(c, v[a..b], v[b..]);
    FeedConcat(c, w[a..b], w[b..]);
    BytewiseIsSerial(ONES, x);
    BytewiseIsSerial(ONES, y);
    if Crc16(x) == Crc16(y) {
      ToNatInjective(FeedBytes(ONES, x), FeedBytes(ONES, y));
      FeedInjective(FeedBits(c, v[a..b]), FeedBits(c, w[a..b]), v[b..]);
      BurstInjective(c, v[a..b], w[a..b]);
      MessageBitsInjective(x, y);
      assert false;
    }
  }

  // ---------------------------------------------------------------------
  // What the checksum cannot see
  // ---------------------------------------------------------------------

  lemma ShiftXor(c: Register, d: Register)
    ensures Shift(Xor(c, d)) == Xor(Shift(c), Shift(d))
  {
    var x := Xor(c, d);
    forall i | 0 <= i < 16
      ensures Shift(x)[i] == Xor(Shift(c), Shift(d))[i]
    {
      var next := if i < 15 then (c[i + 1], d[i + 1]) else (false, false);
      assert Shift(c)[i] == (next.0 != (c[0] && POLY[i])) && Shift(d)[i] == (next.1 != (d[0] && POLY[i]));
      assert Shift(x)[i] == ((next.0 != next.1) != ((c[0] != d[0]) && POLY[i]));
    }
  }

  /** Shifting is linear. */
  lemma {:induction false} ShiftsXor(c: Register, d: Register, n: nat)
    ensures Shifts(Xor(c, d), n) == Xor(Shifts(c, n), Shifts(d, n))
    decreases n
  {
    if n > 0 {
      ShiftXor(c, d);
      ShiftsXor(Shift(c), Shift(d), n - 1);
    }
  }

  /** While zeros leave at the top, shifting is just that. */
  lemma {:induction false} PlainShifts(c: Register, n: nat)
    requires n <= 16 && forall i :: 0 <= i < n ==> !c[i]
    ensures Shifts(c, n) == c[n..] + Repeat(false, n)
    decreases n
  {
    if n > 0 {
      PlainShifts(Shift(c), n - 1);
    }
  }

  /** 0x89 and 0xA1. */
  const STRIKE: Bits := [true, false, false, false, true, false, false, true]
  const STRIKE_SUM: Bits := [true, false, true, false, false, false, false, true]

  lemma StrikeBits()
    ensures ToBits(0x89, 8) == STRIKE
  {
    var b := STRIKE;
    assert ToNat(b[..0]) == 0;
    hide ToNat, ToBits, Pow2;
    ValueOfPrefix(b, 0, 0);
    ValueOfPrefix(b, 1, 1);
    ValueOfPrefix(b, 2, 2);
    ValueOfPrefix(b, 3, 4);
    ValueOfPrefix(b, 4, 8);
    ValueOfPrefix(b, 5, 17);
    ValueOfPrefix(b, 6, 34);
    ValueOfPrefix(b, 7, 68);
    assert b[..8] == b;
    Pow2Values();
    NatRoundTrip(0x89, 8);
    ToNatInjective(ToBits(0x89, 8), b);
  }

  lemma StrikeSumBits()
    ensures ToBits(0xA1, 8) == STRIKE_SUM
  {
    var b := STRIKE_SUM;
    assert ToNat(b[..0]) == 0;
    hide ToNat, ToBits, Pow2;
    ValueOfPrefix(b, 0, 0);
    ValueOfPrefix(b, 1, 1);
    ValueOfPrefix(b, 2, 2);
    ValueOfPrefix(b, 3, 5);
    ValueOfPrefix(b, 4, 10);
    ValueOfPrefix(b, 5, 20);
    ValueOfPrefix(b, 6, 40);
    ValueOfPrefix(b, 7, 80);
    assert b[..8] == b;
    Pow2Values();
    NatRoundTrip(0xA1, 8);
    ToNatInjective(ToBits(0xA1, 8), b);
  }

  /** 0x0221: a change of 0x89 in the top half, one shift later. */
  const STRIKE_ONCE: Register :=
    [false, false, false, false, false, false, true, false,
     false, false, true, false, false, false, false, true]

  lemma StrikeFirst()
    ensures Shift(Left(STRIKE)) == STRIKE_ONCE
  {
  }

  lemma StrikeLast()
    ensures Shift(STRIKE_ONCE[6..] + Repeat(false, 6)) == Repeat(false, 8) + STRIKE_SUM
  {
    var c := STRIKE_ONCE[6..] + Repeat(false, 6);
    var d := Repeat(false, 8) + STRIKE_SUM;
    assert c[0];
    forall i | 0 <= i < 16
      ensures Shift(c)[i] == d[i]
    {
      assert Shift(c)[i] == ((i < 9 && STRIKE_ONCE[i + 7]) != POLY[i]);
    }
  }

  /** A change of the last byte by 0x89 reaches the low byte of the checksum as 0xA1, and
      nothing else. */
  lemma StrikeValue()
    ensures Shifts(Left(ToBits(0x89, 8)), 8) == Repeat(false, 8) + ToBits(0xA1, 8)
  {
    hide ToBits, Shift;
    StrikeBits();
    StrikeSumBits();
    StrikeFirst();
    PlainShifts(STRIKE_ONCE, 6);
    StrikeLast();
    ShiftsLast(Left(STRIKE), 7);
    assert Shifts(Left(STRIKE), 7) == Shifts(STRIKE_ONCE, 6);
  }

  lemma StrikeShifts(c: Register, b: u8)
    ensures FeedByte(c, Xor8(b, 0x89)) == Xor(FeedByte(c, b), Repeat(false, 8) + ToBits(0xA1, 8))
  {
    hide Shifts;
    var v, d := ToBits(b, 8), ToBits(0x89, 8);
    BitsOfXor(b, 0x89, 8);
    assert Xor(c, Left(Xor(v, d))) == Xor(Xor(c, Left(v)), Left(d));
    ShiftsXor(Xor(c, Left(v)), Left(d), 8);
    StrikeValue();
  }

  lemma BytesOfRegister(c: Register)
    ensures LE16(ToUint16(c)) == [ToNat(c[8..]), ToNat(c[..8])]
  {
    Pow2Values();
    assert c == c[..8] + c[8..];
    ToNatConcat(c[..8], c[8..]);
    ScaledByte(ToNat(c[..8]));
  }

  lemma StrikeMovesChecksum(data: seq<u8>)
    requires data != []
    ensures var n := |data| - 1;
      var crc := LE16(Crc16(data));
      LE16(Crc16(data[n := Xor8(data[n], 0x89)])) == [Xor8(crc[0], 0xA1), crc[1]]
  {
    hide Shifts, ToNat;
    var n := |data| - 1;
    var b := Xor8(data[n], 0x89);
    assert data == data[..n] + [data[n]] && data[n := b] == data[..n] + [b];
    FeedLast(ONES, data[..n], data[n]);
    FeedLast(ONES, data[..n], b);
    StrikeShifts(FeedBytes(ONES, data[..n]), data[n]);
    var c, e := FeedBytes(ONES, data), ToBits(0xA1, 8);
    var d := Xor(c, Repeat(false, 8) + e);
    assert d[..8] == c[..8] && d[8..] == Xor(c[8..], e);
    XorIsBitXor(c[8..], e);
    Pow2Values();
    NatRoundTrip(0xA1, 8);
    BytesOfRegister(c);
    BytesOfRegister(d);
  }
}
