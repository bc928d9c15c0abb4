/** The 32-bit millisecond clock, seen as an unbounded time modulo 2^32. */
module Clock {
  import opened Bytes

  function Millis(t: nat): u32 {
    t % TWO_32
  }

  /** `now - since` on unsigned 32-bit operands. */
  function Elapsed(now: u32, since: u32): u32 {
    (now - since) % TWO_32
  }

  /** `(millis() - since) >= delay`. */
  predicate Due(now: u32, since: u32, delay: u32) {
    Elapsed(now, since) >= delay
  }

  /** `random(lo, hi)`: `lo` plus a raw random number modulo the width. */
  function Random(lo: nat, hi: nat, entropy: nat): (r: nat)
    requires lo < hi
    ensures lo <= r < hi
  {
    lo + entropy % (hi - lo)
  }

  /** Every value of the range is drawn for some random number. */
  lemma RandomCovers(lo: nat, hi: nat, r: nat)
    requires lo <= r < hi
    ensures exists entropy: nat :: Random(lo, hi, entropy) == r
  {
    assert Random(lo, hi, r - lo) == r;
  }

  lemma ElapsedIsTrueTime(t: nat, s: nat)
    requires s <= t
    ensures Elapsed(Millis(t), Millis(s)) == (t - s) % TWO_32
  {
    var d := t - s;
    assert Millis(t) == (Millis(s) + d % TWO_32) % TWO_32;
  }

  lemma ElapsedBelowWrap(t: nat, s: nat)
    requires s <= t < s + TWO_32
    ensures Elapsed(Millis(t), Millis(s)) == t - s
  {
    ElapsedIsTrueTime(t, s);
  }

  /** The wrapping test is never early, and below one wrap-around it is exact. */
  lemma DueRefinesTrueTime(t: nat, s: nat, delay: u32)
    requires s <= t
    ensures Due(Millis(t), Millis(s), delay) ==> t - s >= delay
    ensures t - s < TWO_32 ==> (Due(Millis(t), Millis(s), delay) <==> t - s >= delay)
  {
    ElapsedIsTrueTime(t, s);
  }
}
