/**
 * The NBT form of a UUID: its two 64-bit halves cut into four 32-bit ints,
 * most significant first, and put back together.
 */
module NbtUuidList {

  /** A Java `UUID`: the most and least significant 64 bits. */
  datatype Uuid = Uuid(most: bv64, least: bv64)

  /** Java's `(long)` cast of an `int`: sign extension. */
  function WidenInt(x: bv32): (r: bv64)
    ensures (r & 0xFFFF_FFFF) as bv32 == x
  {
    if x & 0x8000_0000 != 0 then 0xFFFF_FFFF_0000_0000 | x as bv64 else x as bv64
  }

  /** Java's `(int)` cast of a `long`: the low 32 bits. */
  function NarrowLong(x: bv64): (r: bv32)
    ensures r as bv64 == x & 0xFFFF_FFFF
  {
    (x & 0xFFFF_FFFF) as bv32
  }

  /** Java's arithmetic `x >> 32` on a `long`. */
  function ShiftRight32(x: bv64): (r: bv64)
    ensures r & 0xFFFF_FFFF == x >> 32
  {
    if x & 0x8000_0000_0000_0000 != 0 then 0xFFFF_FFFF_0000_0000 | (x >> 32) else x >> 32
  }

  /** `leastMostToIntArray(l, m)`. */
  function LeastMostToIntArray(l: bv64, m: bv64): (r: seq<bv32>)
    ensures |r| == 4
    ensures r[0] as bv64 == l >> 32 && r[1] as bv64 == l & 0xFFFF_FFFF
    ensures r[2] as bv64 == m >> 32 && r[3] as bv64 == m & 0xFFFF_FFFF
  {
    [NarrowLong(ShiftRight32(l)), NarrowLong(l), NarrowLong(ShiftRight32(m)), NarrowLong(m)]
  }

  /** `uuidToIntArray`: the high and low words of the most, then of the least significant half. */
  function UuidToIntArray(u: Uuid): (r: seq<bv32>)
    ensures |r| == 4
  {
    LeastMostToIntArray(u.most, u.least)
  }

  /** `(long) hi << 32 | lo & 4294967295L`. */
  function Combine(hi: bv32, lo: bv32): (r: bv64)
    ensures r >> 32 == hi as bv64 && r & 0xFFFF_FFFF == lo as bv64
  {
    (WidenInt(hi) << 32) | (WidenInt(lo) & 0xFFFF_FFFF)
  }

  /** `uuidFromIntArray`: elements 0 and 1 make the most, 2 and 3 the least significant half. */
  function UuidFromIntArray(a: seq<bv32>): (u: Uuid)
    requires |a| >= 4
    ensures u.most >> 32 == a[0] as bv64 && u.most & 0xFFFF_FFFF == a[1] as bv64
    ensures u.least >> 32 == a[2] as bv64 && u.least & 0xFFFF_FFFF == a[3] as bv64
  {
    Uuid(Combine(a[0], a[1]), Combine(a[2], a[3]))
  }

  /** A 64-bit word is fixed by its high and low halves. */
  lemma Halves(x: bv64, y: bv64)
    requires x >> 32 == y >> 32 && x & 0xFFFF_FFFF == y & 0xFFFF_FFFF
    ensures x == y
  {
  }

  /** Cutting a 64-bit word into two ints and combining them gives the word back. */
  lemma CombineSplit(x: bv64, hi: bv32, lo: bv32)
    requires hi as bv64 == x >> 32 && lo as bv64 == x & 0xFFFF_FFFF
    ensures Combine(hi, lo) == x
  {
    Halves(Combine(hi, lo), x);
  }

  /** Combining two ints and cutting the word again gives the two ints back. */
  lemma SplitCombine(hi: bv32, lo: bv32, hi': bv32, lo': bv32)
    requires hi' as bv64 == Combine(hi, lo) >> 32 && lo' as bv64 == Combine(hi, lo) & 0xFFFF_FFFF
    ensures hi' == hi && lo' == lo
  {
    assert hi' as bv64 == hi as bv64;
    assert lo' as bv64 == lo as bv64;
  }

  /** Packing a UUID and unpacking it gives the same UUID. */
  lemma UuidRoundTrip(u: Uuid)
    ensures UuidFromIntArray(UuidToIntArray(u)) == u
  {
    var a := UuidToIntArray(u);
    CombineSplit(u.most, a[0], a[1]);
    CombineSplit(u.least, a[2], a[3]);
  }

  /** Unpacking four ints and packing them again gives the same four ints. */
  lemma IntArrayRoundTrip(a: seq<bv32>)
    requires |a| == 4
    ensures UuidToIntArray(UuidFromIntArray(a)) == a
  {
    var b := UuidToIntArray(UuidFromIntArray(a));
    SplitCombine(a[0], a[1], b[0], b[1]);
    SplitCombine(a[2], a[3], b[2], b[3]);
  }
}
