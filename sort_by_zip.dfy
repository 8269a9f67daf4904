/** `SortByZip`: orders contacts by zip code by returning the difference of
    the two zips, cast to `int`. The zip is taken to be a `long`, as in the
    cache's contacts, so the subtraction wraps at 64 bits and the cast at
    32 bits. `CompareIsNarrowedDifference` shows the 64-bit wrap never
    affects the result, so `int` zips would compare the same way. */
module SortByZip {
  import opened Contacts

  const TwoTo32: int := 0x1_0000_0000
  const TwoTo64: int := 0x1_0000_0000_0000_0000

  /** Java's `long` arithmetic: the 64-bit two's-complement value of `x`. */
  function WrapLong(x: int): (r: Long)
    ensures (x - r) % TwoTo64 == 0
  {
    (x + 0x8000_0000_0000_0000) % TwoTo64 - 0x8000_0000_0000_0000
  }

  /** Java's narrowing cast `(int)` of a `long`: keeps the low 32 bits. */
  function NarrowToInt(x: int): (r: Int)
    ensures (x - r) % TwoTo32 == 0
  {
    (x + 0x8000_0000) % TwoTo32 - 0x8000_0000
  }

  /** `compare(a, b)` as written: the `long` difference of the zips, cast to `int`. */
  function Compare(a: Contact, b: Contact): Int
  {
    NarrowToInt(WrapLong(a.zip - b.zip))
  }

  /** The result is the zip difference reduced to 32-bit two's complement:
      the only `int` congruent to `a.zip - b.zip` modulo 2^32. The wrap of
      the `long` subtraction never shows in the result. */
  lemma CompareIsNarrowedDifference(a: Contact, b: Contact)
    ensures (Compare(a, b) - (a.zip - b.zip)) % TwoTo32 == 0
    ensures Compare(a, b) == NarrowToInt(a.zip - b.zip)
  {
  }

  /** A contact compares equal to itself. */
  lemma CompareReflexive(a: Contact)
    ensures Compare(a, a) == 0
  {
  }

  /** When the zip difference fits in an `int`, it is the result, so the
      sign of the result follows the order of the zips. */
  lemma CompareSign(a: Contact, b: Contact)
    requires -0x8000_0000 <= a.zip - b.zip < 0x8000_0000
    ensures Compare(a, b) == a.zip - b.zip
    ensures Compare(a, b) < 0 <==> a.zip < b.zip
    ensures Compare(a, b) == 0 <==> a.zip == b.zip
    ensures Compare(a, b) > 0 <==> a.zip > b.zip
  {
  }

  /** Swapping the arguments negates the result while the difference lies
      strictly inside the `int` range. */
  lemma CompareAntisymmetric(a: Contact, b: Contact)
    requires -0x8000_0000 < a.zip - b.zip < 0x8000_0000
    ensures Compare(a, b) == -Compare(b, a)
  {
  }

  /** Zips 2^31 apart: both orders of the arguments give a negative result,
      so the larger zip is reported as the smaller one and the comparator
      is not antisymmetric. */
  lemma CompareOverflow(a: Contact, b: Contact)
    requires a.zip == b.zip + 0x8000_0000
    ensures Compare(a, b) < 0 && Compare(b, a) < 0
    ensures a.zip > b.zip
  {
  }

  /** The comparison the zip order calls for, as `Long.compare` does it:
      the sign of the result is the order of the zips, for every pair. */
  function CompareZip(a: Contact, b: Contact): (r: Int)
    ensures r < 0 <==> a.zip < b.zip
    ensures r == 0 <==> a.zip == b.zip
    ensures r > 0 <==> a.zip > b.zip
  {
    if a.zip < b.zip then -1 else if a.zip == b.zip then 0 else 1
  }

  /** The corrected comparison is antisymmetric and transitive for all zips. */
  lemma CompareZipIsOrder(a: Contact, b: Contact, c: Contact)
    ensures CompareZip(a, b) == -CompareZip(b, a)
    ensures CompareZip(a, b) <= 0 && CompareZip(b, c) <= 0 ==> CompareZip(a, c) <= 0
  {
  }
}
