/**
 * The keyspace both scheduler variants search: keys 0x400000000000000000
 * through 0x7FFFFFFFFFFFFFFFFF, probed in blocks of 2^40 keys, and the
 * circular increment `wrap_inc` that moves a probe start around it.
 */
module Keyspace {

  const KeyMin: int := 0x400000000000000000
  const KeyMax: int := 0x7FFFFFFFFFFFFFFFFF
  const RangeBits: nat := 40
  const BlockSize: int := 0x100_0000_0000
  const KeyspaceLen: int := KeyMax - KeyMin + 1
  const MaxOffset: int := KeyspaceLen - BlockSize

  /** The modulus of `wrap_inc`: 2^70 - 2^40 + 1, which is not a multiple of the block size. */
  const Period: int := MaxOffset + 1

  /** `1 << n` */
  function Pow2(n: nat): (r: nat)
    ensures r >= 1
  {
    if n == 0 then 1 else 2 * Pow2(n - 1)
  }

  /** A start the scheduler may hand to the engine: the block it names lies inside the keyspace. */
  predicate InRange(x: int) {
    KeyMin <= x <= KeyMin + MaxOffset
  }

  /** On a block boundary (what masking off the low RANGE_BITS bits produces). */
  predicate Aligned(x: int) {
    x % BlockSize == 0
  }

  predicate IsBlockStart(x: int) {
    InRange(x) && Aligned(x)
  }

  /**
   * `wrap_inc(start, inc)`: the start moved by `inc` around a circle of
   * `Period` starts beginning at KeyMin. The result is the unique in-range
   * value congruent to `start + inc` modulo `Period` (WrapIncUnique).
   */
  function WrapInc(start: int, inc: int): (r: int)
    ensures InRange(r)
    ensures (start + inc - r) % Period == 0
  {
    KeyMin + (start - KeyMin + inc) % Period
  }

  /** The two facts WrapInc ensures pin its result down completely. */
  lemma WrapIncUnique(start: int, inc: int, x: int)
    requires InRange(x) && (start + inc - x) % Period == 0
    ensures x == WrapInc(start, inc)
  {
    var r := WrapInc(start, inc);
    var d := x - r;
    assert -Period < d < Period;
    assert d % Period == 0 by {
      assert (start + inc - r) % Period == 0;
      assert d == (start + inc - r) - (start + inc - x);
      ModDifference(start + inc - r, start + inc - x);
    }
    SmallMultipleIsZero(d);
  }

  lemma ModDifference(a: int, b: int)
    requires a % Period == 0 && b % Period == 0
    ensures (a - b) % Period == 0
  {
    var qa, qb := a / Period, b / Period;
    assert a == qa * Period && b == qb * Period;
    assert a - b == (qa - qb) * Period;
  }

  lemma SmallMultipleIsZero(d: int)
    requires -Period < d < Period && d % Period == 0
    ensures d == 0
  {
    var q := d / Period;
    assert d == q * Period;
  }

  /** Only `inc` modulo `Period` matters: adding any number of full turns changes nothing. */
  lemma {:induction false} WrapIncPeriodic(start: int, inc: int, turns: int)
    ensures WrapInc(start, inc + turns * Period) == WrapInc(start, inc)
  {
    var r := WrapInc(start, inc);
    assert (start + inc + turns * Period - r) == (start + inc - r) + turns * Period;
    PlusMultiple(start + inc - r, turns);
    WrapIncUnique(start, inc + turns * Period, r);
  }

  lemma PlusMultiple(a: int, turns: int)
    requires a % Period == 0
    ensures (a + turns * Period) % Period == 0
  {
    var q := a / Period;
    assert a + turns * Period == (q + turns) * Period;
  }

  /** Without a wrap the increment is plain addition. */
  lemma WrapIncNoWrap(start: int, inc: int)
    requires 0 <= start - KeyMin + inc <= MaxOffset
    ensures WrapInc(start, inc) == start + inc
  {
  }

  /** Without a wrap a block-aligned start moved by a multiple of the block size stays block-aligned. */
  lemma WrapIncKeepsAlignmentWithoutWrap(start: int, inc: int)
    requires Aligned(start) && inc % BlockSize == 0
    requires 0 <= start - KeyMin + inc <= MaxOffset
    ensures IsBlockStart(WrapInc(start, inc))
  {
    WrapIncNoWrap(start, inc);
    var qs, qi := start / BlockSize, inc / BlockSize;
    assert start + inc == (qs + qi) * BlockSize;
  }

  /** Wrapping breaks alignment: one block on from the last block lands 2^40 - 1 keys into the first block. */
  lemma WrapFromLastBlockMisaligns()
    ensures IsBlockStart(KeyMin + MaxOffset)
    ensures WrapInc(KeyMin + MaxOffset, BlockSize) == KeyMin + BlockSize - 1
    ensures !Aligned(WrapInc(KeyMin + MaxOffset, BlockSize))
  {
  }

  lemma Pow2OfRangeBits()
    ensures Pow2(RangeBits) == BlockSize
  {
    assert Pow2(10) == 1024;
    Pow2Add(10, 10);
    Pow2Add(20, 20);
  }

  lemma {:induction false} Pow2Add(a: nat, b: nat)
    ensures Pow2(a + b) == Pow2(a) * Pow2(b)
  {
    if b > 0 {
      Pow2Add(a, b - 1);
      assert Pow2(a + b) == 2 * Pow2(a + b - 1);
    }
  }

  /** `1 << (n + RANGE_BITS)` is `n` doublings of the block size. */
  lemma {:induction false} Pow2Shift(n: nat)
    ensures Pow2(n + RangeBits) == Pow2(n) * BlockSize
  {
    if n == 0 {
      Pow2OfRangeBits();
    } else {
      Pow2Shift(n - 1);
      assert Pow2(n + RangeBits) == 2 * Pow2(n - 1 + RangeBits);
    }
  }

  /** Every skip of at least one block is a whole number of blocks. */
  lemma Pow2IsWholeBlocks(n: nat)
    requires n >= RangeBits
    ensures Pow2(n) % BlockSize == 0
  {
    Pow2Shift(n - RangeBits);
    var k := Pow2(n - RangeBits);
    assert Pow2(n) == k * BlockSize;
  }

  /** A skip of `1 << b` keys (b >= RANGE_BITS) from an aligned anchor that does not wrap lands on a block start. */
  lemma SkipKeepsAlignmentWithoutWrap(anchor: int, b: nat)
    requires Aligned(anchor) && b >= RangeBits
    requires 0 <= anchor - KeyMin + Pow2(b) <= MaxOffset
    ensures IsBlockStart(WrapInc(anchor, Pow2(b)))
  {
    Pow2IsWholeBlocks(b);
    WrapIncKeepsAlignmentWithoutWrap(anchor, Pow2(b));
  }

  /** `n` successive one-block steps of `wrap_inc` from `x`. */
  function Advance(x: int, n: nat): int {
    if n == 0 then x else WrapInc(Advance(x, n - 1), BlockSize)
  }

  lemma {:induction false} AdvanceShift(x: int, n: nat)
    ensures Advance(WrapInc(x, BlockSize), n) == Advance(x, n + 1)
  {
    if n > 0 {
      AdvanceShift(x, n - 1);
    }
  }
}
