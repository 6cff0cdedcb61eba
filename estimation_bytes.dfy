/** `VarByteEncoding` of estimationBytes.cpp: the number of bytes a
    variable-byte code would spend on the d-gaps of a posting list, one byte
    per base-128 digit of each gap. The posting values are `uint32_t`; the
    running values are C++ `int`, so a posting at or above 2^31 reads as a
    negative number, and the gap is taken modulo 2^32 as two's-complement
    hardware does. */
module EstimationBytes {

  type uint32 = x: int | 0 <= x < 0x1_0000_0000

  /** The 32-bit `int` that holds the same bits as `x`: a `uint32_t`
      converted to `int`, or the difference of two `int`s, wrapped. */
  function Int32(x: int): (r: int)
    requires -0x1_0000_0000 < x < 0x1_0000_0000
    ensures -0x8000_0000 <= r < 0x8000_0000
    ensures r == x || r == x - 0x1_0000_0000 || r == x + 0x1_0000_0000
    ensures -0x8000_0000 <= x < 0x8000_0000 ==> r == x
  {
    if x >= 0x8000_0000 then x - 0x1_0000_0000
    else if x < -0x8000_0000 then x + 0x1_0000_0000
    else x
  }

  /** The gap from `last` to `current`, both as `int`. */
  function Gap(last: uint32, current: uint32): int
  {
    Int32(Int32(current) - Int32(last))
  }

  /** The bytes the inner loop counts for one gap: one, plus one for every
      division by 128 it takes to bring the gap below 128. */
  function GapBytes(delta: int): (n: nat)
    ensures n >= 1
    decreases if delta < 0 then 0 else delta
  {
    if delta < 128 then 1 else 1 + GapBytes(delta / 128)
  }

  /** The gaps of `ps` as the loop sees them: the first posting is measured
      from 0, every other one from its predecessor. */
  function Gaps(ps: seq<uint32>): (gs: seq<int>)
    ensures |gs| == |ps|
  {
    seq(|ps|, i requires 0 <= i < |ps| => Gap(if i == 0 then 0 else ps[i - 1], ps[i]))
  }

  function SumBytes(gs: seq<int>): nat
  {
    if gs == [] then 0 else SumBytes(gs[..|gs| - 1]) + GapBytes(gs[|gs| - 1])
  }

  /** The estimate: the byte counts of all the gaps added up. */
  function VarByteSize(ps: seq<uint32>): nat
  {
    SumBytes(Gaps(ps))
  }

  /** `VarByteEncoding(postingList)`. */
  method VarByteEncoding(postingList: seq<uint32>) returns (countBytes: int)
    ensures countBytes == VarByteSize(postingList)
  {
    var last := 0;
    countBytes := 0;
    var i := 0;
    while i < |postingList|
      invariant i <= |postingList|
      invariant last == Int32(if i == 0 then 0 else postingList[i - 1])
      invariant countBytes == SumBytes(Gaps(postingList)[..i])
    {
      var current := Int32(postingList[i]);
      var delta := Int32(current - last);
      assert delta == Gaps(postingList)[i];
      ghost var gap := delta;
      ghost var before := countBytes;
      last := current;
      while delta >= 128
        invariant countBytes + GapBytes(delta) == before + GapBytes(gap)
        decreases delta
      {
        assert GapBytes(delta) == 1 + GapBytes(delta / 128);
        delta := delta / 128;
        countBytes := countBytes + 1;
      }
      countBytes := countBytes + 1;
      assert Gaps(postingList)[..i + 1] == Gaps(postingList)[..i] + [gap];
      i := i + 1;
    }
    assert Gaps(postingList)[..i] == Gaps(postingList);
  }

  /** An empty list costs nothing. */
  lemma EmptyCostsNothing()
    ensures VarByteSize([]) == 0
  {
  }

  /** Every posting costs at least one byte. */
  lemma {:induction false} SumBytesAtLeastLength(gs: seq<int>)
    ensures SumBytes(gs) >= |gs|
    decreases |gs|
  {
    if gs != [] {
      SumBytesAtLeastLength(gs[..|gs| - 1]);
    }
  }

  lemma AtLeastOneBytePerPosting(ps: seq<uint32>)
    ensures VarByteSize(ps) >= |ps|
  {
    SumBytesAtLeastLength(Gaps(ps));
  }

  /** A gap below 128, negative ones included, costs exactly one byte. */
  lemma SmallGapOneByte(delta: int)
    requires delta < 128
    ensures GapBytes(delta) == 1
  {
  }

  function Pow128(k: nat): (p: nat)
    ensures p >= 1
  {
    if k == 0 then 1 else 128 * Pow128(k - 1)
  }

  /** For a non-negative gap the count is its number of base-128 digits:
      the least `n >= 1` with `delta < 128^n`. */
  lemma {:induction false} GapBytesIsDigitCount(delta: int)
    requires delta >= 0
    ensures delta < Pow128(GapBytes(delta))
    ensures GapBytes(delta) == 1 || Pow128(GapBytes(delta) - 1) <= delta
    decreases delta
  {
    if delta >= 128 {
      GapBytesIsDigitCount(delta / 128);
      var n := GapBytes(delta / 128);
      assert delta / 128 < Pow128(n);
      assert delta < 128 * Pow128(n);
      if n > 1 {
        assert Pow128(n - 1) <= delta / 128;
        assert Pow128(n) == 128 * Pow128(n - 1);
      }
    }
  }

  /** On a non-decreasing list of postings below 2^31 the gaps are the plain
      differences, with the first posting measured from 0. */
  lemma SortedGapsAreDifferences(ps: seq<uint32>)
    requires forall i :: 0 <= i < |ps| ==> ps[i] < 0x8000_0000
    requires forall i :: 0 < i < |ps| ==> ps[i - 1] <= ps[i]
    ensures forall i :: 0 <= i < |ps| ==> Gaps(ps)[i] == ps[i] - (if i == 0 then 0 else ps[i - 1])
    ensures forall i :: 0 <= i < |ps| ==> Gaps(ps)[i] >= 0
  {
    forall i | 0 <= i < |ps|
      ensures Gaps(ps)[i] == ps[i] - (if i == 0 then 0 else ps[i - 1]) >= 0
    {
      var last := if i == 0 then 0 else ps[i - 1];
      assert Int32(ps[i]) == ps[i] && Int32(last) == last;
      assert Gaps(ps)[i] == Int32(ps[i] - last);
    }
  }

  /** A posting at 2^31 or above reads as a negative `int`, so its gap is
      negative and costs one byte where its true gap would cost five. */
  lemma WrappedPostingCostsOneByte()
    ensures Gaps([0x8000_0000]) == [-0x8000_0000]
    ensures VarByteSize([0x8000_0000]) == 1
    ensures GapBytes(0x8000_0000) == 5
  {
    assert Gaps([0x8000_0000])[0] == -0x8000_0000;
  }
}
