/** The `ordered_cursors` vector of Block-Max WAND: handles (indices into the
    caller's cursor range) kept ascending by the docid of the cursor they
    name, and the two ways the loop restores that order. */
module Ordering {
  import opened Cursors

  ghost predicate AllValid(cs: seq<Cursor>) {
    forall h :: 0 <= h < |cs| ==> cs[h].Valid()
  }

  /** Every handle names a cursor, and every cursor is well formed. */
  ghost predicate Handles(cs: seq<Cursor>, o: seq<nat>) {
    AllValid(cs) && forall i :: 0 <= i < |o| ==> o[i] < |cs|
  }

  /** The docid of the cursor at position `i` of the ordering. */
  function Key(cs: seq<Cursor>, o: seq<nat>, i: nat): nat
    requires Handles(cs, o) && i < |o|
  {
    cs[o[i]].Docid()
  }

  /** The handles `0, 1, ..., n-1` in order. */
  function Iota(n: nat): (r: seq<nat>)
    ensures |r| == n && forall i :: 0 <= i < n ==> r[i] == i
  {
    seq(n, i => i)
  }

  /** `o` is a rearrangement of the `n` handles. */
  ghost predicate IsPermutation(o: seq<nat>, n: nat) {
    multiset(o) == multiset(Iota(n))
  }

  ghost predicate Distinct(o: seq<nat>) {
    forall i, j :: 0 <= i < j < |o| ==> o[i] != o[j]
  }

  ghost predicate SortedRange(cs: seq<Cursor>, o: seq<nat>, lo: nat, hi: nat)
    requires Handles(cs, o) && lo <= hi <= |o|
  {
    forall i, j :: lo <= i < j < hi ==> Key(cs, o, i) <= Key(cs, o, j)
  }

  ghost predicate SortedByDocid(cs: seq<Cursor>, o: seq<nat>)
    requires Handles(cs, o)
  {
    SortedRange(cs, o, 0, |o|)
  }

  /** The initial vector `[&cursors[0], ..., &cursors[n-1]]`. */
  method Identity(n: nat) returns (ordered: array<nat>)
    ensures fresh(ordered) && ordered.Length == n
    ensures IsPermutation(ordered[..], n)
    ensures forall i :: 0 <= i < n ==> ordered[i] == i
  {
    ordered := new nat[n];
    var i := 0;
    while i < n
      invariant 0 <= i <= n
      invariant forall k :: 0 <= k < i ==> ordered[k] == k
    {
      ordered[i] := i;
      i := i + 1;
    }
    assert ordered[..] == Iota(n);
  }

  /** `std::swap` of two entries of the vector. */
  method Swap(a: array<nat>, i: nat, j: nat)
    requires i < a.Length && j < a.Length
    modifies a
    ensures a[..] == old(a[..])[i := old(a[j])][j := old(a[i])]
    ensures multiset(a[..]) == old(multiset(a[..]))
  {
    a[i], a[j] := a[j], a[i];
  }

  /** In a sequence without repeats every value occurs at most once. */
  lemma {:induction false} DistinctCountAtMostOne(s: seq<nat>, v: nat)
    requires Distinct(s)
    ensures multiset(s)[v] <= 1
    decreases |s|
  {
    if s != [] {
      var p := s[..|s| - 1];
      assert s == p + [s[|s| - 1]];
      DistinctCountAtMostOne(p, v);
      if v == s[|s| - 1] {
        assert v !in p;
      }
    }
  }

  lemma RepeatCountsTwice(s: seq<nat>, i: nat, j: nat)
    requires i < j < |s| && s[i] == s[j]
    ensures multiset(s)[s[i]] >= 2
  {
    assert s == s[..j] + [s[j]] + s[j + 1..];
    assert s[i] in s[..j];
  }

  /** A rearrangement of the handles names each of the `n` cursors exactly
      once. */
  lemma PermutationFacts(o: seq<nat>, n: nat)
    requires IsPermutation(o, n)
    ensures |o| == n && Distinct(o)
    ensures forall i :: 0 <= i < |o| ==> o[i] < n
    ensures forall h :: 0 <= h < n ==> h in o
  {
    var iota := Iota(n);
    assert |o| == |multiset(o)| == |multiset(iota)| == n;
    forall i | 0 <= i < |o| ensures o[i] < n {
      assert o[i] in multiset(o);
      assert o[i] in iota;
    }
    forall a, b | 0 <= a < b < |o| ensures o[a] != o[b] {
      if o[a] == o[b] {
        RepeatCountsTwice(o, a, b);
        DistinctCountAtMostOne(iota, o[a]);
      }
    }
    forall h | 0 <= h < n ensures h in o {
      assert iota[h] == h;
      assert h in multiset(iota);
    }
  }

  /** The order during the bubble: within `[j, n)`, everything but the moved
      cursor at `m` is in order, nothing before it in the range is above it,
      and `lo` bounds the range. */
  ghost predicate BubbleInvariant(cs: seq<Cursor>, o: seq<nat>, j: nat, m: nat, lo: nat)
  {
    Handles(cs, o) && j <= m < |o| &&
    (forall b :: j <= b < |o| ==> Key(cs, o, b) >= lo) &&
    (forall a, b :: j <= a < b < |o| && a != m && b != m ==> Key(cs, o, a) <= Key(cs, o, b)) &&
    (forall a :: j <= a < m ==> Key(cs, o, a) <= Key(cs, o, m))
  }

  lemma BubbleStep(cs: seq<Cursor>, o: seq<nat>, j: nat, m: nat, lo: nat)
    requires BubbleInvariant(cs, o, j, m, lo) && m + 1 < |o|
    requires Key(cs, o, m + 1) <= Key(cs, o, m)
    ensures BubbleInvariant(cs, o[m + 1 := o[m]][m := o[m + 1]], j, m + 1, lo)
  {
    var t := o[m + 1 := o[m]][m := o[m + 1]];
    assert forall b :: 0 <= b < |o| ==>
      Key(cs, t, b) == Key(cs, o, if b == m + 1 then m else if b == m then m + 1 else b);
  }

  lemma BubbleDone(cs: seq<Cursor>, o: seq<nat>, j: nat, m: nat, lo: nat)
    requires BubbleInvariant(cs, o, j, m, lo)
    requires m + 1 == |o| || Key(cs, o, m) <= Key(cs, o, m + 1)
    ensures SortedRange(cs, o, j, |o|)
  {
    forall a, b | j <= a < b < |o| ensures Key(cs, o, a) <= Key(cs, o, b) {
      if a == m && b != m + 1 {
        assert Key(cs, o, m + 1) <= Key(cs, o, b);
      }
    }
  }

  /** One swap of the bubble: the moved cursor goes one place forward. */
  method SwapForward(ordered: array<nat>, cs: seq<Cursor>, j: nat, m: nat, ghost lo: nat)
    requires BubbleInvariant(cs, ordered[..], j, m, lo) && m + 1 < ordered.Length
    requires Key(cs, ordered[..], m + 1) <= Key(cs, ordered[..], m)
    modifies ordered
    ensures BubbleInvariant(cs, ordered[..], j, m + 1, lo)
    ensures forall k :: 0 <= k < j ==> ordered[k] == old(ordered[k])
    ensures multiset(ordered[..]) == old(multiset(ordered[..]))
  {
    BubbleStep(cs, ordered[..], j, m, lo);
    Swap(ordered, m + 1, m);
  }

  /** The "bubble down the advanced list" loop: the cursor at `j` has moved
      forward, the rest of `[j+1, n)` is still in order; swap it forward
      (over equal docids too when `swapTies`) until it is in place. Every
      lower bound `lo` of the range survives. */
  method BubbleForward(ordered: array<nat>, cs: seq<Cursor>, j: nat, swapTies: bool, ghost lo: nat)
    requires Handles(cs, ordered[..]) && j < ordered.Length
    requires SortedRange(cs, ordered[..], j + 1, ordered.Length)
    requires forall b :: j <= b < ordered.Length ==> Key(cs, ordered[..], b) >= lo
    modifies ordered
    ensures Handles(cs, ordered[..])
    ensures SortedRange(cs, ordered[..], j, ordered.Length)
    ensures forall b :: j <= b < ordered.Length ==> Key(cs, ordered[..], b) >= lo
    ensures ordered[..j] == old(ordered[..j])
    ensures multiset(ordered[..]) == old(multiset(ordered[..]))
  {
    var n := ordered.Length;
    var m := j;
    while m + 1 < n
      invariant j <= m < n
      invariant BubbleInvariant(cs, ordered[..], j, m, lo)
      invariant forall k :: 0 <= k < j ==> ordered[k] == old(ordered[k])
      invariant multiset(ordered[..]) == old(multiset(ordered[..]))
    {
      var here, before := cs[ordered[m + 1]].Docid(), cs[ordered[m]].Docid();
      assert here == Key(cs, ordered[..], m + 1) && before == Key(cs, ordered[..], m);
      if (swapTies && here <= before) || (!swapTies && here < before) {
        SwapForward(ordered, cs, j, m, lo);
      } else {
        assert before <= here;
        break;
      }
      m := m + 1;
    }
    BubbleDone(cs, ordered[..], j, m, lo);
    assert ordered[..j] == old(ordered[..j]);
  }

  /** `sort_cursors`: `std::sort` by docid. The library's algorithm is not
      part of this model; an insertion sort built from the same forward
      bubble gives one of the orders it may produce. */
  method SortCursors(ordered: array<nat>, cs: seq<Cursor>)
    requires Handles(cs, ordered[..])
    modifies ordered
    ensures Handles(cs, ordered[..])
    ensures SortedByDocid(cs, ordered[..])
    ensures multiset(ordered[..]) == old(multiset(ordered[..]))
  {
    var j := ordered.Length;
    while j > 0
      invariant 0 <= j <= ordered.Length
      invariant Handles(cs, ordered[..])
      invariant SortedRange(cs, ordered[..], j, ordered.Length)
      invariant multiset(ordered[..]) == old(multiset(ordered[..]))
    {
      j := j - 1;
      BubbleForward(ordered, cs, j, false, 0);
    }
  }
}
