/** A posting-list cursor with block-max bounds, as the Block-Max WAND loop
    sees it. The concrete cursor classes are not part of this model: a cursor
    is a sorted posting list with its per-posting scores and a block table,
    positioned at `pos` (the posting) and `blk` (the block). */
module Cursors {

  /** One block of the block-max table: postings up to `lastDocid` score at
      most `maxScore`. */
  datatype Block = Block(lastDocid: nat, maxScore: real)

  /** Element `i` of `s`. Sortedness is stated over it rather than over
      `s[i]`, so that it is only instantiated where a proof asks for it. */
  function At(s: seq<nat>, i: nat): nat
    requires i < |s|
  {
    s[i]
  }

  ghost predicate Increasing(s: seq<nat>) {
    forall i, j :: 0 <= i < j < |s| ==> At(s, i) < At(s, j)
  }

  datatype Cursor = Cursor(
    docs: seq<nat>,             // strictly increasing document ids
    scores: seq<real>,          // primary score contribution per posting
    secondaryScores: seq<real>, // secondary score contribution per posting
    maxScore: real,             // global bound, fixed for the query
    queryWeight: real,          // term weight, fixed for the query
    blocks: seq<Block>,         // block-max table
    universe: nat,              // sentinel docid reported when exhausted
    pos: nat,                   // current posting
    blk: nat                    // current block
  ) {

    ghost predicate Valid() {
      |scores| == |docs| && |secondaryScores| == |docs| &&
      Increasing(docs) &&
      (|docs| == 0 || docs[|docs| - 1] < universe) &&
      pos <= |docs| && 0 < |blocks| && blk < |blocks|
    }

    /** Everything but the two positions is the same posting list. */
    predicate SameList(other: Cursor) {
      docs == other.docs && scores == other.scores &&
      secondaryScores == other.secondaryScores &&
      maxScore == other.maxScore && queryWeight == other.queryWeight &&
      blocks == other.blocks && universe == other.universe
    }

    predicate Exhausted() { pos >= |docs| }

    /** `docid()`: the current document, or the sentinel once exhausted. */
    function Docid(): (d: nat)
      requires Valid()
      ensures d <= universe
      ensures d < universe <==> !Exhausted()
    {
      if pos < |docs| then
        assert pos == |docs| - 1 || At(docs, pos) < At(docs, |docs| - 1);
        docs[pos]
      else universe
    }

    function Score(): real
      requires Valid() && !Exhausted()
    {
      scores[pos]
    }

    function SecondaryScore(): real
      requires Valid() && !Exhausted()
    {
      secondaryScores[pos]
    }

    function BlockMaxDocid(): nat
      requires Valid()
    {
      blocks[blk].lastDocid
    }

    function BlockMaxScore(): real
      requires Valid()
    {
      blocks[blk].maxScore
    }

    /** `next()`: one posting forward; an exhausted cursor stays exhausted. */
    function Next(): (r: Cursor)
      requires Valid()
      ensures r.Valid() && r.SameList(this) && r.blk == blk
      ensures r.Docid() >= Docid()
      ensures !Exhausted() ==> r.Docid() > Docid() && r.pos == pos + 1
    {
      if pos < |docs| then
        assert pos + 1 < |docs| ==> At(docs, pos) < At(docs, pos + 1);
        this.(pos := pos + 1)
      else this
    }

    /** `next_geq(target)`: the first posting at or after the current one
        whose docid is at least `target`; a no-op when already there. */
    function NextGeq(target: nat): (r: Cursor)
      requires Valid()
      ensures r.Valid() && r.SameList(this) && r.blk == blk
      ensures pos <= r.pos
      ensures forall p :: pos <= p < r.pos ==> docs[p] < target
      ensures r.Exhausted() || r.Docid() >= target
      ensures r.Docid() >= Docid()
      ensures Docid() >= target ==> r == this
      decreases |docs| - pos
    {
      if pos < |docs| && docs[pos] < target then this.(pos := pos + 1).NextGeq(target)
      else this
    }

    /** `block_max_next_geq(target)`: move the block cursor forward until its
        block reaches `target`, or to the last block. */
    function BlockMaxNextGeq(target: nat): (r: Cursor)
      requires Valid()
      ensures r.Valid() && r.SameList(this) && r.pos == pos
      ensures blk <= r.blk
      ensures r.BlockMaxDocid() >= target || r.blk == |blocks| - 1
      ensures forall b :: blk <= b < r.blk ==> blocks[b].lastDocid < target
      decreases |blocks| - blk
    {
      if blk + 1 < |blocks| && blocks[blk].lastDocid < target then
        this.(blk := blk + 1).BlockMaxNextGeq(target)
      else this
    }

    /** The refresh step of the loop: only a block that ends before the
        target is moved. */
    function Refreshed(target: nat): (r: Cursor)
      requires Valid()
      ensures r.Valid() && r.SameList(this) && r.Docid() == Docid()
      ensures BlockMaxDocid() >= target ==> r == this
      ensures r.BlockMaxDocid() >= target || r.blk == |blocks| - 1
    {
      if BlockMaxDocid() < target then BlockMaxNextGeq(target) else this
    }

    /** The refreshed block bound, weighted by the term weight. */
    function WeightedBlockMax(): real
      requires Valid()
    {
      BlockMaxScore() * queryWeight
    }
  }

  /** How far a cursor still is from `maxDocid`: the termination measure of
      one cursor. */
  function Remaining(c: Cursor, maxDocid: nat): (r: nat)
    requires c.Valid()
    ensures r <= maxDocid
    ensures r == 0 <==> c.Docid() >= maxDocid
  {
    if c.Docid() < maxDocid then maxDocid - c.Docid() else 0
  }

  function TotalRemaining(cs: seq<Cursor>, maxDocid: nat): nat
    requires forall h :: 0 <= h < |cs| ==> cs[h].Valid()
  {
    if cs == [] then 0 else TotalRemaining(cs[..|cs| - 1], maxDocid) + Remaining(cs[|cs| - 1], maxDocid)
  }

  /** Cursors only move forward over the same posting lists. */
  ghost predicate Progress(before: seq<Cursor>, after: seq<Cursor>)
  {
    |before| == |after| &&
    (forall h :: 0 <= h < |before| ==> before[h].Valid()) &&
    (forall h :: 0 <= h < |after| ==>
       after[h].Valid() && after[h].SameList(before[h]) && after[h].Docid() >= before[h].Docid())
  }

  /** If no cursor moves back and one cursor below `maxDocid` moves forward,
      the total distance to `maxDocid` shrinks: the loop's variant. */
  lemma {:induction false} TotalRemainingDecreases(before: seq<Cursor>, after: seq<Cursor>, maxDocid: nat, h: nat)
    requires Progress(before, after)
    requires h < |before| && before[h].Docid() < maxDocid && after[h].Docid() > before[h].Docid()
    ensures TotalRemaining(after, maxDocid) < TotalRemaining(before, maxDocid)
  {
    var n := |before|;
    var b', a' := before[..n - 1], after[..n - 1];
    assert Progress(b', a');
    if h == n - 1 {
      TotalRemainingNonIncreasing(b', a', maxDocid);
    } else {
      TotalRemainingDecreases(b', a', maxDocid, h);
    }
  }

  lemma {:induction false} TotalRemainingNonIncreasing(before: seq<Cursor>, after: seq<Cursor>, maxDocid: nat)
    requires Progress(before, after)
    ensures TotalRemaining(after, maxDocid) <= TotalRemaining(before, maxDocid)
  {
    if before != [] {
      var n := |before|;
      assert Progress(before[..n - 1], after[..n - 1]);
      TotalRemainingNonIncreasing(before[..n - 1], after[..n - 1], maxDocid);
    }
  }

  /** Repeated `next_geq` calls never move a cursor backwards, and a later
      target subsumes an earlier one. */
  lemma {:induction false} NextGeqMonotone(c: Cursor, t1: nat, t2: nat)
    requires c.Valid() && t1 <= t2
    ensures c.NextGeq(t1).NextGeq(t2) == c.NextGeq(t2)
    decreases |c.docs| - c.pos
  {
    if c.pos < |c.docs| && c.docs[c.pos] < t1 {
      NextGeqMonotone(c.(pos := c.pos + 1), t1, t2);
    }
  }
}
