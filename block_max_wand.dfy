/** The Block-Max WAND top-k loop: `block_max_wand_query::operator()` with
    its two collectors. Cursor handles are indices into the caller's cursor
    array; `ordered` plays `ordered_cursors`. Scores are reals. */
module BlockMaxWand {
  import opened Cursors
  import opened Ordering
  import opened TopkQueues

  /** Every cursor is well formed and reports a sentinel at or beyond
      `maxDocid` once exhausted. */
  ghost predicate Bounded(cs: seq<Cursor>, maxDocid: nat) {
    forall h :: 0 <= h < |cs| ==> cs[h].Valid() && cs[h].universe >= maxDocid
  }

  /** What holds at the top of every iteration of the loop. */
  ghost predicate LoopState(cs: seq<Cursor>, o: seq<nat>, maxDocid: nat) {
    Bounded(cs, maxDocid) && IsPermutation(o, |cs|) && Handles(cs, o) && SortedByDocid(cs, o)
  }

  /** `upper_bound` after the pivot search has summed positions `[0, i)`. */
  function UpperBound(cs: seq<Cursor>, o: seq<nat>, i: nat): real
    requires Handles(cs, o) && i <= |o|
  {
    if i == 0 then 0.0 else UpperBound(cs, o, i - 1) + cs[o[i - 1]].maxScore
  }

  /** `block_upper_bound` over positions `[0, i)`. */
  function BlockUpperBound(cs: seq<Cursor>, o: seq<nat>, i: nat): real
    requires Handles(cs, o) && i <= |o|
  {
    if i == 0 then 0.0 else BlockUpperBound(cs, o, i - 1) + cs[o[i - 1]].WeightedBlockMax()
  }

  /** The block bound only depends on the cursors it sums. */
  lemma {:induction false} BlockUpperBoundFrame(cs: seq<Cursor>, cs': seq<Cursor>, o: seq<nat>, i: nat)
    requires Handles(cs, o) && Handles(cs', o) && i <= |o|
    requires forall q :: 0 <= q < i ==> cs'[o[q]] == cs[o[q]]
    ensures BlockUpperBound(cs', o, i) == BlockUpperBound(cs, o, i)
  {
    if i > 0 {
      BlockUpperBoundFrame(cs, cs', o, i - 1);
    }
  }

  /** Positions `[0, q]` all sit below `maxDocid`: the pivot search has not
      stopped before `q`. */
  ghost predicate BelowMax(cs: seq<Cursor>, o: seq<nat>, q: nat, maxDocid: nat)
    requires Handles(cs, o) && q < |o|
  {
    forall r :: 0 <= r <= q ==> Key(cs, o, r) < maxDocid
  }

  /** The number of leading positions whose cursor is at `id`. */
  function TiedCount(cs: seq<Cursor>, o: seq<nat>, id: nat): (t: nat)
    requires Handles(cs, o)
    ensures t <= |o|
    ensures forall q :: 0 <= q < t ==> Key(cs, o, q) == id
    ensures t == |o| || Key(cs, o, t) != id
  {
    TiedFrom(cs, o, id, 0)
  }

  function TiedFrom(cs: seq<Cursor>, o: seq<nat>, id: nat, i: nat): (t: nat)
    requires Handles(cs, o) && i <= |o|
    requires forall q :: 0 <= q < i ==> Key(cs, o, q) == id
    ensures i <= t <= |o|
    ensures forall q :: 0 <= q < t ==> Key(cs, o, q) == id
    ensures t == |o| || Key(cs, o, t) != id
    decreases |o| - i
  {
    if i < |o| && Key(cs, o, i) == id then TiedFrom(cs, o, id, i + 1) else i
  }

  /** The leading `j` cursors can be scored. */
  ghost predicate Scorable(cs: seq<Cursor>, o: seq<nat>, j: nat) {
    Handles(cs, o) && j <= |o| && forall q :: 0 <= q < j ==> !cs[o[q]].Exhausted()
  }

  lemma TiedAreScorable(cs: seq<Cursor>, o: seq<nat>, id: nat, maxDocid: nat)
    requires Handles(cs, o) && Bounded(cs, maxDocid) && id < maxDocid
    ensures Scorable(cs, o, TiedCount(cs, o, id))
  {
    var t := TiedCount(cs, o, id);
    forall q | 0 <= q < t ensures !cs[o[q]].Exhausted() {
      assert Key(cs, o, q) == id;
    }
  }

  /** `score` after the first `j` tied cursors. */
  function ScoreSum(cs: seq<Cursor>, o: seq<nat>, j: nat): real
    requires Scorable(cs, o, j)
  {
    if j == 0 then 0.0 else ScoreSum(cs, o, j - 1) + cs[o[j - 1]].Score()
  }

  /** `second_score` after the first `j` tied cursors. */
  function SecondarySum(cs: seq<Cursor>, o: seq<nat>, j: nat): real
    requires Scorable(cs, o, j)
  {
    if j == 0 then 0.0 else SecondarySum(cs, o, j - 1) + cs[o[j - 1]].SecondaryScore()
  }

  /** The refined bound once the first `j` tied cursors have traded their
      block bound for their exact score. */
  function Refined(cs: seq<Cursor>, o: seq<nat>, bound: real, j: nat): real
    requires Scorable(cs, o, j)
  {
    if j == 0 then bound
    else Refined(cs, o, bound, j - 1) - (cs[o[j - 1]].WeightedBlockMax() - cs[o[j - 1]].Score())
  }

  /** The smallest `block_max_docid()` over positions `[0, upto]`, capped at
      `maxDocid`. */
  function MinBlockEnd(cs: seq<Cursor>, o: seq<nat>, upto: nat, maxDocid: nat): (m: nat)
    requires Handles(cs, o) && upto < |o|
    ensures m <= maxDocid
  {
    var rest := if upto == 0 then maxDocid else MinBlockEnd(cs, o, upto - 1, maxDocid);
    var here := cs[o[upto]].BlockMaxDocid();
    if here < rest then here else rest
  }

  /** `MinBlockEnd` is a minimum: no block in `[0, upto]` ends earlier, and
      it is either `maxDocid` or the end of one of those blocks. */
  lemma {:induction false} MinBlockEndIsMinimum(cs: seq<Cursor>, o: seq<nat>, upto: nat, maxDocid: nat)
    requires Handles(cs, o) && upto < |o|
    ensures forall q :: 0 <= q <= upto ==> MinBlockEnd(cs, o, upto, maxDocid) <= cs[o[q]].BlockMaxDocid()
    ensures MinBlockEnd(cs, o, upto, maxDocid) == maxDocid ||
            exists q :: 0 <= q <= upto && MinBlockEnd(cs, o, upto, maxDocid) == cs[o[q]].BlockMaxDocid()
  {
    if upto > 0 {
      MinBlockEndIsMinimum(cs, o, upto - 1, maxDocid);
    }
  }

  /** The inserts a query made into the two collectors: the same documents,
      each below `maxDocid`, in strictly increasing docid order. */
  ghost predicate Evaluated(top: seq<Entry>, second: seq<Entry>, maxDocid: nat) {
    |top| == |second| &&
    (forall k :: 0 <= k < |top| ==> top[k].docid == second[k].docid && top[k].docid < maxDocid) &&
    (forall a, b :: 0 <= a < b < |top| ==> top[a].docid < top[b].docid)
  }

  lemma EvaluatedExtend(top: seq<Entry>, second: seq<Entry>, maxDocid: nat, e: Entry, e': Entry)
    requires Evaluated(top, second, maxDocid) && e.docid == e'.docid && e.docid < maxDocid
    requires top != [] ==> top[|top| - 1].docid < e.docid
    ensures Evaluated(top + [e], second + [e'], maxDocid)
  {
  }

  /** The two collectors' logs extend `top0` and `second0` by inserts that
      satisfy `Evaluated`. */
  ghost predicate Fed(top: seq<Entry>, second: seq<Entry>, top0: seq<Entry>, second0: seq<Entry>, maxDocid: nat) {
    |top0| <= |top| && top[..|top0|] == top0 &&
    |second0| <= |second| && second[..|second0|] == second0 &&
    Evaluated(top[|top0|..], second[|second0|..], maxDocid)
  }

  /** Every cursor is beyond document `d`. */
  ghost predicate AllPast(cs: seq<Cursor>, d: nat) {
    forall h :: 0 <= h < |cs| ==> cs[h].Valid() && cs[h].Docid() > d
  }

  lemma AllPastAfterProgress(before: seq<Cursor>, after: seq<Cursor>, d: nat)
    requires Progress(before, after) && AllPast(before, d)
    ensures AllPast(after, d)
  {
  }

  /** A log that is `start` followed by `a`, then extended by `b`. */
  lemma LogAppend(log: seq<Entry>, start: seq<Entry>, a: seq<Entry>, b: seq<Entry>)
    requires log == start + a + b
    ensures log == start + (a + b)
  {
  }

  lemma ProgressTransitive(a: seq<Cursor>, b: seq<Cursor>, c: seq<Cursor>)
    requires Progress(a, b) && Progress(b, c)
    ensures Progress(a, c)
  {
  }

  /** Re-inserting one advanced cursor by a forward bubble keeps the whole
      order: what precedes it is no larger than its old docid. */
  lemma SortedAfterReinsert(cs: seq<Cursor>, cs': seq<Cursor>, o: seq<nat>, o': seq<nat>, nl: nat, lo: nat)
    requires Handles(cs, o) && Handles(cs', o) && Handles(cs', o') && nl < |o| && |o'| == |o|
    requires SortedByDocid(cs, o)
    requires forall q :: 0 <= q < nl ==> Key(cs', o, q) == Key(cs, o, q)
    requires lo == if nl == 0 then 0 else Key(cs, o, nl - 1)
    requires o'[..nl] == o[..nl]
    requires SortedRange(cs', o', nl, |o'|)
    requires forall b :: nl <= b < |o'| ==> Key(cs', o', b) >= lo
    ensures SortedByDocid(cs', o')
  {
    forall a, b | 0 <= a < b < |o'| ensures Key(cs', o', a) <= Key(cs', o', b) {
      if a < nl {
        assert o'[a] == o[a];
        assert Key(cs', o', a) == Key(cs, o, a);
        if b < nl {
          assert o'[b] == o[b];
          assert Key(cs', o', b) == Key(cs, o, b);
        } else {
          assert Key(cs, o, a) <= Key(cs, o, nl - 1);
        }
      }
    }
  }

  /** After the tied cursors take one `next()` each, every cursor is past
      `id`: the tied ones moved off it and the others were already beyond. */
  lemma TiedAdvancePassesPivot(cs: seq<Cursor>, cs': seq<Cursor>, o: seq<nat>, id: nat, maxDocid: nat)
    requires LoopState(cs, o, maxDocid) && id < maxDocid && 0 < |o| && Key(cs, o, 0) == id
    requires |cs'| == |cs|
    requires forall q :: 0 <= q < |o| ==> cs'[o[q]] == if q < TiedCount(cs, o, id) then cs[o[q]].Next() else cs[o[q]]
    ensures forall h :: 0 <= h < |cs'| ==> cs'[h].Valid() && cs'[h].Docid() > id
  {
    var t := TiedCount(cs, o, id);
    PermutationFacts(o, |cs|);
    forall h | 0 <= h < |cs'| ensures cs'[h].Valid() && cs'[h].Docid() > id {
      assert h in o;
      var q :| 0 <= q < |o| && o[q] == h;
      if q < t {
        assert Key(cs, o, q) == id;
      } else {
        assert Key(cs, o, 0) <= Key(cs, o, t) <= Key(cs, o, q);
      }
    }
  }

  /** Cursors that moved forward over their lists, re-sorted by a
      rearrangement of the same handles, are again in loop shape. */
  lemma ReorderedLoopState(cs: seq<Cursor>, cs': seq<Cursor>, o: seq<nat>, o': seq<nat>, maxDocid: nat)
    requires LoopState(cs, o, maxDocid) && Progress(cs, cs')
    requires multiset(o') == multiset(o) && Handles(cs', o') && SortedByDocid(cs', o')
    ensures LoopState(cs', o', maxDocid)
  {
  }

  /** The refresh moves no posting, so the loop's shape and every key
      survive it. */
  lemma RefreshKeepsLoopState(start: seq<Cursor>, cs: seq<Cursor>, o: seq<nat>, i: nat, id: nat,
                              bound: real, maxDocid: nat)
    requires LoopState(start, o, maxDocid) && RefreshInvariant(start, cs, o, i, id, bound)
    ensures LoopState(cs, o, maxDocid) && Progress(start, cs)
    ensures forall q :: 0 <= q < |o| ==> Key(cs, o, q) == Key(start, o, q)
  {
    assert forall q :: 0 <= q < |o| ==> Key(cs, o, q) == Key(start, o, q);
  }

  /** A step that refreshes and then moves one cursor below `maxDocid`
      forward shortens the total distance to `maxDocid`. */
  lemma StepDecreases(start: seq<Cursor>, mid: seq<Cursor>, end: seq<Cursor>, moved: nat, maxDocid: nat)
    requires Progress(start, mid) && Progress(mid, end)
    requires (forall h :: 0 <= h < |start| ==> mid[h].Docid() == start[h].Docid())
    requires moved < |mid| && mid[moved].Docid() < maxDocid && end[moved].Docid() > mid[moved].Docid()
    ensures Progress(start, end)
    ensures TotalRemaining(end, maxDocid) < TotalRemaining(start, maxDocid)
  {
    ProgressTransitive(start, mid, end);
    TotalRemainingDecreases(start, end, maxDocid, moved);
  }

  /** The cursors at positions `[0, i)` have been refreshed towards `id`, the
      others are as in `start`. */
  ghost predicate RefreshedUpTo(start: seq<Cursor>, cs: seq<Cursor>, o: seq<nat>, i: nat, id: nat) {
    |cs| == |start| && AllValid(start) && i <= |o| &&
    forall q :: 0 <= q < |o| ==>
      o[q] < |cs| && cs[o[q]] == (if q < i then start[o[q]].Refreshed(id) else start[o[q]])
  }

  /** No cursor changed its posting or its list. */
  ghost predicate SamePostings(start: seq<Cursor>, cs: seq<Cursor>) {
    |cs| == |start| && AllValid(start) &&
    forall h :: 0 <= h < |cs| ==>
      cs[h].Valid() && cs[h].SameList(start[h]) && cs[h].Docid() == start[h].Docid()
  }

  /** The refresh loop's invariant after `i` iterations. */
  ghost predicate RefreshInvariant(start: seq<Cursor>, cs: seq<Cursor>, o: seq<nat>, i: nat, id: nat, bound: real) {
    RefreshedUpTo(start, cs, o, i, id) && SamePostings(start, cs) && Handles(cs, o) &&
    IsPermutation(o, |cs|) && bound == BlockUpperBound(cs, o, i)
  }

  /** One iteration of the refresh loop keeps its invariant. */
  lemma RefreshStep(start: seq<Cursor>, cs: seq<Cursor>, o: seq<nat>, i: nat, id: nat, bound: real)
    requires RefreshInvariant(start, cs, o, i, id, bound) && i < |o|
    ensures RefreshInvariant(start, cs[o[i] := cs[o[i]].Refreshed(id)], o, i + 1, id,
                             bound + cs[o[i]].Refreshed(id).WeightedBlockMax())
  {
    var cs' := cs[o[i] := cs[o[i]].Refreshed(id)];
    RefreshedUpToStep(start, cs, o, i, id);
    assert SamePostings(start, cs');
    BlockUpperBoundStep(cs, cs', o, i);
  }

  lemma RefreshedUpToStep(start: seq<Cursor>, cs: seq<Cursor>, o: seq<nat>, i: nat, id: nat)
    requires RefreshedUpTo(start, cs, o, i, id) && IsPermutation(o, |cs|) && i < |o|
    ensures RefreshedUpTo(start, cs[o[i] := cs[o[i]].Refreshed(id)], o, i + 1, id)
  {
    PermutationFacts(o, |cs|);
  }

  /** Replacing the cursor at position `i` extends the block bound by that
      cursor's new weighted block maximum. */
  lemma BlockUpperBoundStep(cs: seq<Cursor>, cs': seq<Cursor>, o: seq<nat>, i: nat)
    requires Handles(cs, o) && Handles(cs', o) && IsPermutation(o, |cs|) && i < |o|
    requires |cs'| == |cs| && forall h :: 0 <= h < |cs| && h != o[i] ==> cs'[h] == cs[h]
    ensures BlockUpperBound(cs', o, i + 1) == BlockUpperBound(cs, o, i) + cs'[o[i]].WeightedBlockMax()
  {
    PermutationFacts(o, |cs|);
    BlockUpperBoundFrame(cs, cs', o, i);
  }

  /** The pivot search's test at position `q` against a primary collector
      of capacity `k` holding `es`: the running sum of `max_score()`
      through `q` would enter it. */
  ghost predicate Enters(cs: seq<Cursor>, o: seq<nat>, es: seq<Entry>, k: nat, q: nat)
    requires Handles(cs, o) && q < |o|
  {
    Admits(es, k, UpperBound(cs, o, q + 1))
  }

  /** No prefix bound of the (sorted) cursors below `maxDocid` enters the
      collector: the loop's exit condition. */
  ghost predicate NoPivot(cs: seq<Cursor>, o: seq<nat>, es: seq<Entry>, k: nat, maxDocid: nat)
    requires Handles(cs, o)
  {
    forall q :: 0 <= q < |o| && BelowMax(cs, o, q, maxDocid) ==> !Enters(cs, o, es, k, q)
  }

  /** The pivot search's answer: `first` is the first position, before any
      cursor at or past `maxDocid`, whose prefix bound enters the collector,
      `pivotId` its docid, and `pivot` the last position at that docid. */
  ghost predicate IsPivot(cs: seq<Cursor>, o: seq<nat>, es: seq<Entry>, k: nat, maxDocid: nat,
                          first: nat, pivot: nat, pivotId: nat)
    requires Handles(cs, o)
  {
    first <= pivot < |o| && BelowMax(cs, o, first, maxDocid) && Enters(cs, o, es, k, first) &&
    (forall q :: 0 <= q < first ==> !Enters(cs, o, es, k, q)) &&
    pivotId == Key(cs, o, first) && pivotId < maxDocid &&
    (forall q :: first <= q <= pivot ==> Key(cs, o, q) == pivotId) &&
    (pivot + 1 == |o| || Key(cs, o, pivot + 1) != pivotId)
  }

  /** What full evaluation scores, against a collector of capacity `k`
      holding `es`: the first `scored` cursors at `pivotId`. The refined
      bound after each but the last still enters; `cut` says the one after
      the last does not and scoring stopped there, otherwise every cursor at
      `pivotId` was scored. */
  ghost predicate ScoredPrefix(cs: seq<Cursor>, o: seq<nat>, pivotId: nat, bound: real, es: seq<Entry>, k: nat,
                               scored: nat, cut: bool)
    requires Handles(cs, o)
  {
    Scorable(cs, o, scored) && scored <= TiedCount(cs, o, pivotId) &&
    (forall j :: 0 < j < scored ==> Admits(es, k, Refined(cs, o, bound, j))) &&
    (cut ==> 0 < scored && !Admits(es, k, Refined(cs, o, bound, scored))) &&
    (!cut ==> scored == TiedCount(cs, o, pivotId)) &&
    (!cut && 0 < scored ==> Admits(es, k, Refined(cs, o, bound, scored)))
  }

  /** How many cursors `second_score` sums: the cursor whose refined bound
      cut scoring short counts towards `score` only. */
  function SecondaryCount(scored: nat, cut: bool): (n: nat)
    ensures n <= scored && (cut && 0 < scored <==> n < scored)
  {
    if cut && 0 < scored then scored - 1 else scored
  }

  /** Each cursor at `id`, which lead the order, took one `next()`; the
      others are as before. */
  ghost predicate TiedAdvanced(cs: seq<Cursor>, o: seq<nat>, id: nat, cs': seq<Cursor>)
    requires Handles(cs, o)
  {
    |cs'| == |cs| &&
    forall q :: 0 <= q < |o| ==> cs'[o[q]] == if q < TiedCount(cs, o, id) then cs[o[q]].Next() else cs[o[q]]
  }

  /** The lagging branch's choice: the last position up to `pivot` whose
      cursor is not at `pivotId`. */
  ghost predicate Lagging(cs: seq<Cursor>, o: seq<nat>, pivot: nat, pivotId: nat, nextList: nat)
    requires Handles(cs, o) && pivot < |o|
  {
    nextList <= pivot && Key(cs, o, nextList) != pivotId &&
    forall q :: nextList < q <= pivot ==> Key(cs, o, q) == pivotId
  }

  /** The pruning branch's choice: the position up to `pivot` with the
      largest `max_score()`, the first such among earlier positions, and
      `pivot` itself unless an earlier one is strictly larger. */
  ghost predicate Heaviest(cs: seq<Cursor>, o: seq<nat>, pivot: nat, nextList: nat)
    requires Handles(cs, o) && pivot < |o|
  {
    nextList <= pivot &&
    (forall q :: 0 <= q <= pivot ==> cs[o[q]].maxScore <= cs[o[nextList]].maxScore) &&
    (nextList < pivot ==> cs[o[nextList]].maxScore > cs[o[pivot]].maxScore) &&
    (nextList < pivot ==> forall q :: 0 <= q < nextList ==> cs[o[q]].maxScore < cs[o[nextList]].maxScore)
  }

  /** The pruning branch's target: one past the earliest block end up to
      `pivot` (capped at `maxDocid`), lowered to the docid of the cursor
      after the pivot, and raised to at least `pivotId + 1`. */
  function SkipTo(cs: seq<Cursor>, o: seq<nat>, pivot: nat, pivotId: nat, maxDocid: nat): nat
    requires Handles(cs, o) && pivot < |o|
  {
    var blockEnd := MinBlockEnd(cs, o, pivot, maxDocid) + 1;
    var capped := if pivot + 1 < |o| && Key(cs, o, pivot + 1) < blockEnd then Key(cs, o, pivot + 1) else blockEnd;
    if capped <= pivotId then pivotId + 1 else capped
  }

  /** Which of its three branches the loop took with a pivot. */
  datatype Branch =
    | FullEvaluation(scored: nat, cut: bool)  // scored and inserted into both collectors
    | MoveLagging(position: nat)              // a lagging cursor moved up to the pivot
    | SkipPast(position: nat)                 // a cursor skipped past the pivot

  /** What the loop does with a pivot once its blocks are refreshed, from
      cursors `cs` ordered by `o` to cursors `cs'`, against a primary
      collector of capacity `k` holding `es`; `added` and `secondAdded` are
      the inserts into the two collectors. With a block bound that enters
      and the first cursor on the pivot, the pivot is scored and inserted
      and the cursors on it take one `next()` each; with a bound that enters
      otherwise, the lagging cursor moves to the pivot; with a bound that
      does not enter, the heaviest cursor skips to `SkipTo`. */
  ghost predicate Resolves(cs: seq<Cursor>, o: seq<nat>, es: seq<Entry>, k: nat, maxDocid: nat,
                           pivot: nat, pivotId: nat, bound: real, b: Branch,
                           cs': seq<Cursor>, added: seq<Entry>, secondAdded: seq<Entry>)
    requires Handles(cs, o) && pivot < |o|
  {
    match b
    case FullEvaluation(scored, cut) =>
      Admits(es, k, bound) && Key(cs, o, 0) == pivotId &&
      ScoredPrefix(cs, o, pivotId, bound, es, k, scored, cut) &&
      added == [Entry(ScoreSum(cs, o, scored), pivotId)] &&
      secondAdded == [Entry(SecondarySum(cs, o, SecondaryCount(scored, cut)), pivotId)] &&
      TiedAdvanced(cs, o, pivotId, cs')
    case MoveLagging(p) =>
      Admits(es, k, bound) && Key(cs, o, 0) != pivotId && Lagging(cs, o, pivot, pivotId, p) &&
      added == [] && secondAdded == [] &&
      cs' == cs[o[p] := cs[o[p]].NextGeq(pivotId)]
    case SkipPast(p) =>
      !Admits(es, k, bound) && Heaviest(cs, o, pivot, p) &&
      added == [] && secondAdded == [] &&
      cs' == cs[o[p] := cs[o[p]].NextGeq(SkipTo(cs, o, pivot, pivotId, maxDocid))]
  }

  /** Dropping the last turn of a trace leaves a trace to where that turn
      started. */
  lemma TracePrefix(turns: seq<TurnRecord>, start: seq<Cursor>, end: seq<Cursor>, es0: seq<Entry>, k: nat, maxDocid: nat)
    requires Trace(turns, start, end, es0, k, maxDocid) && turns != []
    ensures Trace(turns[..|turns| - 1], start, turns[|turns| - 1].cs, es0, k, maxDocid)
  {
    var init := turns[..|turns| - 1];
    forall i | 0 <= i < |init| ensures init[i].es == AfterInserts(es0, k, AllAdded(init[..i])) {
      assert init[..i] == turns[..i];
    }
  }

  /** The inserts of a run of turns are for the same documents in both
      collectors, each below `maxDocid`, in strictly increasing docid order,
      and every cursor ends beyond the last of them: each evaluated pivot is
      the smallest current docid, which the earlier turns left beyond every
      document already inserted. */
  lemma {:induction false} TraceFed(turns: seq<TurnRecord>, start: seq<Cursor>, end: seq<Cursor>, es0: seq<Entry>,
                                    k: nat, maxDocid: nat)
    requires Trace(turns, start, end, es0, k, maxDocid)
    ensures Evaluated(AllAdded(turns), AllSecondAdded(turns), maxDocid)
    ensures AllAdded(turns) != [] ==> AllPast(end, AllAdded(turns)[|AllAdded(turns)| - 1].docid)
    decreases |turns|
  {
    if turns != [] {
      var init, t := turns[..|turns| - 1], turns[|turns| - 1];
      TracePrefix(turns, start, end, es0, k, maxDocid);
      TraceFed(init, start, t.cs, es0, k, maxDocid);
      assert IsTurn(t, k, maxDocid) && t.after == end;
      TurnFed(AllAdded(init), AllSecondAdded(init), t, k, maxDocid);
    }
  }

  /** One turn's step of `TraceFed`: a turn keeps `Evaluated` and the
      cursors beyond the last insert. */
  lemma TurnFed(top: seq<Entry>, second: seq<Entry>, t: TurnRecord, k: nat, maxDocid: nat)
    requires IsTurn(t, k, maxDocid) && Evaluated(top, second, maxDocid)
    requires top != [] ==> AllPast(t.cs, top[|top| - 1].docid)
    ensures Evaluated(top + t.added, second + t.secondAdded, maxDocid)
    ensures top + t.added != [] ==> AllPast(t.after, (top + t.added)[|top + t.added| - 1].docid)
  {
    TurnInserts(t, k, maxDocid);
    if t.branch.FullEvaluation? {
      if top != [] {
        assert t.cs[t.o[0]].Docid() > top[|top| - 1].docid;
      }
      EvaluatedExtend(top, second, maxDocid, t.added[0], t.secondAdded[0]);
      assert t.added == [t.added[0]] && t.secondAdded == [t.secondAdded[0]];
    } else if top != [] {
      AllPastAfterProgress(t.cs, t.after, top[|top| - 1].docid);
    }
  }

  lemma EvaluationResolves(cs: seq<Cursor>, o: seq<nat>, es: seq<Entry>, k: nat, maxDocid: nat, pivot: nat,
                           pivotId: nat, bound: real, scored: nat, cut: bool, cs': seq<Cursor>)
    requires Handles(cs, o) && pivot < |o| && Admits(es, k, bound) && Key(cs, o, 0) == pivotId
    requires ScoredPrefix(cs, o, pivotId, bound, es, k, scored, cut) && TiedAdvanced(cs, o, pivotId, cs')
    ensures Resolves(cs, o, es, k, maxDocid, pivot, pivotId, bound, FullEvaluation(scored, cut), cs',
                     [Entry(ScoreSum(cs, o, scored), pivotId)],
                     [Entry(SecondarySum(cs, o, SecondaryCount(scored, cut)), pivotId)])
  {
  }

  lemma LaggingResolves(cs: seq<Cursor>, o: seq<nat>, es: seq<Entry>, k: nat, maxDocid: nat, pivot: nat,
                        pivotId: nat, bound: real, p: nat, cs': seq<Cursor>)
    requires Handles(cs, o) && pivot < |o| && Admits(es, k, bound) && Key(cs, o, 0) != pivotId
    requires Lagging(cs, o, pivot, pivotId, p) && cs' == cs[o[p] := cs[o[p]].NextGeq(pivotId)]
    ensures Resolves(cs, o, es, k, maxDocid, pivot, pivotId, bound, MoveLagging(p), cs', [], [])
  {
  }

  lemma SkipResolves(cs: seq<Cursor>, o: seq<nat>, es: seq<Entry>, k: nat, maxDocid: nat, pivot: nat,
                     pivotId: nat, bound: real, p: nat, cs': seq<Cursor>)
    requires Handles(cs, o) && pivot < |o| && !Admits(es, k, bound) && Heaviest(cs, o, pivot, p)
    requires cs' == cs[o[p] := cs[o[p]].NextGeq(SkipTo(cs, o, pivot, pivotId, maxDocid))]
    ensures Resolves(cs, o, es, k, maxDocid, pivot, pivotId, bound, SkipPast(p), cs', [], [])
  {
  }

  /** One turn of the loop that found a pivot: the cursors `cs` ordered by
      `o` and the primary collector's entries `es` it started from, the pivot
      search's answer, the cursors after the refresh, the branch taken, the
      cursors it left, and the inserts into the two collectors. */
  datatype TurnRecord = TurnRecord(cs: seq<Cursor>, o: seq<nat>, es: seq<Entry>,
                                   first: nat, pivot: nat, pivotId: nat, refreshed: seq<Cursor>,
                                   branch: Branch, after: seq<Cursor>, added: seq<Entry>, secondAdded: seq<Entry>)

  /** `t` is what the loop does in one turn against a primary collector of
      capacity `k`: find the pivot, refresh the blocks up to it, and resolve
      it with the refreshed block bound. */
  ghost predicate IsTurn(t: TurnRecord, k: nat, maxDocid: nat) {
    forall u {:trigger TurnHolds(u, k, maxDocid)} :: u == t ==> TurnHolds(u, k, maxDocid)
  }

  /** The body of `IsTurn`. `IsTurn` states it through a quantifier that
      only a proof naming `TurnHolds` instantiates, so that the loop's
      proofs, which pass turns along, need not unfold it. */
  ghost predicate TurnHolds(t: TurnRecord, k: nat, maxDocid: nat) {
    LoopState(t.cs, t.o, maxDocid) &&
    IsPivot(t.cs, t.o, t.es, k, maxDocid, t.first, t.pivot, t.pivotId) &&
    RefreshedUpTo(t.cs, t.refreshed, t.o, t.pivot + 1, t.pivotId) && Handles(t.refreshed, t.o) &&
    Resolves(t.refreshed, t.o, t.es, k, maxDocid, t.pivot, t.pivotId, BlockUpperBound(t.refreshed, t.o, t.pivot + 1),
             t.branch, t.after, t.added, t.secondAdded) &&
    Progress(t.cs, t.after) &&
    (t.branch.FullEvaluation? ==> t.pivotId == Key(t.cs, t.o, 0) && AllPast(t.after, t.pivotId))
  }

  /** A turn inserts one pair of entries for its pivot exactly when it
      evaluated the pivot, and nothing otherwise. */
  lemma TurnInserts(t: TurnRecord, k: nat, maxDocid: nat)
    requires IsTurn(t, k, maxDocid)
    ensures t.branch.FullEvaluation? ==>
              |t.added| == 1 && |t.secondAdded| == 1 && t.added[0].docid == t.pivotId &&
              t.secondAdded[0].docid == t.pivotId && t.pivotId < maxDocid
    ensures !t.branch.FullEvaluation? ==> t.added == [] && t.secondAdded == []
    ensures LoopState(t.cs, t.o, maxDocid) && t.pivot < |t.o| && Progress(t.cs, t.after)
    ensures t.branch.FullEvaluation? ==> t.pivotId == Key(t.cs, t.o, 0) && AllPast(t.after, t.pivotId)
  {
    assert TurnHolds(t, k, maxDocid);
  }

  /** A pivot search's answer, the refresh up to the pivot and the
      resolution from the refreshed cursors make a turn. */
  lemma TurnOf(t: TurnRecord, k: nat, maxDocid: nat)
    requires LoopState(t.cs, t.o, maxDocid)
    requires IsPivot(t.cs, t.o, t.es, k, maxDocid, t.first, t.pivot, t.pivotId)
    requires RefreshedUpTo(t.cs, t.refreshed, t.o, t.pivot + 1, t.pivotId) && Handles(t.refreshed, t.o)
    requires Resolves(t.refreshed, t.o, t.es, k, maxDocid, t.pivot, t.pivotId,
                      BlockUpperBound(t.refreshed, t.o, t.pivot + 1), t.branch, t.after, t.added, t.secondAdded)
    requires Progress(t.cs, t.after)
    requires t.branch.FullEvaluation? ==> t.pivotId == Key(t.cs, t.o, 0) && AllPast(t.after, t.pivotId)
    ensures IsTurn(t, k, maxDocid)
  {
    assert TurnHolds(t, k, maxDocid);
  }

  /** The primary inserts of `turns`, in order. */
  function AllAdded(turns: seq<TurnRecord>): seq<Entry> {
    if turns == [] then [] else AllAdded(turns[..|turns| - 1]) + turns[|turns| - 1].added
  }

  /** The secondary inserts of `turns`, in order. */
  function AllSecondAdded(turns: seq<TurnRecord>): seq<Entry> {
    if turns == [] then [] else AllSecondAdded(turns[..|turns| - 1]) + turns[|turns| - 1].secondAdded
  }

  /** Every record of `turns` is a turn of the loop. */
  ghost predicate AllTurns(turns: seq<TurnRecord>, k: nat, maxDocid: nat) {
    forall i :: 0 <= i < |turns| ==> IsTurn(turns[i], k, maxDocid)
  }

  /** Each of `turns` sees the primary collector as `es0` after the inserts
      of the turns before it. */
  ghost predicate SeesInserts(turns: seq<TurnRecord>, es0: seq<Entry>, k: nat)
    requires |es0| <= k
  {
    forall i :: 0 <= i < |turns| ==> turns[i].es == AfterInserts(es0, k, AllAdded(turns[..i]))
  }

  /** `turns` lead from cursors `start` to cursors `end`, each starting
      where the previous one ended. */
  ghost predicate Chained(turns: seq<TurnRecord>, start: seq<Cursor>, end: seq<Cursor>) {
    (forall i :: 0 <= i < |turns| - 1 ==> turns[i + 1].cs == turns[i].after) &&
    (if turns == [] then end == start else turns[0].cs == start && end == turns[|turns| - 1].after)
  }

  /** `turns` are the loop's turns with a pivot, in order, from cursors
      `start` to cursors `end`, against a primary collector of capacity `k`
      that held `es0` before the first. */
  ghost predicate Trace(turns: seq<TurnRecord>, start: seq<Cursor>, end: seq<Cursor>, es0: seq<Entry>, k: nat,
                        maxDocid: nat) {
    |es0| <= k && AllTurns(turns, k, maxDocid) && SeesInserts(turns, es0, k) && Chained(turns, start, end)
  }

  /** Inserting `a` and then `b` is inserting `a + b`. */
  lemma {:induction false} AfterInsertsAppend(es: seq<Entry>, k: nat, a: seq<Entry>, b: seq<Entry>)
    requires |es| <= k
    ensures AfterInserts(es, k, a + b) == AfterInserts(AfterInserts(es, k, a), k, b)
    decreases |a|
  {
    if a != [] {
      assert (a + b)[0] == a[0] && (a + b)[1..] == a[1..] + b;
      AfterInsertsAppend(AfterInsert(es, k, a[0]), k, a[1..], b);
    } else {
      assert a + b == b;
    }
  }

  /** A turn that starts where the trace ended and sees the collector as the
      trace left it extends the trace. */
  lemma TraceExtend(turns: seq<TurnRecord>, t: TurnRecord, start: seq<Cursor>, es0: seq<Entry>, k: nat, maxDocid: nat)
    requires Trace(turns, start, t.cs, es0, k, maxDocid) && IsTurn(t, k, maxDocid)
    requires t.es == AfterInserts(es0, k, AllAdded(turns))
    ensures Trace(turns + [t], start, t.after, es0, k, maxDocid)
    ensures AllAdded(turns + [t]) == AllAdded(turns) + t.added
    ensures AllSecondAdded(turns + [t]) == AllSecondAdded(turns) + t.secondAdded
  {
    var ts := turns + [t];
    assert ts[..|turns|] == turns;
    AllTurnsExtend(turns, t, k, maxDocid);
    SeesInsertsExtend(turns, t, es0, k);
    ChainedExtend(turns, t, start);
  }

  lemma AllTurnsExtend(turns: seq<TurnRecord>, t: TurnRecord, k: nat, maxDocid: nat)
    requires AllTurns(turns, k, maxDocid) && IsTurn(t, k, maxDocid)
    ensures AllTurns(turns + [t], k, maxDocid)
  {
    var ts := turns + [t];
    forall i | 0 <= i < |ts| ensures IsTurn(ts[i], k, maxDocid) {
      if i < |turns| {
        assert ts[i] == turns[i];
      }
    }
  }

  lemma SeesInsertsExtend(turns: seq<TurnRecord>, t: TurnRecord, es0: seq<Entry>, k: nat)
    requires |es0| <= k && SeesInserts(turns, es0, k) && t.es == AfterInserts(es0, k, AllAdded(turns))
    ensures SeesInserts(turns + [t], es0, k)
  {
    var ts := turns + [t];
    forall i | 0 <= i < |ts| ensures ts[i].es == AfterInserts(es0, k, AllAdded(ts[..i])) {
      if i < |turns| {
        assert ts[i] == turns[i] && ts[..i] == turns[..i];
      } else {
        assert ts[..i] == turns;
      }
    }
  }

  lemma ChainedExtend(turns: seq<TurnRecord>, t: TurnRecord, start: seq<Cursor>)
    requires Chained(turns, start, t.cs)
    ensures Chained(turns + [t], start, t.after)
  {
    var ts := turns + [t];
    forall i | 0 <= i < |ts| - 1 ensures ts[i + 1].cs == ts[i].after {
      assert ts[i] == turns[i];
    }
  }

  class BlockMaxWandQuery {
    const topk: TopkQueue
    const secondary: TopkQueue

    ghost predicate Valid()
      reads this, topk, secondary
    {
      topk != secondary && topk.Valid() && secondary.Valid()
    }

    constructor (topk: TopkQueue, secondary: TopkQueue)
      requires topk != secondary && topk.Valid() && secondary.Valid()
      ensures this.topk == topk && this.secondary == secondary && Valid()
    {
      this.topk := topk;
      this.secondary := secondary;
    }

    /** Pivot search: the first position whose running sum of `max_score()`
        would enter the collector, stopping at the first cursor at or past
        `maxDocid`; the pivot then moves over the cursors at the same docid.
        `first` is where the sum first qualified. */
    method FindPivot(cs: seq<Cursor>, o: seq<nat>, maxDocid: nat)
      returns (found: bool, pivot: nat, pivotId: nat, ghost first: nat)
      requires Handles(cs, o) && topk.Valid()
      ensures found ==> IsPivot(cs, o, topk.entries, topk.capacity, maxDocid, first, pivot, pivotId)
      ensures !found ==> pivotId == maxDocid && NoPivot(cs, o, topk.entries, topk.capacity, maxDocid)
    {
      var upperBound := 0.0;
      found, pivot, pivotId, first := false, 0, maxDocid, 0;
      while pivot < |o|
        invariant pivot <= |o|
        invariant upperBound == UpperBound(cs, o, pivot)
        invariant forall q :: 0 <= q < pivot ==> Key(cs, o, q) < maxDocid
        invariant forall q :: 0 <= q < pivot ==> !Enters(cs, o, topk.entries, topk.capacity, q)
      {
        if cs[o[pivot]].Docid() >= maxDocid {
          forall q | pivot <= q < |o| ensures !BelowMax(cs, o, q, maxDocid) {
            assert Key(cs, o, pivot) >= maxDocid;
          }
          break;
        }
        upperBound := upperBound + cs[o[pivot]].maxScore;
        if topk.WouldEnter(upperBound) {
          found := true;
          pivotId := cs[o[pivot]].Docid();
          first := pivot;
          while pivot + 1 < |o| && cs[o[pivot + 1]].Docid() == pivotId
            invariant first <= pivot < |o|
            invariant forall q :: first <= q <= pivot ==> Key(cs, o, q) == pivotId
          {
            pivot := pivot + 1;
          }
          return;
        }
        pivot := pivot + 1;
      }
    }

    /** Every cursor in `[0, pivot]` whose block ends before `pivotId` moves
        its block forward; the result is the sum of the weighted block bounds
        of the same cursors. No cursor changes its posting. */
    static method RefreshBlocks(cursors: array<Cursor>, o: seq<nat>, pivot: nat, pivotId: nat)
      returns (blockUpperBound: real)
      requires Handles(cursors[..], o) && IsPermutation(o, cursors.Length) && pivot < |o|
      modifies cursors
      ensures RefreshInvariant(old(cursors[..]), cursors[..], o, pivot + 1, pivotId, blockUpperBound)
    {
      blockUpperBound := 0.0;
      var i := 0;
      while i < pivot + 1
        invariant i <= pivot + 1
        invariant RefreshInvariant(old(cursors[..]), cursors[..], o, i, pivotId, blockUpperBound)
      {
        RefreshStep(old(cursors[..]), cursors[..], o, i, pivotId, blockUpperBound);
        var h := o[i];
        RefreshOne(cursors, h, pivotId);
        blockUpperBound := blockUpperBound + cursors[h].WeightedBlockMax();
        i := i + 1;
      }
    }

    /** The body of the refresh loop for one cursor: its block moves only
        when it ends before `pivotId`. */
    static method RefreshOne(cursors: array<Cursor>, h: nat, pivotId: nat)
      requires h < cursors.Length && cursors[h].Valid()
      modifies cursors
      ensures cursors[..] == old(cursors[..])[h := old(cursors[h]).Refreshed(pivotId)]
    {
      if cursors[h].BlockMaxDocid() < pivotId {
        cursors[h] := cursors[h].BlockMaxNextGeq(pivotId);
      }
    }

    /** Full evaluation of the pivot: the tied cursors are scored in order;
        after each one its block bound is traded for its exact score, and
        once the refined bound no longer enters the collector scoring stops.
        The cursor that triggers the stop counts towards `score` but not
        towards `secondScore`. */
    method ScorePivot(cs: seq<Cursor>, o: seq<nat>, pivotId: nat, blockUpperBound: real, ghost maxDocid: nat)
      returns (score: real, secondScore: real, scored: nat, cut: bool)
      requires Handles(cs, o) && Bounded(cs, maxDocid) && pivotId < maxDocid && topk.Valid()
      ensures ScoredPrefix(cs, o, pivotId, blockUpperBound, topk.entries, topk.capacity, scored, cut)
      ensures score == ScoreSum(cs, o, scored)
      ensures secondScore == SecondarySum(cs, o, SecondaryCount(scored, cut))
    {
      TiedAreScorable(cs, o, pivotId, maxDocid);
      var bound := blockUpperBound;
      score, secondScore, scored, cut := 0.0, 0.0, 0, false;
      var i := 0;
      while i < |o|
        invariant i <= TiedCount(cs, o, pivotId) && Scorable(cs, o, i)
        invariant score == ScoreSum(cs, o, i) && secondScore == SecondarySum(cs, o, i)
        invariant bound == Refined(cs, o, blockUpperBound, i)
        invariant forall j :: 0 < j <= i ==> topk.WouldEnter(Refined(cs, o, blockUpperBound, j))
      {
        var c := cs[o[i]];
        if c.Docid() != pivotId {
          assert Key(cs, o, i) != pivotId;
          break;
        }
        var partScore := c.Score();
        score := score + partScore;
        bound := bound - (c.WeightedBlockMax() - partScore);
        if !topk.WouldEnter(bound) {
          scored, cut := i + 1, true;
          return;
        }
        secondScore := secondScore + c.SecondaryScore();
        i := i + 1;
      }
      scored := i;
    }

    /** The second loop of the full evaluation: every cursor at `pivotId`
        gets exactly one `next()`, whether or not scoring stopped early. */
    static method AdvanceTied(cursors: array<Cursor>, o: seq<nat>, pivotId: nat)
      requires Handles(cursors[..], o) && IsPermutation(o, cursors.Length)
      modifies cursors
      ensures forall q :: 0 <= q < |o| ==>
                cursors[o[q]] == if q < TiedCount(old(cursors[..]), o, pivotId) then old(cursors[o[q]]).Next()
                                 else old(cursors[o[q]])
      ensures forall h :: 0 <= h < cursors.Length ==>
                cursors[h].Valid() && cursors[h].SameList(old(cursors[h])) && cursors[h].Docid() >= old(cursors[h]).Docid()
    {
      ghost var start := cursors[..];
      ghost var t := TiedCount(start, o, pivotId);
      PermutationFacts(o, cursors.Length);
      var i := 0;
      while i < |o|
        invariant i <= t
        invariant forall q :: 0 <= q < |o| ==> cursors[o[q]] == if q < i then start[o[q]].Next() else start[o[q]]
        invariant forall h :: 0 <= h < cursors.Length ==>
                    cursors[h].Valid() && cursors[h].SameList(start[h]) && cursors[h].Docid() >= start[h].Docid()
      {
        var h := o[i];
        if cursors[h].Docid() != pivotId {
          assert Key(start, o, i) != pivotId;
          break;
        }
        assert Key(start, o, i) == pivotId;
        cursors[h] := cursors[h].Next();
        assert forall q :: 0 <= q < |o| && q != i ==> o[q] != h;
        i := i + 1;
      }
    }

    /** The tail of the full evaluation that touches the cursors: the tied
        cursors take one `next()` each and the order is rebuilt. Afterwards
        every cursor is past `pivotId`. */
    static method AdvancePastPivot(cursors: array<Cursor>, ordered: array<nat>, pivotId: nat, maxDocid: nat)
      returns (ghost moved: nat)
      requires LoopState(cursors[..], ordered[..], maxDocid)
      requires 0 < ordered.Length && pivotId < maxDocid && Key(cursors[..], ordered[..], 0) == pivotId
      modifies cursors, ordered
      ensures LoopState(cursors[..], ordered[..], maxDocid)
      ensures Progress(old(cursors[..]), cursors[..])
      ensures moved < cursors.Length && old(cursors[moved]).Docid() < maxDocid
      ensures cursors[moved].Docid() > old(cursors[moved]).Docid()
      ensures forall h :: 0 <= h < cursors.Length ==> cursors[h].Docid() > pivotId
      ensures TiedAdvanced(old(cursors[..]), old(ordered[..]), pivotId, cursors[..])
    {
      ghost var cs := cursors[..];
      ghost var o := ordered[..];
      AdvanceTied(cursors, ordered[..], pivotId);
      ghost var advanced := cursors[..];
      assert Progress(cs, advanced);
      TiedAdvancePassesPivot(cs, advanced, o, pivotId, maxDocid);
      moved := ordered[0];
      assert Key(cs, o, 0) == pivotId;
      SortCursors(ordered, cursors[..]);
      assert cursors[..] == advanced;
      ReorderedLoopState(cs, advanced, o, ordered[..], maxDocid);
    }

    /** The collector side of the full evaluation: score the pivot and
        insert `score` into the primary and `second_score` into the
        secondary collector. The cursors are only read. */
    method ScoreAndInsert(cs: seq<Cursor>, o: seq<nat>, pivotId: nat, blockUpperBound: real, ghost maxDocid: nat)
      returns (ghost scored: nat, ghost cut: bool)
      requires Valid() && Handles(cs, o) && Bounded(cs, maxDocid) && pivotId < maxDocid
      modifies topk, secondary
      ensures Valid()
      ensures ScoredPrefix(cs, o, pivotId, blockUpperBound, old(topk.entries), topk.capacity, scored, cut)
      ensures topk.log == old(topk.log) + [Entry(ScoreSum(cs, o, scored), pivotId)]
      ensures secondary.log == old(secondary.log) + [Entry(SecondarySum(cs, o, SecondaryCount(scored, cut)), pivotId)]
      ensures topk.entries == AfterInserts(old(topk.entries), topk.capacity, [Entry(ScoreSum(cs, o, scored), pivotId)])
      ensures secondary.entries ==
                AfterInserts(old(secondary.entries), secondary.capacity,
                             [Entry(SecondarySum(cs, o, SecondaryCount(scored, cut)), pivotId)])
    {
      var score, secondScore, s, c := ScorePivot(cs, o, pivotId, blockUpperBound, maxDocid);
      scored, cut := s, c;
      topk.Insert(score, pivotId);
      secondary.Insert(secondScore, pivotId);
    }

    /** The pivot is realisable: score it, insert it into both collectors,
        advance the cursors on it and re-sort. */
    method EvaluatePivot(cursors: array<Cursor>, ordered: array<nat>, pivot: nat, pivotId: nat,
                         blockUpperBound: real, maxDocid: nat)
      returns (ghost scored: nat, ghost cut: bool, ghost added: seq<Entry>, ghost secondAdded: seq<Entry>,
               ghost moved: nat)
      requires Valid() && LoopState(cursors[..], ordered[..], maxDocid) && topk.WouldEnter(blockUpperBound)
      requires pivot < ordered.Length && pivotId < maxDocid && Key(cursors[..], ordered[..], 0) == pivotId
      modifies cursors, ordered, topk, secondary
      ensures Valid() && LoopState(cursors[..], ordered[..], maxDocid)
      ensures Resolves(old(cursors[..]), old(ordered[..]), old(topk.entries), topk.capacity, maxDocid, pivot, pivotId,
                       blockUpperBound, FullEvaluation(scored, cut), cursors[..], added, secondAdded)
      ensures topk.log == old(topk.log) + added && secondary.log == old(secondary.log) + secondAdded
      ensures topk.entries == AfterInserts(old(topk.entries), topk.capacity, added)
      ensures secondary.entries == AfterInserts(old(secondary.entries), secondary.capacity, secondAdded)
      ensures Progress(old(cursors[..]), cursors[..])
      ensures moved < cursors.Length && old(cursors[moved]).Docid() < maxDocid
      ensures cursors[moved].Docid() > old(cursors[moved]).Docid()
      ensures AllPast(cursors[..], pivotId)
    {
      ghost var cs, o, es := cursors[..], ordered[..], topk.entries;
      scored, cut := ScoreAndInsert(cursors[..], ordered[..], pivotId, blockUpperBound, maxDocid);
      added := [Entry(ScoreSum(cs, o, scored), pivotId)];
      secondAdded := [Entry(SecondarySum(cs, o, SecondaryCount(scored, cut)), pivotId)];
      moved := AdvancePastPivot(cursors, ordered, pivotId, maxDocid);
      EvaluationResolves(cs, o, es, topk.capacity, maxDocid, pivot, pivotId, blockUpperBound, scored, cut, cursors[..]);
    }

    /** The pivot is not realisable: the highest position in `[0, pivot]`
        whose cursor is not at `pivotId`; position 0 is such a cursor, so the
        backward scan stops there at the latest. */
    static method FindLagging(cs: seq<Cursor>, o: seq<nat>, pivot: nat, pivotId: nat) returns (nextList: nat)
      requires Handles(cs, o) && pivot < |o| && Key(cs, o, 0) != pivotId
      ensures Lagging(cs, o, pivot, pivotId, nextList)
    {
      nextList := pivot;
      while cs[o[nextList]].Docid() == pivotId
        invariant nextList <= pivot
        invariant forall q :: nextList < q <= pivot ==> Key(cs, o, q) == pivotId
        decreases nextList
      {
        assert Key(cs, o, nextList) == pivotId;
        nextList := nextList - 1;
      }
    }

    /** The pruning branch's choice: the position in `[0, pivot]` with the
        largest `max_score()`; among earlier positions the first maximum,
        and `pivot` itself unless an earlier one is strictly larger. */
    static method ChooseSkipList(cs: seq<Cursor>, o: seq<nat>, pivot: nat) returns (nextList: nat)
      requires Handles(cs, o) && pivot < |o|
      ensures Heaviest(cs, o, pivot, nextList)
    {
      nextList := pivot;
      var maxWeight := cs[o[nextList]].maxScore;
      var i := 0;
      while i < pivot
        invariant i <= pivot && nextList <= pivot
        invariant maxWeight == cs[o[nextList]].maxScore
        invariant nextList == pivot || nextList < i
        invariant forall q :: 0 <= q < i ==> cs[o[q]].maxScore <= maxWeight
        invariant cs[o[pivot]].maxScore <= maxWeight
        invariant nextList < pivot ==> maxWeight > cs[o[pivot]].maxScore
        invariant nextList < pivot ==> forall q :: 0 <= q < nextList ==> cs[o[q]].maxScore < maxWeight
      {
        if cs[o[i]].maxScore > maxWeight {
          nextList := i;
          maxWeight := cs[o[i]].maxScore;
        }
        i := i + 1;
      }
    }

    /** The smallest `block_max_docid()` among positions `[0, pivot]`,
        starting from `maxDocid`. */
    static method EarliestBlockEnd(cs: seq<Cursor>, o: seq<nat>, pivot: nat, maxDocid: nat)
      returns (next: nat)
      requires Handles(cs, o) && pivot < |o|
      ensures next == MinBlockEnd(cs, o, pivot, maxDocid)
    {
      next := maxDocid;
      var i := 0;
      while i <= pivot
        invariant i <= pivot + 1
        invariant next == if i == 0 then maxDocid else MinBlockEnd(cs, o, i - 1, maxDocid)
      {
        if cs[o[i]].BlockMaxDocid() < next {
          next := cs[o[i]].BlockMaxDocid();
        }
        i := i + 1;
      }
    }

    /** The pruning branch's target: one past the earliest block end in
        `[0, pivot]` (capped at `maxDocid`), no further than the docid of the
        cursor after the pivot, and always beyond `pivotId`. */
    static method SkipTarget(cs: seq<Cursor>, o: seq<nat>, pivot: nat, pivotId: nat, maxDocid: nat)
      returns (next: nat)
      requires Handles(cs, o) && pivot < |o|
      ensures next > pivotId
      ensures next == pivotId + 1 || next <= MinBlockEnd(cs, o, pivot, maxDocid) + 1
      ensures next == pivotId + 1 || pivot + 1 == |o| || next <= Key(cs, o, pivot + 1)
      ensures next == pivotId + 1 ||
              next == MinBlockEnd(cs, o, pivot, maxDocid) + 1 ||
              (pivot + 1 < |o| && next == Key(cs, o, pivot + 1))
      ensures next == SkipTo(cs, o, pivot, pivotId, maxDocid)
    {
      next := EarliestBlockEnd(cs, o, pivot, maxDocid);
      next := next + 1;
      if pivot + 1 < |o| && cs[o[pivot + 1]].Docid() < next {
        next := cs[o[pivot + 1]].Docid();
      }
      if next <= pivotId {
        next := pivotId + 1;
      }
    }

    /** Moves the cursor at position `nl` with `next_geq(target)` and bubbles
        it forward into place. A cursor below `maxDocid` and below `target`
        strictly advances. */
    static method AdvanceOne(cursors: array<Cursor>, ordered: array<nat>, nl: nat, target: nat,
                             swapTies: bool, ghost maxDocid: nat)
      returns (ghost moved: nat)
      requires LoopState(cursors[..], ordered[..], maxDocid) && nl < ordered.Length
      modifies cursors, ordered
      ensures LoopState(cursors[..], ordered[..], maxDocid)
      ensures moved == old(ordered[nl]) && moved < cursors.Length
      ensures cursors[..] == old(cursors[..])[moved := old(cursors[moved]).NextGeq(target)]
      ensures Progress(old(cursors[..]), cursors[..])
      ensures old(cursors[moved]).Docid() < target && old(cursors[moved]).Docid() < maxDocid ==>
                cursors[moved].Docid() > old(cursors[moved]).Docid()
    {
      ghost var cs := cursors[..];
      ghost var o := ordered[..];
      var h := ordered[nl];
      moved := h;
      cursors[h] := cursors[h].NextGeq(target);
      ghost var cs' := cursors[..];
      assert Progress(cs, cs');
      PermutationFacts(o, |cs|);
      assert forall q :: 0 <= q < |o| && q != nl ==> Key(cs', o, q) == Key(cs, o, q);
      ghost var lo := if nl == 0 then 0 else Key(cs, o, nl - 1);
      assert forall b :: nl <= b < |o| ==> Key(cs, o, b) >= lo;
      BubbleForward(ordered, cursors[..], nl, swapTies, lo);
      assert ordered[..nl] == o[..nl];
      SortedAfterReinsert(cs, cs', o, ordered[..], nl, lo);
    }

    /** The block bound admits the pivot but the first cursor is not at it:
        the last cursor up to the pivot that is not at `pivotId` moves there
        and is bubbled forward over equal docids too. */
    static method AdvanceLagging(cursors: array<Cursor>, ordered: array<nat>, pivot: nat, pivotId: nat,
                                 ghost maxDocid: nat)
      returns (nextList: nat, ghost moved: nat)
      requires LoopState(cursors[..], ordered[..], maxDocid) && pivot < ordered.Length
      requires Key(cursors[..], ordered[..], pivot) == pivotId && pivotId < maxDocid
      requires Key(cursors[..], ordered[..], 0) != pivotId
      modifies cursors, ordered
      ensures LoopState(cursors[..], ordered[..], maxDocid)
      ensures Lagging(old(cursors[..]), old(ordered[..]), pivot, pivotId, nextList)
      ensures moved == old(ordered[nextList]) && moved < cursors.Length
      ensures cursors[..] == old(cursors[..])[moved := old(cursors[moved]).NextGeq(pivotId)]
      ensures Progress(old(cursors[..]), cursors[..])
      ensures old(cursors[moved]).Docid() < maxDocid && cursors[moved].Docid() > old(cursors[moved]).Docid()
    {
      nextList := FindLagging(cursors[..], ordered[..], pivot, pivotId);
      assert Key(cursors[..], ordered[..], nextList) <= Key(cursors[..], ordered[..], pivot);
      moved := AdvanceOne(cursors, ordered, nextList, pivotId, true, maxDocid);
    }

    /** The block bound rules the pivot out: the cursor with the largest
        `max_score()` up to the pivot skips to the end of the shortest block,
        or to the next cursor's docid, and at least past `pivotId`. */
    static method SkipPruned(cursors: array<Cursor>, ordered: array<nat>, pivot: nat, pivotId: nat, maxDocid: nat)
      returns (nextList: nat, next: nat, ghost moved: nat)
      requires LoopState(cursors[..], ordered[..], maxDocid) && pivot < ordered.Length
      requires Key(cursors[..], ordered[..], pivot) == pivotId && pivotId < maxDocid
      modifies cursors, ordered
      ensures LoopState(cursors[..], ordered[..], maxDocid)
      ensures Heaviest(old(cursors[..]), old(ordered[..]), pivot, nextList)
      ensures next == SkipTo(old(cursors[..]), old(ordered[..]), pivot, pivotId, maxDocid)
      ensures moved == old(ordered[nextList]) && moved < cursors.Length
      ensures cursors[..] == old(cursors[..])[moved := old(cursors[moved]).NextGeq(next)]
      ensures Progress(old(cursors[..]), cursors[..])
      ensures old(cursors[moved]).Docid() < maxDocid && cursors[moved].Docid() > old(cursors[moved]).Docid()
    {
      nextList := ChooseSkipList(cursors[..], ordered[..], pivot);
      next := SkipTarget(cursors[..], ordered[..], pivot, pivotId, maxDocid);
      assert Key(cursors[..], ordered[..], nextList) <= Key(cursors[..], ordered[..], pivot);
      moved := AdvanceOne(cursors, ordered, nextList, next, false, maxDocid);
    }

    /** The block bound admits the pivot: evaluate it when the first cursor
        is on it, and otherwise move the lagging cursor up to it. */
    method ResolveAdmitted(cursors: array<Cursor>, ordered: array<nat>, pivot: nat, pivotId: nat,
                           blockUpperBound: real, maxDocid: nat)
      returns (inserted: bool, ghost branch: Branch, ghost added: seq<Entry>, ghost secondAdded: seq<Entry>,
               ghost moved: nat)
      requires Valid() && LoopState(cursors[..], ordered[..], maxDocid) && topk.WouldEnter(blockUpperBound)
      requires pivot < ordered.Length && pivotId < maxDocid && Key(cursors[..], ordered[..], pivot) == pivotId
      modifies cursors, ordered, topk, secondary
      ensures Valid() && LoopState(cursors[..], ordered[..], maxDocid)
      ensures Resolves(old(cursors[..]), old(ordered[..]), old(topk.entries), topk.capacity, maxDocid, pivot, pivotId,
                       blockUpperBound, branch, cursors[..], added, secondAdded)
      ensures inserted <==> branch.FullEvaluation?
      ensures topk.log == old(topk.log) + added && secondary.log == old(secondary.log) + secondAdded
      ensures topk.entries == AfterInserts(old(topk.entries), topk.capacity, added)
      ensures secondary.entries == AfterInserts(old(secondary.entries), secondary.capacity, secondAdded)
      ensures Progress(old(cursors[..]), cursors[..])
      ensures moved < cursors.Length && old(cursors[moved]).Docid() < maxDocid
      ensures cursors[moved].Docid() > old(cursors[moved]).Docid()
      ensures inserted ==> AllPast(cursors[..], pivotId)
    {
      ghost var cs, o, es := cursors[..], ordered[..], topk.entries;
      if pivotId == cursors[ordered[0]].Docid() {
        ghost var scored, cut;
        scored, cut, added, secondAdded, moved := EvaluatePivot(cursors, ordered, pivot, pivotId, blockUpperBound, maxDocid);
        inserted, branch := true, FullEvaluation(scored, cut);
      } else {
        var nextList;
        nextList, moved := AdvanceLagging(cursors, ordered, pivot, pivotId, maxDocid);
        inserted, branch, added, secondAdded := false, MoveLagging(nextList), [], [];
        LaggingResolves(cs, o, es, topk.capacity, maxDocid, pivot, pivotId, blockUpperBound, nextList, cursors[..]);
      }
    }

    /** What the loop does with a pivot whose blocks have been refreshed:
        evaluate it when the block bound admits it and the first cursor is
        on it, move a lagging cursor up to it when only the bound admits it,
        and otherwise skip past it. Some cursor below `maxDocid` moves
        forward either way. */
    method ResolvePivot(cursors: array<Cursor>, ordered: array<nat>, pivot: nat, pivotId: nat,
                        blockUpperBound: real, maxDocid: nat)
      returns (inserted: bool, ghost branch: Branch, ghost added: seq<Entry>, ghost secondAdded: seq<Entry>,
               ghost moved: nat)
      requires Valid() && LoopState(cursors[..], ordered[..], maxDocid)
      requires pivot < ordered.Length && pivotId < maxDocid && Key(cursors[..], ordered[..], pivot) == pivotId
      modifies cursors, ordered, topk, secondary
      ensures Valid() && LoopState(cursors[..], ordered[..], maxDocid)
      ensures Resolves(old(cursors[..]), old(ordered[..]), old(topk.entries), topk.capacity, maxDocid, pivot, pivotId,
                       blockUpperBound, branch, cursors[..], added, secondAdded)
      ensures inserted <==> branch.FullEvaluation?
      ensures inserted <==> Admits(old(topk.entries), topk.capacity, blockUpperBound) &&
                            pivotId == Key(old(cursors[..]), old(ordered[..]), 0)
      ensures topk.log == old(topk.log) + added && secondary.log == old(secondary.log) + secondAdded
      ensures topk.entries == AfterInserts(old(topk.entries), topk.capacity, added)
      ensures secondary.entries == AfterInserts(old(secondary.entries), secondary.capacity, secondAdded)
      ensures Progress(old(cursors[..]), cursors[..])
      ensures moved < cursors.Length && old(cursors[moved]).Docid() < maxDocid
      ensures cursors[moved].Docid() > old(cursors[moved]).Docid()
      ensures inserted ==> AllPast(cursors[..], pivotId)
    {
      if topk.WouldEnter(blockUpperBound) {
        inserted, branch, added, secondAdded, moved := ResolveAdmitted(cursors, ordered, pivot, pivotId, blockUpperBound, maxDocid);
      } else {
        ghost var cs, o, es := cursors[..], ordered[..], topk.entries;
        var nextList, next;
        nextList, next, moved := SkipPruned(cursors, ordered, pivot, pivotId, maxDocid);
        inserted, branch, added, secondAdded := false, SkipPast(nextList), [], [];
        SkipResolves(cs, o, es, topk.capacity, maxDocid, pivot, pivotId, blockUpperBound, nextList, cursors[..]);
      }
    }

    /** The iteration once a pivot was found: refresh its blocks, which
        gives the cursors `refreshed` and their block bound, and resolve it
        from there. Some cursor below `maxDocid` moves forward. */
    method StepAt(cursors: array<Cursor>, ordered: array<nat>, pivot: nat, pivotId: nat, maxDocid: nat)
      returns (inserted: bool, ghost refreshed: seq<Cursor>, ghost branch: Branch,
               ghost added: seq<Entry>, ghost secondAdded: seq<Entry>)
      requires Valid() && LoopState(cursors[..], ordered[..], maxDocid)
      requires pivot < ordered.Length && pivotId < maxDocid && Key(cursors[..], ordered[..], pivot) == pivotId
      modifies cursors, ordered, topk, secondary
      ensures Valid() && LoopState(cursors[..], ordered[..], maxDocid)
      ensures RefreshedUpTo(old(cursors[..]), refreshed, old(ordered[..]), pivot + 1, pivotId)
      ensures Handles(refreshed, old(ordered[..]))
      ensures Resolves(refreshed, old(ordered[..]), old(topk.entries), topk.capacity, maxDocid, pivot, pivotId,
                       BlockUpperBound(refreshed, old(ordered[..]), pivot + 1), branch, cursors[..], added, secondAdded)
      ensures inserted <==> branch.FullEvaluation?
      ensures topk.log == old(topk.log) + added && secondary.log == old(secondary.log) + secondAdded
      ensures topk.entries == AfterInserts(old(topk.entries), topk.capacity, added)
      ensures secondary.entries == AfterInserts(old(secondary.entries), secondary.capacity, secondAdded)
      ensures Progress(old(cursors[..]), cursors[..])
      ensures TotalRemaining(cursors[..], maxDocid) < TotalRemaining(old(cursors[..]), maxDocid)
      ensures inserted ==> pivotId == Key(old(cursors[..]), old(ordered[..]), 0) && AllPast(cursors[..], pivotId)
    {
      ghost var head := cursors[..];
      ghost var o := ordered[..];
      var blockUpperBound := RefreshBlocks(cursors, ordered[..], pivot, pivotId);
      refreshed := cursors[..];
      RefreshKeepsLoopState(head, refreshed, o, pivot + 1, pivotId, blockUpperBound, maxDocid);
      ghost var moved: nat;
      inserted, branch, added, secondAdded, moved := ResolvePivot(cursors, ordered, pivot, pivotId, blockUpperBound, maxDocid);
      StepDecreases(head, refreshed, cursors[..], moved, maxDocid);
    }

    /** One iteration of the loop. Without a pivot nothing changes and no
        prefix of the cursors can enter the collector; otherwise the turn
        `t` is the pivot search, the refresh and the branch taken, and some
        cursor below `maxDocid` moves forward. */
    method Step(cursors: array<Cursor>, ordered: array<nat>, maxDocid: nat)
      returns (found: bool, inserted: bool, pivotId: nat, ghost t: TurnRecord)
      requires Valid() && LoopState(cursors[..], ordered[..], maxDocid) && 0 < cursors.Length
      modifies cursors, ordered, topk, secondary
      ensures Valid() && LoopState(cursors[..], ordered[..], maxDocid)
      ensures Progress(old(cursors[..]), cursors[..])
      ensures !found ==> cursors[..] == old(cursors[..]) && ordered[..] == old(ordered[..]) && !inserted
      ensures !found ==> unchanged(topk) && unchanged(secondary)
      ensures !found ==> NoPivot(cursors[..], ordered[..], topk.entries, topk.capacity, maxDocid)
      ensures found ==> IsTurn(t, topk.capacity, maxDocid) && pivotId == t.pivotId
      ensures found ==> t.cs == old(cursors[..]) && t.o == old(ordered[..]) && t.es == old(topk.entries) &&
                        t.after == cursors[..]
      ensures found ==> topk.log == old(topk.log) + t.added && secondary.log == old(secondary.log) + t.secondAdded
      ensures found ==> topk.entries == AfterInserts(old(topk.entries), topk.capacity, t.added)
      ensures found ==> secondary.entries == AfterInserts(old(secondary.entries), secondary.capacity, t.secondAdded)
      ensures found ==> TotalRemaining(cursors[..], maxDocid) < TotalRemaining(old(cursors[..]), maxDocid)
      ensures inserted <==> found && t.branch.FullEvaluation?
      ensures inserted ==> pivotId == Key(old(cursors[..]), old(ordered[..]), 0) && AllPast(cursors[..], pivotId)
    {
      ghost var cs, o, es := cursors[..], ordered[..], topk.entries;
      var pivot;
      ghost var first;
      found, pivot, pivotId, first := FindPivot(cursors[..], ordered[..], maxDocid);
      if !found {
        assert Progress(cursors[..], cursors[..]);
        t := TurnRecord(cs, o, es, 0, 0, pivotId, cs, SkipPast(0), cs, [], []);
        return false, false, pivotId, t;
      }
      assert Key(cursors[..], ordered[..], first) == Key(cursors[..], ordered[..], pivot);
      ghost var refreshed, branch, added, secondAdded;
      inserted, refreshed, branch, added, secondAdded := StepAt(cursors, ordered, pivot, pivotId, maxDocid);
      t := TurnRecord(cs, o, es, first, pivot, pivotId, refreshed, branch, cursors[..], added, secondAdded);
      TurnOf(t, topk.capacity, maxDocid);
    }

    /** The set-up of `operator()`: the handles of all cursors, sorted by
        docid. */
    static method OrderCursors(cursors: array<Cursor>, maxDocid: nat) returns (ordered: array<nat>)
      requires Bounded(cursors[..], maxDocid)
      ensures fresh(ordered) && LoopState(cursors[..], ordered[..], maxDocid)
    {
      ordered := Identity(cursors.Length);
      PermutationFacts(ordered[..], cursors.Length);
      SortCursors(ordered, cursors[..]);
    }

    /** The loop of `operator()` on a non-empty range: it runs until no
        pivot is found. `turns` are its turns, in order, each a pivot search,
        refresh and branch as `IsTurn` states; the two collectors receive
        exactly the inserts of those turns, the same documents, each at most
        once and in increasing docid order; cursors only move forward. */
    method RunLoop(cursors: array<Cursor>, maxDocid: nat) returns (ghost turns: seq<TurnRecord>)
      requires Valid() && Bounded(cursors[..], maxDocid) && 0 < cursors.Length
      modifies cursors, topk, secondary
      ensures Valid() && Bounded(cursors[..], maxDocid)
      ensures Trace(turns, old(cursors[..]), cursors[..], old(topk.entries), topk.capacity, maxDocid)
      ensures topk.log == old(topk.log) + AllAdded(turns) && secondary.log == old(secondary.log) + AllSecondAdded(turns)
      ensures topk.entries == AfterInserts(old(topk.entries), topk.capacity, AllAdded(turns))
      ensures secondary.entries == AfterInserts(old(secondary.entries), secondary.capacity, AllSecondAdded(turns))
      ensures Progress(old(cursors[..]), cursors[..])
      ensures Fed(topk.log, secondary.log, old(topk.log), old(secondary.log), maxDocid)
      ensures exists o :: LoopState(cursors[..], o, maxDocid) && NoPivot(cursors[..], o, topk.entries, topk.capacity, maxDocid)
    {
      var ordered := OrderCursors(cursors, maxDocid);
      ghost var topStart, secondStart := topk.log, secondary.log;
      turns := [];
      while true
        invariant Valid() && LoopState(cursors[..], ordered[..], maxDocid)
        invariant Trace(turns, old(cursors[..]), cursors[..], old(topk.entries), topk.capacity, maxDocid)
        invariant topk.log == topStart + AllAdded(turns) && secondary.log == secondStart + AllSecondAdded(turns)
        invariant topk.entries == AfterInserts(old(topk.entries), topk.capacity, AllAdded(turns))
        invariant secondary.entries == AfterInserts(old(secondary.entries), secondary.capacity, AllSecondAdded(turns))
        invariant Progress(old(cursors[..]), cursors[..])
        decreases TotalRemaining(cursors[..], maxDocid)
      {
        ghost var before := cursors[..];
        var found, inserted, pivotId;
        ghost var t;
        found, inserted, pivotId, t := Step(cursors, ordered, maxDocid);
        if !found {
          break;
        }
        ProgressTransitive(old(cursors[..]), before, cursors[..]);
        TraceExtend(turns, t, old(cursors[..]), old(topk.entries), topk.capacity, maxDocid);
        AfterInsertsAppend(old(topk.entries), topk.capacity, AllAdded(turns), t.added);
        AfterInsertsAppend(old(secondary.entries), secondary.capacity, AllSecondAdded(turns), t.secondAdded);
        LogAppend(topk.log, topStart, AllAdded(turns), t.added);
        LogAppend(secondary.log, secondStart, AllSecondAdded(turns), t.secondAdded);
        turns := turns + [t];
      }
      assert LoopState(cursors[..], ordered[..], maxDocid) &&
             NoPivot(cursors[..], ordered[..], topk.entries, topk.capacity, maxDocid);
      TraceFed(turns, old(cursors[..]), cursors[..], old(topk.entries), topk.capacity, maxDocid);
      assert topk.log[|topStart|..] == AllAdded(turns);
      assert secondary.log[|secondStart|..] == AllSecondAdded(turns);
    }

    /** `operator()(cursors, max_docid)`: returns at once on an empty range,
        and otherwise runs the loop. */
    method Run(cursors: array<Cursor>, maxDocid: nat) returns (ghost turns: seq<TurnRecord>)
      requires Valid() && Bounded(cursors[..], maxDocid)
      modifies cursors, topk, secondary
      ensures Valid() && Bounded(cursors[..], maxDocid)
      ensures cursors.Length == 0 ==> unchanged(cursors) && unchanged(topk) && unchanged(secondary) && turns == []
      ensures Trace(turns, old(cursors[..]), cursors[..], old(topk.entries), topk.capacity, maxDocid)
      ensures topk.log == old(topk.log) + AllAdded(turns) && secondary.log == old(secondary.log) + AllSecondAdded(turns)
      ensures topk.entries == AfterInserts(old(topk.entries), topk.capacity, AllAdded(turns))
      ensures secondary.entries == AfterInserts(old(secondary.entries), secondary.capacity, AllSecondAdded(turns))
      ensures Progress(old(cursors[..]), cursors[..])
      ensures Fed(topk.log, secondary.log, old(topk.log), old(secondary.log), maxDocid)
      ensures cursors.Length > 0 ==>
                exists o :: LoopState(cursors[..], o, maxDocid) && NoPivot(cursors[..], o, topk.entries, topk.capacity, maxDocid)
    {
      if cursors.Length == 0 {
        assert Fed(topk.log, secondary.log, topk.log, secondary.log, maxDocid);
        return [];
      }
      turns := RunLoop(cursors, maxDocid);
    }

    /** `topk()`: the primary collector's entries, best first. */
    function Topk(): (r: seq<Entry>)
      reads this, topk, secondary
      requires Valid()
      ensures |r| <= topk.capacity && SortedDescending(r)
    {
      topk.Topk()
    }

    /** `secondary_topk()`: the secondary collector's entries, best first. */
    function SecondaryTopk(): (r: seq<Entry>)
      reads this, topk, secondary
      requires Valid()
      ensures |r| <= secondary.capacity && SortedDescending(r)
    {
      secondary.Topk()
    }

    /** `clear_topk()`: empties the primary collector only. */
    method ClearTopk()
      requires Valid()
      modifies topk
      ensures Valid() && topk.entries == [] && unchanged(secondary)
    {
      topk.Clear();
    }
  }
}
