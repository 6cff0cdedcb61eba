/** The bounded top-k collector that Block-Max WAND feeds. Its own header is
    not part of this model, so this is the collector of the design, not a
    heap: the held entries are kept in descending score order, the k-th one
    is the admission threshold, and inserting past capacity evicts the
    lowest entry. */
module TopkQueues {

  datatype Entry = Entry(score: real, docid: nat)

  ghost predicate SortedDescending(es: seq<Entry>) {
    forall i, j :: 0 <= i < j < |es| ==> es[i].score >= es[j].score
  }

  /** `would_enter(score)` on a collector of capacity `k` holding `es`. */
  function Admits(es: seq<Entry>, k: nat, score: real): bool
  {
    |es| < k || (0 < |es| && score > es[|es| - 1].score)
  }

  /** Places `e` after every entry that scores at least as much: ties keep
      insertion order. */
  function InsertSorted(es: seq<Entry>, e: Entry): (r: seq<Entry>)
    ensures |r| == |es| + 1
    ensures multiset(r) == multiset(es) + multiset{e}
    ensures r[0] == e || (es != [] && r[0] == es[0])
    decreases |es|
  {
    if es == [] then [e]
    else if es[0].score >= e.score then
      assert es == [es[0]] + es[1..];
      [es[0]] + InsertSorted(es[1..], e)
    else [e] + es
  }

  lemma {:induction false} InsertSortedKeepsOrder(es: seq<Entry>, e: Entry)
    requires SortedDescending(es)
    ensures SortedDescending(InsertSorted(es, e))
    decreases |es|
  {
    if es != [] && es[0].score >= e.score {
      InsertSortedKeepsOrder(es[1..], e);
      var r := InsertSorted(es[1..], e);
      assert es[0].score >= r[0].score;
      assert forall j :: 0 <= j < |r| ==> r[0].score >= r[j].score;
    }
  }

  /** Inserting never lowers the entry at any rank. */
  lemma {:induction false} InsertSortedDominates(es: seq<Entry>, e: Entry, i: nat)
    requires SortedDescending(es) && i < |es|
    ensures InsertSorted(es, e)[i].score >= es[i].score
    decreases |es|
  {
    if es[0].score >= e.score {
      if i > 0 {
        InsertSortedDominates(es[1..], e, i - 1);
      }
    }
  }

  /** The contents after `insert(score, docid)`. */
  function AfterInsert(es: seq<Entry>, k: nat, e: Entry): (r: seq<Entry>)
    requires |es| <= k
    ensures |r| == if |es| < k then |es| + 1 else k
  {
    var ins := InsertSorted(es, e);
    if |ins| > k then ins[..k] else ins
  }

  /** The contents after the entries of `added` are inserted in order. */
  function AfterInserts(es: seq<Entry>, k: nat, added: seq<Entry>): (r: seq<Entry>)
    requires |es| <= k
    ensures |r| <= k
    decreases |added|
  {
    if added == [] then es else AfterInserts(AfterInsert(es, k, added[0]), k, added[1..])
  }

  /** The admission threshold never drops: a score the collector refused is
      refused after any insert too. */
  lemma ThresholdMonotone(es: seq<Entry>, k: nat, e: Entry, score: real)
    requires SortedDescending(es) && |es| <= k
    requires !Admits(es, k, score)
    ensures !Admits(AfterInsert(es, k, e), k, score)
  {
    var r := AfterInsert(es, k, e);
    if k > 0 {
      InsertSortedDominates(es, e, k - 1);
      assert r[k - 1] == InsertSorted(es, e)[k - 1];
    }
  }

  class TopkQueue {
    const capacity: nat
    var entries: seq<Entry>
    /** Every insert ever made, in order. */
    ghost var log: seq<Entry>

    ghost predicate Valid()
      reads this
    {
      |entries| <= capacity && SortedDescending(entries)
    }

    constructor (k: nat)
      ensures Valid() && capacity == k && entries == [] && log == []
    {
      capacity := k;
      entries := [];
      log := [];
    }

    /** `would_enter(score)`: true while fewer than k entries are held, and
        then only for a score strictly above the k-th best. */
    function WouldEnter(score: real): (b: bool)
      reads this
      requires Valid()
      ensures capacity == 0 ==> !b
      ensures |entries| < capacity ==> b
    {
      Admits(entries, capacity, score)
    }

    /** `insert(score, docid)`: adds the pair, evicting the lowest entry when
        the collector would hold more than k. */
    method Insert(score: real, docid: nat)
      requires Valid()
      modifies this
      ensures Valid()
      ensures entries == AfterInsert(old(entries), capacity, Entry(score, docid))
      ensures log == old(log) + [Entry(score, docid)]
    {
      InsertSortedKeepsOrder(entries, Entry(score, docid));
      entries := AfterInsert(entries, capacity, Entry(score, docid));
      log := log + [Entry(score, docid)];
    }

    /** `clear()`: empty, same capacity. */
    method Clear()
      modifies this
      ensures Valid() && entries == [] && log == old(log)
    {
      entries := [];
    }

    /** `topk()`: the held entries, best first, at most k of them. */
    function Topk(): (r: seq<Entry>)
      reads this
      requires Valid()
      ensures |r| <= capacity && SortedDescending(r)
    {
      entries
    }
  }
}
