/**
 The vectors of an Earley parser's state table (demo/v8_benchmark.js, 8349-8425). The set of
 positions where a configuration started is a vector in which two linked lists share the cells:
 the positions dealt with start at cell 2, those still to deal with at cell 4, and cell i + 5 holds
 the position behind i, -1 at the end, or false when i is not in the set. Cells 1 and 3 hold the last
 position of either list, so that the cell behind it is cell 2 or 4 itself for an empty list.
 */
module EarleyCells {
  import opened Options

  /** None for false. */
  type Cells = seq<Option<int>>

  /** Positions dealt with and to deal with, in the order of their links. */
  datatype Lists = Lists(done: seq<nat>, waiting: seq<nat>) {
    ghost function All(): seq<nat> { done + waiting }
  }

  const NO_LISTS := Lists([], [])

  /** The cell that links to element p of a list that starts at cell from; with p = |l| the cell of its end. */
  ghost function LinkTo(from: int, l: seq<nat>, p: nat): int
    requires p <= |l|
  {
    if p == 0 then from else l[p - 1] + 5
  }

  ghost predicate Chained(v: Cells, from: int, l: seq<nat>) {
    forall p {:trigger LinkTo(from, l, p)} :: 0 <= p <= |l| ==>
      0 <= LinkTo(from, l, p) < |v| && v[LinkTo(from, l, p)] == Some(if p < |l| then l[p] else -1)
  }

  ghost predicate Distinct(l: seq<nat>) { forall p, q :: 0 <= p < q < |l| ==> l[p] != l[q] }

  /** The vector of a set in state n has these lists. */
  ghost predicate Holds(v: Cells, n: nat, s: Lists) {
    && |v| == n + 6 && Distinct(s.All()) && (forall i :: i in s.All() ==> i <= n)
    && Chained(v, 2, s.done) && Chained(v, 4, s.waiting)
    && v[1] == Some(LinkTo(2, s.done, |s.done|) - 5) && v[3] == Some(LinkTo(4, s.waiting, |s.waiting|) - 5)
    && (forall i :: 0 <= i <= n ==> (v[i + 5].Some? <==> i in s.All()))
  }

  /** The vector that conf-set-get* makes. */
  function NewCells(n: nat): Cells {
    seq(n + 6, _ => None)[1 := Some(-3)][2 := Some(-1)][3 := Some(-1)][4 := Some(-1)]
  }

  lemma NewHolds(n: nat)
    ensures Holds(NewCells(n), n, NO_LISTS)
  {
  }

  /** conf-set-adjoin's writes to the set. */
  function Appended(v: Cells, i: nat): (r: Cells)
    requires i + 5 < |v| && v[3].Some? && 0 <= v[3].value + 5 < |v|
    ensures |r| == |v|
  {
    v[i + 5 := Some(-1)][v[3].value + 5 := Some(i)][3 := Some(i)]
  }

  /** The cells of the two lists do not meet. */
  lemma LinksApart(s: Lists, p: nat, q: nat)
    requires Distinct(s.All()) && p <= |s.done| && q <= |s.waiting|
    ensures LinkTo(2, s.done, p) != LinkTo(4, s.waiting, q)
  {
    if p > 0 && q > 0 {
      assert s.All()[p - 1] == s.done[p - 1] && s.All()[|s.done| + q - 1] == s.waiting[q - 1];
    }
  }

  /** Nor do those of one list. */
  lemma LinksDiffer(from: int, l: seq<nat>, p: nat, q: nat)
    requires Distinct(l) && p < q <= |l| && from < 5
    ensures LinkTo(from, l, p) != LinkTo(from, l, q)
  {
  }

  lemma DistinctParts(s: Lists)
    requires Distinct(s.All())
    ensures Distinct(s.done) && Distinct(s.waiting)
    ensures forall i :: i in s.All() <==> i in s.done || i in s.waiting
  {
    assert forall q :: 0 <= q < |s.done| ==> s.done[q] == s.All()[q];
    assert forall q :: 0 <= q < |s.waiting| ==> s.waiting[q] == s.All()[|s.done| + q];
  }

  /** A list whose cells are unchanged stays. */
  lemma ChainedSame(v: Cells, w: Cells, from: int, l: seq<nat>)
    requires Chained(v, from, l) && |w| == |v|
    requires forall p {:trigger LinkTo(from, l, p)} :: 0 <= p <= |l| ==> w[LinkTo(from, l, p)] == v[LinkTo(from, l, p)]
    ensures Chained(w, from, l)
  {
  }

  lemma AppendHolds(v: Cells, n: nat, s: Lists, i: nat)
    requires Holds(v, n, s) && i <= n && i !in s.All()
    ensures v[3].Some? && 0 <= v[3].value + 5 < |v|
    ensures v[3].value < 0 <==> s.waiting == []
    ensures Holds(Appended(v, i), n, Lists(s.done, s.waiting + [i]))
  {
    DistinctParts(s);
    var r, s' := Appended(v, i), Lists(s.done, s.waiting + [i]);
    assert s'.All() == s.All() + [i];
    AppendKeepsDone(v, n, s, i);
    AppendExtends(v, n, s, i);
  }

  lemma AppendKeepsDone(v: Cells, n: nat, s: Lists, i: nat)
    requires Holds(v, n, s) && i <= n && i !in s.All()
    ensures Chained(Appended(v, i), 2, s.done) && Appended(v, i)[1] == v[1]
  {
    DistinctParts(s);
    var r := Appended(v, i);
    forall p {:trigger LinkTo(2, s.done, p)} | 0 <= p <= |s.done|
      ensures r[LinkTo(2, s.done, p)] == v[LinkTo(2, s.done, p)]
    {
      LinksApart(s, p, |s.waiting|);
    }
    ChainedSame(v, r, 2, s.done);
  }

  lemma AppendExtends(v: Cells, n: nat, s: Lists, i: nat)
    requires Holds(v, n, s) && i <= n && i !in s.All()
    ensures Chained(Appended(v, i), 4, s.waiting + [i])
  {
    DistinctParts(s);
    var r, l, m := Appended(v, i), s.waiting, s.waiting + [i];
    forall p {:trigger LinkTo(4, m, p)} | 0 <= p <= |m|
      ensures 0 <= LinkTo(4, m, p) < |r| && r[LinkTo(4, m, p)] == Some(if p < |m| then m[p] else -1)
    {
      if p < |l| {
        assert LinkTo(4, m, p) == LinkTo(4, l, p);
        LinksDiffer(4, l, p, |l|);
      } else if p == |l| {
        assert LinkTo(4, m, p) == LinkTo(4, l, p);
      }
    }
  }

  /** conf-set-merge-new!. */
  function Merged(v: Cells): (r: Cells)
    requires |v| > 5 && v[1].Some? && 0 <= v[1].value + 5 < |v|
    ensures |r| == |v|
  {
    v[v[1].value + 5 := v[4]][1 := v[3]][3 := Some(-1)][4 := Some(-1)]
  }

  lemma MergeHolds(v: Cells, n: nat, s: Lists)
    requires Holds(v, n, s) && s.waiting != []
    ensures v[1].Some? && 0 <= v[1].value + 5 < |v| && v[4] == Some(s.waiting[0])
    ensures Holds(Merged(v), n, Lists(s.All(), []))
  {
    DistinctParts(s);
    assert LinkTo(4, s.waiting, 0) == 4;
    MergeJoins(v, n, s);
    assert Lists(s.All(), []).All() == s.All();
    assert LinkTo(2, s.All(), |s.All()|) == LinkTo(4, s.waiting, |s.waiting|);
  }

  lemma MergeJoins(v: Cells, n: nat, s: Lists)
    requires Holds(v, n, s) && s.waiting != []
    ensures Chained(Merged(v), 2, s.All())
  {
    DistinctParts(s);
    var r, d, l, m := Merged(v), s.done, s.waiting, s.All();
    assert LinkTo(4, l, 0) == 4;
    forall p {:trigger LinkTo(2, m, p)} | 0 <= p <= |m|
      ensures 0 <= LinkTo(2, m, p) < |r| && r[LinkTo(2, m, p)] == Some(if p < |m| then m[p] else -1)
    {
      if p < |d| {
        assert LinkTo(2, m, p) == LinkTo(2, d, p);
        LinksDiffer(2, d, p, |d|);
      } else if p == |d| {
        assert LinkTo(2, m, p) == LinkTo(2, d, p);
      } else {
        assert LinkTo(2, m, p) == LinkTo(4, l, p - |d|);
        LinksApart(s, |d|, p - |d|);
      }
    }
  }
}
