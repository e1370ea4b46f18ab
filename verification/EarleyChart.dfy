/**
 The state table of an Earley parser and how a parse fills it (demo/v8_benchmark.js, 8349-8534):
 states hold a set of positions per configuration, and configurations with positions to deal with
 are linked from the state.
 */
module EarleyCharts {
  import opened EarleyCells
  import opened EarleyTables
  import opened Options

  /** The first configuration to deal with, -1 for none, and the sets, None for false. */
  datatype State = State(first: int, sets: seq<Option<Cells>>)

  /** What a state stands for: the lists of every configuration, and the configurations to deal with. */
  datatype View = View(lists: seq<Lists>, agenda: seq<nat>)

  ghost function At(a: seq<nat>, p: nat): int { if p < |a| then a[p] else -1 }

  ghost predicate Queued(st: State, a: seq<nat>) {
    && st.first == At(a, 0)
    && forall p :: 0 <= p < |a| ==>
         a[p] < |st.sets| && st.sets[a[p]].Some? && st.sets[a[p]].value != []
         && st.sets[a[p]].value[0] == Some(At(a, p + 1))
  }

  ghost predicate SetShows(st: State, n: nat, lists: seq<Lists>, c: nat)
    requires c < |st.sets| == |lists|
  {
    if st.sets[c].None? then lists[c] == NO_LISTS else Holds(st.sets[c].value, n, lists[c])
  }

  ghost predicate SetsShow(st: State, n: nat, lists: seq<Lists>) {
    |lists| == |st.sets| && forall c :: 0 <= c < |st.sets| ==> SetShows(st, n, lists, c)
  }

  /** The configurations to deal with are those with positions to deal with. */
  ghost predicate Fair(v: View) {
    Distinct(v.agenda) && forall c: nat :: c in v.agenda <==> c < |v.lists| && v.lists[c].waiting != []
  }

  /** State number n stands for v. */
  ghost predicate Shows(st: State, n: nat, v: View) {
    SetsShow(st, n, v.lists) && Fair(v) && Queued(st, v.agenda)
  }

  // ----- one state -----

  /** Replacing one set. */
  lemma PutShows(st: State, n: nat, lists: seq<Lists>, c: nat, first: int, cells: Cells, s: Lists)
    requires SetsShow(st, n, lists) && c < |lists| && Holds(cells, n, s)
    ensures SetsShow(State(first, st.sets[c := Some(cells)]), n, lists[c := s])
  {
    hide Holds;
    var st', lists' := State(first, st.sets[c := Some(cells)]), lists[c := s];
    forall d | 0 <= d < |lists| ensures SetShows(st', n, lists', d) {
      assert SetShows(st, n, lists, d);
    }
  }

  lemma GetShows(st: State, n: nat, v: View, c: nat)
    requires Shows(st, n, v) && c < |st.sets| && st.sets[c].None?
    ensures Shows(st.(sets := st.sets[c := Some(NewCells(n))]), n, v)
  {
    hide Holds, NewCells;
    NewHolds(n);
    assert SetShows(st, n, v.lists, c);
    assert v.lists[c := NO_LISTS] == v.lists;
    PutShows(st, n, v.lists, c, st.first, NewCells(n), NO_LISTS);
    assert c !in v.agenda;
  }

  /** One more position to deal with. */
  ghost function Joined(v: View, c: nat, i: nat): View
    requires c < |v.lists|
  {
    var s := v.lists[c];
    View(v.lists[c := Lists(s.done, s.waiting + [i])], if s.waiting == [] then [c] + v.agenda else v.agenda)
  }

  /** conf-set-adjoin. */
  function Adjoined(st: State, c: nat, i: nat): State
    requires c < |st.sets| && st.sets[c].Some?
    requires var v := st.sets[c].value; i + 5 < |v| && v[3].Some? && 0 <= v[3].value + 5 < |v|
  {
    var v := st.sets[c].value;
    if v[3].value < 0 then State(c, st.sets[c := Some(Appended(v, i)[0 := Some(st.first)])])
    else State(st.first, st.sets[c := Some(Appended(v, i))])
  }

  lemma AdjoinShows(st: State, n: nat, v: View, c: nat, i: nat)
    requires Shows(st, n, v) && c < |st.sets| && st.sets[c].Some? && i <= n && i !in v.lists[c].All()
    ensures
      var cells := st.sets[c].value;
      && i + 5 < |cells| && cells[3].Some? && 0 <= cells[3].value + 5 < |cells|
      && Shows(Adjoined(st, c, i), n, Joined(v, c, i))
  {
    hide Holds, Appended;
    var cells, s := st.sets[c].value, v.lists[c];
    var s' := Lists(s.done, s.waiting + [i]);
    assert SetShows(st, n, v.lists, c);
    CellsOf(cells, n, s);
    AppendHolds(cells, n, s, i);
    FirstKept(cells, i);
    JoinFair(v, c, i);
    if s.waiting == [] {
      AnyFirst(Appended(cells, i), n, s', st.first);
      PutShows(st, n, v.lists, c, c, Appended(cells, i)[0 := Some(st.first)], s');
      PushQueued(st, v.agenda, c, Appended(cells, i));
    } else {
      PutShows(st, n, v.lists, c, st.first, Appended(cells, i), s');
      SetQueued(st, v.agenda, c, Appended(cells, i));
    }
  }

  lemma CellsOf(v: Cells, n: nat, s: Lists)
    requires Holds(v, n, s)
    ensures |v| == n + 6 && v[1].Some? && v[3].Some? && 2 <= v[1].value + 5 < |v| && 0 < v[3].value + 5 < |v|
    ensures v[1].value + 5 !in {3, 4}
  {
  }

  lemma FirstKept(v: Cells, i: nat)
    requires i + 5 < |v| && v[3].Some? && 0 < v[3].value + 5 < |v|
    ensures Appended(v, i)[0] == v[0]
  {
  }

  lemma JoinFair(v: View, c: nat, i: nat)
    requires Fair(v) && c < |v.lists|
    ensures Fair(Joined(v, c, i))
  {
    var v' := Joined(v, c, i);
    if v.lists[c].waiting == [] {
      assert c !in v.agenda && v'.agenda == [c] + v.agenda;
    } else {
      assert c in v.agenda;
    }
  }

  /** A set whose link to the next configuration is kept. */
  lemma SetQueued(st: State, a: seq<nat>, c: nat, cells: Cells)
    requires Queued(st, a) && c < |st.sets| && cells != []
    requires st.sets[c].Some? && st.sets[c].value != [] ==> cells[0] == st.sets[c].value[0]
    ensures Queued(State(st.first, st.sets[c := Some(cells)]), a)
  {
  }

  /** A configuration put before the others. */
  lemma PushQueued(st: State, a: seq<nat>, c: nat, cells: Cells)
    requires Queued(st, a) && c < |st.sets| && c !in a && cells != []
    ensures Queued(State(c, st.sets[c := Some(cells[0 := Some(st.first)])]), [c] + a)
  {
    var st', b := State(c, st.sets[c := Some(cells[0 := Some(st.first)])]), [c] + a;
    forall p | 0 <= p < |b|
      ensures b[p] < |st'.sets| && st'.sets[b[p]].Some? && st'.sets[b[p]].value != []
      ensures st'.sets[b[p]].value[0] == Some(At(b, p + 1))
    {
      if p > 0 { assert b[p] == a[p - 1] && At(b, p + 1) == At(a, p); }
    }
  }

  /** Cell 0 is no part of the lists. */
  lemma AnyFirst(v: Cells, n: nat, s: Lists, first: int)
    requires Holds(v, n, s)
    ensures Holds(v[0 := Some(first)], n, s)
  {
  }

  /** The first configuration to deal with, its positions dealt with. */
  ghost function Popped(v: View): View
    requires v.agenda != [] && v.agenda[0] < |v.lists|
  {
    var c := v.agenda[0];
    View(v.lists[c := Lists(v.lists[c].All(), [])], v.agenda[1..])
  }

  lemma PopShows(st: State, n: nat, v: View)
    requires Shows(st, n, v) && v.agenda != []
    ensures
      var c := v.agenda[0];
      && st.first == c < |st.sets| && st.sets[c].Some? && v.lists[c].waiting != []
      && var cells := st.sets[c].value;
      && |cells| == n + 6 && cells[0].Some? && cells[1].Some? && 2 <= cells[1].value + 5 < |cells|
      && cells[1].value + 5 !in {3, 4}
      && cells[4] == Some(v.lists[c].waiting[0])
      && Shows(State(cells[0].value, st.sets[c := Some(Merged(cells))]), n, Popped(v))
  {
    hide Holds, Merged;
    var c := v.agenda[0];
    assert c in v.agenda;
    var cells, s := st.sets[c].value, v.lists[c];
    assert SetShows(st, n, v.lists, c);
    CellsOf(cells, n, s);
    MergeHolds(cells, n, s);
    PutShows(st, n, v.lists, c, cells[0].value, Merged(cells), Lists(s.All(), []));
    PopQueued(st, v.agenda, Merged(cells));
    PopFair(v);
  }

  lemma PopFair(v: View)
    requires Fair(v) && v.agenda != [] && v.agenda[0] < |v.lists|
    ensures Fair(Popped(v))
  {
    var c, b := v.agenda[0], v.agenda[1..];
    assert v.agenda == [c] + b;
    assert forall d :: d in v.agenda <==> d == c || d in b;
    assert c !in b;
  }

  lemma PopQueued(st: State, a: seq<nat>, cells: Cells)
    requires Queued(st, a) && a != [] && Distinct(a)
    ensures Queued(State(At(a, 1), st.sets[a[0] := Some(cells)]), a[1..])
  {
    var st', b := State(At(a, 1), st.sets[a[0] := Some(cells)]), a[1..];
    forall p | 0 <= p < |b|
      ensures b[p] < |st'.sets| && st'.sets[b[p]].Some? && st'.sets[b[p]].value != []
      ensures st'.sets[b[p]].value[0] == Some(At(b, p + 1))
    {
      assert b[p] == a[p + 1] && a[p + 1] != a[0] && At(b, p + 1) == At(a, p + 2);
    }
  }

  // ----- what the operations make of a view -----

  ghost function Has(v: View, c: nat): seq<nat> { if c < |v.lists| then v.lists[c].All() else [] }

  /** Position i in the set of c, unless it is there already. */
  ghost function With(v: View, c: nat, i: nat): (r: View)
    requires c < |v.lists|
    ensures |r.lists| == |v.lists|
  {
    if i in v.lists[c].All() then v else Joined(v, c, i)
  }

  /** conf-set-union: every position of xs in the set of c. */
  ghost function WithEach(v: View, c: nat, xs: seq<nat>): (r: View)
    requires c < |v.lists|
    ensures |r.lists| == |v.lists|
    decreases xs
  {
    if xs == [] then v else WithEach(With(v, c, xs[0]), c, xs[1..])
  }

  ghost predicate Below(l: seq<nat>, n: nat) { forall k :: 0 <= k < |l| ==> l[k] < n }

  /** conf-set-adjoin*: position i in the sets of all of l. */
  ghost function WithAll(v: View, l: seq<nat>, i: nat): (r: View)
    requires Below(l, |v.lists|)
    ensures |r.lists| == |v.lists|
    decreases l
  {
    if l == [] then v else WithAll(With(v, l[0], i), l[1..], i)
  }

  /** Nothing dealt with anew, and more to deal with. */
  ghost predicate Grew(v: View, r: View) {
    && |r.lists| == |v.lists|
    && forall d :: 0 <= d < |v.lists| ==>
         r.lists[d].done == v.lists[d].done && v.lists[d].waiting <= r.lists[d].waiting
  }

  lemma GrewTrans(v: View, w: View, r: View)
    requires Grew(v, w) && Grew(w, r)
    ensures Grew(v, r)
  {
  }

  lemma WithHas(v: View, c: nat, i: nat)
    requires c < |v.lists|
    ensures Grew(v, With(v, c, i))
    ensures forall d: nat :: d != c ==> Has(With(v, c, i), d) == Has(v, d)
    ensures forall x: nat :: x in Has(With(v, c, i), c) <==> x in Has(v, c) || x == i
  {
  }

  lemma {:induction false} WithEachHas(v: View, c: nat, xs: seq<nat>)
    requires c < |v.lists|
    ensures Grew(v, WithEach(v, c, xs))
    ensures forall d: nat :: d != c ==> Has(WithEach(v, c, xs), d) == Has(v, d)
    ensures forall x: nat :: x in Has(WithEach(v, c, xs), c) <==> x in Has(v, c) || x in xs
    decreases xs
  {
    hide With, Has;
    if xs != [] {
      assert xs == [xs[0]] + xs[1..];
      var w := With(v, c, xs[0]);
      WithHas(v, c, xs[0]);
      WithEachHas(w, c, xs[1..]);
      GrewTrans(v, w, WithEach(v, c, xs));
    }
  }

  lemma {:induction false} WithAllHas(v: View, l: seq<nat>, i: nat)
    requires Below(l, |v.lists|)
    ensures Grew(v, WithAll(v, l, i))
    ensures forall d: nat, x: nat :: x in Has(WithAll(v, l, i), d) <==> x in Has(v, d) || (d in l && x == i)
    decreases l
  {
    hide With, Has;
    if l != [] {
      var w := With(v, l[0], i);
      WithHas(v, l[0], i);
      WithAllHas(w, l[1..], i);
      GrewTrans(v, w, WithAll(v, l, i));
    }
  }

  /** Configuration c passes the nonterminal before it if a rule for that, one of l, has ended where it started. */
  ghost function WithEnders(v: View, c: nat, l: seq<nat>, n: nat): (r: View)
    requires c + 1 < |v.lists|
    ensures |r.lists| == |v.lists|
    decreases l
  {
    if l == [] then v
    else if n in Has(v, l[0]) then WithEnders(WithEach(v, c + 1, v.lists[c].done), c, l[1..], n)
    else WithEnders(v, c, l[1..], n)
  }

  /** The positions dealt with for p in state k, where v is state n. */
  ghost function DoneAt(views: seq<View>, v: View, n: nat, k: nat, p: nat): seq<nat>
  {
    if k == n then (if p < |v.lists| then v.lists[p].done else [])
    else if k < |views| && p < |views[k].lists| then views[k].lists[p].done else []
  }

  /** Configuration p passes the nonterminal before it, in all the states ks. */
  ghost function WithPred(views: seq<View>, v: View, n: nat, p: nat, ks: seq<nat>): (r: View)
    requires p + 1 < |v.lists|
    ensures |r.lists| == |v.lists|
    decreases ks
  {
    if ks == [] then v
    else WithPred(views, WithEach(v, p + 1, DoneAt(views, v, n, ks[0], p)), n, p, ks[1..])
  }

  /** All of l do. */
  ghost function WithPreds(views: seq<View>, v: View, n: nat, l: seq<nat>, ks: seq<nat>): (r: View)
    requires forall k :: 0 <= k < |l| ==> l[k] + 1 < |v.lists|
    ensures |r.lists| == |v.lists|
    decreases l
  {
    if l == [] then v else WithPreds(views, WithPred(views, v, n, l[0], ks), n, l[1..], ks)
  }

  /** The links of a set, as a caller follows them. */
  lemma SetFacts(st: State, n: nat, v: View, c: nat)
    requires Shows(st, n, v) && c < |st.sets| && st.sets[c].Some?
    ensures c < |v.lists|
    ensures
      var cells, s := st.sets[c].value, v.lists[c];
      && |cells| == n + 6 && cells[2] == Some(At(s.done, 0))
      && (forall i :: 0 <= i <= n ==> (cells[i + 5].Some? <==> i in s.All()))
      && (forall i :: i in s.All() ==> i <= n)
      && (forall p :: 0 <= p < |s.done| ==> s.done[p] <= n && cells[s.done[p] + 5] == Some(At(s.done, p + 1)))
  {
    var cells, s := st.sets[c].value, v.lists[c];
    assert SetShows(st, n, v.lists, c);
    assert LinkTo(2, s.done, 0) == 2;
    forall p | 0 <= p < |s.done| ensures s.done[p] <= n && cells[s.done[p] + 5] == Some(At(s.done, p + 1)) {
      assert s.done[p] in s.All();
      assert LinkTo(2, s.done, p + 1) == s.done[p] + 5;
    }
  }

  lemma FirstDone(st: State, n: nat, v: View, c: nat)
    requires Shows(st, n, v) && c < |st.sets| == |v.lists| && st.sets[c].Some?
    ensures |st.sets[c].value| == n + 6 && st.sets[c].value[2] == Some(At(v.lists[c].done, 0))
  {
    hide Shows;
    SetFacts(st, n, v, c);
  }

  /** The link behind element q of xs, where the positions dealt with end in xs. */
  lemma NextNew(st: State, n: nat, v: View, c: nat, d: seq<nat>, xs: seq<nat>, q: nat)
    requires Shows(st, n, v) && c < |st.sets| == |v.lists| && st.sets[c].Some?
    requires v.lists[c].done == d + xs && q < |xs|
    ensures xs[q] <= n && |st.sets[c].value| == n + 6 && st.sets[c].value[xs[q] + 5] == Some(At(xs, q + 1))
  {
    hide Shows;
    SetFacts(st, n, v, c);
    assert v.lists[c].done[|d| + q] == xs[q] && At(d + xs, |d| + q + 1) == At(xs, q + 1);
  }

  lemma AgendaFacts(st: State, n: nat, v: View)
    requires Shows(st, n, v)
    ensures st.first >= 0 <==> v.agenda != []
    ensures v.agenda != [] ==> v.agenda[0] == st.first && st.first < |v.lists| == |st.sets|
  {
    if v.agenda != [] { assert v.agenda[0] in v.agenda; }
  }

  lemma SetHas(st: State, n: nat, v: View, c: nat)
    requires Shows(st, n, v) && c < |st.sets|
    ensures st.sets[c].Some? ==> |st.sets[c].value| == n + 6
    ensures n in Has(v, c) <==> st.sets[c].Some? && st.sets[c].value[n + 5].Some?
  {
    assert SetShows(st, n, v.lists, c);
  }

  // ----- the table -----

  ghost predicate SameSize(a: seq<State>, b: seq<State>) {
    |a| == |b| && forall n :: 0 <= n < |a| ==> |b[n].sets| == |a[n].sets|
  }

  /** No set is lost. */
  ghost predicate MoreSets(a: seq<State>, b: seq<State>) {
    SameSize(a, b) && forall n, c :: 0 <= n < |a| && 0 <= c < |a[n].sets| && a[n].sets[c].Some? ==> b[n].sets[c].Some?
  }

  lemma SetsKept(a: seq<State>, b: seq<State>, n: nat, c: nat)
    ensures MoreSets(a, a)
    ensures MoreSets(a, b) && n < |a| && c < |a[n].sets| && a[n].sets[c].Some? ==>
              |b| == |a| && c < |b[n].sets| && b[n].sets[c].Some?
  {
  }

  lemma SetsKeptOn(a: seq<State>, b: seq<State>, c: seq<State>)
    requires MoreSets(a, b) && MoreSets(b, c)
    ensures MoreSets(a, c) && |a| == |c|
  {
  }

  /** No set is made but that of c in state n. */
  ghost predicate OneMoreSet(a: seq<State>, b: seq<State>, n: nat, c: nat) {
    && SameSize(a, b)
    && forall m, d :: 0 <= m < |a| && 0 <= d < |b[m].sets| && (m, d) != (n, c) && b[m].sets[d].Some? ==>
         a[m].sets[d].Some?
  }

  class Chart {
    const nbConfs: nat
    var states: seq<State>
    ghost var views: seq<View>

    ghost predicate Valid()
      reads this
    {
      && |views| == |states|
      && forall n :: 0 <= n < |states| ==>
           Shows(states[n], n, views[n]) && |states[n].sets| == |views[n].lists| == nbConfs
    }

    ghost predicate InRange(n: nat, c: nat)
      reads this
    {
      n < |states| && c < nbConfs
    }

    /** make-states. */
    constructor (nbToks: nat, nbConfs: nat)
      ensures Valid() && |states| == nbToks + 1 && this.nbConfs == nbConfs
      ensures forall n :: 0 <= n <= nbToks ==> views[n] == View(seq(nbConfs, _ => NO_LISTS), [])
      ensures forall n, c :: 0 <= n <= nbToks && 0 <= c < nbConfs ==> states[n].sets[c].None?
    {
      this.nbConfs := nbConfs;
      states := seq(nbToks + 1, _ => State(-1, seq(nbConfs, _ => None)));
      views := seq(nbToks + 1, _ => View(seq(nbConfs, _ => NO_LISTS), []));
    }

    /** conf-set-get*: makes the set of c if there is none. */
    method Get(n: nat, c: nat)
      requires Valid() && InRange(n, c)
      modifies this`states
      ensures Valid() && MoreSets(old(states), states) && OneMoreSet(old(states), states, n, c)
      ensures states[n].sets[c].Some?
    {
      hide Shows, Holds, NewCells;
      if states[n].sets[c].None? {
        GetShows(states[n], n, views[n], c);
        states := states[n := states[n].(sets := states[n].sets[c := Some(NewCells(n))])];
      }
    }

    /** conf-set-adjoin. */
    method Adjoin(n: nat, c: nat, i: nat)
      requires Valid() && InRange(n, c) && states[n].sets[c].Some?
      requires i <= n && i !in Has(views[n], c)
      modifies this`states, this`views
      ensures Valid() && MoreSets(old(states), states) && OneMoreSet(old(states), states, n, c)
      ensures views == old(views)[n := Joined(old(views[n]), c, i)]
    {
      hide Shows, Holds;
      var st := states[n];
      AdjoinShows(st, n, views[n], c, i);
      var cells := st.sets[c].value;
      var tail := cells[3].value;
      cells := cells[i + 5 := Some(-1)];
      cells := cells[tail + 5 := Some(i)];
      cells := cells[3 := Some(i)];
      var first := st.first;
      if tail < 0 {
        cells := cells[0 := Some(first)];
        first := c;
      }
      views := views[n := Joined(views[n], c, i)];
      states := states[n := State(first, st.sets[c := Some(cells)])];
    }

    /** Position i into the set of c, unless it is there. */
    method Add(n: nat, c: nat, i: nat)
      requires Valid() && InRange(n, c) && states[n].sets[c].Some? && i <= n
      modifies this`states, this`views
      ensures Valid() && MoreSets(old(states), states) && OneMoreSet(old(states), states, n, c)
      ensures views == old(views)[n := With(old(views[n]), c, i)]
    {
      hide Shows, Joined;
      SetFacts(states[n], n, views[n], c);
      if states[n].sets[c].value[i + 5].None? {
        Adjoin(n, c, i);
      }
    }

    /** conf-set-adjoin*. */
    method AdjoinAll(n: nat, l: seq<nat>, i: nat)
      requires Valid() && n < |states| && Below(l, nbConfs) && i <= n
      modifies this`states, this`views
      ensures Valid() && MoreSets(old(states), states)
      ensures views == old(views)[n := WithAll(old(views[n]), l, i)]
    {
      hide OneMoreSet, Shows, With;
      var k := 0;
      assert l[0..] == l;
      while k < |l|
        invariant 0 <= k <= |l| && Valid() && MoreSets(old(states), states)
        invariant views == old(views)[n := views[n]]
        invariant WithAll(views[n], l[k..], i) == WithAll(old(views[n]), l, i)
      {
        assert l[k..][0] == l[k] && l[k..][1..] == l[k + 1..];
        Get(n, l[k]);
        Add(n, l[k], i);
        k := k + 1;
      }
    }

    /** conf-set-union: the positions dealt with in the set of p in state k into the set of c. */
    method Union(n: nat, c: nat, k: nat, p: nat)
      requires Valid() && InRange(n, c) && InRange(k, p) && k <= n && (k, p) != (n, c)
      requires states[n].sets[c].Some? && states[k].sets[p].Some?
      modifies this`states, this`views
      ensures Valid() && MoreSets(old(states), states)
      ensures views == old(views)[n := WithEach(old(views[n]), c, old(views[k]).lists[p].done)]
    {
      hide OneMoreSet, MoreSets, Shows, With, WithEach;
      ghost var xs, q := views[k].lists[p].done, 0;
      FirstDone(states[k], k, views[k], p);
      var i := states[k].sets[p].value[2].value;
      assert xs[0..] == xs && [] + xs == xs;
      SetsKept(states, states, k, p);
      while i >= 0
        invariant Valid() && MoreSets(old(states), states) && |states| == old(|states|)
        invariant states[n].sets[c].Some? && states[k].sets[p].Some?
        invariant views == old(views)[n := views[n]] && views[k].lists[p].done == xs
        invariant 0 <= q <= |xs| && i == At(xs, q)
        invariant WithEach(views[n], c, xs[q..]) == WithEach(old(views[n]), c, xs)
        decreases |xs| - q
      {
        WithEachNext(views[n], c, xs, q);
        NextNew(states[k], k, views[k], p, [], xs, q);
        DoneKept(views, n, c, i, k, p);
        ghost var before := states;
        Add(n, c, i);
        SetsKeptOn(old(states), before, states);
        SetsKept(before, states, n, c);
        SetsKept(before, states, k, p);
        NextNew(states[k], k, views[k], p, [], xs, q);
        i := states[k].sets[p].value[i + 5].value;
        q := q + 1;
      }
      assert xs[q..] == [];
      WithEachNone(views[n], c);
    }

    /** Takes the first configuration to deal with and its new positions, which count as dealt with now. */
    method Pop(n: nat) returns (c: nat, head: int)
      requires Valid() && n < |states| && states[n].first >= 0
      modifies this`states, this`views
      ensures Valid() && MoreSets(old(states), states) && InRange(n, c) && states[n].sets[c].Some?
      ensures OneMoreSet(old(states), states, n, c)
      ensures
        var v := old(views[n]);
        v.agenda != [] && v.agenda[0] == c && v.lists[c].waiting != [] && head == v.lists[c].waiting[0]
          && views == old(views)[n := Popped(v)]
    {
      hide Shows, Holds, Distinct;
      AgendaFacts(states[n], n, views[n]);
      PopShows(states[n], n, views[n]);
      c := states[n].first;
      var cells := states[n].sets[c].value;
      head := cells[4].value;
      var first := cells[0].value;
      cells := cells[cells[1].value + 5 := cells[4]];
      cells := cells[1 := cells[3]];
      cells := cells[3 := Some(-1)];
      cells := cells[4 := Some(-1)];
      views := views[n := Popped(views[n])];
      states := states[n := State(first, states[n].sets[c := Some(cells)])];
    }

    /** Lets c pass if e has ended where it started, in state n. */
    method PassIf(n: nat, c: nat, e: nat)
      requires Valid() && InRange(n, c + 1) && e < nbConfs && states[n].sets[c].Some?
      modifies this`states, this`views
      ensures Valid() && MoreSets(old(states), states)
      ensures
        var v := old(views[n]);
        views == old(views)[n := if n in Has(v, e) then WithEach(v, c + 1, v.lists[c].done) else v]
    {
      hide OneMoreSet, Shows, WithEach, Has;
      var ended := states[n].sets[e];
      SetHas(states[n], n, views[n], e);
      if ended.Some? && ended.value[n + 5].Some? {
        Get(n, c + 1);
        Union(n, c + 1, n, c);
      }
    }

    method PassEnded(n: nat, c: nat, l: seq<nat>)
      requires Valid() && InRange(n, c + 1) && Below(l, nbConfs) && states[n].sets[c].Some?
      modifies this`states, this`views
      ensures Valid() && MoreSets(old(states), states)
      ensures views == old(views)[n := WithEnders(old(views[n]), c, l, n)]
    {
      hide OneMoreSet, Shows, WithEach, Has;
      var k := 0;
      assert l[0..] == l;
      while k < |l|
        invariant 0 <= k <= |l| && Valid() && MoreSets(old(states), states)
        invariant views == old(views)[n := views[n]]
        invariant WithEnders(views[n], c, l[k..], n) == WithEnders(old(views[n]), c, l, n)
      {
        assert l[k..][0] == l[k] && l[k..][1..] == l[k + 1..];
        PassIf(n, c, l[k]);
        k := k + 1;
      }
    }

    /** Lets p pass in state k. */
    method PassAt(n: nat, p: nat, k: nat)
      requires Valid() && InRange(n, p + 1) && k <= n
      modifies this`states, this`views
      ensures Valid() && MoreSets(old(states), states)
      ensures views == old(views)[n := WithEach(old(views[n]), p + 1, DoneAt(old(views), old(views[n]), n, k, p))]
    {
      hide OneMoreSet, Shows, WithEach;
      NoSet(states[k], k, views[k], p);
      WithEachNone(views[n], p + 1);
      if states[k].sets[p].Some? {
        Get(n, p + 1);
        Union(n, p + 1, k, p);
      }
    }

    /** Lets p pass in all the states ks, the new positions of c, which are linked from head. */
    method PassOne(n: nat, c: nat, head: int, p: nat, ghost d: seq<nat>, ghost ks: seq<nat>)
      requires Valid() && InRange(n, c) && InRange(n, p + 1) && states[n].sets[c].Some?
      requires ks != [] && head == ks[0] && views[n].lists[c].done == d + ks
      modifies this`states, this`views
      ensures Valid() && MoreSets(old(states), states)
      ensures views == old(views)[n := WithPred(old(views), old(views[n]), n, p, ks)]
    {
      hide OneMoreSet, Shows, WithEach, DoneAt;
      ghost var q := 0;
      var i := head;
      assert ks[0..] == ks;
      while i >= 0
        invariant Valid() && MoreSets(old(states), states)
        invariant views == old(views)[n := views[n]] && Grew(old(views[n]), views[n])
        invariant 0 <= q <= |ks| && i == At(ks, q)
        invariant WithPred(old(views), views[n], n, p, ks[q..]) == WithPred(old(views), old(views[n]), n, p, ks)
        decreases |ks| - q
      {
        assert ks[q..][0] == ks[q] && ks[q..][1..] == ks[q + 1..];
        NextNew(states[n], n, views[n], c, d, ks, q);
        PassAtGrew(old(views), views, n, i, p);
        PassAt(n, p, i);
        NextNew(states[n], n, views[n], c, d, ks, q);
        i := states[n].sets[c].value[i + 5].value;
        q := q + 1;
      }
    }

    method PassAll(n: nat, c: nat, head: int, l: seq<nat>, ghost d: seq<nat>, ghost ks: seq<nat>)
      requires Valid() && InRange(n, c) && states[n].sets[c].Some? && forall k :: 0 <= k < |l| ==> l[k] + 1 < nbConfs
      requires ks != [] && head == ks[0] && views[n].lists[c].done == d + ks
      modifies this`states, this`views
      ensures Valid() && MoreSets(old(states), states)
      ensures views == old(views)[n := WithPreds(old(views), old(views[n]), n, l, ks)]
    {
      hide OneMoreSet, Shows, WithPred;
      var k := 0;
      assert l[0..] == l;
      while k < |l|
        invariant 0 <= k <= |l| && Valid() && MoreSets(old(states), states)
        invariant views == old(views)[n := views[n]] && Grew(old(views[n]), views[n])
        invariant WithPreds(old(views), views[n], n, l[k..], ks) == WithPreds(old(views), old(views[n]), n, l, ks)
      {
        assert l[k..][0] == l[k] && l[k..][1..] == l[k + 1..];
        OtherStates(old(views), views, views[n], n, l[k], ks);
        WithPredGrew(old(views), views[n], n, l[k], ks);
        GrewTrans(old(views[n]), views[n], WithPred(old(views), views[n], n, l[k], ks));
        PassOne(n, c, head, l[k], d, ks);
        k := k + 1;
      }
    }
  }

  lemma PassAtGrew(views0: seq<View>, views: seq<View>, n: nat, k: nat, p: nat)
    requires n < |views| == |views0| && views == views0[n := views[n]] && p + 1 < |views[n].lists|
    requires Grew(views0[n], views[n])
    ensures DoneAt(views, views[n], n, k, p) == DoneAt(views0, views[n], n, k, p)
    ensures Grew(views0[n], WithEach(views[n], p + 1, DoneAt(views0, views[n], n, k, p)))
  {
    hide WithEach, Has;
    var w := WithEach(views[n], p + 1, DoneAt(views0, views[n], n, k, p));
    WithEachHas(views[n], p + 1, DoneAt(views0, views[n], n, k, p));
    GrewTrans(views0[n], views[n], w);
  }

  lemma NoSet(st: State, n: nat, v: View, c: nat)
    requires Shows(st, n, v) && c < |st.sets|
    ensures c < |v.lists| && (st.sets[c].None? ==> v.lists[c].done == [])
  {
    assert SetShows(st, n, v.lists, c);
  }

  lemma WithEachNone(v: View, c: nat)
    requires c < |v.lists|
    ensures WithEach(v, c, []) == v
  {
  }

  lemma {:induction false} OtherStates(views: seq<View>, views': seq<View>, v: View, n: nat, p: nat, ks: seq<nat>)
    requires p + 1 < |v.lists| && |views'| == |views| && forall k :: 0 <= k < |views| && k != n ==>
               views'[k] == views[k]
    ensures WithPred(views', v, n, p, ks) == WithPred(views, v, n, p, ks)
    decreases ks
  {
    if ks != [] {
      OtherStates(views, views', WithEach(v, p + 1, DoneAt(views, v, n, ks[0], p)), n, p, ks[1..]);
    }
  }

  lemma {:induction false} WithPredGrew(views: seq<View>, v: View, n: nat, p: nat, ks: seq<nat>)
    requires p + 1 < |v.lists|
    ensures Grew(v, WithPred(views, v, n, p, ks))
    decreases ks
  {
    hide WithEach;
    if ks != [] {
      var w := WithEach(v, p + 1, DoneAt(views, v, n, ks[0], p));
      WithEachHas(v, p + 1, DoneAt(views, v, n, ks[0], p));
      WithPredGrew(views, w, n, p, ks[1..]);
      GrewTrans(v, w, WithPred(views, v, n, p, ks));
    }
  }

  lemma DoneKept(views: seq<View>, n: nat, c: nat, i: nat, k: nat, p: nat)
    requires n < |views| && k < |views| && c < |views[n].lists| && p < |views[k].lists|
    ensures
      var r := views[n := With(views[n], c, i)];
      p < |r[k].lists| && r[k].lists[p].done == views[k].lists[p].done
  {
  }

  lemma WithEachNext(v: View, c: nat, xs: seq<nat>, q: nat)
    requires c < |v.lists| && q < |xs|
    ensures WithEach(v, c, xs[q..]) == WithEach(With(v, c, xs[q]), c, xs[q + 1..])
  {
    assert xs[q..][0] == xs[q] && xs[q..][1..] == xs[q + 1..];
  }
}
