/**
 The backward pass of an Earley parse (demo/v8_benchmark.js, 8403-8409 and 8798-8896): from the ends of
 the first nonterminal behind the last word, it copies those items to a second table that take part in a
 parse of all words.
 */
module EarleyBackward {
  import opened EarleyCells
  import opened EarleyCharts
  import opened EarleyParsers
  import opened EarleyTables
  import opened Options

  // ----- the items of whole parses -----

  /**
   Item (c, i) of state n takes part in a parse of all words, by at most f steps back from its end:
   an item that has passed a nonterminal goes back to the one before it and the end of the nonterminal.
   */
  ghost predicate UsedWithin(t: Tables, toks: seq<seq<nat>>, f: nat, n: nat, c: nat, i: nat)
    decreases f
  {
    && Item(t, toks, n, c, i)
    && (|| (n == |toks| && i == 0 && t.enders != [] && c in t.enders[0])
        || (f > 0 && var g := f - 1; exists m: nat, e: nat ::
              UsedWithin(t, toks, g, m, c + 1, i) && Ends(t, e, c) && Item(t, toks, m, e, n))
        || (f > 0 && var g := f - 1; exists p: nat, h: nat ::
              UsedWithin(t, toks, g, n, p + 1, h) && Ends(t, c, p) && Item(t, toks, i, p, h)))
  }

  ghost predicate Used(t: Tables, toks: seq<seq<nat>>, n: nat, c: nat, i: nat) {
    exists f: nat :: UsedWithin(t, toks, f, n, c, i)
  }

  /** One step back, to both items. */
  lemma UsedBack(t: Tables, toks: seq<seq<nat>>, n: nat, p: nat, i: nat, e: nat, k: nat)
    requires Used(t, toks, n, p + 1, i) && Ends(t, e, p) && Item(t, toks, n, e, k) && Item(t, toks, k, p, i)
    ensures Used(t, toks, k, p, i) && Used(t, toks, n, e, k)
  {
    var f: nat :| UsedWithin(t, toks, f, n, p + 1, i);
    assert UsedWithin(t, toks, f + 1, k, p, i);
    assert UsedWithin(t, toks, f + 1, n, e, k);
  }

  // ----- what one step back does to the second table -----

  ghost predicate SameShape(views: seq<View>, n: nat) { forall m :: 0 <= m < |views| ==> |views[m].lists| == n }

  ghost predicate GrewAll(views: seq<View>, r: seq<View>) {
    |r| == |views| && forall m :: 0 <= m < |views| ==> Grew(views[m], r[m])
  }

  /** conf-set-adjoin**: position i into the set of c in state k, if the forward table fw has it there. */
  ghost function Copied(fw: seq<View>, views: seq<View>, k: nat, c: nat, i: nat): seq<View>
    requires k < |fw| == |views| && c < |views[k].lists|
  {
    if i in Has(fw[k], c) then views[k := With(views[k], c, i)] else views
  }

  lemma CopiedHas(fw: seq<View>, views: seq<View>, k: nat, c: nat, i: nat, cs: nat)
    requires k < |fw| == |views| && c < cs && SameShape(views, cs)
    ensures
      var r := Copied(fw, views, k, c, i);
      && GrewAll(views, r) && SameShape(r, cs) && (i in Has(fw[k], c) ==> i in Has(r[k], c))
      && (forall m: nat, d: nat, x: nat :: m < |r| && x in Has(r[m], d) ==>
            x in Has(views[m], d) || (m == k && d == c && x == i && i in Has(fw[k], c)))
  {
    hide With, Has;
    WithHas(views[k], c, i);
  }

  /** Tables of the same size. */
  ghost predicate Matching(fw: seq<View>, views: seq<View>, cs: nat) {
    |fw| == |views| && SameShape(fw, cs) && SameShape(views, cs)
  }

  /** A step back from configuration p + 1, started at i, over a nonterminal that ended with e, started at k. */
  ghost function Back(fw: seq<View>, views: seq<View>, j: nat, p: nat, i: nat, e: nat, k: nat): (r: seq<View>)
    requires k <= j < |views| && (p < |views[j].lists| && e < |views[j].lists|) && Matching(fw, views, |views[j].lists|)
    ensures |r| == |views| && SameShape(r, |views[j].lists|)
    ensures r[j + 1..] == views[j + 1..]
  {
    if k >= i && i in Has(fw[k], p) then Copied(fw, Copied(fw, views, k, p, i), j, e, k) else views
  }

  ghost predicate AllUsed(t: Tables, toks: seq<seq<nat>>, views: seq<View>) {
    forall m: nat, c: nat, i: nat :: m < |views| && i in Has(views[m], c) ==> Used(t, toks, m, c, i)
  }

  /** The forward table, filled. */
  ghost predicate Exact(t: Tables, toks: seq<seq<nat>>, fw: seq<View>) {
    && |fw| == |toks| + 1 && SameShape(fw, |t.steps|)
    && forall m: nat :: m < |fw| ==>
         Settled(fw[m]) && forall c: nat, i: nat :: i in Has(fw[m], c) <==> Item(t, toks, m, c, i)
  }

  lemma BackHas(fw: seq<View>, views: seq<View>, j: nat, p: nat, i: nat, e: nat, k: nat, cs: nat)
    requires k <= j < |views| && p < cs && e < cs && Matching(fw, views, cs)
    ensures
      var r := Back(fw, views, j, p, i, e, k);
      && GrewAll(views, r) && SameShape(r, cs)
      && (k >= i && i in Has(fw[k], p) && k in Has(fw[j], e) ==> i in Has(r[k], p) && k in Has(r[j], e))
  {
    hide Has, Copied;
    CopiedHas(fw, views, k, p, i, cs);
    var w := Copied(fw, views, k, p, i);
    CopiedHas(fw, w, j, e, k, cs);
    var r := Copied(fw, w, j, e, k);
    GrewAllTrans(views, w, r);
    GrewHas(w[k], r[k], p, i);
  }

  lemma GrewAllTrans(views: seq<View>, w: seq<View>, r: seq<View>)
    requires GrewAll(views, w) && GrewAll(w, r)
    ensures GrewAll(views, r)
  {
    hide Grew;
    forall m | 0 <= m < |views| ensures Grew(views[m], r[m]) {
      GrewTrans(views[m], w[m], r[m]);
    }
  }

  lemma GrewAllSelf(views: seq<View>)
    ensures GrewAll(views, views)
  {
  }

  lemma BackSound(t: Tables, toks: seq<seq<nat>>, fw: seq<View>, views: seq<View>, j: nat, p: nat, i: nat, e: nat,
                  k: nat)
    requires Exact(t, toks, fw) && Matching(fw, views, |t.steps|) && AllUsed(t, toks, views)
    requires k <= j < |views| && p < |t.steps| && Ends(t, e, p) && Used(t, toks, j, p + 1, i) && k in Has(fw[j], e)
    ensures AllUsed(t, toks, Back(fw, views, j, p, i, e, k))
  {
    hide Has, Copied, Used, Item, Settled;
    if k >= i && i in Has(fw[k], p) {
      UsedBack(t, toks, j, p, i, e, k);
      CopiedHas(fw, views, k, p, i, |t.steps|);
      CopiedHas(fw, Copied(fw, views, k, p, i), j, e, k, |t.steps|);
    }
  }

  /** Over all positions ks where e started. */
  ghost function BackStarts(fw: seq<View>, views: seq<View>, j: nat, p: nat, i: nat, e: nat,
                            ks: seq<nat>): (r: seq<View>)
    requires j < |views| && (p < |views[j].lists| && e < |views[j].lists|) && Matching(fw, views, |views[j].lists|)
    requires Below(ks, j + 1)
    ensures |r| == |views| && SameShape(r, |views[j].lists|)
    ensures r[j + 1..] == views[j + 1..]
    decreases ks
  {
    if ks == [] then views else BackStarts(fw, Back(fw, views, j, p, i, e, ks[0]), j, p, i, e, ks[1..])
  }

  lemma {:induction false} BackStartsHas(fw: seq<View>, views: seq<View>, j: nat, p: nat, i: nat, e: nat, ks: seq<nat>,
                                         cs: nat, k: nat)
    requires j < |views| && p < cs && e < cs && Matching(fw, views, cs) && Below(ks, j + 1)
    ensures
      var r := BackStarts(fw, views, j, p, i, e, ks);
      && GrewAll(views, r) && SameShape(r, cs)
      && (k in ks && k >= i && i in Has(fw[k], p) && k in Has(fw[j], e) ==> i in Has(r[k], p) && k in Has(r[j], e))
    decreases ks
  {
    hide Has, Back;
    if ks == [] {
      GrewAllSelf(views);
    } else {
      assert ks == [ks[0]] + ks[1..];
      var w := Back(fw, views, j, p, i, e, ks[0]);
      BackHas(fw, views, j, p, i, e, ks[0], cs);
      BackStartsHas(fw, w, j, p, i, e, ks[1..], cs, k);
      var r := BackStarts(fw, views, j, p, i, e, ks);
      GrewAllTrans(views, w, r);
      if k in ks { GrewHas(w[k], r[k], p, i); GrewHas(w[j], r[j], e, k); }
    }
  }

  lemma {:induction false} BackStartsSound(t: Tables, toks: seq<seq<nat>>, fw: seq<View>, views: seq<View>, j: nat,
                                           p: nat, i: nat, e: nat, ks: seq<nat>)
    requires Exact(t, toks, fw) && Matching(fw, views, |t.steps|) && AllUsed(t, toks, views)
    requires j < |views| && p < |t.steps| && Ends(t, e, p) && Used(t, toks, j, p + 1, i)
    requires Below(ks, j + 1) && forall k :: k in ks ==> k in Has(fw[j], e)
    ensures AllUsed(t, toks, BackStarts(fw, views, j, p, i, e, ks))
    decreases ks
  {
    hide Has, Back, Used, Exact, AllUsed;
    if ks != [] {
      BackSound(t, toks, fw, views, j, p, i, e, ks[0]);
      BackStartsSound(t, toks, fw, Back(fw, views, j, p, i, e, ks[0]), j, p, i, e, ks[1..]);
    }
  }

  /** Positions lie before their states. */
  ghost predicate Bounded(fw: seq<View>) {
    forall m: nat, c: nat, i: nat :: m < |fw| && i in Has(fw[m], c) ==> i <= m
  }

  lemma DoneBelow(fw: seq<View>, j: nat, e: nat)
    requires Bounded(fw) && j < |fw| && e < |fw[j].lists|
    ensures Below(fw[j].lists[e].done, j + 1)
  {
    DoneHas(fw[j], e);
    forall q | 0 <= q < |fw[j].lists[e].done| ensures fw[j].lists[e].done[q] < j + 1 {
      assert fw[j].lists[e].done[q] in fw[j].lists[e].done;
    }
  }

  /** Over all es that may have ended there. */
  ghost function BackEnders(fw: seq<View>, views: seq<View>, j: nat, p: nat, i: nat, es: seq<nat>): (r: seq<View>)
    requires j < |views| && p < |views[j].lists| && Matching(fw, views, |views[j].lists|) && Bounded(fw)
    requires Below(es, |views[j].lists|)
    ensures |r| == |views| && SameShape(r, |views[j].lists|)
    ensures r[j + 1..] == views[j + 1..]
    decreases es
  {
    if es == [] then views
    else
      DoneBelow(fw, j, es[0]);
      BackEnders(fw, BackStarts(fw, views, j, p, i, es[0], fw[j].lists[es[0]].done), j, p, i, es[1..])
  }

  lemma {:induction false} BackEndersHas(fw: seq<View>, views: seq<View>, j: nat, p: nat, i: nat, es: seq<nat>, cs: nat,
                                         e: nat, k: nat)
    requires j < |views| && p < cs && Matching(fw, views, cs) && Bounded(fw) && Below(es, cs) && k <= j
    ensures
      var r := BackEnders(fw, views, j, p, i, es);
      && GrewAll(views, r) && SameShape(r, cs)
      && (e in es && k in fw[j].lists[e].done && k >= i && i in Has(fw[k], p) ==>
          i in Has(r[k], p) && k in Has(r[j], e))
    decreases es
  {
    hide Has, BackStarts, Bounded;
    if es == [] {
      GrewAllSelf(views);
    } else {
      assert es == [es[0]] + es[1..];
      DoneBelow(fw, j, es[0]);
      DoneHas(fw[j], es[0]);
      var w := BackStarts(fw, views, j, p, i, es[0], fw[j].lists[es[0]].done);
      BackStartsHas(fw, views, j, p, i, es[0], fw[j].lists[es[0]].done, cs, k);
      BackEndersHas(fw, w, j, p, i, es[1..], cs, e, k);
      var r := BackEnders(fw, views, j, p, i, es);
      GrewAllTrans(views, w, r);
      GrewHas(w[k], r[k], p, i);
      GrewHas(w[j], r[j], e, k);
    }
  }

  lemma {:induction false} BackEndersSound(t: Tables, toks: seq<seq<nat>>, fw: seq<View>, views: seq<View>, j: nat,
                                           p: nat, i: nat, es: seq<nat>)
    requires Exact(t, toks, fw) && Matching(fw, views, |t.steps|) && AllUsed(t, toks, views) && Bounded(fw)
    requires j < |views| && p < |t.steps| && Used(t, toks, j, p + 1, i) && Below(es, |t.steps|)
    requires forall e :: e in es ==> Ends(t, e, p)
    ensures AllUsed(t, toks, BackEnders(fw, views, j, p, i, es))
    decreases es
  {
    hide Has, BackStarts, Used, Exact, AllUsed, Bounded;
    if es != [] {
      DoneBelow(fw, j, es[0]);
      DoneHas(fw[j], es[0]);
      BackStartsSound(t, toks, fw, views, j, p, i, es[0], fw[j].lists[es[0]].done);
      BackEndersSound(t, toks, fw, BackStarts(fw, views, j, p, i, es[0], fw[j].lists[es[0]].done), j, p, i, es[1..]);
    }
  }

  /** Configuration c has passed a nonterminal. */
  ghost predicate HasPassed(t: Tables, c: nat) { |t.nts| <= c <= |t.steps| && c > 0 && t.steps[c - 1] >= 0 }

  /** Steps back from configuration c, for its new positions xs. */
  ghost function BackNew(t: Tables, fw: seq<View>, views: seq<View>, j: nat, c: nat, xs: seq<nat>): (r: seq<View>)
    requires Sane(t) && j < |views| && Matching(fw, views, |t.steps|) && Bounded(fw)
    ensures |r| == |views| && SameShape(r, |t.steps|)
    ensures r[j + 1..] == views[j + 1..]
    decreases xs
  {
    if xs == [] || !HasPassed(t, c) then views
    else
      PredsKnown(t, t.steps[c - 1]);
      BackNew(t, fw, BackEnders(fw, views, j, c - 1, xs[0], t.enders[t.steps[c - 1]]), j, c, xs[1..])
  }

  lemma {:induction false} BackNewHas(t: Tables, fw: seq<View>, views: seq<View>, j: nat, c: nat, xs: seq<nat>, e: nat,
                                      k: nat, i: nat)
    requires Sane(t) && j < |views| && Matching(fw, views, |t.steps|) && Bounded(fw) && k <= j
    ensures
      var r := BackNew(t, fw, views, j, c, xs);
      && GrewAll(views, r) && SameShape(r, |t.steps|)
      && (HasPassed(t, c) && Ends(t, e, c - 1) && i in xs && k in fw[j].lists[e].done && i in Has(fw[k], c - 1) ==>
            i in Has(r[k], c - 1) && k in Has(r[j], e))
    decreases xs
  {
    hide Has, BackEnders, Listed;
    if xs == [] || !HasPassed(t, c) {
      GrewAllSelf(views);
    } else {
      assert xs == [xs[0]] + xs[1..];
      var es, p := t.enders[t.steps[c - 1]], c - 1;
      PredsKnown(t, t.steps[p]);
      var w := BackEnders(fw, views, j, p, xs[0], es);
      BackEndersHas(fw, views, j, p, xs[0], es, |t.steps|, e, k);
      BackNewHas(t, fw, w, j, c, xs[1..], e, k, i);
      var r := BackNew(t, fw, views, j, c, xs);
      GrewAllTrans(views, w, r);
      GrewHas(w[k], r[k], p, i);
      GrewHas(w[j], r[j], e, k);
    }
  }

  lemma {:induction false} BackNewSound(t: Tables, toks: seq<seq<nat>>, fw: seq<View>, views: seq<View>, j: nat, c: nat,
                                        xs: seq<nat>)
    requires Sane(t) && Exact(t, toks, fw) && Matching(fw, views, |t.steps|) && AllUsed(t, toks, views) && Bounded(fw)
    requires j < |views| && forall i :: i in xs ==> Used(t, toks, j, c, i)
    ensures AllUsed(t, toks, BackNew(t, fw, views, j, c, xs))
    decreases xs
  {
    hide Has, BackEnders, Used, Exact, AllUsed, Bounded, Listed;
    if xs != [] && HasPassed(t, c) {
      var es, p := t.enders[t.steps[c - 1]], c - 1;
      PredsKnown(t, t.steps[p]);
      assert forall e :: e in es ==> Ends(t, e, p);
      assert Used(t, toks, j, p + 1, xs[0]);
      BackEndersSound(t, toks, fw, views, j, p, xs[0], es);
      BackNewSound(t, toks, fw, BackEnders(fw, views, j, p, xs[0], es), j, c, xs[1..]);
    }
  }

  // ----- what has been traced back -----

  /** The items behind the positions dealt with for p + 1 in state j are in the second table. */
  ghost predicate TracedOver(fw: seq<View>, views: seq<View>, j: nat, e: nat, p: nat)
    requires j < |views| == |fw|
  {
    p + 1 < |views[j].lists| && e < |fw[j].lists| ==>
      forall k: nat, i: nat ::
        k <= j && i in views[j].lists[p + 1].done && k in fw[j].lists[e].done && i in Has(fw[k], p) ==>
          i in Has(views[k], p) && k in Has(views[j], e)
  }

  ghost predicate Traced(t: Tables, fw: seq<View>, views: seq<View>, j: nat)
    requires j < |views| == |fw|
  {
    forall e: nat, p: nat :: Ends(t, e, p) ==> TracedOver(fw, views, j, e, p)
  }

  lemma TracedGrew(t: Tables, fw: seq<View>, views: seq<View>, r: seq<View>, j: nat)
    requires j < |views| == |fw| && GrewAll(views, r) && Traced(t, fw, views, j)
    ensures Traced(t, fw, r, j)
  {
    hide Has, Ends;
    forall e: nat, p: nat | Ends(t, e, p) ensures TracedOver(fw, r, j, e, p) {
      assert TracedOver(fw, views, j, e, p);
      forall k: nat, i: nat | p + 1 < |r[j].lists| && e < |fw[j].lists| && k <= j && i in r[j].lists[p + 1].done
                              && k in fw[j].lists[e].done && i in Has(fw[k], p)
        ensures i in Has(r[k], p) && k in Has(r[j], e)
      {
        GrewHas(views[k], r[k], p, i);
        GrewHas(views[j], r[j], e, k);
      }
    }
  }

  /** State j of the second table has a configuration to deal with. */
  ghost predicate Dealing(t: Tables, fw: seq<View>, views: seq<View>, j: nat) {
    && Sane(t) && j < |views| && Matching(fw, views, |t.steps|) && Bounded(fw)
    && views[j].agenda != [] && views[j].agenda[0] < |t.steps|
  }

  /** The second table when the first configuration of state j has been dealt with. */
  ghost function BackDealt(t: Tables, fw: seq<View>, views: seq<View>, j: nat): (r: seq<View>)
    requires Dealing(t, fw, views, j)
    ensures |r| == |views| && SameShape(r, |t.steps|)
    ensures r[j + 1..] == views[j + 1..]
  {
    var c := views[j].agenda[0];
    BackNew(t, fw, views[j := Popped(views[j])], j, c, views[j].lists[c].waiting)
  }

  lemma BackDealtGrew(t: Tables, fw: seq<View>, views: seq<View>, j: nat)
    requires Dealing(t, fw, views, j)
    ensures GrewAll(views[j := Popped(views[j])], BackDealt(t, fw, views, j))
  {
    hide Sane, Bounded, BackNew, Has;
    var c := views[j].agenda[0];
    BackNewHas(t, fw, views[j := Popped(views[j])], j, c, views[j].lists[c].waiting, 0, 0, 0);
  }

  lemma BackDealtHas(t: Tables, fw: seq<View>, views: seq<View>, j: nat, m: nat, c: nat, i: nat)
    requires Dealing(t, fw, views, j) && m < |views|
    ensures i in Has(views[m], c) ==> i in Has(BackDealt(t, fw, views, j)[m], c)
  {
    hide Sane, Bounded, BackDealt, Has, Popped;
    BackDealtGrew(t, fw, views, j);
    PoppedHas(views[j]);
    GrewHas(views[j := Popped(views[j])][m], BackDealt(t, fw, views, j)[m], c, i);
  }

  lemma BackDealtTraced(t: Tables, fw: seq<View>, views: seq<View>, j: nat)
    requires Dealing(t, fw, views, j) && Traced(t, fw, views, j)
    ensures Traced(t, fw, BackDealt(t, fw, views, j), j)
  {
    hide Has, Ends, BackNew, Sane;
    var v1, r := views[j := Popped(views[j])], BackDealt(t, fw, views, j);
    var c, xs := views[j].agenda[0], views[j].lists[views[j].agenda[0]].waiting;
    BackDealtGrew(t, fw, views, j);
    forall e: nat, p: nat | Ends(t, e, p) ensures TracedOver(fw, r, j, e, p) {
      assert TracedOver(fw, views, j, e, p);
      forall k: nat, i: nat | p + 1 < |r[j].lists| && e < |fw[j].lists| && k <= j && i in r[j].lists[p + 1].done
                              && k in fw[j].lists[e].done && i in Has(fw[k], p)
        ensures i in Has(r[k], p) && k in Has(r[j], e)
      {
        if i in views[j].lists[p + 1].done {
          BackDealtHas(t, fw, views, j, k, p, i);
          BackDealtHas(t, fw, views, j, j, e, k);
        } else {
          assert p + 1 == c && i in xs;
          EndsPassed(t, e, p);
          BackNewHas(t, fw, v1, j, c, xs, e, k, i);
        }
      }
    }
  }

  lemma EndsPassed(t: Tables, e: nat, p: nat)
    requires Sane(t) && Ends(t, e, p)
    ensures HasPassed(t, p + 1)
  {
  }

  lemma BackDealtSound(t: Tables, toks: seq<seq<nat>>, fw: seq<View>, views: seq<View>, j: nat)
    requires Dealing(t, fw, views, j) && Exact(t, toks, fw) && AllUsed(t, toks, views)
    ensures AllUsed(t, toks, BackDealt(t, fw, views, j))
  {
    hide Has, BackNew, Used, Exact, Bounded, Sane, Popped;
    var c := views[j].agenda[0];
    PoppedHas(views[j]);
    WaitingHas(views[j], c);
    BackNewSound(t, toks, fw, views[j := Popped(views[j])], j, c, views[j].lists[c].waiting);
  }

  // ----- the backward pass -----

  /** No set is empty. */
  ghost predicate Inhabited(states: seq<State>, views: seq<View>) {
    forall n: nat, c: nat :: n < |states| && n < |views| && c < |states[n].sets| && states[n].sets[c].Some? ==>
      Has(views[n], c) != []
  }

  /** The two tables of a parse. */
  ghost predicate Paired(forth: Chart, back: Chart)
    reads forth, back
  {
    && forth != back && forth.Valid() && back.Valid() && |forth.states| == |back.states|
        && forth.nbConfs == back.nbConfs
    && Matching(forth.views, back.views, back.nbConfs) && Bounded(forth.views)
    && Inhabited(back.states, back.views)
  }

  /** conf-set-adjoin**. */
  method Copy(forth: Chart, back: Chart, k: nat, c: nat, i: nat) returns (ok: bool)
    requires Paired(forth, back) && back.InRange(k, c) && i <= k
    modifies back
    ensures Paired(forth, back) && MoreSets(old(back.states), back.states)
    ensures ok == (i in Has(forth.views[k], c)) && back.views == Copied(forth.views, old(back.views), k, c, i)
  {
    hide Shows, Bounded, With, Has;
    WithInhabited(back.views[k], c, i);
    var cells := forth.states[k].sets[c];
    CellSays(forth.states[k], k, forth.views[k], c, i);
    ok := cells.Some? && cells.value[i + 5].Some?;
    if ok {
      back.Get(k, c);
      back.Add(k, c, i);
    }
  }

  lemma WithInhabited(v: View, c: nat, i: nat)
    requires c < |v.lists|
    ensures i in Has(With(v, c, i), c) && forall d: nat :: Has(v, d) != [] ==> Has(With(v, c, i), d) != []
  {
  }

  lemma CellSays(st: State, n: nat, v: View, c: nat, i: nat)
    requires Shows(st, n, v) && c < |st.sets| && i <= n
    ensures st.sets[c].Some? ==> |st.sets[c].value| == n + 6
    ensures i in Has(v, c) <==> st.sets[c].Some? && st.sets[c].value[i + 5].Some?
  {
    assert SetShows(st, n, v.lists, c);
  }

  method BackOne(forth: Chart, back: Chart, j: nat, p: nat, i: nat, e: nat, k: nat)
    requires Paired(forth, back) && back.InRange(j, p) && back.InRange(j, e) && k <= j
    modifies back
    ensures Paired(forth, back) && |back.states| == old(|back.states|) && MoreSets(old(back.states), back.states)
    ensures back.views == Back(forth.views, old(back.views), j, p, i, e, k)
  {
    hide Shows, Bounded, Has, With;
    if k >= i {
      var ok := Copy(forth, back, k, p, i);
      if ok {
        ok := Copy(forth, back, j, e, k);
      }
    }
  }

  method BackOverStarts(forth: Chart, back: Chart, j: nat, p: nat, i: nat, e: nat)
    requires Paired(forth, back) && back.InRange(j, p) && back.InRange(j, e) && forth.states[j].sets[e].Some?
    modifies back
    ensures Paired(forth, back) && MoreSets(old(back.states), back.states)
    ensures Below(forth.views[j].lists[e].done, j + 1)
    ensures back.views == BackStarts(forth.views, old(back.views), j, p, i, e, forth.views[j].lists[e].done)
  {
    hide Shows, Bounded, Has, Back;
    DoneBelow(forth.views, j, e);
    ghost var ks, q := forth.views[j].lists[e].done, 0;
    FirstDone(forth.states[j], j, forth.views[j], e);
    var cells := forth.states[j].sets[e].value;
    var k := cells[2].value;
    assert ks[0..] == ks && [] + ks == ks;
    while k >= 0
      invariant Paired(forth, back) && |back.states| == old(|back.states|) && MoreSets(old(back.states), back.states)
      invariant 0 <= q <= |ks| && k == At(ks, q)
      invariant BackStarts(forth.views, back.views, j, p, i, e, ks[q..])
             == BackStarts(forth.views, old(back.views), j, p, i, e, ks)
      decreases |ks| - q
    {
      assert ks[q..][0] == ks[q] && ks[q..][1..] == ks[q + 1..];
      NextNew(forth.states[j], j, forth.views[j], e, [], ks, q);
      BackOne(forth, back, j, p, i, e, k);
      k := cells[k + 5].value;
      q := q + 1;
    }
  }

  method BackOverEnders(forth: Chart, back: Chart, j: nat, p: nat, i: nat, es: seq<nat>)
    requires Paired(forth, back) && back.InRange(j, p) && Below(es, back.nbConfs)
    modifies back
    ensures Paired(forth, back) && MoreSets(old(back.states), back.states)
    ensures back.views == BackEnders(forth.views, old(back.views), j, p, i, es)
  {
    hide Shows, Bounded, Has, BackStarts;
    var q := 0;
    assert es[0..] == es;
    while q < |es|
      invariant Paired(forth, back) && |back.states| == old(|back.states|) && MoreSets(old(back.states), back.states)
      invariant 0 <= q <= |es|
      invariant BackEnders(forth.views, back.views, j, p, i, es[q..])
             == BackEnders(forth.views, old(back.views), j, p, i, es)
    {
      assert es[q..][0] == es[q] && es[q..][1..] == es[q + 1..];
      NoSet(forth.states[j], j, forth.views[j], es[q]);
      NoStarts(forth.views, back.views, j, p, i, es[q]);
      if forth.states[j].sets[es[q]].Some? {
        BackOverStarts(forth, back, j, p, i, es[q]);
      }
      q := q + 1;
    }
  }

  lemma NoStarts(fw: seq<View>, views: seq<View>, j: nat, p: nat, i: nat, e: nat)
    requires j < |views| && (p < |views[j].lists| && e < |views[j].lists|) && Matching(fw, views, |views[j].lists|)
    ensures BackStarts(fw, views, j, p, i, e, []) == views
  {
  }

  /** Tables with a configuration have a nonterminal. */
  lemma SomeNonterminal(t: Tables, c: nat)
    requires Sane(t) && c < |t.steps|
    ensures t.nts != []
  {
    assert -|t.nts| <= t.steps[c] < |t.nts|;
  }

  /** Position i of c in state j, the first of xs. */
  method BackFrom(forth: Chart, back: Chart, t: Tables, j: nat, c: nat, i: nat, ghost xs: seq<nat>)
    requires Paired(forth, back) && Sane(t) && back.InRange(j, c) && back.nbConfs == |t.steps| && xs != [] && xs[0] == i
    modifies back
    ensures Paired(forth, back) && |back.states| == old(|back.states|) && MoreSets(old(back.states), back.states)
    ensures GrewAll(old(back.views), back.views)
    ensures BackNew(t, forth.views, old(back.views), j, c, xs) == BackNew(t, forth.views, back.views, j, c, xs[1..])
  {
    hide Shows, Bounded, Has, BackEnders, Listed;
    GrewAllSelf(back.views);
    SomeNonterminal(t, c);
    if c >= |t.nts| && t.steps[c - 1] >= 0 {
      PredsKnown(t, t.steps[c - 1]);
      BackEndersHas(forth.views, back.views, j, c - 1, i, t.enders[t.steps[c - 1]], back.nbConfs, 0, 0);
      BackOverEnders(forth, back, j, c - 1, i, t.enders[t.steps[c - 1]]);
    }
  }

  /** Follows the new positions of c in state j from head. */
  method BackOverNew(forth: Chart, back: Chart, t: Tables, j: nat, c: nat, head: int, ghost d: seq<nat>,
                     ghost xs: seq<nat>)
    requires Paired(forth, back) && Sane(t) && back.InRange(j, c) && back.nbConfs == |t.steps|
    requires back.states[j].sets[c].Some? && xs != [] && head == xs[0] && back.views[j].lists[c].done == d + xs
    modifies back
    ensures Paired(forth, back)
    ensures back.views == BackNew(t, forth.views, old(back.views), j, c, xs)
  {
    hide Shows, Bounded, Has, BackNew, Sane;
    ghost var q := 0;
    var i := head;
    assert xs[0..] == xs;
    GrewAllSelf(back.views);
    while i >= 0
      invariant Paired(forth, back) && |back.states| == old(|back.states|) && MoreSets(old(back.states), back.states)
      invariant GrewAll(old(back.views), back.views)
      invariant 0 <= q <= |xs| && i == At(xs, q)
      invariant BackNew(t, forth.views, back.views, j, c, xs[q..]) == BackNew(t, forth.views, old(back.views), j, c, xs)
      decreases |xs| - q
    {
      assert xs[q..][0] == xs[q] && xs[q..][1..] == xs[q + 1..];
      NextNew(back.states[j], j, back.views[j], c, d, xs, q);
      ghost var views := back.views;
      BackFrom(forth, back, t, j, c, i, xs[q..]);
      GrewAllTrans(old(back.views), views, back.views);
      NextNew(back.states[j], j, back.views[j], c, d, xs, q);
      i := back.states[j].sets[c].value[i + 5].value;
      q := q + 1;
    }
    NoNew(t, forth.views, back.views, j, c);
  }

  lemma NoNew(t: Tables, fw: seq<View>, views: seq<View>, j: nat, c: nat)
    requires Sane(t) && j < |views| && Matching(fw, views, |t.steps|) && Bounded(fw)
    ensures BackNew(t, fw, views, j, c, []) == views
  {
  }

  method BackDeal(forth: Chart, back: Chart, t: Tables, j: nat)
    requires Paired(forth, back) && Sane(t) && j < |back.states| && back.nbConfs == |t.steps|
    requires back.states[j].first >= 0
    modifies back
    ensures Paired(forth, back) && Dealing(t, forth.views, old(back.views), j)
    ensures back.views == BackDealt(t, forth.views, old(back.views), j)
  {
    hide Shows, Bounded, Has, BackNew, Sane, Popped;
    ghost var v := back.views[j];
    var c, head := back.Pop(j);
    PoppedHas(v);
    PoppedDone(v);
    PoppedInhabited(old(back.states), back.states, old(back.views), j);
    BackOverNew(forth, back, t, j, c, head, v.lists[c].done, v.lists[c].waiting);
  }

  lemma PoppedInhabited(states: seq<State>, states': seq<State>, views: seq<View>, j: nat)
    requires j < |views| && views[j].agenda != [] && views[j].agenda[0] < |views[j].lists|
    requires views[j].lists[views[j].agenda[0]].waiting != [] && Inhabited(states, views)
    requires OneMoreSet(states, states', j, views[j].agenda[0])
    ensures Inhabited(states', views[j := Popped(views[j])])
  {
    hide Popped;
    PoppedHas(views[j]);
    forall n: nat, c: nat | n < |states'| && n < |views| && c < |states'[n].sets| && states'[n].sets[c].Some?
      ensures Has(views[j := Popped(views[j])][n], c) != []
    {
      if (n, c) != (j, views[j].agenda[0]) {
        assert states[n].sets[c].Some?;
      }
    }
  }

  lemma PoppedDone(v: View)
    requires v.agenda != [] && v.agenda[0] < |v.lists|
    ensures Popped(v).lists[v.agenda[0]].done == v.lists[v.agenda[0]].done + v.lists[v.agenda[0]].waiting
  {
  }

  /** What is known of the second table while state j is worked off. */
  ghost predicate Backed(t: Tables, toks: seq<seq<nat>>, fw: seq<View>, views: seq<View>, j: nat) {
    && |fw| == |views| && AllUsed(t, toks, views)
    && forall m :: j <= m < |views| ==> Traced(t, fw, views, m) && (m > j ==> Settled(views[m]))
  }

  lemma BackedDealt(t: Tables, toks: seq<seq<nat>>, fw: seq<View>, views: seq<View>, j: nat)
    requires Dealing(t, fw, views, j) && Exact(t, toks, fw) && Backed(t, toks, fw, views, j)
    ensures Backed(t, toks, fw, BackDealt(t, fw, views, j), j)
  {
    hide AllUsed, Traced, BackDealt, Settled, Exact, Sane, Bounded;
    var r := BackDealt(t, fw, views, j);
    BackDealtSound(t, toks, fw, views, j);
    BackDealtTraced(t, fw, views, j);
    forall m | j < m < |views| ensures Traced(t, fw, r, m) && Settled(r[m]) {
      assert r[m] == r[j + 1..][m - (j + 1)] && views[m] == views[j + 1..][m - (j + 1)];
      BackDealtAbove(t, fw, views, j, m);
    }
  }

  lemma BackDealtAbove(t: Tables, fw: seq<View>, views: seq<View>, j: nat, m: nat)
    requires Dealing(t, fw, views, j) && j < m < |views| && Traced(t, fw, views, m)
    ensures Traced(t, fw, BackDealt(t, fw, views, j), m)
  {
    hide Has, Ends, BackDealt, Sane, Bounded, Popped;
    var v1, r := views[j := Popped(views[j])], BackDealt(t, fw, views, j);
    PoppedHas(views[j]);
    BackDealtGrew(t, fw, views, j);
    forall e: nat, p: nat | Ends(t, e, p) ensures TracedOver(fw, v1, m, e, p) {
      assert TracedOver(fw, views, m, e, p);
    }
    TracedGrew(t, fw, v1, r, m);
  }

  /** Nothing dealt with yet. */
  ghost predicate Undone(v: View) { forall c :: 0 <= c < |v.lists| ==> v.lists[c].done == [] }

  lemma UndoneGrew(v: View, r: View)
    requires Grew(v, r) && Undone(v)
    ensures Undone(r)
  {
  }

  lemma UndoneTraced(t: Tables, fw: seq<View>, views: seq<View>, j: nat)
    requires j < |views| == |fw| && Undone(views[j])
    ensures Traced(t, fw, views, j)
  {
  }

  /** Works off state j of the second table. */
  method BackState(forth: Chart, back: Chart, t: Tables, j: nat, ghost toks: seq<seq<nat>>)
    requires Paired(forth, back) && Sane(t) && j < |back.states| && back.nbConfs == |t.steps|
    requires Exact(t, toks, forth.views) && Backed(t, toks, forth.views, back.views, j)
    modifies back
    ensures Paired(forth, back) && |back.states| == old(|back.states|)
    ensures Backed(t, toks, forth.views, back.views, j) && Settled(back.views[j])
    ensures forall m: nat, c: nat, i: nat :: m < |back.views| && i in Has(old(back.views)[m], c) ==>
              i in Has(back.views[m], c)
    ensures forall m :: 0 <= m < j && Undone(old(back.views)[m]) ==> Undone(back.views[m])
  {
    hide Shows, Bounded, Has, Sane, Exact, Backed, BackDealt, Settled, Left, Grew, Undone;
    while back.states[j].first >= 0
      invariant Paired(forth, back) && |back.states| == old(|back.states|)
      invariant Backed(t, toks, forth.views, back.views, j)
      invariant forall m: nat, c: nat, i: nat :: m < |back.views| && i in Has(old(back.views)[m], c) ==>
                  i in Has(back.views[m], c)
      invariant forall m :: 0 <= m < j && Undone(old(back.views)[m]) ==> Undone(back.views[m])
      decreases Left(back.views[j], j)
    {
      ghost var views, st := back.views, back.states[j];
      BackDeal(forth, back, t, j);
      BackedDealt(t, toks, forth.views, views, j);
      BackDealtGrew(t, forth.views, views, j);
      LeftShrinks(st, views[j], back.views[j], j);
      forall m: nat, c: nat, i: nat | m < |views| && i in Has(views[m], c) ensures i in Has(back.views[m], c) {
        BackDealtHas(t, forth.views, views, j, m, c, i);
      }
      forall m | 0 <= m < j && Undone(views[m]) ensures Undone(back.views[m]) {
        UndoneGrew(views[m], back.views[m]);
      }
    }
    NoneFirst(back.states[j], j, back.views[j]);
  }

  // ----- every item of a whole parse is copied -----

  lemma {:induction false} ReachedBounds(t: Tables, toks: seq<seq<nat>>, f: nat, n: nat, c: nat, i: nat)
    requires Reached(t, toks, f, n, c, i)
    ensures i <= n <= |toks|
    decreases f
  {
    if !Given(t, toks, n, c, i) {
      var f' := f - 1;
      if i == n && exists p: nat, h: nat :: Reached(t, toks, f', n, p, h) && Starts(t, c, p) {
        var p: nat, h: nat :| Reached(t, toks, f', n, p, h) && Starts(t, c, p);
        ReachedBounds(t, toks, f', n, p, h);
      } else {
        var e: nat, k: nat :| Reached(t, toks, f', n, e, k) && Reached(t, toks, f', k, c - 1, i) && Ends(t, e, c - 1);
        ReachedBounds(t, toks, f', n, e, k);
        ReachedBounds(t, toks, f', k, c - 1, i);
      }
    }
  }

  lemma ItemBounds(t: Tables, toks: seq<seq<nat>>, n: nat, c: nat, i: nat)
    requires Item(t, toks, n, c, i)
    ensures i <= n <= |toks|
  {
    hide Reached;
    var f: nat :| Reached(t, toks, f, n, c, i);
    ReachedBounds(t, toks, f, n, c, i);
  }

  /** The second table has the ends of the first nonterminal, and everything has been traced back. */
  ghost predicate AllTraced(t: Tables, toks: seq<seq<nat>>, fw: seq<View>, views: seq<View>) {
    && Exact(t, toks, fw) && Matching(fw, views, |t.steps|)
    && (forall m :: 0 <= m < |views| ==> Settled(views[m]) && Traced(t, fw, views, m))
    && (t.enders != [] ==> forall e: nat :: e in t.enders[0] && 0 in Has(fw[|toks|], e) ==> 0 in Has(views[|toks|], e))
  }

  lemma {:induction false} UsedFound(t: Tables, toks: seq<seq<nat>>, fw: seq<View>, views: seq<View>, f: nat, n: nat,
                                     c: nat, i: nat)
    requires AllTraced(t, toks, fw, views) && UsedWithin(t, toks, f, n, c, i)
    ensures n < |views| && i in Has(views[n], c)
    decreases f
  {
    hide Has, Item, Ends, Settled, Traced;
    ItemBounds(t, toks, n, c, i);
    if !(n == |toks| && i == 0 && t.enders != [] && c in t.enders[0]) {
      var g := f - 1;
      if exists m: nat, e: nat :: UsedWithin(t, toks, g, m, c + 1, i) && Ends(t, e, c) && Item(t, toks, m, e, n) {
        var m: nat, e: nat :| UsedWithin(t, toks, g, m, c + 1, i) && Ends(t, e, c) && Item(t, toks, m, e, n);
        UsedFound(t, toks, fw, views, g, m, c + 1, i);
        TraceOne(t, toks, fw, views, m, c, i, e, n);
      } else {
        var p: nat, h: nat :| UsedWithin(t, toks, g, n, p + 1, h) && Ends(t, c, p) && Item(t, toks, i, p, h);
        UsedFound(t, toks, fw, views, g, n, p + 1, h);
        TraceOne(t, toks, fw, views, n, p, h, c, i);
      }
    }
  }

  lemma TraceOne(t: Tables, toks: seq<seq<nat>>, fw: seq<View>, views: seq<View>, n: nat, p: nat, i: nat, e: nat,
                 k: nat)
    requires AllTraced(t, toks, fw, views) && n < |views| && i in Has(views[n], p + 1)
    requires Ends(t, e, p) && Item(t, toks, n, e, k) && Item(t, toks, k, p, i)
    ensures k < |views| && i in Has(views[k], p) && k in Has(views[n], e)
  {
    hide Item, Settled, Has;
    ItemBounds(t, toks, n, e, k);
    HasKnown(views[n], p + 1, i);
    HasKnown(fw[n], e, k);
    SettledDone(views[n], p + 1);
    SettledDone(fw[n], e);
    assert TracedOver(fw, views, n, e, p);
  }

  lemma HasKnown(v: View, c: nat, i: nat)
    requires i in Has(v, c)
    ensures c < |v.lists|
  {
  }

  /** The ends of the first nonterminal behind the last word. */
  method BackGoal(forth: Chart, back: Chart, t: Tables, n: nat, l: seq<nat>, ghost toks: seq<seq<nat>>)
    requires Paired(forth, back) && n == |toks| && |back.states| == n + 1 && back.nbConfs == |t.steps|
    requires Below(l, |t.steps|)
    requires Exact(t, toks, forth.views) && (l == if t.enders == [] then [] else t.enders[0])
    requires AllUsed(t, toks, back.views) && forall m :: 0 <= m <= n ==> Undone(back.views[m])
    modifies back
    ensures Paired(forth, back) && |back.states| == n + 1 && AllUsed(t, toks, back.views)
    ensures forall m :: 0 <= m <= n ==> Undone(back.views[m])
    ensures forall e: nat :: e in l && 0 in Has(forth.views[n], e) ==> 0 in Has(back.views[n], e)
  {
    hide Shows, Bounded, Has, Undone, Settled, Item, Copied;
    var q := 0;
    while q < |l|
      invariant 0 <= q <= |l| && Paired(forth, back) && |back.states| == n + 1 && AllUsed(t, toks, back.views)
      invariant forall m :: 0 <= m <= n ==> Undone(back.views[m])
      invariant forall e: nat :: e in l[..q] && 0 in Has(forth.views[n], e) ==> 0 in Has(back.views[n], e)
    {
      ghost var views := back.views;
      CopiedHas(forth.views, views, n, l[q], 0, |t.steps|);
      var ok := Copy(forth, back, n, l[q], 0);
      assert 0 in Has(forth.views[n], l[q]) ==> UsedWithin(t, toks, 0, n, l[q], 0);
      forall m | 0 <= m <= n ensures Undone(back.views[m]) {
        UndoneGrew(views[m], back.views[m]);
      }
      forall e: nat | e in l[..q + 1] && 0 in Has(forth.views[n], e) ensures 0 in Has(back.views[n], e) {
        GrewHas(views[n], back.views[n], e, 0);
        assert e in l[..q] || e == l[q];
      }
      q := q + 1;
    }
  }

  /** The backward pass fills the second table with exactly the items of whole parses. */
  method Backward(forth: Chart, t: Tables, toks: seq<seq<nat>>) returns (back: Chart)
    requires forth.Valid() && Sane(t) && |forth.states| == |toks| + 1 && forth.nbConfs == |t.steps|
    requires Exact(t, toks, forth.views)
    ensures fresh(back) && back.Valid() && |back.states| == |toks| + 1 && back.nbConfs == |t.steps|
    ensures Inhabited(back.states, back.views) && forall n :: 0 <= n <= |toks| ==> Settled(back.views[n])
    ensures forall n: nat, c: nat, i: nat :: n <= |toks| ==> (i in Has(back.views[n], c) <==> Used(t, toks, n, c, i))
  {
    hide Shows, Has, Undone, Settled, Item, Used, Traced, Sane, Bounded;
    back := new Chart(|toks|, |t.steps|);
    EmptyPaired(back.states, back.views, |t.steps|);
    WithinStates(forth.states, forth.views);
    var n := |toks|;
    var goal := if t.enders == [] then [] else t.enders[0];
    GoalEnders(t);
    BackGoal(forth, back, t, n, goal, toks);
    var i: int := n;
    while i >= 0
      invariant -1 <= i <= n && Paired(forth, back) && |back.states| == n + 1 && AllUsed(t, toks, back.views)
      invariant forall m :: i < m <= n ==> Traced(t, forth.views, back.views, m) && Settled(back.views[m])
      invariant forall m :: 0 <= m <= i ==> Undone(back.views[m])
      invariant forall e: nat :: e in goal && 0 in Has(forth.views[n], e) ==> 0 in Has(back.views[n], e)
    {
      UndoneTraced(t, forth.views, back.views, i);
      BackState(forth, back, t, i, toks);
      i := i - 1;
    }
    forall n: nat, c: nat, i: nat | n <= |toks| ensures i in Has(back.views[n], c) <==> Used(t, toks, n, c, i) {
      UsedExactly(t, toks, forth.views, back.views, n, c, i);
    }
  }

  lemma EmptyPaired(states: seq<State>, views: seq<View>, cs: nat)
    requires |views| == |states| && forall n :: 0 <= n < |views| ==> views[n] == View(seq(cs, _ => NO_LISTS), [])
    requires forall n, c :: 0 <= n < |states| && 0 <= c < |states[n].sets| ==> states[n].sets[c].None?
    ensures Inhabited(states, views) && SameShape(views, cs) && forall n :: 0 <= n < |views| ==> Undone(views[n])
    ensures forall n: nat, c: nat, i: nat :: n < |views| ==> i !in Has(views[n], c)
  {
  }

  lemma WithinStates(states: seq<State>, views: seq<View>)
    requires |states| == |views| && forall n :: 0 <= n < |views| ==> Shows(states[n], n, views[n])
    ensures Bounded(views)
  {
    hide Shows, Has;
    forall m: nat, c: nat, i: nat | m < |views| && i in Has(views[m], c) ensures i <= m {
      WithinState(states[m], m, views[m]);
    }
  }

  lemma GoalEnders(t: Tables)
    requires Sane(t)
    ensures t.enders != [] ==> Below(t.enders[0], |t.steps|)
  {
    if t.enders != [] { PredsKnown(t, 0); }
  }

  lemma UsedExactly(t: Tables, toks: seq<seq<nat>>, fw: seq<View>, views: seq<View>, n: nat, c: nat, i: nat)
    requires AllTraced(t, toks, fw, views) && AllUsed(t, toks, views) && n < |views|
    ensures i in Has(views[n], c) <==> Used(t, toks, n, c, i)
  {
    hide AllTraced, Has, UsedWithin;
    if Used(t, toks, n, c, i) {
      var f: nat :| UsedWithin(t, toks, f, n, c, i);
      UsedFound(t, toks, fw, views, f, n, c, i);
    }
  }
}
