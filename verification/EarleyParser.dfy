/**
 The forward pass of an Earley parse (demo/v8_benchmark.js, 8426-8534 and 8783-8797): every state is
 worked off until nothing is left to deal with. It fills the table with exactly the items that the
 rules of prediction and completion give.
 */
module EarleyParsers {
  import opened EarleyCells
  import opened EarleyCharts
  import opened EarleyTables
  import opened Options

  /** What the parser relies on in its tables. */
  ghost predicate Sane(t: Tables) {
    && |t.starters| == |t.enders| == |t.predictors| == |t.nts| <= |t.steps|
    && (forall b :: 0 <= b < |t.nts| ==> Below(t.starters[b], |t.steps|))
    && Listed(t.enders, t.predictors, t.steps)
    && (forall c :: 0 <= c < |t.steps| ==>
          -|t.nts| <= t.steps[c] < |t.nts| && (t.steps[c] >= 0 ==> |t.nts| <= c && c + 1 < |t.steps|))
  }

  // ----- the items -----

  /** Configuration e ends a rule for the nonterminal behind configuration p. */
  ghost predicate Ends(t: Tables, e: nat, p: nat) {
    e < |t.steps| && p < |t.steps| && t.steps[p] >= 0 && t.steps[e] == t.steps[p] - |t.nts|
  }

  /** Configuration s starts a rule for the nonterminal behind configuration p. */
  ghost predicate Starts(t: Tables, s: nat, p: nat) {
    p < |t.steps| && 0 <= t.steps[p] < |t.starters| && s in t.starters[t.steps[p]]
  }

  /** The items that state n starts from: the first nonterminal starts, a token has ended. */
  ghost predicate Given(t: Tables, toks: seq<seq<nat>>, n: nat, c: nat, i: nat) {
    if n == 0 then i == 0 && t.starters != [] && c in t.starters[0]
    else n <= |toks| && i == n - 1 && c in toks[n - 1]
  }

  /**
   Configuration c, started at i, is reached at n by at most f rules: what stands behind a configuration
   that has been reached starts, and what has ended is passed.
   */
  ghost predicate Reached(t: Tables, toks: seq<seq<nat>>, f: nat, n: nat, c: nat, i: nat)
    decreases f
  {
    || Given(t, toks, n, c, i)
    || (f > 0 && i == n && var g := f - 1; exists p: nat, h: nat :: Reached(t, toks, g, n, p, h) && Starts(t, c, p))
    || (f > 0 && c > 0 && var g := f - 1; exists e: nat, k: nat ::
          Reached(t, toks, g, n, e, k) && Reached(t, toks, g, k, c - 1, i) && Ends(t, e, c - 1))
  }

  ghost predicate Item(t: Tables, toks: seq<seq<nat>>, n: nat, c: nat, i: nat) {
    exists f: nat :: Reached(t, toks, f, n, c, i)
  }

  lemma {:induction false} ReachedLater(t: Tables, toks: seq<seq<nat>>, f: nat, g: nat, n: nat, c: nat, i: nat)
    requires Reached(t, toks, f, n, c, i) && f <= g
    ensures Reached(t, toks, g, n, c, i)
    decreases f
  {
    if !Given(t, toks, n, c, i) {
      var f' := f - 1;
      if i == n && exists p: nat, h: nat :: Reached(t, toks, f', n, p, h) && Starts(t, c, p) {
        var p: nat, h: nat :| Reached(t, toks, f', n, p, h) && Starts(t, c, p);
        ReachedLater(t, toks, f', g - 1, n, p, h);
      } else {
        var e: nat, k: nat :| Reached(t, toks, f', n, e, k) && Reached(t, toks, f', k, c - 1, i) && Ends(t, e, c - 1);
        ReachedLater(t, toks, f', g - 1, n, e, k);
        ReachedLater(t, toks, f', g - 1, k, c - 1, i);
      }
    }
  }

  lemma ItemStart(t: Tables, toks: seq<seq<nat>>, n: nat, c: nat, h: nat, s: nat)
    requires Item(t, toks, n, c, h) && Starts(t, s, c)
    ensures Item(t, toks, n, s, n)
  {
    var f: nat :| Reached(t, toks, f, n, c, h);
    assert Reached(t, toks, f + 1, n, s, n);
  }

  lemma ItemPass(t: Tables, toks: seq<seq<nat>>, n: nat, e: nat, k: nat, p: nat, i: nat)
    requires Item(t, toks, n, e, k) && Item(t, toks, k, p, i) && Ends(t, e, p)
    ensures Item(t, toks, n, p + 1, i)
  {
    var f: nat :| Reached(t, toks, f, n, e, k);
    var g: nat :| Reached(t, toks, g, k, p, i);
    var m := if f < g then g else f;
    ReachedLater(t, toks, f, m, n, e, k);
    ReachedLater(t, toks, g, m, k, p, i);
    assert Reached(t, toks, m + 1, n, p + 1, i);
  }

  ghost predicate Sound(t: Tables, toks: seq<seq<nat>>, n: nat, v: View) {
    forall c: nat, i: nat :: i in Has(v, c) ==> Item(t, toks, n, c, i)
  }

  ghost predicate AllSound(t: Tables, toks: seq<seq<nat>>, views: seq<View>) {
    forall n :: 0 <= n < |views| ==> Sound(t, toks, n, views[n])
  }

  // ----- dealing with one configuration -----

  ghost predicate Shaped(t: Tables, views: seq<View>) {
    Sane(t) && forall n :: 0 <= n < |views| ==> |views[n].lists| == |t.steps|
  }

  lemma WithEachSound(t: Tables, toks: seq<seq<nat>>, n: nat, v: View, e: nat, k: nat, p: nat, xs: seq<nat>)
    requires Sound(t, toks, n, v) && p + 1 < |v.lists|
    requires Item(t, toks, n, e, k) && Ends(t, e, p) && forall x :: x in xs ==> Item(t, toks, k, p, x)
    ensures Sound(t, toks, n, WithEach(v, p + 1, xs))
  {
    hide WithEach, Has, Ends, Item;
    WithEachHas(v, p + 1, xs);
    forall c: nat, i: nat | i in Has(WithEach(v, p + 1, xs), c) ensures Item(t, toks, n, c, i) {
      if c == p + 1 && i !in Has(v, c) {
        ItemPass(t, toks, n, e, k, p, i);
      }
    }
  }

  lemma {:induction false} WithEndersSound(t: Tables, toks: seq<seq<nat>>, n: nat, v: View, c: nat, l: seq<nat>)
    requires Sound(t, toks, n, v) && c + 1 < |v.lists| && forall e :: e in l ==> Ends(t, e, c)
    ensures Sound(t, toks, n, WithEnders(v, c, l, n))
    decreases l
  {
    hide WithEach, Has, Ends, Item;
    if l != [] {
      if n in Has(v, l[0]) {
        DoneHas(v, c);
        WithEachSound(t, toks, n, v, l[0], n, c, v.lists[c].done);
        WithEndersSound(t, toks, n, WithEach(v, c + 1, v.lists[c].done), c, l[1..]);
      } else {
        WithEndersSound(t, toks, n, v, c, l[1..]);
      }
    }
  }

  lemma DoneHas(v: View, c: nat)
    requires c < |v.lists|
    ensures forall i :: i in v.lists[c].done ==> i in Has(v, c)
  {
  }

  lemma {:induction false} WithEndersHas(v: View, c: nat, l: seq<nat>, n: nat, e: nat, i: nat)
    requires c + 1 < |v.lists|
    ensures Grew(v, WithEnders(v, c, l, n))
    ensures e in l && n in Has(v, e) && i in v.lists[c].done ==> i in Has(WithEnders(v, c, l, n), c + 1)
    decreases l
  {
    hide WithEach, Has;
    if l != [] {
      assert l == [l[0]] + l[1..];
      var w := if n in Has(v, l[0]) then WithEach(v, c + 1, v.lists[c].done) else v;
      WithEachHas(v, c + 1, v.lists[c].done);
      WithEndersHas(w, c, l[1..], n, e, i);
      GrewTrans(v, w, WithEnders(v, c, l, n));
      GrewHas(v, w, e, n);
      GrewHas(w, WithEnders(v, c, l, n), c + 1, i);
    }
  }

  lemma GrewHas(v: View, r: View, c: nat, i: nat)
    requires Grew(v, r)
    ensures i in Has(v, c) ==> i in Has(r, c)
  {
    if c < |v.lists| {
      var k := |v.lists[c].waiting|;
      assert r.lists[c].waiting == v.lists[c].waiting + r.lists[c].waiting[k..];
    }
  }

  lemma DoneAtSound(t: Tables, toks: seq<seq<nat>>, views: seq<View>, n: nat, v: View, k: nat, p: nat)
    requires AllSound(t, toks, views) && Sound(t, toks, n, v)
    ensures forall i :: i in DoneAt(views, v, n, k, p) ==> Item(t, toks, k, p, i)
  {
    hide Item;
    var w := if k == n || k >= |views| then v else views[k];
    assert k == n || k >= |views| || Sound(t, toks, k, views[k]);
    if p < |w.lists| { DoneHas(w, p); }
  }

  lemma {:induction false} WithPredSound(t: Tables, toks: seq<seq<nat>>, views: seq<View>, n: nat, v: View, e: nat,
                                         p: nat, ks: seq<nat>)
    requires AllSound(t, toks, views) && Sound(t, toks, n, v) && p + 1 < |v.lists| && Ends(t, e, p)
    requires forall k :: k in ks ==> Item(t, toks, n, e, k)
    ensures Sound(t, toks, n, WithPred(views, v, n, p, ks))
    decreases ks
  {
    hide WithEach, Has, Ends, Item, DoneAt, Sound, AllSound;
    if ks != [] {
      var xs := DoneAt(views, v, n, ks[0], p);
      DoneAtSound(t, toks, views, n, v, ks[0], p);
      WithEachSound(t, toks, n, v, e, ks[0], p, xs);
      WithPredSound(t, toks, views, n, WithEach(v, p + 1, xs), e, p, ks[1..]);
    }
  }

  lemma {:induction false} WithPredsSound(t: Tables, toks: seq<seq<nat>>, views: seq<View>, n: nat, v: View, e: nat,
                                          l: seq<nat>, ks: seq<nat>)
    requires AllSound(t, toks, views) && Sound(t, toks, n, v)
    requires forall k :: 0 <= k < |l| ==> l[k] + 1 < |v.lists| && Ends(t, e, l[k])
    requires forall k :: k in ks ==> Item(t, toks, n, e, k)
    ensures Sound(t, toks, n, WithPreds(views, v, n, l, ks))
    decreases l
  {
    hide WithPred, Ends, Item, Sound, AllSound;
    if l != [] {
      WithPredSound(t, toks, views, n, v, e, l[0], ks);
      WithPredsSound(t, toks, views, n, WithPred(views, v, n, l[0], ks), e, l[1..], ks);
    }
  }

  lemma {:induction false} WithPredHas(views: seq<View>, v: View, n: nat, p: nat, ks: seq<nat>, k: nat, i: nat)
    requires p + 1 < |v.lists|
    ensures Grew(v, WithPred(views, v, n, p, ks))
    ensures k in ks && i in DoneAt(views, v, n, k, p) ==> i in Has(WithPred(views, v, n, p, ks), p + 1)
    decreases ks
  {
    hide WithEach, Has;
    if ks != [] {
      assert ks == [ks[0]] + ks[1..];
      var xs := DoneAt(views, v, n, ks[0], p);
      var w := WithEach(v, p + 1, xs);
      WithEachHas(v, p + 1, xs);
      WithPredHas(views, w, n, p, ks[1..], k, i);
      GrewTrans(v, w, WithPred(views, v, n, p, ks));
      GrewHas(w, WithPred(views, v, n, p, ks), p + 1, i);
    }
  }

  lemma {:induction false} WithPredsHas(views: seq<View>, v: View, n: nat, l: seq<nat>, ks: seq<nat>, p: nat, k: nat,
                                        i: nat)
    requires forall q :: 0 <= q < |l| ==> l[q] + 1 < |v.lists|
    ensures Grew(v, WithPreds(views, v, n, l, ks))
    ensures p in l && k in ks && i in DoneAt(views, v, n, k, p) ==> i in Has(WithPreds(views, v, n, l, ks), p + 1)
    decreases l
  {
    hide WithPred, Has;
    if l != [] {
      assert l == [l[0]] + l[1..];
      var w := WithPred(views, v, n, l[0], ks);
      WithPredHas(views, v, n, l[0], ks, k, i);
      WithPredsHas(views, w, n, l[1..], ks, p, k, i);
      GrewTrans(v, w, WithPreds(views, v, n, l, ks));
      GrewHas(w, WithPreds(views, v, n, l, ks), p + 1, i);
    }
  }

  /** State n when its first configuration has been dealt with. */
  ghost function Dealt(t: Tables, views: seq<View>, n: nat): (r: View)
    requires Shaped(t, views) && n < |views| && views[n].agenda != [] && views[n].agenda[0] < |t.steps|
    ensures |r.lists| == |t.steps|
  {
    var v, c := Popped(views[n]), views[n].agenda[0];
    var b := t.steps[c];
    if b >= 0 then WithEnders(WithAll(v, t.starters[b], n), c, t.enders[b], n)
    else
      var preds := t.predictors[b + |t.nts|];
      PredsKnown(t, b + |t.nts|);
      WithPreds(views[n := v], v, n, preds, views[n].lists[c].waiting)
  }

  lemma PredsKnown(t: Tables, b: nat)
    requires Sane(t) && b < |t.nts|
    ensures forall p: nat :: p in t.predictors[b] <==> p < |t.steps| && t.steps[p] == b
    ensures forall k :: 0 <= k < |t.predictors[b]| ==> t.predictors[b][k] + 1 < |t.steps|
    ensures forall e: nat :: e in t.enders[b] <==> e < |t.steps| && t.steps[e] == b - |t.nts|
    ensures Below(t.enders[b], |t.steps|)
  {
    assert ListedAt(t.enders, t.predictors, t.steps, b);
    forall k | 0 <= k < |t.predictors[b]| ensures t.predictors[b][k] + 1 < |t.steps| {
      assert t.predictors[b][k] in t.predictors[b];
    }
    forall k | 0 <= k < |t.enders[b]| ensures t.enders[b][k] < |t.steps| {
      assert t.enders[b][k] in t.enders[b];
    }
  }

  lemma PoppedHas(v: View)
    requires v.agenda != [] && v.agenda[0] < |v.lists|
    ensures |Popped(v).lists| == |v.lists| && forall c: nat :: Has(Popped(v), c) == Has(v, c)
  {
    var s := v.lists[v.agenda[0]];
    assert s.All() + [] == s.All();
  }

  lemma StartersSound(t: Tables, toks: seq<seq<nat>>, n: nat, v: View, c: nat, h: nat)
    requires Sane(t) && Sound(t, toks, n, v) && Item(t, toks, n, c, h) && |v.lists| == |t.steps|
    requires c < |t.steps| && t.steps[c] >= 0
    ensures Sound(t, toks, n, WithAll(v, t.starters[t.steps[c]], n))
  {
    hide WithAll, Has, Item, Listed;
    var l := t.starters[t.steps[c]];
    WithAllHas(v, l, n);
    forall d: nat, i: nat | i in Has(WithAll(v, l, n), d) ensures Item(t, toks, n, d, i) {
      if i !in Has(v, d) { ItemStart(t, toks, n, c, h, d); }
    }
  }

  lemma DealtSound(t: Tables, toks: seq<seq<nat>>, views: seq<View>, n: nat)
    requires Shaped(t, views) && n < |views| && views[n].agenda != [] && views[n].agenda[0] < |t.steps|
    requires AllSound(t, toks, views) && views[n].lists[views[n].agenda[0]].waiting != []
    ensures Sound(t, toks, n, Dealt(t, views, n))
  {
    hide Item, Has, WithEnders, WithAll, WithPreds, Popped, Listed;
    var v, c := Popped(views[n]), views[n].agenda[0];
    var b, ks := t.steps[c], views[n].lists[c].waiting;
    PoppedHas(views[n]);
    WaitingHas(views[n], c);
    assert Sound(t, toks, n, views[n]);
    assert Sound(t, toks, n, v);
    if b >= 0 {
      StartersSound(t, toks, n, v, c, ks[0]);
      PredsKnown(t, b);
      WithEndersSound(t, toks, n, WithAll(v, t.starters[b], n), c, t.enders[b]);
    } else {
      PredsKnown(t, b + |t.nts|);
      var l := t.predictors[b + |t.nts|];
      forall k | 0 <= k < |l| ensures Ends(t, c, l[k]) { assert l[k] in l; }
      WithPredsSound(t, toks, views[n := v], n, v, c, l, ks);
    }
  }

  lemma WaitingHas(v: View, c: nat)
    requires c < |v.lists|
    ensures forall i :: i in v.lists[c].waiting ==> i in Has(v, c)
  {
  }

  // ----- what has been deduced -----

  /** What stands behind a configuration dealt with has been started. */
  ghost predicate Predicted(t: Tables, v: View, n: nat, c: nat) {
    c < |v.lists| && v.lists[c].done != [] ==> forall s: nat :: Starts(t, s, c) ==> n in Has(v, s)
  }

  /** Configuration p, dealt with in state k, has been passed in state n if e, dealt with there, started at k. */
  ghost predicate Passed(t: Tables, views: seq<View>, v: View, n: nat, e: nat, p: nat) {
    Ends(t, e, p) && e < |v.lists| ==>
      forall k: nat, i: nat :: k in v.lists[e].done && i in DoneAt(views, v, n, k, p) ==> i in Has(v, p + 1)
  }

  ghost predicate Deduced(t: Tables, views: seq<View>, v: View, n: nat) {
    && (forall c: nat :: Predicted(t, v, n, c))
    && (forall e: nat, p: nat :: Passed(t, views, v, n, e, p))
  }

  lemma DealtDeduced(t: Tables, views: seq<View>, n: nat)
    requires Shaped(t, views) && n < |views| && views[n].agenda != [] && views[n].agenda[0] < |t.steps|
    requires Deduced(t, views, views[n], n)
    ensures Deduced(t, views, Dealt(t, views, n), n) && Grew(Popped(views[n]), Dealt(t, views, n))
  {
    hide Dealt, Popped, Grew, Has, Starts, Ends, Shaped;
    var r := Dealt(t, views, n);
    DealtGrew(t, views, n);
    forall c: nat ensures Predicted(t, r, n, c) {
      DealtPredicted(t, views, n, c);
    }
    forall e: nat, p: nat ensures Passed(t, views, r, n, e, p) {
      forall k: nat, i: nat | Ends(t, e, p) && e < |r.lists| && k in r.lists[e].done && i in DoneAt(views, r, n, k, p)
        ensures i in Has(r, p + 1)
      {
        DealtPassed(t, views, n, e, p, k, i);
      }
    }
  }

  lemma DealtGrew(t: Tables, views: seq<View>, n: nat)
    requires Shaped(t, views) && n < |views| && views[n].agenda != [] && views[n].agenda[0] < |t.steps|
    ensures Grew(Popped(views[n]), Dealt(t, views, n))
  {
    hide Has, WithEnders, WithAll, WithPreds, Popped, Listed;
    var v, c := Popped(views[n]), views[n].agenda[0];
    PoppedHas(views[n]);
    var b := t.steps[c];
    if b >= 0 {
      WithAllHas(v, t.starters[b], n);
      WithEndersHas(WithAll(v, t.starters[b], n), c, t.enders[b], n, 0, 0);
      GrewTrans(v, WithAll(v, t.starters[b], n), Dealt(t, views, n));
    } else {
      PredsKnown(t, b + |t.nts|);
      WithPredsHas(views[n := v], v, n, t.predictors[b + |t.nts|], views[n].lists[c].waiting, 0, 0, 0);
    }
  }

  lemma DealtHas(t: Tables, views: seq<View>, n: nat, c: nat, i: nat)
    requires Shaped(t, views) && n < |views| && views[n].agenda != [] && views[n].agenda[0] < |t.steps|
    ensures i in Has(views[n], c) ==> i in Has(Dealt(t, views, n), c)
  {
    hide Has, Dealt, Popped;
    DealtGrew(t, views, n);
    PoppedHas(views[n]);
    GrewHas(Popped(views[n]), Dealt(t, views, n), c, i);
  }

  lemma DealtPredicted(t: Tables, views: seq<View>, n: nat, d: nat)
    requires Shaped(t, views) && n < |views| && views[n].agenda != [] && views[n].agenda[0] < |t.steps|
    requires Deduced(t, views, views[n], n)
    ensures Predicted(t, Dealt(t, views, n), n, d)
  {
    hide Has, WithEnders, WithAll, WithPreds, Listed;
    var v, c, r := Popped(views[n]), views[n].agenda[0], Dealt(t, views, n);
    DealtGrew(t, views, n);
    PoppedHas(views[n]);
    forall s: nat | d < |r.lists| && r.lists[d].done != [] && Starts(t, s, d) ensures n in Has(r, s) {
      if d == c {
        var w := WithAll(v, t.starters[t.steps[c]], n);
        WithAllHas(v, t.starters[t.steps[c]], n);
        WithEndersHas(w, c, t.enders[t.steps[c]], n, 0, 0);
        GrewHas(w, r, s, n);
      } else {
        assert Predicted(t, views[n], n, d);
        DealtHas(t, views, n, s, n);
      }
    }
  }

  lemma DealtPassed(t: Tables, views: seq<View>, n: nat, e: nat, p: nat, k: nat, i: nat)
    requires Shaped(t, views) && n < |views| && views[n].agenda != [] && views[n].agenda[0] < |t.steps|
    requires Deduced(t, views, views[n], n)
    requires
      var r := Dealt(t, views, n);
      Ends(t, e, p) && e < |r.lists| && k in r.lists[e].done && i in DoneAt(views, r, n, k, p)
    ensures i in Has(Dealt(t, views, n), p + 1)
  {
    hide Has, WithEnders, WithAll, WithPreds, Listed;
    var v0 := views[n];
    var v, c, r := Popped(v0), v0.agenda[0], Dealt(t, views, n);
    DealtGrew(t, views, n);
    if k in v0.lists[e].done && i in DoneAt(views, v0, n, k, p) {
      assert Passed(t, views, v0, n, e, p);
      DealtHas(t, views, n, p + 1, i);
    } else if e == c {
      PredsKnown(t, t.steps[c] + |t.nts|);
      WithPredsHas(views[n := v], v, n, t.predictors[t.steps[c] + |t.nts|], v0.lists[c].waiting, p, k, i);
    } else {
      assert p == c && k == n;
      PredsKnown(t, t.steps[c]);
      var w := WithAll(v, t.starters[t.steps[c]], n);
      WithAllHas(v, t.starters[t.steps[c]], n);
      DoneHas(v, e);
      GrewHas(v, w, e, n);
      WithEndersHas(w, c, t.enders[t.steps[c]], n, e, i);
    }
  }

  // ----- the forward pass -----

  /** Deals with the first configuration of state n. */
  method Deal(chart: Chart, t: Tables, n: nat)
    requires chart.Valid() && Shaped(t, chart.views) && n < |chart.states| && chart.nbConfs == |t.steps|
    requires chart.states[n].first >= 0
    modifies chart
    ensures chart.Valid()
    ensures
      var v := old(chart.views[n]);
      && v.agenda != [] && v.agenda[0] < |t.steps|
      && chart.views == old(chart.views)[n := Dealt(t, old(chart.views), n)]
  {
    hide Shows, Listed, WithEnders, WithAll, WithPreds, Has;
    ghost var v := chart.views[n];
    var c, head := chart.Pop(n);
    var step := t.steps[c];
    if step >= 0 {
      PredsKnown(t, step);
      chart.AdjoinAll(n, t.starters[step], n);
      chart.PassEnded(n, c, t.enders[step]);
    } else {
      PredsKnown(t, step + |t.nts|);
      chart.PassAll(n, c, head, t.predictors[step + |t.nts|], v.lists[c].done, v.lists[c].waiting);
    }
  }

  /** Positions not dealt with yet. */
  ghost function Left(v: View, n: nat): set<(nat, nat)> {
    set c: nat, i: nat | c < |v.lists| && i <= n && i !in v.lists[c].done :: (c, i)
  }

  lemma LeftShrinks(st: State, v: View, r: View, n: nat)
    requires Shows(st, n, v) && v.agenda != [] && v.agenda[0] < |v.lists| && Grew(Popped(v), r)
    ensures Left(r, n) < Left(v, n)
  {
    var c := v.agenda[0];
    assert c in v.agenda && SetShows(st, n, v.lists, c);
    var s := v.lists[c];
    var i := s.waiting[0];
    assert s.All()[|s.done|] == i && i in s.All();
    forall q | 0 <= q < |s.done| ensures s.done[q] != i {
      assert s.All()[q] == s.done[q];
    }
    assert (c, i) in Left(v, n) && (c, i) !in Left(r, n);
  }

  /** Nothing left to deal with. */
  ghost predicate Settled(v: View) { forall c :: 0 <= c < |v.lists| ==> v.lists[c].waiting == [] }

  lemma NoneFirst(st: State, n: nat, v: View)
    requires Shows(st, n, v) && st.first < 0
    ensures Settled(v)
  {
  }

  lemma DeducedOthers(t: Tables, views: seq<View>, views': seq<View>, v: View, n: nat)
    requires |views'| == |views| && forall k :: 0 <= k < |views| && k != n ==> views'[k] == views[k]
    requires Deduced(t, views, v, n)
    ensures Deduced(t, views', v, n)
  {
    hide Ends, Has, Predicted;
    forall e: nat, p: nat ensures Passed(t, views', v, n, e, p) {
      assert Passed(t, views, v, n, e, p);
      assert forall k: nat :: DoneAt(views', v, n, k, p) == DoneAt(views, v, n, k, p);
    }
  }

  /** forw: works off state n. */
  method Forward(chart: Chart, t: Tables, n: nat, ghost toks: seq<seq<nat>>)
    requires chart.Valid() && Shaped(t, chart.views) && n < |chart.states| && chart.nbConfs == |t.steps|
    requires AllSound(t, toks, chart.views) && Deduced(t, chart.views, chart.views[n], n)
    modifies chart
    ensures chart.Valid() && Shaped(t, chart.views) && |chart.states| == old(|chart.states|)
    ensures chart.views == old(chart.views)[n := chart.views[n]]
    ensures AllSound(t, toks, chart.views) && Deduced(t, chart.views, chart.views[n], n) && Settled(chart.views[n])
    ensures forall c: nat, i: nat :: i in Has(old(chart.views[n]), c) ==> i in Has(chart.views[n], c)
  {
    hide Shows, Deduced, Sound, Has, Popped, Dealt, Grew, Left, Sane, Settled;
    while chart.states[n].first >= 0
      invariant chart.Valid() && Shaped(t, chart.views) && |chart.states| == old(|chart.states|)
      invariant chart.views == old(chart.views)[n := chart.views[n]]
      invariant AllSound(t, toks, chart.views) && Deduced(t, chart.views, chart.views[n], n)
      invariant forall c: nat, i: nat :: i in Has(old(chart.views[n]), c) ==> i in Has(chart.views[n], c)
      decreases Left(chart.views[n], n)
    {
      ghost var views, st := chart.views, chart.states[n];
      Waits(st, n, views[n]);
      DealtSound(t, toks, views, n);
      DealtDeduced(t, views, n);
      LeftShrinks(st, views[n], Dealt(t, views, n), n);
      forall c: nat, i: nat | i in Has(views[n], c) ensures i in Has(Dealt(t, views, n), c) {
        DealtHas(t, views, n, c, i);
      }
      Deal(chart, t, n);
      DeducedOthers(t, views, chart.views, chart.views[n], n);
    }
    NoneFirst(chart.states[n], n, chart.views[n]);
  }

  lemma Waits(st: State, n: nat, v: View)
    requires Shows(st, n, v) && st.first >= 0
    ensures v.agenda != [] && v.agenda[0] < |v.lists| && v.lists[v.agenda[0]].waiting != []
  {
    AgendaFacts(st, n, v);
    assert v.agenda[0] in v.agenda;
  }

  /** State n holds what it starts from and everything deduced, and nothing is left to do. */
  ghost predicate Complete(t: Tables, toks: seq<seq<nat>>, views: seq<View>, n: nat)
    requires n < |views|
  {
    && Settled(views[n]) && Deduced(t, views, views[n], n) && |views[n].lists| == |t.steps|
    && (forall c: nat, i: nat :: Given(t, toks, n, c, i) ==> i in Has(views[n], c))
    && (forall c: nat, i: nat :: i in Has(views[n], c) ==> i <= n)
  }

  lemma SettledDone(v: View, c: nat)
    requires Settled(v) && c < |v.lists|
    ensures Has(v, c) == v.lists[c].done
  {
  }

  /** Every item is found. */
  lemma {:induction false} ReachedFound(t: Tables, toks: seq<seq<nat>>, views: seq<View>, f: nat, n: nat, c: nat,
                                        i: nat)
    requires Reached(t, toks, f, n, c, i)
    requires n < |views| && forall m :: 0 <= m < |views| ==> Complete(t, toks, views, m)
    ensures i in Has(views[n], c)
    decreases f
  {
    hide Has, Settled, Starts, Ends;
    var v := views[n];
    assert Complete(t, toks, views, n);
    if !Given(t, toks, n, c, i) {
      var f' := f - 1;
      if i == n && exists p: nat, h: nat :: Reached(t, toks, f', n, p, h) && Starts(t, c, p) {
        var p: nat, h: nat :| Reached(t, toks, f', n, p, h) && Starts(t, c, p);
        ReachedFound(t, toks, views, f', n, p, h);
        StartsKnown(t, c, p);
        SettledDone(v, p);
        assert Predicted(t, v, n, p);
      } else {
        var e: nat, k: nat :| Reached(t, toks, f', n, e, k) && Reached(t, toks, f', k, c - 1, i) && Ends(t, e, c - 1);
        ReachedFound(t, toks, views, f', n, e, k);
        ReachedFound(t, toks, views, f', k, c - 1, i);
        EndsKnown(t, e, c - 1);
        SettledDone(v, e);
        assert Complete(t, toks, views, k);
        SettledDone(views[k], c - 1);
        assert Passed(t, views, v, n, e, c - 1);
        assert i in DoneAt(views, v, n, k, c - 1);
        assert i in Has(v, c - 1 + 1);
      }
    }
  }

  lemma StartsKnown(t: Tables, s: nat, p: nat)
    requires Starts(t, s, p)
    ensures p < |t.steps|
  {
  }

  lemma EndsKnown(t: Tables, e: nat, p: nat)
    requires Ends(t, e, p)
    ensures e < |t.steps| && p < |t.steps|
  {
  }

  /** Later states do not matter. */
  lemma CompleteKept(t: Tables, toks: seq<seq<nat>>, views: seq<View>, views': seq<View>, n: nat)
    requires n < |views| == |views'| && Complete(t, toks, views, n) && forall k :: 0 <= k <= n ==> views'[k] == views[k]
    ensures Complete(t, toks, views', n)
  {
    hide Has, Settled, Ends, Predicted, Given;
    var v := views[n];
    forall e: nat, p: nat ensures Passed(t, views', v, n, e, p) {
      assert Passed(t, views, v, n, e, p);
      forall k: nat, i: nat | Ends(t, e, p) && e < |v.lists| && k in v.lists[e].done && i in DoneAt(views', v, n, k, p)
        ensures i in Has(v, p + 1)
      {
        DoneHas(v, e);
        assert k <= n && DoneAt(views', v, n, k, p) == DoneAt(views, v, n, k, p);
      }
    }
  }

  ghost predicate Untouched(t: Tables, v: View) { v == View(seq(|t.steps|, _ => NO_LISTS), []) }

  /** What state n starts from, before anything is dealt with. */
  lemma Begun(t: Tables, toks: seq<seq<nat>>, views: seq<View>, n: nat, v: View, l: seq<nat>, i: nat)
    requires Untouched(t, v) && Below(l, |t.steps|) && forall c: nat, x: nat :: Given(t, toks, n, c, x) <==>
               c in l && x == i
    ensures
      var r := WithAll(v, l, i);
      && Sound(t, toks, n, r) && Deduced(t, views, r, n) && |r.lists| == |t.steps|
      && (forall c: nat, x: nat :: Given(t, toks, n, c, x) ==> x in Has(r, c))
  {
    hide WithAll, Given, Starts, Ends;
    var r := WithAll(v, l, i);
    WithAllHas(v, l, i);
    forall c: nat, x: nat | x in Has(r, c) ensures Item(t, toks, n, c, x) {
      assert Given(t, toks, n, c, x);
      assert Reached(t, toks, 0, n, c, x);
    }
  }

  method FillState(chart: Chart, t: Tables, n: nat, l: seq<nat>, i: nat, ghost toks: seq<seq<nat>>)
    requires chart.Valid() && Shaped(t, chart.views) && n < |chart.states| && chart.nbConfs == |t.steps|
    requires AllSound(t, toks, chart.views) && Untouched(t, chart.views[n]) && Below(l, |t.steps|) && i <= n
    requires forall c: nat, x: nat :: Given(t, toks, n, c, x) <==> c in l && x == i
    modifies chart
    ensures chart.Valid() && Shaped(t, chart.views) && |chart.states| == old(|chart.states|)
    ensures chart.views == old(chart.views)[n := chart.views[n]]
    ensures AllSound(t, toks, chart.views) && Complete(t, toks, chart.views, n)
  {
    hide Shows, Deduced, Sound, Has, Untouched, Given, Settled, Sane, Item, WithAll;
    Begun(t, toks, chart.views, n, chart.views[n], l, i);
    ghost var views := chart.views;
    chart.AdjoinAll(n, l, i);
    DeducedOthers(t, views, chart.views, chart.views[n], n);
    Forward(chart, t, n, toks);
    WithinState(chart.states[n], n, chart.views[n]);
  }

  lemma WithinState(st: State, n: nat, v: View)
    requires Shows(st, n, v)
    ensures forall c: nat, i: nat :: i in Has(v, c) ==> i <= n
  {
    forall c: nat, i: nat | i in Has(v, c) ensures i <= n {
      assert SetShows(st, n, v.lists, c);
    }
  }

  /** The forward pass fills the table with exactly the items. */
  method Fill(t: Tables, toks: seq<seq<nat>>) returns (chart: Chart)
    requires Sane(t) && forall k :: 0 <= k < |toks| ==> Below(toks[k], |t.steps|)
    ensures fresh(chart) && chart.Valid() && |chart.states| == |toks| + 1 && chart.nbConfs == |t.steps|
    ensures forall n :: 0 <= n <= |toks| ==> Settled(chart.views[n])
    ensures forall n: nat, c: nat, i: nat :: n <= |toks| ==> (i in Has(chart.views[n], c) <==> Item(t, toks, n, c, i))
  {
    hide Shows, Sound, Has, Untouched, Settled, Sane, Item, Reached, Deduced;
    chart := new Chart(|toks|, |t.steps|);
    AllUntouched(t, toks, chart.views);
    GoalKnown(t);
    FillState(chart, t, 0, if t.starters == [] then [] else t.starters[0], 0, toks);
    for i := 0 to |toks|
      invariant chart.Valid() && |chart.states| == |toks| + 1 && Shaped(t, chart.views)
      invariant AllSound(t, toks, chart.views)
      invariant forall n :: 0 <= n <= i ==> Complete(t, toks, chart.views, n)
      invariant forall n :: i < n <= |toks| ==> Untouched(t, chart.views[n])
    {
      ghost var views := chart.views;
      FillState(chart, t, i + 1, toks[i], i, toks);
      forall n | 0 <= n <= i ensures Complete(t, toks, chart.views, n) {
        CompleteKept(t, toks, views, chart.views, n);
      }
    }
    forall n | 0 <= n <= |toks| ensures Settled(chart.views[n]) {
      assert Complete(t, toks, chart.views, n);
    }
    forall n: nat, c: nat, i: nat | n <= |toks| ensures i in Has(chart.views[n], c) <==> Item(t, toks, n, c, i) {
      Exactly(t, toks, chart.views, n, c, i);
    }
  }

  lemma GoalKnown(t: Tables)
    requires Sane(t)
    ensures t.starters != [] ==> Below(t.starters[0], |t.steps|)
  {
  }

  lemma AllUntouched(t: Tables, toks: seq<seq<nat>>, views: seq<View>)
    requires forall n :: 0 <= n < |views| ==> views[n] == View(seq(|t.steps|, _ => NO_LISTS), [])
    ensures AllSound(t, toks, views) && forall n :: 0 <= n < |views| ==> Untouched(t, views[n])
  {
  }

  lemma Exactly(t: Tables, toks: seq<seq<nat>>, views: seq<View>, n: nat, c: nat, i: nat)
    requires n < |views| && AllSound(t, toks, views) && forall m :: 0 <= m < |views| ==> Complete(t, toks, views, m)
    ensures i in Has(views[n], c) <==> Item(t, toks, n, c, i)
  {
    hide Complete, Has, Reached;
    assert Sound(t, toks, n, views[n]);
    if Item(t, toks, n, c, i) {
      var f: nat :| Reached(t, toks, f, n, c, i);
      ReachedFound(t, toks, views, f, n, c, i);
    }
  }
}
