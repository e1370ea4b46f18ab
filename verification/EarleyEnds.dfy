/**
 When parse->trees ends (demo/v8_benchmark.js, 8565-8664): exactly if the nonterminal has only finitely many
 derivation trees there, that is, trees of bounded size.
 */
module EarleyEnds {
  import opened EarleyBackward
  import opened EarleyCells
  import opened EarleyCharts
  import opened EarleyCounting
  import opened EarleyDerivations
  import opened EarleyLanguages
  import opened EarleyParsers
  import opened EarleyTables
  import opened Options
  import T = EarleyTrees

  // ----- the size of a tree -----

  function Weight(tr: T.Tree): (w: nat)
    ensures w >= 1
  {
    match tr
    case Branch(parts) => 1 + WeightAll(parts)
    case _ => 1
  }

  function WeightAll(ts: seq<T.Tree>): nat { if ts == [] then 0 else Weight(ts[0]) + WeightAll(ts[1..]) }

  lemma {:induction false} WeightOn(ts: seq<T.Tree>, tr: T.Tree)
    ensures WeightAll(ts + [tr]) == WeightAll(ts) + Weight(tr)
  {
    if ts == [] {
      assert ts + [tr] == [tr] && [tr][1..] == [];
    } else {
      assert (ts + [tr])[1..] == ts[1..] + [tr];
      WeightOn(ts[1..], tr);
    }
  }

  lemma JoinWeight(pt: T.Tree, et: T.Tree)
    requires pt.Branch?
    ensures Weight(Join(pt, et)) == Weight(pt) + Weight(et)
  {
    WeightOn(pt.parts, et);
  }

  // ----- every derivation has a tree -----

  lemma {:induction false} DerivesTree(g: seq<Def>, words: seq<seq<Symbol>>, texts: int -> string, f: nat, x: Symbol,
                                       k: nat, j: nat) returns (tr: T.Tree)
    requires Derives(g, words, f, x, k, j)
    ensures IsTree(g, words, texts, tr, x, k, j)
    decreases f, 0
  {
    hide IsTree, PrefixTree;
    if k < |words| && j == k + 1 && x in words[k] {
      tr := Leaf(x, texts(k));
    } else {
      var d: nat, r: nat :| IsRule(g, d, r) && g[d].head == x && DerivesAll(g, words, f - 1, g[d].rules[r], k, j);
      var xs := g[d].rules[r];
      assert xs[..|xs|] == xs;
      tr := DerivesPrefix(g, words, texts, f - 1, d, r, |xs|, k, j);
    }
    TreeOrLeaf(g, words, texts, tr, x, k, j);
  }

  lemma {:induction false} DerivesPrefix(g: seq<Def>, words: seq<seq<Symbol>>, texts: int -> string, f: nat, d: nat,
                                         r: nat, o: nat, k: nat, j: nat) returns (tr: T.Tree)
    requires IsRule(g, d, r) && o <= |g[d].rules[r]| && DerivesAll(g, words, f, g[d].rules[r][..o], k, j)
    ensures PrefixTree(g, words, texts, tr, d, r, o, k, j)
    decreases f, o + 1
  {
    hide IsTree, Derives;
    var xs := g[d].rules[r];
    if o == 0 {
      tr := T.Branch([T.Label(Name(g[d].head, r + 1))]);
      assert Cut([k], 0, k, j);
    } else {
      assert xs[..o][..o - 1] == xs[..o - 1] && xs[..o][o - 1] == xs[o - 1];
      var ys, y := xs[..o - 1], xs[o - 1];
      var m: nat :| DerivesAll(g, words, f, ys, k, m) && Derives(g, words, f, y, m, j);
      var pt := DerivesPrefix(g, words, texts, f, d, r, o - 1, k, m);
      var et := DerivesTree(g, words, texts, f, y, m, j);
      PrefixMore(g, words, texts, pt, et, d, r, o - 1, k, m, j);
      tr := Join(pt, et);
    }
  }

  lemma UsedHasTree(g: seq<Def>, t: Tables, words: seq<seq<Symbol>>, texts: int -> string, toks: seq<seq<nat>>, j: nat,
                    c: nat, i: nat) returns (tr: T.Tree)
    requires BuiltFrom(t, g) && Tokenized(t, words, toks) && Used(t, toks, j, c, i)
    ensures ConfTree(g, t, words, texts, tr, c, i, j)
  {
    hide BuiltFrom, Tokenized, Used, Item, PrefixTree, DerivesAll, StartOf;
    UsedIsItem(t, toks, j, c, i);
    ItemDenotes(g, t, words, toks, j, c, i);
    if c < |t.nts| && i < |words| && j == i + 1 && t.nts[c] in words[i] {
      tr := Leaf(t.nts[c], texts(i));
    } else {
      var d: nat, r: nat :| Behind(g, t, words, d, r, c, i, j);
      var o := c - StartOf(g, t, d, r);
      var f: nat :| DerivesAll(g, words, f, g[d].rules[r][..o], i, j);
      tr := DerivesPrefix(g, words, texts, f, d, r, o, i, j);
      assert InRule(g, t, d, r, c);
    }
  }

  // ----- trees of bounded size are all listed -----

  ghost predicate Bound(g: seq<Def>, t: Tables, words: seq<seq<Symbol>>, texts: int -> string, c: nat, i: nat, j: nat,
                        w: int) {
    forall tr :: ConfTree(g, t, words, texts, tr, c, i, j) ==> Weight(tr) <= w
  }

  lemma {:induction false} DistinctSize(l: seq<nat>, n: nat)
    requires Distinct(l) && forall q :: 0 <= q < |l| ==> l[q] < n
    ensures |l| <= n
  {
    if l != [] {
      assert l[0] < n;
      if n - 1 in l {
        var q :| 0 <= q < |l| && l[q] == n - 1;
        DistinctSize(l[..q] + l[q + 1..], n - 1);
      } else {
        assert forall q :: 0 <= q < |l| ==> l[q] in l;
        DistinctSize(l, n - 1);
      }
    }
  }

  /** The two parts of a tree of what c has passed are smaller. */
  lemma PartsBound(g: seq<Def>, t: Tables, words: seq<seq<Symbol>>, texts: int -> string, toks: seq<seq<nat>>, c: nat,
                   e: nat, k: nat, i: nat, j: nat, w: int)
    requires BuiltFrom(t, g) && Tokenized(t, words, toks) && 0 < c < |t.steps| && Ends(t, e, c - 1)
    requires Used(t, toks, k, c - 1, i) && Used(t, toks, j, e, k) && Bound(g, t, words, texts, c, i, j, w)
    ensures Bound(g, t, words, texts, c - 1, i, k, w - 1) && Bound(g, t, words, texts, e, k, j, w - 1) && w > 1
  {
    hide BuiltFrom, Tokenized, Used, ConfTree, Weight;
    var pt0 := UsedHasTree(g, t, words, texts, toks, k, c - 1, i);
    var et0 := UsedHasTree(g, t, words, texts, toks, j, e, k);
    forall pt, et | ConfTree(g, t, words, texts, pt, c - 1, i, k) && ConfTree(g, t, words, texts, et, e, k, j)
      ensures Weight(pt) + Weight(et) <= w
    {
      BranchTree(g, t, words, texts, pt, c - 1, i, k);
      JoinWeight(pt, et);
      LastSplit(g, t, words, texts, toks, c, i, j, e, k, Join(pt, et));
    }
    assert Weight(pt0) + Weight(et0) <= w;
  }

  lemma {:induction false} TreesEnd(g: seq<Def>, t: Tables, words: seq<seq<Symbol>>, toks: seq<seq<nat>>, p: T.Parse,
                                    views: seq<View>, depth: nat, chain: nat, c: nat, i: nat, j: nat)
    requires Listing(g, t, words, toks, p, views) && c < |t.names| && Used(t, toks, j, c, i) && chain > |words|
    requires Bound(g, t, words, p.toks, c, i, j, depth) && depth > 0
    ensures T.DerivTrees(t, p, depth, chain, c, i, j).Some?
    decreases depth, 0, 0
  {
    hide BuiltFrom, Tokenized, Reads, Used, Bound, T.TreesOverEnders;
    if t.names[c].None? {
      var prev := c - 1;
      NamedStart(g, t, c);
      BuiltIsSane(g, t);
      PredsKnown(t, t.steps[prev]);
      UsedBounds(t, toks, j, c, i);
      EndersEnd(g, t, words, toks, p, views, depth - 1, chain, c, i, j, t.enders[t.steps[prev]], []);
    }
  }

  lemma {:induction false} EndersEnd(g: seq<Def>, t: Tables, words: seq<seq<Symbol>>, toks: seq<seq<nat>>, p: T.Parse,
                                     views: seq<View>, depth: nat, chain: nat, c: nat, i: nat, j: nat, l: seq<nat>,
                                     l2: seq<T.Tree>)
    requires Listing(g, t, words, toks, p, views) && 0 < c < |t.names| && T.Known(t, l) && j <= |toks|
    requires Bound(g, t, words, p.toks, c, i, j, depth + 1) && chain > |words| && AllEnd(t, l, c - 1)
    ensures T.TreesOverEnders(t, p, depth, chain, c - 1, i, j, l, l2).Some?
    decreases depth, 2, |l|
  {
    hide BuiltFrom, Tokenized, Reads, Used, Bound, T.TreesOverChain, T.Tabled;
    if l != [] {
      var e, starts := l[0], p.states(j, l[0]);
      assert l == [e] + l[1..] && e in l;
      TabledSizes(t);
      ViewsNumber(p, t, toks, views);
      ReadsAt(p, t, toks, views, j, e);
      var l3 := l2;
      if starts.Some? {
        DoneSize(t, words, toks, views[j].lists[e].done, j, e);
        SameWords(t, words, toks);
        ChainEnd(g, t, words, toks, p, views, depth, chain, chain, c, e, i, j, 0, l2);
        l3 := T.TreesOverChain(t, p, depth, chain, chain, c - 1, e, i, j, starts.value, starts.value.first, l2).value;
      }
      EndersEnd(g, t, words, toks, p, views, depth, chain, c, i, j, l[1..], l3);
    }
  }

  lemma SameWords(t: Tables, words: seq<seq<Symbol>>, toks: seq<seq<nat>>)
    requires Tokenized(t, words, toks)
    ensures |toks| == |words|
  {
  }

  lemma DoneSize(t: Tables, words: seq<seq<Symbol>>, toks: seq<seq<nat>>, done: seq<nat>, j: nat, e: nat)
    requires Distinct(done) && forall k: nat :: k in done <==> Used(t, toks, j, e, k)
    ensures |done| <= |toks| + 1
  {
    hide Used;
    forall q | 0 <= q < |done| ensures done[q] < |toks| + 1 {
      assert done[q] in done;
      UsedBounds(t, toks, j, e, done[q]);
    }
    DistinctSize(done, |toks| + 1);
  }

  lemma {:induction false} ChainEnd(g: seq<Def>, t: Tables, words: seq<seq<Symbol>>, toks: seq<seq<nat>>, p: T.Parse,
                                    views: seq<View>, depth: nat, chain: nat, steps: nat, c: nat, e: nat, i: nat,
                                    j: nat, q: nat, l2: seq<T.Tree>)
    requires Listing(g, t, words, toks, p, views) && 0 < c < |t.names| && e < |t.names| && j <= |toks|
    requires j < |views| && e < |views[j].lists| && q <= |views[j].lists[e].done| && p.states(j, e).Some?
    requires Bound(g, t, words, p.toks, c, i, j, depth + 1) && chain > |words| && Ends(t, e, c - 1)
    requires steps >= |views[j].lists[e].done| - q
    ensures
      var s, k := p.states(j, e).value, At(views[j].lists[e].done, q);
      T.TreesOverChain(t, p, depth, chain, steps, c - 1, e, i, j, s, k, l2).Some?
    decreases depth, 1, steps
  {
    hide BuiltFrom, Tokenized, Reads, Used, T.Tabled, T.DerivTrees, T.InSet, Bound;
    TabledSizes(t);
    ReadsAt(p, t, toks, views, j, e);
    var s, done := p.states(j, e).value, views[j].lists[e].done;
    if q < |done| {
      var k := done[q];
      assert Used(t, toks, j, e, k);
      UsedBounds(t, toks, j, e, k);
      InSetMeans(g, t, words, toks, p, views, k, c - 1, i);
      var l3 := l2;
      if k >= i && T.InSet(p, k, c - 1, i) {
        PartsBound(g, t, words, p.toks, toks, c, e, k, i, j, depth + 1);
        TreesEnd(g, t, words, toks, p, views, depth, chain, c - 1, i, k);
        TreesEnd(g, t, words, toks, p, views, depth, chain, e, k, j);
        l3 := T.Combine(T.DerivTrees(t, p, depth, chain, c - 1, i, k).value,
                        T.DerivTrees(t, p, depth, chain, e, k, j).value, l2);
      }
      ChainEnd(g, t, words, toks, p, views, depth, chain, steps - 1, c, e, i, j, q + 1, l3);
    }
  }

  lemma {:induction false} TreesOfEnd(g: seq<Def>, t: Tables, words: seq<seq<Symbol>>, toks: seq<seq<nat>>, p: T.Parse,
                                      views: seq<View>, depth: nat, chain: nat, i: nat, j: nat, l: seq<nat>,
                                      trees: seq<T.Tree>)
    requires Listing(g, t, words, toks, p, views) && T.Known(t, l) && i <= j <= |toks| && chain > |words|
    requires forall e :: e in l ==> e < |t.steps| && Bound(g, t, words, p.toks, e, i, j, depth)
    ensures T.TreesOf(t, p, depth, chain, i, j, l, trees).Found?
    decreases l
  {
    hide BuiltFrom, Tokenized, Reads, Used, T.Tabled, T.DerivTrees, T.InSet, ConfTree;
    if l != [] {
      var e := l[0];
      assert l == [e] + l[1..] && e in l;
      TabledSizes(t);
      InSetMeans(g, t, words, toks, p, views, j, e, i);
      var more := trees;
      if T.InSet(p, j, e, i) {
        var tr := UsedHasTree(g, t, words, p.toks, toks, j, e, i);
        assert Weight(tr) <= depth;
        TreesEnd(g, t, words, toks, p, views, depth, chain, e, i, j);
        more := T.DerivTrees(t, p, depth, chain, e, i, j).value + trees;
      }
      TreesOfEnd(g, t, words, toks, p, views, depth, chain, i, j, l[1..], more);
    }
  }

  lemma {:induction false} ListBound(ts: seq<T.Tree>) returns (w: nat)
    ensures forall tr :: tr in ts ==> Weight(tr) <= w
  {
    if ts == [] {
      w := 0;
    } else {
      w := ListBound(ts[1..]);
      w := w + Weight(ts[0]);
      assert ts == [ts[0]] + ts[1..];
    }
  }

  /** The trees of nt from i to j that take part in a derivation of all words have at most this size. */
  ghost predicate Finite(g: seq<Def>, words: seq<seq<Symbol>>, texts: int -> string, nt: Symbol, i: nat, j: nat,
                         w: nat) {
    TakesPart(g, words, nt, i, j) ==> forall tr :: IsTree(g, words, texts, tr, nt, i, j) ==> Weight(tr) <= w
  }

  ghost predicate ListingEnds(t: Tables, p: T.Parse, nt: Symbol, i: nat, j: nat)
    requires T.Tabled(t)
  {
    exists depth: nat, chain: nat :: T.ParseTrees(t, p, depth, chain, nt, i, j).Found?
  }

  /** parse->trees ends if and only if the nonterminal has finitely many trees there. */
  lemma EndsExactly(g: seq<Def>, words: seq<seq<Symbol>>, t: Tables, toks: seq<seq<nat>>, back: Chart,
                    texts: int -> string, nt: Symbol, i: nat, j: nat)
    requires Parsed(g, words, t, toks, back) && i <= j <= |words| && T.Tabled(t) && nt in t.nts
    ensures
      ListingEnds(t, TableOf(back.states, texts), nt, i, j) <==> exists w: nat :: Finite(g, words, texts, nt, i, j, w)
  {
    hide BuiltFrom, TableOf, TakesPart, IsTree, T.Tabled, T.ParseTrees, Weight, Reads;
    var p := TableOf(back.states, texts);
    if ListingEnds(t, p, nt, i, j) {
      var depth: nat, chain: nat :| T.ParseTrees(t, p, depth, chain, nt, i, j).Found?;
      var w := ListBound(T.ParseTrees(t, p, depth, chain, nt, i, j).value);
      forall tr | TakesPart(g, words, nt, i, j) && IsTree(g, words, texts, tr, nt, i, j) ensures Weight(tr) <= w {
        ParseLists(g, words, t, toks, back, texts, depth, chain, nt, i, j, tr);
      }
      assert Finite(g, words, texts, nt, i, j, w);
    }
    if exists w: nat :: Finite(g, words, texts, nt, i, j, w) {
      var w: nat :| Finite(g, words, texts, nt, i, j, w);
      FiniteEnds(g, words, t, toks, back, texts, nt, i, j, w);
    }
  }

  lemma FiniteEnds(g: seq<Def>, words: seq<seq<Symbol>>, t: Tables, toks: seq<seq<nat>>, back: Chart,
                   texts: int -> string, nt: Symbol, i: nat, j: nat, w: nat)
    requires Parsed(g, words, t, toks, back) && i <= j <= |words| && T.Tabled(t) && nt in t.nts
    requires Finite(g, words, texts, nt, i, j, w)
    ensures T.ParseTrees(t, TableOf(back.states, texts), w, |words| + 1, nt, i, j).Found?
  {
    hide BuiltFrom, TableOf, TakesPart, IsTree, T.Tabled, T.TreesOf, Reads, Index, ConfTree, Used, Weight;
    var p := TableOf(back.states, texts);
    TableReads(g, words, t, toks, back, texts);
    TableTexts(back.states, texts);
    var b := Index(nt, t.nts);
    IndexKnown(t.nts, nt);
    BuiltIsSane(g, t);
    PredsKnown(t, b);
    TabledSizes(t);
    T.EndersKnown(t);
    SameWords(t, words, toks);
    if TakesPart(g, words, nt, i, j) {
      forall e | e in t.enders[b] ensures Bound(g, t, words, texts, e, i, j, w) {
        forall tr | ConfTree(g, t, words, texts, tr, e, i, j) ensures Weight(tr) <= w {
          EndTree(g, t, words, texts, tr, b, e, i, j);
        }
      }
      TreesOfEnd(g, t, words, toks, p, back.views, w, |words| + 1, i, j, t.enders[b], []);
    } else {
      forall e | e in t.enders[b] ensures !Used(t, toks, j, e, i) {
        PartExactly(g, t, words, toks, b, i, j);
      }
      NoneUsed(g, t, words, toks, p, back.views, w, |words| + 1, i, j, t.enders[b], []);
    }
  }

  lemma {:induction false} NoneUsed(g: seq<Def>, t: Tables, words: seq<seq<Symbol>>, toks: seq<seq<nat>>, p: T.Parse,
                                    views: seq<View>, depth: nat, chain: nat, i: nat, j: nat, l: seq<nat>,
                                    trees: seq<T.Tree>)
    requires Listing(g, t, words, toks, p, views) && T.Known(t, l) && i <= j <= |toks|
    requires forall e :: e in l ==> e < |t.steps| && !Used(t, toks, j, e, i)
    ensures T.TreesOf(t, p, depth, chain, i, j, l, trees) == T.Found(trees)
    decreases l
  {
    hide BuiltFrom, Tokenized, Reads, Used, T.Tabled, T.DerivTrees, T.InSet;
    if l != [] {
      assert l == [l[0]] + l[1..] && l[0] in l;
      assert forall e :: e in l[1..] ==> e in l;
      InSetMeans(g, t, words, toks, p, views, j, l[0], i);
      NoneUsed(g, t, words, toks, p, views, depth, chain, i, j, l[1..], trees);
    }
  }
}
