/**
 The derivation trees of a grammar, and that parse->trees lists exactly them
 (demo/v8_benchmark.js, 8565-8664).
 */
module EarleyDerivations {
  import opened EarleyBackward
  import opened EarleyCells
  import opened EarleyCharts
  import opened EarleyLanguages
  import opened EarleyParsers
  import opened EarleyTables
  import opened Options
  import T = EarleyTrees

  // ----- derivation trees -----

  ghost predicate Cut(cuts: seq<nat>, n: nat, i: nat, j: nat) { |cuts| == n + 1 && cuts[0] == i && cuts[n] == j }

  /** The tree of a word: its class and its text. */
  ghost function Leaf(x: Symbol, text: string): T.Tree { T.Branch([T.Label(Name(x, 0)), T.Token(text)]) }

  /** tr derives the words from i to j from x. */
  ghost predicate IsTree(g: seq<Def>, words: seq<seq<Symbol>>, texts: int -> string, tr: T.Tree, x: Symbol, i: nat,
                         j: nat)
    decreases tr
  {
    || (i < |words| && j == i + 1 && x in words[i] && tr == Leaf(x, texts(i)))
    || (exists d: nat, r: nat, cuts: seq<nat> ::
          && IsRule(g, d, r) && g[d].head == x && Cut(cuts, |g[d].rules[r]|, i, j)
          && tr.Branch? && |tr.parts| == |g[d].rules[r]| + 1 && tr.parts[0] == T.Label(Name(x, r + 1))
          && forall q :: 0 <= q < |g[d].rules[r]| ==>
               IsTree(g, words, texts, tr.parts[q + 1], g[d].rules[r][q], cuts[q], cuts[q + 1]))
  }

  /** tr has the symbols of rule r of definition d, as far as o, over the words from i to n. */
  ghost predicate PrefixTree(g: seq<Def>, words: seq<seq<Symbol>>, texts: int -> string, tr: T.Tree, d: nat, r: nat,
                             o: nat,
                             i: nat, n: nat) {
    && IsRule(g, d, r) && o <= |g[d].rules[r]| && tr.Branch? && |tr.parts| == o + 1
    && tr.parts[0] == T.Label(Name(g[d].head, r + 1))
    && exists cuts: seq<nat> :: Cut(cuts, o, i, n) && forall q :: 0 <= q < o ==>
         IsTree(g, words, texts, tr.parts[q + 1], g[d].rules[r][q], cuts[q], cuts[q + 1])
  }

  /** What configuration c has passed from i to n, as a tree. */
  ghost predicate ConfTree(g: seq<Def>, t: Tables, words: seq<seq<Symbol>>, texts: int -> string, tr: T.Tree, c: nat,
                           i: nat,
                           n: nat) {
    || (c < |t.nts| && i < |words| && n == i + 1 && t.nts[c] in words[i] && tr == Leaf(t.nts[c], texts(i)))
    || exists d: nat, r: nat ::
         InRule(g, t, d, r, c) && PrefixTree(g, words, texts, tr, d, r, c - StartOf(g, t, d, r), i, n)
  }

  /** Joins a tree to the end of another. */
  ghost function Join(pt: T.Tree, et: T.Tree): T.Tree { if pt.Branch? then T.Branch(pt.parts + [et]) else pt }

  lemma {:induction false} CombineOneHas(prevs: seq<T.Tree>, et: T.Tree, trees: seq<T.Tree>, tr: T.Tree)
    ensures tr in T.CombineOne(prevs, et, trees) <==> tr in trees || exists pt :: pt in prevs && tr == Join(pt, et)
    decreases prevs
  {
    if prevs != [] {
      assert prevs == [prevs[0]] + prevs[1..];
      CombineOneHas(prevs[1..], et, [Join(prevs[0], et)] + trees, tr);
    }
  }

  lemma {:induction false} CombineHas(prevs: seq<T.Tree>, enders: seq<T.Tree>, trees: seq<T.Tree>, tr: T.Tree)
    ensures tr in T.Combine(prevs, enders, trees) <==>
            tr in trees || exists pt, et :: pt in prevs && et in enders && tr == Join(pt, et)
    decreases enders
  {
    if enders != [] {
      assert enders == [enders[0]] + enders[1..];
      CombineOneHas(prevs, enders[0], trees, tr);
      CombineHas(prevs, enders[1..], T.CombineOne(prevs, enders[0], trees), tr);
    }
  }

  // ----- one more symbol -----

  lemma PrefixMore(g: seq<Def>, words: seq<seq<Symbol>>, texts: int -> string, pt: T.Tree, et: T.Tree, d: nat, r: nat,
                   o: nat, i: nat, k: nat, n: nat)
    requires PrefixTree(g, words, texts, pt, d, r, o, i, k) && o < |g[d].rules[r]|
    requires IsTree(g, words, texts, et, g[d].rules[r][o], k, n)
    ensures PrefixTree(g, words, texts, Join(pt, et), d, r, o + 1, i, n)
  {
    hide IsTree;
    var cuts: seq<nat> :| Cut(cuts, o, i, k) && forall q :: 0 <= q < o ==>
      IsTree(g, words, texts, pt.parts[q + 1], g[d].rules[r][q], cuts[q], cuts[q + 1]);
    var more := cuts + [n];
    var tr := Join(pt, et);
    forall q | 0 <= q < o + 1
      ensures IsTree(g, words, texts, tr.parts[q + 1], g[d].rules[r][q], more[q], more[q + 1])
    {
      if q < o { assert tr.parts[q + 1] == pt.parts[q + 1] && more[q] == cuts[q] && more[q + 1] == cuts[q + 1]; }
    }
    assert Cut(more, o + 1, i, n);
  }

  lemma PrefixLess(g: seq<Def>, words: seq<seq<Symbol>>, texts: int -> string, tr: T.Tree, d: nat, r: nat, o: nat,
                   i: nat,
                   n: nat) returns (pt: T.Tree, et: T.Tree, k: nat)
    requires PrefixTree(g, words, texts, tr, d, r, o + 1, i, n)
    ensures PrefixTree(g, words, texts, pt, d, r, o, i, k) && IsTree(g, words, texts, et, g[d].rules[r][o], k, n)
    ensures tr == Join(pt, et)
  {
    hide IsTree;
    var cuts: seq<nat> :| Cut(cuts, o + 1, i, n) && forall q :: 0 <= q < o + 1 ==>
      IsTree(g, words, texts, tr.parts[q + 1], g[d].rules[r][q], cuts[q], cuts[q + 1]);
    pt, et, k := T.Branch(tr.parts[..o + 1]), tr.parts[o + 1], cuts[o];
    var less := cuts[..o + 1];
    assert Cut(less, o, i, k);
    forall q | 0 <= q < o
      ensures IsTree(g, words, texts, pt.parts[q + 1], g[d].rules[r][q], less[q], less[q + 1])
    {
      assert IsTree(g, words, texts, tr.parts[q + 1], g[d].rules[r][q], cuts[q], cuts[q + 1]);
    }
    assert tr.parts == tr.parts[..o + 1] + [tr.parts[o + 1]];
  }

  /** The tree of a nonterminal is a leaf or has all symbols of a rule for it. */
  lemma TreeOrLeaf(g: seq<Def>, words: seq<seq<Symbol>>, texts: int -> string, tr: T.Tree, x: Symbol, i: nat, j: nat)
    ensures IsTree(g, words, texts, tr, x, i, j) <==>
            || (i < |words| && j == i + 1 && x in words[i] && tr == Leaf(x, texts(i)))
            || exists d: nat, r: nat :: IsRule(g, d, r) && g[d].head == x
                 && PrefixTree(g, words, texts, tr, d, r, |g[d].rules[r]|, i, j)
  {
  }

  /** A tree is a derivation. */
  lemma {:induction false} TreeDerives(g: seq<Def>, words: seq<seq<Symbol>>, texts: int -> string, tr: T.Tree,
                                       x: Symbol,
                                       i: nat, j: nat)
    requires IsTree(g, words, texts, tr, x, i, j)
    ensures InLanguage(g, words, x, i, j)
    decreases tr, 1
  {
    hide IsTree, DerivesAll, PrefixTree;
    TreeOrLeaf(g, words, texts, tr, x, i, j);
    if i < |words| && j == i + 1 && x in words[i] {
      assert Derives(g, words, 0, x, i, j);
    } else {
      var d: nat, r: nat :| IsRule(g, d, r) && g[d].head == x
          && PrefixTree(g, words, texts, tr, d, r, |g[d].rules[r]|, i, j);
      var xs := g[d].rules[r];
      PrefixDerives(g, words, texts, tr, d, r, |xs|, i, j);
      assert xs[..|xs|] == xs;
      var f: nat :| DerivesAll(g, words, f, xs, i, j);
      assert Derives(g, words, f + 1, x, i, j);
    }
  }

  lemma {:induction false} PrefixDerives(g: seq<Def>, words: seq<seq<Symbol>>, texts: int -> string, tr: T.Tree, d: nat,
                                         r: nat, o: nat, i: nat, n: nat)
    requires PrefixTree(g, words, texts, tr, d, r, o, i, n)
    ensures AllInLanguage(g, words, g[d].rules[r][..o], i, n)
    decreases tr, 0
  {
    hide IsTree, Derives;
    var xs := g[d].rules[r];
    var cuts: seq<nat> :| Cut(cuts, o, i, n) && forall q :: 0 <= q < o ==>
      IsTree(g, words, texts, tr.parts[q + 1], xs[q], cuts[q], cuts[q + 1]);
    assert DerivesAll(g, words, 0, xs[..0], i, i);
    for q := 0 to o
      invariant AllInLanguage(g, words, xs[..q], i, cuts[q])
    {
      TreeDerives(g, words, texts, tr.parts[q + 1], xs[q], cuts[q], cuts[q + 1]);
      var f: nat :| DerivesAll(g, words, f, xs[..q], i, cuts[q]);
      var f': nat :| Derives(g, words, f', xs[q], cuts[q], cuts[q + 1]);
      OneMore(g, words, f, f', xs, q, i, cuts[q], cuts[q + 1]);
    }
  }

  /** At an end of nonterminal b, the tree of what has been passed is one of b. */
  lemma EndTree(g: seq<Def>, t: Tables, words: seq<seq<Symbol>>, texts: int -> string, tr: T.Tree, b: nat, e: nat,
                k: nat,
                n: nat)
    requires BuiltFrom(t, g) && b < |t.nts| && e < |t.steps| && t.steps[e] == b - |t.nts|
    requires ConfTree(g, t, words, texts, tr, e, k, n)
    ensures IsTree(g, words, texts, tr, t.nts[b], k, n)
  {
    hide BuiltFrom, IsTree, PrefixTree, StartOf;
    TreeOrLeaf(g, words, texts, tr, t.nts[b], k, n);
    if e < |t.nts| { NtStep(g, t, e); }
    if exists d: nat, r: nat :: InRule(g, t, d, r, e)
        && PrefixTree(g, words, texts, tr, d, r, e - StartOf(g, t, d, r), k, n) {
      var d: nat, r: nat :| InRule(g, t, d, r, e)
          && PrefixTree(g, words, texts, tr, d, r, e - StartOf(g, t, d, r), k, n);
      StepInRule(g, t, d, r, e);
    }
  }

  // ----- a rule with items has started -----

  lemma NamedStart(g: seq<Def>, t: Tables, c: nat)
    requires BuiltFrom(t, g) && |t.nts| <= c < |t.steps|
    ensures |t.names| == |t.steps| && c > 0 && (t.names[c].Some? <==> t.steps[c - 1] < 0)
  {
    hide BuiltFrom;
    T.BuiltIsTabled(t, g);
  }

  lemma StarterNamed(g: seq<Def>, t: Tables, b: nat, s: nat)
    requires BuiltFrom(t, g) && b < |t.starters| && s in t.starters[b]
    ensures |t.nts| <= s < |t.steps| && s > 0 && t.steps[s - 1] < 0
  {
    hide NamesOfDefs, StepsOfDefs, NotedDefs, Index;
    assert t.starters[b] == StartsAt(t.names, t.nts, b);
    DefsLength(g, t.nts);
    NamedStart(g, t, s);
  }

  lemma {:induction false} RuleStarted(g: seq<Def>, t: Tables, words: seq<seq<Symbol>>, toks: seq<seq<nat>>, f: nat,
                                       n: nat,
                                       c: nat, i: nat, d: nat, r: nat)
    requires BuiltFrom(t, g) && Tokenized(t, words, toks) && Reached(t, toks, f, n, c, i) && InRule(g, t, d, r, c)
    ensures Item(t, toks, i, StartOf(g, t, d, r), i)
    decreases f
  {
    hide BuiltFrom, StartOf;
    var s := StartOf(g, t, d, r);
    StepInRule(g, t, d, r, c);
    StartersNumber(g, t);
    if c > s { StepInRule(g, t, d, r, c - 1); }
    if Given(t, toks, n, c, i) {
      if n == 0 { StarterNamed(g, t, 0, c); }
      assert Reached(t, toks, f, i, s, i);
    } else {
      var f' := f - 1;
      if i == n && exists p: nat, h: nat :: Reached(t, toks, f', n, p, h) && Starts(t, c, p) {
        var p: nat, h: nat :| Reached(t, toks, f', n, p, h) && Starts(t, c, p);
        StarterNamed(g, t, t.steps[p], c);
        assert Reached(t, toks, f, i, s, i);
      } else {
        var e: nat, k: nat :| Reached(t, toks, f', n, e, k) && Reached(t, toks, f', k, c - 1, i) && Ends(t, e, c - 1);
        if c > s {
          RuleStarted(g, t, words, toks, f', k, c - 1, i, d, r);
        } else {
          RuleHasConfs(g, t, d, r);
          IndexKnown(t.nts, g[d].head);
          StarterNamed(g, t, Index(g[d].head, t.nts), s);
          assert false;
        }
      }
    }
  }

  // ----- the listing -----

  /** The tree procedures read a set with these positions. */
  ghost predicate SetReads(s: Option<T.ConfSet>, j: nat, done: seq<nat>) {
    && Distinct(done)
    && (s.None? ==> done == [])
    && (s.Some? ==>
          && s.value.first == At(done, 0)
          && (forall q :: 0 <= q < |done| ==> s.value.next(done[q]) == At(done, q + 1))
          && (forall i: nat :: i <= j ==> (s.value.has(i) <==> i in done)))
  }

  /** They read the second table of a parse, which holds exactly the items of whole parses. */
  ghost predicate Reads(p: T.Parse, t: Tables, toks: seq<seq<nat>>, views: seq<View>) {
    && |views| == |toks| + 1 && SameShape(views, |t.steps|)
    && (forall n :: 0 <= n < |views| ==> Settled(views[n]))
    && (forall n: nat, c: nat, i: nat :: n < |views| ==> (i in Has(views[n], c) <==> Used(t, toks, n, c, i)))
    && (forall n: nat, c: nat :: n < |views| && c < |t.steps| ==> SetReads(p.states(n, c), n, views[n].lists[c].done))
  }

  lemma ReadsAt(p: T.Parse, t: Tables, toks: seq<seq<nat>>, views: seq<View>, n: nat, c: nat)
    requires Reads(p, t, toks, views) && n < |views| && c < |t.steps|
    ensures c < |views[n].lists| && SetReads(p.states(n, c), n, views[n].lists[c].done)
    ensures forall i: nat :: i in views[n].lists[c].done <==> Used(t, toks, n, c, i)
  {
    hide Has, Used;
    SettledDone(views[n], c);
  }

  /** In the words' own terms: prev from i to k, then e from k to j. */
  ghost predicate Splits(g: seq<Def>, t: Tables, words: seq<seq<Symbol>>, texts: int -> string, toks: seq<seq<nat>>,
                         prev: nat, e: nat, k: nat, i: nat, j: nat, tr: T.Tree) {
    Used(t, toks, k, prev, i) && Used(t, toks, j, e, k) && exists pt, et ::
      ConfTree(g, t, words, texts, pt, prev, i, k) && ConfTree(g, t, words, texts, et, e, k, j) && tr == Join(pt, et)
  }

  /** Every tree of configuration c splits before the last symbol it has passed, and the other way round. */
  lemma LastSplit(g: seq<Def>, t: Tables, words: seq<seq<Symbol>>, texts: int -> string, toks: seq<seq<nat>>, c: nat,
                  i: nat, j: nat, e: nat, k: nat, tr: T.Tree)
    requires BuiltFrom(t, g) && Tokenized(t, words, toks) && 0 < c < |t.steps| && Ends(t, e, c - 1)
    requires Splits(g, t, words, texts, toks, c - 1, e, k, i, j, tr)
    ensures ConfTree(g, t, words, texts, tr, c, i, j)
  {
    hide BuiltFrom, Used, IsTree, PrefixTree, Tokenized, StartOf;
    var p := c - 1;
    var pt, et :| ConfTree(g, t, words, texts, pt, p, i, k) && ConfTree(g, t, words, texts, et, e, k, j)
        && tr == Join(pt, et);
    if p < |t.nts| { NtStep(g, t, p); }
    var d: nat, r: nat :| InRule(g, t, d, r, p) && PrefixTree(g, words, texts, pt, d, r, p - StartOf(g, t, d, r), i, k);
    StepInRule(g, t, d, r, p);
    EndTree(g, t, words, texts, et, t.steps[p], e, k, j);
    PrefixMore(g, words, texts, pt, et, d, r, p - StartOf(g, t, d, r), i, k, j);
    assert InRule(g, t, d, r, c);
  }

  /** The end that a tree of nonterminal b has, if b has been foreseen. */
  lemma TreeEnd(g: seq<Def>, t: Tables, words: seq<seq<Symbol>>, texts: int -> string, toks: seq<seq<nat>>, et: T.Tree,
                b: nat, k: nat, j: nat) returns (e: nat)
    requires BuiltFrom(t, g) && Tokenized(t, words, toks) && b < |t.nts| && Foreseen(t, toks, b, k)
    requires IsTree(g, words, texts, et, t.nts[b], k, j)
    ensures e < |t.steps| && t.steps[e] == b - |t.nts| && Item(t, toks, j, e, k)
    ensures ConfTree(g, t, words, texts, et, e, k, j)
  {
    hide BuiltFrom, IsTree, PrefixTree, StartOf, Item, DerivesAll;
    var x := t.nts[b];
    IndexOnce(g, t, b);
    TreeOrLeaf(g, words, texts, et, x, k, j);
    if k < |words| && j == k + 1 && x in words[k] && et == Leaf(x, texts(k)) {
      e := b;
      NtStep(g, t, b);
      GivenItem(t, toks, j, b, k);
    } else {
      var d: nat, r: nat :| IsRule(g, d, r) && g[d].head == x
          && PrefixTree(g, words, texts, et, d, r, |g[d].rules[r]|, k, j);
      var s, xs := StartOf(g, t, d, r), g[d].rules[r];
      RuleHasConfs(g, t, d, r);
      StartersNumber(g, t);
      PrefixDerives(g, words, texts, et, d, r, |xs|, k, j);
      var f: nat :| DerivesAll(g, words, f, xs[..|xs|], k, j);
      FoundAll(g, t, words, toks, f, s, x, xs, |xs|, k, j);
      e := s + |xs|;
      assert InRule(g, t, d, r, e);
    }
  }

  lemma SplitLast(g: seq<Def>, t: Tables, words: seq<seq<Symbol>>, texts: int -> string, toks: seq<seq<nat>>, c: nat,
                  i: nat, j: nat, tr: T.Tree) returns (e: nat, k: nat)
    requires BuiltFrom(t, g) && Tokenized(t, words, toks) && |t.nts| <= c < |t.steps| && c > 0 && t.steps[c - 1] >= 0
    requires Used(t, toks, j, c, i) && ConfTree(g, t, words, texts, tr, c, i, j)
    ensures Ends(t, e, c - 1) && Splits(g, t, words, texts, toks, c - 1, e, k, i, j, tr)
  {
    hide BuiltFrom, IsTree, PrefixTree, StartOf, DerivesAll, Used, Reached, Tokenized;
    var d: nat, r: nat :| InRule(g, t, d, r, c) && PrefixTree(g, words, texts, tr, d, r, c - StartOf(g, t, d, r), i, j);
    var s, xs := StartOf(g, t, d, r), g[d].rules[r];
    RuleHasConfs(g, t, d, r);
    IndexKnown(t.nts, g[d].head);
    StartersNumber(g, t);
    StarterNamed(g, t, Index(g[d].head, t.nts), s);
    var o := c - 1 - s;
    var pt, et;
    pt, et, k := PrefixLess(g, words, texts, tr, d, r, o, i, j);
    UsedIsItem(t, toks, j, c, i);
    var f: nat :| Reached(t, toks, f, j, c, i);
    RuleStarted(g, t, words, toks, f, j, c, i, d, r);
    PrefixDerives(g, words, texts, pt, d, r, o, i, k);
    var f1: nat :| DerivesAll(g, words, f1, xs[..o], i, k);
    FoundAll(g, t, words, toks, f1, s, g[d].head, xs, o, i, k);
    StepInRule(g, t, d, r, c - 1);
    ForeseenBehind(t, toks, k, c - 1, i);
    e := TreeEnd(g, t, words, texts, toks, et, t.steps[c - 1], k, j);
    UsedBack(t, toks, j, c - 1, i, e, k);
    assert InRule(g, t, d, r, c - 1);
  }

  lemma UsedIsItem(t: Tables, toks: seq<seq<nat>>, n: nat, c: nat, i: nat)
    requires Used(t, toks, n, c, i)
    ensures Item(t, toks, n, c, i)
  {
    hide Item;
  }

  // ----- the listing is exact -----

  /** What the tree procedures work on. */
  ghost predicate Listing(g: seq<Def>, t: Tables, words: seq<seq<Symbol>>, toks: seq<seq<nat>>, p: T.Parse,
                          views: seq<View>) {
    BuiltFrom(t, g) && T.Tabled(t) && Tokenized(t, words, toks) && Reads(p, t, toks, views)
  }

  ghost predicate SplitsAmong(g: seq<Def>, t: Tables, words: seq<seq<Symbol>>, texts: int -> string,
                              toks: seq<seq<nat>>,
                              prev: nat, e: nat, ks: seq<nat>, i: nat, j: nat, tr: T.Tree) {
    exists k: nat :: k in ks && Splits(g, t, words, texts, toks, prev, e, k, i, j, tr)
  }

  /** Whether prev, from i, is in state k. */
  lemma InSetMeans(g: seq<Def>, t: Tables, words: seq<seq<Symbol>>, toks: seq<seq<nat>>, p: T.Parse, views: seq<View>,
                   k: nat, c: nat, i: nat)
    requires Listing(g, t, words, toks, p, views) && c < |t.steps| && k <= |toks|
    ensures k >= i && T.InSet(p, k, c, i) <==> Used(t, toks, k, c, i)
  {
    hide BuiltFrom, T.Tabled, Tokenized;
    ReadsAt(p, t, toks, views, k, c);
    if Used(t, toks, k, c, i) {
      UsedBounds(t, toks, k, c, i);
    }
  }

  lemma UsedBounds(t: Tables, toks: seq<seq<nat>>, n: nat, c: nat, i: nat)
    requires Used(t, toks, n, c, i)
    ensures i <= n <= |toks|
  {
    hide Item;
    var f: nat :| UsedWithin(t, toks, f, n, c, i);
    ItemBounds(t, toks, n, c, i);
  }

  /** The trees listed for c are those of what c has passed. */
  ghost predicate AreTrees(g: seq<Def>, t: Tables, words: seq<seq<Symbol>>, texts: int -> string, trees: seq<T.Tree>,
                        c: nat,
                        i: nat, j: nat) {
    forall tr :: tr in trees <==> ConfTree(g, t, words, texts, tr, c, i, j)
  }

  lemma {:induction false} TreesExact(g: seq<Def>, t: Tables, words: seq<seq<Symbol>>, toks: seq<seq<nat>>, p: T.Parse,
                                      views: seq<View>, depth: nat, chain: nat, c: nat, i: nat, j: nat)
    requires Listing(g, t, words, toks, p, views) && c < |t.names| && Used(t, toks, j, c, i)
    requires T.DerivTrees(t, p, depth, chain, c, i, j).Some?
    ensures AreTrees(g, t, words, p.toks, T.DerivTrees(t, p, depth, chain, c, i, j).value, c, i, j)
    decreases depth, 0, 0
  {
    hide BuiltFrom, Tokenized, Reads, Used, ConfTree, Splits, T.TreesOverEnders;
    if t.names[c].Some? {
      NamedTree(g, t, words, toks, p.toks, c, i, j);
    } else {
      var prev := c - 1;
      var l := t.enders[t.steps[prev]];
      NamedStart(g, t, c);
      BuiltIsSane(g, t);
      PredsKnown(t, t.steps[prev]);
      UsedBounds(t, toks, j, c, i);
      var r := T.DerivTrees(t, p, depth, chain, c, i, j).value;
      forall tr ensures tr in r <==> ConfTree(g, t, words, p.toks, tr, c, i, j) {
        EndersExact(g, t, words, toks, p, views, depth - 1, chain, prev, i, j, l, [], tr);
        if tr in r {
          var e: nat, k: nat :| e in l && Splits(g, t, words, p.toks, toks, prev, e, k, i, j, tr);
          LastSplit(g, t, words, p.toks, toks, c, i, j, e, k, tr);
        }
        if ConfTree(g, t, words, p.toks, tr, c, i, j) {
          var e, k := SplitLast(g, t, words, p.toks, toks, c, i, j, tr);
        }
      }
    }
  }

  /** A name stands at the start of its rule. */
  lemma StartName(g: seq<Def>, t: Tables, d: nat, r: nat, c: nat)
    requires BuiltFrom(t, g) && InRule(g, t, d, r, c) && c < |t.names| && t.names[c].Some?
    ensures c == StartOf(g, t, d, r) && t.names[c].value == Name(g[d].head, r + 1)
  {
    hide NamesOfDefs, StepsOfDefs, NotedDefs, Index;
    StepInRule(g, t, d, r, c);
    NamedStart(g, t, c);
    if c > StartOf(g, t, d, r) {
      StepInRule(g, t, d, r, c - 1);
    }
    RuleInDefs(g, t.nts, d, r);
  }

  lemma NtName(g: seq<Def>, t: Tables, c: nat)
    requires BuiltFrom(t, g) && c < |t.nts|
    ensures c < |t.names| && t.names[c] == Some(Name(t.nts[c], 0))
  {
    hide NamesOfDefs, StepsOfDefs, NotedDefs;
  }

  /** A configuration that has passed nothing, or a word, has one tree. */
  lemma NamedTree(g: seq<Def>, t: Tables, words: seq<seq<Symbol>>, toks: seq<seq<nat>>, texts: int -> string, c: nat,
                  i: nat, j: nat)
    requires BuiltFrom(t, g) && Tokenized(t, words, toks) && c < |t.names| && t.names[c].Some? && Used(t, toks, j, c, i)
    ensures
      var name := t.names[c].value;
      AreTrees(g, t, words, texts,
        [T.Branch(if c < |t.nts| then [T.Label(name), T.Token(texts(i))] else [T.Label(name)])], c, i, j)
  {
    hide BuiltFrom, Tokenized, Used, Item, StartOf, PrefixTree, DerivesAll;
    UsedIsItem(t, toks, j, c, i);
    ItemDenotes(g, t, words, toks, j, c, i);
    if c < |t.nts| {
      NtName(g, t, c);
      forall d: nat, r: nat ensures !InRule(g, t, d, r, c) && !Behind(g, t, words, d, r, c, i, j) {
        if InRule(g, t, d, r, c) { StepInRule(g, t, d, r, c); }
      }
      assert [T.Label(Name(t.nts[c], 0)), T.Token(texts(i))] == Leaf(t.nts[c], texts(i)).parts;
    } else {
      StartTree(g, t, words, texts, c, i, j);
    }
  }

  lemma StartTree(g: seq<Def>, t: Tables, words: seq<seq<Symbol>>, texts: int -> string, c: nat, i: nat, j: nat)
    requires BuiltFrom(t, g) && |t.nts| <= c < |t.names| && t.names[c].Some? && Denotes(g, t, words, c, i, j)
    ensures AreTrees(g, t, words, texts, [T.Branch([T.Label(t.names[c].value)])], c, i, j)
  {
    hide BuiltFrom, StartOf, IsTree;
    var d: nat, r: nat :| Behind(g, t, words, d, r, c, i, j);
    StartName(g, t, d, r, c);
    assert i == j by { NoWords(g, words, g[d].rules[r], i, j); }
    var one := T.Branch([T.Label(t.names[c].value)]);
    assert Cut([i], 0, i, j);
    assert PrefixTree(g, words, texts, one, d, r, 0, i, j);
    forall tr | ConfTree(g, t, words, texts, tr, c, i, j) ensures tr == one {
      var d': nat, r': nat :| InRule(g, t, d', r', c)
          && PrefixTree(g, words, texts, tr, d', r', c - StartOf(g, t, d', r'), i, j);
      StartName(g, t, d', r', c);
      assert tr.parts == [tr.parts[0]];
    }
  }

  lemma NoWords(g: seq<Def>, words: seq<seq<Symbol>>, xs: seq<Symbol>, i: nat, j: nat)
    requires AllInLanguage(g, words, xs[..0], i, j)
    ensures i == j
  {
  }

  lemma {:induction false} EndersExact(g: seq<Def>, t: Tables, words: seq<seq<Symbol>>, toks: seq<seq<nat>>, p: T.Parse,
                                       views: seq<View>, depth: nat, chain: nat, prev: nat, i: nat, j: nat, l: seq<nat>,
                                       l2: seq<T.Tree>, tr: T.Tree)
    requires Listing(g, t, words, toks, p, views) && prev < |t.names| && T.Known(t, l) && j <= |toks|
    requires T.TreesOverEnders(t, p, depth, chain, prev, i, j, l, l2).Some?
    ensures tr in T.TreesOverEnders(t, p, depth, chain, prev, i, j, l, l2).value <==>
            tr in l2 || exists e: nat, k: nat :: e in l && Splits(g, t, words, p.toks, toks, prev, e, k, i, j, tr)
    decreases depth, 2, |l|
  {
    hide BuiltFrom, Tokenized, Reads, Used, ConfTree, Splits, T.TreesOverChain, T.Tabled;
    if l != [] {
      var e, starts := l[0], p.states(j, l[0]);
      assert l == [e] + l[1..];
      TabledSizes(t);
      ViewsNumber(p, t, toks, views);
      ReadsAt(p, t, toks, views, j, e);
      var done := views[j].lists[e].done;
      var l3 := l2;
      if starts.Some? {
        ChainExact(g, t, words, toks, p, views, depth, chain, chain, prev, e, i, j, 0, l2, tr);
        assert done[0..] == done;
        l3 := T.TreesOverChain(t, p, depth, chain, chain, prev, e, i, j, starts.value, starts.value.first, l2).value;
      }
      EndersExact(g, t, words, toks, p, views, depth, chain, prev, i, j, l[1..], l3, tr);
      SplitsIn(g, t, words, p.toks, toks, prev, e, done, i, j, tr);
    }
  }

  lemma ViewsNumber(p: T.Parse, t: Tables, toks: seq<seq<nat>>, views: seq<View>)
    requires Reads(p, t, toks, views)
    ensures |views| == |toks| + 1
  {
  }

  lemma TabledSizes(t: Tables)
    requires T.Tabled(t)
    ensures |t.names| == |t.steps| && |t.enders| == |t.nts|
  {
  }

  /** A split over e starts at one of the positions of its set. */
  lemma SplitsIn(g: seq<Def>, t: Tables, words: seq<seq<Symbol>>, texts: int -> string, toks: seq<seq<nat>>, prev: nat,
                 e: nat, done: seq<nat>, i: nat, j: nat, tr: T.Tree)
    requires forall k: nat :: k in done <==> Used(t, toks, j, e, k)
    ensures SplitsAmong(g, t, words, texts, toks, prev, e, done, i, j, tr) <==>
            exists k: nat :: Splits(g, t, words, texts, toks, prev, e, k, i, j, tr)
  {
    hide Used, ConfTree;
  }

  lemma {:induction false} ChainExact(g: seq<Def>, t: Tables, words: seq<seq<Symbol>>, toks: seq<seq<nat>>, p: T.Parse,
                                      views: seq<View>, depth: nat, chain: nat, steps: nat, prev: nat, e: nat, i: nat,
                                      j: nat, q: nat, l2: seq<T.Tree>, tr: T.Tree)
    requires Listing(g, t, words, toks, p, views) && prev < |t.names| && e < |t.names| && j <= |toks|
    requires j < |views| && e < |views[j].lists| && q <= |views[j].lists[e].done| && p.states(j, e).Some?
    requires
      var s, k := p.states(j, e).value, At(views[j].lists[e].done, q);
      T.TreesOverChain(t, p, depth, chain, steps, prev, e, i, j, s, k, l2).Some?
    ensures
      var s, k, done := p.states(j, e).value, At(views[j].lists[e].done, q), views[j].lists[e].done;
      tr in T.TreesOverChain(t, p, depth, chain, steps, prev, e, i, j, s, k, l2).value <==>
      tr in l2 || SplitsAmong(g, t, words, p.toks, toks, prev, e, done[q..], i, j, tr)
    decreases depth, 1, steps
  {
    hide BuiltFrom, Tokenized, Reads, Used, ConfTree, Splits, T.Tabled, T.DerivTrees, T.InSet, Distinct;
    TabledSizes(t);
    ReadsAt(p, t, toks, views, j, e);
    var s, done := p.states(j, e).value, views[j].lists[e].done;
    if q < |done| {
      var k := done[q];
      assert done[q..] == [k] + done[q + 1..];
      assert Used(t, toks, j, e, k);
      UsedBounds(t, toks, j, e, k);
      InSetMeans(g, t, words, toks, p, views, k, prev, i);
      var l3 := l2;
      if k >= i && T.InSet(p, k, prev, i) {
        var prevs := T.DerivTrees(t, p, depth, chain, prev, i, k);
        var enders := T.DerivTrees(t, p, depth, chain, e, k, j);
        TreesExact(g, t, words, toks, p, views, depth, chain, prev, i, k);
        TreesExact(g, t, words, toks, p, views, depth, chain, e, k, j);
        l3 := T.Combine(prevs.value, enders.value, l2);
        CombineHas(prevs.value, enders.value, l2, tr);
        JoinedSplits(g, t, words, p.toks, toks, prevs.value, enders.value, prev, e, k, i, j, tr);
      } else {
        NoSplit(g, t, words, p.toks, toks, prev, e, k, i, j, tr);
      }
      ChainExact(g, t, words, toks, p, views, depth, chain, steps - 1, prev, e, i, j, q + 1, l3, tr);
    }
  }

  lemma JoinedSplits(g: seq<Def>, t: Tables, words: seq<seq<Symbol>>, texts: int -> string, toks: seq<seq<nat>>,
                     prevs: seq<T.Tree>, enders: seq<T.Tree>, prev: nat, e: nat, k: nat, i: nat, j: nat, tr: T.Tree)
    requires AreTrees(g, t, words, texts, prevs, prev, i, k) && AreTrees(g, t, words, texts, enders, e, k, j)
    requires Used(t, toks, k, prev, i) && Used(t, toks, j, e, k)
    ensures (exists pt, et :: pt in prevs && et in enders && tr == Join(pt, et)) <==>
            Splits(g, t, words, texts, toks, prev, e, k, i, j, tr)
  {
    hide Used, ConfTree, Join;
  }

  lemma NoSplit(g: seq<Def>, t: Tables, words: seq<seq<Symbol>>, texts: int -> string, toks: seq<seq<nat>>, prev: nat,
                e: nat, k: nat, i: nat, j: nat, tr: T.Tree)
    requires !Used(t, toks, k, prev, i)
    ensures !Splits(g, t, words, texts, toks, prev, e, k, i, j, tr)
  {
  }

  // ----- whole parses -----

  lemma {:induction false} TreesOfExact(g: seq<Def>, t: Tables, words: seq<seq<Symbol>>, toks: seq<seq<nat>>,
                                        p: T.Parse, views: seq<View>, depth: nat, chain: nat, i: nat, j: nat,
                                        l: seq<nat>, trees: seq<T.Tree>, tr: T.Tree)
    requires Listing(g, t, words, toks, p, views) && T.Known(t, l) && i <= j <= |toks|
    requires T.TreesOf(t, p, depth, chain, i, j, l, trees).Found?
    ensures tr in T.TreesOf(t, p, depth, chain, i, j, l, trees).value <==>
            tr in trees
            || exists e: nat :: e in l && Used(t, toks, j, e, i) && ConfTree(g, t, words, p.toks, tr, e, i, j)
    decreases l
  {
    hide BuiltFrom, Tokenized, Reads, Used, ConfTree, T.Tabled, T.DerivTrees, T.InSet;
    if l != [] {
      var e := l[0];
      assert l == [e] + l[1..];
      TabledSizes(t);
      InSetMeans(g, t, words, toks, p, views, j, e, i);
      var more := trees;
      if T.InSet(p, j, e, i) {
        TreesExact(g, t, words, toks, p, views, depth, chain, e, i, j);
        more := T.DerivTrees(t, p, depth, chain, e, i, j).value + trees;
      }
      TreesOfExact(g, t, words, toks, p, views, depth, chain, i, j, l[1..], more, tr);
    }
  }

  /** An end of nonterminal b in the second table, with the tree tr. */
  ghost predicate TreeUsed(g: seq<Def>, t: Tables, words: seq<seq<Symbol>>, texts: int -> string, toks: seq<seq<nat>>,
                           b: nat, i: nat, j: nat, tr: T.Tree) {
    exists e: nat :: e < |t.steps| && t.steps[e] == b - |t.nts| && Used(t, toks, j, e, i)
                     && ConfTree(g, t, words, texts, tr, e, i, j)
  }

  lemma TreeUsedExactly(g: seq<Def>, t: Tables, words: seq<seq<Symbol>>, texts: int -> string, toks: seq<seq<nat>>,
                        b: nat, i: nat, j: nat, tr: T.Tree)
    requires BuiltFrom(t, g) && Tokenized(t, words, toks) && b < |t.nts|
    ensures TreeUsed(g, t, words, texts, toks, b, i, j, tr) <==>
            TakesPart(g, words, t.nts[b], i, j) && IsTree(g, words, texts, tr, t.nts[b], i, j)
  {
    hide BuiltFrom, Tokenized, Used, ConfTree, IsTree, PartWithin, Item;
    PartExactly(g, t, words, toks, b, i, j);
    if TreeUsed(g, t, words, texts, toks, b, i, j, tr) {
      var e: nat :| e < |t.steps| && t.steps[e] == b - |t.nts| && Used(t, toks, j, e, i)
                    && ConfTree(g, t, words, texts, tr, e, i, j);
      EndTree(g, t, words, texts, tr, b, e, i, j);
      assert EndUsed(t, toks, b, i, j);
    }
    if TakesPart(g, words, t.nts[b], i, j) && IsTree(g, words, texts, tr, t.nts[b], i, j) {
      var f: nat :| PartWithin(g, words, f, t.nts[b], i, j);
      PartFound(g, t, words, toks, f, t.nts[b], i, j);
      IndexOnce(g, t, b);
      var e := TreeEnd(g, t, words, texts, toks, tr, b, i, j);
    }
  }

  /** parse->trees lists exactly the trees of nt from i to j, if nt takes part there in a derivation of all words. */
  lemma ListsExactly(g: seq<Def>, t: Tables, words: seq<seq<Symbol>>, toks: seq<seq<nat>>, p: T.Parse, views: seq<View>,
                     depth: nat, chain: nat, nt: Symbol, i: nat, j: nat, tr: T.Tree)
    requires Listing(g, t, words, toks, p, views) && i <= j <= |toks|
    requires T.ParseTrees(t, p, depth, chain, nt, i, j).Found?
    ensures tr in T.ParseTrees(t, p, depth, chain, nt, i, j).value <==>
            TakesPart(g, words, nt, i, j) && IsTree(g, words, p.toks, tr, nt, i, j)
  {
    hide BuiltFrom, Tokenized, Reads, Used, ConfTree, IsTree, TakesPart, T.TreesOf, Index;
    var b := Index(nt, t.nts);
    IndexKnown(t.nts, nt);
    BuiltIsSane(g, t);
    PredsKnown(t, b);
    TreesOfExact(g, t, words, toks, p, views, depth, chain, i, j, t.enders[b], [], tr);
    TreeUsedExactly(g, t, words, p.toks, toks, b, i, j, tr);
  }

  // ----- the table that is read -----

  /** What code reads as a number from a cell; false and what is not there end a list. */
  function Number(v: Cells, k: int): int { if 0 <= k < |v| && v[k].Some? then v[k].value else -1 }

  /** Whether a cell is not false; what is not there is not. */
  predicate NotFalse(v: Cells, k: int) { 0 <= k < |v| ==> v[k].Some? }

  function SetOf(v: Cells): T.ConfSet { T.ConfSet(Number(v, 2), k => Number(v, k + 5), i => NotFalse(v, i + 5)) }

  /** The table as the tree procedures read it. */
  function TableOf(states: seq<State>, texts: int -> string): T.Parse {
    T.Parse((n: int, c: nat) =>
      if 0 <= n < |states| && c < |states[n].sets| && states[n].sets[c].Some? then Some(SetOf(states[n].sets[c].value))
      else None, texts)
  }

  lemma TableReads(g: seq<Def>, words: seq<seq<Symbol>>, t: Tables, toks: seq<seq<nat>>, back: Chart,
                   texts: int -> string)
    requires Parsed(g, words, t, toks, back)
    ensures Listing(g, t, words, toks, TableOf(back.states, texts), back.views)
  {
    hide BuiltFrom, Used, Has, Shows, Settled, Inhabited;
    T.BuiltIsTabled(t, g);
    var p := TableOf(back.states, texts);
    forall n: nat, c: nat | n < |back.views| && c < |t.steps|
      ensures SetReads(p.states(n, c), n, back.views[n].lists[c].done)
    {
      NoSet(back.states[n], n, back.views[n], c);
      if back.states[n].sets[c].Some? {
        SettledDone(back.views[n], c);
        CellsRead(back.states[n], n, back.views[n], c);
      }
    }
  }

  lemma DistinctDone(st: State, n: nat, v: View, c: nat)
    requires Shows(st, n, v) && c < |st.sets| == |v.lists| && st.sets[c].Some?
    ensures Distinct(v.lists[c].done)
  {
    assert SetShows(st, n, v.lists, c);
    DistinctParts(v.lists[c]);
  }

  lemma CellsRead(st: State, n: nat, v: View, c: nat)
    requires Shows(st, n, v) && c < |st.sets| == |v.lists| && st.sets[c].Some? && Has(v, c) == v.lists[c].done
    ensures SetReads(Some(SetOf(st.sets[c].value)), n, v.lists[c].done)
  {
    hide Shows, Has, Distinct, SetOf;
    var set0, done := SetOf(st.sets[c].value), v.lists[c].done;
    DistinctDone(st, n, v, c);
    FirstRead(st, n, v, c);
    forall q | 0 <= q < |done| ensures set0.next(done[q]) == At(done, q + 1) {
      LinkRead(st, n, v, c, q);
    }
    forall i: nat | i <= n ensures set0.has(i) <==> i in done {
      CellSays(st, n, v, c, i);
      HasRead(st.sets[c].value, i);
    }
  }

  lemma FirstRead(st: State, n: nat, v: View, c: nat)
    requires Shows(st, n, v) && c < |st.sets| == |v.lists| && st.sets[c].Some?
    ensures SetOf(st.sets[c].value).first == At(v.lists[c].done, 0)
  {
    hide Shows;
    SetFacts(st, n, v, c);
  }

  lemma LinkRead(st: State, n: nat, v: View, c: nat, q: nat)
    requires Shows(st, n, v) && c < |st.sets| == |v.lists| && st.sets[c].Some? && q < |v.lists[c].done|
    ensures SetOf(st.sets[c].value).next(v.lists[c].done[q]) == At(v.lists[c].done, q + 1)
  {
    hide Shows;
    SetFacts(st, n, v, c);
  }

  lemma HasRead(cells: Cells, i: nat)
    requires i + 5 < |cells|
    ensures SetOf(cells).has(i) <==> cells[i + 5].Some?
  {
  }

  /**
   For every grammar and input, if listing the parses of nt from i to j ends, it gives exactly the derivation
   trees of nt there, provided nt takes part there in a derivation of the whole input, and none otherwise.
   */
  lemma ParseLists(g: seq<Def>, words: seq<seq<Symbol>>, t: Tables, toks: seq<seq<nat>>, back: Chart,
                   texts: int -> string, depth: nat, chain: nat, nt: Symbol, i: nat, j: nat, tr: T.Tree)
    requires Parsed(g, words, t, toks, back) && i <= j <= |words| && T.Tabled(t)
    requires T.ParseTrees(t, TableOf(back.states, texts), depth, chain, nt, i, j).Found?
    ensures tr in T.ParseTrees(t, TableOf(back.states, texts), depth, chain, nt, i, j).value <==>
            TakesPart(g, words, nt, i, j) && IsTree(g, words, texts, tr, nt, i, j)
  {
    hide BuiltFrom, TakesPart, IsTree, TableOf, T.ParseTrees, Reads;
    TableReads(g, words, t, toks, back, texts);
    TableTexts(back.states, texts);
    ListsExactly(g, t, words, toks, TableOf(back.states, texts), back.views, depth, chain, nt, i, j, tr);
  }

  lemma TableTexts(states: seq<State>, texts: int -> string)
    ensures TableOf(states, texts).toks == texts
  {
  }

  /** The parses of the whole input are all the derivation trees of the first symbol. */
  lemma WholeTrees(g: seq<Def>, words: seq<seq<Symbol>>, texts: int -> string, tr: T.Tree)
    requires g != []
    ensures IsTree(g, words, texts, tr, g[0].head, 0, |words|) ==> TakesPart(g, words, g[0].head, 0, |words|)
  {
    hide TakesPart, IsTree;
    if IsTree(g, words, texts, tr, g[0].head, 0, |words|) {
      TreeDerives(g, words, texts, tr, g[0].head, 0, |words|);
      WholePart(g, words);
    }
  }
}
