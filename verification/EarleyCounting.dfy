/**
 How often parse->trees lists a tree and when it ends (demo/v8_benchmark.js, 8565-8713): no tree is
 listed twice, so parse->nb-trees is the number of derivation trees, and listing ends exactly if that
 number is finite.
 */
module EarleyCounting {
  import opened EarleyBackward
  import opened EarleyCells
  import opened EarleyCharts
  import opened EarleyDerivations
  import opened EarleyLanguages
  import opened EarleyParsers
  import opened EarleyTables
  import opened Options
  import T = EarleyTrees

  /** No tree twice. */
  ghost predicate NoRepeats(ts: seq<T.Tree>) { forall a, b :: 0 <= a < b < |ts| ==> ts[a] != ts[b] }

  /** No two definitions of one symbol have the same rule under the same number. */
  ghost predicate NoTwins(g: seq<Def>) {
    forall d: nat, e: nat, r: nat :: Twins(g, d, e, r) ==> d == e
  }

  /** Rule r is the same in two definitions of one symbol. */
  ghost predicate Twins(g: seq<Def>, d: nat, e: nat, r: nat) {
    IsRule(g, d, r) && IsRule(g, e, r) && g[d].head == g[e].head && g[d].rules[r] == g[e].rules[r]
  }

  /** So it is if every symbol is defined once. */
  lemma DistinctHeads(g: seq<Def>)
    requires forall d, e :: 0 <= d < e < |g| ==> g[d].head != g[e].head
    ensures NoTwins(g)
  {
  }

  // ----- how many words a tree has -----

  function Words(tr: T.Tree): nat {
    match tr
    case Label(_) => 0
    case Token(_) => 1
    case Branch(parts) => WordsAll(parts)
  }

  function WordsAll(ts: seq<T.Tree>): nat { if ts == [] then 0 else Words(ts[0]) + WordsAll(ts[1..]) }

  lemma {:induction false} WordsOn(a: seq<T.Tree>, b: seq<T.Tree>)
    ensures WordsAll(a + b) == WordsAll(a) + WordsAll(b)
  {
    if a == [] {
      assert a + b == b;
    } else {
      assert (a + b)[1..] == a[1..] + b;
      WordsOn(a[1..], b);
    }
  }

  lemma {:induction false} TreeWords(g: seq<Def>, words: seq<seq<Symbol>>, texts: int -> string, tr: T.Tree, x: Symbol,
                                     i: nat, j: nat)
    requires IsTree(g, words, texts, tr, x, i, j)
    ensures j == i + Words(tr)
    decreases tr, 1
  {
    hide IsTree, PrefixTree;
    TreeOrLeaf(g, words, texts, tr, x, i, j);
    if i < |words| && j == i + 1 && x in words[i] && tr == Leaf(x, texts(i)) {
      LeafWords(x, texts(i));
    } else {
      var d: nat, r: nat :| IsRule(g, d, r) && g[d].head == x
                            && PrefixTree(g, words, texts, tr, d, r, |g[d].rules[r]|, i, j);
      PrefixWords(g, words, texts, tr, d, r, |g[d].rules[r]|, i, j);
    }
  }

  lemma LeafWords(x: Symbol, text: string)
    ensures Words(Leaf(x, text)) == 1
  {
    var parts := Leaf(x, text).parts;
    assert Words(Leaf(x, text)) == WordsAll(parts) && parts[1..] == [T.Token(text)] && parts[1..][1..] == [];
    assert WordsAll(parts) == WordsAll(parts[1..]) && WordsAll(parts[1..]) == 1 + WordsAll(parts[1..][1..]);
  }

  lemma {:induction false} PrefixWords(g: seq<Def>, words: seq<seq<Symbol>>, texts: int -> string, tr: T.Tree, d: nat,
                                       r: nat, o: nat, i: nat, n: nat)
    requires PrefixTree(g, words, texts, tr, d, r, o, i, n)
    ensures n == i + Words(tr)
    decreases tr, 0
  {
    hide IsTree;
    var cuts: seq<nat> :| Cut(cuts, o, i, n) && forall q :: 0 <= q < o ==>
      IsTree(g, words, texts, tr.parts[q + 1], g[d].rules[r][q], cuts[q], cuts[q + 1]);
    assert tr.parts[..1] == [tr.parts[0]];
    for q := 0 to o
      invariant cuts[q] == i + WordsAll(tr.parts[..q + 1])
    {
      TreeWords(g, words, texts, tr.parts[q + 1], g[d].rules[r][q], cuts[q], cuts[q + 1]);
      assert tr.parts[..q + 2] == tr.parts[..q + 1] + [tr.parts[q + 1]];
      WordsOn(tr.parts[..q + 1], [tr.parts[q + 1]]);
    }
    assert tr.parts[..o + 1] == tr.parts;
  }

  lemma ConfWords(g: seq<Def>, t: Tables, words: seq<seq<Symbol>>, texts: int -> string, tr: T.Tree, c: nat, i: nat,
                  n: nat)
    requires ConfTree(g, t, words, texts, tr, c, i, n)
    ensures n == i + Words(tr)
  {
    hide PrefixTree, StartOf;
    if c < |t.nts| && i < |words| && n == i + 1 && tr == Leaf(t.nts[c], texts(i)) {
      LeafWords(t.nts[c], texts(i));
    } else {
      var d: nat, r: nat :|
        InRule(g, t, d, r, c) && PrefixTree(g, words, texts, tr, d, r, c - StartOf(g, t, d, r), i, n);
      PrefixWords(g, words, texts, tr, d, r, c - StartOf(g, t, d, r), i, n);
    }
  }

  // ----- a tree tells its rule -----

  /** The symbol at the root. */
  lemma RootSymbol(g: seq<Def>, words: seq<seq<Symbol>>, texts: int -> string, tr: T.Tree, x: Symbol, i: nat, j: nat)
    requires IsTree(g, words, texts, tr, x, i, j)
    ensures tr.Branch? && tr.parts != [] && tr.parts[0].Label? && tr.parts[0].name.head == x
  {
    TreeOrLeaf(g, words, texts, tr, x, i, j);
    hide IsTree;
  }

  /** Two rules that make one tree have the same symbols. */
  lemma SameSymbols(g: seq<Def>, words: seq<seq<Symbol>>, texts: int -> string, tr: T.Tree, d: nat, r: nat, o: nat,
                    e: nat, s: nat, i: nat, n: nat)
    requires PrefixTree(g, words, texts, tr, d, r, o, i, n) && PrefixTree(g, words, texts, tr, e, s, o, i, n)
    ensures g[d].head == g[e].head && r == s && g[d].rules[r][..o] == g[e].rules[s][..o]
  {
    hide IsTree;
    var cuts: seq<nat> :| Cut(cuts, o, i, n) && forall q :: 0 <= q < o ==>
      IsTree(g, words, texts, tr.parts[q + 1], g[d].rules[r][q], cuts[q], cuts[q + 1]);
    var cuts': seq<nat> :| Cut(cuts', o, i, n) && forall q :: 0 <= q < o ==>
      IsTree(g, words, texts, tr.parts[q + 1], g[e].rules[s][q], cuts'[q], cuts'[q + 1]);
    forall q | 0 <= q < o ensures g[d].rules[r][q] == g[e].rules[s][q] {
      RootSymbol(g, words, texts, tr.parts[q + 1], g[d].rules[r][q], cuts[q], cuts[q + 1]);
      RootSymbol(g, words, texts, tr.parts[q + 1], g[e].rules[s][q], cuts'[q], cuts'[q + 1]);
    }
  }

  /** The end of a nonterminal that a tree is made at. */
  lemma EnderOf(g: seq<Def>, t: Tables, words: seq<seq<Symbol>>, texts: int -> string, tr: T.Tree, b: nat, e: nat,
                e': nat, k: nat, j: nat)
    requires BuiltFrom(t, g) && NoTwins(g) && b < |t.nts|
    requires e < |t.steps| && t.steps[e] == b - |t.nts| && e' < |t.steps| && t.steps[e'] == b - |t.nts|
    requires ConfTree(g, t, words, texts, tr, e, k, j) && ConfTree(g, t, words, texts, tr, e', k, j)
    ensures e == e'
  {
    hide BuiltFrom, IsTree, PrefixTree, StartOf, NoTwins;
    if e < |t.nts| { NtStep(g, t, e); NtNotInRule(g, t, e); }
    if e' < |t.nts| { NtStep(g, t, e'); NtNotInRule(g, t, e'); }
    if e >= |t.nts| {
      var d: nat, r: nat :|
        InRule(g, t, d, r, e) && PrefixTree(g, words, texts, tr, d, r, e - StartOf(g, t, d, r), k, j);
      StepInRule(g, t, d, r, e);
      PrefixNumber(g, words, texts, tr, d, r, |g[d].rules[r]|, k, j);
      if e' >= |t.nts| {
        var d': nat, r': nat :|
          InRule(g, t, d', r', e') && PrefixTree(g, words, texts, tr, d', r', e' - StartOf(g, t, d', r'), k, j);
        StepInRule(g, t, d', r', e');
        PrefixNumber(g, words, texts, tr, d', r', |g[d'].rules[r']|, k, j);
        SameSymbols(g, words, texts, tr, d, r, |g[d].rules[r]|, d', r', k, j);
        SameRule(g, d, r, d');
      }
    } else if e' >= |t.nts| {
      var d: nat, r: nat :|
        InRule(g, t, d, r, e') && PrefixTree(g, words, texts, tr, d, r, e' - StartOf(g, t, d, r), k, j);
      StepInRule(g, t, d, r, e');
      PrefixNumber(g, words, texts, tr, d, r, |g[d].rules[r]|, k, j);
    }
  }

  lemma SameRule(g: seq<Def>, d: nat, r: nat, e: nat)
    requires NoTwins(g) && IsRule(g, d, r) && IsRule(g, e, r) && g[d].head == g[e].head
    requires |g[d].rules[r]| == |g[e].rules[r]|
    requires g[d].rules[r][..|g[d].rules[r]|] == g[e].rules[r][..|g[d].rules[r]|]
    ensures d == e
  {
    assert g[d].rules[r] == g[d].rules[r][..|g[d].rules[r]|] && g[e].rules[r] == g[e].rules[r][..|g[e].rules[r]|];
    assert Twins(g, d, e, r);
  }

  lemma PrefixNumber(g: seq<Def>, words: seq<seq<Symbol>>, texts: int -> string, tr: T.Tree, d: nat, r: nat, o: nat,
                     i: nat, n: nat)
    requires PrefixTree(g, words, texts, tr, d, r, o, i, n)
    ensures tr.Branch? && |tr.parts| == o + 1 && tr.parts[0] == T.Label(Name(g[d].head, r + 1)) && IsRule(g, d, r)
  {
    hide IsTree;
  }

  lemma NtNotInRule(g: seq<Def>, t: Tables, c: nat)
    requires BuiltFrom(t, g) && c < |t.nts|
    ensures forall d: nat, r: nat :: !InRule(g, t, d, r, c)
  {
    hide BuiltFrom, InRule;
    forall d: nat, r: nat ensures !InRule(g, t, d, r, c) {
      if InRule(g, t, d, r, c) { StepInRule(g, t, d, r, c); }
    }
  }

  // ----- lists without repetition -----

  lemma {:induction false} EndersOnce(steps: seq<int>, k: int)
    ensures Distinct(StepsAt(steps, k))
  {
    if steps != [] {
      var n := |steps| - 1;
      EndersOnce(steps[..n], k);
      var less := StepsAt(steps[..n], k);
      forall q | 0 <= q < |less| ensures less[q] != n { assert less[q] in less; }
    }
  }

  lemma NoRepeatsJoin(a: seq<T.Tree>, b: seq<T.Tree>)
    requires NoRepeats(a) && NoRepeats(b) && forall x :: x in a ==> x !in b
    ensures NoRepeats(a + b)
  {
    forall p, q | 0 <= p < q < |a + b| ensures (a + b)[p] != (a + b)[q] {
      if p < |a| <= q { assert a[p] in a && b[q - |a|] in b; }
    }
  }

  ghost predicate AllBranches(ts: seq<T.Tree>) { forall q :: 0 <= q < |ts| ==> ts[q].Branch? }

  lemma JoinOnce(pt: T.Tree, et: T.Tree, pt': T.Tree, et': T.Tree)
    requires pt.Branch? && pt'.Branch? && Join(pt, et) == Join(pt', et')
    ensures pt == pt' && et == et'
  {
    var a, b := pt.parts + [et], pt'.parts + [et'];
    assert pt.parts == a[..|a| - 1] && pt'.parts == b[..|b| - 1] && et == a[|a| - 1] && et' == b[|b| - 1];
  }

  lemma {:induction false} CombineOneOnce(prevs: seq<T.Tree>, et: T.Tree, trees: seq<T.Tree>)
    requires NoRepeats(prevs) && AllBranches(prevs) && NoRepeats(trees)
    requires forall pt :: pt in prevs ==> Join(pt, et) !in trees
    ensures NoRepeats(T.CombineOne(prevs, et, trees))
    decreases prevs
  {
    if prevs != [] {
      var pt := prevs[0];
      assert pt in prevs;
      NoRepeatsJoin([Join(pt, et)], trees);
      forall q | q in prevs[1..] ensures Join(q, et) !in [Join(pt, et)] + trees {
        var m :| 0 <= m < |prevs[1..]| && prevs[1..][m] == q;
        assert prevs[m + 1] == q && q in prevs;
        if Join(q, et) == Join(pt, et) { JoinOnce(q, et, pt, et); }
      }
      CombineOneOnce(prevs[1..], et, [Join(pt, et)] + trees);
    }
  }

  lemma {:induction false} CombineOnce(prevs: seq<T.Tree>, enders: seq<T.Tree>, trees: seq<T.Tree>)
    requires NoRepeats(prevs) && AllBranches(prevs) && NoRepeats(enders) && NoRepeats(trees)
    requires forall pt, et :: pt in prevs && et in enders ==> Join(pt, et) !in trees
    ensures NoRepeats(T.Combine(prevs, enders, trees))
    decreases enders
  {
    if enders != [] {
      var et := enders[0];
      assert et in enders;
      CombineOneOnce(prevs, et, trees);
      var more := T.CombineOne(prevs, et, trees);
      forall pt, e | pt in prevs && e in enders[1..] ensures Join(pt, e) !in more {
        CombineOneHas(prevs, et, trees, Join(pt, e));
        var m :| 0 <= m < |enders[1..]| && enders[1..][m] == e;
        assert enders[m + 1] == e && e in enders;
        forall q | q in prevs ensures Join(q, et) != Join(pt, e) {
          if Join(q, et) == Join(pt, e) { JoinOnce(q, et, pt, e); }
        }
      }
      CombineOnce(prevs, enders[1..], more);
    }
  }

  // ----- a tree splits in one way -----

  lemma SplitOnce(g: seq<Def>, t: Tables, words: seq<seq<Symbol>>, texts: int -> string, toks: seq<seq<nat>>, prev: nat,
                  e: nat, k: nat, e': nat, k': nat, i: nat, j: nat, tr: T.Tree)
    requires BuiltFrom(t, g) && NoTwins(g) && Ends(t, e, prev) && Ends(t, e', prev) && t.steps[prev] < |t.nts|
    requires Splits(g, t, words, texts, toks, prev, e, k, i, j, tr)
    requires Splits(g, t, words, texts, toks, prev, e', k', i, j, tr)
    ensures e == e' && k == k'
  {
    hide BuiltFrom, Used, ConfTree, NoTwins;
    var pt, et :| ConfTree(g, t, words, texts, pt, prev, i, k) && ConfTree(g, t, words, texts, et, e, k, j)
                  && tr == Join(pt, et);
    var pt', et' :| ConfTree(g, t, words, texts, pt', prev, i, k') && ConfTree(g, t, words, texts, et', e', k', j)
                    && tr == Join(pt', et');
    BranchTree(g, t, words, texts, pt, prev, i, k);
    BranchTree(g, t, words, texts, pt', prev, i, k');
    JoinOnce(pt, et, pt', et');
    ConfWords(g, t, words, texts, pt, prev, i, k);
    ConfWords(g, t, words, texts, pt', prev, i, k');
    EnderOf(g, t, words, texts, et, t.steps[prev], e, e', k, j);
  }

  lemma BranchTree(g: seq<Def>, t: Tables, words: seq<seq<Symbol>>, texts: int -> string, tr: T.Tree, c: nat, i: nat,
                   n: nat)
    requires ConfTree(g, t, words, texts, tr, c, i, n)
    ensures tr.Branch?
  {
    hide StartOf, IsTree;
  }

  // ----- no tree is listed twice -----

  /** None of the trees splits over one of the ends l. */
  ghost predicate Unsplit(g: seq<Def>, t: Tables, words: seq<seq<Symbol>>, texts: int -> string, toks: seq<seq<nat>>,
                          prev: nat, l: seq<nat>, i: nat, j: nat, trees: seq<T.Tree>) {
    forall tr, e: nat, k: nat :: tr in trees && e in l ==> !Splits(g, t, words, texts, toks, prev, e, k, i, j, tr)
  }

  ghost predicate AllEnd(t: Tables, l: seq<nat>, prev: nat) {
    prev < |t.steps| && t.steps[prev] < |t.nts| && forall e :: e in l ==> Ends(t, e, prev)
  }

  lemma {:induction false} TreesOnce(g: seq<Def>, t: Tables, words: seq<seq<Symbol>>, toks: seq<seq<nat>>, p: T.Parse,
                                     views: seq<View>, depth: nat, chain: nat, c: nat, i: nat, j: nat)
    requires Listing(g, t, words, toks, p, views) && NoTwins(g) && c < |t.names| && Used(t, toks, j, c, i)
    requires T.DerivTrees(t, p, depth, chain, c, i, j).Some?
    ensures NoRepeats(T.DerivTrees(t, p, depth, chain, c, i, j).value)
    decreases depth, 0, 0
  {
    hide BuiltFrom, Tokenized, Reads, Used, Splits, T.TreesOverEnders, NoTwins;
    if t.names[c].None? {
      var prev := c - 1;
      var l := t.enders[t.steps[prev]];
      NamedStart(g, t, c);
      BuiltIsSane(g, t);
      PredsKnown(t, t.steps[prev]);
      UsedBounds(t, toks, j, c, i);
      EndersListed(g, t, t.steps[prev]);
      EndersOnceAll(g, t, words, toks, p, views, depth - 1, chain, prev, i, j, l, []);
    }
  }

  lemma EndersListed(g: seq<Def>, t: Tables, b: nat)
    requires BuiltFrom(t, g) && b < |t.enders|
    ensures Distinct(t.enders[b])
  {
    hide NamesOfDefs, StepsOfDefs, NotedDefs;
    assert ListedAt(t.enders, t.predictors, t.steps, b);
    EndersOnce(t.steps, b - |t.enders|);
  }

  lemma {:induction false} EndersOnceAll(g: seq<Def>, t: Tables, words: seq<seq<Symbol>>, toks: seq<seq<nat>>,
                                         p: T.Parse, views: seq<View>, depth: nat, chain: nat, prev: nat, i: nat,
                                         j: nat, l: seq<nat>, l2: seq<T.Tree>)
    requires Listing(g, t, words, toks, p, views) && NoTwins(g) && prev < |t.names| && T.Known(t, l) && j <= |toks|
    requires AllEnd(t, l, prev) && Distinct(l) && NoRepeats(l2)
    requires Unsplit(g, t, words, p.toks, toks, prev, l, i, j, l2)
    requires T.TreesOverEnders(t, p, depth, chain, prev, i, j, l, l2).Some?
    ensures NoRepeats(T.TreesOverEnders(t, p, depth, chain, prev, i, j, l, l2).value)
    decreases depth, 2, |l|
  {
    hide BuiltFrom, Tokenized, Reads, Used, Splits, T.TreesOverChain, T.Tabled, NoTwins, NoRepeats;
    if l != [] {
      var e, starts := l[0], p.states(j, l[0]);
      assert l == [e] + l[1..] && e in l;
      TabledSizes(t);
      ViewsNumber(p, t, toks, views);
      ReadsAt(p, t, toks, views, j, e);
      var done := views[j].lists[e].done;
      var l3 := l2;
      if starts.Some? {
        assert done[0..] == done;
        ChainOnce(g, t, words, toks, p, views, depth, chain, chain, prev, e, i, j, 0, l2);
        l3 := T.TreesOverChain(t, p, depth, chain, chain, prev, e, i, j, starts.value, starts.value.first, l2).value;
      }
      forall tr, e': nat, k': nat | tr in l3 && e' in l[1..]
        ensures !Splits(g, t, words, p.toks, toks, prev, e', k', i, j, tr)
      {
        NotFirst(l, e');
        if starts.Some? { ChainExact(g, t, words, toks, p, views, depth, chain, chain, prev, e, i, j, 0, l2, tr); }
        if tr !in l2 && Splits(g, t, words, p.toks, toks, prev, e', k', i, j, tr) {
          var k: nat :| k in done && Splits(g, t, words, p.toks, toks, prev, e, k, i, j, tr);
          SplitOnce(g, t, words, p.toks, toks, prev, e, k, e', k', i, j, tr);
        }
      }
      EndersOnceAll(g, t, words, toks, p, views, depth, chain, prev, i, j, l[1..], l3);
    }
  }

  lemma NotFirst(l: seq<nat>, e: nat)
    requires Distinct(l) && l != [] && e in l[1..]
    ensures e in l && e != l[0] && Distinct(l[1..])
  {
    var m :| 0 <= m < |l[1..]| && l[1..][m] == e;
    assert l[m + 1] == e;
  }

  lemma {:induction false} ChainOnce(g: seq<Def>, t: Tables, words: seq<seq<Symbol>>, toks: seq<seq<nat>>, p: T.Parse,
                                     views: seq<View>, depth: nat, chain: nat, steps: nat, prev: nat, e: nat, i: nat,
                                     j: nat, q: nat, l2: seq<T.Tree>)
    requires Listing(g, t, words, toks, p, views) && NoTwins(g) && prev < |t.names| && e < |t.names| && j <= |toks|
    requires j < |views| && e < |views[j].lists| && q <= |views[j].lists[e].done| && p.states(j, e).Some?
    requires Ends(t, e, prev) && t.steps[prev] < |t.nts| && NoRepeats(l2)
    requires forall tr :: tr in l2 ==>
               !SplitsAmong(g, t, words, p.toks, toks, prev, e, views[j].lists[e].done[q..], i, j, tr)
    requires
      var s, k := p.states(j, e).value, At(views[j].lists[e].done, q);
      T.TreesOverChain(t, p, depth, chain, steps, prev, e, i, j, s, k, l2).Some?
    ensures
      var s, k := p.states(j, e).value, At(views[j].lists[e].done, q);
      NoRepeats(T.TreesOverChain(t, p, depth, chain, steps, prev, e, i, j, s, k, l2).value)
    decreases depth, 1, steps
  {
    hide BuiltFrom, Tokenized, Reads, Used, Splits, SplitsAmong, Distinct;
    hide T.Tabled, T.DerivTrees, T.InSet, NoTwins, NoRepeats, ConfTree;
    TabledSizes(t);
    ReadsAt(p, t, toks, views, j, e);
    var s, done := p.states(j, e).value, views[j].lists[e].done;
    if q < |done| {
      var k := done[q];
      assert done[q..] == [k] + done[q + 1..];
      assert Used(t, toks, j, e, k);
      UsedBounds(t, toks, j, e, k);
      InSetMeans(g, t, words, toks, p, views, k, prev, i);
      var l3 := l2;
      if k >= i && T.InSet(p, k, prev, i) {
        var prevs := T.DerivTrees(t, p, depth, chain, prev, i, k).value;
        var enders := T.DerivTrees(t, p, depth, chain, e, k, j).value;
        TreesExact(g, t, words, toks, p, views, depth, chain, prev, i, k);
        TreesExact(g, t, words, toks, p, views, depth, chain, e, k, j);
        TreesOnce(g, t, words, toks, p, views, depth, chain, prev, i, k);
        TreesOnce(g, t, words, toks, p, views, depth, chain, e, k, j);
        CombinedOnce(g, t, words, p.toks, toks, prevs, enders, prev, e, k, i, j, done, q, l2);
        l3 := T.Combine(prevs, enders, l2);
        forall tr | tr in l3 ensures !SplitsAmong(g, t, words, p.toks, toks, prev, e, done[q + 1..], i, j, tr) {
          CombineHas(prevs, enders, l2, tr);
          JoinedSplits(g, t, words, p.toks, toks, prevs, enders, prev, e, k, i, j, tr);
          LaterOnce(g, t, words, p.toks, toks, prev, e, done, q, i, j, tr, tr in l2);
        }
      } else {
        forall tr | tr in l3 ensures !SplitsAmong(g, t, words, p.toks, toks, prev, e, done[q + 1..], i, j, tr) {
          LaterOnce(g, t, words, p.toks, toks, prev, e, done, q, i, j, tr, true);
        }
      }
      ChainOnce(g, t, words, toks, p, views, depth, chain, steps - 1, prev, e, i, j, q + 1, l3);
    }
  }

  /** A tree listed before, or made at position q, does not split at a later one. */
  lemma LaterOnce(g: seq<Def>, t: Tables, words: seq<seq<Symbol>>, texts: int -> string, toks: seq<seq<nat>>, prev: nat,
                  e: nat, done: seq<nat>, q: nat, i: nat, j: nat, tr: T.Tree, before: bool)
    requires BuiltFrom(t, g) && NoTwins(g) && Ends(t, e, prev) && t.steps[prev] < |t.nts|
    requires Distinct(done) && q < |done|
    requires before ==> !SplitsAmong(g, t, words, texts, toks, prev, e, done[q..], i, j, tr)
    requires !before ==> Splits(g, t, words, texts, toks, prev, e, done[q], i, j, tr)
    ensures !SplitsAmong(g, t, words, texts, toks, prev, e, done[q + 1..], i, j, tr)
  {
    hide BuiltFrom, NoTwins, Splits;
    if SplitsAmong(g, t, words, texts, toks, prev, e, done[q + 1..], i, j, tr) {
      var k: nat :| k in done[q + 1..] && Splits(g, t, words, texts, toks, prev, e, k, i, j, tr);
      var m :| 0 <= m < |done[q + 1..]| && done[q + 1..][m] == k;
      assert done[q + 1 + m] == k && done[q..][m + 1] == k && k in done[q..];
      if !before { SplitOnce(g, t, words, texts, toks, prev, e, done[q], e, k, i, j, tr); }
    }
  }

  lemma CombinedOnce(g: seq<Def>, t: Tables, words: seq<seq<Symbol>>, texts: int -> string, toks: seq<seq<nat>>,
                     prevs: seq<T.Tree>, enders: seq<T.Tree>, prev: nat, e: nat, k: nat, i: nat, j: nat,
                     done: seq<nat>, q: nat, l2: seq<T.Tree>)
    requires AreTrees(g, t, words, texts, prevs, prev, i, k) && AreTrees(g, t, words, texts, enders, e, k, j)
    requires Used(t, toks, k, prev, i) && Used(t, toks, j, e, k) && q < |done| && done[q] == k
    requires NoRepeats(prevs) && NoRepeats(enders) && NoRepeats(l2)
    requires forall tr :: tr in l2 ==> !SplitsAmong(g, t, words, texts, toks, prev, e, done[q..], i, j, tr)
    ensures NoRepeats(T.Combine(prevs, enders, l2))
  {
    hide Used, ConfTree, NoRepeats, Splits;
    forall m | 0 <= m < |prevs| ensures prevs[m].Branch? {
      assert prevs[m] in prevs;
      BranchTree(g, t, words, texts, prevs[m], prev, i, k);
    }
    assert done[q..][0] == k && k in done[q..];
    forall pt, et | pt in prevs && et in enders ensures Join(pt, et) !in l2 {
      JoinedSplits(g, t, words, texts, toks, prevs, enders, prev, e, k, i, j, Join(pt, et));
      assert SplitsAmong(g, t, words, texts, toks, prev, e, done[q..], i, j, Join(pt, et));
    }
    CombineOnce(prevs, enders, l2);
  }

  // ----- whole parses -----

  /** tr is made at end e, which is in the second table. */
  ghost predicate MadeAt(g: seq<Def>, t: Tables, words: seq<seq<Symbol>>, texts: int -> string, toks: seq<seq<nat>>,
                         e: nat, i: nat, j: nat, tr: T.Tree) {
    Used(t, toks, j, e, i) && ConfTree(g, t, words, texts, tr, e, i, j)
  }

  lemma {:induction false} TreesOfOnce(g: seq<Def>, t: Tables, words: seq<seq<Symbol>>, toks: seq<seq<nat>>, p: T.Parse,
                                       views: seq<View>, depth: nat, chain: nat, i: nat, j: nat, b: nat, l: seq<nat>,
                                       trees: seq<T.Tree>)
    requires Listing(g, t, words, toks, p, views) && NoTwins(g) && T.Known(t, l) && i <= j <= |toks| && b < |t.nts|
    requires Distinct(l) && NoRepeats(trees)
    requires forall e :: e in l ==> e < |t.steps| && t.steps[e] == b - |t.nts|
    requires forall tr, e :: tr in trees && e in l ==> !MadeAt(g, t, words, p.toks, toks, e, i, j, tr)
    requires T.TreesOf(t, p, depth, chain, i, j, l, trees).Found?
    ensures NoRepeats(T.TreesOf(t, p, depth, chain, i, j, l, trees).value)
    decreases l
  {
    hide BuiltFrom, Tokenized, Reads, Used, ConfTree, T.Tabled, T.DerivTrees, T.InSet, NoTwins, NoRepeats;
    if l != [] {
      var e := l[0];
      assert l == [e] + l[1..] && e in l;
      TabledSizes(t);
      InSetMeans(g, t, words, toks, p, views, j, e, i);
      var more := trees;
      if T.InSet(p, j, e, i) {
        var own := T.DerivTrees(t, p, depth, chain, e, i, j).value;
        TreesExact(g, t, words, toks, p, views, depth, chain, e, i, j);
        TreesOnce(g, t, words, toks, p, views, depth, chain, e, i, j);
        forall tr | tr in own ensures tr !in trees { assert MadeAt(g, t, words, p.toks, toks, e, i, j, tr); }
        NoRepeatsJoin(own, trees);
        more := own + trees;
      }
      forall tr, e' | tr in more && e' in l[1..] ensures !MadeAt(g, t, words, p.toks, toks, e', i, j, tr) {
        NotFirst(l, e');
        if tr !in trees && MadeAt(g, t, words, p.toks, toks, e', i, j, tr) {
          EnderOf(g, t, words, p.toks, tr, b, e, e', i, j);
        }
      }
      RestDistinct(l);
      TreesOfOnce(g, t, words, toks, p, views, depth, chain, i, j, b, l[1..], more);
    }
  }

  lemma RestDistinct(l: seq<nat>)
    requires Distinct(l) && l != []
    ensures Distinct(l[1..])
  {
  }

  /** parse->trees lists no tree twice. */
  lemma ListsOnce(g: seq<Def>, words: seq<seq<Symbol>>, t: Tables, toks: seq<seq<nat>>, back: Chart,
                  texts: int -> string, depth: nat, chain: nat, nt: Symbol, i: nat, j: nat)
    requires Parsed(g, words, t, toks, back) && NoTwins(g) && i <= j <= |words| && T.Tabled(t)
    requires T.ParseTrees(t, TableOf(back.states, texts), depth, chain, nt, i, j).Found?
    ensures NoRepeats(T.ParseTrees(t, TableOf(back.states, texts), depth, chain, nt, i, j).value)
  {
    hide BuiltFrom, TableOf, Reads, NoTwins, T.Tabled, T.TreesOf, Index;
    var p := TableOf(back.states, texts);
    TableReads(g, words, t, toks, back, texts);
    var b := Index(nt, t.nts);
    IndexKnown(t.nts, nt);
    BuiltIsSane(g, t);
    PredsKnown(t, b);
    TabledSizes(t);
    T.EndersKnown(t);
    EndersListed(g, t, b);
    TreesOfOnce(g, t, words, toks, p, back.views, depth, chain, i, j, b, t.enders[b], []);
  }

  lemma {:induction false} SetSize(ts: seq<T.Tree>, s: set<T.Tree>)
    requires NoRepeats(ts) && forall tr :: tr in s <==> tr in ts
    ensures |s| == |ts|
  {
    if ts == [] {
      assert s == {};
    } else {
      var n := |ts| - 1;
      assert ts == ts[..n] + [ts[n]];
      assert ts[n] !in ts[..n];
      SetSize(ts[..n], s - {ts[n]});
    }
  }

  /**
   parse->nb-trees, when it ends, is the number of derivation trees: the size of the set of them, if the
   nonterminal takes part from i to j in a derivation of the whole input, and 0 otherwise.
   */
  lemma CountsTrees(g: seq<Def>, words: seq<seq<Symbol>>, t: Tables, toks: seq<seq<nat>>, back: Chart,
                    texts: int -> string, depth: nat, chain: nat, nt: Symbol, i: nat, j: nat, trees: set<T.Tree>)
    requires Parsed(g, words, t, toks, back) && NoTwins(g) && i <= j <= |words| && T.Tabled(t)
    requires T.ParseNbTrees(t, TableOf(back.states, texts), depth, chain, nt, i, j).Found?
    requires forall tr :: tr in trees <==> TakesPart(g, words, nt, i, j) && IsTree(g, words, texts, tr, nt, i, j)
    ensures T.ParseNbTrees(t, TableOf(back.states, texts), depth, chain, nt, i, j).value == |trees|
  {
    hide BuiltFrom, TableOf, TakesPart, IsTree, T.Tabled, T.ParseTrees, T.ParseNbTrees, NoTwins, NoRepeats;
    var p := TableOf(back.states, texts);
    T.CountingAgreesForGrammar(t, g, p, depth, chain, nt, i, j);
    var listed := T.ParseTrees(t, p, depth, chain, nt, i, j).value;
    ListsOnce(g, words, t, toks, back, texts, depth, chain, nt, i, j);
    forall tr ensures tr in trees <==> tr in listed {
      ParseLists(g, words, t, toks, back, texts, depth, chain, nt, i, j, tr);
    }
    SetSize(listed, trees);
  }

  // ----- rules that occur twice -----

  lemma {:induction false} RuleOffsets(rules: seq<seq<Symbol>>, r: nat)
    requires r < |rules|
    ensures RuleOffset(rules, r) + |rules[r]| + 1 <= RuleOffset(rules, |rules|)
  {
    if r > 0 { RuleOffsets(rules[1..], r - 1); }
  }

  lemma {:induction false} DefOffsets(defs: seq<Def>, d: nat, e: nat)
    requires d < e < |defs|
    ensures DefOffset(defs, d) + RuleOffset(defs[d].rules, |defs[d].rules|) <= DefOffset(defs, e)
  {
    if d > 0 { DefOffsets(defs[1..], d - 1, e - 1); }
  }

  lemma StartsDiffer(g: seq<Def>, t: Tables, d: nat, e: nat, r: nat)
    requires IsRule(g, d, r) && IsRule(g, e, r) && d < e
    ensures StartOf(g, t, d, r) < StartOf(g, t, e, r)
  {
    RuleOffsets(g[d].rules, r);
    DefOffsets(g, d, e);
  }

  lemma {:induction false} Suffix(t: Tables, p: T.Parse, depth: nat, chain: nat, i: nat, j: nat, l: seq<nat>,
                                  trees: seq<T.Tree>) returns (before: seq<T.Tree>)
    requires T.Tabled(t) && T.Known(t, l) && T.TreesOf(t, p, depth, chain, i, j, l, trees).Found?
    ensures T.TreesOf(t, p, depth, chain, i, j, l, trees).value == before + trees
    decreases l
  {
    hide T.DerivTrees, T.Tabled;
    if l == [] {
      before := [];
    } else if T.InSet(p, j, l[0], i) {
      var own := T.DerivTrees(t, p, depth, chain, l[0], i, j).value;
      before := Suffix(t, p, depth, chain, i, j, l[1..], own + trees);
      before := before + own;
    } else {
      before := Suffix(t, p, depth, chain, i, j, l[1..], trees);
    }
  }

  /** A tree made at one of l is listed once more. */
  lemma {:induction false} ListedAgain(g: seq<Def>, t: Tables, words: seq<seq<Symbol>>, toks: seq<seq<nat>>, p: T.Parse,
                                       views: seq<View>, depth: nat, chain: nat, i: nat, j: nat, l: seq<nat>,
                                       trees: seq<T.Tree>, e: nat, tr: T.Tree)
    requires Listing(g, t, words, toks, p, views) && T.Known(t, l) && i <= j <= |toks| && e in l && e < |t.steps|
    requires T.TreesOf(t, p, depth, chain, i, j, l, trees).Found? && tr in trees
    requires MadeAt(g, t, words, p.toks, toks, e, i, j, tr)
    ensures !NoRepeats(T.TreesOf(t, p, depth, chain, i, j, l, trees).value)
    decreases l
  {
    hide BuiltFrom, Tokenized, Reads, Used, ConfTree, T.Tabled, T.DerivTrees, T.InSet;
    assert l == [l[0]] + l[1..] && l[0] in l;
    TabledSizes(t);
    InSetMeans(g, t, words, toks, p, views, j, l[0], i);
    var more := trees;
    if T.InSet(p, j, l[0], i) {
      var own := T.DerivTrees(t, p, depth, chain, l[0], i, j).value;
      TreesExact(g, t, words, toks, p, views, depth, chain, l[0], i, j);
      more := own + trees;
      if tr in own {
        var before := Suffix(t, p, depth, chain, i, j, l[1..], more);
        TwoPlaces(before, own, trees, tr);
      } else {
        ListedAgain(g, t, words, toks, p, views, depth, chain, i, j, l[1..], more, e, tr);
      }
    } else {
      ListedAgain(g, t, words, toks, p, views, depth, chain, i, j, l[1..], more, e, tr);
    }
  }

  lemma TwoPlaces(a: seq<T.Tree>, b: seq<T.Tree>, c: seq<T.Tree>, tr: T.Tree)
    requires tr in b && tr in c
    ensures !NoRepeats(a + (b + c))
  {
    var m :| 0 <= m < |b| && b[m] == tr;
    var n :| 0 <= n < |c| && c[n] == tr;
    var all := a + (b + c);
    assert all[|a| + m] == tr && all[|a| + |b| + n] == tr;
  }

  lemma {:induction false} ListedTwice(g: seq<Def>, t: Tables, words: seq<seq<Symbol>>, toks: seq<seq<nat>>, p: T.Parse,
                                       views: seq<View>, depth: nat, chain: nat, i: nat, j: nat, l: seq<nat>,
                                       trees: seq<T.Tree>, e: nat, e': nat, tr: T.Tree)
    requires Listing(g, t, words, toks, p, views) && T.Known(t, l) && i <= j <= |toks|
    requires e in l && e' in l && e != e' && e < |t.steps| && e' < |t.steps|
    requires T.TreesOf(t, p, depth, chain, i, j, l, trees).Found?
    requires MadeAt(g, t, words, p.toks, toks, e, i, j, tr) && MadeAt(g, t, words, p.toks, toks, e', i, j, tr)
    ensures !NoRepeats(T.TreesOf(t, p, depth, chain, i, j, l, trees).value)
    decreases l
  {
    hide BuiltFrom, Tokenized, Reads, Used, ConfTree, T.Tabled, T.DerivTrees, T.InSet, NoRepeats;
    assert l == [l[0]] + l[1..] && l[0] in l;
    TabledSizes(t);
    InSetMeans(g, t, words, toks, p, views, j, l[0], i);
    var more := trees;
    if T.InSet(p, j, l[0], i) {
      TreesExact(g, t, words, toks, p, views, depth, chain, l[0], i, j);
      more := T.DerivTrees(t, p, depth, chain, l[0], i, j).value + trees;
    }
    if l[0] == e {
      ListedAgain(g, t, words, toks, p, views, depth, chain, i, j, l[1..], more, e', tr);
    } else if l[0] == e' {
      ListedAgain(g, t, words, toks, p, views, depth, chain, i, j, l[1..], more, e, tr);
    } else {
      ListedTwice(g, t, words, toks, p, views, depth, chain, i, j, l[1..], more, e, e', tr);
    }
  }

  /** The end of a rule whose tree takes part is in the second table. */
  lemma RuleUsed(g: seq<Def>, t: Tables, words: seq<seq<Symbol>>, texts: int -> string, toks: seq<seq<nat>>, d: nat,
                 r: nat, i: nat, j: nat, tr: T.Tree)
    requires BuiltFrom(t, g) && Tokenized(t, words, toks) && IsRule(g, d, r) && TakesPart(g, words, g[d].head, i, j)
    requires PrefixTree(g, words, texts, tr, d, r, |g[d].rules[r]|, i, j)
    ensures
      var e := StartOf(g, t, d, r) + |g[d].rules[r]|;
      && MadeAt(g, t, words, texts, toks, e, i, j, tr) && g[d].head in t.nts
      && e < |t.steps| && t.steps[e] == Index(g[d].head, t.nts) - |t.nts|
  {
    hide BuiltFrom, Tokenized, Used, PrefixTree, PartWithin, Item, StartOf, DerivesAll, Index;
    var x, xs, s := g[d].head, g[d].rules[r], StartOf(g, t, d, r);
    var f: nat :| PartWithin(g, words, f, x, i, j);
    PartFound(g, t, words, toks, f, x, i, j);
    RuleHasConfs(g, t, d, r);
    StartersNumber(g, t);
    IndexKnown(t.nts, x);
    PrefixDerives(g, words, texts, tr, d, r, |xs|, i, j);
    var f1: nat :| DerivesAll(g, words, f1, xs[..|xs|], i, j);
    FoundAll(g, t, words, toks, f1, s, x, xs, |xs|, i, j);
    assert InRule(g, t, d, r, s + |xs|);
  }

  /** Where a rule stands in two definitions of its symbol, its trees are listed twice. */
  lemma TwinsRepeat(g: seq<Def>, words: seq<seq<Symbol>>, t: Tables, toks: seq<seq<nat>>, back: Chart,
                    texts: int -> string, depth: nat, chain: nat, d: nat, e: nat, r: nat, i: nat, j: nat, tr: T.Tree)
    requires Parsed(g, words, t, toks, back) && i <= j <= |words| && T.Tabled(t) && Twins(g, d, e, r) && d < e
    requires TakesPart(g, words, g[d].head, i, j) && PrefixTree(g, words, texts, tr, d, r, |g[d].rules[r]|, i, j)
    requires T.ParseTrees(t, TableOf(back.states, texts), depth, chain, g[d].head, i, j).Found?
    ensures !NoRepeats(T.ParseTrees(t, TableOf(back.states, texts), depth, chain, g[d].head, i, j).value)
  {
    hide BuiltFrom, TableOf, TakesPart, T.Tabled, T.TreesOf, Reads, Index, MadeAt, StartOf, IsTree;
    var p, nt := TableOf(back.states, texts), g[d].head;
    TableReads(g, words, t, toks, back, texts);
    TableTexts(back.states, texts);
    RuleUsed(g, t, words, texts, toks, d, r, i, j, tr);
    RuleUsed(g, t, words, texts, toks, e, r, i, j, tr);
    StartsDiffer(g, t, d, e, r);
    var b := Index(nt, t.nts);
    IndexKnown(t.nts, nt);
    BuiltIsSane(g, t);
    PredsKnown(t, b);
    TabledSizes(t);
    T.EndersKnown(t);
    var n := |g[d].rules[r]|;
    ListedTwice(g, t, words, toks, p, back.views, depth, chain, i, j, t.enders[b], [],
                StartOf(g, t, d, r) + n, StartOf(g, t, e, r) + n, tr);
  }
}
