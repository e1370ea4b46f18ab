/**
 The test of the Earley benchmark (demo/v8_benchmark.js, 8123 and 8930-8962): the grammar s -> a | s s over k times a.
 Its trees are the binary trees with k leaves, and their number, the one the benchmark expects for k = 7, is Catalan's.
 */
module EarleyCatalan {
  import opened EarleyCharts
  import opened EarleyCounting
  import opened EarleyDerivations
  import opened EarleyEnds
  import opened EarleyLanguages
  import opened EarleyTables
  import T = EarleyTrees

  const S: Symbol := "s"
  const A: Symbol := "a"
  const GRAMMAR: seq<Def> := [Def(S, [[A], [S, S]])]

  function Input(k: nat): seq<seq<Symbol>> { seq(k, _ => [A]) }

  /** The number of binary trees with n leaves, by the size of the left branch. */
  function Catalan(n: nat): nat
    decreases n, n + 1
  {
    if n == 0 then 0 else if n == 1 then 1 else Sum(n, n - 1)
  }

  function Sum(n: nat, m: nat): nat
    requires m < n
    decreases n, m + 1
  {
    if m == 0 then 0 else Sum(n, m - 1) + Catalan(m) * Catalan(n - m)
  }

  // ----- the trees -----

  ghost function Single(text: string): T.Tree { T.Branch([T.Label(Name(S, 1)), Leaf(A, text)]) }

  function Pair(l: T.Tree, r: T.Tree): T.Tree { T.Branch([T.Label(Name(S, 2)), l, r]) }

  ghost function Pairs(ls: set<T.Tree>, rs: set<T.Tree>): set<T.Tree> { set l, r | l in ls && r in rs :: Pair(l, r) }

  /** The trees over n words from i on. */
  ghost function Trees(texts: int -> string, i: nat, n: nat): set<T.Tree>
    decreases n, n + 1
  {
    if n == 0 then {} else if n == 1 then {Single(texts(i))} else Splits(texts, i, n, n - 1)
  }

  /** Those whose left branch has at most m words. */
  ghost function Splits(texts: int -> string, i: nat, n: nat, m: nat): set<T.Tree>
    requires m < n
    decreases n, m + 1
  {
    if m == 0 then {} else Splits(texts, i, n, m - 1) + Pairs(Trees(texts, i, m), Trees(texts, i + m, n - m))
  }

  lemma PairWords(l: T.Tree, r: T.Tree)
    ensures Words(Pair(l, r)) == Words(l) + Words(r)
  {
    var ps := Pair(l, r).parts;
    assert ps[0] == T.Label(Name(S, 2)) && ps[1..] == [l, r] && [l, r][1..] == [r];
    assert WordsAll(ps) == Words(ps[0]) + WordsAll(ps[1..]) && Words(ps[0]) == 0;
    assert WordsAll([l, r]) == Words(l) + WordsAll([l, r][1..]);
    OneTree(r);
  }

  lemma OneTree(tr: T.Tree)
    ensures WordsAll([tr]) == Words(tr)
  {
    assert [tr][1..] == [];
  }

  lemma SingleWords(text: string)
    ensures Words(Single(text)) == 1
  {
    LeafWords(A, text);
    var ps := Single(text).parts;
    assert ps[0] == T.Label(Name(S, 1)) && ps[1..] == [Leaf(A, text)];
    assert WordsAll(ps) == Words(ps[0]) + WordsAll(ps[1..]) && Words(ps[0]) == 0;
    OneTree(Leaf(A, text));
  }

  lemma {:induction false} TreesHaveWords(texts: int -> string, i: nat, n: nat, tr: T.Tree)
    requires tr in Trees(texts, i, n)
    ensures Words(tr) == n
    decreases n, n + 1
  {
    hide Words, Single;
    if n == 1 {
      SingleWords(texts(i));
    } else {
      SplitsHaveWords(texts, i, n, n - 1, tr);
    }
  }

  lemma {:induction false} SplitsHaveWords(texts: int -> string, i: nat, n: nat, m: nat, tr: T.Tree)
    requires m < n && tr in Splits(texts, i, n, m)
    ensures Words(tr) == n
    ensures exists l, r :: tr == Pair(l, r) && 1 <= Words(l) <= m
    decreases n, m + 1
  {
    hide Words, Pair;
    if tr in Splits(texts, i, n, m - 1) {
      SplitsHaveWords(texts, i, n, m - 1, tr);
    } else {
      var l, r :| l in Trees(texts, i, m) && r in Trees(texts, i + m, n - m) && tr == Pair(l, r);
      TreesHaveWords(texts, i, m, l);
      TreesHaveWords(texts, i + m, n - m, r);
      PairWords(l, r);
    }
  }

  // ----- how many there are -----

  lemma {:induction false} PairsSize(ls: set<T.Tree>, rs: set<T.Tree>)
    ensures |Pairs(ls, rs)| == |ls| * |rs|
    decreases |ls|
  {
    hide Pairs;
    if ls == {} {
      NoLeft(rs);
    } else {
      var l :| l in ls;
      PairsSize(ls - {l}, rs);
      OneLeft(l, rs);
      PairsSplit(ls, l, rs);
      assert |ls| * |rs| == (|ls| - 1) * |rs| + |rs|;
    }
  }

  lemma NoLeft(rs: set<T.Tree>)
    ensures Pairs({}, rs) == {}
  {
  }

  lemma PairsSplit(ls: set<T.Tree>, l: T.Tree, rs: set<T.Tree>)
    requires l in ls
    ensures Pairs(ls, rs) == Pairs(ls - {l}, rs) + Pairs({l}, rs) && Pairs(ls - {l}, rs) !! Pairs({l}, rs)
  {
    forall tr | tr in Pairs(ls - {l}, rs) ensures tr !in Pairs({l}, rs) {
      assert tr.parts[1] in ls - {l};
    }
  }

  lemma {:induction false} OneLeft(l: T.Tree, rs: set<T.Tree>)
    ensures |Pairs({l}, rs)| == |rs|
    decreases |rs|
  {
    if rs == {} {
      assert Pairs({l}, rs) == {};
    } else {
      var r :| r in rs;
      OneLeft(l, rs - {r});
      assert Pairs({l}, rs) == Pairs({l}, rs - {r}) + {Pair(l, r)};
      assert Pair(l, r) !in Pairs({l}, rs - {r});
    }
  }

  lemma {:induction false} TreesSize(texts: int -> string, i: nat, n: nat)
    ensures |Trees(texts, i, n)| == Catalan(n)
    decreases n, n + 1
  {
    hide Single;
    if n > 1 {
      SplitsSize(texts, i, n, n - 1);
    }
  }

  lemma {:induction false} SplitsSize(texts: int -> string, i: nat, n: nat, m: nat)
    requires m < n
    ensures |Splits(texts, i, n, m)| == Sum(n, m)
    decreases n, m + 1
  {
    hide Pairs, Words;
    if m > 0 {
      SplitsSize(texts, i, n, m - 1);
      TreesSize(texts, i, m);
      TreesSize(texts, i + m, n - m);
      PairsSize(Trees(texts, i, m), Trees(texts, i + m, n - m));
      SplitsDiffer(texts, i, n, m);
    }
  }

  lemma SplitsDiffer(texts: int -> string, i: nat, n: nat, m: nat)
    requires 0 < m < n
    ensures Splits(texts, i, n, m - 1) !! Pairs(Trees(texts, i, m), Trees(texts, i + m, n - m))
  {
    hide Words, Trees, Splits;
    var less, more := Splits(texts, i, n, m - 1), Pairs(Trees(texts, i, m), Trees(texts, i + m, n - m));
    if !(less !! more) {
      var tr :| tr in less && tr in more;
      SplitsHaveWords(texts, i, n, m - 1, tr);
      var l, r :| l in Trees(texts, i, m) && r in Trees(texts, i + m, n - m) && tr == Pair(l, r);
      TreesHaveWords(texts, i, m, l);
      assert false;
    }
  }

  // ----- they are the derivation trees -----

  /** A word derives only itself from a. */
  lemma WordTree(texts: int -> string, k: nat, tr: T.Tree, i: nat, j: nat)
    ensures IsTree(GRAMMAR, Input(k), texts, tr, A, i, j) <==> i < k && j == i + 1 && tr == Leaf(A, texts(i))
  {
  }

  /** A tree of s is of its first or of its second rule. */
  lemma SentenceTree(texts: int -> string, k: nat, tr: T.Tree, i: nat, j: nat)
    requires IsTree(GRAMMAR, Input(k), texts, tr, S, i, j)
    ensures
      || (i < k && j == i + 1 && tr == Single(texts(i)))
      || (exists l, r, c: nat ::
            && tr == Pair(l, r) && IsTree(GRAMMAR, Input(k), texts, l, S, i, c)
            && IsTree(GRAMMAR, Input(k), texts, r, S, c, j))
  {
    hide IsTree, Leaf;
    TreeOrLeaf(GRAMMAR, Input(k), texts, tr, S, i, j);
    assert S[0] != A[0];
    var d: nat, r: nat :| IsRule(GRAMMAR, d, r) && GRAMMAR[d].head == S
                          && PrefixTree(GRAMMAR, Input(k), texts, tr, d, r, |GRAMMAR[d].rules[r]|, i, j);
    var xs := GRAMMAR[d].rules[r];
    var cuts: seq<nat> :| Cut(cuts, |xs|, i, j) && forall q :: 0 <= q < |xs| ==>
      IsTree(GRAMMAR, Input(k), texts, tr.parts[q + 1], xs[q], cuts[q], cuts[q + 1]);
    assert IsTree(GRAMMAR, Input(k), texts, tr.parts[1], xs[0], cuts[0], cuts[1]);
    if r == 0 {
      WordTree(texts, k, tr.parts[1], i, j);
      assert tr.parts == [tr.parts[0], tr.parts[1]];
    } else {
      assert IsTree(GRAMMAR, Input(k), texts, tr.parts[2], xs[1], cuts[1], cuts[2]);
      assert tr.parts == [tr.parts[0], tr.parts[1], tr.parts[2]];
      assert tr == Pair(tr.parts[1], tr.parts[2]);
    }
  }

  lemma SingleIsTree(texts: int -> string, k: nat, i: nat)
    requires i < k
    ensures IsTree(GRAMMAR, Input(k), texts, Single(texts(i)), S, i, i + 1)
  {
    hide IsTree, Leaf;
    WordTree(texts, k, Leaf(A, texts(i)), i, i + 1);
    var tr, cuts := Single(texts(i)), [i, i + 1];
    assert Cut(cuts, 1, i, i + 1);
    assert PrefixTree(GRAMMAR, Input(k), texts, tr, 0, 0, 1, i, i + 1);
    assert IsRule(GRAMMAR, 0, 0);
    TreeOrLeaf(GRAMMAR, Input(k), texts, tr, S, i, i + 1);
  }

  lemma PairIsTree(texts: int -> string, k: nat, l: T.Tree, r: T.Tree, i: nat, c: nat, j: nat)
    requires IsTree(GRAMMAR, Input(k), texts, l, S, i, c) && IsTree(GRAMMAR, Input(k), texts, r, S, c, j)
    ensures IsTree(GRAMMAR, Input(k), texts, Pair(l, r), S, i, j)
  {
    hide IsTree;
    var tr, cuts := Pair(l, r), [i, c, j];
    assert Cut(cuts, 2, i, j);
    assert PrefixTree(GRAMMAR, Input(k), texts, tr, 0, 1, 2, i, j);
    assert IsRule(GRAMMAR, 0, 1);
    TreeOrLeaf(GRAMMAR, Input(k), texts, tr, S, i, j);
  }

  lemma {:induction false} TreesDerive(texts: int -> string, k: nat, i: nat, n: nat, tr: T.Tree)
    requires i + n <= k && tr in Trees(texts, i, n)
    ensures IsTree(GRAMMAR, Input(k), texts, tr, S, i, i + n)
    decreases n, n + 1
  {
    hide IsTree, Single;
    if n == 1 {
      SingleIsTree(texts, k, i);
    } else {
      SplitsDerive(texts, k, i, n, n - 1, tr);
    }
  }

  lemma {:induction false} SplitsDerive(texts: int -> string, k: nat, i: nat, n: nat, m: nat, tr: T.Tree)
    requires m < n && i + n <= k && tr in Splits(texts, i, n, m)
    ensures IsTree(GRAMMAR, Input(k), texts, tr, S, i, i + n)
    decreases n, m + 1
  {
    hide IsTree, Pair;
    if tr in Splits(texts, i, n, m - 1) {
      SplitsDerive(texts, k, i, n, m - 1, tr);
    } else {
      var l, r :| l in Trees(texts, i, m) && r in Trees(texts, i + m, n - m) && tr == Pair(l, r);
      TreesDerive(texts, k, i, m, l);
      TreesDerive(texts, k, i + m, n - m, r);
      PairIsTree(texts, k, l, r, i, i + m, i + n);
    }
  }

  lemma {:induction false} SplitsGrow(texts: int -> string, i: nat, n: nat, m: nat, q: nat)
    requires 0 < m <= q < n
    ensures Pairs(Trees(texts, i, m), Trees(texts, i + m, n - m)) <= Splits(texts, i, n, q)
    decreases q
  {
    hide Pairs, Trees;
    if m < q {
      SplitsGrow(texts, i, n, m, q - 1);
    }
  }

  lemma {:induction false} DerivedAreTrees(texts: int -> string, k: nat, i: nat, j: nat, tr: T.Tree)
    requires IsTree(GRAMMAR, Input(k), texts, tr, S, i, j)
    ensures i < j <= k && tr in Trees(texts, i, j - i)
    decreases tr
  {
    hide IsTree, Single, Splits;
    SentenceTree(texts, k, tr, i, j);
    if !(i < k && j == i + 1 && tr == Single(texts(i))) {
      var l, r, c: nat :| tr == Pair(l, r) && IsTree(GRAMMAR, Input(k), texts, l, S, i, c)
                          && IsTree(GRAMMAR, Input(k), texts, r, S, c, j);
      assert tr.parts[1] == l && tr.parts[2] == r;
      DerivedAreTrees(texts, k, i, c, l);
      DerivedAreTrees(texts, k, c, j, r);
      assert tr in Pairs(Trees(texts, i, c - i), Trees(texts, i + (c - i), j - i - (c - i)));
      SplitsGrow(texts, i, j - i, c - i, j - i - 1);
    }
  }

  // ----- what the benchmark counts -----

  lemma {:induction false} Heaviest(ts: set<T.Tree>) returns (w: nat)
    ensures forall tr :: tr in ts ==> Weight(tr) <= w
    decreases |ts|
  {
    if ts == {} {
      w := 0;
    } else {
      var tr :| tr in ts;
      w := Heaviest(ts - {tr});
      w := w + Weight(tr);
    }
  }

  lemma GrammarKnown(t: Tables)
    requires BuiltFrom(t, GRAMMAR)
    ensures T.Tabled(t) && S in t.nts && NoTwins(GRAMMAR)
  {
    hide T.Tabled, BuiltFrom;
    T.BuiltIsTabled(t, GRAMMAR);
    DistinctHeads(GRAMMAR);
    assert IsRule(GRAMMAR, 0, 0);
    RuleHasConfs(GRAMMAR, t, 0, 0);
  }

  /**
   parse->trees of the whole input ends, and whenever it does it has listed as many trees as there are binary trees
   with k leaves.
   */
  lemma BenchmarkTrees(k: nat, t: Tables, toks: seq<seq<nat>>, back: Chart, texts: int -> string)
    requires Parsed(GRAMMAR, Input(k), t, toks, back)
    ensures T.Tabled(t)
    ensures ListingEnds(t, TableOf(back.states, texts), S, 0, k)
    ensures
      forall depth: nat, chain: nat ::
        var r := T.ParseTrees(t, TableOf(back.states, texts), depth, chain, S, 0, k);
        r.Found? ==> |r.value| == Catalan(k)
  {
    hide BuiltFrom, TableOf, TakesPart, IsTree, T.Tabled, T.ParseTrees, NoTwins, NoRepeats, Weight, Trees;
    GrammarKnown(t);
    var p, words, trees := TableOf(back.states, texts), Input(k), Trees(texts, 0, k);
    forall tr
      ensures tr in trees <==> TakesPart(GRAMMAR, words, S, 0, k) && IsTree(GRAMMAR, words, texts, tr, S, 0, k)
    {
      if tr in trees {
        TreesDerive(texts, k, 0, k, tr);
        WholeTrees(GRAMMAR, words, texts, tr);
      }
      if IsTree(GRAMMAR, words, texts, tr, S, 0, k) {
        DerivedAreTrees(texts, k, 0, k, tr);
      }
    }
    var w := Heaviest(trees);
    assert Finite(GRAMMAR, words, texts, S, 0, k, w);
    EndsExactly(GRAMMAR, words, t, toks, back, texts, S, 0, k);
    forall depth: nat, chain: nat | T.ParseTrees(t, p, depth, chain, S, 0, k).Found?
      ensures |T.ParseTrees(t, p, depth, chain, S, 0, k).value| == Catalan(k)
    {
      var listed := T.ParseTrees(t, p, depth, chain, S, 0, k).value;
      ListsOnce(GRAMMAR, words, t, toks, back, texts, depth, chain, S, 0, k);
      forall tr ensures tr in trees <==> tr in listed {
        ParseLists(GRAMMAR, words, t, toks, back, texts, depth, chain, S, 0, k, tr);
      }
      SetSize(listed, trees);
      TreesSize(texts, 0, k);
    }
  }

  /** The number that the benchmark expects. */
  lemma SevenWords()
    ensures Catalan(7) == 132
  {
    assert Catalan(2) == 1;
    assert Catalan(3) == 2;
    assert Catalan(4) == 5;
    assert Catalan(5) == 14;
    assert Catalan(6) == 42;
  }
}
