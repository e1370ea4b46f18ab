/**
 The two procedures over a parser's state table (demo/v8_benchmark.js, 8565-8746): one lists the
 derivation trees of a configuration, the other only counts them. Both may recur without end when a
 grammar is circular, so both are given a depth and a chain length and say so when those run out.
 */
module EarleyTrees {
  import opened EarleyTables
  import opened Options

  /** Lists, with names and tokens as atoms. */
  datatype Tree = Label(name: Name) | Token(text: string) | Branch(parts: seq<Tree>)

  /** The set of positions where a configuration started: a chain of numbers that ends below 0, and a test. */
  datatype ConfSet = ConfSet(first: int, next: int -> int, has: int -> bool)

  /** The states of a parse and its tokens; any at all. */
  datatype Parse = Parse(states: (int, nat) -> Option<ConfSet>, toks: int -> string)

  predicate InSet(p: Parse, k: int, conf: nat, i: int) {
    p.states(k, conf).Some? && p.states(k, conf).value.has(i)
  }

  /** What both procedures rely on: steps and enders within the tables, and names where rules start. */
  ghost predicate Tabled(t: Tables) {
    && |t.names| == |t.steps| && |t.enders| == |t.nts|
    && (forall c :: 0 <= c < |t.steps| ==> t.steps[c] < |t.enders|)
    && (forall i :: 0 <= i < |t.enders| ==> Known(t, t.enders[i]))
    && (t.names != [] ==> t.nts != [])
    && (forall c :: 0 <= c < |t.names| ==> (t.names[c].Some? <==> c < |t.nts| || (c > 0 && t.steps[c - 1] < 0)))
  }

  ghost predicate Known(t: Tables, l: seq<nat>) { forall k :: 0 <= k < |l| ==> l[k] < |t.names| }

  // ----- listing -----

  /** Every tree of prevs with every tree of enders behind it, the last first. */
  function Combine(prevs: seq<Tree>, enders: seq<Tree>, trees: seq<Tree>): seq<Tree>
    decreases enders
  {
    if enders == [] then trees else Combine(prevs, enders[1..], CombineOne(prevs, enders[0], trees))
  }

  function CombineOne(prevs: seq<Tree>, ender: Tree, trees: seq<Tree>): seq<Tree>
    decreases prevs
  {
    if prevs == [] then trees
    else
      var joined := if prevs[0].Branch? then Branch(prevs[0].parts + [ender]) else prevs[0];
      CombineOne(prevs[1..], ender, [joined] + trees)
  }

  ghost function DerivTrees(t: Tables, p: Parse, depth: nat, chain: nat, conf: nat, i: int, j: int): Option<seq<Tree>>
    requires Tabled(t) && conf < |t.names|
    decreases depth, 0, 0
  {
    if depth == 0 then None
    else if t.names[conf].Some? then
      var name := t.names[conf].value;
      Some([Branch(if conf < |t.nts| then [Label(name), Token(p.toks(i))] else [Label(name)])])
    else
      TreesOverEnders(t, p, depth - 1, chain, conf - 1, i, j, t.enders[t.steps[conf - 1]], [])
  }

  ghost function TreesOverEnders(t: Tables, p: Parse, depth: nat, chain: nat, prev: nat, i: int, j: int, l1: seq<nat>,
                                 l2: seq<Tree>): Option<seq<Tree>>
    requires Tabled(t) && prev < |t.names| && Known(t, l1)
    decreases depth, 2, |l1|
  {
    if l1 == [] then Some(l2)
    else
      var starts := p.states(j, l1[0]);
      if starts.None? then TreesOverEnders(t, p, depth, chain, prev, i, j, l1[1..], l2)
      else
        var r := TreesOverChain(t, p, depth, chain, chain, prev, l1[0], i, j, starts.value, starts.value.first, l2);
        if r.None? then None else TreesOverEnders(t, p, depth, chain, prev, i, j, l1[1..], r.value)
  }

  ghost function TreesOverChain(t: Tables, p: Parse, depth: nat, chain: nat, steps: nat, prev: nat, ender: nat, i: int,
                                j: int, s: ConfSet, k: int, l2: seq<Tree>): Option<seq<Tree>>
    requires Tabled(t) && prev < |t.names| && ender < |t.names|
    decreases depth, 1, steps
  {
    if k < 0 then Some(l2)
    else if steps == 0 then None
    else if k >= i && InSet(p, k, prev, i) then
      var prevs := DerivTrees(t, p, depth, chain, prev, i, k);
      var enders := DerivTrees(t, p, depth, chain, ender, k, j);
      if prevs.None? || enders.None? then None
      else TreesOverChain(t, p, depth, chain, steps - 1, prev, ender, i, j, s, s.next(k),
          Combine(prevs.value, enders.value, l2))
    else TreesOverChain(t, p, depth, chain, steps - 1, prev, ender, i, j, s, s.next(k), l2)
  }

  // ----- counting -----

  ghost function NbDerivTrees(t: Tables, p: Parse, depth: nat, chain: nat, conf: nat, i: int, j: int): Option<nat>
    requires Tabled(t) && conf < |t.names|
    decreases depth, 0, 0
  {
    if depth == 0 then None
    else if conf < |t.nts| || (conf > 0 && t.steps[conf - 1] < 0) then Some(1)
    else NbOverEnders(t, p, depth - 1, chain, conf - 1, i, j, t.enders[t.steps[conf - 1]], 0)
  }

  ghost function NbOverEnders(t: Tables, p: Parse, depth: nat, chain: nat, prev: nat, i: int, j: int, l: seq<nat>,
                              n: nat): Option<nat>
    requires Tabled(t) && prev < |t.names| && Known(t, l)
    decreases depth, 2, |l|
  {
    if l == [] then Some(n)
    else
      var starts := p.states(j, l[0]);
      if starts.None? then NbOverEnders(t, p, depth, chain, prev, i, j, l[1..], n)
      else
        var r := NbOverChain(t, p, depth, chain, chain, prev, l[0], i, j, starts.value, starts.value.first, n);
        if r.None? then None else NbOverEnders(t, p, depth, chain, prev, i, j, l[1..], r.value)
  }

  ghost function NbOverChain(t: Tables, p: Parse, depth: nat, chain: nat, steps: nat, prev: nat, ender: nat, i: int,
                             j: int, s: ConfSet, k: int, n: nat): Option<nat>
    requires Tabled(t) && prev < |t.names| && ender < |t.names|
    decreases depth, 1, steps
  {
    if k < 0 then Some(n)
    else if steps == 0 then None
    else if k >= i && InSet(p, k, prev, i) then
      var prevs := NbDerivTrees(t, p, depth, chain, prev, i, k);
      var enders := NbDerivTrees(t, p, depth, chain, ender, k, j);
      if prevs.None? || enders.None? then None
      else NbOverChain(t, p, depth, chain, steps - 1, prev, ender, i, j, s, s.next(k), n + prevs.value * enders.value)
    else NbOverChain(t, p, depth, chain, steps - 1, prev, ender, i, j, s, s.next(k), n)
  }

  // ----- they agree -----

  function Count(trees: Option<seq<Tree>>): Option<nat> { if trees.None? then None else Some(|trees.value|) }

  lemma {:induction false} CombineOneCount(prevs: seq<Tree>, ender: Tree, trees: seq<Tree>)
    ensures |CombineOne(prevs, ender, trees)| == |trees| + |prevs|
    decreases prevs
  {
    if prevs != [] {
      var joined := if prevs[0].Branch? then Branch(prevs[0].parts + [ender]) else prevs[0];
      CombineOneCount(prevs[1..], ender, [joined] + trees);
    }
  }

  lemma {:induction false} CombineCount(prevs: seq<Tree>, enders: seq<Tree>, trees: seq<Tree>)
    ensures |Combine(prevs, enders, trees)| == |trees| + |prevs| * |enders|
    decreases enders
  {
    if enders != [] {
      CombineOneCount(prevs, enders[0], trees);
      CombineCount(prevs, enders[1..], CombineOne(prevs, enders[0], trees));
      assert |prevs| * |enders| == |prevs| * (|enders| - 1) + |prevs|;
    }
  }

  /** At every depth, for every state table, as many trees are counted as are listed. */
  lemma {:induction false} CountingAgrees(t: Tables, p: Parse, depth: nat, chain: nat, conf: nat, i: int, j: int)
    requires Tabled(t) && conf < |t.names|
    ensures NbDerivTrees(t, p, depth, chain, conf, i, j) == Count(DerivTrees(t, p, depth, chain, conf, i, j))
    decreases depth, 0, 0
  {
    if depth > 0 && t.names[conf].None? {
      OverEndersAgree(t, p, depth - 1, chain, conf - 1, i, j, t.enders[t.steps[conf - 1]], []);
    }
  }

  lemma {:induction false} OverEndersAgree(t: Tables, p: Parse, depth: nat, chain: nat, prev: nat, i: int, j: int,
                                           l: seq<nat>, l2: seq<Tree>)
    requires Tabled(t) && prev < |t.names| && Known(t, l)
    ensures NbOverEnders(t, p, depth, chain, prev, i, j, l, |l2|)
            == Count(TreesOverEnders(t, p, depth, chain, prev, i, j, l, l2))
    decreases depth, 2, |l|
  {
    if l != [] {
      var starts := p.states(j, l[0]);
      if starts.None? {
        OverEndersAgree(t, p, depth, chain, prev, i, j, l[1..], l2);
      } else {
        OverChainAgrees(t, p, depth, chain, chain, prev, l[0], i, j, starts.value, starts.value.first, l2);
        var r := TreesOverChain(t, p, depth, chain, chain, prev, l[0], i, j, starts.value, starts.value.first, l2);
        if r.Some? {
          OverEndersAgree(t, p, depth, chain, prev, i, j, l[1..], r.value);
        }
      }
    }
  }

  lemma {:induction false} OverChainAgrees(t: Tables, p: Parse, depth: nat, chain: nat, steps: nat, prev: nat,
                                           ender: nat, i: int, j: int, s: ConfSet, k: int, l2: seq<Tree>)
    requires Tabled(t) && prev < |t.names| && ender < |t.names|
    ensures NbOverChain(t, p, depth, chain, steps, prev, ender, i, j, s, k, |l2|)
            == Count(TreesOverChain(t, p, depth, chain, steps, prev, ender, i, j, s, k, l2))
    decreases depth, 1, steps
  {
    if k >= 0 && steps > 0 {
      if k >= i && InSet(p, k, prev, i) {
        CountingAgrees(t, p, depth, chain, prev, i, k);
        CountingAgrees(t, p, depth, chain, ender, k, j);
        var prevs, enders := DerivTrees(t, p, depth, chain, prev, i, k), DerivTrees(t, p, depth, chain, ender, k, j);
        if prevs.Some? && enders.Some? {
          CombineCount(prevs.value, enders.value, l2);
          OverChainAgrees(t, p, depth, chain, steps - 1, prev, ender, i, j, s, s.next(k),
              Combine(prevs.value, enders.value, l2));
        }
      } else {
        OverChainAgrees(t, p, depth, chain, steps - 1, prev, ender, i, j, s, s.next(k), l2);
      }
    }
  }

  // ----- the bounds only bound -----

  /** An answer found within some bounds is the answer within all greater bounds. */
  lemma {:induction false} BoundsOnlyBound(t: Tables, p: Parse, depth: nat, deeper: nat, chain: nat, longer: nat,
                                           conf: nat, i: int, j: int)
    requires Tabled(t) && conf < |t.names| && depth <= deeper && chain <= longer
    requires DerivTrees(t, p, depth, chain, conf, i, j).Some?
    ensures DerivTrees(t, p, deeper, longer, conf, i, j) == DerivTrees(t, p, depth, chain, conf, i, j)
    decreases depth, 0, 0
  {
    if t.names[conf].None? {
      EndersBounds(t, p, depth - 1, deeper - 1, chain, longer, conf - 1, i, j, t.enders[t.steps[conf - 1]], []);
    }
  }

  lemma {:induction false} EndersBounds(t: Tables, p: Parse, depth: nat, deeper: nat, chain: nat, longer: nat,
                                        prev: nat, i: int, j: int, l: seq<nat>, l2: seq<Tree>)
    requires Tabled(t) && prev < |t.names| && Known(t, l) && depth <= deeper && chain <= longer
    requires TreesOverEnders(t, p, depth, chain, prev, i, j, l, l2).Some?
    ensures TreesOverEnders(t, p, deeper, longer, prev, i, j, l, l2)
            == TreesOverEnders(t, p, depth, chain, prev, i, j, l, l2)
    decreases depth, 2, |l|
  {
    if l != [] {
      var starts := p.states(j, l[0]);
      if starts.None? {
        EndersBounds(t, p, depth, deeper, chain, longer, prev, i, j, l[1..], l2);
      } else {
        var s := starts.value;
        ChainBounds(t, p, depth, deeper, chain, longer, chain, longer, prev, l[0], i, j, s, s.first, l2);
        var r := TreesOverChain(t, p, depth, chain, chain, prev, l[0], i, j, s, s.first, l2);
        EndersBounds(t, p, depth, deeper, chain, longer, prev, i, j, l[1..], r.value);
      }
    }
  }

  lemma {:induction false} ChainBounds(t: Tables, p: Parse, depth: nat, deeper: nat, chain: nat, longer: nat,
                                       steps: nat, more: nat, prev: nat, ender: nat, i: int, j: int, s: ConfSet, k: int,
                                       l2: seq<Tree>)
    requires Tabled(t) && prev < |t.names| && ender < |t.names| && depth <= deeper && chain <= longer && steps <= more
    requires TreesOverChain(t, p, depth, chain, steps, prev, ender, i, j, s, k, l2).Some?
    ensures
      TreesOverChain(t, p, deeper, longer, more, prev, ender, i, j, s, k, l2)
      == TreesOverChain(t, p, depth, chain, steps, prev, ender, i, j, s, k, l2)
    decreases depth, 1, steps
  {
    if k >= 0 {
      var next := s.next(k);
      if k >= i && InSet(p, k, prev, i) {
        BoundsOnlyBound(t, p, depth, deeper, chain, longer, prev, i, k);
        BoundsOnlyBound(t, p, depth, deeper, chain, longer, ender, k, j);
        var prevs, enders := DerivTrees(t, p, depth, chain, prev, i, k), DerivTrees(t, p, depth, chain, ender, k, j);
        var l3 := Combine(prevs.value, enders.value, l2);
        ChainBounds(t, p, depth, deeper, chain, longer, steps - 1, more - 1, prev, ender, i, j, s, next, l3);
      } else {
        ChainBounds(t, p, depth, deeper, chain, longer, steps - 1, more - 1, prev, ender, i, j, s, next, l2);
      }
    }
  }

  // ----- whole parses -----

  /** A nonterminal the grammar does not have gives no answer, which is not the same as no tree. */
  datatype Answer<T> = Unknown | RanOut | Found(value: T)

  ghost function ParseTrees(t: Tables, p: Parse, depth: nat, chain: nat, nt: Symbol, i: int, j: int): Answer<seq<Tree>>
    requires Tabled(t)
  {
    var n := Index(nt, t.nts);
    if n < 0 then Unknown else TreesOf(t, p, depth, chain, i, j, t.enders[n], [])
  }

  ghost function TreesOf(t: Tables, p: Parse, depth: nat, chain: nat, i: int, j: int, l: seq<nat>,
                         trees: seq<Tree>): Answer<seq<Tree>>
    requires Tabled(t) && Known(t, l)
    decreases l
  {
    if l == [] then Found(trees)
    else if InSet(p, j, l[0], i) then
      var more := DerivTrees(t, p, depth, chain, l[0], i, j);
      if more.None? then RanOut else TreesOf(t, p, depth, chain, i, j, l[1..], more.value + trees)
    else TreesOf(t, p, depth, chain, i, j, l[1..], trees)
  }

  ghost function ParseNbTrees(t: Tables, p: Parse, depth: nat, chain: nat, nt: Symbol, i: int, j: int): Answer<nat>
    requires Tabled(t)
  {
    var n := Index(nt, t.nts);
    if n < 0 then Unknown else NbTreesOf(t, p, depth, chain, i, j, t.enders[n], 0)
  }

  ghost function NbTreesOf(t: Tables, p: Parse, depth: nat, chain: nat, i: int, j: int, l: seq<nat>,
                           n: nat): Answer<nat>
    requires Tabled(t) && Known(t, l)
    decreases l
  {
    if l == [] then Found(n)
    else if InSet(p, j, l[0], i) then
      var more := NbDerivTrees(t, p, depth, chain, l[0], i, j);
      if more.None? then RanOut else NbTreesOf(t, p, depth, chain, i, j, l[1..], more.value + n)
    else NbTreesOf(t, p, depth, chain, i, j, l[1..], n)
  }

  /** The number of parses is the number of parses listed. */
  predicate SameNumber(n: Answer<nat>, trees: Answer<seq<Tree>>) {
    match trees
    case Unknown => n.Unknown?
    case RanOut => n.RanOut?
    case Found(ts) => n == Found(|ts|)
  }

  lemma {:induction false} NbOfAgrees(t: Tables, p: Parse, depth: nat, chain: nat, i: int, j: int, l: seq<nat>,
                                      trees: seq<Tree>)
    requires Tabled(t) && Known(t, l)
    ensures SameNumber(NbTreesOf(t, p, depth, chain, i, j, l, |trees|), TreesOf(t, p, depth, chain, i, j, l, trees))
    decreases l
  {
    hide DerivTrees, NbDerivTrees, Tabled;
    if l != [] {
      if InSet(p, j, l[0], i) {
        CountingAgrees(t, p, depth, chain, l[0], i, j);
        var more := DerivTrees(t, p, depth, chain, l[0], i, j);
        if more.Some? {
          NbOfAgrees(t, p, depth, chain, i, j, l[1..], more.value + trees);
        }
      } else {
        NbOfAgrees(t, p, depth, chain, i, j, l[1..], trees);
      }
    }
  }

  // ----- for the tables of any grammar -----

  ghost predicate Bounded(steps: seq<int>, n: nat) { forall c :: 0 <= c < |steps| ==> steps[c] < n }

  lemma {:induction false} RulesBounded(head: Symbol, rules: seq<seq<Symbol>>, nts: seq<Symbol>)
    requires nts != []
    ensures Bounded(StepsOfRules(head, rules, nts), |nts|)
  {
    if rules != [] {
      RulesBounded(head, rules[1..], nts);
    }
  }

  lemma {:induction false} DefsBounded(defs: seq<Def>, nts: seq<Symbol>)
    requires nts != []
    ensures Bounded(StepsOfDefs(defs, nts), |nts|)
  {
    if defs != [] {
      RulesBounded(defs[0].head, defs[0].rules, nts);
      DefsBounded(defs[1..], nts);
    }
  }

  lemma BuiltIsTabled(t: Tables, grammar: seq<Def>)
    requires BuiltFrom(t, grammar)
    ensures Tabled(t)
  {
    hide NamesOfDefs, StepsOfDefs, NotedDefs;
    TablesMarked(grammar);
    if t.names != [] && t.nts == [] {
      assert t.names == NamesOfDefs(grammar);
      FirstIsDefined(grammar);
    }
    if t.nts != [] {
      DefsBounded(grammar, t.nts);
    }
    forall i | 0 <= i < |t.enders| ensures Known(t, t.enders[i]) {
      forall k | 0 <= k < |t.enders[i]| ensures t.enders[i][k] < |t.names| {
        assert t.enders[i][k] in t.enders[i];
        assert ListedAt(t.enders, t.predictors, t.steps, i);
      }
    }
  }

  /** For any grammar, any state table and any bounds, counting agrees with listing. */
  lemma CountingAgreesForGrammar(t: Tables, grammar: seq<Def>, p: Parse, depth: nat, chain: nat, nt: Symbol, i: int,
                                 j: int)
    requires BuiltFrom(t, grammar)
    ensures Tabled(t)
    ensures SameNumber(ParseNbTrees(t, p, depth, chain, nt, i, j), ParseTrees(t, p, depth, chain, nt, i, j))
  {
    hide Tabled, BuiltFrom, TreesOf, NbTreesOf;
    BuiltIsTabled(t, grammar);
    EndersKnown(t);
    if Index(nt, t.nts) >= 0 {
      NbOfAgrees(t, p, depth, chain, i, j, t.enders[Index(nt, t.nts)], []);
    }
  }

  lemma EndersKnown(t: Tables)
    requires Tabled(t)
    ensures |t.enders| == |t.nts| && forall i :: 0 <= i < |t.enders| ==> Known(t, t.enders[i])
  {
  }
}
