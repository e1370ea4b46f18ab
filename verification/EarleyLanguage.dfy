/**
 What a grammar derives, and that an Earley parse finds exactly that (demo/v8_benchmark.js,
 8162-8274, 8426-8564 and 8748-8898).
 */
module EarleyLanguages {
  import opened EarleyBackward
  import opened EarleyCells
  import opened EarleyCharts
  import opened EarleyParsers
  import opened EarleyTables
  import opened Options

  // ----- derivations -----

  /** Symbol x derives the words from k to j, by rules nested at most f deep. A word is given by its classes. */
  ghost predicate Derives(g: seq<Def>, words: seq<seq<Symbol>>, f: nat, x: Symbol, k: nat, j: nat)
    decreases f, 0
  {
    || (k < |words| && j == k + 1 && x in words[k])
    || (f > 0 && exists d: nat, r: nat ::
          IsRule(g, d, r) && g[d].head == x && DerivesAll(g, words, f - 1, g[d].rules[r], k, j))
  }

  ghost predicate IsRule(g: seq<Def>, d: nat, r: nat) { d < |g| && r < |g[d].rules| }

  ghost predicate DerivesAll(g: seq<Def>, words: seq<seq<Symbol>>, f: nat, xs: seq<Symbol>, k: nat, j: nat)
    decreases f, |xs| + 1
  {
    if xs == [] then k == j
    else
      var ys, y := xs[..|xs| - 1], xs[|xs| - 1];
      exists m: nat :: DerivesAll(g, words, f, ys, k, m) && Derives(g, words, f, y, m, j)
  }

  ghost predicate InLanguage(g: seq<Def>, words: seq<seq<Symbol>>, x: Symbol, k: nat, j: nat) {
    exists f: nat :: Derives(g, words, f, x, k, j)
  }

  /** The symbols xs together derive the words from k to j. */
  ghost predicate AllInLanguage(g: seq<Def>, words: seq<seq<Symbol>>, xs: seq<Symbol>, k: nat, j: nat) {
    exists f: nat :: DerivesAll(g, words, f, xs, k, j)
  }

  lemma {:induction false} DeeperDerives(g: seq<Def>, words: seq<seq<Symbol>>, f: nat, f': nat, x: Symbol, k: nat,
                                         j: nat)
    requires Derives(g, words, f, x, k, j) && f <= f'
    ensures Derives(g, words, f', x, k, j)
    decreases f, 0
  {
    if !(k < |words| && j == k + 1 && x in words[k]) {
      var d: nat, r: nat :| IsRule(g, d, r) && g[d].head == x && DerivesAll(g, words, f - 1, g[d].rules[r], k, j);
      DeeperDerivesAll(g, words, f - 1, f' - 1, g[d].rules[r], k, j);
    }
  }

  lemma {:induction false} DeeperDerivesAll(g: seq<Def>, words: seq<seq<Symbol>>, f: nat, f': nat, xs: seq<Symbol>,
                                            k: nat, j: nat)
    requires DerivesAll(g, words, f, xs, k, j) && f <= f'
    ensures DerivesAll(g, words, f', xs, k, j)
    decreases f, |xs| + 1
  {
    if xs != [] {
      var ys, y := xs[..|xs| - 1], xs[|xs| - 1];
      var m: nat :| DerivesAll(g, words, f, ys, k, m) && Derives(g, words, f, y, m, j);
      DeeperDerivesAll(g, words, f, f', ys, k, m);
      DeeperDerives(g, words, f, f', y, m, j);
    }
  }

  // ----- rules in the tables -----

  /** The configurations of the rule x -> xs are those from s on. */
  ghost predicate RuleAt(t: Tables, s: nat, x: Symbol, xs: seq<Symbol>) {
    && |t.nts| <= s && s + |xs| < |t.steps| && x in t.nts
    && (forall d :: 0 <= d < |xs| ==> xs[d] in t.nts && t.steps[s + d] == Index(xs[d], t.nts))
    && t.steps[s + |xs|] == Index(x, t.nts) - |t.nts|
  }

  /** Where rule r of a definition starts, relative to the first. */
  ghost function RuleOffset(rules: seq<seq<Symbol>>, r: nat): nat
    requires r <= |rules|
  {
    if r == 0 then 0 else |rules[0]| + 1 + RuleOffset(rules[1..], r - 1)
  }

  ghost function DefOffset(defs: seq<Def>, d: nat): nat
    requires d <= |defs|
  {
    if d == 0 then 0 else RuleOffset(defs[0].rules, |defs[0].rules|) + DefOffset(defs[1..], d - 1)
  }

  lemma {:induction false} RulesLength(head: Symbol, number: nat, rules: seq<seq<Symbol>>, nts: seq<Symbol>)
    ensures |NamesOfRules(head, number, rules)| == |StepsOfRules(head, rules, nts)| == RuleOffset(rules, |rules|)
    decreases rules
  {
    if rules != [] {
      RuleLengths(head, number, rules[0], nts);
      RulesLength(head, number + 1, rules[1..], nts);
    }
  }

  /** The table part is found in ss at o. */
  ghost predicate Contains(ss: seq<int>, o: nat, part: seq<int>) {
    o + |part| <= |ss| && forall e :: 0 <= e < |part| ==> ss[o + e] == part[e]
  }

  lemma ContainsMore(a: seq<int>, b: seq<int>, o: nat, part: seq<int>)
    ensures Contains(b, o, part) ==> Contains(a + b, |a| + o, part)
    ensures Contains(a, o, part) ==> Contains(a + b, o, part)
  {
  }

  lemma {:induction false} RuleInRules(head: Symbol, number: nat, rules: seq<seq<Symbol>>, nts: seq<Symbol>, r: nat)
    requires r < |rules|
    ensures Contains(StepsOfRules(head, rules, nts), RuleOffset(rules, r), RuleSteps(head, rules[r], nts))
    ensures
      var ns := NamesOfRules(head, number, rules);
      RuleOffset(rules, r) < |ns| && ns[RuleOffset(rules, r)] == Some(Name(head, number + r))
    decreases rules
  {
    hide Contains, RuleSteps;
    RuleLengths(head, number, rules[0], nts);
    var a, b := RuleSteps(head, rules[0], nts), StepsOfRules(head, rules[1..], nts);
    if r == 0 {
      ContainsSelf(a);
      ContainsMore(a, b, 0, a);
    } else {
      RuleInRules(head, number + 1, rules[1..], nts, r - 1);
      ContainsMore(a, b, RuleOffset(rules[1..], r - 1), RuleSteps(head, rules[r], nts));
    }
  }

  lemma ContainsSelf(a: seq<int>)
    ensures Contains(a, 0, a)
  {
  }

  lemma {:induction false} RuleInDefs(defs: seq<Def>, nts: seq<Symbol>, d: nat, r: nat)
    requires IsRule(defs, d, r)
    ensures
      var o, ns := DefOffset(defs, d) + RuleOffset(defs[d].rules, r), NamesOfDefs(defs);
      && Contains(StepsOfDefs(defs, nts), o, RuleSteps(defs[d].head, defs[d].rules[r], nts))
      && o < |ns| && ns[o] == Some(Name(defs[d].head, r + 1))
    decreases defs
  {
    hide RuleSteps, StepsOfRules, NamesOfRules, Contains, RuleOffset;
    var head, rules := defs[0].head, defs[0].rules;
    RulesLength(head, 1, rules, nts);
    var a, b := StepsOfRules(head, rules, nts), StepsOfDefs(defs[1..], nts);
    var part := RuleSteps(defs[d].head, defs[d].rules[r], nts);
    if d == 0 {
      RuleInRules(head, 1, rules, nts, r);
      ContainsMore(a, b, RuleOffset(rules, r), part);
    } else {
      RuleInDefs(defs[1..], nts, d - 1, r);
      ContainsMore(a, b, DefOffset(defs[1..], d - 1) + RuleOffset(defs[d].rules, r), part);
    }
  }

  lemma {:induction false} DefsLength(defs: seq<Def>, nts: seq<Symbol>)
    ensures |NamesOfDefs(defs)| == |StepsOfDefs(defs, nts)| == DefOffset(defs, |defs|)
    decreases defs
  {
    if defs != [] {
      RulesLength(defs[0].head, 1, defs[0].rules, nts);
      DefsLength(defs[1..], nts);
    }
  }

  /** Every place in a definition's table belongs to one of its rules; a name stands at its start. */
  lemma {:induction false} PlaceInRules(head: Symbol, number: nat, rules: seq<seq<Symbol>>, o: nat) returns (r: nat)
    requires o < |NamesOfRules(head, number, rules)|
    ensures r < |rules| && RuleOffset(rules, r) <= o <= RuleOffset(rules, r) + |rules[r]|
    ensures NamesOfRules(head, number, rules)[o].Some? ==> o == RuleOffset(rules, r)
    decreases rules
  {
    RuleLengths(head, number, rules[0], []);
    var n := |rules[0]| + 1;
    if o < n {
      r := 0;
    } else {
      r := PlaceInRules(head, number + 1, rules[1..], o - n);
      r := r + 1;
    }
  }

  lemma {:induction false} PlaceInDefs(defs: seq<Def>, o: nat) returns (d: nat, r: nat)
    requires o < |NamesOfDefs(defs)|
    ensures IsRule(defs, d, r)
    ensures
      var s := DefOffset(defs, d) + RuleOffset(defs[d].rules, r);
      s <= o <= s + |defs[d].rules[r]| && (NamesOfDefs(defs)[o].Some? ==> o == s)
    decreases defs
  {
    hide NamesOfRules;
    RulesLength(defs[0].head, 1, defs[0].rules, []);
    var n := RuleOffset(defs[0].rules, |defs[0].rules|);
    if o < n {
      d := 0;
      r := PlaceInRules(defs[0].head, 1, defs[0].rules, o);
    } else {
      d, r := PlaceInDefs(defs[1..], o - n);
      d := d + 1;
    }
  }

  ghost function StartOf(g: seq<Def>, t: Tables, d: nat, r: nat): nat
    requires IsRule(g, d, r)
  {
    |t.nts| + DefOffset(g, d) + RuleOffset(g[d].rules, r)
  }

  /** Every rule of the grammar has its configurations, and its first is a starter of its head. */
  lemma RuleHasConfs(g: seq<Def>, t: Tables, d: nat, r: nat)
    requires BuiltFrom(t, g) && IsRule(g, d, r)
    ensures
      var s, x := StartOf(g, t, d, r), g[d].head;
      RuleAt(t, s, x, g[d].rules[r]) && s in t.starters[Index(x, t.nts)]
  {
    hide StepsOfDefs, NamesOfDefs, NotedDefs, Index;
    var x, xs, o := g[d].head, g[d].rules[r], DefOffset(g, d) + RuleOffset(g[d].rules, r);
    DefsKeep([], g);
    assert g[d] in g && xs in g[d].rules;
    assert Covers(t.nts, g[d]);
    RuleInDefs(g, t.nts, d, r);
    IndexKnown(t.nts, x);
    var s, part := |t.nts| + o, RuleSteps(x, xs, t.nts);
    ContainsMore(NtSteps(|t.nts|), StepsOfDefs(g, t.nts), o, part);
    assert t.names[s] == NamesOfDefs(g)[o];
    assert t.steps[s + |xs|] == part[|xs|];
    forall e | 0 <= e < |xs| ensures xs[e] in t.nts && t.steps[s + e] == Index(xs[e], t.nts) {
      assert xs[e] in xs && t.steps[s + e] == part[e];
    }
    assert IsName(t.names[s], t.nts, Index(x, t.nts));
  }

  lemma IndexKnown(nts: seq<Symbol>, x: Symbol)
    requires x in nts
    ensures 0 <= Index(x, nts) < |nts| && nts[Index(x, nts)] == x
  {
  }

  /** Every starter of a nonterminal is the first configuration of a rule for it. */
  lemma StarterIsRule(g: seq<Def>, t: Tables, b: nat, s: nat) returns (d: nat, r: nat)
    requires BuiltFrom(t, g) && b < |t.nts| && s in t.starters[b]
    ensures IsRule(g, d, r) && s == StartOf(g, t, d, r) && g[d].head == t.nts[b]
    ensures RuleAt(t, s, g[d].head, g[d].rules[r])
  {
    hide StepsOfDefs, NamesOfDefs, NotedDefs, Index;
    assert t.starters[b] == StartsAt(t.names, t.nts, b);
    assert IsName(t.names[s], t.nts, b);
    d, r := PlaceInDefs(g, s - |t.nts|);
    RuleHasConfs(g, t, d, r);
    RuleInDefs(g, t.nts, d, r);
    IndexKnown(t.nts, g[d].head);
  }

  /** Every configuration behind those of the nonterminals stands in a rule. */
  lemma ConfInRule(g: seq<Def>, t: Tables, c: nat) returns (d: nat, r: nat)
    requires BuiltFrom(t, g) && |t.nts| <= c < |t.steps|
    ensures IsRule(g, d, r) && StartOf(g, t, d, r) <= c <= StartOf(g, t, d, r) + |g[d].rules[r]|
    ensures RuleAt(t, StartOf(g, t, d, r), g[d].head, g[d].rules[r])
  {
    hide StepsOfDefs, NamesOfDefs, NotedDefs, Index, RuleAt;
    DefsLength(g, t.nts);
    d, r := PlaceInDefs(g, c - |t.nts|);
    RuleHasConfs(g, t, d, r);
  }

  /** The tables of every grammar are what the parser relies on. */
  lemma BuiltIsSane(g: seq<Def>, t: Tables)
    requires BuiltFrom(t, g)
    ensures Sane(t)
  {
    hide StepsOfDefs, NamesOfDefs, NotedDefs, Index, StartOf;
    DefsLength(g, t.nts);
    forall b | 0 <= b < |t.nts| ensures Below(t.starters[b], |t.steps|) {
      assert t.starters[b] == StartsAt(t.names, t.nts, b);
      forall k | 0 <= k < |t.starters[b]| ensures t.starters[b][k] < |t.steps| {
        assert t.starters[b][k] in t.starters[b];
      }
    }
    forall c | 0 <= c < |t.steps|
      ensures -|t.nts| <= t.steps[c] < |t.nts| && (t.steps[c] >= 0 ==> |t.nts| <= c && c + 1 < |t.steps|)
    {
      if c >= |t.nts| {
        var d, r := ConfInRule(g, t, c);
        var s, x, xs := StartOf(g, t, d, r), g[d].head, g[d].rules[r];
        IndexKnown(t.nts, x);
        if c < s + |xs| {
          assert t.steps[s + (c - s)] == Index(xs[c - s], t.nts);
          IndexKnown(t.nts, xs[c - s]);
        }
      }
    }
  }

  // ----- every nonterminal once -----

  ghost predicate Once(nts: seq<Symbol>) { forall i, j :: 0 <= i < j < |nts| ==> nts[i] != nts[j] }

  lemma {:induction false} NotedOnce(nts: seq<Symbol>, more: seq<Symbol>)
    requires Once(nts)
    ensures Once(NotedAll(nts, more))
    decreases more
  {
    if more != [] { NotedOnce(Noted(nts, more[0]), more[1..]); }
  }

  lemma {:induction false} RulesOnce(nts: seq<Symbol>, rules: seq<seq<Symbol>>)
    requires Once(nts)
    ensures Once(NotedRules(nts, rules))
    decreases rules
  {
    if rules != [] {
      NotedOnce(nts, rules[0]);
      RulesOnce(NotedAll(nts, rules[0]), rules[1..]);
    }
  }

  lemma {:induction false} DefsOnce(nts: seq<Symbol>, defs: seq<Def>)
    requires Once(nts)
    ensures Once(NotedDefs(nts, defs))
    decreases defs
  {
    if defs != [] {
      RulesOnce(Noted(nts, defs[0].head), defs[0].rules);
      DefsOnce(NotedRules(Noted(nts, defs[0].head), defs[0].rules), defs[1..]);
    }
  }

  lemma IndexOnce(g: seq<Def>, t: Tables, b: nat)
    requires BuiltFrom(t, g) && b < |t.nts|
    ensures Index(t.nts[b], t.nts) == b
  {
    hide StepsOfDefs, NamesOfDefs, NotedDefs;
    DefsOnce([], g);
    IndexKnown(t.nts, t.nts[b]);
  }

  // ----- every derivation is found -----

  /** The nonterminals that a word's classes are, as far as the grammar has them. */
  ghost predicate Tokenized(t: Tables, words: seq<seq<Symbol>>, toks: seq<seq<nat>>) {
    && |toks| == |words|
    && forall k: nat, b: nat {:trigger b in toks[k]} :: k < |toks| ==>
         (b in toks[k] <==> b < |t.nts| && t.nts[b] in words[k])
  }

  lemma NtStep(g: seq<Def>, t: Tables, b: nat)
    requires BuiltFrom(t, g) && b < |t.nts|
    ensures b < |t.steps| && t.steps[b] == b - |t.nts|
  {
    hide StepsOfDefs, NamesOfDefs, NotedDefs;
  }

  /** What stands behind a configuration and derives the words up to j takes it there. */
  lemma {:induction false} Found(g: seq<Def>, t: Tables, words: seq<seq<Symbol>>, toks: seq<seq<nat>>, f: nat,
                                 x: Symbol,
                                 k: nat, j: nat, c: nat, i: nat)
    requires BuiltFrom(t, g) && Tokenized(t, words, toks) && Derives(g, words, f, x, k, j)
    requires Item(t, toks, k, c, i) && c < |t.steps| && x in t.nts && t.steps[c] == Index(x, t.nts)
    ensures Item(t, toks, j, c + 1, i)
    decreases f, 0
  {
    hide Item, BuiltFrom, DerivesAll, StartOf;
    IndexKnown(t.nts, x);
    var b := Index(x, t.nts);
    if k < |words| && j == k + 1 && x in words[k] {
      NtStep(g, t, b);
      GivenItem(t, toks, j, b, k);
      ItemPass(t, toks, j, b, k, c, i);
    } else {
      var d: nat, r: nat :| IsRule(g, d, r) && g[d].head == x && DerivesAll(g, words, f - 1, g[d].rules[r], k, j);
      var s, xs := StartOf(g, t, d, r), g[d].rules[r];
      RuleHasConfs(g, t, d, r);
      StartersNumber(g, t);
      ItemStart(t, toks, k, c, i, s);
      assert xs[..|xs|] == xs;
      FoundAll(g, t, words, toks, f - 1, s, x, xs, |xs|, k, j);
      ItemPass(t, toks, j, s + |xs|, k, c, i);
    }
  }

  lemma GivenItem(t: Tables, toks: seq<seq<nat>>, n: nat, c: nat, i: nat)
    requires Given(t, toks, n, c, i)
    ensures Item(t, toks, n, c, i)
  {
    assert Reached(t, toks, 0, n, c, i);
  }

  lemma StartersNumber(g: seq<Def>, t: Tables)
    requires BuiltFrom(t, g)
    ensures |t.starters| == |t.nts|
  {
  }

  lemma {:induction false} FoundAll(g: seq<Def>, t: Tables, words: seq<seq<Symbol>>, toks: seq<seq<nat>>, f: nat,
                                    s: nat,
                                    x: Symbol, xs: seq<Symbol>, d: nat, k: nat, j: nat)
    requires BuiltFrom(t, g) && Tokenized(t, words, toks) && RuleAt(t, s, x, xs) && d <= |xs|
    requires DerivesAll(g, words, f, xs[..d], k, j) && Item(t, toks, k, s, k)
    ensures Item(t, toks, j, s + d, k)
    decreases f, d + 1
  {
    hide Item, BuiltFrom, Derives, Tokenized;
    if d > 0 {
      assert xs[..d][..d - 1] == xs[..d - 1] && xs[..d][d - 1] == xs[d - 1];
      var ys, y := xs[..d - 1], xs[d - 1];
      var m: nat :| DerivesAll(g, words, f, ys, k, m) && Derives(g, words, f, y, m, j);
      FoundAll(g, t, words, toks, f, s, x, xs, d - 1, k, m);
      Found(g, t, words, toks, f, y, m, j, s + (d - 1), k);
    }
  }

  // ----- everything found is derived -----

  /** Configuration c stands in rule r of definition d behind symbols that derive the words from i to n. */
  ghost predicate Behind(g: seq<Def>, t: Tables, words: seq<seq<Symbol>>, d: nat, r: nat, c: nat, i: nat, n: nat) {
    && IsRule(g, d, r) && StartOf(g, t, d, r) <= c <= StartOf(g, t, d, r) + |g[d].rules[r]|
    && AllInLanguage(g, words, g[d].rules[r][..c - StartOf(g, t, d, r)], i, n)
  }

  /** What an item says about the words. */
  ghost predicate Denotes(g: seq<Def>, t: Tables, words: seq<seq<Symbol>>, c: nat, i: nat, n: nat) {
    || (c < |t.nts| && i < |words| && n == i + 1 && t.nts[c] in words[i])
    || exists d: nat, r: nat :: Behind(g, t, words, d, r, c, i, n)
  }

  /** A configuration that ends a rule for nonterminal b says that b derives the words. */
  lemma EnderDerives(g: seq<Def>, t: Tables, words: seq<seq<Symbol>>, b: nat, e: nat, k: nat, n: nat) returns (f: nat)
    requires BuiltFrom(t, g) && b < |t.nts| && e < |t.steps| && t.steps[e] == b - |t.nts|
    requires Denotes(g, t, words, e, k, n)
    ensures Derives(g, words, f, t.nts[b], k, n)
  {
    hide BuiltFrom, StartOf, DerivesAll;
    if e < |t.nts| && k < |words| && n == k + 1 && t.nts[e] in words[k] {
      NtStep(g, t, e);
      f := 0;
    } else {
      var d: nat, r: nat :| Behind(g, t, words, d, r, e, k, n);
      var s, x, xs := StartOf(g, t, d, r), g[d].head, g[d].rules[r];
      RuleHasConfs(g, t, d, r);
      IndexKnown(t.nts, x);
      assert e - s < |xs| ==> t.steps[s + (e - s)] == Index(xs[e - s], t.nts);
      assert xs[..|xs|] == xs;
      var f': nat :| DerivesAll(g, words, f', xs[..e - s], k, n);
      f := f' + 1;
    }
  }

  lemma {:induction false} ReachedDenotes(g: seq<Def>, t: Tables, words: seq<seq<Symbol>>, toks: seq<seq<nat>>, f: nat,
                                          n: nat, c: nat, i: nat)
    requires BuiltFrom(t, g) && Tokenized(t, words, toks) && Reached(t, toks, f, n, c, i)
    ensures Denotes(g, t, words, c, i, n)
    decreases f
  {
    hide BuiltFrom, StartOf, DerivesAll, Denotes, Ends, Starts;
    if Given(t, toks, n, c, i) {
      GivenDenotes(g, t, words, toks, n, c, i);
    } else {
      var f' := f - 1;
      if i == n && exists p: nat, h: nat :: Reached(t, toks, f', n, p, h) && Starts(t, c, p) {
        var p: nat, h: nat :| Reached(t, toks, f', n, p, h) && Starts(t, c, p);
        StartDenotes(g, t, words, n, c, p);
      } else {
        var e: nat, k: nat :| Reached(t, toks, f', n, e, k) && Reached(t, toks, f', k, c - 1, i) && Ends(t, e, c - 1);
        ReachedDenotes(g, t, words, toks, f', n, e, k);
        ReachedDenotes(g, t, words, toks, f', k, c - 1, i);
        PassDenotes(g, t, words, n, e, k, c - 1, i);
      }
    }
  }

  lemma StarterDenotes(g: seq<Def>, t: Tables, words: seq<seq<Symbol>>, b: nat, n: nat, s: nat)
    requires BuiltFrom(t, g) && b < |t.nts| && |t.starters| == |t.nts| && s in t.starters[b]
    ensures Denotes(g, t, words, s, n, n)
  {
    hide BuiltFrom, StartOf;
    var d, r := StarterIsRule(g, t, b, s);
    assert DerivesAll(g, words, 0, g[d].rules[r][..0], n, n);
    assert Behind(g, t, words, d, r, s, n, n);
  }

  lemma StartDenotes(g: seq<Def>, t: Tables, words: seq<seq<Symbol>>, n: nat, s: nat, p: nat)
    requires BuiltFrom(t, g) && Starts(t, s, p)
    ensures Denotes(g, t, words, s, n, n)
  {
    hide BuiltFrom, Denotes;
    StartersNumber(g, t);
    StarterDenotes(g, t, words, t.steps[p], n, s);
  }

  lemma GivenDenotes(g: seq<Def>, t: Tables, words: seq<seq<Symbol>>, toks: seq<seq<nat>>, n: nat, c: nat, i: nat)
    requires BuiltFrom(t, g) && Tokenized(t, words, toks) && Given(t, toks, n, c, i)
    ensures Denotes(g, t, words, c, i, n)
  {
    hide BuiltFrom, Behind;
    StartersNumber(g, t);
    if n == 0 { StarterDenotes(g, t, words, 0, 0, c); }
  }

  lemma PassDenotes(g: seq<Def>, t: Tables, words: seq<seq<Symbol>>, n: nat, e: nat, k: nat, p: nat, i: nat)
    requires BuiltFrom(t, g) && Ends(t, e, p) && Denotes(g, t, words, e, k, n) && Denotes(g, t, words, p, i, k)
    ensures Denotes(g, t, words, p + 1, i, n)
  {
    hide BuiltFrom, StartOf, DerivesAll, Derives;
    if p < |t.nts| { NtStep(g, t, p); }
    var d: nat, r: nat :| Behind(g, t, words, d, r, p, i, k);
    var s, xs := StartOf(g, t, d, r), g[d].rules[r];
    RuleHasConfs(g, t, d, r);
    IndexKnown(t.nts, g[d].head);
    var o := p - s;
    assert o < |xs| && t.steps[s + o] == Index(xs[o], t.nts);
    IndexKnown(t.nts, xs[o]);
    var f := EnderDerives(g, t, words, t.steps[p], e, k, n);
    var f': nat :| DerivesAll(g, words, f', xs[..o], i, k);
    OneMore(g, words, f', f, xs, o, i, k, n);
    assert Behind(g, t, words, d, r, p + 1, i, n);
  }

  lemma OneMore(g: seq<Def>, words: seq<seq<Symbol>>, f: nat, f': nat, xs: seq<Symbol>, o: nat, i: nat, k: nat, n: nat)
    requires o < |xs| && DerivesAll(g, words, f, xs[..o], i, k) && Derives(g, words, f', xs[o], k, n)
    ensures AllInLanguage(g, words, xs[..o + 1], i, n)
  {
    hide Derives;
    var m := if f < f' then f' else f;
    DeeperDerivesAll(g, words, f, m, xs[..o], i, k);
    DeeperDerives(g, words, f', m, xs[o], k, n);
    assert xs[..o + 1][..o] == xs[..o];
    assert DerivesAll(g, words, m, xs[..o + 1], i, n);
  }

  // ----- taking part in a parse of all words -----

  /** Rule r of definition d goes from a to b with x, its symbol o, from i to j. */
  ghost predicate Carries(g: seq<Def>, words: seq<seq<Symbol>>, d: nat, r: nat, o: nat, x: Symbol, a: nat, i: nat,
                          j: nat,
                          b: nat) {
    && IsRule(g, d, r) && o < |g[d].rules[r]| && g[d].rules[r][o] == x
    && AllInLanguage(g, words, g[d].rules[r][..o], a, i) && AllInLanguage(g, words, g[d].rules[r][o + 1..], j, b)
  }

  /** Some derivation of all words from the first symbol has x from i to j, at most f rules deep. */
  ghost predicate PartWithin(g: seq<Def>, words: seq<seq<Symbol>>, f: nat, x: Symbol, i: nat, j: nat)
    decreases f
  {
    && InLanguage(g, words, x, i, j)
    && (|| (g != [] && x == g[0].head && i == 0 && j == |words|)
        || (f > 0 && var f' := f - 1; exists d: nat, r: nat, o: nat, a: nat, b: nat ::
              Carries(g, words, d, r, o, x, a, i, j, b) && PartWithin(g, words, f', g[d].head, a, b)))
  }

  ghost predicate TakesPart(g: seq<Def>, words: seq<seq<Symbol>>, x: Symbol, i: nat, j: nat) {
    exists f: nat :: PartWithin(g, words, f, x, i, j)
  }

  lemma PartStep(g: seq<Def>, words: seq<seq<Symbol>>, d: nat, r: nat, o: nat, x: Symbol, a: nat, i: nat, j: nat,
                 b: nat)
    requires Carries(g, words, d, r, o, x, a, i, j, b) && InLanguage(g, words, x, i, j)
    requires TakesPart(g, words, g[d].head, a, b)
    ensures TakesPart(g, words, x, i, j)
  {
    hide InLanguage, AllInLanguage;
    var f: nat :| PartWithin(g, words, f, g[d].head, a, b);
    assert PartWithin(g, words, f + 1, x, i, j);
  }

  lemma {:induction false} FrontJoin(g: seq<Def>, words: seq<seq<Symbol>>, f: nat, x: Symbol, xs: seq<Symbol>, k: nat,
                                     m: nat, j: nat)
    requires Derives(g, words, f, x, k, m) && DerivesAll(g, words, f, xs, m, j)
    ensures DerivesAll(g, words, f, [x] + xs, k, j)
    decreases xs
  {
    hide Derives;
    var all := [x] + xs;
    if xs == [] {
      assert DerivesAll(g, words, f, [], k, k) && all[..0] == [] && all[0] == x;
    } else {
      var ys, y := xs[..|xs| - 1], xs[|xs| - 1];
      var q: nat :| DerivesAll(g, words, f, ys, m, q) && Derives(g, words, f, y, q, j);
      FrontJoin(g, words, f, x, ys, k, m, q);
      assert all[..|all| - 1] == [x] + ys && all[|all| - 1] == y;
    }
  }

  lemma {:induction false} FrontSplit(g: seq<Def>, words: seq<seq<Symbol>>, f: nat, xs: seq<Symbol>, k: nat, j: nat)
    returns (m: nat)
    requires xs != [] && DerivesAll(g, words, f, xs, k, j)
    ensures Derives(g, words, f, xs[0], k, m) && DerivesAll(g, words, f, xs[1..], m, j)
    decreases xs
  {
    hide Derives;
    var ys, y := xs[..|xs| - 1], xs[|xs| - 1];
    var q: nat :| DerivesAll(g, words, f, ys, k, q) && Derives(g, words, f, y, q, j);
    if ys == [] {
      m := j;
    } else {
      m := FrontSplit(g, words, f, ys, k, q);
      var zs := xs[1..];
      assert zs[..|zs| - 1] == ys[1..] && zs[|zs| - 1] == y && ys[0] == xs[0];
    }
  }

  lemma Prepend(g: seq<Def>, words: seq<seq<Symbol>>, f: nat, xs: seq<Symbol>, o: nat, k: nat, m: nat, j: nat)
    requires o < |xs| && Derives(g, words, f, xs[o], k, m) && AllInLanguage(g, words, xs[o + 1..], m, j)
    ensures AllInLanguage(g, words, xs[o..], k, j)
  {
    hide Derives, DerivesAll;
    var f': nat :| DerivesAll(g, words, f', xs[o + 1..], m, j);
    var h := if f < f' then f' else f;
    DeeperDerives(g, words, f, h, xs[o], k, m);
    DeeperDerivesAll(g, words, f', h, xs[o + 1..], m, j);
    FrontJoin(g, words, h, xs[o], xs[o + 1..], k, m, j);
    assert [xs[o]] + xs[o + 1..] == xs[o..];
  }

  // ----- what the second table says -----

  ghost predicate InRule(g: seq<Def>, t: Tables, d: nat, r: nat, c: nat) {
    IsRule(g, d, r) && StartOf(g, t, d, r) <= c <= StartOf(g, t, d, r) + |g[d].rules[r]|
  }

  /** From configuration c at n, its rule goes on to some b, and its head takes part from i to b. */
  ghost predicate GoesOn(g: seq<Def>, t: Tables, words: seq<seq<Symbol>>, d: nat, r: nat, c: nat, i: nat, n: nat)
    requires InRule(g, t, d, r, c)
  {
    exists b: nat :: TakesPart(g, words, g[d].head, i, b)
      && AllInLanguage(g, words, g[d].rules[r][c - StartOf(g, t, d, r)..], n, b)
  }

  ghost predicate UsedSays(g: seq<Def>, t: Tables, words: seq<seq<Symbol>>, c: nat, i: nat, n: nat) {
    && (c < |t.nts| ==> TakesPart(g, words, t.nts[c], i, n))
    && (forall d: nat, r: nat :: InRule(g, t, d, r, c) ==> GoesOn(g, t, words, d, r, c, i, n))
  }

  /** The step of a configuration in a rule: the nonterminal behind it, or the end of the rule. */
  lemma StepInRule(g: seq<Def>, t: Tables, d: nat, r: nat, c: nat)
    requires BuiltFrom(t, g) && InRule(g, t, d, r, c)
    ensures
      var o, x, xs := c - StartOf(g, t, d, r), g[d].head, g[d].rules[r];
      && |t.nts| <= c < |t.steps|
      && (t.steps[c] < 0 ==> o == |xs| && 0 <= t.steps[c] + |t.nts| < |t.nts| && t.nts[t.steps[c] + |t.nts|] == x)
      && (t.steps[c] >= 0 ==> o < |xs| && t.steps[c] < |t.nts| && t.nts[t.steps[c]] == xs[o])
  {
    hide BuiltFrom, Index;
    var s, x, xs := StartOf(g, t, d, r), g[d].head, g[d].rules[r];
    var o := c - s;
    RuleHasConfs(g, t, d, r);
    IndexKnown(t.nts, x);
    if o < |xs| {
      assert t.steps[s + o] == Index(xs[o], t.nts);
      IndexKnown(t.nts, xs[o]);
    }
  }

  lemma ItemDenotes(g: seq<Def>, t: Tables, words: seq<seq<Symbol>>, toks: seq<seq<nat>>, n: nat, c: nat, i: nat)
    requires BuiltFrom(t, g) && Tokenized(t, words, toks) && Item(t, toks, n, c, i)
    ensures Denotes(g, t, words, c, i, n)
  {
    hide BuiltFrom, Tokenized, Reached, Denotes;
    var f: nat :| Reached(t, toks, f, n, c, i);
    ReachedDenotes(g, t, words, toks, f, n, c, i);
  }

  lemma FirstSymbol(g: seq<Def>, t: Tables)
    requires BuiltFrom(t, g)
    ensures t.nts == [] <==> g == []
    ensures g != [] ==> t.nts[0] == g[0].head
  {
    hide StepsOfDefs, NamesOfDefs;
    if g != [] {
      RulesKeep([g[0].head], g[0].rules);
      DefsKeep(NotedRules([g[0].head], g[0].rules), g[1..]);
      assert Noted([], g[0].head) == [g[0].head];
    }
  }

  /** The ends of the first nonterminal over all words say that it derives them. */
  lemma GoalSays(g: seq<Def>, t: Tables, words: seq<seq<Symbol>>, toks: seq<seq<nat>>, c: nat)
    requires BuiltFrom(t, g) && Tokenized(t, words, toks) && t.nts != [] && c < |t.steps| && t.steps[c] == -|t.nts|
    requires Item(t, toks, |words|, c, 0)
    ensures UsedSays(g, t, words, c, 0, |words|)
  {
    hide BuiltFrom, Item, Denotes, Tokenized, Derives, StartOf;
    var n := |words|;
    ItemDenotes(g, t, words, toks, n, c, 0);
    var f := EnderDerives(g, t, words, 0, c, 0, n);
    FirstSymbol(g, t);
    assert InLanguage(g, words, t.nts[0], 0, n);
    assert PartWithin(g, words, 0, t.nts[0], 0, n);
    EndSays(g, t, words, 0, c, 0, n);
  }

  /** An end of nonterminal b, which takes part from i to n. */
  lemma EndSays(g: seq<Def>, t: Tables, words: seq<seq<Symbol>>, b: nat, c: nat, i: nat, n: nat)
    requires BuiltFrom(t, g) && b < |t.nts| && c < |t.steps| && t.steps[c] == b - |t.nts|
    requires TakesPart(g, words, t.nts[b], i, n)
    ensures UsedSays(g, t, words, c, i, n)
  {
    hide BuiltFrom, StartOf, TakesPart;
    if c < |t.nts| { NtStep(g, t, c); }
    forall d: nat, r: nat | InRule(g, t, d, r, c) ensures GoesOn(g, t, words, d, r, c, i, n) {
      StepInRule(g, t, d, r, c);
      var xs := g[d].rules[r];
      assert xs[c - StartOf(g, t, d, r)..] == [];
      assert DerivesAll(g, words, 0, [], n, n);
      assert AllInLanguage(g, words, [], n, n);
    }
  }

  /** Back over a nonterminal. */
  lemma BackSays(g: seq<Def>, t: Tables, words: seq<seq<Symbol>>, n: nat, c: nat, i: nat, m: nat, e: nat)
    requires BuiltFrom(t, g) && Ends(t, e, c) && Denotes(g, t, words, e, n, m) && UsedSays(g, t, words, c + 1, i, m)
    ensures UsedSays(g, t, words, c, i, n)
  {
    hide BuiltFrom, StartOf, TakesPart, Denotes, Derives, AllInLanguage;
    if c < |t.nts| { NtStep(g, t, c); }
    forall d: nat, r: nat | InRule(g, t, d, r, c) ensures GoesOn(g, t, words, d, r, c, i, n) {
      StepInRule(g, t, d, r, c);
      var xs, o := g[d].rules[r], c - StartOf(g, t, d, r);
      assert InRule(g, t, d, r, c + 1) && GoesOn(g, t, words, d, r, c + 1, i, m);
      var b: nat :| TakesPart(g, words, g[d].head, i, b)
          && AllInLanguage(g, words, xs[c + 1 - StartOf(g, t, d, r)..], m, b);
      var f := EnderDerives(g, t, words, t.steps[c], e, n, m);
      Prepend(g, words, f, xs, o, n, m, b);
    }
  }

  /** Down to the end of the nonterminal. */
  lemma DownSays(g: seq<Def>, t: Tables, words: seq<seq<Symbol>>, n: nat, c: nat, i: nat, p: nat, h: nat)
    requires BuiltFrom(t, g) && Ends(t, c, p) && Denotes(g, t, words, c, i, n) && Denotes(g, t, words, p, h, i)
    requires UsedSays(g, t, words, p + 1, h, n)
    ensures UsedSays(g, t, words, c, i, n)
  {
    hide BuiltFrom, StartOf, TakesPart, Derives, AllInLanguage;
    if p < |t.nts| { NtStep(g, t, p); }
    var d: nat, r: nat :| Behind(g, t, words, d, r, p, h, i);
    StepInRule(g, t, d, r, p);
    var xs, o := g[d].rules[r], p - StartOf(g, t, d, r);
    assert InRule(g, t, d, r, p + 1) && GoesOn(g, t, words, d, r, p + 1, h, n);
    var b: nat :| TakesPart(g, words, g[d].head, h, b)
        && AllInLanguage(g, words, xs[p + 1 - StartOf(g, t, d, r)..], n, b);
    var f := EnderDerives(g, t, words, t.steps[p], c, i, n);
    assert InLanguage(g, words, xs[o], i, n);
    assert Carries(g, words, d, r, o, xs[o], h, i, n, b);
    PartStep(g, words, d, r, o, xs[o], h, i, n, b);
    EndSays(g, t, words, t.steps[p], c, i, n);
  }

  lemma {:induction false} UsedMeans(g: seq<Def>, t: Tables, words: seq<seq<Symbol>>, toks: seq<seq<nat>>, f: nat,
                                     n: nat,
                                     c: nat, i: nat)
    requires BuiltFrom(t, g) && Tokenized(t, words, toks) && UsedWithin(t, toks, f, n, c, i)
    ensures UsedSays(g, t, words, c, i, n)
    decreases f
  {
    hide BuiltFrom, Item, Denotes, UsedSays, Ends;
    ItemDenotes(g, t, words, toks, n, c, i);
    if n == |toks| && i == 0 && t.enders != [] && c in t.enders[0] {
      GoalEnds(g, t, c);
      GoalSays(g, t, words, toks, c);
    } else {
      var f' := f - 1;
      if exists m: nat, e: nat :: UsedWithin(t, toks, f', m, c + 1, i) && Ends(t, e, c) && Item(t, toks, m, e, n) {
        var m: nat, e: nat :| UsedWithin(t, toks, f', m, c + 1, i) && Ends(t, e, c) && Item(t, toks, m, e, n);
        UsedMeans(g, t, words, toks, f', m, c + 1, i);
        ItemDenotes(g, t, words, toks, m, e, n);
        BackSays(g, t, words, n, c, i, m, e);
      } else {
        var p: nat, h: nat :| UsedWithin(t, toks, f', n, p + 1, h) && Ends(t, c, p) && Item(t, toks, i, p, h);
        UsedMeans(g, t, words, toks, f', n, p + 1, h);
        ItemDenotes(g, t, words, toks, i, p, h);
        DownSays(g, t, words, n, c, i, p, h);
      }
    }
  }

  lemma GoalEnds(g: seq<Def>, t: Tables, c: nat)
    requires BuiltFrom(t, g) && t.enders != []
    ensures t.nts != [] && (c in t.enders[0] <==> c < |t.steps| && t.steps[c] == -|t.nts|)
  {
    hide BuiltFrom;
    BuiltIsSane(g, t);
    PredsKnown(t, 0);
  }

  // ----- everything that takes part is in it -----

  /** The rules for nonterminal b have been started at i. */
  ghost predicate Foreseen(t: Tables, toks: seq<seq<nat>>, b: nat, i: nat) {
    b < |t.starters| ==> forall s: nat :: s in t.starters[b] ==> Item(t, toks, i, s, i)
  }

  lemma ForeseenBehind(t: Tables, toks: seq<seq<nat>>, n: nat, c: nat, h: nat)
    requires Item(t, toks, n, c, h) && c < |t.steps| && t.steps[c] >= 0
    ensures Foreseen(t, toks, t.steps[c], n)
  {
    hide Item;
    if t.steps[c] < |t.starters| {
      forall s: nat | s in t.starters[t.steps[c]] ensures Item(t, toks, n, s, n) {
        ItemStart(t, toks, n, c, h, s);
      }
    }
  }

  lemma EnderFound(g: seq<Def>, t: Tables, words: seq<seq<Symbol>>, toks: seq<seq<nat>>, f: nat, b: nat, i: nat, j: nat)
    returns (e: nat)
    requires BuiltFrom(t, g) && Tokenized(t, words, toks) && b < |t.nts| && Foreseen(t, toks, b, i)
    requires Derives(g, words, f, t.nts[b], i, j)
    ensures e < |t.steps| && t.steps[e] == b - |t.nts| && Item(t, toks, j, e, i)
  {
    hide BuiltFrom, Item, StartOf, DerivesAll;
    IndexOnce(g, t, b);
    if i < |words| && j == i + 1 && t.nts[b] in words[i] {
      e := b;
      NtStep(g, t, b);
      GivenItem(t, toks, j, b, i);
    } else {
      var x := t.nts[b];
      var d: nat, r: nat :| IsRule(g, d, r) && g[d].head == x && DerivesAll(g, words, f - 1, g[d].rules[r], i, j);
      var s, xs := StartOf(g, t, d, r), g[d].rules[r];
      RuleHasConfs(g, t, d, r);
      StartersNumber(g, t);
      assert xs[..|xs|] == xs;
      FoundAll(g, t, words, toks, f - 1, s, x, xs, |xs|, i, j);
      e := s + |xs|;
    }
  }

  /** On from configuration q of a rule, over the rest of its symbols. */
  lemma {:induction false} RestFound(g: seq<Def>, t: Tables, words: seq<seq<Symbol>>, toks: seq<seq<nat>>, f: nat,
                                     s: nat,
                                     x: Symbol, xs: seq<Symbol>, q: nat, a: nat, j: nat, b: nat)
    requires BuiltFrom(t, g) && Tokenized(t, words, toks) && RuleAt(t, s, x, xs) && q <= |xs|
    requires Item(t, toks, j, s + q, a) && DerivesAll(g, words, f, xs[q..], j, b)
    ensures Item(t, toks, b, s + |xs|, a)
    ensures Used(t, toks, b, s + |xs|, a) ==> Used(t, toks, j, s + q, a)
    decreases |xs| - q
  {
    hide BuiltFrom, Item, Derives, Used, Tokenized;
    if q < |xs| {
      var m := FrontSplit(g, words, f, xs[q..], j, b);
      assert xs[q..][1..] == xs[q + 1..] && xs[q..][0] == xs[q];
      assert t.steps[s + q] == Index(xs[q], t.nts);
      IndexKnown(t.nts, xs[q]);
      Found(g, t, words, toks, f, xs[q], j, m, s + q, a);
      RestFound(g, t, words, toks, f, s, x, xs, q + 1, a, m, b);
      ForeseenBehind(t, toks, j, s + q, a);
      var e := EnderFound(g, t, words, toks, f, t.steps[s + q], j, m);
      if Used(t, toks, b, s + |xs|, a) { UsedBack(t, toks, m, s + q, a, e, j); }
    }
  }

  /** What takes part from i to j has been foreseen at i, and all its ends at j are in the second table. */
  ghost predicate AllEnds(t: Tables, toks: seq<seq<nat>>, b: nat, i: nat, j: nat) {
    && Foreseen(t, toks, b, i)
    && forall e: nat :: e < |t.steps| && t.steps[e] == b - |t.nts| && Item(t, toks, j, e, i) ==> Used(t, toks, j, e, i)
  }

  lemma GoalFound(g: seq<Def>, t: Tables, toks: seq<seq<nat>>)
    requires BuiltFrom(t, g) && t.nts != []
    ensures AllEnds(t, toks, 0, 0, |toks|)
  {
    hide BuiltFrom, Item;
    StartersNumber(g, t);
    BuiltIsSane(g, t);
    forall s: nat | s in t.starters[0] ensures Item(t, toks, 0, s, 0) {
      GivenItem(t, toks, 0, s, 0);
    }
    var n := |toks|;
    forall e: nat | e < |t.steps| && t.steps[e] == -|t.nts| && Item(t, toks, n, e, 0) ensures Used(t, toks, n, e, 0) {
      GoalEnds(g, t, e);
      assert UsedWithin(t, toks, 0, n, e, 0);
    }
  }

  /** Down from the head of a rule to one of its symbols. */
  lemma CarriedFound(g: seq<Def>, t: Tables, words: seq<seq<Symbol>>, toks: seq<seq<nat>>, d: nat, r: nat, o: nat,
                     x: Symbol, a: nat, i: nat, j: nat, b: nat)
    requires BuiltFrom(t, g) && Tokenized(t, words, toks) && Carries(g, words, d, r, o, x, a, i, j, b)
    requires InLanguage(g, words, x, i, j) && g[d].head in t.nts && AllEnds(t, toks, Index(g[d].head, t.nts), a, b)
    ensures x in t.nts && AllEnds(t, toks, Index(x, t.nts), i, j)
  {
    hide BuiltFrom, Item, Derives, Used, Tokenized, DerivesAll, StartOf, Index, UsedWithin, Reached;
    var s, h, xs := StartOf(g, t, d, r), g[d].head, g[d].rules[r];
    RuleHasConfs(g, t, d, r);
    StartersNumber(g, t);
    IndexKnown(t.nts, h);
    var f: nat :| DerivesAll(g, words, f, xs[..o], a, i);
    FoundAll(g, t, words, toks, f, s, h, xs, o, a, i);
    assert t.steps[s + o] == Index(xs[o], t.nts);
    IndexKnown(t.nts, x);
    ForeseenBehind(t, toks, i, s + o, a);
    var f1: nat :| Derives(g, words, f1, x, i, j);
    Found(g, t, words, toks, f1, x, i, j, s + o, a);
    var f2: nat :| DerivesAll(g, words, f2, xs[o + 1..], j, b);
    RestFound(g, t, words, toks, f2, s, h, xs, o + 1, a, j, b);
    forall e: nat | e < |t.steps| && t.steps[e] == Index(x, t.nts) - |t.nts| && Item(t, toks, j, e, i)
      ensures Used(t, toks, j, e, i)
    {
      UsedBack(t, toks, j, s + o, a, e, i);
    }
  }

  lemma {:induction false} PartFound(g: seq<Def>, t: Tables, words: seq<seq<Symbol>>, toks: seq<seq<nat>>, f: nat,
                                     x: Symbol, i: nat, j: nat)
    requires BuiltFrom(t, g) && Tokenized(t, words, toks) && PartWithin(g, words, f, x, i, j)
    ensures x in t.nts && AllEnds(t, toks, Index(x, t.nts), i, j)
    decreases f
  {
    hide BuiltFrom, InLanguage, AllInLanguage, AllEnds, Index;
    if g != [] && x == g[0].head && i == 0 && j == |words| {
      FirstSymbol(g, t);
      IndexOnce(g, t, 0);
      GoalFound(g, t, toks);
    } else {
      var f' := f - 1;
      var d: nat, r: nat, o: nat, a: nat, b: nat :|
        Carries(g, words, d, r, o, x, a, i, j, b) && PartWithin(g, words, f', g[d].head, a, b);
      PartFound(g, t, words, toks, f', g[d].head, a, b);
      CarriedFound(g, t, words, toks, d, r, o, x, a, i, j, b);
    }
  }

  // ----- the second table, exactly -----

  /** A rule for nonterminal b, or a word of that class, is in the second table from i to j. */
  ghost predicate EndUsed(t: Tables, toks: seq<seq<nat>>, b: nat, i: nat, j: nat) {
    exists e: nat :: e < |t.steps| && t.steps[e] == b - |t.nts| && Used(t, toks, j, e, i)
  }

  lemma PartExactly(g: seq<Def>, t: Tables, words: seq<seq<Symbol>>, toks: seq<seq<nat>>, b: nat, i: nat, j: nat)
    requires BuiltFrom(t, g) && Tokenized(t, words, toks) && b < |t.nts|
    ensures EndUsed(t, toks, b, i, j) <==> TakesPart(g, words, t.nts[b], i, j)
  {
    hide BuiltFrom, Tokenized, UsedWithin, PartWithin, Item, StartOf, Derives;
    if EndUsed(t, toks, b, i, j) {
      var e: nat :| e < |t.steps| && t.steps[e] == b - |t.nts| && Used(t, toks, j, e, i);
      var f: nat :| UsedWithin(t, toks, f, j, e, i);
      UsedMeans(g, t, words, toks, f, j, e, i);
      if e < |t.nts| {
        NtStep(g, t, e);
      } else {
        var d, r := ConfInRule(g, t, e);
        StepInRule(g, t, d, r, e);
        assert InRule(g, t, d, r, e) && GoesOn(g, t, words, d, r, e, i, j);
      }
    }
    if TakesPart(g, words, t.nts[b], i, j) {
      var f: nat :| PartWithin(g, words, f, t.nts[b], i, j);
      PartFound(g, t, words, toks, f, t.nts[b], i, j);
      IndexOnce(g, t, b);
      PartDerives(g, words, t.nts[b], i, j);
      var f1: nat :| Derives(g, words, f1, t.nts[b], i, j);
      var e := EnderFound(g, t, words, toks, f1, b, i, j);
    }
  }

  lemma PartDerives(g: seq<Def>, words: seq<seq<Symbol>>, x: Symbol, i: nat, j: nat)
    requires TakesPart(g, words, x, i, j)
    ensures InLanguage(g, words, x, i, j)
  {
  }

  /** The first symbol takes part over all words exactly if it derives them. */
  lemma WholePart(g: seq<Def>, words: seq<seq<Symbol>>)
    requires g != []
    ensures TakesPart(g, words, g[0].head, 0, |words|) <==> InLanguage(g, words, g[0].head, 0, |words|)
  {
    hide InLanguage;
    if InLanguage(g, words, g[0].head, 0, |words|) {
      assert PartWithin(g, words, 0, g[0].head, 0, |words|);
    } else if TakesPart(g, words, g[0].head, 0, |words|) {
      PartDerives(g, words, g[0].head, 0, |words|);
    }
  }

  /** Derivations do not run backwards. */
  lemma {:induction false} DerivesOrder(g: seq<Def>, words: seq<seq<Symbol>>, f: nat, x: Symbol, k: nat, j: nat)
    requires Derives(g, words, f, x, k, j)
    ensures k <= j
    decreases f, 0
  {
    if !(k < |words| && j == k + 1 && x in words[k]) {
      var d: nat, r: nat :| IsRule(g, d, r) && g[d].head == x && DerivesAll(g, words, f - 1, g[d].rules[r], k, j);
      DerivesAllOrder(g, words, f - 1, g[d].rules[r], k, j);
    }
  }

  lemma {:induction false} DerivesAllOrder(g: seq<Def>, words: seq<seq<Symbol>>, f: nat, xs: seq<Symbol>, k: nat,
                                           j: nat)
    requires DerivesAll(g, words, f, xs, k, j)
    ensures k <= j
    decreases f, |xs| + 1
  {
    if xs != [] {
      var ys, y := xs[..|xs| - 1], xs[|xs| - 1];
      var m: nat :| DerivesAll(g, words, f, ys, k, m) && Derives(g, words, f, y, m, j);
      DerivesAllOrder(g, words, f, ys, k, m);
      DerivesOrder(g, words, f, y, m, j);
    }
  }

  lemma PartOrder(g: seq<Def>, words: seq<seq<Symbol>>, x: Symbol, i: nat, j: nat)
    requires TakesPart(g, words, x, i, j)
    ensures i <= j
  {
    hide Derives, PartWithin;
    PartDerives(g, words, x, i, j);
    var f: nat :| Derives(g, words, f, x, i, j);
    DerivesOrder(g, words, f, x, i, j);
  }

  // ----- a parse -----

  /** The classes of a word that are nonterminals. */
  function Classes(word: seq<Symbol>, nts: seq<Symbol>): seq<nat> {
    if word == [] then []
    else (if Index(word[0], nts) >= 0 then [Index(word[0], nts) as nat] else []) + Classes(word[1..], nts)
  }

  method Lookup(word: seq<Symbol>, nts: seq<Symbol>) returns (l: seq<nat>)
    ensures l == Classes(word, nts)
  {
    l := [];
    assert word[0..] == word;
    for k := 0 to |word|
      invariant l + Classes(word[k..], nts) == Classes(word, nts)
    {
      assert word[k..][0] == word[k] && word[k..][1..] == word[k + 1..];
      var i := Index(word[k], nts);
      if i >= 0 {
        l := l + [i];
      }
    }
  }

  method LookupAll(g: seq<Def>, t: Tables, words: seq<seq<Symbol>>) returns (toks: seq<seq<nat>>)
    requires BuiltFrom(t, g)
    ensures Tokenized(t, words, toks)
  {
    hide BuiltFrom, Classes;
    toks := [];
    for k := 0 to |words|
      invariant |toks| == k && forall m :: 0 <= m < k ==> toks[m] == Classes(words[m], t.nts)
    {
      var l := Lookup(words[k], t.nts);
      toks := toks + [l];
    }
    forall k: nat, b: nat | k < |toks| ensures b in toks[k] <==> b < |t.nts| && t.nts[b] in words[k] {
      ClassOf(g, t, words[k], b);
    }
  }

  lemma {:induction false} ClassOf(g: seq<Def>, t: Tables, word: seq<Symbol>, b: nat)
    requires BuiltFrom(t, g)
    ensures b in Classes(word, t.nts) <==> b < |t.nts| && t.nts[b] in word
    decreases word
  {
    hide BuiltFrom;
    if b < |t.nts| { IndexOnce(g, t, b); }
    if word != [] {
      assert word == [word[0]] + word[1..];
      ClassOf(g, t, word[1..], b);
    }
  }

  /** What a parse of words returns: the tables, and the second table with the items of whole parses. */
  ghost predicate Parsed(g: seq<Def>, words: seq<seq<Symbol>>, t: Tables, toks: seq<seq<nat>>, back: Chart)
    reads back
  {
    && BuiltFrom(t, g) && Tokenized(t, words, toks)
    && back.Valid() && |back.states| == |words| + 1 && back.nbConfs == |t.steps| && Inhabited(back.states, back.views)
    && (forall n :: 0 <= n <= |words| ==> Settled(back.views[n]))
    && forall n: nat, c: nat, i: nat :: n <= |words| ==> (i in Has(back.views[n], c) <==> Used(t, toks, n, c, i))
  }

  method Parse(g: seq<Def>, words: seq<seq<Symbol>>) returns (t: Tables, back: Chart, ghost toks: seq<seq<nat>>)
    ensures fresh(back) && Parsed(g, words, t, toks, back)
  {
    hide BuiltFrom, Sane, Has, Settled, Item, Used, Shows, Inhabited, Tokenized;
    t := MakeParser(g);
    BuiltIsSane(g, t);
    var ws := LookupAll(g, t, words);
    toks := ws;
    TokensKnown(g, t, words, ws);
    var forth := Fill(t, ws);
    back := Backward(forth, t, ws);
  }

  lemma TokensKnown(g: seq<Def>, t: Tables, words: seq<seq<Symbol>>, toks: seq<seq<nat>>)
    requires BuiltFrom(t, g) && Tokenized(t, words, toks)
    ensures |toks| == |words| && forall k :: 0 <= k < |toks| ==> Below(toks[k], |t.steps|)
  {
    hide BuiltFrom;
    BuiltIsSane(g, t);
    forall k: nat | k < |toks| ensures Below(toks[k], |t.steps|) {
      forall q | 0 <= q < |toks[k]| ensures toks[k][q] < |t.steps| {
        assert toks[k][q] in toks[k];
      }
    }
  }

  /** What is_parsed makes of the set of e in state j: a position behind j is read off its end and taken for true. */
  ghost predicate Taken(st: State, v: View, e: nat, i: nat, j: nat) {
    e < |st.sets| && st.sets[e].Some? && (i > j || i in Has(v, e))
  }

  lemma TakenCell(st: State, j: nat, v: View, e: nat, i: nat)
    requires Shows(st, j, v) && e < |st.sets|
    ensures Taken(st, v, e, i, j) <==>
            st.sets[e].Some? && (i + 5 >= |st.sets[e].value| || st.sets[e].value[i + 5].Some?)
  {
    hide Shows, Has;
    CellSays(st, j, v, e, if i <= j then i else j);
  }

  /** A symbol the grammar does not have takes no part. */
  lemma Unlisted(g: seq<Def>, t: Tables, words: seq<seq<Symbol>>, toks: seq<seq<nat>>, x: Symbol, i: nat, j: nat)
    requires BuiltFrom(t, g) && Tokenized(t, words, toks)
    ensures TakesPart(g, words, x, i, j) ==> x in t.nts
  {
    hide BuiltFrom, Tokenized, PartWithin;
    if TakesPart(g, words, x, i, j) {
      var f: nat :| PartWithin(g, words, f, x, i, j);
      PartFound(g, t, words, toks, f, x, i, j);
    }
  }

  lemma TakenMeans(g: seq<Def>, words: seq<seq<Symbol>>, t: Tables, toks: seq<seq<nat>>, back: Chart, b: nat, i: nat,
                   j: nat)
    requires Parsed(g, words, t, toks, back) && j <= |words| && b < |t.nts| == |t.enders| && Sane(t)
    ensures
      (exists e: nat :: e in t.enders[b] && Taken(back.states[j], back.views[j], e, i, j)) <==>
      if i <= j then TakesPart(g, words, t.nts[b], i, j) else exists k: nat :: TakesPart(g, words, t.nts[b], k, j)
  {
    hide BuiltFrom, Sane, Has, Used, Shows, Tokenized, TakesPart;
    PredsKnown(t, b);
    forall e: nat | e in t.enders[b] && Taken(back.states[j], back.views[j], e, i, j)
      ensures if i <= j then TakesPart(g, words, t.nts[b], i, j) else exists k: nat :: TakesPart(g, words, t.nts[b],
              k, j)
    {
      var k := if i <= j then i else Has(back.views[j], e)[0];
      assert k in Has(back.views[j], e) && Used(t, toks, j, e, k);
      assert EndUsed(t, toks, b, k, j);
      PartExactly(g, t, words, toks, b, k, j);
    }
    forall k: nat | TakesPart(g, words, t.nts[b], k, j) && (i <= j ==> k == i)
      ensures exists e: nat :: e in t.enders[b] && Taken(back.states[j], back.views[j], e, i, j)
    {
      PartExactly(g, t, words, toks, b, k, j);
      PartOrder(g, words, t.nts[b], k, j);
      var e: nat :| e < |t.steps| && t.steps[e] == b - |t.nts| && Used(t, toks, j, e, k);
      CellSays(back.states[j], j, back.views[j], e, k);
    }
  }

  /**
   parse->parsed?: whether nt takes part from i to j in a derivation of all words. For i > j, where
   nothing does, it answers whether nt ends at j at all.
   */
  method IsParsed(t: Tables, back: Chart, nt: Symbol, i: nat, j: nat, ghost g: seq<Def>, ghost words: seq<seq<Symbol>>,
                  ghost toks: seq<seq<nat>>) returns (r: bool)
    requires Parsed(g, words, t, toks, back) && j <= |words|
    ensures r <==> if i <= j then TakesPart(g, words, nt, i, j) else exists k: nat :: TakesPart(g, words, nt, k, j)
  {
    hide BuiltFrom, Sane, Has, Used, Shows, Tokenized, TakesPart, Index, Taken;
    var b := Index(nt, t.nts);
    if b < 0 {
      forall k: nat ensures !TakesPart(g, words, nt, k, j) {
        Unlisted(g, t, words, toks, nt, k, j);
      }
      return false;
    }
    BuiltIsSane(g, t);
    EndersKnown(t, b);
    var l := t.enders[b];
    var q := 0;
    r := false;
    while q < |l| && !r
      invariant 0 <= q <= |l|
      invariant r <==> exists p :: 0 <= p < q && Taken(back.states[j], back.views[j], l[p], i, j)
    {
      TakenCell(back.states[j], j, back.views[j], l[q], i);
      var cells := back.states[j].sets[l[q]];
      r := cells.Some? && (i + 5 >= |cells.value| || cells.value[i + 5].Some?);
      q := q + 1;
    }
    TakenMeans(g, words, t, toks, back, b, i, j);
    assert r ==> exists e: nat :: e in l && Taken(back.states[j], back.views[j], e, i, j);
  }

  lemma EndersKnown(t: Tables, b: nat)
    requires Sane(t) && b < |t.nts|
    ensures |t.enders| == |t.nts| && Below(t.enders[b], |t.steps|)
  {
    PredsKnown(t, b);
  }
}
