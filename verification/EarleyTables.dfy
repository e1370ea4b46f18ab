/**
 The tables that make-parser builds from a grammar (demo/v8_benchmark.js, 8145-8274): every
 nonterminal and every position in a rule is a configuration, with a step and perhaps a name.
 */
module EarleyTables {
  import opened Options

  type Symbol = string

  /** A nonterminal and its rules. */
  datatype Def = Def(head: Symbol, rules: seq<seq<Symbol>>)

  datatype Name = Name(head: Symbol, number: nat)

  // ----- nonterminals -----

  function Noted(nts: seq<Symbol>, nt: Symbol): seq<Symbol> { if nt in nts then nts else nts + [nt] }

  function NotedAll(nts: seq<Symbol>, more: seq<Symbol>): seq<Symbol>
    decreases more
  {
    if more == [] then nts else NotedAll(Noted(nts, more[0]), more[1..])
  }

  function NotedRules(nts: seq<Symbol>, rules: seq<seq<Symbol>>): seq<Symbol>
    decreases rules
  {
    if rules == [] then nts else NotedRules(NotedAll(nts, rules[0]), rules[1..])
  }

  /** The symbols of the grammar in the order they appear, each once. */
  function NotedDefs(nts: seq<Symbol>, defs: seq<Def>): seq<Symbol>
    decreases defs
  {
    if defs == [] then nts else NotedDefs(NotedRules(Noted(nts, defs[0].head), defs[0].rules), defs[1..])
  }

  /** ind: the last position of nt, -1 if there is none. */
  function Index(nt: Symbol, nts: seq<Symbol>): (i: int)
    ensures -1 <= i < |nts| && (i >= 0 ==> nts[i] == nt) && (nt in nts <==> i >= 0)
  {
    if nts == [] then -1
    else if nts[|nts| - 1] == nt then |nts| - 1
    else
      assert nts == nts[..|nts| - 1] + [nts[|nts| - 1]];
      Index(nt, nts[..|nts| - 1])
  }

  lemma {:induction false} NotedKeeps(nts: seq<Symbol>, more: seq<Symbol>)
    ensures nts <= NotedAll(nts, more) && forall nt :: nt in more ==> nt in NotedAll(nts, more)
    decreases more
  {
    if more != [] {
      NotedKeeps(Noted(nts, more[0]), more[1..]);
      assert more[0] in Noted(nts, more[0]);
      assert more == [more[0]] + more[1..];
    }
  }

  lemma {:induction false} RulesKeep(nts: seq<Symbol>, rules: seq<seq<Symbol>>)
    ensures nts <= NotedRules(nts, rules)
    ensures forall r, nt :: r in rules && nt in r ==> nt in NotedRules(nts, rules)
    decreases rules
  {
    if rules != [] {
      NotedKeeps(nts, rules[0]);
      RulesKeep(NotedAll(nts, rules[0]), rules[1..]);
    }
  }

  /** The symbols of a definition are all in nts. */
  ghost predicate Covers(nts: seq<Symbol>, def: Def) {
    def.head in nts && forall r, nt :: r in def.rules && nt in r ==> nt in nts
  }

  lemma {:induction false} DefsKeep(nts: seq<Symbol>, defs: seq<Def>)
    ensures nts <= NotedDefs(nts, defs)
    ensures forall d :: d in defs ==> Covers(NotedDefs(nts, defs), d)
    decreases defs
  {
    if defs != [] {
      var d := defs[0];
      RulesKeep(Noted(nts, d.head), d.rules);
      var more := NotedRules(Noted(nts, d.head), d.rules);
      DefsKeep(more, defs[1..]);
      assert forall nt :: nt in more ==> nt in NotedDefs(more, defs[1..]);
      assert d.head in Noted(nts, d.head);
    }
  }

  // ----- the tables as they should be -----

  /** One rule: its first configuration has the name, its last a negative step. */
  function RuleNames(head: Symbol, number: nat, rule: seq<Symbol>): seq<Option<Name>> {
    [Some(Name(head, number))] + seq(|rule|, _ => None)
  }

  function RuleSteps(head: Symbol, rule: seq<Symbol>, nts: seq<Symbol>): seq<int> {
    seq(|rule|, i requires 0 <= i < |rule| => Index(rule[i], nts)) + [Index(head, nts) - |nts|]
  }

  /** The rules of a definition from number on. */
  function NamesOfRules(head: Symbol, number: nat, rules: seq<seq<Symbol>>): seq<Option<Name>>
    decreases rules
  {
    if rules == [] then [] else RuleNames(head, number, rules[0]) + NamesOfRules(head, number + 1, rules[1..])
  }

  function StepsOfRules(head: Symbol, rules: seq<seq<Symbol>>, nts: seq<Symbol>): seq<int> {
    if rules == [] then [] else RuleSteps(head, rules[0], nts) + StepsOfRules(head, rules[1..], nts)
  }

  function NamesOfDefs(defs: seq<Def>): seq<Option<Name>> {
    if defs == [] then [] else NamesOfRules(defs[0].head, 1, defs[0].rules) + NamesOfDefs(defs[1..])
  }

  function StepsOfDefs(defs: seq<Def>, nts: seq<Symbol>): seq<int> {
    if defs == [] then [] else StepsOfRules(defs[0].head, defs[0].rules, nts) + StepsOfDefs(defs[1..], nts)
  }

  function NtNames(nts: seq<Symbol>): seq<Option<Name>> {
    seq(|nts|, i requires 0 <= i < |nts| => Some(Name(nts[i], 0)))
  }

  function NtSteps(n: nat): seq<int> { seq(n, i => i - n) }

  function AllNames(grammar: seq<Def>, nts: seq<Symbol>): seq<Option<Name>> { NtNames(nts) + NamesOfDefs(grammar) }

  function AllSteps(grammar: seq<Def>, nts: seq<Symbol>): seq<int> { NtSteps(|nts|) + StepsOfDefs(grammar, nts) }

  // ----- a name marks the start of a rule -----

  /**
   Names stand exactly at the configurations of nonterminals and behind negative steps,
   given whether the step before the first one is negative.
   */
  ghost predicate Marked(names: seq<Option<Name>>, steps: seq<int>, first: bool) {
    && |names| == |steps|
    && forall c :: 0 <= c < |names| ==> (names[c].Some? <==> if c == 0 then first else steps[c - 1] < 0)
  }

  /** The last step, if any, is negative. */
  ghost predicate Closed(steps: seq<int>) { steps != [] ==> steps[|steps| - 1] < 0 }

  lemma MarkedConcat(names: seq<Option<Name>>, steps: seq<int>, names': seq<Option<Name>>, steps': seq<int>)
    requires Marked(names, steps, true) && Closed(steps) && Marked(names', steps', true) && Closed(steps')
    ensures Marked(names + names', steps + steps', true) && Closed(steps + steps')
  {
    forall c | 0 <= c < |names + names'|
      ensures (names + names')[c].Some? <==> if c == 0 then true else (steps + steps')[c - 1] < 0
    {
      if c < |names| {
        assert names[c].Some? <==> if c == 0 then true else steps[c - 1] < 0;
      } else {
        var d := c - |names|;
        assert names'[d].Some? <==> if d == 0 then true else steps'[d - 1] < 0;
      }
    }
  }

  lemma RuleMarked(head: Symbol, number: nat, rule: seq<Symbol>, nts: seq<Symbol>)
    requires head in nts && forall nt :: nt in rule ==> nt in nts
    ensures Marked(RuleNames(head, number, rule), RuleSteps(head, rule, nts), true)
    ensures Closed(RuleSteps(head, rule, nts))
  {
    var names, steps := RuleNames(head, number, rule), RuleSteps(head, rule, nts);
    forall c | 0 <= c < |names| ensures names[c].Some? <==> if c == 0 then true else steps[c - 1] < 0 {
      if c > 0 {
        assert rule[c - 1] in rule;
      }
    }
  }

  lemma {:induction false} RulesMarked(head: Symbol, number: nat, rules: seq<seq<Symbol>>, nts: seq<Symbol>)
    requires head in nts && forall r, nt :: r in rules && nt in r ==> nt in nts
    ensures Marked(NamesOfRules(head, number, rules), StepsOfRules(head, rules, nts), true)
    ensures Closed(StepsOfRules(head, rules, nts))
    decreases rules
  {
    hide RuleNames, RuleSteps, Marked;
    if rules == [] {
      NothingMarked();
    } else {
      assert rules[0] in rules;
      RuleMarked(head, number, rules[0], nts);
      RulesMarked(head, number + 1, rules[1..], nts);
      MarkedConcat(RuleNames(head, number, rules[0]), RuleSteps(head, rules[0], nts),
          NamesOfRules(head, number + 1, rules[1..]), StepsOfRules(head, rules[1..], nts));
    }
  }

  lemma NothingMarked()
    ensures Marked([], [], true)
  {
  }

  lemma {:induction false} DefsMarked(defs: seq<Def>, nts: seq<Symbol>)
    requires forall d :: d in defs ==> Covers(nts, d)
    ensures Marked(NamesOfDefs(defs), StepsOfDefs(defs, nts), true) && Closed(StepsOfDefs(defs, nts))
    decreases defs
  {
    hide Marked;
    if defs == [] {
      NothingMarked();
    } else {
      var d := defs[0];
      assert d in defs;
      RulesMarked(d.head, 1, d.rules, nts);
      DefsMarked(defs[1..], nts);
      MarkedConcat(NamesOfRules(d.head, 1, d.rules), StepsOfRules(d.head, d.rules, nts), NamesOfDefs(defs[1..]),
          StepsOfDefs(defs[1..], nts));
    }
  }

  /** In the tables of any grammar, having a name and following a negative step or being a nonterminal coincide. */
  lemma TablesMarked(grammar: seq<Def>)
    ensures
      var nts := NotedDefs([], grammar);
      var names, steps := AllNames(grammar, nts), AllSteps(grammar, nts);
      |names| == |steps| && forall c :: 0 <= c < |names| ==>
          (names[c].Some? <==> c < |nts| || (c > 0 && steps[c - 1] < 0))
  {
    hide NamesOfDefs, StepsOfDefs;
    var nts := NotedDefs([], grammar);
    DefsKeep([], grammar);
    DefsMarked(grammar, nts);
    var names, steps := AllNames(grammar, nts), AllSteps(grammar, nts);
    forall c | 0 <= c < |names| ensures names[c].Some? <==> c < |nts| || (c > 0 && steps[c - 1] < 0) {
      if c > |nts| {
        assert names[c] == NamesOfDefs(grammar)[c - |nts|] && steps[c - 1] == StepsOfDefs(grammar, nts)[c - |nts| - 1];
      } else if c == |nts| {
        assert names[c] == NamesOfDefs(grammar)[0];
        FirstIsDefined(grammar);
      }
    }
  }

  /** A grammar with a rule has a nonterminal. */
  lemma FirstIsDefined(grammar: seq<Def>)
    requires NamesOfDefs(grammar) != []
    ensures NotedDefs([], grammar) != []
  {
    DefsKeep([], grammar);
    assert grammar[0] in grammar;
  }

  // ----- building them -----

  datatype Tables = Tables(
    nts: seq<Symbol>, starters: seq<seq<nat>>, enders: seq<seq<nat>>, predictors: seq<seq<nat>>,
    steps: seq<int>, names: seq<Option<Name>>)

  method CollectNts(grammar: seq<Def>) returns (nts: seq<Symbol>)
    ensures nts == NotedDefs([], grammar)
  {
    nts := [];
    for d := 0 to |grammar|
      invariant NotedDefs(nts, grammar[d..]) == NotedDefs([], grammar)
    {
      assert grammar[d..][1..] == grammar[d + 1..];
      var rules := grammar[d].rules;
      nts := Noted(nts, grammar[d].head);
      for r := 0 to |rules|
        invariant NotedDefs(NotedRules(nts, rules[r..]), grammar[d + 1..]) == NotedDefs([], grammar)
      {
        assert rules[r..][1..] == rules[r + 1..];
        var rule := rules[r];
        ghost var before := nts;
        for l := 0 to |rule|
          invariant NotedAll(nts, rule[l..]) == NotedAll(before, rule)
        {
          assert rule[l..][1..] == rule[l + 1..];
          nts := Noted(nts, rule[l]);
        }
      }
    }
  }

  method CountConfs(grammar: seq<Def>, nbNts: nat) returns (n: nat)
    ensures n == |NamesOfDefs(grammar)| + nbNts
  {
    n := 0;
    for d := 0 to |grammar|
      invariant n + |NamesOfDefs(grammar[d..])| == |NamesOfDefs(grammar)|
    {
      assert grammar[d..][1..] == grammar[d + 1..];
      var rules := grammar[d].rules;
      ghost var before, head := n, grammar[d].head;
      for r := 0 to |rules|
        invariant n + |NamesOfRules(head, r + 1, rules[r..])| == before + |NamesOfRules(head, 1, rules)|
      {
        assert rules[r..][1..] == rules[r + 1..];
        var rule := rules[r];
        for l := 0 to |rule|
          invariant n + (|rule| - l) + |NamesOfRules(head, r + 2, rules[r + 1..])| + 1
                    == before + |NamesOfRules(head, 1, rules)|
        {
          n := n + 1;
        }
        n := n + 1;
      }
    }
    n := n + nbNts;
  }

  /** The configurations whose step is k, the last first. */
  function StepsAt(steps: seq<int>, k: int): (r: seq<nat>)
    ensures forall c: nat :: c in r <==> c < |steps| && steps[c] == k
  {
    if steps == [] then []
    else
      var n := |steps| - 1;
      var less := StepsAt(steps[..n], k);
      if steps[n] == k then [n] + less else less
  }

  /** The configurations that start a rule of nonterminal i, the last first. */
  function StartsAt(names: seq<Option<Name>>, nts: seq<Symbol>, i: int): (r: seq<nat>)
    ensures forall c: nat :: c in r <==> |nts| <= c < |names| && IsName(names[c], nts, i)
  {
    if |names| <= |nts| then []
    else
      var n := |names| - 1;
      var less := StartsAt(names[..n], nts, i);
      if IsName(names[n], nts, i) then [n] + less else less
  }

  predicate IsName(name: Option<Name>, nts: seq<Symbol>, i: int) {
    name.Some? && Index(name.value.head, nts) == i
  }

  /** Configurations that end a rule are listed with its nonterminal, all others with the nonterminal before them. */
  ghost predicate ListedAt(enders: seq<seq<nat>>, predictors: seq<seq<nat>>, steps: seq<int>, i: nat)
    requires i < |enders| == |predictors|
  {
    enders[i] == StepsAt(steps, i - |enders|) && predictors[i] == StepsAt(steps, i)
  }

  ghost predicate Listed(enders: seq<seq<nat>>, predictors: seq<seq<nat>>, steps: seq<int>) {
    |enders| == |predictors| && forall i :: 0 <= i < |enders| ==> ListedAt(enders, predictors, steps, i)
  }

  ghost predicate Started(starters: seq<seq<nat>>, names: seq<Option<Name>>, nts: seq<Symbol>) {
    |starters| == |nts| && forall i :: 0 <= i < |starters| ==> starters[i] == StartsAt(names, nts, i)
  }

  lemma OneMoreStep(steps: seq<int>, x: int, k: int)
    ensures StepsAt(steps + [x], k) == (if x == k then [|steps|] else []) + StepsAt(steps, k)
  {
    assert (steps + [x])[..|steps|] == steps;
  }

  lemma ListStep(enders: seq<seq<nat>>, predictors: seq<seq<nat>>, steps: seq<int>, x: nat)
    requires Listed(enders, predictors, steps) && x < |predictors|
    ensures Listed(enders, predictors[x := [|steps|] + predictors[x]], steps + [x])
  {
    hide StepsAt;
    var predictors', steps' := predictors[x := [|steps|] + predictors[x]], steps + [x];
    forall i | 0 <= i < |enders| ensures ListedAt(enders, predictors', steps', i) {
      assert ListedAt(enders, predictors, steps, i);
      OneMoreStep(steps, x, i);
      OneMoreStep(steps, x, i - |enders|);
    }
  }

  lemma ListEnd(enders: seq<seq<nat>>, predictors: seq<seq<nat>>, steps: seq<int>, h: nat)
    requires Listed(enders, predictors, steps) && h < |enders|
    ensures Listed(enders[h := [|steps|] + enders[h]], predictors, steps + [h - |enders|])
  {
    hide StepsAt;
    var enders', steps' := enders[h := [|steps|] + enders[h]], steps + [h - |enders|];
    forall i | 0 <= i < |enders| ensures ListedAt(enders', predictors, steps', i) {
      assert ListedAt(enders, predictors, steps, i);
      OneMoreStep(steps, h - |enders|, i);
      OneMoreStep(steps, h - |enders|, i - |enders|);
    }
  }

  lemma {:induction false} UnnamedStartNothing(names: seq<Option<Name>>, nts: seq<Symbol>, i: int, more: nat)
    requires |nts| <= |names|
    ensures StartsAt(names + seq(more, _ => None), nts, i) == StartsAt(names, nts, i)
  {
    var longer := names + seq(more, _ => None);
    if more == 0 {
      assert longer == names;
    } else {
      assert longer[..|longer| - 1] == names + seq(more - 1, _ => None);
      UnnamedStartNothing(names, nts, i, more - 1);
    }
  }

  lemma ListStart(starters: seq<seq<nat>>, names: seq<Option<Name>>, nts: seq<Symbol>, head: Symbol, number: nat,
                  rule: seq<Symbol>)
    requires Started(starters, names, nts) && head in nts && |nts| <= |names|
    ensures
      var h := Index(head, nts);
      Started(starters[h := [|names|] + starters[h]], names + RuleNames(head, number, rule), nts)
  {
    hide Index;
    var named := names + [Some(Name(head, number))];
    assert names + RuleNames(head, number, rule) == named + seq(|rule|, _ => None);
    forall i | 0 <= i < |starters|
      ensures StartsAt(names + RuleNames(head, number, rule), nts, i)
              == (if i == Index(head, nts) then [|names|] else []) + StartsAt(names, nts, i)
    {
      UnnamedStartNothing(named, nts, i, |rule|);
      assert named[..|names|] == names;
    }
  }

  /** The vectors of a parser under construction. */
  class Vectors {
    const nts: seq<Symbol>
    const names: array<Option<Name>>
    const steps: array<int>
    const starters: array<seq<nat>>
    const enders: array<seq<nat>>
    const predictors: array<seq<nat>>

    predicate Shaped() {
      && names.Length == steps.Length && starters.Length == enders.Length == predictors.Length == |nts|
      && steps != names as object && steps != starters as object && steps != enders as object
          && steps != predictors as object
      && names != starters as object && names != enders as object && names != predictors as object
      && starters != enders && starters != predictors && enders != predictors
    }

    /** The names ns and steps ss are filled in, and the lists are those of them. */
    ghost predicate Filled(ns: seq<Option<Name>>, ss: seq<int>)
      reads names, steps, starters, enders, predictors
    {
      && Shaped() && |nts| <= |ss| <= |ns| <= names.Length
      && names[..|ns|] == ns && (forall c :: |ns| <= c < names.Length ==> names[c].None?)
      && steps[..|ss|] == ss
      && Listed(enders[..], predictors[..], ss) && Started(starters[..], ns, nts)
    }

    constructor (nts: seq<Symbol>, nbConfs: nat)
      requires |nts| <= nbConfs
      ensures this.nts == nts && names.Length == nbConfs && Shaped()
      ensures fresh(names) && fresh(steps) && fresh(starters) && fresh(enders) && fresh(predictors)
      ensures Filled(NtNames(nts), NtSteps(|nts|))
    {
      this.nts := nts;
      names, steps := new Option<Name>[nbConfs](_ => None), new int[nbConfs](_ => 0);
      starters, enders := new seq<nat>[|nts|](_ => []), new seq<nat>[|nts|](_ => []);
      predictors := new seq<nat>[|nts|](_ => []);
      new;
      FillNts();
    }

    /** The configurations of the nonterminals. */
    method FillNts()
      requires Shaped() && |nts| <= names.Length
      requires forall c :: 0 <= c < names.Length ==> names[c].None?
      requires forall i :: 0 <= i < |nts| ==> starters[i] == [] && predictors[i] == []
      modifies names, steps, enders
      ensures Filled(NtNames(nts), NtSteps(|nts|))
    {
      hide Listed, Started;
      var i := |nts| - 1;
      while i >= 0
        invariant -1 <= i < |nts|
        invariant forall c :: i < c < |nts| ==>
                    steps[c] == c - |nts| && names[c] == Some(Name(nts[c], 0)) && enders[c] == [c]
        invariant forall c :: |nts| <= c < names.Length ==> names[c].None?
        modifies names, steps, enders
      {
        steps[i] := i - |nts|;
        names[i] := Some(Name(nts[i], 0));
        enders[i] := [i];
        i := i - 1;
      }
      NtsListed(enders[..], predictors[..]);
      NtsStarted(starters[..], nts, names[..|nts|]);
      assert steps[..|nts|] == NtSteps(|nts|) && names[..|nts|] == NtNames(nts);
    }

    method Answer(ghost ns: seq<Option<Name>>, ghost ss: seq<int>) returns (t: Tables)
      requires Filled(ns, ss) && |ss| == names.Length
      ensures t.nts == nts && t.names == ns && t.steps == ss && |t.enders| == |nts|
      ensures Listed(t.enders, t.predictors, ss) && Started(t.starters, ns, nts)
    {
      hide Listed, Started;
      t := Tables(nts, starters[..], enders[..], predictors[..], steps[..], names[..]);
      assert steps[..] == steps[..|ss|] && names[..] == names[..|ns|];
    }

    /** The name of a rule's first configuration; those behind it have none. */
    method PutName(conf: nat, head: Symbol, number: nat, ghost rule: seq<Symbol>, ghost ns: seq<Option<Name>>,
                   ghost ss: seq<int>)
      requires Filled(ns, ss) && conf == |ns| && conf + |rule| < names.Length && head in nts
      modifies names, starters
      ensures Filled(ns + RuleNames(head, number, rule), ss)
    {
      hide Listed, Started, Index;
      ghost var ss0 := starters[..];
      ListStart(ss0, ns, nts, head, number, rule);
      names[conf] := Some(Name(head, number));
      var i := Index(head, nts);
      starters[i] := [conf] + starters[i];
      assert starters[..] == ss0[i := [conf] + ss0[i]];
    }

    /** A step over one symbol. */
    method PutStep(conf: nat, nt: Symbol, ghost ns: seq<Option<Name>>, ghost ss: seq<int>)
      requires Filled(ns, ss) && conf == |ss| < |ns| && nt in nts
      modifies steps, predictors
      ensures Filled(ns, ss + [Index(nt, nts)])
    {
      hide Listed, Started, Index;
      ghost var ps := predictors[..];
      var i := Index(nt, nts);
      ListStep(enders[..], ps, ss, i);
      steps[conf] := i;
      predictors[i] := [conf] + predictors[i];
      assert predictors[..] == ps[i := [conf] + ps[i]];
    }

    /** The step that ends a rule. */
    method PutEnd(conf: nat, head: Symbol, ghost ns: seq<Option<Name>>, ghost ss: seq<int>)
      requires Filled(ns, ss) && conf == |ss| < |ns| && head in nts
      modifies steps, enders
      ensures Filled(ns, ss + [Index(head, nts) - |nts|])
    {
      hide Listed, Started, Index;
      ghost var es := enders[..];
      var i := Index(head, nts);
      ListEnd(es, predictors[..], ss, i);
      steps[conf] := i - |nts|;
      enders[i] := [conf] + enders[i];
      assert enders[..] == es[i := [conf] + es[i]];
    }

    /** The configurations of one rule. */
    method FillRule(head: Symbol, number: nat, rule: seq<Symbol>, conf: nat, ghost ns: seq<Option<Name>>,
                    ghost ss: seq<int>)
      returns (last: nat)
      requires Filled(ns, ss) && conf == |ns| == |ss| && conf + |rule| < names.Length
      requires head in nts && forall nt :: nt in rule ==> nt in nts
      modifies names, steps, starters, enders, predictors
      ensures last == conf + |rule| && Filled(ns + RuleNames(head, number, rule), ss + RuleSteps(head, rule, nts))
    {
      hide Filled, Index;
      PutName(conf, head, number, rule, ns, ss);
      ghost var ns' := ns + RuleNames(head, number, rule);
      last := conf;
      ghost var all := RuleSteps(head, rule, nts);
      assert ss + all[..0] == ss;
      for l := 0 to |rule|
        invariant last == conf + l && Filled(ns', ss + all[..l])
        modifies steps, predictors
      {
        PutStep(last, rule[l], ns', ss + all[..l]);
        assert ss + all[..l] + [all[l]] == ss + all[..l + 1];
        last := last + 1;
      }
      PutEnd(last, head, ns', ss + all[..|rule|]);
      assert ss + all[..|rule|] + [all[|rule|]] == ss + all;
    }

    /** The rules of one definition. */
    method FillDef(def: Def, start: nat, ghost ns: seq<Option<Name>>, ghost ss: seq<int>) returns (conf: nat)
      requires Filled(ns, ss) && start == |ns| == |ss| && Covers(nts, def)
      requires start + |NamesOfRules(def.head, 1, def.rules)| <= names.Length
      modifies names, steps, starters, enders, predictors
      ensures conf == start + |NamesOfRules(def.head, 1, def.rules)| == start + |StepsOfRules(def.head, def.rules, nts)|
      ensures Filled(ns + NamesOfRules(def.head, 1, def.rules), ss + StepsOfRules(def.head, def.rules, nts))
    {
      hide Filled, RuleNames, RuleSteps;
      var head, rules := def.head, def.rules;
      conf := start;
      var number := 1;
      ghost var ns1, ss1 := ns, ss;
      ghost var namesAll, stepsAll := ns + NamesOfRules(head, 1, rules), ss + StepsOfRules(head, rules, nts);
      assert rules[0..] == rules;
      while number <= |rules|
        invariant 1 <= number <= |rules| + 1 && conf == |ns1| == |ss1| && Filled(ns1, ss1)
        invariant ns1 + NamesOfRules(head, number, rules[number - 1..]) == namesAll
        invariant ss1 + StepsOfRules(head, rules[number - 1..], nts) == stepsAll
      {
        var rule := rules[number - 1];
        ghost var rest := rules[number..];
        assert rules[number - 1..] == [rule] + rest && rules[number - 1..][1..] == rest;
        assert rule in rules;
        RuleLengths(head, number, rule, nts);
        var last := FillRule(head, number, rule, conf, ns1, ss1);
        ns1, ss1 := ns1 + RuleNames(head, number, rule), ss1 + RuleSteps(head, rule, nts);
        conf, number := last + 1, number + 1;
      }
      assert ns1 == namesAll && ss1 == stepsAll;
    }
  }

  lemma {:induction false} NtStepsAt(n: nat, m: nat, k: int)
    ensures StepsAt(seq(m, i => i - n), k) == if 0 <= k + n < m then [k + n] else []
    decreases m
  {
    var steps := seq(m, i => i - n);
    if m > 0 {
      assert steps[..m - 1] == seq(m - 1, i => i - n);
      NtStepsAt(n, m - 1, k);
    }
  }

  lemma NtsListed(enders: seq<seq<nat>>, predictors: seq<seq<nat>>)
    requires |enders| == |predictors| && forall i :: 0 <= i < |enders| ==> enders[i] == [i] && predictors[i] == []
    ensures Listed(enders, predictors, NtSteps(|enders|))
  {
    hide StepsAt;
    var n, steps := |enders|, NtSteps(|enders|);
    forall i | 0 <= i < n ensures ListedAt(enders, predictors, steps, i) {
      NtStepsAt(n, n, i);
      NtStepsAt(n, n, i - n);
    }
  }

  lemma NtsStarted(starters: seq<seq<nat>>, nts: seq<Symbol>, names: seq<Option<Name>>)
    requires |starters| == |nts| == |names| && forall i :: 0 <= i < |starters| ==> starters[i] == []
    ensures Started(starters, names, nts)
  {
  }

  lemma RuleLengths(head: Symbol, number: nat, rule: seq<Symbol>, nts: seq<Symbol>)
    ensures |RuleNames(head, number, rule)| == |RuleSteps(head, rule, nts)| == |rule| + 1
  {
  }

  /** make-parser's tables: names and steps of the grammar, and the lists that go with them. */
  ghost predicate BuiltFrom(t: Tables, grammar: seq<Def>) {
    && t.nts == NotedDefs([], grammar) && t.names == AllNames(grammar, t.nts) && t.steps == AllSteps(grammar, t.nts)
    && |t.enders| == |t.nts| && Listed(t.enders, t.predictors, t.steps) && Started(t.starters, t.names, t.nts)
  }

  method MakeParser(grammar: seq<Def>) returns (t: Tables)
    ensures BuiltFrom(t, grammar)
  {
    hide NamesOfRules, StepsOfRules, Covers, NotedDefs, Index, Listed, Started, Vectors.Filled, Vectors.Shaped;
    var nts := CollectNts(grammar);
    DefsKeep([], grammar);
    var nbConfs := CountConfs(grammar, |nts|);
    var v := new Vectors(nts, nbConfs);
    ghost var ns, ss := NtNames(nts), NtSteps(|nts|);
    var d, conf := 0, |nts|;
    assert grammar[0..] == grammar;
    while d < |grammar|
      invariant 0 <= d <= |grammar| && conf == |ns| == |ss| && v.Filled(ns, ss)
      invariant ns + NamesOfDefs(grammar[d..]) == AllNames(grammar, nts)
      invariant ss + StepsOfDefs(grammar[d..], nts) == AllSteps(grammar, nts)
    {
      var def := grammar[d];
      ghost var rest := grammar[d + 1..];
      assert grammar[d..] == [def] + rest && grammar[d..][1..] == rest;
      assert def in grammar;
      conf := v.FillDef(def, conf, ns, ss);
      ns, ss := ns + NamesOfRules(def.head, 1, def.rules), ss + StepsOfRules(def.head, def.rules, nts);
      d := d + 1;
    }
    assert ns == AllNames(grammar, nts) && ss == AllSteps(grammar, nts);
    t := v.Answer(ns, ss);
  }
}
