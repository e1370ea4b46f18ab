/**
 What the Boyer prover's rewriting arrives at (demo/v8_benchmark.js, 7915-7945): the end of the chain of
 single replacements that takes the leftmost innermost instance of a left-hand side and the first equation
 that fits, and how many calls it takes.
 */
module Rewriting {
  import opened Options
  import opened Prover

  // ----- single replacements -----

  /** Some substitution of variables turns the pattern into t. */
  ghost predicate IsInstance(t: Term, pattern: Term) {
    exists goal :: VariablesOnly(goal) && ApplySubst(goal, pattern) == t
  }

  predicate Occurs(a: Atom, t: Term) {
    match t
    case Leaf(b) => a == b
    case App(_, args) => OccursIn(a, args)
  }

  predicate OccursIn(a: Atom, ts: Terms) {
    match ts
    case Nil => false
    case Cons(t, rest) => Occurs(a, t) || OccursIn(a, rest)
  }

  /** A substitution of variables of the pattern. */
  ghost predicate BindsIn(goal: Alist, pattern: Term) {
    VariablesOnly(goal) && forall a :: Lookup(goal, a).Some? ==> Occurs(a, pattern)
  }

  /** t is an instance of the left-hand side of eq, and r the same instance of its right-hand side. */
  ghost predicate Replaces(eq: Term, t: Term, r: Term) {
    && IsEquation(eq) && Rhs(eq).Some?
    && exists goal ::
         BindsIn(goal, eq.args.head) && ApplySubst(goal, eq.args.head) == t && ApplySubst(goal, Rhs(eq).value) == r
  }

  /** No application in t is an instance of a left-hand side filed under its symbol. */
  ghost predicate Irreducible(rules: Rules, t: Term)
    requires WellFormed(rules)
  {
    match t
    case Leaf(_) => true
    case App(f, args) =>
      && IrreducibleAll(rules, args)
      && forall k :: 0 <= k < |RulesFor(rules, f)| ==> !IsInstance(t, RulesFor(rules, f)[k].args.head)
  }

  ghost predicate IrreducibleAll(rules: Rules, ts: Terms)
    requires WellFormed(rules)
  {
    match ts
    case Nil => true
    case Cons(t, rest) => Irreducible(rules, t) && IrreducibleAll(rules, rest)
  }

  /** The first equation for t's symbol whose left-hand side t is an instance of replaces t by r. */
  ghost predicate ReplacedFirst(rules: Rules, t: Term, r: Term)
    requires WellFormed(rules)
  {
    && t.App?
    && var eqs := RulesFor(rules, t.fn);
       exists k :: 0 <= k < |eqs| && Replaces(eqs[k], t, r) && forall j :: 0 <= j < k ==>
           !IsInstance(t, eqs[j].args.head)
  }

  /** u is t with its leftmost innermost instance replaced, by r. */
  ghost predicate Rewrites(rules: Rules, t: Term, u: Term, r: Term)
    requires WellFormed(rules)
    decreases t
  {
    && t.App?
    && (|| (u.App? && u.fn == t.fn && RewritesIn(rules, t.args, u.args, r))
        || (IrreducibleAll(rules, t.args) && u == r && ReplacedFirst(rules, t, r)))
  }

  ghost predicate RewritesIn(rules: Rules, ts: Terms, us: Terms, r: Term)
    requires WellFormed(rules)
    decreases ts
  {
    && ts.Cons? && us.Cons?
    && (|| (Rewrites(rules, ts.head, us.head, r) && us.tail == ts.tail)
        || (Irreducible(rules, ts.head) && us.head == ts.head && RewritesIn(rules, ts.tail, us.tail, r)))
  }

  // ----- chains -----

  function Size(t: Term): nat {
    match t
    case Leaf(_) => 1
    case App(_, args) => 1 + SizeAll(args)
  }

  function SizeAll(ts: Terms): nat {
    match ts
    case Nil => 0
    case Cons(t, rest) => Size(t) + SizeAll(rest)
  }

  /** n replacements lead from t to u; cost is the size of all that was put in. */
  ghost predicate Reaches(rules: Rules, n: nat, t: Term, u: Term, cost: int)
    requires WellFormed(rules)
  {
    if n == 0 then t == u && cost == 0
    else exists v, r :: Rewrites(rules, t, v, r) && Reaches(rules, n - 1, v, u, cost - Size(r))
  }

  ghost predicate ReachesAll(rules: Rules, n: nat, ts: Terms, us: Terms, cost: int)
    requires WellFormed(rules)
  {
    if n == 0 then ts == us && cost == 0
    else exists vs, r :: RewritesIn(rules, ts, vs, r) && ReachesAll(rules, n - 1, vs, us, cost - Size(r))
  }

  lemma {:induction false} ReachesOn(rules: Rules, n: nat, m: nat, t: Term, v: Term, u: Term, c: int, d: int)
    requires WellFormed(rules) && Reaches(rules, n, t, v, c) && Reaches(rules, m, v, u, d)
    ensures Reaches(rules, n + m, t, u, c + d)
    decreases n
  {
    hide Rewrites;
    if n > 0 {
      var w, r :| Rewrites(rules, t, w, r) && Reaches(rules, n - 1, w, v, c - Size(r));
      ReachesOn(rules, n - 1, m, w, v, u, c - Size(r), d);
      assert Reaches(rules, n - 1 + m, w, u, c + d - Size(r));
    }
  }

  lemma {:induction false} ReachesAllOn(rules: Rules, n: nat, m: nat, ts: Terms, vs: Terms, us: Terms, c: int, d: int)
    requires WellFormed(rules) && ReachesAll(rules, n, ts, vs, c) && ReachesAll(rules, m, vs, us, d)
    ensures ReachesAll(rules, n + m, ts, us, c + d)
    decreases n
  {
    hide RewritesIn;
    if n > 0 {
      var ws, r :| RewritesIn(rules, ts, ws, r) && ReachesAll(rules, n - 1, ws, vs, c - Size(r));
      ReachesAllOn(rules, n - 1, m, ws, vs, us, c - Size(r), d);
      assert ReachesAll(rules, n - 1 + m, ws, us, c + d - Size(r));
    }
  }

  /** A chain of the arguments is one of the term. */
  lemma {:induction false} InArgs(rules: Rules, n: nat, f: Symbol, ts: Terms, us: Terms, c: int)
    requires WellFormed(rules) && ReachesAll(rules, n, ts, us, c)
    ensures Reaches(rules, n, App(f, ts), App(f, us), c)
    decreases n
  {
    hide RewritesIn;
    if n > 0 {
      var vs, r :| RewritesIn(rules, ts, vs, r) && ReachesAll(rules, n - 1, vs, us, c - Size(r));
      InArgs(rules, n - 1, f, vs, us, c - Size(r));
      assert Rewrites(rules, App(f, ts), App(f, vs), r);
    }
  }

  lemma {:induction false} InHead(rules: Rules, n: nat, t: Term, u: Term, rest: Terms, c: int)
    requires WellFormed(rules) && Reaches(rules, n, t, u, c)
    ensures ReachesAll(rules, n, Cons(t, rest), Cons(u, rest), c)
    decreases n
  {
    hide Rewrites;
    if n > 0 {
      var v, r :| Rewrites(rules, t, v, r) && Reaches(rules, n - 1, v, u, c - Size(r));
      InHead(rules, n - 1, v, u, rest, c - Size(r));
      assert RewritesIn(rules, Cons(t, rest), Cons(v, rest), r);
    }
  }

  lemma {:induction false} InTail(rules: Rules, n: nat, t: Term, ts: Terms, us: Terms, c: int)
    requires WellFormed(rules) && Irreducible(rules, t) && ReachesAll(rules, n, ts, us, c)
    ensures ReachesAll(rules, n, Cons(t, ts), Cons(t, us), c)
    decreases n
  {
    hide Irreducible;
    if n > 0 {
      var vs, r :| RewritesIn(rules, ts, vs, r) && ReachesAll(rules, n - 1, vs, us, c - Size(r));
      InTail(rules, n - 1, t, vs, us, c - Size(r));
      assert RewritesIn(rules, Cons(t, ts), Cons(t, vs), r);
    }
  }

  // ----- matching, in these terms -----

  /** Matching binds only variables of the pattern. */
  lemma {:induction false} UnifyBinds(s: Alist, t: Term, pattern: Term, a: Atom)
    requires Lookup(Unify(s, t, pattern).subst, a).Some?
    ensures Lookup(s, a).Some? || Occurs(a, pattern)
    decreases pattern
  {
    match pattern
    case Leaf(_) =>
    case App(f, args) =>
      if t.App? && t.fn == f { UnifyListsBinds(s, t.args, args, a); }
  }

  lemma {:induction false} UnifyListsBinds(s: Alist, ts: Terms, patterns: Terms, a: Atom)
    requires Lookup(UnifyLists(s, ts, patterns).subst, a).Some?
    ensures Lookup(s, a).Some? || OccursIn(a, patterns)
    decreases patterns
  {
    match patterns
    case Nil =>
    case Cons(p, ps) =>
      if ts.Cons? {
        var m := Unify(s, ts.head, p);
        if m.ok && Lookup(m.subst, a).None? { UnifyListsBinds(m.subst, ts.tail, ps, a); }
        if Lookup(m.subst, a).Some? { UnifyBinds(s, ts.head, p, a); }
      }
  }

  lemma MatchReplaces(eq: Term, t: Term)
    requires IsEquation(eq) && Rhs(eq).Some? && Unify(Empty, t, eq.args.head).ok
    ensures Replaces(eq, t, ApplySubst(Unify(Empty, t, eq.args.head).subst, Rhs(eq).value))
  {
    var lhs := eq.args.head;
    var goal := Unify(Empty, t, lhs).subst;
    UnifyExtends(Empty, t, lhs);
    MatchingIsInstanceCheck(t, lhs);
    forall a | Lookup(goal, a).Some? ensures Occurs(a, lhs) { UnifyBinds(Empty, t, lhs, a); }
    assert BindsIn(goal, lhs);
  }

  /** FirstMatch finds the first equation t is an instance of. */
  lemma {:induction false} FirstMatchIsFirst(eqs: seq<Term>, t: Term, k: nat)
    requires k <= |eqs| && forall q :: 0 <= q < |eqs| ==> IsEquation(eqs[q])
    ensures
      var r := FirstMatch(eqs, t, k);
      && (forall q :: k <= q < r ==> !IsInstance(t, eqs[q].args.head))
      && (r < |eqs| ==> IsInstance(t, eqs[r].args.head))
    decreases |eqs| - k
  {
    hide IsInstance;
    if k < |eqs| {
      InstanceIsMatch(t, eqs[k].args.head);
      if !Unify(Empty, t, eqs[k].args.head).ok { FirstMatchIsFirst(eqs, t, k + 1); }
    }
  }

  lemma InstanceIsMatch(t: Term, pattern: Term)
    ensures IsInstance(t, pattern) <==> Unify(Empty, t, pattern).ok
  {
    UnifyExtends(Empty, t, pattern);
    if Unify(Empty, t, pattern).ok {
      UnifySound(Empty, t, pattern, Unify(Empty, t, pattern).subst);
    }
    if IsInstance(t, pattern) {
      var goal :| VariablesOnly(goal) && ApplySubst(goal, pattern) == t;
      UnifyComplete(Empty, t, pattern, goal);
    }
  }

  // ----- rewriting follows the chain to its end -----

  /** The head has been matched or not: a replacement, or an end. */
  lemma AtHead(rules: Rules, u: Term)
    requires WellFormed(rules) && u.App? && IrreducibleAll(rules, u.args)
    ensures
      var eqs := RulesFor(rules, u.fn);
      var k := FirstMatch(eqs, u, 0);
      && (k == |eqs| ==> Irreducible(rules, u))
      && (k < |eqs| && Rhs(eqs[k]).Some? ==>
            var v := ApplySubst(Unify(Empty, u, eqs[k].args.head).subst, Rhs(eqs[k]).value);
            Rewrites(rules, u, v, v))
  {
    hide Replaces, IsInstance;
    var eqs := RulesFor(rules, u.fn);
    var k := FirstMatch(eqs, u, 0);
    FirstMatchIsFirst(eqs, u, 0);
    if k < |eqs| && Rhs(eqs[k]).Some? {
      InstanceIsMatch(u, eqs[k].args.head);
      MatchReplaces(eqs[k], u);
    }
  }

  lemma {:induction false} RewriteReaches(rules: Rules, fuel: nat, t: Term) returns (n: nat)
    requires WellFormed(rules) && Rewrite(rules, fuel, t).Value?
    ensures Reaches(rules, n, t, Rewrite(rules, fuel, t).value, Calls(rules, fuel, t) - Size(t))
    ensures Irreducible(rules, Rewrite(rules, fuel, t).value)
    decreases fuel, t
  {
    hide Rewrites, RewritesIn, Unify, FirstMatch;
    if t.Leaf? {
      n := 0;
    } else {
      n := RewriteArgsReach(rules, fuel - 1, t.args);
      var args := RewriteArgs(rules, fuel - 1, t.args).value;
      var u := App(t.fn, args);
      var c := CallsAll(rules, fuel - 1, t.args) - SizeAll(t.args);
      InArgs(rules, n, t.fn, t.args, args, c);
      AtHead(rules, u);
      var eqs := RulesFor(rules, t.fn);
      var k := FirstMatch(eqs, u, 0);
      if k < |eqs| {
        var v := ApplySubst(Unify(Empty, u, eqs[k].args.head).subst, Rhs(eqs[k]).value);
        var m := RewriteReaches(rules, fuel - 1, v);
        var d := Calls(rules, fuel - 1, v);
        assert Reaches(rules, m + 1, u, Rewrite(rules, fuel, t).value, d);
        ReachesOn(rules, n, m + 1, t, u, Rewrite(rules, fuel, t).value, c, d);
        n := n + m + 1;
      }
    }
  }

  lemma {:induction false} RewriteArgsReach(rules: Rules, fuel: nat, ts: Terms) returns (n: nat)
    requires WellFormed(rules) && RewriteArgs(rules, fuel, ts).Value?
    ensures ReachesAll(rules, n, ts, RewriteArgs(rules, fuel, ts).value, CallsAll(rules, fuel, ts) - SizeAll(ts))
    ensures IrreducibleAll(rules, RewriteArgs(rules, fuel, ts).value)
    decreases fuel, ts
  {
    hide Rewrites, RewritesIn, Rewrite, Calls;
    match ts
    case Nil =>
      n := 0;
    case Cons(t, rest) =>
      n := RewriteReaches(rules, fuel, t);
      var m := RewriteArgsReach(rules, fuel, rest);
      var u, us := Rewrite(rules, fuel, t).value, RewriteArgs(rules, fuel, rest).value;
      var c, d := Calls(rules, fuel, t) - Size(t), CallsAll(rules, fuel, rest) - SizeAll(rest);
      InHead(rules, n, t, u, rest, c);
      InTail(rules, m, u, rest, us, d);
      ReachesAllOn(rules, n, m, ts, Cons(u, rest), Cons(u, us), c, d);
      n := n + m;
  }

  // ----- the chain is the only one -----

  lemma {:induction false} SameOn(g: Alist, h: Alist, pattern: Term, a: Atom)
    requires ApplySubst(g, pattern) == ApplySubst(h, pattern) && Occurs(a, pattern)
    ensures ApplySubst(g, Leaf(a)) == ApplySubst(h, Leaf(a))
    decreases pattern
  {
    if pattern.App? { SameOnAll(g, h, pattern.args, a); }
  }

  lemma {:induction false} SameOnAll(g: Alist, h: Alist, patterns: Terms, a: Atom)
    requires ApplySubstList(g, patterns) == ApplySubstList(h, patterns) && OccursIn(a, patterns)
    ensures ApplySubst(g, Leaf(a)) == ApplySubst(h, Leaf(a))
    decreases patterns
  {
    if Occurs(a, patterns.head) { SameOn(g, h, patterns.head, a); } else { SameOnAll(g, h, patterns.tail, a); }
  }

  lemma {:induction false} SameResult(g: Alist, h: Alist, t: Term)
    requires forall a :: ApplySubst(g, Leaf(a)) == ApplySubst(h, Leaf(a))
    ensures ApplySubst(g, t) == ApplySubst(h, t)
    decreases t
  {
    if t.App? { SameResults(g, h, t.args); } else { assert t == Leaf(t.atom); }
  }

  lemma {:induction false} SameResults(g: Alist, h: Alist, ts: Terms)
    requires forall a :: ApplySubst(g, Leaf(a)) == ApplySubst(h, Leaf(a))
    ensures ApplySubstList(g, ts) == ApplySubstList(h, ts)
    decreases ts
  {
    if ts.Cons? {
      SameResult(g, h, ts.head);
      SameResults(g, h, ts.tail);
    }
  }

  lemma ReplacesOne(eq: Term, t: Term, r: Term, r': Term)
    requires Replaces(eq, t, r) && Replaces(eq, t, r')
    ensures r == r' && IsInstance(t, eq.args.head)
  {
    var lhs, rhs := eq.args.head, Rhs(eq).value;
    var g :| BindsIn(g, lhs) && ApplySubst(g, lhs) == t && ApplySubst(g, rhs) == r;
    var h :| BindsIn(h, lhs) && ApplySubst(h, lhs) == t && ApplySubst(h, rhs) == r';
    forall a ensures ApplySubst(g, Leaf(a)) == ApplySubst(h, Leaf(a)) {
      if Occurs(a, lhs) { SameOn(g, h, lhs, a); }
    }
    SameResult(g, h, rhs);
  }

  lemma ReplacedFirstOne(rules: Rules, t: Term, r: Term, r': Term)
    requires WellFormed(rules) && ReplacedFirst(rules, t, r) && ReplacedFirst(rules, t, r')
    ensures r == r' && !Irreducible(rules, t)
  {
    hide Replaces, IsInstance;
    var eqs := RulesFor(rules, t.fn);
    var k :| 0 <= k < |eqs| && Replaces(eqs[k], t, r) && forall j :: 0 <= j < k ==> !IsInstance(t, eqs[j].args.head);
    var m :| 0 <= m < |eqs| && Replaces(eqs[m], t, r') && forall j :: 0 <= j < m ==> !IsInstance(t, eqs[j].args.head);
    ReplacesOne(eqs[k], t, r, r);
    ReplacesOne(eqs[m], t, r', r');
    assert k == m;
    ReplacesOne(eqs[k], t, r, r');
  }

  lemma {:induction false} IrreducibleStops(rules: Rules, t: Term, u: Term, r: Term)
    requires WellFormed(rules) && Rewrites(rules, t, u, r)
    ensures !Irreducible(rules, t)
    decreases t
  {
    hide ReplacedFirst, IsInstance;
    if u.App? && u.fn == t.fn && RewritesIn(rules, t.args, u.args, r) {
      IrreducibleAllStops(rules, t.args, u.args, r);
    } else {
      ReplacedFirstOne(rules, t, r, r);
    }
  }

  lemma {:induction false} IrreducibleAllStops(rules: Rules, ts: Terms, us: Terms, r: Term)
    requires WellFormed(rules) && RewritesIn(rules, ts, us, r)
    ensures !IrreducibleAll(rules, ts)
    decreases ts
  {
    hide Rewrites, Irreducible;
    if Rewrites(rules, ts.head, us.head, r) {
      IrreducibleStops(rules, ts.head, us.head, r);
    } else {
      IrreducibleAllStops(rules, ts.tail, us.tail, r);
    }
  }

  lemma {:induction false} RewritesOne(rules: Rules, t: Term, u: Term, r: Term, u': Term, r': Term)
    requires WellFormed(rules) && Rewrites(rules, t, u, r) && Rewrites(rules, t, u', r')
    ensures u == u' && r == r'
    decreases t
  {
    hide ReplacedFirst, IsInstance, IrreducibleAll;
    var inArgs, inArgs' := u.App? && u.fn == t.fn && RewritesIn(rules, t.args, u.args, r),
      u'.App? && u'.fn == t.fn && RewritesIn(rules, t.args, u'.args, r');
    if inArgs { IrreducibleAllStops(rules, t.args, u.args, r); }
    if inArgs' { IrreducibleAllStops(rules, t.args, u'.args, r'); }
    if inArgs && inArgs' { RewritesInOne(rules, t.args, u.args, r, u'.args, r'); }
    if !inArgs && !inArgs' { ReplacedFirstOne(rules, t, r, r'); }
  }

  lemma {:induction false} RewritesInOne(rules: Rules, ts: Terms, us: Terms, r: Term, us': Terms, r': Term)
    requires WellFormed(rules) && RewritesIn(rules, ts, us, r) && RewritesIn(rules, ts, us', r')
    ensures us == us' && r == r'
    decreases ts
  {
    hide Rewrites, Irreducible;
    var atHead, atHead' := Rewrites(rules, ts.head, us.head, r), Rewrites(rules, ts.head, us'.head, r');
    if atHead { IrreducibleStops(rules, ts.head, us.head, r); }
    if atHead' { IrreducibleStops(rules, ts.head, us'.head, r'); }
    if atHead && atHead' { RewritesOne(rules, ts.head, us.head, r, us'.head, r'); }
    if !atHead && !atHead' { RewritesInOne(rules, ts.tail, us.tail, r, us'.tail, r'); }
  }

  /** Two chains from t that cannot go on are the same. */
  lemma {:induction false} ReachesOne(rules: Rules, n: nat, m: nat, t: Term, u: Term, u': Term, c: int, c': int)
    requires WellFormed(rules) && Reaches(rules, n, t, u, c) && Reaches(rules, m, t, u', c')
    requires Irreducible(rules, u) && Irreducible(rules, u')
    ensures n == m && u == u' && c == c'
    decreases n
  {
    hide Rewrites, Irreducible;
    if n > 0 {
      var v, r :| Rewrites(rules, t, v, r) && Reaches(rules, n - 1, v, u, c - Size(r));
      IrreducibleStops(rules, t, v, r);
      assert m > 0;
      var v', r' :| Rewrites(rules, t, v', r') && Reaches(rules, m - 1, v', u', c' - Size(r'));
      RewritesOne(rules, t, v, r, v', r');
      ReachesOne(rules, n - 1, m - 1, v, u, u', c - Size(r), c' - Size(r));
    } else if m > 0 {
      var v', r' :| Rewrites(rules, t, v', r') && Reaches(rules, m - 1, v', u', c' - Size(r'));
      IrreducibleStops(rules, t, v', r');
    }
  }

  // ----- and rewriting gets to its end -----

  /** A chain of an application works off the arguments first. */
  lemma {:induction false} ArgsFirst(rules: Rules, n: nat, t: Term, u: Term, c: int)
    returns (k: nat, args: Terms, d: int, v: Term)
    requires WellFormed(rules) && t.App? && Reaches(rules, n, t, u, c) && Irreducible(rules, u)
    ensures k <= n && ReachesAll(rules, k, t.args, args, d) && IrreducibleAll(rules, args)
    ensures k == n ==> u == App(t.fn, args)
    ensures k < n ==> ReplacedFirst(rules, App(t.fn, args), v) && Reaches(rules, n - k - 1, v, u, c - d - Size(v))
    decreases n
  {
    hide RewritesIn, ReplacedFirst;
    if n == 0 {
      k, args, d, v := 0, t.args, 0, t;
    } else {
      var w, r :| Rewrites(rules, t, w, r) && Reaches(rules, n - 1, w, u, c - Size(r));
      if w.App? && w.fn == t.fn && RewritesIn(rules, t.args, w.args, r) {
        k, args, d, v := ArgsFirst(rules, n - 1, w, u, c - Size(r));
        k, d := k + 1, d + Size(r);
        assert ReachesAll(rules, k - 1, w.args, args, d - Size(r));
      } else {
        k, args, d, v := 0, t.args, 0, r;
      }
    }
  }

  /** A chain of a list works off its head first. */
  lemma {:induction false} HeadFirst(rules: Rules, n: nat, ts: Terms, us: Terms, c: int) returns (k: nat, d: int)
    requires WellFormed(rules) && ts.Cons? && ReachesAll(rules, n, ts, us, c) && IrreducibleAll(rules, us)
    ensures us.Cons? && k <= n && Reaches(rules, k, ts.head, us.head, d)
    ensures ReachesAll(rules, n - k, ts.tail, us.tail, c - d)
    decreases n
  {
    hide Rewrites, Irreducible;
    if n == 0 {
      k, d := 0, 0;
    } else {
      var vs, r :| RewritesIn(rules, ts, vs, r) && ReachesAll(rules, n - 1, vs, us, c - Size(r));
      k, d := HeadFirst(rules, n - 1, vs, us, c - Size(r));
      if Rewrites(rules, ts.head, vs.head, r) && vs.tail == ts.tail {
        k, d := k + 1, d + Size(r);
        assert Reaches(rules, k - 1, vs.head, us.head, d - Size(r));
      } else {
        NoWayOn(rules, k, ts.head, us.head, d);
        assert RewritesIn(rules, ts.tail, vs.tail, r) && ReachesAll(rules, n - 1, vs.tail, us.tail, c - Size(r));
        assert ReachesAll(rules, n, ts.tail, us.tail, c);
      }
    }
  }

  lemma NoWayOn(rules: Rules, n: nat, t: Term, u: Term, c: int)
    requires WellFormed(rules) && Irreducible(rules, t) && Reaches(rules, n, t, u, c)
    ensures n == 0 && u == t && c == 0
  {
    hide Rewrites, Irreducible;
    if n > 0 {
      var v, r :| Rewrites(rules, t, v, r) && Reaches(rules, n - 1, v, u, c - Size(r));
      IrreducibleStops(rules, t, v, r);
    }
  }

  /** With arguments that cannot be rewritten, matching finds the replacement of the chain, or none. */
  lemma HeadMatches(rules: Rules, t: Term, v: Term)
    requires WellFormed(rules) && t.App? && ReplacedFirst(rules, t, v)
    ensures
      var eqs := RulesFor(rules, t.fn);
      var k := FirstMatch(eqs, t, 0);
      k < |eqs| && Rhs(eqs[k]).Some? && ApplySubst(Unify(Empty, t, eqs[k].args.head).subst, Rhs(eqs[k]).value) == v
  {
    hide Replaces, IsInstance, Unify;
    var eqs := RulesFor(rules, t.fn);
    var m :| 0 <= m < |eqs| && Replaces(eqs[m], t, v) && forall j :: 0 <= j < m ==> !IsInstance(t, eqs[j].args.head);
    ReplacesOne(eqs[m], t, v, v);
    FirstMatchIsFirst(eqs, t, 0);
    ReplacesHasRhs(eqs[m], t, v);
    InstanceIsMatch(t, eqs[m].args.head);
    MatchReplaces(eqs[m], t);
    ReplacesOne(eqs[m], t, v, ApplySubst(Unify(Empty, t, eqs[m].args.head).subst, Rhs(eqs[m]).value));
  }

  lemma ReplacesHasRhs(eq: Term, t: Term, r: Term)
    requires Replaces(eq, t, r)
    ensures IsEquation(eq) && Rhs(eq).Some?
  {
  }

  lemma {:induction false} ReachesRewrites(rules: Rules, n: nat, t: Term, u: Term, c: int) returns (fuel: nat)
    requires WellFormed(rules) && Reaches(rules, n, t, u, c) && Irreducible(rules, u)
    ensures Rewrite(rules, fuel, t) == Value(u)
    decreases n, t
  {
    hide ReplacedFirst, RewritesIn, Unify, FirstMatch, ReachesAll;
    if t.Leaf? {
      fuel := 1;
    } else {
      var k, args, d, v := ArgsFirst(rules, n, t, u, c);
      var f := ReachesAllRewrites(rules, k, t.args, args, d);
      if k == n {
        NoMatch(rules, u);
        fuel := f + 1;
      } else {
        var h := ReachesRewrites(rules, n - k - 1, v, u, c - d - Size(v));
        var more := if f < h then h else f;
        ArgsFuelIrrelevant(rules, f, more, t.args);
        FuelIrrelevant(rules, h, more, v);
        HeadMatches(rules, App(t.fn, args), v);
        fuel := more + 1;
      }
    }
  }

  lemma NoMatch(rules: Rules, u: Term)
    requires WellFormed(rules) && u.App? && Irreducible(rules, u)
    ensures FirstMatch(RulesFor(rules, u.fn), u, 0) == |RulesFor(rules, u.fn)|
  {
    hide IsInstance;
    FirstMatchIsFirst(RulesFor(rules, u.fn), u, 0);
  }

  lemma {:induction false} ReachesAllRewrites(rules: Rules, n: nat, ts: Terms, us: Terms, c: int) returns (fuel: nat)
    requires WellFormed(rules) && ReachesAll(rules, n, ts, us, c) && IrreducibleAll(rules, us)
    ensures RewriteArgs(rules, fuel, ts) == Value(us)
    decreases n, ts
  {
    hide Rewrites, Irreducible, Rewrite;
    if ts.Nil? {
      fuel := 0;
    } else {
      var k, d := HeadFirst(rules, n, ts, us, c);
      var f := ReachesRewrites(rules, k, ts.head, us.head, d);
      var h := ReachesAllRewrites(rules, n - k, ts.tail, us.tail, c - d);
      fuel := if f < h then h else f;
      FuelIrrelevant(rules, f, fuel, ts.head);
      ArgsFuelIrrelevant(rules, h, fuel, ts.tail);
    }
  }

  /** u is where the chain of single replacements from t ends. */
  ghost predicate EndsAt(rules: Rules, t: Term, u: Term, cost: int)
    requires WellFormed(rules)
  {
    Irreducible(rules, u) && exists n: nat :: Reaches(rules, n, t, u, cost)
  }

  /**
   Rewriting arrives at u if and only if the chain of single replacements from t ends at u: with no instance of a
   left-hand side left in it. The number of calls is the size of t and of everything put in on the way.
   */
  lemma RewriteExactly(rules: Rules, t: Term, u: Term)
    requires WellFormed(rules)
    ensures (exists fuel: nat :: Rewrite(rules, fuel, t) == Value(u)) <==>
              (exists cost: int :: EndsAt(rules, t, u, cost))
    ensures forall fuel: nat {:trigger Calls(rules, fuel, t)} :: Rewrite(rules, fuel, t) == Value(u) ==>
              EndsAt(rules, t, u, Calls(rules, fuel, t) - Size(t))
  {
    hide Reaches, Irreducible, Rewrite, Calls;
    forall fuel: nat | Rewrite(rules, fuel, t) == Value(u)
      ensures EndsAt(rules, t, u, Calls(rules, fuel, t) - Size(t))
    {
      var n := RewriteReaches(rules, fuel, t);
    }
    if exists cost: int :: EndsAt(rules, t, u, cost) {
      var cost: int :| EndsAt(rules, t, u, cost);
      var n: nat :| Reaches(rules, n, t, u, cost);
      var fuel := ReachesRewrites(rules, n, t, u, cost);
    }
  }

  /** There is at most one such end, and one cost. */
  lemma EndsOnce(rules: Rules, t: Term, u: Term, u': Term, c: int, c': int)
    requires WellFormed(rules) && EndsAt(rules, t, u, c) && EndsAt(rules, t, u', c')
    ensures u == u' && c == c'
  {
    hide Reaches, Irreducible;
    var n: nat :| Reaches(rules, n, t, u, c);
    var m: nat :| Reaches(rules, m, t, u', c');
    ReachesOne(rules, n, m, t, u, u', c, c');
  }
}
