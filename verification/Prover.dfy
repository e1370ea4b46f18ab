/**
 The Boyer prover (demo/v8_benchmark.js, 7866-8110): one-way matching, rewriting with
 equations and a tautology check for IF-terms. A term is an atom or a function symbol
 applied to a list of terms.
 */
module Prover {
  import opened Options

  type Symbol = string

  datatype Atom = Number(n: int) | Variable(name: string)

  datatype Term = Leaf(atom: Atom) | App(fn: Symbol, args: Terms)

  datatype Terms = Nil | Cons(head: Term, tail: Terms)

  /** An association list, newest binding first. */
  datatype Alist = Empty | Bind(key: Atom, value: Term, rest: Alist)

  const TRUE_TERM: Term := App("t", Nil)
  const FALSE_TERM: Term := App("f", Nil)

  // ----- substitution -----

  function Lookup(s: Alist, a: Atom): Option<Term> {
    match s
    case Empty => None
    case Bind(k, v, rest) => if k == a then Some(v) else Lookup(rest, a)
  }

  function ApplySubst(s: Alist, t: Term): Term {
    match t
    case Leaf(a) => if Lookup(s, a).Some? then Lookup(s, a).value else t
    case App(f, args) => App(f, ApplySubstList(s, args))
  }

  function ApplySubstList(s: Alist, ts: Terms): Terms {
    match ts
    case Nil => Nil
    case Cons(t, rest) => Cons(ApplySubst(s, t), ApplySubstList(s, rest))
  }

  /** Substitutions bind variables only. */
  ghost predicate VariablesOnly(s: Alist) {
    match s
    case Empty => true
    case Bind(k, _, rest) => k.Variable? && VariablesOnly(rest)
  }

  lemma {:induction false} NumbersUnbound(s: Alist, a: Atom)
    requires VariablesOnly(s) && a.Number?
    ensures Lookup(s, a) == None
  {
    match s
    case Empty =>
    case Bind(_, _, rest) => NumbersUnbound(rest, a);
  }

  /** s2 keeps every binding of s1. */
  ghost predicate Extends(s1: Alist, s2: Alist) {
    forall a :: Lookup(s1, a).Some? ==> Lookup(s2, a) == Lookup(s1, a)
  }

  // ----- one-way matching -----

  datatype Match = Match(ok: bool, subst: Alist)

  /** Matches the subject against the pattern under the bindings found so far. */
  function Unify(s: Alist, subject: Term, pattern: Term): Match
    decreases pattern
  {
    match pattern
    case Leaf(a) =>
      if Lookup(s, a).Some? then Match(subject == Lookup(s, a).value, s)
      else if a.Number? then Match(subject == pattern, s)
      else Match(true, Bind(a, subject, s))
    case App(f, args) =>
      if subject.Leaf? || subject.fn != f then Match(false, s)
      else UnifyLists(s, subject.args, args)
  }

  function UnifyLists(s: Alist, subjects: Terms, patterns: Terms): Match
    decreases patterns
  {
    match patterns
    case Nil => Match(subjects.Nil?, s)
    case Cons(p, ps) =>
      if subjects.Nil? then Match(false, s)
      else
        var m := Unify(s, subjects.head, p);
        if m.ok then UnifyLists(m.subst, subjects.tail, ps) else m
  }

  /** Matching only adds bindings of variables. */
  lemma {:induction false} UnifyExtends(s: Alist, subject: Term, pattern: Term)
    requires VariablesOnly(s)
    ensures VariablesOnly(Unify(s, subject, pattern).subst) && Extends(s, Unify(s, subject, pattern).subst)
    decreases pattern
  {
    match pattern
    case Leaf(a) =>
    case App(f, args) =>
      if subject.App? && subject.fn == f { UnifyListsExtends(s, subject.args, args); }
  }

  lemma {:induction false} UnifyListsExtends(s: Alist, subjects: Terms, patterns: Terms)
    requires VariablesOnly(s)
    ensures VariablesOnly(UnifyLists(s, subjects, patterns).subst)
    ensures Extends(s, UnifyLists(s, subjects, patterns).subst)
    decreases patterns
  {
    match patterns
    case Nil =>
    case Cons(p, ps) =>
      if subjects.Cons? {
        UnifyExtends(s, subjects.head, p);
        UnifyListsExtends(Unify(s, subjects.head, p).subst, subjects.tail, ps);
      }
  }

  /** A match found under s still turns the pattern into the subject under any extension. */
  lemma {:induction false} UnifySound(s: Alist, subject: Term, pattern: Term, more: Alist)
    requires VariablesOnly(s) && VariablesOnly(more)
    requires Unify(s, subject, pattern).ok && Extends(Unify(s, subject, pattern).subst, more)
    ensures ApplySubst(more, pattern) == subject
    decreases pattern
  {
    match pattern
    case Leaf(a) =>
      if a.Number? { NumbersUnbound(s, a); NumbersUnbound(more, a); }
      assert a.Variable? ==> Lookup(Unify(s, subject, pattern).subst, a) == Some(subject);
    case App(f, args) =>
      UnifyListsSound(s, subject.args, args, more);
  }

  lemma {:induction false} UnifyListsSound(s: Alist, subjects: Terms, patterns: Terms, more: Alist)
    requires VariablesOnly(s) && VariablesOnly(more)
    requires UnifyLists(s, subjects, patterns).ok && Extends(UnifyLists(s, subjects, patterns).subst, more)
    ensures ApplySubstList(more, patterns) == subjects
    decreases patterns
  {
    match patterns
    case Nil =>
    case Cons(p, ps) =>
      var m := Unify(s, subjects.head, p);
      UnifyExtends(s, subjects.head, p);
      UnifyListsExtends(m.subst, subjects.tail, ps);
      UnifySound(s, subjects.head, p, more);
      UnifyListsSound(m.subst, subjects.tail, ps, more);
  }

  /** Every binding of s is what goal does to its key. */
  ghost predicate Agrees(s: Alist, goal: Alist) {
    forall a :: Lookup(s, a).Some? ==> Lookup(s, a).value == ApplySubst(goal, Leaf(a))
  }

  /** If any substitution turns the pattern into the subject, matching succeeds. */
  lemma {:induction false} UnifyComplete(s: Alist, subject: Term, pattern: Term, goal: Alist)
    requires VariablesOnly(s) && VariablesOnly(goal) && Agrees(s, goal) && ApplySubst(goal, pattern) == subject
    ensures Unify(s, subject, pattern).ok && Agrees(Unify(s, subject, pattern).subst, goal)
    decreases pattern
  {
    match pattern
    case Leaf(a) =>
      if a.Number? { NumbersUnbound(goal, a); }
    case App(f, args) =>
      UnifyListsComplete(s, subject.args, args, goal);
  }

  lemma {:induction false} UnifyListsComplete(s: Alist, subjects: Terms, patterns: Terms, goal: Alist)
    requires VariablesOnly(s) && VariablesOnly(goal) && Agrees(s, goal) && ApplySubstList(goal, patterns) == subjects
    ensures UnifyLists(s, subjects, patterns).ok && Agrees(UnifyLists(s, subjects, patterns).subst, goal)
    decreases patterns
  {
    match patterns
    case Nil =>
    case Cons(p, ps) =>
      UnifyExtends(s, subjects.head, p);
      UnifyComplete(s, subjects.head, p, goal);
      UnifyListsComplete(Unify(s, subjects.head, p).subst, subjects.tail, ps, goal);
  }

  /** Matching decides exactly whether the subject is an instance of the pattern. */
  lemma MatchingIsInstanceCheck(subject: Term, pattern: Term)
    ensures Unify(Empty, subject, pattern).ok <==>
            exists goal :: VariablesOnly(goal) && ApplySubst(goal, pattern) == subject
    ensures Unify(Empty, subject, pattern).ok ==> ApplySubst(Unify(Empty, subject, pattern).subst, pattern) == subject
  {
    var m := Unify(Empty, subject, pattern);
    UnifyExtends(Empty, subject, pattern);
    if m.ok { UnifySound(Empty, subject, pattern, m.subst); }
    if exists goal :: VariablesOnly(goal) && ApplySubst(goal, pattern) == subject {
      var goal :| VariablesOnly(goal) && ApplySubst(goal, pattern) == subject;
      UnifyComplete(Empty, subject, pattern, goal);
    }
  }

  // ----- meaning -----

  /** An interpretation of function symbols and numbers; variables get their meaning from an environment. */
  datatype Interp<!D> = Interp(fn: (Symbol, seq<D>) -> D, num: int -> D)

  type Env<!D> = string -> D

  ghost function Eval<D>(i: Interp<D>, env: Env<D>, t: Term): D {
    match t
    case Leaf(Number(n)) => i.num(n)
    case Leaf(Variable(x)) => env(x)
    case App(f, args) => i.fn(f, EvalList(i, env, args))
  }

  ghost function EvalList<D>(i: Interp<D>, env: Env<D>, ts: Terms): seq<D> {
    match ts
    case Nil => []
    case Cons(t, rest) => [Eval(i, env, t)] + EvalList(i, env, rest)
  }

  /** The environment in which a term means what its instance means in env. */
  ghost function Under<D>(i: Interp<D>, env: Env<D>, s: Alist): Env<D> {
    (x: string) => Eval(i, env, ApplySubst(s, Leaf(Variable(x))))
  }

  lemma {:induction false} SubstMeaning<D>(i: Interp<D>, env: Env<D>, s: Alist, t: Term)
    requires VariablesOnly(s)
    ensures Eval(i, env, ApplySubst(s, t)) == Eval(i, Under(i, env, s), t)
    decreases t
  {
    match t
    case Leaf(a) =>
      if a.Number? { NumbersUnbound(s, a); }
    case App(f, args) =>
      SubstListMeaning(i, env, s, args);
  }

  lemma {:induction false} SubstListMeaning<D>(i: Interp<D>, env: Env<D>, s: Alist, ts: Terms)
    requires VariablesOnly(s)
    ensures EvalList(i, env, ApplySubstList(s, ts)) == EvalList(i, Under(i, env, s), ts)
    decreases ts
  {
    match ts
    case Nil =>
    case Cons(t, rest) =>
      SubstMeaning(i, env, s, t);
      SubstListMeaning(i, env, s, rest);
  }

  // ----- equations -----

  /** (equal lhs rhs) with an application on the left. */
  predicate IsEquation(t: Term) {
    t.App? && t.fn == "equal" && t.args.Cons? && t.args.head.App?
  }

  /** The right-hand side; missing when the equation has only one side. */
  function Rhs(t: Term): Option<Term>
    requires IsEquation(t)
  {
    if t.args.tail.Cons? then Some(t.args.tail.head) else None
  }

  /** Equations by the head symbol of their left-hand side, in the order they are tried. */
  type Rules = map<Symbol, seq<Term>>

  function RulesFor(rules: Rules, f: Symbol): seq<Term> {
    if f in rules then rules[f] else []
  }

  ghost predicate WellFormed(rules: Rules) {
    forall f :: f in rules ==> forall k :: 0 <= k < |rules[f]| ==> IsEquation(rules[f][k])
  }

  /** The equation holds in i for every environment. */
  ghost predicate Holds<D(!new)>(i: Interp<D>, t: Term) {
    IsEquation(t) && Rhs(t).Some? ==> forall env: Env<D> :: Eval(i, env, t.args.head) == Eval(i, env, Rhs(t).value)
  }

  ghost predicate Satisfies<D(!new)>(i: Interp<D>, rules: Rules) {
    forall f :: f in rules ==> forall k :: 0 <= k < |rules[f]| ==> Holds(i, rules[f][k])
  }

  // ----- rewriting -----

  /** OutOfFuel stands for a run not finished within the depth given; Crash for a type error. */
  datatype Outcome<+T> = Value(value: T) | OutOfFuel | Crash

  /** The first equation from position k on whose left-hand side matches t. */
  function FirstMatch(eqs: seq<Term>, t: Term, k: nat): (r: nat)
    requires k <= |eqs| && forall q :: 0 <= q < |eqs| ==> IsEquation(eqs[q])
    ensures k <= r <= |eqs|
    decreases |eqs| - k
  {
    if k == |eqs| then k
    else
      assert IsEquation(eqs[k]);
      if Unify(Empty, t, eqs[k].args.head).ok then k else FirstMatch(eqs, t, k + 1)
  }

  /** Rewrites the arguments, then the head by the first matching equation, and so on. */
  function Rewrite(rules: Rules, fuel: nat, t: Term): Outcome<Term>
    requires WellFormed(rules)
    decreases fuel, t
  {
    if fuel == 0 then OutOfFuel
    else if t.Leaf? then Value(t)
    else
      match RewriteArgs(rules, fuel - 1, t.args)
      case OutOfFuel => OutOfFuel
      case Crash => Crash
      case Value(args) =>
        var u := App(t.fn, args);
        var eqs := RulesFor(rules, t.fn);
        var k := FirstMatch(eqs, u, 0);
        if k == |eqs| then Value(u)
        else if Rhs(eqs[k]).None? then Crash
        else Rewrite(rules, fuel - 1, ApplySubst(Unify(Empty, u, eqs[k].args.head).subst, Rhs(eqs[k]).value))
  }

  function RewriteArgs(rules: Rules, fuel: nat, ts: Terms): Outcome<Terms>
    requires WellFormed(rules)
    decreases fuel, ts
  {
    match ts
    case Nil => Value(Nil)
    case Cons(t, rest) =>
      match Rewrite(rules, fuel, t)
      case OutOfFuel => OutOfFuel
      case Crash => Crash
      case Value(u) =>
        match RewriteArgs(rules, fuel, rest)
        case OutOfFuel => OutOfFuel
        case Crash => Crash
        case Value(us) => Value(Cons(u, us))
  }

  /** How often rewrite is called. */
  function Calls(rules: Rules, fuel: nat, t: Term): nat
    requires WellFormed(rules) && Rewrite(rules, fuel, t).Value?
    decreases fuel, t
  {
    if t.Leaf? then 1
    else
      var u := App(t.fn, RewriteArgs(rules, fuel - 1, t.args).value);
      var eqs := RulesFor(rules, t.fn);
      var k := FirstMatch(eqs, u, 0);
      1 + CallsAll(rules, fuel - 1, t.args) +
      if k == |eqs| then 0
      else Calls(rules, fuel - 1, ApplySubst(Unify(Empty, u, eqs[k].args.head).subst, Rhs(eqs[k]).value))
  }

  function CallsAll(rules: Rules, fuel: nat, ts: Terms): nat
    requires WellFormed(rules) && RewriteArgs(rules, fuel, ts).Value?
    decreases fuel, ts
  {
    match ts
    case Nil => 0
    case Cons(t, rest) => Calls(rules, fuel, t) + CallsAll(rules, fuel, rest)
  }

  lemma {:induction false} FirstMatchMatches(eqs: seq<Term>, t: Term, k: nat)
    requires k <= |eqs| && forall q :: 0 <= q < |eqs| ==> IsEquation(eqs[q])
    ensures FirstMatch(eqs, t, k) < |eqs| ==> Unify(Empty, t, eqs[FirstMatch(eqs, t, k)].args.head).ok
    decreases |eqs| - k
  {
    if k < |eqs| && !Unify(Empty, t, eqs[k].args.head).ok { FirstMatchMatches(eqs, t, k + 1); }
  }

  /** Replacing an instance of a left-hand side keeps the meaning. */
  lemma StepMeaning<D(!new)>(i: Interp<D>, env: Env<D>, eq: Term, t: Term)
    requires IsEquation(eq) && Rhs(eq).Some? && Holds(i, eq) && Unify(Empty, t, eq.args.head).ok
    ensures Eval(i, env, ApplySubst(Unify(Empty, t, eq.args.head).subst, Rhs(eq).value)) == Eval(i, env, t)
  {
    var s := Unify(Empty, t, eq.args.head).subst;
    UnifyExtends(Empty, t, eq.args.head);
    MatchingIsInstanceCheck(t, eq.args.head);
    SubstMeaning(i, env, s, eq.args.head);
    SubstMeaning(i, env, s, Rhs(eq).value);
  }

  /** Rewriting, when it ends, keeps the meaning in every model of the equations. */
  lemma {:induction false} RewriteMeaning<D(!new)>(i: Interp<D>, env: Env<D>, rules: Rules, fuel: nat, t: Term)
    requires WellFormed(rules) && Satisfies(i, rules) && Rewrite(rules, fuel, t).Value?
    ensures Eval(i, env, Rewrite(rules, fuel, t).value) == Eval(i, env, t)
    decreases fuel, t
  {
    if t.App? {
      RewriteArgsMeaning(i, env, rules, fuel - 1, t.args);
      var u := App(t.fn, RewriteArgs(rules, fuel - 1, t.args).value);
      var eqs := RulesFor(rules, t.fn);
      var k := FirstMatch(eqs, u, 0);
      if k < |eqs| {
        FirstMatchMatches(eqs, u, 0);
        StepMeaning(i, env, eqs[k], u);
        RewriteMeaning(i, env, rules, fuel - 1, ApplySubst(Unify(Empty, u, eqs[k].args.head).subst, Rhs(eqs[k]).value));
      }
    }
  }

  lemma {:induction false} RewriteArgsMeaning<D(!new)>(i: Interp<D>, env: Env<D>, rules: Rules, fuel: nat, ts: Terms)
    requires WellFormed(rules) && Satisfies(i, rules) && RewriteArgs(rules, fuel, ts).Value?
    ensures EvalList(i, env, RewriteArgs(rules, fuel, ts).value) == EvalList(i, env, ts)
    decreases fuel, ts
  {
    match ts
    case Nil =>
    case Cons(t, rest) =>
      RewriteMeaning(i, env, rules, fuel, t);
      RewriteArgsMeaning(i, env, rules, fuel, rest);
  }

  /** More fuel never changes the outcome of a finished run. */
  lemma {:induction false} FuelIrrelevant(rules: Rules, fuel: nat, more: nat, t: Term)
    requires WellFormed(rules) && fuel <= more && !Rewrite(rules, fuel, t).OutOfFuel?
    ensures Rewrite(rules, more, t) == Rewrite(rules, fuel, t)
    decreases fuel, t
  {
    if t.App? {
      ArgsFuelIrrelevant(rules, fuel - 1, more - 1, t.args);
      if RewriteArgs(rules, fuel - 1, t.args).Value? {
        var u := App(t.fn, RewriteArgs(rules, fuel - 1, t.args).value);
        var eqs := RulesFor(rules, t.fn);
        var k := FirstMatch(eqs, u, 0);
        if k < |eqs| && Rhs(eqs[k]).Some? {
          FuelIrrelevant(rules, fuel - 1, more - 1,
              ApplySubst(Unify(Empty, u, eqs[k].args.head).subst, Rhs(eqs[k]).value));
        }
      }
    }
  }

  lemma {:induction false} ArgsFuelIrrelevant(rules: Rules, fuel: nat, more: nat, ts: Terms)
    requires WellFormed(rules) && fuel <= more && !RewriteArgs(rules, fuel, ts).OutOfFuel?
    ensures RewriteArgs(rules, more, ts) == RewriteArgs(rules, fuel, ts)
    decreases fuel, ts
  {
    match ts
    case Nil =>
    case Cons(t, rest) =>
      FuelIrrelevant(rules, fuel, more, t);
      if Rewrite(rules, fuel, t).Value? { ArgsFuelIrrelevant(rules, fuel, more, rest); }
  }

  // ----- tautologies -----

  predicate Member(t: Term, ts: Terms) {
    match ts
    case Nil => false
    case Cons(u, rest) => t == u || Member(t, rest)
  }

  predicate KnownTrue(t: Term, trues: Terms) { t == TRUE_TERM || Member(t, trues) }

  predicate KnownFalse(t: Term, falses: Terms) { t == FALSE_TERM || Member(t, falses) }

  /** The tautology check under assumptions; an IF with too few arguments is a type error. */
  function Tautology(x: Term, trues: Terms, falses: Terms): Outcome<bool>
    decreases x
  {
    if KnownTrue(x, trues) then Value(true)
    else if KnownFalse(x, falses) then Value(false)
    else if x.Leaf? || x.fn != "if" then Value(false)
    else if x.args.Nil? then Crash
    else
      var c := x.args.head;
      if KnownTrue(c, trues) then
        if x.args.tail.Nil? then Crash else Tautology(x.args.tail.head, trues, falses)
      else if KnownFalse(c, falses) then
        if x.args.tail.Nil? || x.args.tail.tail.Nil? then Crash else Tautology(x.args.tail.tail.head, trues, falses)
      else if x.args.tail.Nil? then Crash
      else
        var r := Tautology(x.args.tail.head, Cons(c, trues), falses);
        if r != Value(true) then r
        else if x.args.tail.tail.Nil? then Crash
        else Tautology(x.args.tail.tail.head, trues, Cons(c, falses))
  }

  /** `if` selects its second or third argument by whether the first is false; true is not false. */
  ghost predicate StandardIf<D(!new)>(i: Interp<D>) {
    && i.fn("t", []) != i.fn("f", [])
    && (forall ds: seq<D> :: |ds| >= 2 && ds[0] != i.fn("f", []) ==> i.fn("if", ds) == ds[1])
    && (forall ds: seq<D> :: |ds| >= 3 && ds[0] == i.fn("f", []) ==> i.fn("if", ds) == ds[2])
  }

  ghost predicate AllTrue<D>(i: Interp<D>, env: Env<D>, ts: Terms) {
    match ts
    case Nil => true
    case Cons(t, rest) => Eval(i, env, t) != i.fn("f", []) && AllTrue(i, env, rest)
  }

  ghost predicate AllFalse<D>(i: Interp<D>, env: Env<D>, ts: Terms) {
    match ts
    case Nil => true
    case Cons(t, rest) => Eval(i, env, t) == i.fn("f", []) && AllFalse(i, env, rest)
  }

  lemma {:induction false} MemberMeaning<D(!new)>(i: Interp<D>, env: Env<D>, t: Term, ts: Terms)
    requires Member(t, ts)
    ensures AllTrue(i, env, ts) ==> Eval(i, env, t) != i.fn("f", [])
    ensures AllFalse(i, env, ts) ==> Eval(i, env, t) == i.fn("f", [])
  {
    match ts
    case Cons(u, rest) => if t != u { MemberMeaning(i, env, t, rest); }
  }

  lemma KnownMeaning<D(!new)>(i: Interp<D>, env: Env<D>, t: Term, trues: Terms, falses: Terms)
    requires StandardIf(i) && AllTrue(i, env, trues) && AllFalse(i, env, falses)
    ensures KnownTrue(t, trues) ==> Eval(i, env, t) != i.fn("f", [])
    ensures KnownFalse(t, falses) ==> Eval(i, env, t) == i.fn("f", [])
  {
    if Member(t, trues) { MemberMeaning(i, env, t, trues); }
    if Member(t, falses) { MemberMeaning(i, env, t, falses); }
    assert Eval(i, env, TRUE_TERM) == i.fn("t", []) && Eval(i, env, FALSE_TERM) == i.fn("f", []);
  }

  lemma IfMeaning<D(!new)>(i: Interp<D>, env: Env<D>, x: Term)
    requires StandardIf(i) && x.App? && x.fn == "if" && x.args.Cons? && x.args.tail.Cons?
    ensures Eval(i, env, x.args.head) != i.fn("f", []) ==> Eval(i, env, x) == Eval(i, env, x.args.tail.head)
    ensures Eval(i, env, x.args.head) == i.fn("f", []) && x.args.tail.tail.Cons? ==>
              Eval(i, env, x) == Eval(i, env, x.args.tail.tail.head)
  {
    var rest := x.args.tail.tail;
    var ds := EvalList(i, env, x.args);
    assert EvalList(i, env, x.args.tail) == [Eval(i, env, x.args.tail.head)] + EvalList(i, env, rest);
    assert ds == [Eval(i, env, x.args.head)] + ([Eval(i, env, x.args.tail.head)] + EvalList(i, env, rest));
    assert rest.Cons? ==> EvalList(i, env, rest) == [Eval(i, env, rest.head)] + EvalList(i, env, rest.tail);
  }

  /** A term found tautologous is non-false wherever its assumptions hold. */
  lemma {:induction false} TautologySound<D(!new)>(i: Interp<D>, env: Env<D>, x: Term, trues: Terms, falses: Terms)
    requires StandardIf(i) && AllTrue(i, env, trues) && AllFalse(i, env, falses)
    requires Tautology(x, trues, falses) == Value(true)
    ensures Eval(i, env, x) != i.fn("f", [])
    decreases x
  {
    KnownMeaning(i, env, x, trues, falses);
    if !KnownTrue(x, trues) {
      IfMeaning(i, env, x);
      var c := x.args.head;
      KnownMeaning(i, env, c, trues, falses);
      if KnownTrue(c, trues) {
        TautologySound(i, env, x.args.tail.head, trues, falses);
      } else if KnownFalse(c, falses) {
        TautologySound(i, env, x.args.tail.tail.head, trues, falses);
      } else if Eval(i, env, c) != i.fn("f", []) {
        TautologySound(i, env, x.args.tail.head, Cons(c, trues), falses);
      } else {
        TautologySound(i, env, x.args.tail.tail.head, trues, Cons(c, falses));
      }
    }
  }

  // ----- what the tautology check decides -----

  predicate IsIf(t: Term) {
    t.App? && t.fn == "if" && t.args.Cons? && t.args.tail.Cons? && t.args.tail.tail.Cons?
  }

  /** IFs have three arguments and no IF in their condition. */
  predicate IfNormal(t: Term) {
    match t
    case Leaf(_) => true
    case App(f, args) =>
      f == "if" ==>
        IsIf(t) && !(args.head.App? && args.head.fn == "if") && IfNormal(args.tail.head)
            && IfNormal(args.tail.tail.head)
  }

  /** Truth when every term that is not an IF, t or f is an independent proposition. */
  ghost function Truth(v: Term -> bool, t: Term): bool {
    if t == TRUE_TERM then true
    else if t == FALSE_TERM then false
    else if IsIf(t) then if Truth(v, t.args.head) then Truth(v, t.args.tail.head) else Truth(v, t.args.tail.tail.head)
    else v(t)
  }

  /** The value of a term taken as a proposition of its own, IF or not. */
  predicate Given(v: Term -> bool, t: Term) { t == TRUE_TERM || (t != FALSE_TERM && v(t)) }

  /**
   Truth on a path through a term: every condition is a proposition of its own, and a term that
   has been such a condition on the path keeps the value it had there. A missing branch is false.
   */
  ghost function PathTruth(v: Term -> bool, x: Term, path: set<Term>): bool
    decreases x
  {
    if x !in path && x.App? && x.fn == "if" then
      && x.args.Cons?
      && x.args.tail.Cons?
      && var c := x.args.head;
         if Given(v, c) then PathTruth(v, x.args.tail.head, path + {c})
         else x.args.tail.tail.Cons? && PathTruth(v, x.args.tail.tail.head, path + {c})
    else Given(v, x)
  }

  /** v makes the assumptions true and false as it should. */
  ghost predicate Obeys(v: Term -> bool, trues: Terms, falses: Terms) {
    (forall t :: Member(t, trues) ==> Given(v, t)) && (forall t :: Member(t, falses) ==> !Given(v, t))
  }

  /** The assumptions are the path but for t and f, and none is both true and false. */
  ghost predicate Decided(path: set<Term>, trues: Terms, falses: Terms) {
    && (forall t :: Member(t, trues) || Member(t, falses) ==> t in path && t != TRUE_TERM && t != FALSE_TERM)
    && (forall t :: t in path ==> KnownTrue(t, trues) || KnownFalse(t, falses))
    && (forall t :: !(Member(t, trues) && Member(t, falses)))
  }

  /** Deciding a condition that is not known either way. */
  lemma DecideMore(path: set<Term>, trues: Terms, falses: Terms, c: Term)
    requires Decided(path, trues, falses) && !KnownTrue(c, trues) && !KnownFalse(c, falses)
    ensures Decided(path + {c}, Cons(c, trues), falses) && Decided(path + {c}, trues, Cons(c, falses))
    ensures forall v :: Obeys(v, Cons(c, trues), falses) <==> Obeys(v, trues, falses) && Given(v, c)
    ensures forall v :: Obeys(v, trues, Cons(c, falses)) <==> Obeys(v, trues, falses) && !Given(v, c)
  {
    forall t
      ensures Member(t, Cons(c, trues)) <==> t == c || Member(t, trues)
      ensures Member(t, Cons(c, falses)) <==> t == c || Member(t, falses)
    {}
    forall v ensures Obeys(v, Cons(c, trues), falses) <==> Obeys(v, trues, falses) && Given(v, c) {
      assert Member(c, Cons(c, trues)) && forall t :: Member(t, trues) ==> Member(t, Cons(c, trues));
    }
    forall v ensures Obeys(v, trues, Cons(c, falses)) <==> Obeys(v, trues, falses) && !Given(v, c) {
      assert Member(c, Cons(c, falses)) && forall t :: Member(t, falses) ==> Member(t, Cons(c, falses));
    }
  }

  /** Passing a condition that is already known. */
  lemma DecideKnown(path: set<Term>, trues: Terms, falses: Terms, c: Term)
    requires Decided(path, trues, falses) && (KnownTrue(c, trues) || KnownFalse(c, falses))
    ensures Decided(path + {c}, trues, falses) && (KnownTrue(c, trues) ==> !KnownFalse(c, falses))
    ensures forall v :: Obeys(v, trues, falses) ==> (Given(v, c) <==> KnownTrue(c, trues))
  {
    assert TRUE_TERM != FALSE_TERM;
  }

  lemma {:induction false} TautologyTrue(v: Term -> bool, x: Term, trues: Terms, falses: Terms, path: set<Term>)
    requires Obeys(v, trues, falses) && Decided(path, trues, falses) && Tautology(x, trues, falses) == Value(true)
    ensures PathTruth(v, x, path)
    decreases x
  {
    if !KnownTrue(x, trues) {
      var c := x.args.head;
      if KnownTrue(c, trues) {
        DecideKnown(path, trues, falses, c);
        TautologyTrue(v, x.args.tail.head, trues, falses, path + {c});
      } else if KnownFalse(c, falses) {
        DecideKnown(path, trues, falses, c);
        TautologyTrue(v, x.args.tail.tail.head, trues, falses, path + {c});
      } else {
        DecideMore(path, trues, falses, c);
        if Given(v, c) {
          TautologyTrue(v, x.args.tail.head, Cons(c, trues), falses, path + {c});
        } else {
          TautologyTrue(v, x.args.tail.tail.head, trues, Cons(c, falses), path + {c});
        }
      }
    }
  }

  /** A term that is not found tautologous is false on its path under some valuation. */
  lemma {:induction false} TautologyFalse(x: Term, trues: Terms, falses: Terms, path: set<Term>)
    returns (v: Term -> bool)
    requires Decided(path, trues, falses) && Tautology(x, trues, falses) != Value(true)
    ensures Obeys(v, trues, falses) && !PathTruth(v, x, path)
    decreases x
  {
    v := (t: Term) => Member(t, trues);
    if !KnownFalse(x, falses) && x.App? && x.fn == "if" && x.args.Cons? && x.args.tail.Cons? {
      var c, rest := x.args.head, x.args.tail;
      if KnownTrue(c, trues) {
        DecideKnown(path, trues, falses, c);
        v := TautologyFalse(rest.head, trues, falses, path + {c});
      } else if KnownFalse(c, falses) {
        DecideKnown(path, trues, falses, c);
        if rest.tail.Cons? { v := TautologyFalse(rest.tail.head, trues, falses, path + {c}); }
      } else {
        DecideMore(path, trues, falses, c);
        if Tautology(rest.head, Cons(c, trues), falses) != Value(true) {
          v := TautologyFalse(rest.head, Cons(c, trues), falses, path + {c});
        } else if rest.tail.Cons? {
          v := TautologyFalse(rest.tail.head, trues, Cons(c, falses), path + {c});
        }
      }
    }
  }

  /**
   Exactly what the check accepts, for every term: those that are true under all valuations that
   take each condition as a proposition of its own, whatever it is made of.
   */
  lemma TautologyExact(x: Term)
    ensures Tautology(x, Nil, Nil) == Value(true) <==> forall v :: PathTruth(v, x, {})
  {
    if Tautology(x, Nil, Nil) == Value(true) {
      forall v ensures PathTruth(v, x, {}) { TautologyTrue(v, x, Nil, Nil, {}); }
    } else {
      var v := TautologyFalse(x, Nil, Nil, {});
    }
  }

  /** Without an IF in a condition that is ordinary truth. */
  lemma {:induction false} PathIsTruth(v: Term -> bool, x: Term, path: set<Term>)
    requires IfNormal(x) && forall t :: t in path ==> !(t.App? && t.fn == "if")
    ensures PathTruth(v, x, path) == Truth(v, x)
    decreases x
  {
    if IsIf(x) {
      var c := x.args.head;
      PathIsTruth(v, x.args.tail.head, path + {c});
      PathIsTruth(v, x.args.tail.tail.head, path + {c});
    }
  }

  /** On such terms the check accepts the propositional tautologies and nothing else. */
  lemma TautologyDecides(x: Term)
    requires IfNormal(x)
    ensures Tautology(x, Nil, Nil) == Value(true) <==> forall v :: Truth(v, x)
  {
    TautologyExact(x);
    if Tautology(x, Nil, Nil) == Value(true) {
      forall v ensures Truth(v, x) { PathIsTruth(v, x, {}); }
    } else {
      var v := TautologyFalse(x, Nil, Nil, {});
      PathIsTruth(v, x, {});
    }
  }

  /** With an IF in a condition the check can miss a tautology: (if (if p t t) t f). */
  lemma NestedConditionMissed(p: Term)
    ensures
      var c := App("if", Cons(p, Cons(TRUE_TERM, Cons(TRUE_TERM, Nil))));
      var x := App("if", Cons(c, Cons(TRUE_TERM, Cons(FALSE_TERM, Nil))));
      Tautology(x, Nil, Nil) == Value(false) && forall v :: Truth(v, x)
  {
    var c := App("if", Cons(p, Cons(TRUE_TERM, Cons(TRUE_TERM, Nil))));
    var x := App("if", Cons(c, Cons(TRUE_TERM, Cons(FALSE_TERM, Nil))));
    assert Tautology(FALSE_TERM, Nil, Cons(c, Nil)) == Value(false);
    forall v ensures Truth(v, x) { assert Truth(v, c); }
  }

  /** Yet not every such tautology is missed: (if (if p t t) t t). */
  lemma NestedConditionFound(p: Term)
    ensures
      var c := App("if", Cons(p, Cons(TRUE_TERM, Cons(TRUE_TERM, Nil))));
      var x := App("if", Cons(c, Cons(TRUE_TERM, Cons(TRUE_TERM, Nil))));
      !IfNormal(x) && Tautology(x, Nil, Nil) == Value(true) && forall v :: Truth(v, x)
  {
    var c := App("if", Cons(p, Cons(TRUE_TERM, Cons(TRUE_TERM, Nil))));
    var x := App("if", Cons(c, Cons(TRUE_TERM, Cons(TRUE_TERM, Nil))));
    assert Tautology(TRUE_TERM, Cons(c, Nil), Nil) == Value(true);
    forall v ensures Truth(v, x) { assert Truth(v, c); }
  }

  /** The whole check on a term: rewrite it, then look for a tautology. */
  function Prove(rules: Rules, fuel: nat, t: Term): Outcome<bool>
    requires WellFormed(rules)
  {
    match Rewrite(rules, fuel, t)
    case OutOfFuel => OutOfFuel
    case Crash => Crash
    case Value(u) => Tautology(u, Nil, Nil)
  }

  /** Soundness: a proved term is non-false in every model of the equations with a standard `if`. */
  lemma ProverSound<D(!new)>(i: Interp<D>, env: Env<D>, rules: Rules, fuel: nat, t: Term)
    requires WellFormed(rules) && Satisfies(i, rules) && StandardIf(i)
    requires Prove(rules, fuel, t) == Value(true)
    ensures Eval(i, env, t) != i.fn("f", [])
  {
    RewriteMeaning(i, env, rules, fuel, t);
    TautologySound(i, env, Rewrite(rules, fuel, t).value, Nil, Nil);
  }

  // ----- the equations of setup -----

  /** Equations are stored by head symbol, the latest first; anything else is an error. */
  function AddLemma(rules: Rules, t: Term): Option<Rules> {
    if IsEquation(t) then Some(rules[t.args.head.fn := [t] + RulesFor(rules, t.args.head.fn)]) else None
  }

  /** The equations of a list that start with f, the latest first. */
  ghost function LatestFirst(lemmas: seq<Term>, f: Symbol): seq<Term> {
    if lemmas == [] then []
    else
      var n := |lemmas| - 1;
      var rest := LatestFirst(lemmas[..n], f);
      if IsEquation(lemmas[n]) && lemmas[n].args.head.fn == f then [lemmas[n]] + rest else rest
  }

  method Setup(lemmas: seq<Term>) returns (rules: Option<Rules>)
    ensures rules.Some? <==> forall k :: 0 <= k < |lemmas| ==> IsEquation(lemmas[k])
    ensures rules.Some? ==> WellFormed(rules.value)
    ensures rules.Some? ==> forall f :: RulesFor(rules.value, f) == LatestFirst(lemmas, f)
  {
    var r: Rules := map[];
    var k := 0;
    while k < |lemmas|
      invariant 0 <= k <= |lemmas| && forall q :: 0 <= q < k ==> IsEquation(lemmas[q])
      invariant WellFormed(r)
      invariant forall f :: RulesFor(r, f) == LatestFirst(lemmas[..k], f)
    {
      var next := AddLemma(r, lemmas[k]);
      if next.None? { return None; }
      assert lemmas[..k + 1][..k] == lemmas[..k];
      r, k := next.value, k + 1;
    }
    assert lemmas[..k] == lemmas;
    rules := Some(r);
  }

  lemma {:induction false} LatestFirstKeeps(lemmas: seq<Term>, f: Symbol, k: nat)
    requires k < |LatestFirst(lemmas, f)|
    ensures LatestFirst(lemmas, f)[k] in lemmas
  {
    var n := |lemmas| - 1;
    if IsEquation(lemmas[n]) && lemmas[n].args.head.fn == f {
      if k > 0 { LatestFirstKeeps(lemmas[..n], f, k - 1); }
    } else {
      LatestFirstKeeps(lemmas[..n], f, k);
    }
  }

  /** A model of all lemmas handed to Setup satisfies the stored equations. */
  lemma SetupSatisfied<D(!new)>(i: Interp<D>, lemmas: seq<Term>, rules: Rules)
    requires forall t :: t in lemmas ==> Holds(i, t)
    requires forall f :: RulesFor(rules, f) == LatestFirst(lemmas, f)
    ensures Satisfies(i, rules)
  {
    forall f, k | f in rules && 0 <= k < |rules[f]| ensures Holds(i, rules[f][k]) {
      assert rules[f] == RulesFor(rules, f);
      LatestFirstKeeps(lemmas, f, k);
    }
  }

  // ----- the procedures -----

  /** Structural equality, by walking both argument lists. */
  method IsTermEqual(x: Term, y: Term) returns (r: bool)
    ensures r <==> x == y
    decreases x
  {
    if x.App? {
      if y.App? {
        if x.fn == y.fn {
          var lst1, lst2 := x.args, y.args;
          while true
            invariant x.args == y.args <==> lst1 == lst2
            invariant lst1 == x.args || (x.args decreases to lst1)
            decreases lst1
          {
            if lst1.Nil? { return lst2.Nil?; }
            if lst2.Nil? { return false; }
            var eq := IsTermEqual(lst1.head, lst2.head);
            if !eq { return false; }
            lst1, lst2 := lst1.tail, lst2.tail;
          }
        }
      }
      return false;
    }
    return x == y;
  }

  method IsTermMember(x: Term, ts: Terms) returns (r: bool)
    ensures r <==> Member(x, ts)
  {
    var lst := ts;
    while true
      invariant Member(x, ts) <==> Member(x, lst)
      decreases lst
    {
      if lst.Nil? { return false; }
      var eq := IsTermEqual(x, lst.head);
      if eq { return true; }
      lst := lst.tail;
    }
  }

  method CheckTautology(x0: Term, trues: Terms, falses0: Terms) returns (r: Outcome<bool>)
    ensures r == Tautology(x0, trues, falses0)
    decreases x0
  {
    var x, falses := x0, falses0;
    while true
      invariant Tautology(x, trues, falses) == Tautology(x0, trues, falses0)
      invariant x == x0 || (x0 decreases to x)
      decreases x
    {
      var isTrue := IsTermEqual(x, TRUE_TERM);
      if !isTrue { isTrue := IsTermMember(x, trues); }
      if isTrue { return Value(true); }
      var isFalse := IsTermEqual(x, FALSE_TERM);
      if !isFalse { isFalse := IsTermMember(x, falses); }
      if isFalse { return Value(false); }
      if x.Leaf? || x.fn != "if" { return Value(false); }
      if x.args.Nil? { return Crash; }
      var c := x.args.head;
      isTrue := IsTermEqual(c, TRUE_TERM);
      if !isTrue { isTrue := IsTermMember(c, trues); }
      if isTrue {
        if x.args.tail.Nil? { return Crash; }
        x := x.args.tail.head;
      } else {
        isFalse := IsTermEqual(c, FALSE_TERM);
        if !isFalse { isFalse := IsTermMember(c, falses); }
        if isFalse {
          if x.args.tail.Nil? || x.args.tail.tail.Nil? { return Crash; }
          x := x.args.tail.tail.head;
        } else {
          if x.args.tail.Nil? { return Crash; }
          var t := CheckTautology(x.args.tail.head, Cons(c, trues), falses);
          if t != Value(true) { return t; }
          if x.args.tail.tail.Nil? { return Crash; }
          x, falses := x.args.tail.tail.head, Cons(c, falses);
        }
      }
    }
  }

  /** The prover's globals: the equations, the bindings of the last match and a counter. */
  class Session {
    const rules: Rules
    var unifySubst: Alist
    var rewriteCount: nat

    constructor (rules: Rules)
      ensures this.rules == rules && unifySubst == Empty && rewriteCount == 0
    {
      this.rules := rules;
      unifySubst := Empty;
      rewriteCount := 0;
    }

    /** Matches and leaves the bindings in unifySubst, also those of a failed attempt. */
    method OneWayUnify(term1: Term, term2: Term) returns (ok: bool)
      modifies this`unifySubst
      ensures Match(ok, unifySubst) == Unify(old(unifySubst), term1, term2)
      decreases term2
    {
      if term2.Leaf? {
        var found := Lookup(unifySubst, term2.atom);
        if found.Some? {
          ok := IsTermEqual(term1, found.value);
        } else if term2.atom.Number? {
          ok := term1 == term2;
        } else {
          unifySubst := Bind(term2.atom, term1, unifySubst);
          ok := true;
        }
        return;
      }
      if term1.Leaf? || term1.fn != term2.fn { return false; }
      var lst1, lst2 := term1.args, term2.args;
      while true
        invariant UnifyLists(unifySubst, lst1, lst2) == UnifyLists(old(unifySubst), term1.args, term2.args)
        invariant lst2 == term2.args || (term2.args decreases to lst2)
        decreases lst2
      {
        if lst1.Nil? { return lst2.Nil?; }
        if lst2.Nil? { return false; }
        ok := OneWayUnify(lst1.head, lst2.head);
        if !ok { return; }
        lst1, lst2 := lst1.tail, lst2.tail;
      }
    }

    method RewriteTerm(fuel: nat, term: Term) returns (r: Outcome<Term>)
      requires WellFormed(rules)
      modifies this`unifySubst, this`rewriteCount
      ensures r == Rewrite(rules, fuel, term)
      ensures r.Value? ==> rewriteCount == old(rewriteCount) + Calls(rules, fuel, term)
      decreases fuel, term
    {
      if fuel == 0 { return OutOfFuel; }
      rewriteCount := rewriteCount + 1;
      if term.Leaf? { return Value(term); }
      var args := RewriteTerms(fuel - 1, term.args);
      if args.OutOfFuel? { return OutOfFuel; }
      if args.Crash? { return Crash; }
      var u := App(term.fn, args.value);
      var eqs := RulesFor(rules, term.fn);
      var k := 0;
      while k < |eqs|
        invariant 0 <= k <= |eqs| && FirstMatch(eqs, u, 0) == FirstMatch(eqs, u, k)
        invariant rewriteCount == old(rewriteCount) + 1 + CallsAll(rules, fuel - 1, term.args)
      {
        assert IsEquation(eqs[k]);
        unifySubst := Empty;
        var ok := OneWayUnify(u, eqs[k].args.head);
        if ok {
          if Rhs(eqs[k]).None? { return Crash; }
          r := RewriteTerm(fuel - 1, ApplySubst(unifySubst, Rhs(eqs[k]).value));
          return;
        }
        k := k + 1;
      }
      r := Value(u);
    }

    method RewriteTerms(fuel: nat, ts: Terms) returns (r: Outcome<Terms>)
      requires WellFormed(rules)
      modifies this`unifySubst, this`rewriteCount
      ensures r == RewriteArgs(rules, fuel, ts)
      ensures r.Value? ==> rewriteCount == old(rewriteCount) + CallsAll(rules, fuel, ts)
      decreases fuel, ts
    {
      if ts.Nil? { return Value(Nil); }
      var t := RewriteTerm(fuel, ts.head);
      if t.OutOfFuel? { return OutOfFuel; }
      if t.Crash? { return Crash; }
      var rest := RewriteTerms(fuel, ts.tail);
      if rest.OutOfFuel? { return OutOfFuel; }
      if rest.Crash? { return Crash; }
      r := Value(Cons(t.value, rest.value));
    }

    /** The test driver: instantiate the goal, rewrite it, check it. */
    method Test(fuel: nat, alist: Alist, term: Term) returns (answer: Outcome<bool>)
      requires WellFormed(rules)
      modifies this`unifySubst, this`rewriteCount
      ensures answer == Prove(rules, fuel, ApplySubst(alist, term))
      ensures
        var t := ApplySubst(alist, term);
        Rewrite(rules, fuel, t).Value? ==> rewriteCount == Calls(rules, fuel, t)
    {
      rewriteCount := 0;
      var u := RewriteTerm(fuel, ApplySubst(alist, term));
      if u.OutOfFuel? { return OutOfFuel; }
      if u.Crash? { return Crash; }
      answer := CheckTautology(u.value, Nil, Nil);
    }
  }
}
