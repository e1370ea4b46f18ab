/**
 The matcher that the generator prints (Source/JavaScriptCore/KeywordLookupGenerator.py, 142-302)
 and what it answers when it is executed. The printed nest of comparisons is kept as a tree; the
 comparison macros are modelled on little-endian words and unit by unit.
 */
module KeywordMatcher {
  import Arithmetic
  import opened KeywordTrie
  import opened Options

  /** If no part of an identifier follows name: shift past it, set the identifier to it, answer token. */
  datatype Exit = Exit(name: Word, token: Token)

  /** An optional exit, then if / else if over the arms. */
  datatype Code = Code(exit: Option<Exit>, arms: seq<Arm>)

  datatype Arm = Arm(base: nat, chars: Word, body: Code)

  // ----- the comparison macros -----

  /** How a machine compares: unit by unit, two units in a word, or two and four. */
  datatype Machine = Aligned | PairWords | QuadWords

  /** CHARPAIR_TOUINT16 with size 256 and UCHARPAIR_TOUINT32 with size 65536, little-endian. */
  function Pair(a: Unit, b: Unit, size: nat): nat { b * size + a }

  function Quad(a: Unit, b: Unit, c: Unit, d: Unit,
                size: nat): nat { Pair(c, d, size) * (size * size) + Pair(a, b, size) }

  /** The word a little-endian machine reads at an address. */
  function LoadPair(text: Word, at: nat, size: nat): nat
    requires at + 2 <= |text|
  {
    text[at] + text[at + 1] * size
  }

  function LoadQuad(text: Word, at: nat, size: nat): nat
    requires at + 4 <= |text|
  {
    LoadPair(text, at, size) + LoadPair(text, at + 2, size) * (size * size)
  }

  predicate Compare2(text: Word, at: nat, a: Unit, b: Unit, size: nat, m: Machine)
    requires at + 2 <= |text|
  {
    if m.Aligned? then text[at] == a && text[at + 1] == b else LoadPair(text, at, size) == Pair(a, b, size)
  }

  predicate Compare4(text: Word, at: nat, a: Unit, b: Unit, c: Unit, d: Unit, size: nat, m: Machine)
    requires at + 4 <= |text|
  {
    if m.QuadWords? then LoadQuad(text, at, size) == Quad(a, b, c, d, size)
    else Compare2(text, at, a, b, size, m) && Compare2(text, at + 2, c, d, size, m)
  }

  /** code[at] == 'c' or COMPARE_n, for the n from 2 to 8 that exist; seven are compared as two overlapping fours. */
  predicate Compare(text: Word, at: nat, k: Word, size: nat, m: Machine)
    requires 1 <= |k| <= 8 && at + |k| <= |text|
  {
    if |k| == 1 then text[at] == k[0]
    else if |k| == 2 then Compare2(text, at, k[0], k[1], size, m)
    else if |k| == 3 then Compare2(text, at, k[0], k[1], size, m) && text[at + 2] == k[2]
    else
      Compare4(text, at, k[0], k[1], k[2], k[3], size, m) &&
      (|k| == 5 ==> text[at + 4] == k[4]) &&
      (|k| == 6 ==> Compare2(text, at + 4, k[4], k[5], size, m)) &&
      (|k| == 7 ==> Compare4(text, at + 3, k[3], k[4], k[5], k[6], size, m)) &&
      (|k| == 8 ==> Compare4(text, at + 4, k[4], k[5], k[6], k[7], size, m))
  }

  lemma PairFits(a: nat, b: nat, size: nat)
    requires a < size && b < size
    ensures a + b * size < size * size
  {
    assert b * size <= (size - 1) * size;
  }

  lemma Compare2Exact(text: Word, at: nat, a: Unit, b: Unit, size: nat, m: Machine)
    requires at + 2 <= |text| && text[at] < size && a < size
    ensures Compare2(text, at, a, b, size, m) <==> text[at] == a && text[at + 1] == b
  {
    if LoadPair(text, at, size) == Pair(a, b, size) {
      Arithmetic.QuotientUnique(size, text[at], a, text[at + 1], b);
    }
  }

  lemma Compare4Exact(text: Word, at: nat, a: Unit, b: Unit, c: Unit, d: Unit, size: nat, m: Machine)
    requires at + 4 <= |text| && Units(text, size) && a < size && b < size && c < size && d < size
    ensures Compare4(text, at, a, b, c, d, size, m) <==>
              text[at] == a && text[at + 1] == b && text[at + 2] == c && text[at + 3] == d
  {
    Compare2Exact(text, at, a, b, size, m);
    Compare2Exact(text, at + 2, c, d, size, m);
    Compare2Exact(text, at, a, b, size, PairWords);
    Compare2Exact(text, at + 2, c, d, size, PairWords);
    if LoadQuad(text, at, size) == Quad(a, b, c, d, size) {
      PairFits(text[at], text[at + 1], size);
      PairFits(a, b, size);
      Arithmetic.QuotientUnique(size * size, LoadPair(text, at, size), Pair(a, b, size),
          LoadPair(text, at + 2, size), Pair(c, d, size));
    }
  }

  /** Every macro compares exactly its characters. */
  lemma CompareExact(text: Word, at: nat, k: Word, size: nat, m: Machine)
    requires 1 <= |k| <= 8 && at + |k| <= |text| && Units(text, size) && Units(k, size)
    ensures Compare(text, at, k, size, m) <==> text[at..at + |k|] == k
  {
    hide Compare2, Compare4;
    if |k| >= 2 { Compare2Exact(text, at, k[0], k[1], size, m); }
    if |k| >= 4 { Compare4Exact(text, at, k[0], k[1], k[2], k[3], size, m); }
    if |k| == 6 { Compare2Exact(text, at + 4, k[4], k[5], size, m); }
    if |k| == 7 { Compare4Exact(text, at + 3, k[3], k[4], k[5], k[6], size, m); }
    if |k| == 8 { Compare4Exact(text, at + 4, k[4], k[5], k[6], k[7], size, m); }
    assert text[at..at + |k|] == k <==> forall i :: 0 <= i < |k| ==> text[at + i] == k[i];
  }

  // ----- printing -----

  /** The comparison printed for the edge to c: three units are widened by one already compared. */
  function EdgeBase(t: Trie, c: Trie): nat {
    if |t.full| > 0 && |c.prefix| == 3 then |t.full| - 1 else |t.full|
  }

  function EdgeChars(t: Trie, c: Trie): Word
    requires c.full == t.full + c.prefix
  {
    if |t.full| > 0 && |c.prefix| == 3 then [c.full[|t.full| - 1]] + c.prefix else c.prefix
  }

  function Print(t: Trie): Code
    requires Full(t)
    decreases t
  {
    Code(if t.value.Some? then Some(Exit(t.full, t.value.value)) else None,
         seq(|t.keys|, i requires 0 <= i < |t.keys| =>
               Arm(EdgeBase(t, t.keys[i]), EdgeChars(t, t.keys[i]), Print(t.keys[i]))))
  }

  function MaxLength(t: Trie): (n: nat)
    ensures n >= |t.full| && forall i :: 0 <= i < |t.keys| ==> n >= MaxLength(t.keys[i])
    decreases t, 1
  {
    MaxOver(t, |t.keys|)
  }

  /** The maximum over the first n children. */
  function MaxOver(t: Trie, n: nat): (r: nat)
    requires n <= |t.keys|
    ensures r >= |t.full| && forall i :: 0 <= i < n ==> r >= MaxLength(t.keys[i])
    decreases t, 0, n
  {
    if n == 0 then |t.full|
    else
      var max, l := MaxOver(t, n - 1), MaxLength(t.keys[n - 1]);
      if l > max then l else max
  }

  // ----- executing -----

  /** Every comparison is a macro that exists, and nothing beyond index limit is looked at. */
  ghost predicate Bounded(code: Code, limit: nat)
    decreases code
  {
    && (code.exit.Some? ==> |code.exit.value.name| <= limit)
    && forall i :: 0 <= i < |code.arms| ==>
         1 <= |code.arms[i].chars| <= 8 && code.arms[i].base + |code.arms[i].chars| <= limit
             && Bounded(code.arms[i].body, limit)
  }

  /** The first arm whose comparison holds. */
  ghost function FirstArm(arms: seq<Arm>, text: Word, size: nat, m: Machine): (n: nat)
    requires forall i :: 0 <= i < |arms| ==> 1 <= |arms[i].chars| <= 8 && arms[i].base + |arms[i].chars| <= |text|
    ensures n <= |arms| && forall i :: 0 <= i < n ==> !Compare(text, arms[i].base, arms[i].chars, size, m)
    ensures n < |arms| ==> Compare(text, arms[n].base, arms[n].chars, size, m)
  {
    if arms == [] then 0
    else if Compare(text, arms[0].base, arms[0].chars, size, m) then 0
    else
      var n := FirstArm(arms[1..], text, size, m);
      assert n < |arms[1..]| ==> arms[1..][n] == arms[n + 1];
      n + 1
  }

  /** identAt says at which offsets isIdentPartIncludingEscape holds; None is IDENT. */
  ghost function Execute(code: Code, text: Word, identAt: nat -> bool, size: nat, m: Machine): Option<Exit>
    requires Bounded(code, |text|)
    decreases code
  {
    if code.exit.Some? && !identAt(|code.exit.value.name|) then code.exit
    else
      var n := FirstArm(code.arms, text, size, m);
      if n < |code.arms| then Execute(code.arms[n].body, text, identAt, size, m) else None
  }

  // ----- what the matcher answers -----

  /** Every edge is short enough for a macro. */
  ghost predicate EdgesFit(t: Trie)
    decreases t
  {
    forall i :: 0 <= i < |t.keys| ==> 1 <= |t.keys[i].prefix| <= 8 && EdgesFit(t.keys[i])
  }

  /** Reading stays within the longest keyword; macros exist exactly for edges of at most eight units. */
  lemma {:induction false} PrintBounded(t: Trie, limit: nat)
    requires Full(t) && MaxLength(t) <= limit
    ensures Bounded(Print(t), limit) <==> EdgesFit(t)
    decreases t
  {
    hide MaxLength;
    var code := Print(t);
    forall i | 0 <= i < |t.keys|
      ensures
        && (Bounded(code.arms[i].body, limit) <==> EdgesFit(t.keys[i]))
        && (1 <= |code.arms[i].chars| <= 8 <==> 1 <= |t.keys[i].prefix| <= 8)
        && code.arms[i].base + |code.arms[i].chars| <= limit
    {
      PrintBounded(t.keys[i], limit);
      assert code.arms[i] == Arm(EdgeBase(t, t.keys[i]), EdgeChars(t, t.keys[i]), Print(t.keys[i]));
    }
  }

  /** Along its path an edge compares exactly its own units, widened or not. */
  lemma EdgeExact(t: Trie, c: Trie, text: Word, size: nat, m: Machine)
    requires c.full == t.full + c.prefix && t.full <= text && |c.full| <= |text| && 1 <= |c.prefix| <= 8
    requires Units(text, size) && Units(c.full, size)
    ensures EdgeBase(t, c) + |EdgeChars(t, c)| == |c.full| && 1 <= |EdgeChars(t, c)| <= 8
    ensures Compare(text, EdgeBase(t, c), EdgeChars(t, c), size, m) <==> c.full <= text
  {
    hide Compare;
    var base, k := EdgeBase(t, c), EdgeChars(t, c);
    assert k == c.full[base..];
    CompareExact(text, base, k, size, m);
    assert c.full == c.full[..base] + c.full[base..];
    assert c.full[..base] == text[..base];
    assert text[..|c.full|] == text[..base] + text[base..|c.full|];
  }

  /** k is at the start of the text and the identifier ends with it. */
  predicate Matches(k: Word, text: Word, identAt: nat -> bool) { k <= text && !identAt(|k|) }

  /** The situation in which the code of t is reached. */
  ghost predicate Reached(t: Trie, text: Word, size: nat) {
    && Full(t) && Branching(t) && Narrow(t, size) && Units(t.full, size) && Units(text, size)
    && t.full <= text && Bounded(Print(t), |text|)
  }

  lemma ReachedBelow(t: Trie, text: Word, size: nat, i: nat, m: Machine)
    requires Reached(t, text, size) && i < |t.keys|
    ensures
      var arm := Print(t).arms[i];
      && 1 <= |arm.chars| <= 8 && arm.base + |arm.chars| <= |text|
      && (Compare(text, arm.base, arm.chars, size, m) <==> t.keys[i].full <= text)
      && (t.keys[i].full <= text ==> Reached(t.keys[i], text, size))
  {
    hide Compare;
    var c := t.keys[i];
    assert Print(t).arms[i] == Arm(EdgeBase(t, c), EdgeChars(t, c), Print(c));
    assert Narrow(c, size);
    EdgeExact(t, c, text, size, m);
  }

  /** Whatever the matcher answers is a keyword that matches. */
  lemma {:induction false} MatcherSound(t: Trie, text: Word, identAt: nat -> bool, size: nat, m: Machine)
    requires Reached(t, text, size)
    ensures
      var r := Execute(Print(t), text, identAt, size, m);
      r.Some? ==>
        && Matches(r.value.name, text, identAt) && t.full <= r.value.name
        && Has(t, r.value.name[|t.full|..], r.value.token)
    decreases t
  {
    hide Compare, Reached;
    ReachedFacts(t, text, size);
    var code := Print(t);
    var n := FirstArm(code.arms, text, size, m);
    if !(code.exit.Some? && !identAt(|t.full|)) && n < |t.keys| {
      var c := t.keys[n];
      ReachedBelow(t, text, size, n, m);
      MatcherSound(c, text, identAt, size, m);
      var r := Execute(code, text, identAt, size, m);
      if r.Some? {
        StepDown(t, n, r.value.name, r.value.token);
      }
    }
  }

  lemma ReachedFacts(t: Trie, text: Word, size: nat)
    requires Reached(t, text, size)
    ensures Full(t) && Branching(t) && t.full <= text && Bounded(Print(t), |text|)
  {
  }

  lemma StepDown(t: Trie, n: nat, k: Word, v: Token)
    requires n < |t.keys| && t.keys[n].prefix != [] && t.keys[n].full == t.full + t.keys[n].prefix
    requires t.keys[n].full <= k && Has(t.keys[n], k[|t.keys[n].full|..], v)
    ensures t.full <= k && Has(t, k[|t.full|..], v)
  {
    var c, s := t.keys[n], k[|t.full|..];
    assert k[..|c.full|] == c.full;
    assert s[..|c.prefix|] == c.full[|t.full|..] == c.prefix;
    assert s[|c.prefix|..] == k[|c.full|..];
    assert Below(c, s, v);
  }

  /** Every keyword of identifier units that matches is answered. */
  lemma {:induction false} MatcherComplete(t: Trie, text: Word, identAt: nat -> bool, size: nat, m: Machine, s: Word,
                                           v: Token)
    requires Reached(t, text, size) && Has(t, s, v) && Matches(t.full + s, text, identAt)
    requires forall i :: |t.full| <= i < |t.full| + |s| ==> identAt(i)
    ensures Execute(Print(t), text, identAt, size, m) == Some(Exit(t.full + s, v))
    decreases t
  {
    hide Compare, Reached, FirstArm;
    ReachedFacts(t, text, size);
    if s == [] {
      NothingBelowEmpty(t, v);
      assert t.full + s == t.full;
    } else {
      var j :| 0 <= j < |t.keys| && Below(t.keys[j], s, v);
      var c := t.keys[j];
      var rest := s[|c.prefix|..];
      assert c.full + rest == t.full + s;
      assert c.full <= text;
      FirstIs(t, text, size, m, j);
      ReachedBelow(t, text, size, j, m);
      MatcherComplete(c, text, identAt, size, m, rest, v);
      assert Print(t).arms[j].body == Print(c);
    }
  }

  /** The edge along the text is the only one whose comparison holds. */
  lemma FirstIs(t: Trie, text: Word, size: nat, m: Machine, j: nat)
    requires Reached(t, text, size) && j < |t.keys| && t.keys[j].full <= text
    ensures Bounded(Print(t), |text|) && FirstArm(Print(t).arms, text, size, m) == j
  {
    hide Compare, Reached;
    ReachedFacts(t, text, size);
    var n := FirstArm(Print(t).arms, text, size, m);
    ReachedBelow(t, text, size, j, m);
    if n < |t.keys| {
      ReachedBelow(t, text, size, n, m);
      assert text[|t.full|] == t.keys[n].prefix[0] && text[|t.full|] == t.keys[j].prefix[0];
    }
  }

  // ----- the whole generator -----

  /** The trie that is printed; what coalesce answers at the root is not used. */
  function Compile(keywords: seq<(Word, Token)>, weights: map<Word, real>): (t: Trie)
    ensures Full(t) && Branching(t) && t.full == []
  {
    BuildShape(keywords);
    CoalesceShape(Build(keywords));
    FillShape(CoalesceKeys(Build(keywords)), [], weights);
    FillOut(CoalesceKeys(Build(keywords)), [], weights)
  }

  lemma CompileMeaning(keywords: seq<(Word, Token)>, weights: map<Word, real>, s: Word, v: Token)
    ensures Has(Compile(keywords, weights), s, v) <==> Assoc(keywords, s) == Some(v)
  {
    hide FillOut, CoalesceKeys, Build, Has;
    BuildShape(keywords);
    BuildMeaning(keywords, s, v);
    CoalesceMeaning(Build(keywords), s, v);
    FillMeaning(CoalesceKeys(Build(keywords)), [], weights, s, v);
  }

  lemma CompileReached(keywords: seq<(Word, Token)>, weights: map<Word, real>, text: Word, size: nat)
    requires (forall i :: 0 <= i < |keywords| ==> Units(keywords[i].0, size)) && Units(text, size)
    requires EdgesFit(Compile(keywords, weights)) && MaxLength(Compile(keywords, weights)) < |text|
    ensures Reached(Compile(keywords, weights), text, size)
  {
    hide MaxLength, EdgesFit, Print, Bounded, CoalesceKeys, Build;
    BuildNarrow(keywords, size);
    CoalesceNarrow(Build(keywords), size);
    FillNarrow(CoalesceKeys(Build(keywords)), [], weights, size);
    PrintBounded(Compile(keywords, weights), |text|);
  }

  /**
   The generated matcher, on any machine and for either unit size: given a text of at least
   maxTokenLength units, it answers the keyword that starts the text and is followed by no further
   part of an identifier, with its token, and IDENT when there is none. Weights play no part.
   */
  lemma MatcherCorrect(keywords: seq<(Word, Token)>, weights: map<Word, real>, text: Word, identAt: nat -> bool,
                       size: nat, m: Machine, k: Word, v: Token)
    requires (forall i :: 0 <= i < |keywords| ==> Units(keywords[i].0, size)) && Units(text, size)
    requires EdgesFit(Compile(keywords, weights)) && MaxLength(Compile(keywords, weights)) < |text|
    requires Assoc(keywords, k).Some? ==> forall i :: 0 <= i < |k| && k <= text ==> identAt(i)
    ensures Bounded(Print(Compile(keywords, weights)), |text|)
    ensures Execute(Print(Compile(keywords, weights)), text, identAt, size, m) == Some(Exit(k, v))
        <==> Assoc(keywords, k) == Some(v) && Matches(k, text, identAt)
  {
    hide Compile, Reached, Execute, Print, Has, MaxLength, EdgesFit;
    var t := Compile(keywords, weights);
    CompileReached(keywords, weights, text, size);
    ReachedFacts(t, text, size);
    CompileMeaning(keywords, weights, k, v);
    assert t.full + k == k && k[|t.full|..] == k;
    MatcherSound(t, text, identAt, size, m);
    if Assoc(keywords, k) == Some(v) && Matches(k, text, identAt) {
      MatcherComplete(t, text, identAt, size, m, k, v);
    }
  }

  /** IDENT is answered exactly when no keyword matches. */
  lemma IdentWhenNone(keywords: seq<(Word, Token)>, weights: map<Word, real>, text: Word, identAt: nat -> bool,
                      size: nat, m: Machine)
    requires (forall i :: 0 <= i < |keywords| ==> Units(keywords[i].0, size)) && Units(text, size)
    requires EdgesFit(Compile(keywords, weights)) && MaxLength(Compile(keywords, weights)) < |text|
    requires forall k, i :: Assoc(keywords, k).Some? && 0 <= i < |k| && k <= text ==> identAt(i)
    ensures Bounded(Print(Compile(keywords, weights)), |text|)
    ensures Execute(Print(Compile(keywords, weights)), text, identAt, size, m).None?
        <==> forall k: Word :: Assoc(keywords, k).Some? ==> !Matches(k, text, identAt)
  {
    hide Compile, Execute, Print, MaxLength, EdgesFit, Matches;
    var r := Execute(Print(Compile(keywords, weights)), text, identAt, size, m) by {
      CompileReached(keywords, weights, text, size);
      ReachedFacts(Compile(keywords, weights), text, size);
    }
    forall k: Word, v: Token
      ensures r == Some(Exit(k, v)) <==> Assoc(keywords, k) == Some(v) && Matches(k, text, identAt)
    {
      MatcherCorrect(keywords, weights, text, identAt, size, m, k, v);
    }
    if r.Some? {
      assert r == Some(Exit(r.value.name, r.value.token));
    } else {
      forall k: Word | Assoc(keywords, k).Some? ensures !Matches(k, text, identAt) {
        assert r != Some(Exit(k, Assoc(keywords, k).value));
      }
    }
  }
}
