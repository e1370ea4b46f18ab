/**
 Affix strings in the form of DecimalFormatPatternParser, where an apostrophe makes a character
 special (Source/icu/affixpatternparser.cpp, 38-51, 245-261, 310-351 and 504-558).
 */
module AffixStrings {
  import opened AffixPatterns

  const APOSTROPHE: Unit := 0x27
  const PERCENT: Unit := 0x25
  const PER_MILL: Unit := 0x2030
  const CURRENCY: Unit := 0xA4
  const MINUS: Unit := 0x2D
  const PLUS: Unit := 0x2B

  // ----- reading -----

  /** The length of the run of c that starts s, up to max. */
  function RunLength(s: Text, c: Unit, max: nat): (n: nat)
    ensures n <= max && n <= |s| && forall i :: 0 <= i < n ==> s[i] == c
    ensures n < max && n < |s| ==> s[n] != c
  {
    if max == 0 || s == [] || s[0] != c then 0 else 1 + RunLength(s[1..], c, max - 1)
  }

  /** nextToken: a unit by itself, or an apostrophe with the unit or currency signs it quotes. */
  function TokenSize(s: Text): (n: nat)
    requires s != []
    ensures 1 <= n <= |s| && n <= 4
  {
    if s[0] != APOSTROPHE || |s| == 1 then 1
    else if s[1] == CURRENCY then 1 + RunLength(s[1..], CURRENCY, 3)
    else 2
  }

  /** The token that a quoted unit stands for. */
  function Quoted(c: Unit, count: nat): Token {
    if c == PERCENT then Percent
    else if c == PER_MILL then PerMill
    else if c == MINUS then Negative
    else if c == PLUS then Positive
    else if c == CURRENCY then Currency(count)
    else Literal([c])
  }

  function FirstToken(s: Text): Token
    requires s != []
  {
    var n := TokenSize(s);
    if n == 1 then Literal([s[0]]) else Quoted(s[1], n - 1)
  }

  function Parse(m: Tokens, s: Text): Tokens
    decreases |s|
  {
    if s == [] then m else Parse(With(m, FirstToken(s)), s[TokenSize(s)..])
  }

  /** The units that an apostrophe makes special: %, per mill, -, + and one to three currency signs. */
  lemma SpecialUnits(c: Unit)
    ensures
      Parse([], [0x27, c])
      == if c == 0x25 then [Percent] else if c == 0x2030 then [PerMill] else if c == 0x2D then [Negative]
         else if c == 0x2B then [Positive] else if c == 0xA4 then [Currency(1)] else [Literal([c])]
    ensures Parse([], [0x27, 0xA4, 0xA4]) == [Currency(2)] && Parse([], [0x27, 0xA4, 0xA4, 0xA4]) == [Currency(3)]
  {
    SpecialRead([0x27, c]);
    SpecialRead([0x27, 0xA4, 0xA4]);
    SpecialRead([0x27, 0xA4, 0xA4, 0xA4]);
  }

  lemma SpecialRead(s: Text)
    requires s != [] && TokenSize(s) == |s|
    ensures Parse([], s) == With([], FirstToken(s))
  {
    assert s[|s|..] == [];
    assert Parse([], s) == Parse(With([], FirstToken(s)), []);
  }

  // ----- writing -----

  function Escape(text: Text): Text {
    if text == [] then []
    else (if text[0] == APOSTROPHE then [APOSTROPHE, APOSTROPHE] else [text[0]]) + Escape(text[1..])
  }

  function CurrencySigns(n: nat): (s: Text)
    ensures |s| == n && forall i :: 0 <= i < n ==> s[i] == CURRENCY
  {
    seq(n, _ => CURRENCY)
  }

  function Show(t: Token): Text {
    match t
    case Literal(text) => Escape(text)
    case Percent => [APOSTROPHE, PERCENT]
    case PerMill => [APOSTROPHE, PER_MILL]
    case Currency(count) => [APOSTROPHE] + CurrencySigns(count)
    case Negative => [APOSTROPHE, MINUS]
    case Positive => [APOSTROPHE, PLUS]
  }

  function ToString(m: Tokens): Text {
    if m == [] then [] else ToString(m[..|m| - 1]) + Show(m[|m| - 1])
  }

  lemma {:induction false} ToStringHead(m: Tokens)
    requires m != []
    ensures ToString(m) == Show(m[0]) + ToString(m[1..])
  {
    hide Show;
    var n := |m| - 1;
    var front, last := m[..n], Show(m[n]);
    if n == 0 {
      assert front == [] && m[1..] == [];
      assert [] + last == last + [];
    } else {
      ToStringHead(front);
      assert front[1..] == m[1..][..n - 1] && m[1..][n - 1] == m[n];
      assert (Show(m[0]) + ToString(front[1..])) + last == Show(m[0]) + (ToString(front[1..]) + last);
    }
  }

  // ----- which patterns come back -----

  /** A currency of one or two signs that is followed by one more of them. */
  predicate Absorbs(t: Token, next: Token) {
    t.Currency? && t.count < 3 && next.Literal? && next.text != [] && next.text[0] == CURRENCY
  }

  /** One to three currency signs, no empty literal, and no currency that would absorb a literal sign. */
  predicate Canonical(m: Tokens) {
    && (forall i :: 0 <= i < |m| ==> (m[i].Currency? ==> 1 <= m[i].count <= 3) && (m[i].Literal? ==> m[i].text != []))
    && (forall i :: 0 < i < |m| ==> !Absorbs(m[i - 1], m[i]))
  }

  /** The next unit is no sign that the last currency should have taken. */
  predicate Taken(m: Tokens, s: Text) {
    m != [] && m[|m| - 1].Currency? && m[|m| - 1].count < 3 ==> s == [] || s[0] != CURRENCY
  }

  lemma FirstCanonical(m: Tokens, s: Text)
    requires Canonical(m) && Taken(m, s) && s != []
    ensures Canonical(With(m, FirstToken(s))) && Taken(With(m, FirstToken(s)), s[TokenSize(s)..])
  {
    var t, m1 := FirstToken(s), With(m, FirstToken(s));
    if t.Literal? && m != [] && m[|m| - 1].Literal? {
      assert m1[|m1| - 1].text[0] == m[|m| - 1].text[0];
    }
  }

  /** Whatever is parsed is canonical. */
  lemma {:induction false} ParseCanonical(m: Tokens, s: Text)
    requires Canonical(m) && Merged(m) && Taken(m, s)
    ensures Canonical(Parse(m, s)) && Merged(Parse(m, s))
    decreases |s|
  {
    hide Canonical, Taken, FirstToken, With;
    if s != [] {
      WithMerged(m, FirstToken(s));
      FirstCanonical(m, s);
      ParseCanonical(With(m, FirstToken(s)), s[TokenSize(s)..]);
    }
  }

  // ----- reading what was written -----

  lemma QuotedApostrophe(n: nat)
    ensures Quoted(APOSTROPHE, n) == Literal([APOSTROPHE])
  {
  }

  /** A unit as a literal writes it is read as itself. */
  lemma FirstUnit(s: Text, c: Unit, tail: Text)
    requires s == (if c == APOSTROPHE then [APOSTROPHE, APOSTROPHE] else [c]) + tail
    ensures s != [] && FirstToken(s) == Literal([c]) && s[TokenSize(s)..] == tail
  {
    hide RunLength, Quoted;
    QuotedApostrophe(1);
  }

  lemma {:induction false} ParseEscaped(m: Tokens, text: Text, rest: Text)
    ensures Parse(m, Escape(text) + rest) == if text == [] then Parse(m, rest) else Parse(WithLiteral(m, text), rest)
    decreases |text|
  {
    var s := Escape(text) + rest;
    if text == [] {
      assert s == rest;
    } else {
      var head := if text[0] == APOSTROPHE then [APOSTROPHE, APOSTROPHE] else [text[0]];
      assert s == head + (Escape(text[1..]) + rest);
      FirstUnit(s, text[0], Escape(text[1..]) + rest);
      hide Escape, TokenSize, FirstToken, WithLiteral;
      var m1 := WithLiteral(m, [text[0]]);
      ParseEscaped(m1, text[1..], rest);
      assert [text[0]] + text[1..] == text;
      if text[1..] != [] {
        WithLiteralTwice(m, [text[0]], text[1..]);
      } else {
        assert text == [text[0]];
      }
    }
  }

  lemma WithLiteralTwice(m: Tokens, a: Text, b: Text)
    ensures WithLiteral(WithLiteral(m, a), b) == WithLiteral(m, a + b)
  {
    var m1 := WithLiteral(m, a);
    assert m1[..|m1| - 1] == Before(m);
    assert (Ending(m) + a) + b == Ending(m) + (a + b);
    assert m1[|m1| - 1].text == Ending(m) + a;
  }

  lemma ParseSymbol(m: Tokens, t: Token, rest: Text)
    requires !t.Literal? && (t.Currency? ==> 1 <= t.count <= 3 && (t.count < 3 ==> rest == [] || rest[0] != CURRENCY))
    ensures Parse(m, Show(t) + rest) == Parse(m + [t], rest)
  {
    var s := Show(t) + rest;
    if t.Currency? {
      assert s[1..] == CurrencySigns(t.count) + rest;
      SignsExact(t.count, rest);
    }
    assert TokenSize(s) == |Show(t)| && FirstToken(s) == t;
    assert s[|Show(t)|..] == rest;
  }

  lemma SignsExact(n: nat, rest: Text)
    requires 1 <= n <= 3 && (n < 3 ==> rest == [] || rest[0] != CURRENCY)
    ensures RunLength(CurrencySigns(n) + rest, CURRENCY, 3) == n
  {
    var s := CurrencySigns(n) + rest;
    assert forall i :: 0 <= i < n ==> s[i] == CURRENCY;
    assert rest != [] ==> s[n] == rest[0];
  }

  lemma ShowIsEscape(t: Token)
    requires t.Literal?
    ensures Show(t) == Escape(t.text)
  {
  }

  lemma FreshLiteral(m: Tokens, t: Token)
    requires t.Literal? && (m != [] ==> !m[|m| - 1].Literal?)
    ensures WithLiteral(m, t.text) == m + [t]
  {
  }

  /** What follows a currency starts with a sign only if it is absorbed. */
  lemma NextSign(t: Token, m: Tokens)
    requires t.Currency? && t.count < 3 && Canonical(m) && (m != [] ==> !Absorbs(t, m[0]))
    ensures ToString(m) == [] || ToString(m)[0] != CURRENCY
  {
    hide Show, ToString;
    if m != [] {
      ToStringHead(m);
      ShowStart(m[0]);
      assert ToString(m)[0] == Show(m[0])[0];
    } else {
      ParseNothing([]);
    }
  }

  /** What a token is written as starts with a currency sign only if it is a literal that does. */
  lemma ShowStart(t: Token)
    requires t.Literal? ==> t.text != []
    ensures Show(t) != [] && (Show(t)[0] == CURRENCY ==> t.Literal? && t.text[0] == CURRENCY)
  {
  }

  lemma ParseNothing(acc: Tokens)
    ensures ToString([]) == [] && Parse(acc, []) == acc
  {
  }

  /** Reading back what canonical tokens are written as. */
  lemma {:induction false} ParseShown(acc: Tokens, m: Tokens)
    requires Canonical(m) && Merged(acc + m)
    ensures Parse(acc, ToString(m)) == acc + m
    decreases |m|
  {
    hide Show, WithLiteral, Parse, ToString;
    if m == [] {
      assert acc + m == acc;
      ParseNothing(acc);
    } else {
      ToStringHead(m);
      var t, rest := m[0], m[1..];
      assert (acc + [t]) + rest == acc + m;
      assert |m| > 1 ==> !Absorbs(m[0], m[1]);
      if t.Literal? {
        ParseEscaped(acc, t.text, ToString(rest));
        ShowIsEscape(t);
        assert acc != [] ==> acc[|acc| - 1] == (acc + m)[|acc| - 1] && t == (acc + m)[|acc|];
        FreshLiteral(acc, t);
      } else {
        if t.Currency? && t.count < 3 {
          NextSign(t, rest);
        }
        ParseSymbol(acc, t, ToString(rest));
      }
      ParseShown(acc + [t], rest);
    }
  }

  /** The string form and back: the same pattern exactly when it is canonical. */
  lemma RoundTrip(m: Tokens)
    requires Merged(m)
    ensures Parse([], ToString(m)) == m <==> Canonical(m)
  {
    ParseCanonical([], ToString(m));
    if Canonical(m) {
      assert [] + m == m;
      ParseShown([], m);
    }
  }

  /** The documented inverse fails here: the sign of the literal is read as the currency's. */
  lemma SignAbsorbed()
    ensures Merged([Currency(1), Literal([CURRENCY])])
    ensures Parse([], ToString([Currency(1), Literal([CURRENCY])])) != [Currency(1), Literal([CURRENCY])]
  {
    var m := [Currency(1), Literal([CURRENCY])];
    assert Absorbs(m[0], m[1]);
    RoundTrip(m);
  }

  /** Every string's parse survives being written and read again. */
  lemma ReparseSame(s: Text)
    ensures Parse([], ToString(Parse([], s))) == Parse([], s)
  {
    ParseCanonical([], s);
    RoundTrip(Parse([], s));
  }

  // ----- the code -----

  method NextToken(buffer: Text, idx: nat, len: nat) returns (size: nat, token: Unit)
    requires idx < len == |buffer|
    ensures size == TokenSize(buffer[idx..]) && token == if size == 1 then buffer[idx] else buffer[idx + 1]
  {
    if buffer[idx] != APOSTROPHE || idx + 1 == len {
      return 1, buffer[idx];
    }
    token := buffer[idx + 1];
    if buffer[idx + 1] == CURRENCY {
      ghost var s := buffer[idx..][1..];
      var i := 2;
      while idx + i < len && i < 4 && buffer[idx + i] == buffer[idx + 1]
        invariant 2 <= i <= 4 && idx + i <= len
        invariant forall j :: 0 <= j < i - 1 ==> s[j] == CURRENCY
      {
        i := i + 1;
      }
      assert idx + i < len ==> s[i - 1] == buffer[idx + i];
      return i, token;
    }
    size := 2;
  }

  /** The token of a string that starts at i is added, and the parse goes on behind it. */
  lemma ParseStep(m: Tokens, s: Text, i: nat)
    requires i < |s|
    ensures
      var n := TokenSize(s[i..]);
      i + n <= |s| && Parse(m, s[i..]) == Parse(With(m, FirstToken(s[i..])), s[i + n..])
  {
    assert s[i..][TokenSize(s[i..])..] == s[i + TokenSize(s[i..])..];
  }

  /** Parses any string; a currency never has more than three signs, so there is no error. */
  method ParseAffixString(affixStr: Text, appendTo: AffixPattern) returns (error: bool)
    requires appendTo.Valid() && |appendTo.literals| + |affixStr| < 0x8000_0000
    modifies appendTo
    ensures !error && appendTo.Valid() && appendTo.model == Parse(old(appendTo.model), affixStr)
  {
    hide Parse, FirstToken, TokenSize, WithLiteral, Merged, Packed, Texts, AllFit, HasType;
    error := false;
    var len, i := |affixStr|, 0;
    ghost var goal := Parse(appendTo.model, affixStr);
    assert affixStr[0..] == affixStr;
    while i < len
      invariant i <= len && appendTo.Valid() && !error
      invariant |appendTo.literals| + (len - i) < 0x8000_0000
      invariant Parse(appendTo.model, affixStr[i..]) == goal
    {
      var tokenSize, token := NextToken(affixStr, i, len);
      if tokenSize == 1 {
        i, tokenSize, token := ParseRun(affixStr, i, appendTo);
        if i == len {
          break;
        }
      }
      ParseStep(appendTo.model, affixStr, i);
      SizeIsCount(affixStr[i..]);
      i := i + tokenSize;
      if token == PERCENT {
        appendTo.Add(Percent);
      } else if token == PER_MILL {
        appendTo.Add(PerMill);
      } else if token == MINUS {
        appendTo.Add(Negative);
      } else if token == PLUS {
        appendTo.Add(Positive);
      } else if token == CURRENCY {
        if tokenSize - 1 > 3 {
          return true;
        }
        appendTo.Add(Currency(tokenSize - 1));
      } else {
        assert [token][0..1] == [token];
        appendTo.AddLiteral([token], 0, 1);
      }
    }
    assert affixStr[len..] == [];
    ParseEmpty(appendTo.model);
  }

  lemma ParseEmpty(m: Tokens)
    ensures Parse(m, []) == m
  {
  }

  lemma SizeIsCount(s: Text)
    requires s != []
    ensures TokenSize(s) <= 4 && (TokenSize(s) > 1 ==> |s| > 1 && FirstToken(s) == Quoted(s[1], TokenSize(s) - 1))
    ensures TokenSize(s) == 1 ==> FirstToken(s) == Literal([s[0]])
  {
  }

  /** The units from literalStart that stand for themselves go into one literal. */
  method ParseRun(s: Text, literalStart: nat, appendTo: AffixPattern) returns (i: nat, tokenSize: nat, token: Unit)
    requires literalStart < |s| && TokenSize(s[literalStart..]) == 1
    requires appendTo.Valid() && |appendTo.literals| + (|s| - literalStart) < 0x8000_0000
    modifies appendTo
    ensures appendTo.Valid() && literalStart < i <= |s|
    ensures |appendTo.literals| + (|s| - i) == old(|appendTo.literals|) + (|s| - literalStart)
    ensures Parse(appendTo.model, s[i..]) == Parse(old(appendTo.model), s[literalStart..])
    ensures i < |s| ==> tokenSize == TokenSize(s[i..]) > 1 && i + 1 < |s| && token == s[i + 1]
  {
    hide Parse, FirstToken, TokenSize, WithLiteral, Merged, Packed, Texts, AllFit, HasType;
    ghost var m := appendTo.model;
    var len := |s|;
    RunStep(m, [], s, literalStart);
    i, tokenSize, token := literalStart + 1, 1, s[literalStart];
    assert s[literalStart..i] == [] + [s[literalStart]];
    while i < len && tokenSize == 1
      invariant literalStart < i <= len
      invariant Parse(WithLiteral(m, s[literalStart..i]), s[i..]) == Parse(m, s[literalStart..])
      invariant i < len && tokenSize != 1 ==> tokenSize == TokenSize(s[i..]) && token == s[i + 1]
      modifies {}
      decreases len - i, tokenSize == 1
    {
      tokenSize, token := NextToken(s, i, len);
      if tokenSize == 1 {
        RunStep(m, s[literalStart..i], s, i);
        assert s[literalStart..i] + [s[i]] == s[literalStart..i + 1];
        i := i + 1;
      } else {
        SizeIsCount(s[i..]);
      }
    }
    appendTo.AddLiteral(s, literalStart, i - literalStart);
  }

  lemma RunStep(m: Tokens, run: Text, s: Text, i: nat)
    requires i < |s| && TokenSize(s[i..]) == 1
    ensures Parse(if run == [] then m else WithLiteral(m, run), s[i..])
            == Parse(WithLiteral(m, run + [s[i]]), s[i + 1..])
  {
    var m1 := if run == [] then m else WithLiteral(m, run);
    ParseStep(m1, s, i);
    WithLiteralTwice(m, run, [s[i]]);
    assert run == [] ==> run + [s[i]] == [s[i]];
  }

  /** toString, through the iterator. */
  method WriteString(pattern: AffixPattern, appendTo: Text) returns (r: Text)
    requires pattern.Valid()
    ensures r == appendTo + ToString(pattern.model)
  {
    hide Merged, Packed, Texts, AllFit, HasType, ToString, Show;
    var iter := new AffixPatternIterator(pattern);
    ghost var m := pattern.model;
    r := appendTo;
    assert m[..0] == [];
    ToStringEmpty();
    var more := iter.NextToken();
    while more
      invariant fresh(iter) && iter.pattern == pattern && iter.Valid()
      invariant 1 <= iter.at <= |m| + 1 && (more <==> iter.at <= |m|)
      invariant r == appendTo + ToString(m[..iter.at - 1])
      decreases |m| + 1 - iter.at
    {
      ToStringStep(m, iter.at - 1);
      r := WriteToken(iter, r);
      more := iter.NextToken();
    }
    assert m[..|m|] == m;
  }

  lemma ToStringEmpty()
    ensures ToString([]) == []
  {
  }

  lemma ToStringStep(m: Tokens, k: nat)
    requires k < |m|
    ensures ToString(m[..k + 1]) == ToString(m[..k]) + Show(m[k])
  {
    assert m[..k + 1][..k] == m[..k];
  }

  method WriteToken(iter: AffixPatternIterator, appendTo: Text) returns (r: Text)
    requires iter.Valid() && 0 < iter.at <= |iter.pattern.model|
    ensures r == appendTo + Show(iter.pattern.model[iter.at - 1])
  {
    hide Merged, Packed, Texts, AllFit, HasType;
    var kind := iter.GetTokenType();
    if kind == 0 {
      var literal := iter.GetLiteral();
      r := EscapeApostropheInLiteral(literal, appendTo);
    } else if kind == 1 {
      r := appendTo + [APOSTROPHE, PERCENT];
    } else if kind == 2 {
      r := appendTo + [APOSTROPHE, PER_MILL];
    } else if kind == 3 {
      r := appendTo + [APOSTROPHE];
      var cl := iter.GetTokenLength();
      for i := 0 to cl
        invariant r == appendTo + ([APOSTROPHE] + CurrencySigns(i))
      {
        assert CurrencySigns(i) + [CURRENCY] == CurrencySigns(i + 1);
        r := r + [CURRENCY];
      }
    } else if kind == 4 {
      r := appendTo + [APOSTROPHE, MINUS];
    } else {
      r := appendTo + [APOSTROPHE, PLUS];
    }
  }

  method EscapeApostropheInLiteral(literal: Text, appendTo: Text) returns (r: Text)
    ensures r == appendTo + Escape(literal)
  {
    r := appendTo;
    for i := 0 to |literal|
      invariant r + Escape(literal[i..]) == appendTo + Escape(literal)
    {
      var ch := literal[i];
      assert literal[i..][1..] == literal[i + 1..];
      if ch == APOSTROPHE {
        assert (r + [APOSTROPHE, APOSTROPHE]) + Escape(literal[i + 1..]) == r + Escape(literal[i..]);
        r := r + [APOSTROPHE, APOSTROPHE];
      } else {
        assert (r + [ch]) + Escape(literal[i + 1..]) == r + Escape(literal[i..]);
        r := r + [ch];
      }
    }
    assert literal[|literal|..] == [];
  }

  /** Parsing any string, writing the pattern and parsing that gives the same pattern. */
  method Reparse(s: Text) returns (p: AffixPattern, q: AffixPattern, error: bool)
    requires |s| < 0x8000_0000 && |ToString(Parse([], s))| < 0x8000_0000
    ensures fresh(p) && fresh(q) && p.Valid() && q.Valid() && !error
    ensures p.model == Parse([], s) && q.tokens == p.tokens && q.literals == p.literals
    ensures q.hasCurrencyToken == p.hasCurrencyToken && q.hasPercentToken == p.hasPercentToken
    ensures q.hasPermillToken == p.hasPermillToken
  {
    hide Parse, ToString, Merged, Packed, Texts, AllFit, HasType;
    p := new AffixPattern();
    var e1 := ParseAffixString(s, p);
    var t := WriteString(p, []);
    assert [] + ToString(p.model) == ToString(p.model);
    q := new AffixPattern();
    var e2 := ParseAffixString(t, q);
    ReparseSame(s);
    error := e1 || e2;
  }
}
