/**
 Affix strings as users write them, where apostrophes quote special characters
 (Source/icu/affixpatternparser.cpp, 53-71, 264-307, 353-390 and 392-501), with the buffered
 appender that the parser collects literals in.
 */
module UserAffixStrings {
  import opened AffixPatterns
  import opened AffixStrings

  // ----- reading -----

  function MaxRun(c: Unit): nat { if c == APOSTROPHE then 2 else if c == CURRENCY then 3 else 1 }

  /** nextUserToken: two apostrophes or three currency signs are read together. */
  function UserSize(s: Text): (n: nat)
    requires s != []
    ensures 1 <= n <= |s| && n <= MaxRun(s[0])
  {
    RunLength(s, s[0], MaxRun(s[0]))
  }

  predicate IsQuote(s: Text) { s != [] && s[0] == APOSTROPHE && UserSize(s) == 1 }

  /** What the first token of s stands for: currency signs in quotes are so many literal units. */
  function UserToken(quoted: bool, s: Text): Token
    requires s != [] && !IsQuote(s)
  {
    if quoted then Literal(if s[0] == CURRENCY then CurrencySigns(UserSize(s)) else [s[0]])
    else Quoted(s[0], UserSize(s))
  }

  function UserParse(m: Tokens, quoted: bool, s: Text): Tokens
    decreases |s|
  {
    if s == [] then m
    else if IsQuote(s) then UserParse(m, !quoted, s[1..])
    else UserParse(With(m, UserToken(quoted, s)), quoted, s[UserSize(s)..])
  }

  // ----- writing -----

  predicate Special(c: Unit) { c == PERCENT || c == PER_MILL || c == CURRENCY || c == MINUS || c == PLUS }

  function UserUnit(c: Unit): Text {
    if c == APOSTROPHE then [APOSTROPHE, APOSTROPHE] else if Special(c) then [APOSTROPHE, c, APOSTROPHE] else [c]
  }

  function UserEscape(text: Text): Text {
    if text == [] then [] else UserUnit(text[0]) + UserEscape(text[1..])
  }

  function UserShow(t: Token): Text {
    match t
    case Literal(text) => UserEscape(text)
    case Percent => [PERCENT]
    case PerMill => [PER_MILL]
    case Currency(count) => CurrencySigns(count)
    case Negative => [MINUS]
    case Positive => [PLUS]
  }

  function ToUserString(m: Tokens): Text {
    if m == [] then [] else ToUserString(m[..|m| - 1]) + UserShow(m[|m| - 1])
  }

  lemma {:induction false} ToUserHead(m: Tokens)
    requires m != []
    ensures ToUserString(m) == UserShow(m[0]) + ToUserString(m[1..])
  {
    hide UserShow;
    if |m| > 1 {
      ToUserHead(m[..|m| - 1]);
      assert m[..|m| - 1][1..] == m[1..][..|m| - 2];
    }
  }

  // ----- which patterns come back -----

  /**
   How often a special unit of the text is written right behind the closing quote of another one.
   open is whether the text written so far ends with an apostrophe that pairs with the next one.
   */
  function Clashes(open: bool, text: Text): nat
    decreases |text|
  {
    if text == [] then 0
    else if text[0] == APOSTROPHE then Clashes(open, text[1..])
    else if Special(text[0]) then (if open then 1 else 0) + Clashes(true, text[1..])
    else Clashes(false, text[1..])
  }

  /** Two specials with nothing or only apostrophes between them. */
  predicate Clash(text: Text, i: nat, j: nat) {
    i < j < |text| && Special(text[i]) && Special(text[j]) && forall k :: i < k < j ==> text[k] == APOSTROPHE
  }

  /** The first special is preceded by apostrophes only. */
  predicate Leads(text: Text, j: nat) {
    j < |text| && Special(text[j]) && forall k :: 0 <= k < j ==> text[k] == APOSTROPHE
  }

  lemma {:induction false} ClashesAre(open: bool, text: Text)
    ensures Clashes(open, text) > 0 <==>
              (exists i: nat, j: nat :: Clash(text, i, j)) || (open && exists j: nat :: Leads(text, j))
    decreases |text|
  {
    if text != [] {
      var rest, open' := text[1..], if text[0] == APOSTROPHE then open else Special(text[0]);
      ClashesAre(open', rest);
      forall i: nat, j: nat | Clash(rest, i, j) ensures Clash(text, i + 1, j + 1) {
        assert forall k :: i + 1 < k < j + 1 ==> text[k] == rest[k - 1];
      }
      forall i: nat, j: nat | 0 < i && Clash(text, i, j) ensures Clash(rest, i - 1, j - 1) {}
      forall j: nat | Clash(text, 0, j) ensures Leads(rest, j - 1) {}
      forall j: nat | Leads(rest, j) ensures Special(text[0]) ==> Clash(text, 0, j + 1) {
        assert forall k :: 0 < k < j + 1 ==> text[k] == rest[k - 1];
      }
      forall j: nat | Leads(rest, j) ensures text[0] == APOSTROPHE ==> Leads(text, j + 1) {
        assert forall k :: 0 < k < j + 1 ==> text[k] == rest[k - 1];
      }
      forall j: nat | 0 < j && Leads(text, j) ensures Leads(rest, j - 1) {}
      if Special(text[0]) {
        assert Leads(text, 0);
      }
    }
  }

  ghost predicate Separated(text: Text) { !exists i: nat, j: nat :: Clash(text, i, j) }

  /** A currency of fewer than three signs before another currency: their signs would be read together. */
  predicate RunsOn(t: Token, next: Token) { t.Currency? && t.count < 3 && next.Currency? }

  /** One to three signs in a currency, none that would run on, and no empty literal. */
  predicate UserTokens(m: Tokens) {
    && (forall i :: 0 <= i < |m| ==> (m[i].Currency? ==> 1 <= m[i].count <= 3) && (m[i].Literal? ==> m[i].text != []))
    && (forall i :: 0 < i < |m| ==> !RunsOn(m[i - 1], m[i]))
  }

  ghost predicate UserCanonical(m: Tokens) {
    UserTokens(m) && forall i :: 0 <= i < |m| && m[i].Literal? ==> Separated(m[i].text)
  }

  // ----- whatever is parsed has the form of UserTokens -----

  /** No sign follows that the last currency should have taken, and an opening quote is never closed at once. */
  predicate UserTaken(m: Tokens, quoted: bool, s: Text) {
    m != [] && m[|m| - 1].Currency? && m[|m| - 1].count < 3 ==>
        if quoted then s == [] || s[0] != APOSTROPHE else s == [] || s[0] != CURRENCY
  }

  lemma {:induction false} UserParseTokens(m: Tokens, quoted: bool, s: Text)
    requires UserTokens(m) && Merged(m) && UserTaken(m, quoted, s)
    ensures UserTokens(UserParse(m, quoted, s)) && Merged(UserParse(m, quoted, s))
    decreases |s|
  {
    hide UserTokens, Merged, UserTaken, UserToken, With;
    if s != [] {
      if IsQuote(s) {
        QuoteTaken(m, quoted, s);
        UserParseTokens(m, !quoted, s[1..]);
      } else {
        WithMerged(m, UserToken(quoted, s));
        TokenTaken(m, quoted, s);
        UserParseTokens(With(m, UserToken(quoted, s)), quoted, s[UserSize(s)..]);
      }
    }
  }

  lemma QuoteTaken(m: Tokens, quoted: bool, s: Text)
    requires IsQuote(s) && UserTaken(m, quoted, s)
    ensures UserTaken(m, !quoted, s[1..])
  {
  }

  lemma TokenTaken(m: Tokens, quoted: bool, s: Text)
    requires s != [] && !IsQuote(s) && UserTokens(m) && UserTaken(m, quoted, s)
    ensures UserTokens(With(m, UserToken(quoted, s)))
    ensures UserTaken(With(m, UserToken(quoted, s)), quoted, s[UserSize(s)..])
  {
    var t, m1 := UserToken(quoted, s), With(m, UserToken(quoted, s));
    assert t.Currency? ==> s[0] == CURRENCY && !quoted && t.count == UserSize(s);
    assert t.Literal? ==> t.text != [];
  }

  // ----- apostrophes are counted -----

  /** Apostrophes in the literals. */
  function Apostrophes(m: Tokens): nat {
    if m == [] then 0
    else
      var t := m[|m| - 1];
      Apostrophes(m[..|m| - 1]) + if t.Literal? then ApostrophesIn(t.text) else 0
  }

  function ApostrophesIn(text: Text): nat {
    if text == [] then 0 else (if text[0] == APOSTROPHE then 1 else 0) + ApostrophesIn(text[1..])
  }

  lemma {:induction false} ApostrophesAdd(a: Text, b: Text)
    ensures ApostrophesIn(a + b) == ApostrophesIn(a) + ApostrophesIn(b)
  {
    if a == [] {
      assert a + b == b;
    } else {
      ApostrophesAdd(a[1..], b);
      assert (a + b)[1..] == a[1..] + b;
    }
  }

  lemma ApostrophesWith(m: Tokens, t: Token)
    ensures Apostrophes(With(m, t)) == Apostrophes(m) + if t.Literal? then ApostrophesIn(t.text) else 0
  {
    var r := With(m, t);
    if t.Literal? {
      ApostrophesAdd(Ending(m), t.text);
      assert r[..|r| - 1] == Before(m);
      assert r[|r| - 1].text == Ending(m) + t.text;
    } else {
      assert r[..|r| - 1] == m;
    }
  }

  /** Pairs of apostrophes in s, taken from the left; open is whether one waits for its partner. */
  function Pairs(open: bool, s: Text): nat
    decreases |s|
  {
    if s == [] then 0
    else if s[0] != APOSTROPHE then Pairs(false, s[1..])
    else if open then 1 + Pairs(false, s[1..])
    else Pairs(true, s[1..])
  }

  /** Each pair in the string becomes one apostrophe, quoted or not. */
  lemma {:induction false} ParsePairs(m: Tokens, quoted: bool, s: Text)
    ensures Apostrophes(UserParse(m, quoted, s)) == Apostrophes(m) + Pairs(false, s)
    decreases |s|
  {
    hide Apostrophes, With, UserToken;
    if s != [] {
      if IsQuote(s) {
        assert Pairs(false, s) == Pairs(false, s[1..]) by { assert s[1..] != [] ==> s[1] != APOSTROPHE; }
        ParsePairs(m, !quoted, s[1..]);
      } else {
        ApostrophesWith(m, UserToken(quoted, s));
        TokenPairs(quoted, s);
        ParsePairs(With(m, UserToken(quoted, s)), quoted, s[UserSize(s)..]);
      }
    }
  }

  lemma TokenPairs(quoted: bool, s: Text)
    requires s != [] && !IsQuote(s)
    ensures
      var t := UserToken(quoted, s);
      Pairs(false, s) == (if t.Literal? then ApostrophesIn(t.text) else 0) + Pairs(false, s[UserSize(s)..])
  {
    var t, n := UserToken(quoted, s), UserSize(s);
    if s[0] == APOSTROPHE {
      assert n == 2 && t == Literal([APOSTROPHE]);
      assert s[1..][1..] == s[2..];
    } else {
      assert t.Literal? ==> forall i :: 0 <= i < |t.text| ==> t.text[i] != APOSTROPHE;
      if t.Literal? {
        NoApostrophes(t.text);
      }
      PairsSkip(s, n);
    }
  }

  lemma {:induction false} NoApostrophes(text: Text)
    requires forall i :: 0 <= i < |text| ==> text[i] != APOSTROPHE
    ensures ApostrophesIn(text) == 0
  {
    if text != [] {
      NoApostrophes(text[1..]);
    }
  }

  lemma {:induction false} PairsSkip(s: Text, n: nat)
    requires n <= |s| && forall i :: 0 <= i < n ==> s[i] != APOSTROPHE
    ensures Pairs(false, s) == Pairs(false, s[n..])
  {
    if n > 0 {
      PairsSkip(s[1..], n - 1);
      assert s[1..][n - 1..] == s[n..];
    }
  }

  lemma SpecialPairs(open: bool, c: Unit, tail: Text)
    requires c != APOSTROPHE
    ensures Pairs(open, [APOSTROPHE, c, APOSTROPHE] + tail) == (if open then 1 else 0) + Pairs(true, tail)
  {
    var s := [APOSTROPHE, c, APOSTROPHE] + tail;
    assert s[1..] == [c, APOSTROPHE] + tail;
    assert s[1..][1..] == [APOSTROPHE] + tail;
    assert s[1..][1..][1..] == tail;
    assert Pairs(false, s[1..][1..]) == Pairs(true, tail);
  }

  /** A written literal has a pair for each of its apostrophes and one for each clash. */
  lemma {:induction false} EscapedPairs(open: bool, text: Text, rest: Text)
    requires rest == [] || rest[0] != APOSTROPHE
    ensures Pairs(open, UserEscape(text) + rest) == ApostrophesIn(text) + Clashes(open, text) + Pairs(false, rest)
    decreases |text|
  {
    var s := UserEscape(text) + rest;
    if text == [] {
      assert s == rest;
    } else {
      var tail := UserEscape(text[1..]) + rest;
      assert s == UserUnit(text[0]) + tail;
      if text[0] == APOSTROPHE {
        assert s[1..][1..] == tail;
        EscapedPairs(open, text[1..], rest);
      } else if Special(text[0]) {
        SpecialPairs(open, text[0], tail);
        EscapedPairs(true, text[1..], rest);
      } else {
        assert s[1..] == tail;
        EscapedPairs(false, text[1..], rest);
      }
    }
  }

  function AllClashes(m: Tokens): nat {
    if m == [] then 0 else (if m[0].Literal? then Clashes(false, m[0].text) else 0) + AllClashes(m[1..])
  }

  lemma {:induction false} ApostrophesHead(m: Tokens)
    requires m != []
    ensures Apostrophes(m) == (if m[0].Literal? then ApostrophesIn(m[0].text) else 0) + Apostrophes(m[1..])
  {
    if |m| > 1 {
      ApostrophesHead(m[..|m| - 1]);
      assert m[..|m| - 1][1..] == m[1..][..|m| - 2];
    }
  }

  lemma SymbolShown(t: Token)
    requires !t.Literal?
    ensures forall i :: 0 <= i < |UserShow(t)| ==> UserShow(t)[i] != APOSTROPHE
  {
  }

  /** Behind a literal comes no apostrophe. */
  lemma NoQuoteFollows(m: Tokens)
    requires UserTokens(m) && (m != [] ==> !m[0].Literal?)
    ensures ToUserString(m) == [] || ToUserString(m)[0] != APOSTROPHE
  {
    if m != [] {
      ToUserHead(m);
      SymbolShown(m[0]);
      assert UserShow(m[0]) != [];
    }
  }

  lemma {:induction false} ShownPairs(m: Tokens)
    requires Merged(m) && UserTokens(m)
    ensures Pairs(false, ToUserString(m)) == Apostrophes(m) + AllClashes(m)
  {
    if m != [] {
      var t, rest := m[0], ToUserString(m[1..]);
      ToUserHead(m);
      ApostrophesHead(m);
      ShownPairs(m[1..]);
      if t.Literal? {
        assert |m| > 1 ==> !m[1].Literal?;
        NoQuoteFollows(m[1..]);
        EscapedPairs(false, t.text, rest);
      } else {
        SymbolShown(t);
        PairsSkip(UserShow(t) + rest, |UserShow(t)|);
        assert (UserShow(t) + rest)[|UserShow(t)|..] == rest;
      }
    }
  }

  lemma {:induction false} NoClashes(m: Tokens)
    ensures AllClashes(m) == 0 <==> forall i :: 0 <= i < |m| && m[i].Literal? ==> Separated(m[i].text)
  {
    if m != [] {
      NoClashes(m[1..]);
      if m[0].Literal? {
        ClashesAre(false, m[0].text);
      }
      assert forall i :: 0 < i < |m| ==> m[i] == m[1..][i - 1];
    }
  }

  // ----- reading what was written -----

  /** literal added to m, if there is any. */
  function Extended(m: Tokens, text: Text): Tokens { if text == [] then m else WithLiteral(m, text) }

  lemma ExtendedTwice(m: Tokens, text: Text)
    requires text != []
    ensures Extended(WithLiteral(m, [text[0]]), text[1..]) == Extended(m, text)
  {
    assert [text[0]] + text[1..] == text;
    if text[1..] != [] {
      WithLiteralTwice(m, [text[0]], text[1..]);
    } else {
      assert [text[0]] == text;
    }
  }

  lemma ReadQuote(m: Tokens, quoted: bool, tail: Text)
    requires tail == [] || tail[0] != APOSTROPHE
    ensures UserParse(m, quoted, [APOSTROPHE] + tail) == UserParse(m, !quoted, tail)
  {
    var s := [APOSTROPHE] + tail;
    assert s[1..] == tail;
    assert IsQuote(s);
  }

  lemma ReadPair(m: Tokens, quoted: bool, tail: Text)
    ensures UserParse(m, quoted, [APOSTROPHE, APOSTROPHE] + tail)
            == UserParse(WithLiteral(m, [APOSTROPHE]), quoted, tail)
  {
    hide WithLiteral;
    var s := [APOSTROPHE, APOSTROPHE] + tail;
    assert s[2..] == tail;
    assert s[1..][0] == APOSTROPHE;
    assert UserSize(s) == 2;
    QuotedApostrophe(2);
  }

  /** A unit that is read as itself. */
  lemma ReadUnit(m: Tokens, quoted: bool, c: Unit, tail: Text)
    requires c != APOSTROPHE && (Special(c) ==> quoted) && (c == CURRENCY ==> tail == [] || tail[0] != CURRENCY)
    ensures UserParse(m, quoted, [c] + tail) == UserParse(WithLiteral(m, [c]), quoted, tail)
  {
    hide WithLiteral;
    var s := [c] + tail;
    assert s[1..] == tail;
    assert UserSize(s) == 1;
    assert UserToken(quoted, s) == Literal([c]) by {
      assert c == CURRENCY ==> CurrencySigns(1) == [c];
    }
  }

  /** The closing quote that is still to be read. */
  function Closing(open: bool): Text { if open then [APOSTROPHE] else [] }

  /** Whether a closing quote is still to be read once c has been. */
  predicate Opens(open: bool, c: Unit) { if c == APOSTROPHE then open else Special(c) }

  lemma ReadHead(m: Tokens, open: bool, c: Unit, tail: Text)
    requires !(open && Special(c))
    ensures UserParse(m, open, Closing(open) + (UserUnit(c) + tail))
         == UserParse(WithLiteral(m, [c]), Opens(open, c), Closing(Opens(open, c)) + tail)
  {
    hide UserParse, WithLiteral;
    var s := Closing(open) + (UserUnit(c) + tail);
    if c == APOSTROPHE {
      assert s == [APOSTROPHE, APOSTROPHE] + (Closing(open) + tail);
      ReadPair(m, open, Closing(open) + tail);
    } else if Special(c) {
      assert s == [APOSTROPHE] + ([c] + ([APOSTROPHE] + tail));
      ReadQuote(m, false, [c] + ([APOSTROPHE] + tail));
      ReadUnit(m, true, c, [APOSTROPHE] + tail);
    } else {
      if open {
        ReadQuote(m, true, [c] + tail);
      } else {
        assert s == [c] + tail;
      }
      ReadUnit(m, false, c, tail);
      assert Closing(false) + tail == tail;
    }
  }

  /** A text as it is written is read as it was, unless specials clash. */
  lemma {:induction false} ReadText(m: Tokens, open: bool, text: Text, rest: Text)
    requires (rest == [] || rest[0] != APOSTROPHE) && Clashes(open, text) == 0
    ensures UserParse(m, open, Closing(open) + (UserEscape(text) + rest)) == UserParse(Extended(m, text), false, rest)
    decreases |text|
  {
    hide UserParse, WithLiteral, Extended, UserUnit;
    if text == [] {
      ExtendedNothing(m);
      assert UserEscape(text) + rest == rest;
      if open {
        ReadQuote(m, true, rest);
      } else {
        assert Closing(open) + rest == rest;
      }
    } else {
      var tail := UserEscape(text[1..]) + rest;
      ExtendedTwice(m, text);
      assert UserEscape(text) + rest == UserUnit(text[0]) + tail;
      ReadHead(m, open, text[0], tail);
      ReadText(WithLiteral(m, [text[0]]), Opens(open, text[0]), text[1..], rest);
    }
  }

  lemma ReadSymbol(m: Tokens, t: Token, rest: Text)
    requires !t.Literal? && (t.Currency? ==> 1 <= t.count <= 3 && (t.count < 3 ==> rest == [] || rest[0] != CURRENCY))
    ensures UserParse(m, false, UserShow(t) + rest) == UserParse(m + [t], false, rest)
  {
    var s := UserShow(t) + rest;
    assert s[|UserShow(t)|..] == rest;
    if t.Currency? {
      assert forall i :: 0 <= i < t.count ==> s[i] == CURRENCY;
      assert rest != [] ==> s[t.count] == rest[0];
    }
    assert UserSize(s) == |UserShow(t)|;
    assert UserToken(false, s) == t;
  }

  /** What follows a currency starts with a currency sign only when it is a currency. */
  lemma NoSignFollows(m: Tokens)
    requires UserTokens(m) && (m != [] ==> !m[0].Currency?)
    ensures ToUserString(m) == [] || ToUserString(m)[0] != CURRENCY
  {
    if m != [] {
      ToUserHead(m);
      if m[0].Literal? {
        assert UserEscape(m[0].text) == UserUnit(m[0].text[0]) + UserEscape(m[0].text[1..]);
      }
    }
  }

  lemma {:induction false} ReadShown(acc: Tokens, m: Tokens)
    requires UserTokens(m) && AllClashes(m) == 0 && Merged(acc + m)
    ensures UserParse(acc, false, ToUserString(m)) == acc + m
    decreases |m|
  {
    hide UserParse, ToUserString, UserShow, UserEscape;
    if m == [] {
      ReadEmpty(acc);
      assert acc + m == acc;
    } else {
      ToUserHead(m);
      var t, rest := m[0], m[1..];
      assert (acc + [t]) + rest == acc + m;
      if |m| > 1 {
        assert (acc + m)[|acc|] == t && (acc + m)[|acc| + 1] == rest[0];
        assert !RunsOn(m[0], m[1]);
      }
      if t.Literal? {
        NoQuoteFollows(rest);
        ReadText(acc, false, t.text, ToUserString(rest));
        assert Closing(false) + (UserEscape(t.text) + ToUserString(rest)) == UserEscape(t.text) + ToUserString(rest);
        ShowLiteral(t);
        assert acc != [] ==> acc[|acc| - 1] == (acc + m)[|acc| - 1];
        assert Extended(acc, t.text) == acc + [t];
      } else {
        if t.Currency? && t.count < 3 {
          NoSignFollows(rest);
        }
        ReadSymbol(acc, t, ToUserString(rest));
      }
      ReadShown(acc + [t], rest);
    }
  }

  lemma ShowLiteral(t: Token)
    requires t.Literal?
    ensures UserShow(t) == UserEscape(t.text)
  {
  }

  lemma ReadEmpty(m: Tokens)
    ensures UserParse(m, false, []) == m && ToUserString([]) == []
  {
  }

  /**
   The user form and back: the same pattern exactly when no literal has two specials with at most
   apostrophes between them, no currency of fewer than three signs directly precedes another, every
   currency has one to three signs and no literal is empty.
   */
  lemma UserRoundTrip(m: Tokens)
    requires Merged(m)
    ensures UserParse([], false, ToUserString(m)) == m <==> UserCanonical(m)
  {
    hide UserParse, ToUserString, Merged, UserTokens, AllClashes;
    NothingTaken(ToUserString(m));
    UserParseTokens([], false, ToUserString(m));
    if UserTokens(m) {
      ParsePairs([], false, ToUserString(m));
      ShownPairs(m);
      NoClashes(m);
      if AllClashes(m) == 0 {
        assert [] + m == m;
        ReadShown([], m);
      }
    }
  }

  /** The documented inverse fails here: the quotes of the two signs meet and are read as an apostrophe. */
  lemma SpecialsClash()
    ensures Merged([Literal([PERCENT, PERCENT])])
    ensures UserParse([], false, ToUserString([Literal([PERCENT, PERCENT])])) != [Literal([PERCENT, PERCENT])]
  {
    var m := [Literal([PERCENT, PERCENT])];
    assert Clash(m[0].text, 0, 1);
    UserRoundTrip(m);
  }

  lemma NothingTaken(s: Text)
    ensures UserTokens([]) && Merged([]) && UserTaken([], false, s)
  {
  }

  // ----- the code -----

  /** Collects the units of literals, thirty-two at a time. */
  class AffixPatternAppender {
    const dest: AffixPattern
    const buffer: array<Unit>
    var idx: nat

    ghost predicate Valid()
      reads this, dest, buffer
    {
      dest.Valid() && buffer.Length == 32 && idx <= 32
    }

    /** The pattern as it will be once the buffer is flushed. */
    ghost function View(): Tokens
      reads this, dest, buffer
      requires Valid()
    {
      Extended(dest.model, buffer[..idx])
    }

    /** The number of literal units of the view. */
    ghost function Size(): nat
      reads this, dest
    {
      |dest.literals| + idx
    }

    constructor (dest: AffixPattern)
      requires dest.Valid()
      ensures this.dest == dest && fresh(buffer) && Valid() && View() == dest.model && Size() == |dest.literals|
    {
      this.dest := dest;
      buffer := new Unit[32];
      idx := 0;
    }

    method Append(x: Unit)
      requires Valid() && Size() + 1 < 0x8000_0000
      modifies this, dest, buffer
      ensures Valid() && View() == WithLiteral(old(View()), [x]) && Size() == old(Size()) + 1
    {
      hide WithLiteral, Merged, Packed, Texts, AllFit, HasType;
      if idx == 32 {
        dest.AddLiteral(buffer[..], 0, idx);
        assert buffer[..][0..32] == buffer[..32];
        idx := 0;
      }
      ghost var m, b := dest.model, buffer[..idx];
      buffer[idx] := x;
      idx := idx + 1;
      assert buffer[..idx] == b + [x];
      if b == [] {
        assert b + [x] == [x];
      } else {
        WithLiteralTwice(m, b, [x]);
      }
    }

    method Flush()
      requires Valid() && Size() < 0x8000_0000
      modifies this, dest
      ensures Valid() && View() == dest.model == old(View()) && Size() == old(Size()) == |dest.literals| && idx == 0
    {
      hide WithLiteral, Merged, Packed, Texts, AllFit, HasType;
      if idx > 0 {
        assert buffer[..][0..idx] == buffer[..idx];
        dest.AddLiteral(buffer[..], 0, idx);
      }
      idx := 0;
    }

    /** A special token: what was collected goes before it. */
    method AddSymbol(t: Token)
      requires Valid() && Size() < 0x8000_0000 && !t.Literal? && Fits(t)
      modifies this, dest
      ensures Valid() && View() == old(View()) + [t] && Size() == old(Size())
    {
      hide Extended, WithLiteral, Merged, Packed, Texts, AllFit, HasType;
      Flush();
      dest.Add(t);
      assert buffer[..idx] == [];
      ExtendedNothing(dest.model);
    }
  }

  lemma ExtendedNothing(m: Tokens)
    ensures Extended(m, []) == m
  {
  }

  method NextUserToken(buffer: Text, idx: nat, len: nat) returns (size: nat, token: Unit)
    requires idx < len == |buffer|
    ensures size == UserSize(buffer[idx..]) && token == buffer[idx]
  {
    token := buffer[idx];
    var max := 1;
    if token == APOSTROPHE {
      max := 2;
    } else if token == CURRENCY {
      max := 3;
    }
    ghost var s := buffer[idx..];
    var i := 1;
    while idx + i < len && i < max && buffer[idx + i] == buffer[idx]
      invariant 1 <= i <= max && idx + i <= len
      invariant forall j :: 0 <= j < i ==> s[j] == token
    {
      i := i + 1;
    }
    assert idx + i < len ==> s[i] == buffer[idx + i];
    size := i;
  }

  lemma UserParseStep(m: Tokens, quoted: bool, s: Text, i: nat)
    requires i < |s|
    ensures i + UserSize(s[i..]) <= |s|
    ensures IsQuote(s[i..]) ==> UserParse(m, quoted, s[i..]) == UserParse(m, !quoted, s[i + 1..])
    ensures !IsQuote(s[i..]) ==>
              UserParse(m, quoted, s[i..])
                  == UserParse(With(m, UserToken(quoted, s[i..])), quoted, s[i + UserSize(s[i..])..])
  {
    assert s[i..][UserSize(s[i..])..] == s[i + UserSize(s[i..])..];
  }

  /** The buffered parser reads every string as the plain one does. */
  method ParseUserAffixString(affixStr: Text, appendTo: AffixPattern)
    requires appendTo.Valid() && |appendTo.literals| + |affixStr| < 0x8000_0000
    modifies appendTo
    ensures appendTo.Valid() && appendTo.model == UserParse(old(appendTo.model), false, affixStr)
  {
    hide UserParse, UserToken, UserSize, IsQuote, WithLiteral, Extended, Merged, Packed, Texts, AllFit, HasType;
    var len, i, state := |affixStr|, 0, 0;
    ghost var goal := UserParse(appendTo.model, false, affixStr);
    assert affixStr[0..] == affixStr;
    var appender := new AffixPatternAppender(appendTo);
    while i < len
      invariant i <= len && (state == 0 || state == 1)
      invariant fresh(appender) && fresh(appender.buffer) && appender.dest == appendTo && appender.Valid()
      invariant appender.Size() + (len - i) < 0x8000_0000
      invariant UserParse(appender.View(), state == 1, affixStr[i..]) == goal
    {
      var tokenSize, token := NextUserToken(affixStr, i, len);
      ghost var rest := affixStr[i..];
      UserParseStep(appender.View(), state == 1, affixStr, i);
      WhichToken(state == 1, rest);
      i := i + tokenSize;
      if token == APOSTROPHE && tokenSize == 1 {
        state := 1 - state;
        continue;
      }
      if state == 0 {
        AddUnquoted(appender, token, tokenSize);
      } else {
        AddQuoted(appender, token, tokenSize);
      }
    }
    assert affixStr[len..] == [];
    ReadAll(appender.View(), state == 1);
    appender.Flush();
  }

  lemma ReadAll(m: Tokens, quoted: bool)
    ensures UserParse(m, quoted, []) == m
  {
  }

  lemma WhichToken(quoted: bool, s: Text)
    requires s != []
    ensures IsQuote(s) <==> s[0] == APOSTROPHE && UserSize(s) == 1
    ensures !IsQuote(s) && quoted ==>
              UserToken(quoted, s) == Literal(if s[0] == CURRENCY then CurrencySigns(UserSize(s)) else [s[0]])
    ensures !IsQuote(s) && !quoted ==> UserToken(quoted, s) == Quoted(s[0], UserSize(s))
    ensures 1 <= UserSize(s) <= 3 && (s[0] != APOSTROPHE && s[0] != CURRENCY ==> UserSize(s) == 1)
    ensures s[0] == APOSTROPHE ==> UserSize(s) <= 2
  {
  }

  /** A token outside quotes. */
  method AddUnquoted(appender: AffixPatternAppender, token: Unit, tokenSize: nat)
    requires appender.Valid() && 1 <= tokenSize <= 3 && appender.Size() + tokenSize < 0x8000_0000
    modifies appender, appender.dest, appender.buffer
    ensures appender.Valid() && appender.View() == With(old(appender.View()), Quoted(token, tokenSize))
    ensures appender.Size() <= old(appender.Size()) + tokenSize
  {
    hide Extended, WithLiteral, Merged, Packed, Texts, AllFit, HasType;
    if token == PERCENT {
      appender.AddSymbol(Percent);
    } else if token == PER_MILL {
      appender.AddSymbol(PerMill);
    } else if token == MINUS {
      appender.AddSymbol(Negative);
    } else if token == PLUS {
      appender.AddSymbol(Positive);
    } else if token == CURRENCY {
      appender.AddSymbol(Currency(tokenSize));
    } else {
      appender.Append(token);
    }
  }

  /** A token inside quotes. */
  method AddQuoted(appender: AffixPatternAppender, token: Unit, tokenSize: nat)
    requires appender.Valid() && 1 <= tokenSize && appender.Size() + tokenSize < 0x8000_0000
    modifies appender, appender.dest, appender.buffer
    ensures appender.Valid()
            && appender.View()
                == WithLiteral(old(appender.View()), if token == CURRENCY then CurrencySigns(tokenSize) else [token])
    ensures appender.Size() <= old(appender.Size()) + tokenSize
  {
    hide Extended, WithLiteral, Merged, Packed, Texts, AllFit, HasType;
    ghost var m := appender.View();
    if token == CURRENCY {
      assert CurrencySigns(0) == [];
      for j := 0 to tokenSize
        invariant appender.Valid() && appender.Size() == old(appender.Size()) + j
        invariant appender.View() == if j == 0 then m else WithLiteral(m, CurrencySigns(j))
      {
        assert CurrencySigns(j) + [CURRENCY] == CurrencySigns(j + 1);
        assert [] + [CURRENCY] == [CURRENCY];
        WithLiteralTwice(m, CurrencySigns(j), [CURRENCY]);
        appender.Append(CURRENCY);
      }
    } else {
      appender.Append(token);
    }
  }

  /** toUserString, through the iterator. */
  method WriteUserString(pattern: AffixPattern, appendTo: Text) returns (r: Text)
    requires pattern.Valid()
    ensures r == appendTo + ToUserString(pattern.model)
  {
    hide Merged, Packed, Texts, AllFit, HasType, ToUserString, UserShow;
    var iter := new AffixPatternIterator(pattern);
    ghost var m := pattern.model;
    r := appendTo;
    assert m[..0] == [];
    ReadEmpty([]);
    var more := iter.NextToken();
    while more
      invariant fresh(iter) && iter.pattern == pattern && iter.Valid()
      invariant 1 <= iter.at <= |m| + 1 && (more <==> iter.at <= |m|)
      invariant r == appendTo + ToUserString(m[..iter.at - 1])
      decreases |m| + 1 - iter.at
    {
      ToUserStep(m, iter.at - 1);
      r := WriteUserToken(iter, r);
      more := iter.NextToken();
    }
    assert m[..|m|] == m;
  }

  lemma ToUserStep(m: Tokens, k: nat)
    requires k < |m|
    ensures ToUserString(m[..k + 1]) == ToUserString(m[..k]) + UserShow(m[k])
  {
    hide UserShow;
    assert m[..k + 1][..k] == m[..k];
  }

  method WriteUserToken(iter: AffixPatternIterator, appendTo: Text) returns (r: Text)
    requires iter.Valid() && 0 < iter.at <= |iter.pattern.model|
    ensures r == appendTo + UserShow(iter.pattern.model[iter.at - 1])
  {
    hide Merged, Packed, Texts, AllFit, HasType, UserEscape;
    var kind := iter.GetTokenType();
    if kind == 0 {
      var literal := iter.GetLiteral();
      r := EscapeLiteral(literal, appendTo);
    } else if kind == 1 {
      r := appendTo + [PERCENT];
    } else if kind == 2 {
      r := appendTo + [PER_MILL];
    } else if kind == 3 {
      r := appendTo;
      var cl := iter.GetTokenLength();
      for i := 0 to cl
        invariant r == appendTo + CurrencySigns(i)
      {
        assert CurrencySigns(i) + [CURRENCY] == CurrencySigns(i + 1);
        r := r + [CURRENCY];
      }
    } else if kind == 4 {
      r := appendTo + [MINUS];
    } else {
      r := appendTo + [PLUS];
    }
  }

  method EscapeLiteral(literal: Text, appendTo: Text) returns (r: Text)
    ensures r == appendTo + UserEscape(literal)
  {
    r := appendTo;
    for i := 0 to |literal|
      invariant r + UserEscape(literal[i..]) == appendTo + UserEscape(literal)
    {
      var ch := literal[i];
      assert literal[i..][1..] == literal[i + 1..];
      assert (r + UserUnit(ch)) + UserEscape(literal[i + 1..]) == r + UserEscape(literal[i..]);
      if ch == APOSTROPHE {
        r := r + [APOSTROPHE, APOSTROPHE];
      } else if ch == PERCENT || ch == PER_MILL || ch == CURRENCY || ch == MINUS || ch == PLUS {
        r := r + [APOSTROPHE, ch, APOSTROPHE];
      } else {
        r := r + [ch];
      }
    }
    assert literal[|literal|..] == [];
  }
}
