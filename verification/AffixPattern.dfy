/**
 The packed form of affix patterns (Source/icu/affixpatternparser.cpp, 146-243 and 560-614): token
 words of a type and a length byte, literals in one string, and the iterator over them. The pattern
 and its iterator are proved to be a plain sequence of tokens and a position in it.
 */
module AffixPatterns {

  /** A UTF-16 code unit. */
  type Unit = nat

  type Text = seq<Unit>

  datatype Token =
    | Literal(text: Text)
    | Percent
    | PerMill
    | Currency(count: nat)
    | Negative
    | Positive

  type Tokens = seq<Token>

  /** The number of the token type. */
  function Type(t: Token): nat {
    match t
    case Literal(_) => 0
    case Percent => 1
    case PerMill => 2
    case Currency(_) => 3
    case Negative => 4
    case Positive => 5
  }

  // ----- plain token sequences -----

  /** Adjacent literals are merged. */
  ghost predicate Merged(m: Tokens) { forall i :: 0 < i < |m| ==> !(m[i - 1].Literal? && m[i].Literal?) }

  function WithLiteral(m: Tokens, text: Text): Tokens {
    if m != [] && m[|m| - 1].Literal? then m[..|m| - 1] + [Literal(m[|m| - 1].text + text)] else m + [Literal(text)]
  }

  function With(m: Tokens, t: Token): Tokens {
    if t.Literal? then WithLiteral(m, t.text) else m + [t]
  }

  function WithAll(m: Tokens, more: Tokens): Tokens {
    if more == [] then m else With(WithAll(m, more[..|more| - 1]), more[|more| - 1])
  }

  lemma WithMerged(m: Tokens, t: Token)
    requires Merged(m)
    ensures Merged(With(m, t))
  {
  }

  /** Appending a pattern joins the literals at the seam and keeps everything else. */
  lemma {:induction false} WithAllJoins(m: Tokens, more: Tokens)
    requires Merged(more)
    ensures WithAll(m, more) == if more == [] then m else With(m, more[0]) + more[1..]
  {
    if |more| > 1 {
      var less := more[..|more| - 1];
      WithAllJoins(m, less);
      assert less[1..] + [more[|more| - 1]] == more[1..];
      assert With(m, less[0]) + less[1..] + [more[|more| - 1]] == With(m, more[0]) + more[1..];
      var before := With(m, less[0]) + less[1..];
      if more[|more| - 1].Literal? {
        assert |less| > 1 ==> before[|before| - 1] == less[|less| - 1];
      }
    }
  }

  /** All literal texts, one after the other. */
  function Texts(m: Tokens): Text {
    if m == [] then []
    else Texts(m[..|m| - 1]) + Shown(m[|m| - 1])
  }

  lemma TextsWith(m: Tokens, t: Token)
    ensures Texts(With(m, t)) == Texts(m) + Shown(t)
  {
    var r := With(m, t);
    assert r[..|r| - 1] == if t.Literal? && m != [] && m[|m| - 1].Literal? then m[..|m| - 1] else m;
  }

  // ----- packing -----

  /** The higher bytes of a length, in extension words. */
  function Extension(n: nat): seq<nat> {
    if n == 0 then [] else [0x8000 + n % 256] + Extension(n / 256)
  }

  /** The words of one token: a type and a length byte, for literals as many extensions as needed. */
  function Pack(t: Token): seq<nat> {
    match t
    case Literal(text) => [|text| % 256] + Extension(|text| / 256)
    case Currency(count) => [3 * 256 + count % 256]
    case _ => [Type(t) * 256 + 1]
  }

  function Packed(m: Tokens): seq<nat> {
    if m == [] then [] else Packed(m[..|m| - 1]) + Pack(m[|m| - 1])
  }

  /** UNPACK_TOKEN, UNPACK_LONG and UNPACK_LENGTH. */
  function TokenOf(w: nat): nat { w / 256 % 128 }

  predicate IsLong(w: nat) { w / 0x8000 % 2 == 1 }

  function LengthOf(w: nat): nat { w % 256 }

  /** The number whose bytes are the lengths of the words, lowest first. */
  function Total(ws: seq<nat>): nat {
    if ws == [] then 0 else LengthOf(ws[0]) + 256 * Total(ws[1..])
  }

  lemma {:induction false} ExtensionWords(n: nat)
    ensures Total(Extension(n)) == n
    ensures forall i :: 0 <= i < |Extension(n)| ==> TokenOf(Extension(n)[i]) == 0 && IsLong(Extension(n)[i])
  {
    if n > 0 {
      ExtensionWords(n / 256);
      assert Extension(n)[1..] == Extension(n / 256);
      var w := 0x8000 + n % 256;
      assert w / 256 == 128 && w / 0x8000 == 1;
    }
  }

  /** The words of a literal: one short, the rest long, all of literal type, together its length. */
  lemma LiteralWords(text: Text)
    ensures
      var ws := Pack(Literal(text));
      && Total(ws) == |text| && ws != [] && !IsLong(ws[0])
      && (forall i :: 0 <= i < |ws| ==> TokenOf(ws[i]) == 0)
      && (forall i :: 0 < i < |ws| ==> IsLong(ws[i]))
  {
    ExtensionWords(|text| / 256);
    assert Pack(Literal(text))[1..] == Extension(|text| / 256);
  }

  /** Four words hold every length below 2^31. */
  lemma ExtensionFits(n: nat)
    requires n < 0x8000_0000
    ensures |Extension(n / 256)| <= 3
  {
    var a := n / 256;
    var b := a / 256;
    var c := b / 256;
    assert c / 256 == 0;
    assert |Extension(c)| <= 1;
    assert |Extension(b)| <= 2;
  }

  predicate Fits(t: Token) { (t.Literal? ==> |t.text| < 0x8000_0000) && (t.Currency? ==> t.count < 256) }

  lemma SymbolWords(t: Token)
    requires !t.Literal? && Fits(t)
    ensures |Pack(t)| == 1 && TokenOf(Pack(t)[0]) == Type(t) != 0 && !IsLong(Pack(t)[0])
    ensures LengthOf(Pack(t)[0]) == if t.Currency? then t.count else 1
  {
  }

  ghost predicate AllFit(m: Tokens) { forall i :: 0 <= i < |m| ==> Fits(m[i]) }

  lemma PackedWith(m: Tokens, t: Token)
    ensures Packed(m + [t]) == Packed(m) + Pack(t)
  {
    assert (m + [t])[..|m|] == m;
  }

  /** The words before the last literal, if the sequence ends with one. */
  function Before(m: Tokens): Tokens {
    if m != [] && m[|m| - 1].Literal? then m[..|m| - 1] else m
  }

  /** The length of the last literal, if the sequence ends with one. */
  function Ending(m: Tokens): Text {
    if m != [] && m[|m| - 1].Literal? then m[|m| - 1].text else []
  }

  /** What addLiteral finds when it looks back over the words. */
  lemma LookBack(m: Tokens)
    requires Merged(m) && AllFit(m)
    ensures
      var p, ws := Packed(Before(m)), Packed(m);
      && p <= ws && Total(ws[|p|..]) == |Ending(m)|
      && (forall i :: |p| <= i < |ws| ==> TokenOf(ws[i]) == 0)
      && (p != [] ==> TokenOf(p[|p| - 1]) != 0)
  {
    hide Packed, Pack, TokenOf, IsLong;
    var b := Before(m);
    if b != m {
      PackedWith(b, m[|m| - 1]);
      assert b + [m[|m| - 1]] == m;
      LiteralWords(Ending(m));
      assert Packed(m)[|Packed(b)|..] == Pack(Literal(Ending(m)));
    } else {
      assert Packed(m)[|Packed(b)|..] == [];
    }
    if b != [] {
      SymbolWords(b[|b| - 1]);
      PackedWith(b[..|b| - 1], b[|b| - 1]);
      assert b[..|b| - 1] + [b[|b| - 1]] == b;
    } else {
      PackedNothing();
    }
  }

  lemma PackedNothing()
    ensures Packed([]) == []
  {
  }

  ghost predicate HasType(m: Tokens, k: nat) { exists i :: 0 <= i < |m| && Type(m[i]) == k }

  lemma HasTypeWith(m: Tokens, t: Token, k: nat)
    requires k != 0
    ensures HasType(With(m, t), k) <==> HasType(m, k) || Type(t) == k
  {
    var r := With(m, t);
    if HasType(m, k) {
      var i :| 0 <= i < |m| && Type(m[i]) == k;
      assert Type(r[i]) == k;
    }
    assert Type(r[|r| - 1]) == Type(t);
  }

  // ----- the pattern -----

  class AffixPattern {
    var tokens: seq<nat>
    var literals: Text
    var hasCurrencyToken: bool
    var hasPercentToken: bool
    var hasPermillToken: bool
    ghost var model: Tokens

    /** The words, literals and flags are those of the plain sequence. */
    ghost predicate Valid()
      reads this
    {
      && Merged(model) && AllFit(model)
      && tokens == Packed(model) && literals == Texts(model) && |literals| < 0x8000_0000
      && hasCurrencyToken == HasType(model, 3) && hasPercentToken == HasType(model, 1)
          && hasPermillToken == HasType(model, 2)
    }

    constructor ()
      ensures Valid() && model == [] && literals == []
    {
      tokens, literals, model := [], [], [];
      hasCurrencyToken, hasPercentToken, hasPermillToken := false, false, false;
    }

    /** Where the words of a final literal start, and its length. */
    method FindEnding() returns (tLiteralStart: nat, literalLength: nat)
      requires Valid()
      ensures tLiteralStart == |Packed(Before(model))| <= |tokens| && tokens[..tLiteralStart] == Packed(Before(model))
      ensures literalLength == |Ending(model)|
    {
      hide Packed, Texts, Before, Ending, Merged, AllFit, HasType;
      LookBack(model);
      tLiteralStart, literalLength := |tokens|, 0;
      ghost var p := Packed(Before(model));
      while tLiteralStart > 0 && TokenOf(tokens[tLiteralStart - 1]) == 0
        invariant |p| <= tLiteralStart <= |tokens|
        invariant literalLength == Total(tokens[tLiteralStart..])
      {
        tLiteralStart := tLiteralStart - 1;
        assert tokens[tLiteralStart..][1..] == tokens[tLiteralStart + 1..];
        literalLength := literalLength * 256 + LengthOf(tokens[tLiteralStart]);
      }
    }

    /** The words with a literal length written after the first start of them, within the four words reserved. */
    method WriteLength(start: nat, n: nat) returns (ws: seq<nat>)
      requires start <= |tokens| && n < 0x8000_0000
      ensures ws == tokens[..start] + [n % 256] + Extension(n / 256) && |ws| <= start + 4
    {
      ExtensionFits(n);
      var literalLength := n;
      ws := tokens[..start] + [literalLength % 256];
      literalLength := literalLength / 256;
      while literalLength > 0
        invariant ws + Extension(literalLength) == tokens[..start] + [n % 256] + Extension(n / 256)
      {
        assert Extension(literalLength) == [0x8000 + literalLength % 256] + Extension(literalLength / 256);
        ws := ws + [0x8000 + literalLength % 256];
        literalLength := literalLength / 256;
      }
    }

    method AddLiteral(literal: Text, start: nat, len: nat)
      requires Valid() && start + len <= |literal| && |literals| + len < 0x8000_0000
      modifies this
      ensures Valid() && model == WithLiteral(old(model), literal[start..start + len])
      ensures |literals| == old(|literals|) + len
    {
      hide Packed, Texts, Before, Ending, WithLiteral, Merged, AllFit, HasType, Extension;
      ghost var m, added := model, literal[start..start + len];
      var tLiteralStart, literalLength := FindEnding();
      EndingIsText(m);
      tokens := WriteLength(tLiteralStart, literalLength + len);
      Repack(m, added, tokens);
      HasTypeWith(m, Literal(added), 1);
      HasTypeWith(m, Literal(added), 2);
      HasTypeWith(m, Literal(added), 3);
      literals := literals + literal[start..start + len];
      model := WithLiteral(m, added);
    }

    /** add and addCurrency. */
    method Add(t: Token)
      requires Valid() && !t.Literal? && Fits(t)
      modifies this
      ensures Valid() && model == old(model) + [t] && literals == old(literals)
    {
      hide Packed, Texts, HasType;
      if t.Currency? {
        hasCurrencyToken := true;
      } else if t.Percent? {
        hasPercentToken := true;
      } else if t.PerMill? {
        hasPermillToken := true;
      }
      HasTypeWith(model, t, 1);
      HasTypeWith(model, t, 2);
      HasTypeWith(model, t, 3);
      PackedWith(model, t);
      TextsWith(model, t);
      tokens := tokens + [Type(t) * 256 + (if t.Currency? then t.count else 1)];
      model := model + [t];
    }

    method Remove()
      modifies this
      ensures Valid() && model == [] && literals == []
    {
      tokens, literals, model := [], [], [];
      hasCurrencyToken, hasPercentToken, hasPermillToken := false, false, false;
    }

    /** Adds the token the iterator stands at. */
    method AddCurrent(iter: AffixPatternIterator)
      requires Valid() && iter.Valid() && iter.pattern != this && 0 < iter.at <= |iter.pattern.model|
      requires |literals| + |Shown(iter.pattern.model[iter.at - 1])| < 0x8000_0000
      modifies this
      ensures Valid() && model == With(old(model), iter.pattern.model[iter.at - 1])
      ensures |literals| == old(|literals|) + |Shown(iter.pattern.model[iter.at - 1])|
    {
      hide Packed, Merged, HasType, Pack, Texts, WithLiteral;
      ghost var t := iter.pattern.model[iter.at - 1];
      var kind := iter.GetTokenType();
      if kind == 0 {
        var literal := iter.GetLiteral();
        AddLiteral(literal, 0, |literal|);
        assert literal[0..|literal|] == literal;
      } else if kind == 3 {
        var count := iter.GetTokenLength();
        Add(Currency(count));
      } else {
        Add(OfType(kind));
      }
    }

    /** append: joins the other pattern to this one. */
    method AppendAll(other: AffixPattern)
      requires Valid() && other.Valid() && other != this && |literals| + |other.literals| < 0x8000_0000
      modifies this
      ensures Valid() && model == WithAll(old(model), other.model)
    {
      hide Packed, Merged, AllFit, HasType, WithAll, With, Shown, Texts;
      var iter := new AffixPatternIterator(other);
      ghost var m := other.model;
      var more := iter.NextToken();
      assert m[..0] == [];
      WithAllStart(model);
      while more
        invariant fresh(iter) && iter.pattern == other && iter.Valid() && Valid()
        invariant 1 <= iter.at <= |m| + 1 && (more <==> iter.at <= |m|)
        invariant model == WithAll(old(model), m[..iter.at - 1])
        invariant |literals| == old(|literals|) + |Texts(m[..iter.at - 1])|
        decreases |m| + 1 - iter.at
      {
        WithAllStep(old(model), m, iter.at - 1);
        TextsStep(m, iter.at - 1);
        TextsPrefix(m, iter.at);
        AddCurrent(iter);
        more := iter.NextToken();
      }
      assert m[..|m|] == m;
    }
  }

  /** The text a token contributes to the literals. */
  function Shown(t: Token): Text { if t.Literal? then t.text else [] }

  lemma WithAllStart(m: Tokens)
    ensures WithAll(m, []) == m && Texts([]) == []
  {
  }

  lemma WithAllStep(m: Tokens, more: Tokens, k: nat)
    requires k < |more|
    ensures WithAll(m, more[..k + 1]) == With(WithAll(m, more[..k]), more[k])
  {
    assert more[..k + 1][..k] == more[..k];
  }

  lemma EndingIsText(m: Tokens)
    ensures |Ending(m)| <= |Texts(m)|
  {
  }

  lemma WithLiteralIs(m: Tokens, added: Text)
    ensures WithLiteral(m, added) == Before(m) + [Literal(Ending(m) + added)]
  {
    assert [] + added == added;
  }

  /** Writing the new length over the old one gives the words of the longer literal. */
  lemma Repack(m: Tokens, added: Text, ws: seq<nat>)
    requires Merged(m) && AllFit(m) && |Texts(m)| + |added| < 0x8000_0000
    requires ws == Packed(Before(m)) + [(|Ending(m)| + |added|) % 256] + Extension((|Ending(m)| + |added|) / 256)
    ensures ws == Packed(WithLiteral(m, added)) && AllFit(WithLiteral(m, added)) && Merged(WithLiteral(m, added))
    ensures Texts(WithLiteral(m, added)) == Texts(m) + added
  {
    hide Packed, Texts, WithLiteral, Merged, Extension, Ending;
    var t := Literal(Ending(m) + added);
    WithLiteralIs(m, added);
    EndingIsText(m);
    PackedWith(Before(m), t);
    TextsWith(m, Literal(added));
    WithMerged(m, Literal(added));
  }

  /** The tokens without a count. */
  function OfType(k: nat): Token {
    if k == 1 then Percent else if k == 2 then PerMill else if k == 4 then Negative else Positive
  }

  lemma {:induction false} TextsPrefix(m: Tokens, k: nat)
    requires k <= |m|
    ensures Texts(m[..k]) <= Texts(m)
  {
    if k < |m| {
      TextsPrefix(m[..|m| - 1], k);
      assert m[..|m| - 1][..k] == m[..k];
    } else {
      assert m[..k] == m;
    }
  }

  lemma {:induction false} PackedPrefix(m: Tokens, k: nat)
    requires k <= |m|
    ensures Packed(m[..k]) <= Packed(m)
  {
    if k < |m| {
      PackedPrefix(m[..|m| - 1], k);
      assert m[..|m| - 1][..k] == m[..k];
    } else {
      assert m[..k] == m;
    }
  }

  lemma PackedStep(m: Tokens, at: nat)
    requires at < |m|
    ensures Packed(m[..at + 1]) == Packed(m[..at]) + Pack(m[at]) && Packed(m[..at + 1]) <= Packed(m)
  {
    assert m[..at + 1][..at] == m[..at];
    PackedPrefix(m, at + 1);
  }

  /** What lies ahead of the words of the first at tokens. */
  lemma Ahead(m: Tokens, at: nat)
    requires AllFit(m) && at < |m|
    ensures
      var p, w, ws := |Packed(m[..at])|, Pack(m[at]), Packed(m);
      && Packed(m[..at + 1]) == Packed(m[..at]) + w && Packed(m[..at + 1]) <= ws && w != []
      && p + |w| <= |ws| && ws[p..p + |w|] == w
      && (p + |w| < |ws| ==> !IsLong(ws[p + |w|]))
  {
    hide Pack, Packed, IsLong, Fits;
    PackedStep(m, at);
    FirstWord(m[at]);
    var p, w, ws := |Packed(m[..at])|, Pack(m[at]), Packed(m);
    assert ws[..p + |w|] == Packed(m[..at]) + w;
    if at + 1 < |m| {
      PackedStep(m, at + 1);
      FirstWord(m[at + 1]);
      assert ws[p + |w|] == Pack(m[at + 1])[0];
    } else {
      assert m[..at + 1] == m;
    }
  }

  lemma FirstWord(t: Token)
    requires Fits(t)
    ensures Pack(t) != [] && !IsLong(Pack(t)[0])
  {
    hide IsLong, TokenOf, Total;
    if t.Literal? {
      LiteralWords(t.text);
    } else {
      SymbolWords(t);
    }
  }

  /** The type byte of a token's first word tells literals from the rest. */
  lemma LiteralWord(t: Token)
    requires Fits(t) && Pack(t) != [] && TokenOf(Pack(t)[0]) == 0
    ensures t.Literal?
  {
    if !t.Literal? {
      SymbolWords(t);
    }
  }

  lemma SymbolWord(t: Token)
    requires Fits(t) && Pack(t) != [] && TokenOf(Pack(t)[0]) != 0
    ensures !t.Literal? && |Pack(t)| == 1
  {
    if t.Literal? {
      LiteralWords(t.text);
    } else {
      SymbolWords(t);
    }
  }

  /** The last word of a token has its type, and the count of a currency. */
  lemma LastWord(m: Tokens, at: nat)
    requires AllFit(m) && at < |m|
    ensures
      var n := |Packed(m[..at + 1])|;
      && 0 < n <= |Packed(m)| && TokenOf(Packed(m)[n - 1]) == Type(m[at])
      && (!m[at].Literal? ==> LengthOf(Packed(m)[n - 1]) == if m[at].Currency? then m[at].count else 1)
  {
    hide IsLong, TokenOf, LengthOf, Pack, Packed;
    Ahead(m, at);
    var w := Pack(m[at]);
    var n := |Packed(m[..at + 1])|;
    assert Packed(m)[n - 1] == w[|w| - 1];
    if m[at].Literal? {
      LiteralWords(m[at].text);
    } else {
      SymbolWords(m[at]);
    }
  }

  lemma TextsStep(m: Tokens, at: nat)
    requires at < |m|
    ensures Texts(m[..at + 1]) == Texts(m[..at]) + Shown(m[at])
  {
    assert m[..at + 1][..at] == m[..at];
  }

  lemma AllPassed(m: Tokens, at: nat)
    requires AllFit(m) && at <= |m|
    ensures |Packed(m[..at])| == |Packed(m)| <==> at == |m|
  {
    if at < |m| {
      Ahead(m, at);
    } else {
      assert m[..at] == m;
    }
  }

  // ----- the iterator -----

  class AffixPatternIterator {
    const pattern: AffixPattern
    var nextLiteralIndex: nat
    var lastLiteralLength: nat
    var nextTokenIndex: nat
    ghost var at: nat

    ghost function Passed(): nat
      reads this, pattern
    {
      if at <= |pattern.model| then at else |pattern.model|
    }

    /** The iterator has passed the first at tokens; at one past the end it has run out. */
    ghost predicate Valid()
      reads this, pattern
    {
      && pattern.Valid()
      && at <= |pattern.model| + 1
      && nextTokenIndex == |Packed(pattern.model[..Passed()])| && nextLiteralIndex == |Texts(pattern.model[..Passed()])|
      && (0 < at <= |pattern.model| && pattern.model[at - 1].Literal? ==>
          lastLiteralLength == |pattern.model[at - 1].text|)
    }

    constructor (pattern: AffixPattern)
      requires pattern.Valid()
      ensures this.pattern == pattern && Valid() && at == 0
    {
      this.pattern := pattern;
      nextLiteralIndex, lastLiteralLength, nextTokenIndex, at := 0, 0, 0, 0;
    }

    method NextToken() returns (more: bool)
      requires Valid()
      modifies this
      ensures Valid() && (more <==> old(at) < |pattern.model|)
      ensures at == if old(at) <= |pattern.model| then old(at) + 1 else old(at)
    {
      hide Packed, Pack, HasType, Merged, Texts, IsLong, TokenOf, LengthOf;
      ghost var m, ws := pattern.model, pattern.tokens;
      ghost var passed := if at <= |m| then at else |m|;
      AllPassed(m, passed);
      var tlen := |pattern.tokens|;
      if nextTokenIndex == tlen {
        at := |m| + 1;
        assert m[..|m|] == m[..passed];
        return false;
      }
      Ahead(m, at);
      ghost var w := Pack(m[at]);
      ghost var p := nextTokenIndex;
      assert m[..at + 1][..at] == m[..at];
      TextsStep(m, at);
      nextTokenIndex := nextTokenIndex + 1;
      if TokenOf(pattern.tokens[nextTokenIndex - 1]) == 0 {
        assert ws[p] == w[0];
        LiteralWord(m[at]);
        LiteralWords(m[at].text);
        ReadLiteral(p, w);
      } else {
        assert ws[p] == w[0];
        SymbolWord(m[at]);
      }
      at := at + 1;
      more := true;
    }

    /** Passes the words of a literal and adds up its length. */
    method ReadLiteral(ghost p: nat, ghost w: seq<nat>)
      requires w != [] && !IsLong(w[0]) && (forall i :: 0 < i < |w| ==> IsLong(w[i]))
      requires nextTokenIndex == p + 1 && p + |w| <= |pattern.tokens| && pattern.tokens[p..p + |w|] == w
      requires p + |w| < |pattern.tokens| ==> !IsLong(pattern.tokens[p + |w|])
      modifies this`nextTokenIndex, this`lastLiteralLength, this`nextLiteralIndex
      ensures nextTokenIndex == p + |w| && lastLiteralLength == Total(w)
      ensures nextLiteralIndex == old(nextLiteralIndex) + Total(w)
    {
      hide IsLong;
      ghost var ws := pattern.tokens;
      assert forall i :: 0 <= i < |w| ==> ws[p + i] == w[i];
      while nextTokenIndex < |pattern.tokens| && IsLong(pattern.tokens[nextTokenIndex])
        invariant p < nextTokenIndex <= p + |w| && nextLiteralIndex == old(nextLiteralIndex)
      {
        nextTokenIndex := nextTokenIndex + 1;
      }
      lastLiteralLength := ReadLength(p, w);
      nextLiteralIndex := nextLiteralIndex + lastLiteralLength;
    }

    /** The length in the words w that end before nextTokenIndex, read from the highest byte down. */
    method ReadLength(ghost p: nat, ghost w: seq<nat>) returns (length: nat)
      requires w != [] && !IsLong(w[0]) && (forall i :: 0 < i < |w| ==> IsLong(w[i]))
      requires nextTokenIndex == p + |w| <= |pattern.tokens| && pattern.tokens[p..p + |w|] == w
      ensures length == Total(w)
    {
      hide IsLong;
      length := 0;
      var i := nextTokenIndex - 1;
      assert w[i - p + 1..] == [];
      assert pattern.tokens[i] == w[i - p];
      while IsLong(pattern.tokens[i])
        invariant p <= i < p + |w| && pattern.tokens[i] == w[i - p]
        invariant length == Total(w[i - p + 1..])
        decreases i
      {
        assert i > p;
        assert w[i - p..][1..] == w[i - p + 1..];
        length := length * 256 + LengthOf(pattern.tokens[i]);
        i := i - 1;
        assert pattern.tokens[i] == w[i - p];
      }
      assert i == p;
      assert w[1..] == w[i - p + 1..];
      length := length * 256 + LengthOf(pattern.tokens[i]);
    }

    method GetTokenType() returns (k: nat)
      requires Valid() && 0 < at <= |pattern.model|
      ensures k == Type(pattern.model[at - 1])
    {
      hide Packed, Pack, HasType, Merged, Texts, IsLong, TokenOf, LengthOf;
      LastWord(pattern.model, at - 1);
      k := TokenOf(pattern.tokens[nextTokenIndex - 1]);
    }

    method GetLiteral() returns (text: Text)
      requires Valid() && 0 < at <= |pattern.model| && pattern.model[at - 1].Literal?
      ensures text == pattern.model[at - 1].text
    {
      hide Packed, Pack, HasType, Merged, Texts;
      TextsStep(pattern.model, at - 1);
      TextsPrefix(pattern.model, at);
      text := pattern.literals[nextLiteralIndex - lastLiteralLength..nextLiteralIndex];
    }

    method GetTokenLength() returns (n: nat)
      requires Valid() && 0 < at <= |pattern.model|
      ensures var t := pattern.model[at - 1];
        n == if t.Literal? then |t.text| else if t.Currency? then t.count else 1
    {
      hide Packed, Pack, HasType, Merged, Texts, IsLong, TokenOf, LengthOf;
      LastWord(pattern.model, at - 1);
      var w := pattern.tokens[nextTokenIndex - 1];
      n := if TokenOf(w) == 0 then lastLiteralLength else LengthOf(w);
    }
  }
}
