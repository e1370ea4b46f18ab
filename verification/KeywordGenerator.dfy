/**
 The generator's own loops (Source/JavaScriptCore/KeywordLookupGenerator.py, 97-182 and 214-219),
 each proved to compute the function of KeywordTrie or KeywordMatcher that the results are about.
 */
module KeywordGenerator {
  import opened KeywordMatcher
  import opened KeywordTrie
  import opened Options

  method InsertKey(t: Trie, key: Word, value: Token) returns (r: Trie)
    ensures r == Insert(t, key, value)
    decreases key
  {
    if |key| == 0 {
      return t.(value := Some(value));
    }
    var i := 0;
    while i < |t.keys| && t.keys[i].prefix != key[..1]
      invariant i <= |t.keys| && forall j :: 0 <= j < i ==> t.keys[j].prefix != key[..1]
    {
      i := i + 1;
    }
    assert i == IndexOf(t.keys, key[..1]);
    var keys := if i < |t.keys| then t.keys else t.keys + [Empty(key[..1])];
    var child := InsertKey(keys[i], key[1..], value);
    r := t.(keys := keys[i := child]);
  }

  method CoalesceTrie(t: Trie) returns (r: Trie)
    ensures r == Coalesce(t)
    decreases t
  {
    var u := CoalesceChildren(t);
    if u.value.Some? || |u.keys| != 1 {
      return u;
    }
    var suffix := u.keys[0];
    r := Empty(u.prefix + suffix.prefix).(value := suffix.value, keys := suffix.keys);
  }

  /** The part of coalesce that changes the node itself, all that counts at the root. */
  method CoalesceChildren(t: Trie) returns (r: Trie)
    ensures r == CoalesceKeys(t)
    decreases t, 0
  {
    var keys := [];
    for i := 0 to |t.keys|
      invariant |keys| == i && forall j :: 0 <= j < i ==> keys[j] == Coalesce(t.keys[j])
    {
      var c := CoalesceTrie(t.keys[i]);
      keys := keys + [c];
    }
    r := t.(keys := keys);
    assert r.keys == CoalesceKeys(t).keys;
  }

  method FillOutTrie(t: Trie, prefix: Word, weights: map<Word, real>) returns (r: Trie)
    ensures r == FillOut(t, prefix, weights)
    decreases t
  {
    hide SortByWeight;
    var full := prefix + t.prefix;
    var weight := SelfWeight(weights, full);
    var keys := [];
    ghost var filled := FillKeys(t, full, weights);
    for i := 0 to |t.keys|
      invariant keys == filled[..i]
      invariant weight == SelfWeight(weights, full) + TotalWeight(keys)
    {
      var c := FillOutTrie(t.keys[i], full, weights);
      assert (keys + [c])[..i] == keys;
      weight := weight + c.weight;
      keys := keys + [c];
    }
    assert keys == filled;
    r := t.(full := full, keys := SortByWeight(keys), weight := weight);
  }

  method PrintSubTree(t: Trie) returns (code: Code)
    requires Full(t)
    ensures code == Print(t)
    decreases t
  {
    var exit := if t.value.Some? then Some(Exit(t.full, t.value.value)) else None;
    var rootIndex := |t.full|;
    var itemCount, arms := 0, [];
    while itemCount < |t.keys|
      invariant itemCount == |arms| <= |t.keys| && arms == Print(t).arms[..itemCount]
    {
      var trie := t.keys[itemCount];
      var k, baseIndex := trie.prefix, rootIndex;
      if baseIndex > 0 && |k| == 3 {
        baseIndex := baseIndex - 1;
        k := [trie.full[baseIndex]] + k;
      }
      var body := PrintSubTree(trie);
      assert Print(t).arms[itemCount] == Arm(EdgeBase(t, trie), EdgeChars(t, trie), Print(trie));
      arms := arms + [Arm(baseIndex, k, body)];
      itemCount := itemCount + 1;
    }
    code := Code(exit, arms);
  }

  method LongestPrefix(t: Trie) returns (max: nat)
    ensures max == MaxLength(t)
    decreases t
  {
    max := |t.full|;
    for i := 0 to |t.keys|
      invariant max == MaxOver(t, i)
    {
      var l := LongestPrefix(t.keys[i]);
      if l > max {
        max := l;
      }
    }
  }

  /** The program: all comparisons printed stay below maxTokenLength, given edges the macros can compare. */
  method Generate(keywords: seq<(Word, Token)>, weights: map<Word, real>) returns (code: Code, maxTokenLength: nat)
    ensures code == Print(Compile(keywords, weights)) && maxTokenLength == MaxLength(Compile(keywords, weights)) + 1
    ensures Bounded(code, maxTokenLength - 1) <==> EdgesFit(Compile(keywords, weights))
  {
    hide FillOut, CoalesceKeys, Insert, Print, MaxLength, EdgesFit, Bounded, Full;
    var trie := Empty([]);
    for i := 0 to |keywords|
      invariant trie == Build(keywords[..i])
    {
      assert keywords[..i + 1][..i] == keywords[..i];
      trie := InsertKey(trie, keywords[i].0, keywords[i].1);
    }
    assert keywords[..|keywords|] == keywords;
    trie := CoalesceChildren(trie);
    trie := FillOutTrie(trie, [], weights);
    assert trie == Compile(keywords, weights);
    code := PrintSubTree(trie);
    var max := LongestPrefix(trie);
    maxTokenLength := max + 1;
    PrintBounded(trie, max);
  }
}
