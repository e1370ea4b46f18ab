/**
 The trie of the keyword matcher generator (Source/JavaScriptCore/KeywordLookupGenerator.py,
 97-140): keyword list, trie, coalesced trie, trie sorted by weight. Has says which strings a
 trie maps to which tokens, and each stage is proved to leave that alone.
 */
module KeywordTrie {
  import opened Options

  /** A code unit of the text. */
  type Unit = nat

  type Word = seq<Unit>

  type Token = string

  /** keys holds the values of the dictionary in its order; the key of each is its prefix. */
  datatype Trie = Trie(prefix: Word, value: Option<Token>, keys: seq<Trie>, full: Word, weight: real)

  function Empty(prefix: Word): Trie { Trie(prefix, None, [], [], 0.0) }

  // ----- what a trie means -----

  /** s leads from t to the token v. */
  ghost predicate Has(t: Trie, s: Word, v: Token)
    decreases t, 0
  {
    (s == [] && t.value == Some(v)) || exists i :: 0 <= i < |t.keys| && Below(t.keys[i], s, v)
  }

  /** s leads through the edge of c to the token v. */
  ghost predicate Below(c: Trie, s: Word, v: Token)
    decreases c, 1
  {
    c.prefix != [] && c.prefix <= s && Has(c, s[|c.prefix|..], v)
  }

  /** The edges that leave a node start with different units, here and below. */
  ghost predicate Branching(t: Trie)
    decreases t
  {
    && (forall i :: 0 <= i < |t.keys| ==> t.keys[i].prefix != [] && Branching(t.keys[i]))
    && forall i, j :: 0 <= i < j < |t.keys| && t.keys[i].prefix != [] && t.keys[j].prefix != [] ==>
        t.keys[i].prefix[0] != t.keys[j].prefix[0]
  }

  predicate Units(s: Word, size: nat) { forall i :: 0 <= i < |s| ==> s[i] < size }

  /** All units of the trie are below size. */
  ghost predicate Narrow(t: Trie, size: nat)
    decreases t
  {
    Units(t.prefix, size) && forall i :: 0 <= i < |t.keys| ==> Narrow(t.keys[i], size)
  }

  // ----- insert -----

  /** Every edge is one unit long, as insert makes them. */
  ghost predicate Single(t: Trie)
    decreases t
  {
    forall i :: 0 <= i < |t.keys| ==> |t.keys[i].prefix| == 1 && Single(t.keys[i])
  }

  function IndexOf(keys: seq<Trie>, c: Word): (i: nat)
    ensures i <= |keys| && (i < |keys| ==> keys[i].prefix == c)
    ensures forall j :: 0 <= j < i ==> keys[j].prefix != c
  {
    if keys == [] then 0
    else if keys[0].prefix == c then 0
    else IndexOf(keys[1..], c) + 1
  }

  function Insert(t: Trie, key: Word, v: Token): (r: Trie)
    ensures r.prefix == t.prefix
    decreases key
  {
    if key == [] then t.(value := Some(v))
    else
      var i := IndexOf(t.keys, key[..1]);
      if i < |t.keys| then t.(keys := t.keys[i := Insert(t.keys[i], key[1..], v)])
      else t.(keys := t.keys + [Insert(Empty(key[..1]), key[1..], v)])
  }

  lemma {:induction false} InsertShape(t: Trie, key: Word, v: Token)
    requires Single(t) && Branching(t)
    ensures Single(Insert(t, key, v)) && Branching(Insert(t, key, v))
    decreases key
  {
    if key != [] {
      var i := IndexOf(t.keys, key[..1]);
      if i < |t.keys| {
        InsertShape(t.keys[i], key[1..], v);
      } else {
        InsertShape(Empty(key[..1]), key[1..], v);
      }
    }
  }

  lemma {:induction false} InsertNarrow(t: Trie, key: Word, v: Token, size: nat)
    requires Narrow(t, size) && Units(key, size)
    ensures Narrow(Insert(t, key, v), size)
    decreases key
  {
    if key != [] {
      var i := IndexOf(t.keys, key[..1]);
      InsertNarrow(if i < |t.keys| then t.keys[i] else Empty(key[..1]), key[1..], v, size);
    }
  }

  /** Insert changes the meaning of one string only. */
  lemma {:induction false} InsertMeaning(t: Trie, key: Word, v: Token, s: Word, u: Token)
    requires Single(t) && Branching(t)
    ensures Has(Insert(t, key, v), s, u) <==> if s == key then u == v else Has(t, s, u)
    decreases key
  {
    if key == [] {
      if s == [] {
        NothingBelowEmpty(t, u);
        NothingBelowEmpty(Insert(t, key, v), u);
      }
    } else {
      var i := IndexOf(t.keys, key[..1]);
      var r := Insert(t, key, v);
      if s == [] {
        NothingBelowEmpty(t, u);
        NothingBelowEmpty(r, u);
      } else if s[0] == key[0] {
        assert s == key <==> s[1..] == key[1..];
        var c := if i < |t.keys| then t.keys[i] else Empty(key[..1]);
        assert i == |t.keys| ==> !Has(c, s[1..], u);
        InsertMeaning(c, key[1..], v, s[1..], u);
        InsertShape(t, key, v);
        OnlyBelow(r, s, u, i);
        if i < |t.keys| {
          OnlyBelow(t, s, u, i);
        } else {
          NothingBelow(t, s, u);
        }
      } else {
        assert forall j :: 0 <= j < |t.keys| && j != i ==> r.keys[j] == t.keys[j];
        assert !Below(r.keys[i], s, u);
        assert i < |t.keys| ==> !Below(t.keys[i], s, u);
        if Has(t, s, u) {
          var j :| 0 <= j < |t.keys| && Below(t.keys[j], s, u);
          assert Below(r.keys[j], s, u);
        }
      }
    }
  }

  lemma NothingBelowEmpty(t: Trie, u: Token)
    ensures Has(t, [], u) <==> t.value == Some(u)
  {
  }

  /** Only the edge that starts with the first unit of s counts. */
  lemma OnlyBelow(t: Trie, s: Word, u: Token, i: nat)
    requires Branching(t) && i < |t.keys| && s != [] && t.keys[i].prefix[0] == s[0]
    ensures Has(t, s, u) <==> Below(t.keys[i], s, u)
  {
    if Has(t, s, u) {
      var j :| 0 <= j < |t.keys| && Below(t.keys[j], s, u);
      assert t.keys[j].prefix[0] == s[0];
      assert j == i;
    }
  }

  lemma NothingBelow(t: Trie, s: Word, u: Token)
    requires s != [] && forall i :: 0 <= i < |t.keys| ==> t.keys[i].prefix == [] || t.keys[i].prefix[0] != s[0]
    ensures !Has(t, s, u)
  {
  }

  /** The token a keyword list gives a string; the last entry counts. */
  function Assoc(keywords: seq<(Word, Token)>, s: Word): Option<Token> {
    if keywords == [] then None
    else if keywords[|keywords| - 1].0 == s then Some(keywords[|keywords| - 1].1)
    else Assoc(keywords[..|keywords| - 1], s)
  }

  function Build(keywords: seq<(Word, Token)>): Trie {
    if keywords == [] then Empty([])
    else Insert(Build(keywords[..|keywords| - 1]), keywords[|keywords| - 1].0, keywords[|keywords| - 1].1)
  }

  lemma {:induction false} BuildShape(keywords: seq<(Word, Token)>)
    ensures Single(Build(keywords)) && Branching(Build(keywords)) && Build(keywords).prefix == []
  {
    hide Insert;
    if keywords != [] {
      BuildShape(keywords[..|keywords| - 1]);
      InsertShape(Build(keywords[..|keywords| - 1]), keywords[|keywords| - 1].0, keywords[|keywords| - 1].1);
    }
  }

  lemma {:induction false} BuildNarrow(keywords: seq<(Word, Token)>, size: nat)
    requires forall i :: 0 <= i < |keywords| ==> Units(keywords[i].0, size)
    ensures Narrow(Build(keywords), size)
  {
    hide Insert;
    if keywords != [] {
      BuildNarrow(keywords[..|keywords| - 1], size);
      InsertNarrow(Build(keywords[..|keywords| - 1]), keywords[|keywords| - 1].0, keywords[|keywords| - 1].1, size);
    }
  }

  /** The trie built from a list is the map that the list describes. */
  lemma {:induction false} BuildMeaning(keywords: seq<(Word, Token)>, s: Word, v: Token)
    ensures Has(Build(keywords), s, v) <==> Assoc(keywords, s) == Some(v)
  {
    hide Insert;
    if keywords != [] {
      var less := keywords[..|keywords| - 1];
      BuildMeaning(less, s, v);
      BuildShape(less);
      InsertMeaning(Build(less), keywords[|keywords| - 1].0, keywords[|keywords| - 1].1, s, v);
    }
  }

  // ----- coalesce -----

  /** The dictionary with every entry coalesced. */
  function CoalesceKeys(t: Trie): (r: Trie)
    ensures r == t.(keys := r.keys) && |r.keys| == |t.keys|
    decreases t, 0
  {
    t.(keys := seq(|t.keys|, i requires 0 <= i < |t.keys| => Coalesce(t.keys[i])))
  }

  /** A node without a value and with one edge is joined with that edge. */
  function Coalesce(t: Trie): (r: Trie)
    ensures t.prefix <= r.prefix
    decreases t, 1
  {
    var u := CoalesceKeys(t);
    if u.value.Some? || |u.keys| != 1 then u
    else Empty(u.prefix + u.keys[0].prefix).(value := u.keys[0].value, keys := u.keys[0].keys)
  }

  lemma {:induction false} CoalesceShape(t: Trie)
    requires Branching(t)
    ensures Branching(CoalesceKeys(t)) && Branching(Coalesce(t))
    decreases t
  {
    var u := CoalesceKeys(t);
    forall i | 0 <= i < |t.keys|
      ensures Branching(u.keys[i]) && u.keys[i].prefix != [] && u.keys[i].prefix[0] == t.keys[i].prefix[0]
    {
      CoalesceShape(t.keys[i]);
    }
  }

  lemma {:induction false} CoalesceNarrow(t: Trie, size: nat)
    requires Narrow(t, size)
    ensures Narrow(CoalesceKeys(t), size) && Narrow(Coalesce(t), size)
    decreases t
  {
    forall i | 0 <= i < |t.keys| ensures Narrow(CoalesceKeys(t).keys[i], size) {
      CoalesceNarrow(t.keys[i], size);
    }
  }

  /** Coalescing changes no string's meaning. */
  lemma {:induction false} CoalesceMeaning(t: Trie, s: Word, v: Token)
    requires Branching(t)
    ensures Has(CoalesceKeys(t), s, v) <==> Has(t, s, v)
    ensures t.prefix != [] ==> (Below(Coalesce(t), s, v) <==> Below(t, s, v))
    decreases t, 1
  {
    HasCoalescedKeys(t, s, v);
    if t.prefix != [] && t.prefix <= s {
      var rest := s[|t.prefix|..];
      HasCoalescedKeys(t, rest, v);
      var u := CoalesceKeys(t);
      if u.value.None? && |u.keys| == 1 {
        CoalesceShape(t);
        JoinMeaning(u, Coalesce(t), s, v);
      }
    }
  }

  /** Joining a node with its only edge. */
  lemma JoinMeaning(u: Trie, r: Trie, s: Word, v: Token)
    requires u.value.None? && |u.keys| == 1 && u.prefix != [] && u.keys[0].prefix != [] && u.prefix <= s
    requires r.prefix == u.prefix + u.keys[0].prefix && r.value == u.keys[0].value && r.keys == u.keys[0].keys
    ensures Below(r, s, v) <==> Below(u, s, v)
  {
    var c, rest := u.keys[0], s[|u.prefix|..];
    assert Has(u, rest, v) <==> Below(c, rest, v);
    assert s == u.prefix + rest;
    if c.prefix <= rest {
      assert s == (u.prefix + c.prefix) + rest[|c.prefix|..];
      assert s[|r.prefix|..] == rest[|c.prefix|..];
    }
    if r.prefix <= s {
      assert rest[..|c.prefix|] == s[..|r.prefix|][|u.prefix|..] == c.prefix;
    }
    assert forall w :: Has(r, w, v) <==> Has(c, w, v);
  }

  lemma HasCoalescedKeys(t: Trie, s: Word, v: Token)
    requires Branching(t)
    ensures Has(CoalesceKeys(t), s, v) <==> Has(t, s, v)
    decreases t, 0
  {
    var u := CoalesceKeys(t);
    forall i | 0 <= i < |t.keys| ensures Below(u.keys[i], s, v) <==> Below(t.keys[i], s, v) {
      CoalesceMeaning(t.keys[i], s, v);
    }
  }

  // ----- fillOut -----

  /** sorted(keys, by weight, reverse): heavier first, equals in the order given. */
  function SortByWeight(keys: seq<Trie>): (r: seq<Trie>)
    ensures |r| == |keys|
  {
    if keys == [] then [] else Place(keys[|keys| - 1], SortByWeight(keys[..|keys| - 1]))
  }

  function Place(t: Trie, sorted: seq<Trie>): (r: seq<Trie>)
    ensures |r| == |sorted| + 1
    ensures forall u :: u in r <==> u == t || u in sorted
  {
    if sorted == [] then [t]
    else if sorted[|sorted| - 1].weight >= t.weight then sorted + [t]
    else Place(t, sorted[..|sorted| - 1]) + [sorted[|sorted| - 1]]
  }

  ghost predicate Heaviest(keys: seq<Trie>) { forall i, j :: 0 <= i < j < |keys| ==> keys[i].weight >= keys[j].weight }

  lemma {:induction false} SortSorts(keys: seq<Trie>)
    ensures Heaviest(SortByWeight(keys)) && forall u :: u in SortByWeight(keys) <==> u in keys
  {
    if keys != [] {
      SortSorts(keys[..|keys| - 1]);
      PlaceSorted(keys[|keys| - 1], SortByWeight(keys[..|keys| - 1]));
      assert keys == keys[..|keys| - 1] + [keys[|keys| - 1]];
    }
  }

  lemma {:induction false} PlaceSorted(t: Trie, sorted: seq<Trie>)
    requires Heaviest(sorted)
    ensures Heaviest(Place(t, sorted))
  {
    if sorted != [] && sorted[|sorted| - 1].weight < t.weight {
      var less, last := sorted[..|sorted| - 1], sorted[|sorted| - 1];
      PlaceSorted(t, less);
      forall u | u in Place(t, less) ensures u.weight >= last.weight {
        if u != t {
          var k :| 0 <= k < |less| && less[k] == u;
          assert sorted[k] == u;
        }
      }
    }
  }

  /** The first units of the edges are all different. */
  ghost predicate Apart(keys: seq<Trie>) {
    && (forall i :: 0 <= i < |keys| ==> keys[i].prefix != [])
    && forall i, j :: 0 <= i < j < |keys| ==> keys[i].prefix[0] != keys[j].prefix[0]
  }

  lemma {:induction false} PlaceApart(t: Trie, sorted: seq<Trie>)
    requires Apart(sorted) && t.prefix != [] && forall i :: 0 <= i < |sorted| ==> sorted[i].prefix[0] != t.prefix[0]
    ensures Apart(Place(t, sorted))
  {
    if sorted != [] && sorted[|sorted| - 1].weight < t.weight {
      var less, last := sorted[..|sorted| - 1], sorted[|sorted| - 1];
      PlaceApart(t, less);
      forall u | u in Place(t, less) ensures u.prefix != [] && u.prefix[0] != last.prefix[0] {
        if u != t {
          var k :| 0 <= k < |less| && less[k] == u;
          assert sorted[k] == u;
        }
      }
    }
  }

  lemma {:induction false} SortApart(keys: seq<Trie>)
    requires Apart(keys)
    ensures Apart(SortByWeight(keys))
  {
    if keys != [] {
      var less := keys[..|keys| - 1];
      SortApart(less);
      SortSorts(less);
      forall i | 0 <= i < |less| ensures SortByWeight(less)[i].prefix[0] != keys[|keys| - 1].prefix[0] {
        assert SortByWeight(less)[i] in less;
      }
      PlaceApart(keys[|keys| - 1], SortByWeight(less));
    }
  }

  function TotalWeight(keys: seq<Trie>): real {
    if keys == [] then 0.0 else TotalWeight(keys[..|keys| - 1]) + keys[|keys| - 1].weight
  }

  function SelfWeight(weights: map<Word, real>, full: Word): real {
    if full in weights then weights[full] else 0.0
  }

  /** The children filled out, in dictionary order. */
  function FillKeys(t: Trie, full: Word, weights: map<Word, real>): (r: seq<Trie>)
    ensures |r| == |t.keys|
    decreases t, 0
  {
    seq(|t.keys|, i requires 0 <= i < |t.keys| => FillOut(t.keys[i], full, weights))
  }

  function FillOut(t: Trie, prefix: Word, weights: map<Word, real>): (r: Trie)
    ensures r.prefix == t.prefix && r.value == t.value && r.full == prefix + t.prefix
    decreases t, 1
  {
    var full := prefix + t.prefix;
    var keys := FillKeys(t, full, weights);
    t.(full := full, keys := SortByWeight(keys), weight := SelfWeight(weights, full) + TotalWeight(keys))
  }

  /** The full prefix of every node is the path to it. */
  ghost predicate Full(t: Trie)
    decreases t
  {
    forall i :: 0 <= i < |t.keys| ==> t.keys[i].full == t.full + t.keys[i].prefix && Full(t.keys[i])
  }

  lemma {:induction false} FillShape(t: Trie, prefix: Word, weights: map<Word, real>)
    requires Branching(t)
    ensures Branching(FillOut(t, prefix, weights)) && Full(FillOut(t, prefix, weights))
    ensures Heaviest(FillOut(t, prefix, weights).keys)
    decreases t
  {
    var r := FillOut(t, prefix, weights);
    var keys := FillKeys(t, prefix + t.prefix, weights);
    SortSorts(keys);
    SortApart(keys);
    forall u | u in r.keys ensures Branching(u) && Full(u) && u.full == r.full + u.prefix {
      var i :| 0 <= i < |keys| && keys[i] == u;
      FillShape(t.keys[i], r.full, weights);
    }
    forall i | 0 <= i < |r.keys|
      ensures Branching(r.keys[i]) && Full(r.keys[i]) && r.keys[i].full == r.full + r.keys[i].prefix
    {
      assert r.keys[i] in r.keys;
    }
  }

  lemma {:induction false} FillNarrow(t: Trie, prefix: Word, weights: map<Word, real>, size: nat)
    requires Narrow(t, size)
    ensures Narrow(FillOut(t, prefix, weights), size)
    decreases t
  {
    var r := FillOut(t, prefix, weights);
    var keys := FillKeys(t, prefix + t.prefix, weights);
    SortSorts(keys);
    forall k | 0 <= k < |r.keys| ensures Narrow(r.keys[k], size) {
      assert r.keys[k] in keys;
      var i :| 0 <= i < |keys| && keys[i] == r.keys[k];
      FillNarrow(t.keys[i], r.full, weights, size);
    }
  }

  /** Whatever the weights, filling out changes no string's meaning. */
  lemma {:induction false} FillMeaning(t: Trie, prefix: Word, weights: map<Word, real>, s: Word, v: Token)
    ensures Has(FillOut(t, prefix, weights), s, v) <==> Has(t, s, v)
    decreases t
  {
    var r := FillOut(t, prefix, weights);
    var keys := FillKeys(t, prefix + t.prefix, weights);
    SortSorts(keys);
    forall i | 0 <= i < |keys| ensures Below(keys[i], s, v) <==> Below(t.keys[i], s, v) {
      if t.keys[i].prefix != [] && t.keys[i].prefix <= s {
        FillMeaning(t.keys[i], r.full, weights, s[|t.keys[i].prefix|..], v);
      }
    }
    if i :| 0 <= i < |r.keys| && Below(r.keys[i], s, v) {
      assert r.keys[i] in keys;
    }
    if i :| 0 <= i < |keys| && Below(keys[i], s, v) {
      assert keys[i] in r.keys;
    }
  }
}
