/**
 Script runs over a text that is edited while they are visited (Source/icu/anytrans.cpp, 55-172 and
 230-272). The script of the character at an index and the transliterators are parameters.
 */
module ScriptRuns {
  import opened Options

  type Char = nat

  type Script = int

  const INVALID: Script := -1
  const COMMON: Script := 0
  const INHERITED: Script := 1

  /** char32At followed by uscript_getScript. */
  type Scripts = f: (seq<Char>, int) -> Script | forall s, i :: f(s, i) >= 0 witness (s, i) => 0

  predicate Shared(script: Scripts, chars: seq<Char>, i: int) {
    script(chars, i) == COMMON || script(chars, i) == INHERITED
  }

  // ----- what a run is -----

  datatype Run = Run(start: int, from: int, limit: int, script: Script)

  /** The units from lo to hi are shared or of the one script. */
  predicate OneScript(script: Scripts, chars: seq<Char>, lo: int, hi: int, code: Script) {
    forall i :: lo <= i < hi ==> Shared(script, chars, i) || script(chars, i) == code
  }

  predicate AllShared(script: Scripts, chars: seq<Char>, lo: int, hi: int) {
    forall i :: lo <= i < hi ==> Shared(script, chars, i)
  }

  /**
   The run that goes on from index from: behind it as many shared characters as there are, ahead
   of it all that is shared or of one script, which is INVALID when there is none.
   */
  ghost predicate IsRun(script: Scripts, chars: seq<Char>, lo: int, hi: int, r: Run) {
    && lo <= r.start <= r.from < r.limit <= hi
    && AllShared(script, chars, r.start, r.from) && (r.start > lo ==> !Shared(script, chars, r.start - 1))
    && OneScript(script, chars, r.from, r.limit, r.script)
    && (r.limit < hi ==> !Shared(script, chars, r.limit) && script(chars, r.limit) != r.script && r.script != INVALID)
    && (r.script == INVALID <==> AllShared(script, chars, r.from, r.limit))
    && (r.script != INVALID ==> r.script != COMMON && r.script != INHERITED)
  }

  /** Runs follow one another from lo to hi. */
  ghost predicate Tiled(script: Scripts, chars: seq<Char>, lo: int, hi: int, runs: seq<Run>) {
    && (forall k :: 0 <= k < |runs| ==> IsRun(script, chars, lo, hi, runs[k]))
    && (forall k :: 0 <= k < |runs| ==> runs[k].from == EndBefore(lo, runs, k))
  }

  /** Where the runs before number k end. */
  function EndBefore(lo: int, runs: seq<Run>, k: nat): int
    requires k <= |runs|
  {
    if k == 0 then lo else runs[k - 1].limit
  }

  /** Two neighbours overlap in exactly the shared characters before the later one's own. */
  lemma Overlap(script: Scripts, chars: seq<Char>, lo: int, hi: int, a: Run, b: Run)
    requires IsRun(script, chars, lo, hi, a) && IsRun(script, chars, lo, hi, b) && b.from == a.limit
    ensures a.limit < b.limit && a.start < b.start && b.script != a.script && b.script == script(chars, a.limit)
    ensures forall i :: a.start <= i < a.limit ==> (i >= b.start <==> AllShared(script, chars, i, a.limit))
  {
    assert !AllShared(script, chars, b.from, b.limit) by { assert !Shared(script, chars, b.from); }
    assert !AllShared(script, chars, a.from, a.limit);
    var n :| a.from <= n < a.limit && !Shared(script, chars, n);
    assert b.start > n;
    forall i | a.start <= i < a.limit ensures i >= b.start <==> AllShared(script, chars, i, a.limit) {
      if i < b.start {
        assert !Shared(script, chars, b.start - 1);
      }
    }
  }

  /** A run covers exactly one script besides the shared characters; INVALID means the whole text is shared. */
  lemma InvalidIsAllShared(script: Scripts, chars: seq<Char>, lo: int, hi: int, runs: seq<Run>, k: nat)
    requires Tiled(script, chars, lo, hi, runs) && k < |runs|
    ensures OneScript(script, chars, runs[k].start, runs[k].limit, runs[k].script)
    ensures runs[k].script == INVALID ==> k == 0 && |runs| == 1 && AllShared(script, chars, lo, hi)
  {
    var r := runs[k];
    assert IsRun(script, chars, lo, hi, r);
    if k + 1 < |runs| {
      assert IsRun(script, chars, lo, hi, runs[k + 1]);
    }
    if k > 0 {
      assert IsRun(script, chars, lo, hi, runs[k - 1]);
      Overlap(script, chars, lo, hi, runs[k - 1], r);
    } else {
      assert r.from == lo;
    }
  }

  // ----- the next run -----

  /** The start of the shared characters before i. */
  function BackFrom(script: Scripts, chars: seq<Char>, lo: int, i: int): int
    decreases i - lo
  {
    if i > lo && Shared(script, chars, i - 1) then BackFrom(script, chars, lo, i - 1) else i
  }

  /** How far characters of one script go from i on, given the script so far, and which script it is. */
  function AheadFrom(script: Scripts, chars: seq<Char>, hi: int, i: int, code: Script): (int, Script)
    decreases hi - i
  {
    if i >= hi then (i, code)
    else if Shared(script, chars, i) then AheadFrom(script, chars, hi, i + 1, code)
    else if code == INVALID || code == script(chars, i) then AheadFrom(script, chars, hi, i + 1, script(chars, i))
    else (i, code)
  }

  function RunFrom(script: Scripts, chars: seq<Char>, lo: int, hi: int, from: int): Run {
    var (limit, code) := AheadFrom(script, chars, hi, from, INVALID);
    Run(BackFrom(script, chars, lo, from), from, limit, code)
  }

  lemma {:induction false} BackIs(script: Scripts, chars: seq<Char>, lo: int, i: int)
    requires lo <= i
    ensures
      var b := BackFrom(script, chars, lo, i);
      lo <= b <= i && AllShared(script, chars, b, i) && (b > lo ==> !Shared(script, chars, b - 1))
    decreases i - lo
  {
    if i > lo && Shared(script, chars, i - 1) {
      BackIs(script, chars, lo, i - 1);
    }
  }

  lemma {:induction false} AheadIs(script: Scripts, chars: seq<Char>, hi: int, i: int, code: Script)
    requires i <= hi && (code != INVALID ==> code != COMMON && code != INHERITED && code >= 0)
    ensures
      var (n, c) := AheadFrom(script, chars, hi, i, code);
      && i <= n <= hi && OneScript(script, chars, i, n, c) && (code != INVALID ==> c == code)
      && (n < hi ==> !Shared(script, chars, n) && script(chars, n) != c && c != INVALID)
      && (c == INVALID <==> code == INVALID && AllShared(script, chars, i, n))
      && (c != INVALID ==> c != COMMON && c != INHERITED)
      && (i < hi && (Shared(script, chars, i) || code == INVALID) ==> i < n)
    decreases hi - i
  {
    if i < hi {
      if Shared(script, chars, i) {
        AheadIs(script, chars, hi, i + 1, code);
      } else if code == INVALID || code == script(chars, i) {
        AheadIs(script, chars, hi, i + 1, script(chars, i));
        assert !Shared(script, chars, i);
      }
    }
  }

  lemma RunFromIsRun(script: Scripts, chars: seq<Char>, lo: int, hi: int, from: int)
    requires lo <= from < hi
    ensures IsRun(script, chars, lo, hi, RunFrom(script, chars, lo, hi, from))
  {
    BackIs(script, chars, lo, from);
    AheadIs(script, chars, hi, from, INVALID);
  }

  // ----- the iterator -----

  class Text {
    var chars: seq<Char>

    constructor (chars: seq<Char>)
      ensures this.chars == chars
    {
      this.chars := chars;
    }
  }

  class ScriptRunIterator {
    const text: Text
    const script: Scripts
    const textStart: int
    var textLimit: int
    var scriptCode: Script
    var start: int
    var limit: int

    ghost predicate Valid()
      reads this, text
    {
      0 <= textStart <= limit <= textLimit <= |text.chars|
    }

    ghost function Current(from: int): Run
      reads this
    {
      Run(start, from, limit, scriptCode)
    }

    constructor (text: Text, script: Scripts, start: int, limit: int)
      requires 0 <= start <= limit <= |text.chars|
      ensures Valid() && this.text == text && this.script == script && textStart == start && textLimit == limit
      ensures this.limit == start
    {
      this.text, this.script := text, script;
      textStart, textLimit, this.limit := start, limit, start;
      scriptCode, this.start := INVALID, start;
    }

    /** Goes on to the next run; there is none when the end has been reached. */
    method Next() returns (more: bool)
      requires Valid()
      modifies this
      ensures Valid() && textLimit == old(textLimit)
      ensures more <==> old(limit) < textLimit
      ensures !more ==> limit == old(limit)
      ensures more ==> textStart <= start <= old(limit) < limit
      ensures more ==> Current(old(limit)) == RunFrom(script, text.chars, textStart, textLimit, old(limit))
    {
      hide AheadFrom, BackFrom;
      ghost var from := limit;
      scriptCode := INVALID;
      start := limit;
      if start == textLimit {
        return false;
      }
      RunFromIsRun(script, text.chars, textStart, textLimit, from);
      MoveBack();
      MoveAhead();
      more := true;
    }

    /** Moves start back over shared characters. */
    method MoveBack()
      requires Valid() && textStart <= start <= limit
      modifies this`start
      ensures start == BackFrom(script, text.chars, textStart, old(start))
    {
      ghost var back := BackFrom(script, text.chars, textStart, start);
      while start > textStart
        invariant textStart <= start && BackFrom(script, text.chars, textStart, start) == back
        decreases start
      {
        var s := script(text.chars, start - 1);
        if s == COMMON || s == INHERITED {
          start := start - 1;
        } else {
          break;
        }
      }
    }

    /** Moves limit ahead over shared characters and those of one script. */
    method MoveAhead()
      requires Valid() && scriptCode == INVALID
      modifies this`limit, this`scriptCode
      ensures (limit, scriptCode) == AheadFrom(script, text.chars, textLimit, old(limit), INVALID)
    {
      ghost var ahead := AheadFrom(script, text.chars, textLimit, limit, INVALID);
      while limit < textLimit
        invariant limit <= textLimit && AheadFrom(script, text.chars, textLimit, limit, scriptCode) == ahead
        decreases textLimit - limit
      {
        var s := script(text.chars, limit);
        if s != COMMON && s != INHERITED {
          if scriptCode == INVALID {
            scriptCode := s;
          } else if s != scriptCode {
            break;
          }
        }
        limit := limit + 1;
      }
    }

    method AdjustLimit(delta: int)
      requires textStart <= limit + delta && textLimit + delta <= |text.chars|
      requires limit <= textLimit && 0 <= textStart
      modifies this`limit, this`textLimit
      ensures Valid() && limit == old(limit) + delta && textLimit == old(textLimit) + delta
    {
      limit := limit + delta;
      textLimit := textLimit + delta;
    }
  }

  /** The first call of next finds no run in an empty text. */
  method NoRunInEmptyText(script: Scripts) returns (more: bool)
    ensures !more
  {
    var text := new Text([]);
    var it := new ScriptRunIterator(text, script, 0, 0);
    more := it.Next();
  }

  lemma TiledNone(script: Scripts, chars: seq<Char>, lo: int, hi: int)
    ensures Tiled(script, chars, lo, hi, [])
  {
  }

  lemma TiledSnoc(script: Scripts, chars: seq<Char>, lo: int, hi: int, runs: seq<Run>, r: Run)
    requires Tiled(script, chars, lo, hi, runs) && IsRun(script, chars, lo, hi, r)
    requires r.from == EndBefore(lo, runs, |runs|)
    ensures Tiled(script, chars, lo, hi, runs + [r])
  {
    hide IsRun;
    forall k | 0 <= k < |runs + [r]|
      ensures IsRun(script, chars, lo, hi, (runs + [r])[k]) && (runs + [r])[k].from == EndBefore(lo, runs + [r], k)
    {
      if k < |runs| {
        assert (runs + [r])[k] == runs[k];
      }
    }
  }

  /** All runs of a text. */
  method AllRuns(text: Text, script: Scripts, lo: int, hi: int) returns (runs: seq<Run>)
    requires 0 <= lo <= hi <= |text.chars|
    ensures Tiled(script, text.chars, lo, hi, runs)
    ensures if lo == hi then runs == [] else runs != [] && runs[|runs| - 1].limit == hi
  {
    hide IsRun, Tiled, RunFrom;
    var it := new ScriptRunIterator(text, script, lo, hi);
    runs := [];
    TiledNone(script, text.chars, lo, hi);
    var from := it.limit;
    var more := it.Next();
    while more
      invariant fresh(it) && it.Valid() && it.text == text && it.script == script && it.textStart == lo
      invariant it.textLimit == hi
      invariant Tiled(script, text.chars, lo, hi, runs) && from == EndBefore(lo, runs, |runs|)
      invariant runs != [] ==> lo < hi
      invariant more ==> from < it.limit && it.Current(from) == RunFrom(script, text.chars, lo, hi, from)
      invariant lo <= from <= hi
      invariant !more ==> from == hi
      decreases hi - from
    {
      RunFromIsRun(script, text.chars, lo, hi, from);
      TiledSnoc(script, text.chars, lo, hi, runs, it.Current(from));
      runs := runs + [Run(it.start, from, it.limit, it.scriptCode)];
      from := it.limit;
      more := it.Next();
    }
  }

  // ----- transliterating run by run -----

  class Position {
    var contextStart: int
    var contextLimit: int
    var start: int
    var limit: int

    constructor (contextStart: int, contextLimit: int, start: int, limit: int)
      ensures this.contextStart == contextStart && this.contextLimit == contextLimit && this.start == start
      ensures this.limit == limit
    {
      this.contextStart, this.contextLimit, this.start, this.limit := contextStart, contextLimit, start, limit;
    }
  }

  /** What a transliterator puts in place of its window, and how far into that it has come. */
  datatype Edit = Edit(chars: seq<Char>, done: nat)

  /** Reads the whole text and edits the window from start to limit. */
  type Transliterator = f: (seq<Char>, int, int, bool) -> Edit |
    forall s, i, j, inc :: f(s, i, j, inc).done <= |f(s, i, j, inc).chars|
    witness (s, i, j, inc) => Edit([], 0)

  /** getTransliterator: the one for a script, if there is any. */
  type Transliterators = Script -> Option<Transliterator>

  function Replaced(chars: seq<Char>, from: int, to: int, inserted: seq<Char>): (r: seq<Char>)
    requires 0 <= from <= to <= |chars|
    ensures |r| == |chars| - (to - from) + |inserted|
  {
    chars[..from] + inserted + chars[to..]
  }

  /** now is before with the part from start on, as long as it was up to limit, replaced. */
  ghost predicate EditedBetween(before: seq<Char>, now: seq<Char>, start: int, limit: int) {
    && 0 <= start <= limit <= |before| && limit + |now| - |before| >= start
    && now[..start] == before[..start] && now[limit + |now| - |before|..] == before[limit..]
  }

  /** filteredTransliterate: the limits of the window and of the context move with the text behind them. */
  method Transliterate(text: Text, pos: Position, edit: Edit)
    requires 0 <= pos.start <= pos.limit <= |text.chars| && edit.done <= |edit.chars|
    modifies text, pos`start, pos`limit, pos`contextLimit
    ensures text.chars == Replaced(old(text.chars), old(pos.start), old(pos.limit), edit.chars)
    ensures pos.limit == old(pos.start) + |edit.chars| && pos.start == old(pos.start) + edit.done
    ensures pos.contextLimit - pos.limit == old(pos.contextLimit - pos.limit)
  {
    text.chars := Replaced(text.chars, pos.start, pos.limit, edit.chars);
    pos.contextLimit := pos.contextLimit + |edit.chars| - (pos.limit - pos.start);
    pos.start, pos.limit := pos.start + edit.done, pos.start + |edit.chars|;
  }

  /**
   The state between two runs: the text, the ends of the context and of the part to be transliterated, the next run
   and pos.start.
   */
  datatype Progress = Progress(chars: seq<Char>, hi: int, limit: int, from: int, start: int)

  predicate InBounds(lo: int, allStart: int, g: Progress) {
    0 <= lo <= g.from <= g.hi <= |g.chars| && lo <= allStart <= g.limit <= g.hi
  }

  /** How a run is left: the loop goes on, it ends, or a window was handed on that ends before it starts. */
  datatype Visit = GoOn(g: Progress) | Done(g: Progress) | Inverted(start: int, limit: int)

  predicate Within(lo: int, g: Progress, run: Run) {
    lo <= run.start <= run.from == g.from < run.limit <= g.hi
  }

  lemma RunWithin(script: Scripts, lo: int, g: Progress)
    requires lo <= g.from < g.hi
    ensures Within(lo, g, RunFrom(script, g.chars, lo, g.hi, g.from))
  {
    RunFromIsRun(script, g.chars, lo, g.hi, g.from);
  }

  /** What is done about the next run. */
  function Visited(script: Scripts, trans: Transliterators, inc: bool, lo: int, allStart: int, g: Progress): (v: Visit)
    requires InBounds(lo, allStart, g) && g.from < g.hi
    ensures !v.Inverted? ==> InBounds(lo, allStart, v.g) && v.g.hi - v.g.limit == g.hi - g.limit
    ensures v.GoOn? ==> v.g.hi - v.g.from < g.hi - g.from
    ensures v.Inverted? ==> v.start > v.limit
  {
    RunWithin(script, lo, g);
    VisitedAs(trans, inc, lo, allStart, g, RunFrom(script, g.chars, lo, g.hi, g.from))
  }

  function VisitedAs(trans: Transliterators, inc: bool, lo: int, allStart: int, g: Progress, run: Run): (v: Visit)
    requires InBounds(lo, allStart, g) && Within(lo, g, run)
    ensures !v.Inverted? ==> InBounds(lo, allStart, v.g) && v.g.hi - v.g.limit == g.hi - g.limit
    ensures v.GoOn? ==> v.g.hi - v.g.from < g.hi - g.from
    ensures v.Inverted? ==> v.start > v.limit
  {
    if run.limit <= allStart then GoOn(g.(from := run.limit))
    else
      var t := trans(run.script);
      if t.None? then GoOn(g.(from := run.limit, start := run.limit))
      else
        var from := if allStart > run.start then allStart else run.start;
        var to := if g.limit < run.limit then g.limit else run.limit;
        if from > to then Inverted(from, to)
        else Edited(g, run, from, to, t.value(g.chars, from, to, inc && run.limit >= g.limit))
  }

  /** A run whose window has been edited. */
  function Edited(g: Progress, run: Run, from: int, to: int, edit: Edit): (v: Visit)
    requires 0 <= from <= to <= |g.chars|
    ensures !v.Inverted? && v.g.hi - g.hi == v.g.limit - g.limit == v.g.from - run.limit == |v.g.chars| - |g.chars|
    ensures |v.g.chars| - |g.chars| == |edit.chars| - (to - from) && v.g.start == from + edit.done
    ensures v.Done? <==> v.g.from >= v.g.limit
  {
    var delta := |edit.chars| - (to - from);
    var chars := Replaced(g.chars, from, to, edit.chars);
    var g' := Progress(chars, g.hi + delta, g.limit + delta, run.limit + delta, from + edit.done);
    if g'.from >= g'.limit then Done(g') else GoOn(g')
  }

  /** The loop over the runs; it has no answer if it hands an inverted window on. */
  function Handled(script: Scripts, trans: Transliterators, inc: bool, lo: int, allStart: int, g: Progress)
    : Option<Progress>
    requires InBounds(lo, allStart, g)
    decreases g.hi - g.from
  {
    if g.from == g.hi then Some(g)
    else
      match Visited(script, trans, inc, lo, allStart, g)
      case GoOn(g') => Handled(script, trans, inc, lo, allStart, g')
      case Done(g') => Some(g')
      case Inverted(_, _) => None
  }

  // ----- when it does what it should -----

  /** From index n on, counted in a, both texts have the same scripts to their ends. */
  ghost predicate SameScripts(script: Scripts, a: seq<Char>, b: seq<Char>, n: int) {
    forall i :: n <= i < |a| ==> script(b, i + |b| - |a|) == script(a, i)
  }

  /** A script ends before index n. */
  predicate Breaks(script: Scripts, chars: seq<Char>, n: int) {
    0 < n < |chars| && script(chars, n) != script(chars, n - 1)
  }

  ghost predicate SteadyEdit(script: Scripts, wf: seq<Char> -> bool, chars: seq<Char>, from: int, to: int,
                             inserted: seq<Char>)
    requires 0 <= from <= to <= |chars|
  {
    var r := Replaced(chars, from, to, inserted);
    wf(r) && SameScripts(script, chars, r, to)
  }

  /**
   In texts of a certain form, edits up to the end of a script keep that form and leave the scripts of
   all that follows as they were.
   */
  ghost predicate Steady(script: Scripts, trans: Transliterators, wf: seq<Char> -> bool) {
    forall c, chars, from, to, inc ::
      trans(c).Some? && wf(chars) && 0 <= from <= to <= |chars| && Breaks(script, chars, to) ==>
        SteadyEdit(script, wf, chars, from, to, trans(c).value(chars, from, to, inc).chars)
  }

  /** So it is, for any text, if the script of a character can be told from the text from it on. */
  lemma ReadingAheadIsSteady(script: Scripts, trans: Transliterators)
    requires forall a, b, i, j :: 0 <= i <= |a| && 0 <= j <= |b| && a[i..] == b[j..] ==> script(a, i) == script(b, j)
    ensures Steady(script, trans, _ => true)
  {
    forall c, chars, from, to, inc | trans(c).Some? && 0 <= from <= to <= |chars|
      ensures SteadyEdit(script, _ => true, chars, from, to, trans(c).value(chars, from, to, inc).chars)
    {
      var r := Replaced(chars, from, to, trans(c).value(chars, from, to, inc).chars);
      forall i | to <= i < |chars| ensures script(r, i + |r| - |chars|) == script(chars, i) {
        assert r[i + |r| - |chars|..] == chars[i..];
      }
    }
  }

  /**
   The first run, from index from on, that reaches the limit, lies not wholly before start and has a
   transliterator.
   */
  function FirstReaching(script: Scripts, trans: Transliterators, chars: seq<Char>, lo: int, hi: int, from: int,
                         start: int, limit: int): Option<Run>
    requires lo <= from
    decreases hi - from
  {
    if from >= hi then None
    else
      RunFromIsRun(script, chars, lo, hi, from);
      var run := RunFrom(script, chars, lo, hi, from);
      if run.limit > start && run.limit >= limit && trans(run.script).Some? then Some(run)
      else FirstReaching(script, trans, chars, lo, hi, run.limit, start, limit)
  }

  /** Its window starts within the part to be transliterated. */
  predicate Reaches(script: Scripts, chars: seq<Char>, limit: int, run: Option<Run>) {
    run.Some? && (run.value.from <= limit || AllShared(script, chars, limit, run.value.from))
  }

  /**
   There is no text behind the part to be transliterated, or the run that reaches its end has a
   transliterator; if runs without one lead past the end, only shared characters may lie between.
   */
  predicate Contained(script: Scripts, trans: Transliterators, chars: seq<Char>, lo: int, hi: int, start: int,
                      limit: int)
    requires lo <= hi
  {
    limit == hi || Reaches(script, chars, limit, FirstReaching(script, trans, chars, lo, hi, lo, start, limit))
  }

  /** No window is inverted, and pos.start ends up within pos.limit. */
  predicate Proper(r: Option<Progress>) { r.Some? && r.value.start <= r.value.limit }

  lemma {:induction false} AheadSame(script: Scripts, a: seq<Char>, b: seq<Char>, hi: int, i: int, code: Script)
    requires SameScripts(script, a, b, i) && i <= hi <= |a|
    ensures
      var d := |b| - |a|;
      var (n, c) := AheadFrom(script, a, hi, i, code);
      AheadFrom(script, b, hi + d, i + d, code) == (n + d, c)
    decreases hi - i
  {
    if i < hi {
      if Shared(script, a, i) {
        AheadSame(script, a, b, hi, i + 1, code);
      } else if code == INVALID || code == script(a, i) {
        AheadSame(script, a, b, hi, i + 1, script(a, i));
      }
    }
  }

  /** Going back over shared characters reaches n exactly if only such lie between. */
  lemma BackReaches(script: Scripts, chars: seq<Char>, lo: int, i: int, n: int)
    requires lo <= n && lo <= i
    ensures BackFrom(script, chars, lo, i) <= n <==> i <= n || AllShared(script, chars, n, i)
  {
    BackIs(script, chars, lo, i);
  }

  /** The shared characters between n and i are those of the other text. */
  lemma SharedSame(script: Scripts, a: seq<Char>, b: seq<Char>, n: int, i: int)
    requires SameScripts(script, a, b, n) && i <= |a|
    ensures AllShared(script, a, n, i) <==> AllShared(script, b, n + |b| - |a|, i + |b| - |a|)
  {
    var d := |b| - |a|;
    if AllShared(script, a, n, i) {
      forall k | n + d <= k < i + d ensures Shared(script, b, k) { assert Shared(script, a, k - d); }
    }
    if AllShared(script, b, n + d, i + d) {
      forall k | n <= k < i ensures Shared(script, a, k) { assert Shared(script, b, k + d); }
    }
  }

  /**
   The loop at g has come to the run that starts at f in the original text: what lies ahead is as it was
   there, moved by the growth so far.
   */
  ghost predicate Follows(script: Scripts, wf: seq<Char> -> bool, chars: seq<Char>, lo: int, hi: int, start: int,
                          limit: int, f: int, g: Progress) {
    var d := |g.chars| - |chars|;
    && lo <= f <= hi <= |chars| && 0 <= lo <= start <= limit <= hi
    && g.hi == hi + d && g.limit == limit + d && g.from == f + d && InBounds(lo, start, g)
    && wf(g.chars) && SameScripts(script, chars, g.chars, if f < limit then f else limit)
    && (d == 0 || (f > start && g.from >= start))
    && (limit == hi ==> g.start <= g.limit)
    && (f >= limit && f > start ==> g.start == g.from)
  }

  lemma RunSame(script: Scripts, wf: seq<Char> -> bool, chars: seq<Char>, lo: int, hi: int, start: int, limit: int,
                f: int, g: Progress)
    requires Follows(script, wf, chars, lo, hi, start, limit, f, g) && f < hi
    ensures
      var run, now := RunFrom(script, chars, lo, hi, f), RunFrom(script, g.chars, lo, g.hi, g.from);
      && IsRun(script, chars, lo, hi, run) && IsRun(script, g.chars, lo, g.hi, now)
      && now.limit == run.limit + |g.chars| - |chars| && now.script == run.script && run.from == f
      && (now.limit <= start <==> run.limit <= start)
  {
    RunFromIsRun(script, chars, lo, hi, f);
    RunFromIsRun(script, g.chars, lo, g.hi, g.from);
    hide IsRun, InBounds;
    AheadSame(script, chars, g.chars, hi, f, INVALID);
    RunBounds(script, chars, lo, hi, RunFrom(script, chars, lo, hi, f));
    RunBounds(script, g.chars, lo, g.hi, RunFrom(script, g.chars, lo, g.hi, g.from));
  }

  lemma RunBounds(script: Scripts, chars: seq<Char>, lo: int, hi: int, run: Run)
    requires IsRun(script, chars, lo, hi, run)
    ensures lo <= run.start <= run.from < run.limit <= hi
    ensures run.limit < hi <= |chars| && 0 <= lo ==> Breaks(script, chars, run.limit)
  {
    if run.limit < hi <= |chars| && 0 <= lo {
      assert Shared(script, chars, run.limit - 1) || script(chars, run.limit - 1) == run.script;
    }
  }

  /** A run before start, or without a transliterator, is passed over. */
  lemma PassRun(script: Scripts, trans: Transliterators, inc: bool, wf: seq<Char> -> bool, chars: seq<Char>, lo: int,
                hi: int, start: int, limit: int, f: int, g: Progress)
    requires Follows(script, wf, chars, lo, hi, start, limit, f, g) && f < hi
    requires
      var run := RunFrom(script, chars, lo, hi, f);
      run.limit <= start || trans(run.script).None?
    ensures
      var v := Visited(script, trans, inc, lo, start, g);
      v.GoOn? && Follows(script, wf, chars, lo, hi, start, limit, RunFrom(script, chars, lo, hi, f).limit, v.g)
  {
    hide RunFrom, IsRun;
    RunSame(script, wf, chars, lo, hi, start, limit, f, g);
    RunBounds(script, chars, lo, hi, RunFrom(script, chars, lo, hi, f));
    RunBounds(script, g.chars, lo, g.hi, RunFrom(script, g.chars, lo, g.hi, g.from));
  }

  /** A run that ends within the part to be transliterated is edited, and the loop goes on behind it. */
  lemma ChangeRun(script: Scripts, trans: Transliterators, inc: bool, wf: seq<Char> -> bool, chars: seq<Char>, lo: int,
                  hi: int, start: int, limit: int, f: int, g: Progress)
    requires Follows(script, wf, chars, lo, hi, start, limit, f, g) && f < hi && Steady(script, trans, wf)
    requires
      var run := RunFrom(script, chars, lo, hi, f);
      start < run.limit < limit && trans(run.script).Some?
    ensures
      var v := Visited(script, trans, inc, lo, start, g);
      v.GoOn? && Follows(script, wf, chars, lo, hi, start, limit, RunFrom(script, chars, lo, hi, f).limit, v.g)
  {
    hide RunFrom, IsRun, Breaks, SameScripts;
    RunSame(script, wf, chars, lo, hi, start, limit, f, g);
    var run, now := RunFrom(script, chars, lo, hi, f), RunFrom(script, g.chars, lo, g.hi, g.from);
    RunBounds(script, chars, lo, hi, run);
    RunBounds(script, g.chars, lo, g.hi, now);
    var from := if start > now.start then start else now.start;
    var edit := trans(run.script).value(g.chars, from, now.limit, false);
    assert SteadyEdit(script, wf, g.chars, from, now.limit, edit.chars);
    assert SameScripts(script, chars, g.chars, f);
    SameScriptsTrans(script, chars, g.chars, Replaced(g.chars, from, now.limit, edit.chars), f, run.limit);
  }

  lemma SameScriptsTrans(script: Scripts, a: seq<Char>, b: seq<Char>, c: seq<Char>, m: int, n: int)
    requires SameScripts(script, a, b, m) && m <= n && SameScripts(script, b, c, n + |b| - |a|)
    ensures SameScripts(script, a, c, n)
  {
    forall i | n <= i < |a| ensures script(c, i + |c| - |a|) == script(a, i) {
      assert script(b, i + |b| - |a|) == script(a, i);
    }
  }

  /**
   The run that reaches the end is given a proper window, and the loop ends well, exactly if it starts early
   enough.
   */
  lemma ReachRun(script: Scripts, trans: Transliterators, inc: bool, wf: seq<Char> -> bool, chars: seq<Char>, lo: int,
                 hi: int, start: int, limit: int, f: int, g: Progress)
    requires Follows(script, wf, chars, lo, hi, start, limit, f, g) && f < hi
    requires
      var run := RunFrom(script, chars, lo, hi, f);
      run.limit > start && run.limit >= limit && trans(run.script).Some?
    ensures
      var v := Visited(script, trans, inc, lo, start, g);
      if Reaches(script, chars, limit, Some(RunFrom(script, chars, lo, hi, f))) then v.Done? && v.g.start <= v.g.limit
      else v.Inverted?
  {
    RunSame(script, wf, chars, lo, hi, start, limit, f, g);
    var run, now := RunFrom(script, chars, lo, hi, f), RunFrom(script, g.chars, lo, g.hi, g.from);
    RunBounds(script, chars, lo, hi, run);
    RunBounds(script, g.chars, lo, g.hi, now);
    BackReaches(script, g.chars, lo, g.from, g.limit);
    if f > limit {
      SharedSame(script, chars, g.chars, limit, f);
    }
  }

  /** From any state of the loop on. */
  lemma {:induction false} HandledExact(script: Scripts, trans: Transliterators, inc: bool, wf: seq<Char> -> bool,
                                        chars: seq<Char>, lo: int, hi: int, start: int, limit: int, f: int, g: Progress)
    requires Follows(script, wf, chars, lo, hi, start, limit, f, g) && Steady(script, trans, wf)
    ensures
      Proper(Handled(script, trans, inc, lo, start, g))
      <==> limit == hi || Reaches(script, chars, limit, FirstReaching(script, trans, chars, lo, hi, f, start, limit))
    decreases hi - f
  {
    hide RunFrom, IsRun, Visited, AllShared, Steady;
    if f < hi {
      RunSame(script, wf, chars, lo, hi, start, limit, f, g);
      var run := RunFrom(script, chars, lo, hi, f);
      RunBounds(script, chars, lo, hi, run);
      if run.limit <= start || trans(run.script).None? {
        PassRun(script, trans, inc, wf, chars, lo, hi, start, limit, f, g);
        HandledExact(script, trans, inc, wf, chars, lo, hi, start, limit, run.limit,
            Visited(script, trans, inc, lo, start, g).g);
      } else if run.limit < limit {
        ChangeRun(script, trans, inc, wf, chars, lo, hi, start, limit, f, g);
        HandledExact(script, trans, inc, wf, chars, lo, hi, start, limit, run.limit,
            Visited(script, trans, inc, lo, start, g).g);
      } else {
        ReachRun(script, trans, inc, wf, chars, lo, hi, start, limit, f, g);
      }
    }
  }

  /**
   Exactly when handleTransliterate does what it should, read off the text before the call: every window it hands on
   is a proper one and it leaves pos.start within pos.limit if and only if the part to be transliterated is contained.
   */
  lemma HandledProperly(script: Scripts, trans: Transliterators, inc: bool, wf: seq<Char> -> bool, chars: seq<Char>,
                        lo: int, hi: int, start: int, limit: int)
    requires 0 <= lo <= start <= limit <= hi <= |chars| && Steady(script, trans, wf) && wf(chars)
    ensures
      Proper(Handled(script, trans, inc, lo, start, Progress(chars, hi, limit, lo, start)))
      <==> Contained(script, trans, chars, lo, hi, start, limit)
  {
    hide Steady;
    HandledExact(script, trans, inc, wf, chars, lo, hi, start, limit, lo, Progress(chars, hi, limit, lo, start));
  }

  // ----- what it makes of the text -----

  function Larger(a: int, b: int): int { if a > b then a else b }

  function Smaller(a: int, b: int): int { if a < b then a else b }

  /** What is made of a run: the loop goes on with the text and pos.start, it ends with them, or there is no window. */
  datatype Outcome = Further(chars: seq<Char>, start: int) | Last(chars: seq<Char>, start: int) | NoWindow

  /** A run of the text before the call is met when the text is now. */
  function Met(script: Scripts, trans: Transliterators, inc: bool, chars: seq<Char>, lo: int, start: int, limit: int,
               run: Run, now: seq<Char>, at: int): Outcome
  {
    var d := |now| - |chars|;
    if run.limit <= start then Further(now, at)
    else if trans(run.script).None? then Further(now, run.limit + d)
    else
      var from := Larger(start, BackFrom(script, now, lo, run.from + d));
      var to := Smaller(limit, run.limit) + d;
      if !(0 <= from <= to <= |now|) then NoWindow
      else
        var edit := trans(run.script).value(now, from, to, inc && run.limit >= limit);
        var next := Replaced(now, from, to, edit.chars);
        if run.limit >= limit then Last(next, from + edit.done) else Further(next, from + edit.done)
  }

  /**
   The text, and pos.start, when the runs from f on, and their ends, are those of the text before the call: each that
   has a transliterator is handed on once, in order, and incrementally only if it reaches the limit.
   */
  function Rewritten(script: Scripts, trans: Transliterators, inc: bool, chars: seq<Char>, lo: int, hi: int, start: int,
                     limit: int, f: int, now: seq<Char>, at: int): Option<(seq<Char>, int)>
    requires 0 <= lo <= f <= hi <= |chars|
    decreases hi - f
  {
    if f == hi then Some((now, at))
    else
      RunFromIsRun(script, chars, lo, hi, f);
      var run := RunFrom(script, chars, lo, hi, f);
      match Met(script, trans, inc, chars, lo, start, limit, run, now, at)
      case Further(next, to) => Rewritten(script, trans, inc, chars, lo, hi, start, limit, run.limit, next, to)
      case Last(next, to) => Some((next, to))
      case NoWindow => None
  }

  /** What is done about a run, told from the run in the text before the call. */
  lemma VisitTold(script: Scripts, trans: Transliterators, inc: bool, wf: seq<Char> -> bool, chars: seq<Char>, lo: int,
                  hi: int, start: int, limit: int, f: int, g: Progress)
    requires Follows(script, wf, chars, lo, hi, start, limit, f, g) && f < hi
    ensures
      var v := Visited(script, trans, inc, lo, start, g);
      var run, now := RunFrom(script, chars, lo, hi, f), RunFrom(script, g.chars, lo, g.hi, g.from);
      var d := |g.chars| - |chars|;
      if run.limit <= start then v == GoOn(g.(from := run.limit + d))
      else if trans(run.script).None? then v == GoOn(g.(from := run.limit + d, start := run.limit + d))
      else
        var from, to := Larger(start, BackFrom(script, g.chars, lo, f + d)), Smaller(limit, run.limit) + d;
        if from > to then v == Inverted(from, to)
        else
          && 0 <= from && to <= |g.chars|
          && v == Edited(g, now, from, to, trans(run.script).value(g.chars, from, to, inc && run.limit >= limit))
  {
    hide IsRun, AheadFrom, BackFrom, Edited, VisitedAs, SameScripts;
    RunSame(script, wf, chars, lo, hi, start, limit, f, g);
    RunWithin(script, lo, g);
    VisitedCases(trans, inc, lo, start, g, RunFrom(script, g.chars, lo, g.hi, g.from));
  }

  /** The loop does what is said of the run in the text before the call. */
  lemma MetVisited(script: Scripts, trans: Transliterators, inc: bool, wf: seq<Char> -> bool, chars: seq<Char>,
                   lo: int, hi: int, start: int, limit: int, f: int, g: Progress)
    requires Follows(script, wf, chars, lo, hi, start, limit, f, g) && f < hi
    ensures
      var run, v := RunFrom(script, chars, lo, hi, f), Visited(script, trans, inc, lo, start, g);
      Met(script, trans, inc, chars, lo, start, limit, run, g.chars, g.start)
      == if v.GoOn? then Further(v.g.chars, v.g.start) else if v.Done? then Last(v.g.chars, v.g.start) else NoWindow
  {
    hide RunFrom, IsRun, Visited, BackFrom, SameScripts;
    RunSame(script, wf, chars, lo, hi, start, limit, f, g);
    VisitTold(script, trans, inc, wf, chars, lo, hi, start, limit, f, g);
  }

  lemma RewrittenStep(script: Scripts, trans: Transliterators, inc: bool, wf: seq<Char> -> bool, chars: seq<Char>,
                      lo: int, hi: int, start: int, limit: int, f: int, g: Progress)
    requires Follows(script, wf, chars, lo, hi, start, limit, f, g) && f < hi
    ensures
      var run, v := RunFrom(script, chars, lo, hi, f), Visited(script, trans, inc, lo, start, g);
      var w := Rewritten(script, trans, inc, chars, lo, hi, start, limit, f, g.chars, g.start);
      && lo <= run.limit <= hi
      && (v.Inverted? ==> w.None?) && (v.Done? ==> w == Some((v.g.chars, v.g.start)))
      && (v.GoOn? ==>
            w == Rewritten(script, trans, inc, chars, lo, hi, start, limit, run.limit, v.g.chars, v.g.start))
  {
    hide RunFrom, IsRun, Visited, BackFrom, SameScripts, Met;
    MetVisited(script, trans, inc, wf, chars, lo, hi, start, limit, f, g);
    RunFromIsRun(script, chars, lo, hi, f);
    RunBounds(script, chars, lo, hi, RunFrom(script, chars, lo, hi, f));
  }

  predicate SameText(r: Option<Progress>, w: Option<(seq<Char>, int)>) {
    (r.Some? <==> w.Some?) && (r.Some? ==> w.value == (r.value.chars, r.value.start))
  }

  /** From any state of the loop on, it makes of the text what the runs of the original text say. */
  lemma {:induction false} HandledRewrites(script: Scripts, trans: Transliterators, inc: bool, wf: seq<Char> -> bool,
                                           chars: seq<Char>, lo: int, hi: int, start: int, limit: int, f: int,
                                           g: Progress)
    requires Follows(script, wf, chars, lo, hi, start, limit, f, g) && Steady(script, trans, wf)
    ensures
      SameText(Handled(script, trans, inc, lo, start, g),
               Rewritten(script, trans, inc, chars, lo, hi, start, limit, f, g.chars, g.start))
    decreases hi - f
  {
    hide RunFrom, IsRun, Visited, AllShared, Steady, Rewritten;
    if f == hi {
      RewrittenAll(script, trans, inc, chars, lo, hi, start, limit, g.chars, g.start);
    } else {
      RunSame(script, wf, chars, lo, hi, start, limit, f, g);
      RewrittenStep(script, trans, inc, wf, chars, lo, hi, start, limit, f, g);
      var run, v := RunFrom(script, chars, lo, hi, f), Visited(script, trans, inc, lo, start, g);
      RunBounds(script, chars, lo, hi, run);
      if run.limit <= start || trans(run.script).None? {
        PassRun(script, trans, inc, wf, chars, lo, hi, start, limit, f, g);
        HandledRewrites(script, trans, inc, wf, chars, lo, hi, start, limit, run.limit, v.g);
      } else if run.limit < limit {
        ChangeRun(script, trans, inc, wf, chars, lo, hi, start, limit, f, g);
        HandledRewrites(script, trans, inc, wf, chars, lo, hi, start, limit, run.limit, v.g);
      } else {
        ReachRun(script, trans, inc, wf, chars, lo, hi, start, limit, f, g);
      }
    }
  }

  lemma RewrittenAll(script: Scripts, trans: Transliterators, inc: bool, chars: seq<Char>, lo: int, hi: int, start: int,
                     limit: int, now: seq<Char>, at: int)
    requires 0 <= lo <= hi <= |chars|
    ensures Rewritten(script, trans, inc, chars, lo, hi, start, limit, hi, now, at) == Some((now, at))
  {
  }

  /**
   What handleTransliterate makes of the text and of pos.start, by the runs of the text before the call and by nothing
   that is found out on the way; it hands on an inverted window exactly if they say so.
   */
  lemma HandledText(script: Scripts, trans: Transliterators, inc: bool, wf: seq<Char> -> bool, chars: seq<Char>,
                    lo: int, hi: int, start: int, limit: int)
    requires 0 <= lo <= start <= limit <= hi <= |chars| && Steady(script, trans, wf) && wf(chars)
    ensures
      SameText(Handled(script, trans, inc, lo, start, Progress(chars, hi, limit, lo, start)),
               Rewritten(script, trans, inc, chars, lo, hi, start, limit, lo, chars, start))
  {
    hide Steady;
    HandledRewrites(script, trans, inc, wf, chars, lo, hi, start, limit, lo, Progress(chars, hi, limit, lo, start));
  }

  // ----- two inputs on which it does not -----

  const GREEK: Script := 14
  const LATIN: Script := 25

  /** Characters that stand for their scripts. */
  const PLAIN: Scripts := (chars, i) => if 0 <= i < |chars| then chars[i] else COMMON

  /** Two letters, the second of them context, and no transliterator: pos.start ends up behind pos.limit. */
  lemma StartPassesLimit()
    ensures
      var g := Progress([LATIN, LATIN], 2, 1, 0, 0);
      Handled(PLAIN, _ => None, false, 0, 0, g) == Some(g.(from := 2, start := 2))
  {
    var g := Progress([LATIN, LATIN], 2, 1, 0, 0);
    assert AheadFrom(PLAIN, g.chars, 2, 0, INVALID) == AheadFrom(PLAIN, g.chars, 2, 1, LATIN) == (2, LATIN);
    assert Visited(PLAIN, _ => None, false, 0, 0, g) == GoOn(g.(from := 2, start := 2));
  }

  /** With a letter of another script behind them, for which there is one, it is given a window from 2 to 1. */
  lemma WindowInverted(t: Transliterator)
    ensures
      var trans: Transliterators := c => if c == GREEK then Some(t) else None;
      var g := Progress([LATIN, LATIN, GREEK], 3, 1, 0, 0);
      && Visited(PLAIN, trans, false, 0, 0, g) == GoOn(g.(from := 2, start := 2))
      && Visited(PLAIN, trans, false, 0, 0, g.(from := 2, start := 2)) == Inverted(2, 1)
      && Handled(PLAIN, trans, false, 0, 0, g).None?
  {
    var trans: Transliterators := c => if c == GREEK then Some(t) else None;
    var g := Progress([LATIN, LATIN, GREEK], 3, 1, 0, 0);
    var h := g.(from := 2, start := 2);
    assert AheadFrom(PLAIN, g.chars, 3, 0, INVALID) == AheadFrom(PLAIN, g.chars, 3, 1, LATIN) == (2, LATIN);
    assert AheadFrom(PLAIN, g.chars, 3, 2, INVALID) == (3, GREEK) && BackFrom(PLAIN, g.chars, 0, 2) == 2;
    assert Visited(PLAIN, trans, false, 0, 0, g) == GoOn(h);
    assert Visited(PLAIN, trans, false, 0, 0, h) == Inverted(2, 1);
  }

  // ----- text in UTF-16 -----

  predicate IsLead(c: Char) { 0xD800 <= c <= 0xDBFF }

  predicate IsTrail(c: Char) { 0xDC00 <= c <= 0xDFFF }

  /** char32At: half of a pair, the first or the second, stands for the whole. */
  function Char32At(chars: seq<Char>, i: int): nat {
    if !(0 <= i < |chars|) then 0xFFFF
    else if IsLead(chars[i]) && i + 1 < |chars| && IsTrail(chars[i + 1]) then Pair(chars[i], chars[i + 1])
    else if IsTrail(chars[i]) && i > 0 && IsLead(chars[i - 1]) then Pair(chars[i - 1], chars[i])
    else chars[i]
  }

  function Pair(lead: Char, trail: Char): nat
    requires IsLead(lead) && IsTrail(trail)
  {
    0x10000 + (lead - 0xD800) * 0x400 + (trail - 0xDC00)
  }

  /** Surrogates come in pairs. */
  predicate Paired(chars: seq<Char>) {
    forall i :: 0 <= i < |chars| ==>
      && (IsLead(chars[i]) ==> i + 1 < |chars| && IsTrail(chars[i + 1]))
      && (IsTrail(chars[i]) ==> i > 0 && IsLead(chars[i - 1]))
  }

  /** Transliterators that leave surrogates in pairs are steady. */
  lemma PairedIsSteady(code: nat -> Script, script: Scripts, trans: Transliterators)
    requires forall chars, i :: script(chars, i) == code(Char32At(chars, i))
    requires forall c, chars, from, to, inc ::
      trans(c).Some? && Paired(chars) && 0 <= from <= to <= |chars| && Breaks(script, chars, to) ==>
        Paired(Replaced(chars, from, to, trans(c).value(chars, from, to, inc).chars))
    ensures Steady(script, trans, Paired)
  {
    forall c, chars, from, to, inc |
      trans(c).Some? && Paired(chars) && 0 <= from <= to <= |chars| && Breaks(script, chars, to)
      ensures SteadyEdit(script, Paired, chars, from, to, trans(c).value(chars, from, to, inc).chars)
    {
      PairedEdit(code, script, chars, from, to, trans(c).value(chars, from, to, inc).chars);
    }
  }

  lemma PairedEdit(code: nat -> Script, script: Scripts, chars: seq<Char>, from: int, to: int, inserted: seq<Char>)
    requires forall chars, i :: script(chars, i) == code(Char32At(chars, i))
    requires 0 <= from <= to <= |chars| && Paired(chars) && Breaks(script, chars, to)
    ensures SameScripts(script, chars, Replaced(chars, from, to, inserted), to)
  {
    hide Char32At;
    var r := Replaced(chars, from, to, inserted);
    var d := |r| - |chars|;
    NoTrailBreaks(code, script, chars, to);
    forall i | to <= i < |chars| ensures script(r, i + d) == script(chars, i) {
      assert r[i + d..] == chars[i..];
      assert i > to ==> r[i + d - 1] == chars[i - 1];
      SameUnit(chars, i, r, i + d);
    }
  }

  /** No script ends within a pair. */
  lemma NoTrailBreaks(code: nat -> Script, script: Scripts, chars: seq<Char>, n: int)
    requires forall chars, i :: script(chars, i) == code(Char32At(chars, i))
    requires Paired(chars) && Breaks(script, chars, n)
    ensures !IsTrail(chars[n])
  {
    assert IsTrail(chars[n]) ==> Char32At(chars, n) == Char32At(chars, n - 1);
  }

  /** Equal surroundings give equal characters. */
  lemma SameUnit(a: seq<Char>, i: int, b: seq<Char>, j: int)
    requires 0 <= i < |a| && 0 <= j < |b| && a[i..] == b[j..]
    requires !IsTrail(a[i]) || (i > 0 && j > 0 && a[i - 1] == b[j - 1])
    ensures Char32At(a, i) == Char32At(b, j)
  {
    assert a[i] == a[i..][0] && b[j] == b[j..][0];
    assert i + 1 < |a| ==> a[i + 1] == a[i..][1];
    assert j + 1 < |b| ==> b[j + 1] == b[j..][1];
  }

  /** Without text behind it the part to be transliterated is always contained, whatever edits do to scripts. */
  lemma {:induction false} NoPostContext(script: Scripts, trans: Transliterators, inc: bool, lo: int, start: int,
                                         g: Progress)
    requires InBounds(lo, start, g) && g.limit == g.hi && g.start <= g.limit
    ensures Proper(Handled(script, trans, inc, lo, start, g))
    decreases g.hi - g.from
  {
    if g.from < g.hi {
      VisitWithin(script, trans, inc, lo, start, g);
      var v := Visited(script, trans, inc, lo, start, g);
      hide Visited;
      if v.GoOn? {
        NoPostContext(script, trans, inc, lo, start, v.g);
      }
    }
  }

  lemma VisitWithin(script: Scripts, trans: Transliterators, inc: bool, lo: int, start: int, g: Progress)
    requires InBounds(lo, start, g) && g.from < g.hi == g.limit && g.start <= g.limit
    ensures
      var v := Visited(script, trans, inc, lo, start, g);
      !v.Inverted? && v.g.start <= v.g.limit
  {
    hide RunFrom, IsRun;
    RunFromIsRun(script, g.chars, lo, g.hi, g.from);
    RunBounds(script, g.chars, lo, g.hi, RunFrom(script, g.chars, lo, g.hi, g.from));
  }

  // ----- the loop in memory -----

  lemma VisitedCases(trans: Transliterators, inc: bool, lo: int, allStart: int, g: Progress, run: Run)
    requires InBounds(lo, allStart, g) && Within(lo, g, run)
    ensures
      var v := VisitedAs(trans, inc, lo, allStart, g, run);
      var from := if allStart > run.start then allStart else run.start;
      var to := if g.limit < run.limit then g.limit else run.limit;
      && (run.limit <= allStart ==> v == GoOn(g.(from := run.limit)))
      && (run.limit > allStart && trans(run.script).None? ==> v == GoOn(g.(from := run.limit, start := run.limit)))
      && (run.limit > allStart && trans(run.script).Some? && from > to ==> v == Inverted(from, to))
      && (run.limit > allStart && trans(run.script).Some? && from <= to ==>
           v == Edited(g, run, from, to, trans(run.script).value(g.chars, from, to, inc && run.limit >= g.limit)))
  {
  }

  /** One run: its part of the text is handed to the transliterator of its script. */
  method VisitRun(text: Text, pos: Position, it: ScriptRunIterator, trans: Transliterators, isIncremental: bool,
                  allStart: int, allLimit: int, ghost g: Progress)
    returns (proper: bool, delta: int, visited: bool)
    requires it.text == text && it.Valid() && InBounds(it.textStart, allStart, g) && g.from < g.hi
    requires g == Progress(text.chars, it.textLimit, allLimit, g.from, pos.start) && allStart <= pos.start
    requires it.Current(g.from) == RunFrom(it.script, text.chars, it.textStart, it.textLimit, g.from)
    requires it.textStart <= it.start <= g.from < it.limit
    modifies text, it`limit, it`textLimit, pos`start, pos`limit, pos`contextLimit
    ensures
      var v := Visited(it.script, trans, isIncremental, it.textStart, allStart, g);
      if !proper then v == Inverted(pos.start, pos.limit)
      else
        && !v.Inverted? && v.g == Progress(text.chars, it.textLimit, allLimit + delta, it.limit, pos.start)
        && (v.Done? <==> visited && it.limit >= allLimit + delta)
    ensures it.Valid() && it.textLimit == old(it.textLimit) + delta && |text.chars| == old(|text.chars|) + delta
    ensures EditedBetween(old(text.chars), text.chars, allStart, allLimit)
    ensures allStart <= pos.start && pos.contextLimit == old(pos.contextLimit) + delta
  {
    hide EditedBetween, RunFrom, Edited, VisitedAs;
    ghost var run := it.Current(g.from);
    VisitedCases(trans, isIncremental, it.textStart, allStart, g, run);
    NoEdit(text.chars, allStart, allLimit);
    proper, delta, visited := true, 0, false;
    if it.limit <= allStart {
      return;
    }
    var t := trans(it.scriptCode);
    if t.None? {
      pos.start := it.limit;
      return;
    }
    var incremental := isIncremental && it.limit >= allLimit;
    pos.start := if allStart > it.start then allStart else it.start;
    pos.limit := if allLimit < it.limit then allLimit else it.limit;
    if pos.start > pos.limit {
      proper := false;
      return;
    }
    delta := EditRun(text, pos, it, t.value(text.chars, pos.start, pos.limit, incremental), allStart, allLimit, g);
    visited := true;
  }

  /** The window's text is replaced, and the iterator's limits follow. */
  method EditRun(text: Text, pos: Position, it: ScriptRunIterator, edit: Edit, ghost allStart: int,
                 ghost allLimit: int, ghost g: Progress)
    returns (delta: int)
    requires g.chars == text.chars && g.hi == it.textLimit && g.limit == allLimit
    requires it.text == text && it.Valid() && it.textStart <= allStart && allLimit <= it.textLimit
    requires allStart <= pos.start <= pos.limit <= allLimit && pos.limit <= it.limit && edit.done <= |edit.chars|
    modifies text, it`limit, it`textLimit, pos`start, pos`limit, pos`contextLimit
    ensures
      var now := Progress(text.chars, it.textLimit, allLimit + delta, it.limit, pos.start);
      Edited(g, old(it.Current(g.from)), old(pos.start), old(pos.limit), edit)
      == if it.limit >= allLimit + delta then Done(now) else GoOn(now)
    ensures it.Valid() && it.textLimit == old(it.textLimit) + delta && |text.chars| == old(|text.chars|) + delta
    ensures allStart <= pos.start && pos.contextLimit == old(pos.contextLimit) + delta
    ensures EditedBetween(old(text.chars), text.chars, allStart, allLimit)
  {
    hide EditedBetween;
    ghost var was := text.chars;
    NoEdit(was, allStart, allLimit);
    ghost var from := pos.start;
    var limit := pos.limit;
    Transliterate(text, pos, edit);
    EditInside(was, was, text.chars, allStart, allLimit, from, limit, edit.chars);
    delta := pos.limit - limit;
    it.AdjustLimit(delta);
  }

  lemma NoEdit(chars: seq<Char>, start: int, limit: int)
    requires 0 <= start <= limit <= |chars|
    ensures EditedBetween(chars, chars, start, limit)
  {
  }

  /** Edits of the same part one after the other. */
  lemma EditedTwice(before: seq<Char>, was: seq<Char>, now: seq<Char>, start: int, limit: int)
    requires EditedBetween(before, was, start, limit) && EditedBetween(was, now, start, limit + |was| - |before|)
    ensures EditedBetween(before, now, start, limit)
  {
  }

  /** An edit within the part that may be edited. */
  lemma EditInside(before: seq<Char>, was: seq<Char>, now: seq<Char>, start: int, limit: int, from: int, to: int,
                   inserted: seq<Char>)
    requires EditedBetween(before, was, start, limit)
    requires start <= from <= to <= limit + |was| - |before| && to <= |was|
    requires now == was[..from] + inserted + was[to..]
    ensures EditedBetween(before, now, start, limit)
  {
    assert now[..start] == was[..start];
    var a, b := limit + |was| - |before|, limit + |now| - |before|;
    assert now[b..] == was[a..];
  }

  /**
   The loop visits the runs of a text that changes under it. It stops, with the answer false, where it would hand on a
   window that ends before it starts: what a transliterator does with such a window is not known. Up to there,
       everything
   outside the part to be transliterated is left alone, and otherwise both limits have moved by the growth.
   */
  method HandleTransliterate(text: Text, pos: Position, isIncremental: bool, script: Scripts, trans: Transliterators)
    returns (proper: bool)
    requires 0 <= pos.contextStart <= pos.start <= pos.limit <= pos.contextLimit <= |text.chars|
    modifies text, pos`start, pos`limit, pos`contextLimit
    ensures
      var r := Handled(script, trans, isIncremental, pos.contextStart, old(pos.start),
                       Progress(old(text.chars), old(pos.contextLimit), old(pos.limit), pos.contextStart,
                           old(pos.start)));
      && proper == r.Some?
      && (proper ==> text.chars == r.value.chars && pos.start == r.value.start && pos.limit == r.value.limit)
      && (proper ==> pos.contextLimit == r.value.hi)
    ensures EditedBetween(old(text.chars), text.chars, old(pos.start), old(pos.limit))
    ensures proper ==> pos.limit == old(pos.limit) + |text.chars| - old(|text.chars|)
    ensures proper ==> pos.contextLimit - pos.limit == old(pos.contextLimit - pos.limit)
    ensures !proper ==> pos.start > pos.limit
    ensures old(pos.start) <= pos.start
    ensures old(pos.limit == pos.contextLimit) ==> proper && pos.start <= pos.limit
    ensures forall wf :: Steady(script, trans, wf) && wf(old(text.chars)) ==>
              (proper && pos.start <= pos.limit <==>
               Contained(script, trans, old(text.chars), pos.contextStart, old(pos.contextLimit), old(pos.start),
                   old(pos.limit)))
  {
    hide RunFrom, EditedBetween, Visited, Steady, Contained;
    ghost var before, limit0, lo := text.chars, pos.limit, pos.contextStart;
    var allStart, allLimit := pos.start, pos.limit;
    NoEdit(before, allStart, allLimit);
    var it := new ScriptRunIterator(text, script, pos.contextStart, pos.contextLimit);
    ghost var g := Progress(before, pos.contextLimit, limit0, lo, allStart);
    ghost var goal := Handled(script, trans, isIncremental, lo, allStart, g);
    if pos.limit == pos.contextLimit { NoPostContext(script, trans, isIncremental, lo, allStart, g); }
    forall wf | Steady(script, trans, wf) && wf(before)
      ensures Proper(goal) <==> Contained(script, trans, before, lo, pos.contextLimit, allStart, limit0)
    {
      HandledProperly(script, trans, isIncremental, wf, before, lo, pos.contextLimit, allStart, limit0);
    }
    proper := true;
    var more := it.Next();
    while more
      invariant fresh(it) && it.text == text && it.script == script && it.textStart == lo == pos.contextStart
      invariant it.Valid()
      invariant proper && g == Progress(text.chars, it.textLimit, allLimit, g.from, pos.start)
      invariant InBounds(lo, allStart, g) && pos.contextLimit == it.textLimit
      invariant allLimit == limit0 + |text.chars| - |before| && g.hi - g.limit == old(pos.contextLimit - pos.limit)
      invariant more ==> g.from < g.hi && lo <= it.start <= g.from < it.limit
      invariant more ==> it.Current(g.from) == RunFrom(script, text.chars, lo, it.textLimit, g.from)
      invariant !more ==> g.from == g.hi
      invariant Handled(script, trans, isIncremental, lo, allStart, g) == goal
      invariant EditedBetween(before, text.chars, allStart, limit0)
      invariant allStart <= pos.start
      decreases g.hi - g.from
    {
      ghost var was, v := text.chars, Visited(script, trans, isIncremental, lo, allStart, g);
      var delta, visited;
      proper, delta, visited := VisitRun(text, pos, it, trans, isIncremental, allStart, allLimit, g);
      EditedTwice(before, was, text.chars, allStart, limit0);
      if !proper {
        return;
      }
      allLimit := allLimit + delta;
      g := v.g;
      if visited && it.limit >= allLimit {
        break;
      }
      more := it.Next();
    }
    pos.limit := allLimit;
  }
}
