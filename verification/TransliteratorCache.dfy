/**
 The cache of AnyTransliterator::getTransliterator (Source/icu/anytrans.cpp, 274-324), shared by
 any number of threads. Each of the two mutex sections is one step, and so is each thing a thread
 does between them; an execution is any interleaving of such steps. Objects are numbered in the
 order of creation. createInstance is not part of the model: it may answer anything.
 */
module TransliteratorCache {
  import opened Options

  const INVALID_CODE := -1

  type Object = nat

  /** Where a thread stands; ec is whether its error code holds a failure. */
  datatype Thread =
    | Idle
    | Lookup(source: int)
    | Create(source: int, pivot: bool, ec: bool)
    | Publish(source: int, t: Object)
    | Dispose(source: int, rt: Object, t: Object)

  datatype Event =
    | Call(i: nat, source: int)
    | Look(i: nat)
    | Make(i: nat, made: bool, error: bool)
    | Put(i: nat)
    | Delete(i: nat)

  /** What a call of thread i answered. */
  datatype Reply = Reply(i: nat, source: int, t: Option<Object>)

  /** puts, deleted and answers are histories of insertions, deletions and returns. */
  datatype State = State(
    target: int, threads: seq<Thread>, cache: map<int, Object>, created: nat,
    puts: seq<(int, Object)>, deleted: seq<Object>, answers: seq<Reply>)

  predicate Enabled(s: State, e: Event) {
    e.i < |s.threads| &&
    match (e, s.threads[e.i])
    case (Call(_, _), Idle) => true
    case (Look(_), Lookup(_)) => true
    case (Make(_, _, _), Create(_, _, _)) => true
    case (Put(_), Publish(_, _)) => true
    case (Delete(_), Dispose(_, _, _)) => true
    case _ => false
  }

  function Go(s: State, i: nat, th: Thread): State
    requires i < |s.threads|
  {
    s.(threads := s.threads[i := th])
  }

  /** The call of thread i is over. */
  function Answer(s: State, i: nat, source: int, t: Option<Object>): State
    requires i < |s.threads|
  {
    Go(s, i, Idle).(answers := s.answers + [Reply(i, source, t)])
  }

  function Do(s: State, e: Event): State
    requires Enabled(s, e)
  {
    var i := e.i;
    match s.threads[i]
    case Idle =>
      if e.source == s.target || e.source == INVALID_CODE then Answer(s, i, e.source, None)
      else Go(s, i, Lookup(e.source))
    case Lookup(source) =>
      if source in s.cache then Answer(s, i, source, Some(s.cache[source])) else Go(s, i, Create(source, false, false))
    case Create(source, pivot, ec) =>
      // an error code that holds a failure keeps it
      var ec' := ec || e.error;
      var s1 := if e.made then s.(created := s.created + 1) else s;
      if !ec' && e.made then Go(s1, i, Publish(source, s.created))
      else
        var s2 := if e.made then s1.(deleted := s.deleted + [s.created]) else s1;
        if pivot then Answer(s2, i, source, None) else Go(s2, i, Create(source, true, ec'))
    case Publish(source, t) =>
      if source in s.cache then Go(s, i, Dispose(source, t, s.cache[source]))
      else Answer(s.(cache := s.cache[source := t], puts := s.puts + [(source, t)]), i, source, Some(t))
    case Dispose(source, rt, t) =>
      Answer(s.(deleted := s.deleted + [rt]), i, source, Some(t))
  }

  function Initial(target: int, n: nat): State {
    State(target, seq(n, _ => Idle), map[], 0, [], [], [])
  }

  /** An event that cannot happen does nothing, so that every sequence of events is an execution. */
  function Next(s: State, e: Event): State {
    if Enabled(s, e) then Do(s, e) else s
  }

  function After(s: State, es: seq<Event>): State
    decreases |es|
  {
    if es == [] then s else Next(After(s, es[..|es| - 1]), es[|es| - 1])
  }

  // ----- the invariant -----

  /** The object that only this thread knows. */
  function Owned(th: Thread): Option<Object> {
    match th
    case Publish(_, t) => Some(t)
    case Dispose(_, rt, _) => Some(rt)
    case _ => None
  }

  ghost predicate Cached(s: State, o: Object) { exists c :: c in s.cache && s.cache[c] == o }

  ghost predicate Held(s: State, o: Object) { exists i :: 0 <= i < |s.threads| && Owned(s.threads[i]) == Some(o) }

  /** Every object created is in the cache, owned by a thread, or deleted, and never two of these. */
  ghost predicate Accounted(s: State) {
    && (forall o :: 0 <= o < s.created ==> Cached(s, o) || Held(s, o) || o in s.deleted)
    && (forall c :: c in s.cache ==> s.cache[c] < s.created && s.cache[c] !in s.deleted && !Held(s, s.cache[c]))
    && (forall i :: 0 <= i < |s.threads| && Owned(s.threads[i]).Some? ==>
          Owned(s.threads[i]).value < s.created && Owned(s.threads[i]).value !in s.deleted)
    && (forall k :: 0 <= k < |s.deleted| ==> s.deleted[k] < s.created)
  }

  /** No object is in two places of one sort. */
  ghost predicate Unshared(s: State) {
    && (forall c, d :: c in s.cache && d in s.cache && s.cache[c] == s.cache[d] ==> c == d)
    && (forall i, j :: 0 <= i < j < |s.threads| && Owned(s.threads[i]).Some? ==>
        Owned(s.threads[i]) != Owned(s.threads[j]))
    && (forall k, m :: 0 <= k < m < |s.deleted| ==> s.deleted[k] != s.deleted[m])
  }

  /** Exactly the insertions made are in the cache, one for each script. */
  ghost predicate PutOnce(s: State) {
    && (forall k :: 0 <= k < |s.puts| ==> s.puts[k].0 in s.cache && s.cache[s.puts[k].0] == s.puts[k].1)
    && (forall k, m :: 0 <= k < m < |s.puts| ==> s.puts[k].0 != s.puts[m].0)
    && (forall c :: c in s.cache ==> (c, s.cache[c]) in s.puts)
  }

  /** Every successful answer, given or about to be given, is the cached object. */
  ghost predicate SameAnswer(s: State) {
    && (forall k :: 0 <= k < |s.answers| && s.answers[k].t.Some? ==>
          s.answers[k].source in s.cache && s.cache[s.answers[k].source] == s.answers[k].t.value)
    && (forall i :: 0 <= i < |s.threads| && s.threads[i].Dispose? ==>
          s.threads[i].source in s.cache && s.cache[s.threads[i].source] == s.threads[i].t)
  }

  ghost predicate Inv(s: State) { Accounted(s) && Unshared(s) && PutOnce(s) && SameAnswer(s) }

  // ----- every step keeps it -----

  lemma InsertKeepsPuts(s: State, s': State, source: int, t: Object)
    requires PutOnce(s) && source !in s.cache
    requires s'.cache == s.cache[source := t] && s'.puts == s.puts + [(source, t)]
    ensures PutOnce(s')
  {
    var last := |s.puts|;
    forall c | c in s'.cache ensures (c, s'.cache[c]) in s'.puts {
      if c == source {
        assert s'.puts[last] == (c, s'.cache[c]);
      } else {
        var k :| 0 <= k < last && s.puts[k] == (c, s.cache[c]);
        assert s'.puts[k] == (c, s'.cache[c]);
      }
    }
  }

  lemma StepKeepsPuts(s: State, e: Event)
    requires PutOnce(s) && Enabled(s, e)
    ensures PutOnce(Do(s, e))
    ensures forall c :: c in s.cache ==> c in Do(s, e).cache && Do(s, e).cache[c] == s.cache[c]
  {
    hide PutOnce;
    var th, s' := s.threads[e.i], Do(s, e);
    if th.Publish? && th.source !in s.cache {
      InsertKeepsPuts(s, s', th.source, th.t);
    } else {
      SamePuts(s, s');
    }
  }

  lemma SamePuts(s: State, s': State)
    requires PutOnce(s) && s'.cache == s.cache && s'.puts == s.puts
    ensures PutOnce(s')
  {
  }

  lemma StepKeepsAnswers(s: State, e: Event)
    requires SameAnswer(s) && Enabled(s, e)
    ensures SameAnswer(Do(s, e))
  {
  }

  lemma StepKeepsApart(s: State, e: Event)
    requires Inv(s) && Enabled(s, e)
    ensures Unshared(Do(s, e))
  {
    hide PutOnce, SameAnswer;
    var i := e.i;
    assert forall o :: Owned(s.threads[i]) == Some(o) ==> Held(s, o);
  }

  /** What became of each object: owned by the thread that moved, or where it was. */
  lemma HeldAfter(s: State, i: nat, th: Thread, s': State, o: Object)
    requires i < |s.threads| && s'.threads == s.threads[i := th]
    requires Unshared(s)
    ensures Owned(s.threads[i]) != Some(o) && Owned(th) != Some(o) ==> (Held(s', o) <==> Held(s, o))
    ensures Owned(th) == Some(o) ==> Held(s', o)
    ensures Owned(s.threads[i]) == Some(o) ==> Held(s, o)
    ensures Owned(s.threads[i]) == Some(o) && Owned(th) != Some(o) ==> !Held(s', o)
  {
    if Owned(th) == Some(o) {
      assert Owned(s'.threads[i]) == Some(o);
    }
    if Owned(s.threads[i]) == Some(o) {
      assert Held(s, o);
    }
    if Held(s, o) && Owned(s.threads[i]) != Some(o) {
      var j :| 0 <= j < |s.threads| && Owned(s.threads[j]) == Some(o);
      assert Owned(s'.threads[j]) == Some(o);
    }
    if Held(s', o) && Owned(th) != Some(o) {
      var j :| 0 <= j < |s'.threads| && Owned(s'.threads[j]) == Some(o);
      assert Owned(s.threads[j]) == Some(o);
    }
  }

  lemma StepKeepsAccount(s: State, e: Event)
    requires Inv(s) && Enabled(s, e)
    ensures Accounted(Do(s, e))
  {
    hide PutOnce, SameAnswer, Unshared, Held, Cached;
    var i, s' := e.i, Do(s, e);
    var th := s.threads[i];
    forall o: Object
      ensures Cached(s', o) <==> Cached(s, o) || (th.Publish? && th.source !in s.cache && th.t == o)
    {
      CachedAfter(s, e, o);
    }
    InvApart(s);
    forall o: Object
      ensures Owned(s.threads[i]) != Some(o) && Owned(s'.threads[i]) != Some(o) ==> (Held(s', o) <==> Held(s, o))
      ensures Owned(s'.threads[i]) == Some(o) ==> Held(s', o)
      ensures Owned(s.threads[i]) == Some(o) ==> Held(s, o)
      ensures Owned(s.threads[i]) == Some(o) && Owned(s'.threads[i]) != Some(o) ==> !Held(s', o)
    {
      HeldAfter(s, i, s'.threads[i], s', o);
    }
  }

  lemma InvApart(s: State)
    requires Inv(s)
    ensures Unshared(s)
  {
  }

  lemma CachedAfter(s: State, e: Event, o: Object)
    requires Enabled(s, e)
    ensures
      var th := s.threads[e.i];
      Cached(Do(s, e), o) <==> Cached(s, o) || (th.Publish? && th.source !in s.cache && th.t == o)
  {
    var th, s' := s.threads[e.i], Do(s, e);
    if th.Publish? && th.source !in s.cache {
      assert s'.cache == s.cache[th.source := th.t];
      if Cached(s, o) {
        var c :| c in s.cache && s.cache[c] == o;
        assert s'.cache[c] == o;
      }
      if Cached(s', o) {
        var c :| c in s'.cache && s'.cache[c] == o;
        assert c == th.source || s.cache[c] == o;
      }
      assert s'.cache[th.source] == th.t;
    }
  }

  lemma StepKeepsInv(s: State, e: Event)
    requires Inv(s)
    ensures Inv(Next(s, e))
  {
    hide Accounted, Unshared, PutOnce, SameAnswer, Do;
    if Enabled(s, e) {
      StepKeepsPuts(s, e);
      StepKeepsAnswers(s, e);
      StepKeepsApart(s, e);
      StepKeepsAccount(s, e);
    }
  }

  // ----- every execution -----

  lemma {:induction false} InvOfRun(target: int, n: nat, es: seq<Event>)
    ensures Inv(After(Initial(target, n), es))
    decreases |es|
  {
    hide Do;
    if es == [] {
      var s := Initial(target, n);
      assert forall i :: 0 <= i < |s.threads| ==> Owned(s.threads[i]).None?;
    } else {
      InvOfRun(target, n, es[..|es| - 1]);
      StepKeepsInv(After(Initial(target, n), es[..|es| - 1]), es[|es| - 1]);
    }
  }

  /**
   The promises of the cache, for any number of threads and calls and every interleaving.
   At most one object is ever published for a script; every successful call for it answers
   that object; nothing is deleted twice; nothing published or answered is deleted.
   */
  lemma RaceSafety(target: int, n: nat, es: seq<Event>)
    ensures
      var s := After(Initial(target, n), es);
      && (forall k, m :: 0 <= k < |s.puts| && 0 <= m < |s.puts| && s.puts[k].0 == s.puts[m].0 ==> k == m)
      && (forall k :: 0 <= k < |s.answers| && s.answers[k].t.Some? ==>
          (s.answers[k].source, s.answers[k].t.value) in s.puts)
      && (forall k, m :: 0 <= k < m < |s.deleted| ==> s.deleted[k] != s.deleted[m])
      && (forall k :: 0 <= k < |s.puts| ==> s.puts[k].1 !in s.deleted)
      && (forall k :: 0 <= k < |s.answers| && s.answers[k].t.Some? ==> s.answers[k].t.value !in s.deleted)
  {
    hide After, Held, Cached;
    InvOfRun(target, n, es);
    var s := After(Initial(target, n), es);
    forall k | 0 <= k < |s.puts| ensures s.puts[k].1 !in s.deleted { PutIsSafe(s, k); }
    forall k | 0 <= k < |s.answers| && s.answers[k].t.Some?
      ensures (s.answers[k].source, s.answers[k].t.value) in s.puts && s.answers[k].t.value !in s.deleted
    {
      AnswerIsPut(s, k);
    }
  }

  lemma PutIsSafe(s: State, k: nat)
    requires Inv(s) && k < |s.puts|
    ensures s.puts[k].1 !in s.deleted
  {
    var c := s.puts[k].0;
    assert c in s.cache && s.cache[c] == s.puts[k].1;
  }

  lemma AnswerIsPut(s: State, k: nat)
    requires Inv(s) && k < |s.answers| && s.answers[k].t.Some?
    ensures (s.answers[k].source, s.answers[k].t.value) in s.puts && s.answers[k].t.value !in s.deleted
  {
    var c := s.answers[k].source;
    assert (c, s.cache[c]) in s.puts && s.cache[c] !in s.deleted;
  }

  /** When no thread is under way, every object created has been published or deleted. */
  lemma NothingLeaks(target: int, n: nat, es: seq<Event>)
    requires
      var s := After(Initial(target, n), es);
      forall i :: 0 <= i < |s.threads| ==> s.threads[i].Idle?
    ensures
      var s := After(Initial(target, n), es);
      forall o :: 0 <= o < s.created ==> (o in s.deleted <==> !exists k :: 0 <= k < |s.puts| && s.puts[k].1 == o)
  {
    hide After;
    InvOfRun(target, n, es);
    var s := After(Initial(target, n), es);
    forall o | 0 <= o < s.created ensures o in s.deleted <==> !exists k :: 0 <= k < |s.puts| && s.puts[k].1 == o {
      assert !Held(s, o);
      forall k | 0 <= k < |s.puts| && s.puts[k].1 == o ensures o !in s.deleted { PutIsSafe(s, k); }
      if Cached(s, o) {
        var c :| c in s.cache && s.cache[c] == o;
        assert (c, o) in s.puts;
        var k :| 0 <= k < |s.puts| && s.puts[k] == (c, o);
      }
    }
  }

  /** Once published, an object stays published. */
  lemma {:induction false} CacheOnlyGrows(target: int, n: nat, es: seq<Event>, more: seq<Event>)
    ensures
      var s, s' := After(Initial(target, n), es), After(Initial(target, n), es + more);
      forall c :: c in s.cache ==> c in s'.cache && s'.cache[c] == s.cache[c]
    decreases |more|
  {
    hide Do;
    if more == [] {
      assert es + more == es;
    } else {
      var less := more[..|more| - 1];
      CacheOnlyGrows(target, n, es, less);
      assert (es + more)[..|es + more| - 1] == es + less;
      InvOfRun(target, n, es + less);
      var s := After(Initial(target, n), es + less);
      if Enabled(s, more[|more| - 1]) {
        assert PutOnce(s);
        StepKeepsPuts(s, more[|more| - 1]);
      }
    }
  }

  // ----- what a call does, told from the events alone -----

  /** What one call of createInstance did. */
  datatype Try = Try(made: bool, error: bool)

  /**
   A call: what was published for its script when it looked, its attempts, the last object it made, what was
   published when it came to publish, and whether it has deleted its own.
   */
  datatype Call = Called(
    source: int, seen: Option<Option<Object>>, tries: seq<Try>, mine: Object, rival: Option<Option<Object>>,
    disposed: bool)

  /** The number of objects made. */
  function Made(h: seq<Event>): nat {
    if h == [] then 0 else Made(h[..|h| - 1]) + (if h[|h| - 1].Make? && h[|h| - 1].made then 1 else 0)
  }

  /** The latest call of thread i in events that have happened. */
  function Latest(h: seq<Event>, i: nat): Option<Call>
    decreases |h|, 0
  {
    if h == [] then None
    else
      var front, e := h[..|h| - 1], h[|h| - 1];
      var c := Latest(front, i);
      if e.i != i then c
      else if e.Call? then Some(Called(e.source, None, [], 0, None, false))
      else if c.None? then None
      else Some(Extended(front, c.value, e, Published(front, c.value.source)))
  }

  function Extended(front: seq<Event>, c: Call, e: Event, published: Option<Object>): Call {
    match e
    case Look(_) => c.(seen := Some(published))
    case Make(_, made, error) => c.(tries := c.tries + [Try(made, error)], mine := Made(front))
    case Put(_) => c.(rival := Some(published))
    case _ => c.(disposed := true)
  }

  /** The object of the first call for the script that came to publish. */
  function Published(h: seq<Event>, source: int): Option<Object>
    decreases |h|, 1
  {
    if h == [] then None
    else
      var front, e := h[..|h| - 1], h[|h| - 1];
      var before := Published(front, source);
      if before.Some? || !e.Put? then before
      else
        var c := Latest(front, e.i);
        if c.Some? && c.value.source == source then Some(c.value.mine) else None
  }

  /**
   The first attempt made an object without an error, or it failed silently and the pivot made
   one without an error. An error code from the first attempt spoils the pivot too.
   */
  predicate Succeeds(ts: seq<Try>) {
    && ts != []
    && !ts[0].error
    && (ts[0].made || (|ts| == 2 && ts[1].made && !ts[1].error))
  }

  /** Neither attempt succeeded. */
  predicate Fails(ts: seq<Try>) { |ts| == 2 && !Succeeds(ts) }

  predicate Excluded(target: int, source: int) { source == target || source == INVALID_CODE }

  /** The call has looked and found nothing. */
  predicate Missed(target: int, c: Call) { !Excluded(target, c.source) && c.seen == Some(None) }

  /** What the call answers, once it is over. */
  function Ruling(target: int, c: Call): Option<Option<Object>> {
    if Excluded(target, c.source) then Some(None)
    else if c.seen.None? then None
    else if c.seen.value.Some? then c.seen
    else if Fails(c.tries) then Some(None)
    else if c.rival.None? then None
    else if c.rival.value.None? then Some(Some(c.mine))
    else if c.disposed then c.rival
    else None
  }

  /** What a thread may do next. */
  predicate Allowed(target: int, n: nat, h: seq<Event>, e: Event) {
    e.i < n &&
    var c := Latest(h, e.i);
    match e
    case Call(_, _) => c.None? || Ruling(target, c.value).Some?
    case Look(_) => c.Some? && !Excluded(target, c.value.source) && c.value.seen.None?
    case Make(_, _, _) => c.Some? && Missed(target, c.value) && !Succeeds(c.value.tries) && |c.value.tries| < 2
    case Put(_) => c.Some? && Missed(target, c.value) && Succeeds(c.value.tries) && c.value.rival.None?
    case Delete(_) =>
      c.Some? && Missed(target, c.value) && c.value.rival.Some? && c.value.rival.value.Some? && !c.value.disposed
  }

  /** The events that could happen when their turn came. */
  function Happened(target: int, n: nat, es: seq<Event>): seq<Event> {
    if es == [] then []
    else
      var h, e := Happened(target, n, es[..|es| - 1]), es[|es| - 1];
      if Allowed(target, n, h, e) then h + [e] else h
  }

  /** The answers of all calls that are over, in the order they ended. */
  function Rulings(target: int, h: seq<Event>): seq<Reply> {
    if h == [] then []
    else
      var i, c := h[|h| - 1].i, Latest(h, h[|h| - 1].i);
      var before := Rulings(target, h[..|h| - 1]);
      if c.Some? && Ruling(target,
          c.value).Some? then before + [Reply(i, c.value.source, Ruling(target, c.value).value)]
      else before
  }

  // ----- it is what the cache does -----

  /** Where a thread stands, by its call. */
  predicate Stands(target: int, th: Thread, call: Option<Call>) {
    if call.None? || Ruling(target, call.value).Some? then th.Idle?
    else
      var c := call.value;
      if c.seen.None? then th == Lookup(c.source) && c.tries == [] && c.rival.None?
      else if Succeeds(c.tries) then
        if c.rival.None? then th == Publish(c.source, c.mine) else th == Dispose(c.source, c.mine, c.rival.value.value)
      else
        && c.rival.None? && |c.tries| < 2
        && th == Create(c.source, |c.tries| == 1, |c.tries| == 1 && c.tries[0].error)
  }

  /**
   What is under way is consistent: only calls that missed have tried, only those that succeeded have come to
   publish.
   */
  predicate Sound(target: int, c: Call) {
    && |c.tries| <= 2
    && (c.tries != [] ==> Missed(target, c))
    && (c.rival.Some? ==> Missed(target, c) && Succeeds(c.tries))
    && (c.disposed ==> c.rival.Some? && c.rival.value.Some?)
  }

  /** The state is what the events say. */
  ghost predicate Told(s: State, h: seq<Event>) {
    && s.created == Made(h) && s.answers == Rulings(s.target, h)
    && (forall c :: c in s.cache <==> Published(h, c).Some?)
    && (forall c :: c in s.cache ==> Published(h, c) == Some(s.cache[c]))
    && (forall i: nat :: i < |s.threads| ==> ToldAt(s, h, i))
  }

  ghost predicate ToldAt(s: State, h: seq<Event>, i: nat)
    requires i < |s.threads|
  {
    && Stands(s.target, s.threads[i], Latest(h, i))
    && (Latest(h, i).Some? ==> Sound(s.target, Latest(h, i).value))
  }

  lemma AllowedIsEnabled(s: State, h: seq<Event>, e: Event)
    requires Told(s, h)
    ensures Enabled(s, e) <==> Allowed(s.target, |s.threads|, h, e)
  {
    hide Latest, Published, Rulings, Made;
    if e.i < |s.threads| { assert ToldAt(s, h, e.i); }
  }

  lemma Unfold(target: int, h: seq<Event>, e: Event)
    ensures
      var h' := h + [e];
      && Made(h') == Made(h) + (if e.Make? && e.made then 1 else 0)
      && (forall i :: i != e.i ==> Latest(h', i) == Latest(h, i))
      && Latest(h', e.i) == (if e.Call? then Some(Called(e.source, None, [], 0, None, false))
           else if Latest(h, e.i).None? then None
           else Some(Extended(h, Latest(h, e.i).value, e, Published(h, Latest(h, e.i).value.source))))
      && (forall c :: Published(h', c) == if Published(h, c).None? && e.Put? && Latest(h, e.i).Some?
                                             && Latest(h, e.i).value.source == c
                                          then Some(Latest(h, e.i).value.mine) else Published(h, c))
      && Rulings(target, h') ==
           (if Latest(h', e.i).Some? && Ruling(target, Latest(h', e.i).value).Some?
            then Rulings(target,
                h) + [Reply(e.i, Latest(h', e.i).value.source, Ruling(target, Latest(h', e.i).value).value)]
            else Rulings(target, h))
  {
    var h' := h + [e];
    assert h'[..|h'| - 1] == h && h'[|h'| - 1] == e;
  }

  /** The thread that moves stands where its events say, and so do the cache and the answers. */
  lemma ToldStep(s: State, h: seq<Event>, e: Event)
    requires Told(s, h) && Enabled(s, e)
    ensures Told(Do(s, e), h + [e])
  {
    hide Latest, Published, Rulings, Made;
    assert ToldAt(s, h, e.i);
    Unfold(s.target, h, e);
    var s', h' := Do(s, e), h + [e];
    StepSize(s, e);
    forall i: nat | i < |s'.threads| ensures ToldAt(s', h', i) {
      if i != e.i { assert ToldAt(s, h, i); }
    }
  }

  lemma StepSize(s: State, e: Event)
    requires Enabled(s, e)
    ensures |Do(s, e).threads| == |s.threads| && Do(s, e).target == s.target
    ensures forall i :: 0 <= i < |s.threads| && i != e.i ==> Do(s, e).threads[i] == s.threads[i]
  {
  }

  lemma {:induction false} ToldRun(target: int, n: nat, es: seq<Event>)
    ensures
      var s := After(Initial(target, n), es);
      s.target == target && |s.threads| == n && Told(s, Happened(target, n, es))
    decreases |es|
  {
    hide Do, Latest, Published, Rulings, Made, Allowed, Enabled, Told;
    var s := Initial(target, n);
    if es == [] {
      ToldInitial(target, n);
    } else {
      var front, e := es[..|es| - 1], es[|es| - 1];
      ToldRun(target, n, front);
      var s1, h := After(s, front), Happened(target, n, front);
      AllowedIsEnabled(s1, h, e);
      if Enabled(s1, e) {
        ToldStep(s1, h, e);
        StepSize(s1, e);
      }
    }
  }

  lemma ToldInitial(target: int, n: nat)
    ensures Told(Initial(target, n), [])
  {
    var s := Initial(target, n);
    forall i: nat | i < |s.threads| ensures ToldAt(s, [], i) {
    }
  }

  // ----- what every call answers -----

  /** The last answer to thread i. */
  function LastTo(answers: seq<Reply>, i: nat): Option<Reply> {
    if answers == [] then None
    else if answers[|answers| - 1].i == i then Some(answers[|answers| - 1])
    else LastTo(answers[..|answers| - 1], i)
  }

  function NumberTo(answers: seq<Reply>, i: nat): nat {
    if answers == [] then 0
    else NumberTo(answers[..|answers| - 1], i) + (if answers[|answers| - 1].i == i then 1 else 0)
  }

  /** The number of calls that thread i has made. */
  function Calls(h: seq<Event>, i: nat): nat {
    if h == [] then 0 else Calls(h[..|h| - 1], i) + (if h[|h| - 1].i == i && h[|h| - 1].Call? then 1 else 0)
  }

  predicate Over(target: int, c: Option<Call>) { c.None? || Ruling(target, c.value).Some? }

  lemma OneMoreReply(answers: seq<Reply>, r: Reply, i: nat)
    ensures LastTo(answers + [r], i) == if r.i == i then Some(r) else LastTo(answers, i)
    ensures NumberTo(answers + [r], i) == NumberTo(answers, i) + (if r.i == i then 1 else 0)
  {
    assert (answers + [r])[..|answers|] == answers;
  }

  /** Every call gets one answer, the last one its ruling. */
  lemma {:induction false} RulingIsLast(target: int, n: nat, es: seq<Event>, i: nat)
    ensures
      var h := Happened(target, n, es);
      var c, answers := Latest(h, i), Rulings(target, h);
      && NumberTo(answers, i) + (if Over(target, c) then 0 else 1) == Calls(h, i)
      && (c.Some? && Over(target, c) ==>
            LastTo(answers, i) == Some(Reply(i, c.value.source, Ruling(target, c.value).value)))
      && (c.Some? ==> Sound(target, c.value))
    decreases |es|
  {
    hide Latest, Published, Rulings, Made, LastTo, NumberTo, Ruling;
    if es == [] {
      NoEvents(target, i);
    } else {
      var h, e := Happened(target, n, es[..|es| - 1]), es[|es| - 1];
      RulingIsLast(target, n, es[..|es| - 1], i);
      if Allowed(target, n, h, e) {
        Unfold(target, h, e);
        assert (h + [e])[..|h|] == h;
        var c := Latest(h + [e], e.i);
        if c.Some? && Ruling(target, c.value).Some? {
          OneMoreReply(Rulings(target, h), Reply(e.i, c.value.source, Ruling(target, c.value).value), i);
        }
        if e.i == i && !e.Call? { NotOver(target, Latest(h, i).value, e); }
        if e.i == i && !e.Call? { StaysSound(target, n, h, e); }
      }
    }
  }

  lemma NoEvents(target: int, i: nat)
    ensures Latest([], i).None? && Rulings(target, []) == [] && NumberTo([], i) == 0
  {
  }

  lemma NotOver(target: int, c: Call, e: Event)
    requires Sound(target, c) && !e.Call?
    requires e.Look? ==> !Excluded(target, c.source) && c.seen.None?
    requires !e.Look? ==> Missed(target, c)
    requires e.Make? ==> !Succeeds(c.tries) && |c.tries| < 2
    requires e.Put? ==> Succeeds(c.tries) && c.rival.None?
    requires e.Delete? ==> c.rival.Some? && c.rival.value.Some? && !c.disposed
    ensures Ruling(target, c).None?
  {
  }

  lemma StaysSound(target: int, n: nat, h: seq<Event>, e: Event)
    requires Latest(h, e.i).Some? && Sound(target, Latest(h, e.i).value) && Allowed(target, n, h, e) && !e.Call?
    ensures Sound(target, Extended(h, Latest(h, e.i).value, e, Published(h, Latest(h, e.i).value.source)))
  {
    hide Latest, Published, Made;
  }

  /**
   For every execution and thread: its call is over exactly when its thread is idle, and every call is answered
   once. It answers nothing if and only if its script is the target or invalid, or nothing was published for the
   script when it looked and its attempts did not succeed. Otherwise it answers the published object.
   */
  lemma AnswersExactly(target: int, n: nat, es: seq<Event>, i: nat)
    requires i < n
    ensures
      var s, h := After(Initial(target, n), es), Happened(target, n, es);
      var call := Latest(h, i);
      && |s.threads| == n && (s.threads[i].Idle? <==> Over(target, call))
      && NumberTo(s.answers, i) + (if Over(target, call) then 0 else 1) == Calls(h, i)
      && (call.Some? && Over(target, call) ==>
            var c, r := call.value, LastTo(s.answers, i);
            && r.Some? && r.value.source == c.source
            && (r.value.t.None? <==> Excluded(target, c.source) || (c.seen == Some(None) && !Succeeds(c.tries)))
            && (r.value.t.Some? ==> r.value.t == Published(h, c.source)))
  {
    hide Latest, Published, After, Happened, Rulings, LastTo, NumberTo, Accounted, Unshared, PutOnce;
    var s, h := After(Initial(target, n), es), Happened(target, n, es);
    ToldRun(target, n, es);
    InvOfRun(target, n, es);
    RulingIsLast(target, n, es, i);
    assert ToldAt(s, h, i);
    if Latest(h, i).Some? && Over(target, Latest(h, i)) {
      LastIsOne(s.answers, i);
    }
  }

  lemma {:induction false} LastIsOne(answers: seq<Reply>, i: nat)
    ensures LastTo(answers, i).Some? ==> exists k :: 0 <= k < |answers| && answers[k] == LastTo(answers, i).value
  {
    if answers != [] && answers[|answers| - 1].i != i { LastIsOne(answers[..|answers| - 1], i); }
  }

  /** A call comes to publish an object exactly if its attempts succeed. */
  lemma PublishExactly(target: int, n: nat, es: seq<Event>, i: nat)
    requires i < n
    ensures
      var s, call := After(Initial(target, n), es), Latest(Happened(target, n, es), i);
      |s.threads| == n
          && (call.Some? ==> (s.threads[i].Publish? || call.value.rival.Some? <==> Succeeds(call.value.tries)))
  {
    hide Latest, After, Happened, Made;
    ToldRun(target, n, es);
    assert ToldAt(After(Initial(target, n), es), Happened(target, n, es), i);
  }

  /**
   The pivot through Latin makes an object without any error, but the first attempt left an error
   code: the object is deleted, nothing is cached and the call answers nothing.
   */
  lemma StaleErrorSpoilsPivot()
    ensures
      var s := After(Initial(1, 1), [Call(0, 5), Look(0), Make(0, false, true), Make(0, true, false)]);
      s.created == 1 && s.deleted == [0] && s.answers == [Reply(0, 5, None)] && s.cache == map[] && s.threads == [Idle]
  {
    var s, es := Initial(1, 1), [Call(0, 5), Look(0), Make(0, false, true), Make(0, true, false)];
    assert es[..3][..2] == es[..2] && es[..2][..1] == es[..1] && es[..1][..0] == [];
    assert After(s, es[..1]) == Do(s, es[0]);
    assert After(s, es[..2]).threads == [Create(5, false, false)];
    assert After(s, es[..3]).threads == [Create(5, true, true)];
  }
}
