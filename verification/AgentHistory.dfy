/**
 What the agents' lock and condition variable give (Source/JavaScriptCore/jsc.cpp, 1686-1773): every
 execution, in which sections are entered by any thread, go on step by step and may wait, answers as one
 object would that serves the same requests one at a time.
 */
module AgentHistory {
  import opened Agents
  import opened Options

  // ----- the object that serves one request at a time -----

  /** The mailboxes of the registered workers, and the reports that wait. */
  datatype Object = Object(mail: map<nat, seq<Message>>, reports: seq<Text>)

  /** The request can be served, and the answer is the right one. */
  predicate Legal(o: Object, e: Entry) {
    match e
    case Joined(i) => i !in o.mail
    case Left(i) => i in o.mail
    case Sent(i, m) => i in o.mail
    case Reported(i, text) => i in o.mail
    case Tried(i, got) => i in o.mail && got == if o.reports == [] then None else Some(o.reports[0])
    case Got(i, text) => i in o.mail && o.reports != [] && text == o.reports[0]
    case Received(i, m) => i in o.mail && o.mail[i] != [] && m == o.mail[i][0]
  }

  function Served(o: Object, e: Entry): Object
    requires Legal(o, e)
  {
    match e
    case Joined(i) => o.(mail := o.mail[i := []])
    case Left(i) => o.(mail := o.mail - {i})
    case Sent(i, m) => o.(mail := map w | w in o.mail :: if w == i then o.mail[w] else o.mail[w] + [m])
    case Reported(_, text) => o.(reports := o.reports + [text])
    case Tried(_, got) => if got.Some? then o.(reports := o.reports[1..]) else o
    case Got(_, _) => o.(reports := o.reports[1..])
    case Received(i, _) => o.(mail := o.mail[i := o.mail[i][1..]])
  }

  /** The object after all entries; None if one of them is not legal. */
  function Serial(log: seq<Entry>): Option<Object> {
    if log == [] then Some(Object(map[], []))
    else
      var o, e := Serial(log[..|log| - 1]), log[|log| - 1];
      if o.Some? && Legal(o.value, e) then Some(Served(o.value, e)) else None
  }

  lemma SerialNext(log: seq<Entry>, e: Entry)
    requires Serial(log).Some? && Legal(Serial(log).value, e)
    ensures Serial(log + [e]) == Some(Served(Serial(log).value, e))
  {
    assert (log + [e])[..|log|] == log;
  }

  // ----- every execution is a history of that object -----

  /** The log is legal and leaves the object as it is here; a broadcast under way has served some of the workers. */
  ghost predicate Shown(s: State) {
    && Serial(s.log).Some?
    && var o := Serial(s.log).value;
       && o.reports == s.reports
       && (forall t :: t in o.mail <==> t in s.workers)
       && (forall t :: t in o.mail ==> BoxShown(s, o, t))
  }

  ghost predicate BoxShown(s: State, o: Object, t: nat) {
    t in o.mail ==> t < |s.agents| && s.agents[t].queue == o.mail[t] + Extra(s, t)
  }

  lemma QuietLog(s: State, e: Event)
    requires Enabled(s, e) && !e.Work?
    ensures Do(s, e).log == s.log && Do(s, e).reports == s.reports
  {
  }

  lemma QuietShown(s: State, e: Event)
    requires Shown(s) && Inv(s) && Enabled(s, e) && !e.Work?
    ensures Shown(Do(s, e))
  {
    hide Do, Extra, Serial, Delivered, Woken, Handshake, InOrder;
    QuietLog(s, e);
    QuietFrame(s, e);
    var s' := Do(s, e);
    forall t | t in Serial(s.log).value.mail ensures BoxShown(s', Serial(s.log).value, t) {
      assert BoxShown(s, Serial(s.log).value, t);
      QuietAgent(s, e, t);
      QuietExtra(s, e, t);
    }
  }

  lemma ServeShown(s: State, i: nat, m: Message, pos: nat)
    requires Shown(s) && Exclusive(s) && Listed(s) && i < |s.agents|
    requires s.agents[i].at == Inside(Broadcast(m, pos)) && pos < |s.workers|
    ensures Shown(BroadcastStep(s, i, m, pos))
  {
    hide Serial, BoxShown, BroadcastStep, Exclusive, Listed;
    BroadcastLog(s, i, m, pos);
    var o := Serial(s.log).value;
    forall t | t in o.mail ensures BoxShown(BroadcastStep(s, i, m, pos), o, t) {
      ServeBox(s, i, m, pos, o, t);
    }
  }

  lemma BroadcastLog(s: State, i: nat, m: Message, pos: nat)
    requires i < |s.agents| && s.agents[i].at == Inside(Broadcast(m, pos))
    ensures
      var s' := BroadcastStep(s, i, m, pos);
      && s'.log == (if pos < |s.workers| then s.log else s.log + [Sent(i, m)])
      && s'.reports == s.reports && s'.workers == s.workers
  {
  }

  lemma ServeBox(s: State, i: nat, m: Message, pos: nat, o: Object, t: nat)
    requires Exclusive(s) && Listed(s) && i < |s.agents| && t in o.mail && BoxShown(s, o, t)
    requires s.agents[i].at == Inside(Broadcast(m, pos)) && pos < |s.workers|
    ensures BoxShown(BroadcastStep(s, i, m, pos), o, t)
  {
    var s', w := BroadcastStep(s, i, m, pos), s.workers[pos];
    assert s.workers[..pos + 1] == s.workers[..pos] + [w];
    assert w !in s.workers[..pos] && w in s.workers;
    if t == w && t != i { assert s'.agents[t].queue == o.mail[t] + [] + [m]; }
  }

  lemma FinishShown(s: State, i: nat, m: Message, pos: nat)
    requires Shown(s) && Exclusive(s) && Listed(s) && i < |s.agents| && Registered(s.agents[i])
    requires s.agents[i].at == Inside(Broadcast(m, pos)) && pos == |s.workers|
    ensures Shown(BroadcastStep(s, i, m, pos))
  {
    hide Serial, BoxShown, BroadcastStep, Exclusive;
    BroadcastLog(s, i, m, pos);
    var o := Serial(s.log).value;
    SerialNext(s.log, Sent(i, m));
    forall t | t in Served(o, Sent(i, m)).mail
      ensures BoxShown(BroadcastStep(s, i, m, pos), Served(o, Sent(i, m)), t)
    {
      FinishBox(s, i, m, pos, o, t);
    }
  }

  lemma FinishBox(s: State, i: nat, m: Message, pos: nat, o: Object, t: nat)
    requires Exclusive(s) && i < |s.agents| && i in o.mail && t in o.mail && t in s.workers && BoxShown(s, o, t)
    requires s.agents[i].at == Inside(Broadcast(m, pos)) && pos == |s.workers|
    ensures BoxShown(BroadcastStep(s, i, m, pos), Served(o, Sent(i, m)), t)
  {
    var s' := BroadcastStep(s, i, m, pos);
    assert s.workers[..pos] == s.workers;
    assert Extra(s', t) == [];
  }

  /** The entry that a section makes when it is not a broadcast and does not wait. */
  function Outcome(s: State, i: nat): Option<Entry>
    requires i < |s.agents|
    requires s.agents[i].at.Notifying? || (s.agents[i].at.Inside? && !s.agents[i].at.section.Broadcast?)
  {
    var a := s.agents[i];
    if a.at.Notifying? then None
    else
      match a.at.section
      case Register => Some(Joined(i))
      case Unregister => Some(Left(i))
      case Report(text) => Some(Reported(i, text))
      case TryGetReport => Some(Tried(i, if s.reports == [] then None else Some(s.reports[0])))
      case GetReport => if s.reports == [] then None else Some(Got(i, s.reports[0]))
      case Dequeue => if a.queue == [] then None else Some(Received(i, a.queue[0]))
  }

  lemma WorkLog(s: State, i: nat)
    requires i < |s.agents|
    requires s.agents[i].at.Notifying? || (s.agents[i].at.Inside? && !s.agents[i].at.section.Broadcast?)
    ensures
      var s', a, e := WorkStep(s, i), s.agents[i], Outcome(s, i);
      && s'.log == (if e.None? then s.log else s.log + [e.value])
      && s'.reports == (if e.None? then s.reports
           else match e.value
             case Reported(_, text) => s.reports + [text]
             case Tried(_, got) => if got.None? then s.reports else s.reports[1..]
             case Got(_, _) => s.reports[1..]
             case _ => s.reports)
  {
    hide NotifyAll, Without;
  }

  /** The mailbox of t after such a section. */
  lemma SectionBox(s: State, i: nat, o: Object, o': Object, t: nat)
    requires Exclusive(s) && i < |s.agents| && t < |s.agents| && BoxShown(s, o, t) && t in o'.mail
    requires s.agents[i].at.Notifying? || (s.agents[i].at.Inside? && !s.agents[i].at.section.Broadcast?)
    requires Registering(s.agents[i].at) ==> s.agents[i].queue == []
    requires
      var e := Outcome(s, i);
      (e.None? && o' == o) || (e.Some? && Legal(o, e.value) && o' == Served(o, e.value))
    ensures BoxShown(WorkStep(s, i), o', t)
  {
    hide WorkStep, NotifyAll, Extra, Exclusive;
    WorkShape(s, i);
    SectionExtra(s, i, t);
  }

  lemma SectionLegal(s: State, i: nat)
    requires Shown(s) && Exclusive(s) && Listed(s) && i < |s.agents| && PlaceOk(s.agents[i])
    requires s.agents[i].at.Notifying? || (s.agents[i].at.Inside? && !s.agents[i].at.section.Broadcast?)
    ensures Outcome(s, i).Some? ==> Legal(Serial(s.log).value, Outcome(s, i).value)
  {
    hide Serial, Extra;
    SectionExtra(s, i, i);
    assert i in Serial(s.log).value.mail ==> BoxShown(s, Serial(s.log).value, i);
  }

  lemma SectionMembers(s: State, i: nat, o: Object, o': Object)
    requires Listed(s) && i < |s.agents| && forall t :: t in o.mail <==> t in s.workers
    requires s.agents[i].at.Notifying? || (s.agents[i].at.Inside? && !s.agents[i].at.section.Broadcast?)
    requires
      var e := Outcome(s, i);
      (e.None? && o' == o) || (e.Some? && Legal(o, e.value) && o' == Served(o, e.value))
    ensures forall t :: t in o'.mail <==> t in WorkStep(s, i).workers
    ensures o'.reports == if o.reports == s.reports then WorkStep(s, i).reports else o'.reports
  {
    hide WorkStep, Without;
    WorkSizes(s, i);
    WorkLog(s, i);
    WithoutRemoves(s.workers, i);
  }

  lemma InvFacts(s: State, i: nat)
    requires Inv(s) && i < |s.agents|
    ensures Exclusive(s) && Listed(s) && PlaceOk(s.agents[i])
    ensures Registering(s.agents[i].at) ==> s.agents[i].queue == []
  {
    assert Delivered(s, i);
  }

  lemma SectionShown(s: State, i: nat)
    requires Shown(s) && Inv(s) && i < |s.agents|
    requires s.agents[i].at.Notifying? || (s.agents[i].at.Inside? && !s.agents[i].at.section.Broadcast?)
    ensures Shown(WorkStep(s, i))
  {
    hide WorkStep, Serial, Inv, BoxShown, Exclusive, Listed, PlaceOk, Legal, Served, Outcome;
    InvFacts(s, i);
    WorkLog(s, i);
    SectionLegal(s, i);
    var s', o, e := WorkStep(s, i), Serial(s.log).value, Outcome(s, i);
    if e.Some? { SerialNext(s.log, e.value); }
    var o' := Serial(s'.log).value;
    SectionMembers(s, i, o, o');
    forall t | t in o'.mail ensures BoxShown(s', o', t) {
      WorkerKnown(s, i, t);
      NotMine(s, o, t);
      SectionBox(s, i, o, o', t);
    }
  }

  lemma WorkerKnown(s: State, i: nat, t: nat)
    requires Listed(s) && i < |s.agents| && (s.agents[i].at.Inside? || s.agents[i].at.Notifying?)
    requires t in WorkStep(s, i).workers
    ensures t < |s.agents|
  {
    hide WorkStep, Without;
    WorkSizes(s, i);
    WithoutRemoves(s.workers, i);
  }

  lemma NotMine(s: State, o: Object, t: nat)
    ensures t !in o.mail ==> BoxShown(s, o, t)
  {
  }

  lemma StepShown(s: State, e: Event)
    requires Shown(s) && Inv(s)
    ensures Shown(Next(s, e))
  {
    hide Shown, BroadcastStep, Extra;
    if Enabled(s, e) {
      if !e.Work? {
        QuietShown(s, e);
      } else {
        match s.agents[e.i].at
        case Inside(Broadcast(m, pos)) =>
          assert WithinList(s, s.agents[e.i]) && PlaceOk(s.agents[e.i]);
          if pos < |s.workers| { ServeShown(s, e.i, m, pos); } else { FinishShown(s, e.i, m, pos); }
        case _ => SectionShown(s, e.i);
      }
    }
  }

  lemma {:induction false} ShownRun(es: seq<Event>)
    ensures Shown(After(es))
    decreases |es|
  {
    hide Next, Inv;
    if es != [] {
      ShownRun(es[..|es| - 1]);
      InvOfRun(es[..|es| - 1]);
      StepShown(After(es[..|es| - 1]), es[|es| - 1]);
    }
  }

  /**
   Every execution is a history of the object that serves one request at a time: each answer logged is the one
   that object gives, so a report taken is the first that waits and none is told only when none waits. While no
   thread is in a section, the mailboxes and reports are that object's too.
   */
  lemma SerialHistory(es: seq<Event>)
    ensures
      var s, o := After(es), Serial(After(es).log);
      && o.Some? && o.value.reports == s.reports
      && (forall t :: t in o.value.mail <==> t in s.workers)
      && (s.lock.None? ==> forall t :: t in s.workers ==> t < |s.agents| && s.agents[t].queue == o.value.mail[t])
  {
    hide After, Serial;
    ShownRun(es);
    var s, o := After(es), Serial(After(es).log);
    forall t | t in s.workers && s.lock.None? ensures t < |s.agents| && s.agents[t].queue == o.value.mail[t] {
      assert BoxShown(s, o.value, t);
    }
  }

  // ----- the requests served are those made -----

  /** The sections that thread i has entered. */
  function Asked(es: seq<Event>, i: nat): seq<Section> {
    if es == [] then []
    else
      var front, e := es[..|es| - 1], es[|es| - 1];
      Asked(front, i) + (if e.Enter? && e.i == i && Enabled(After(front), e) then [e.section] else [])
  }

  /** The entries of thread i. */
  function By(log: seq<Entry>, i: nat): seq<Entry> {
    if log == [] then []
    else By(log[..|log| - 1], i) + (if log[|log| - 1].i == i then [log[|log| - 1]] else [])
  }

  lemma ByNext(log: seq<Entry>, e: Entry, i: nat)
    ensures By(log + [e], i) == By(log, i) + (if e.i == i then [e] else [])
  {
    assert (log + [e])[..|log|] == log;
  }

  /** The entry serves the section. */
  predicate Serves(e: Entry, section: Section) {
    match section
    case Register => e.Joined?
    case Unregister => e.Left?
    case Broadcast(m, _) => e.Sent? && e.m == m
    case Report(text) => e.Reported? && e.text == text
    case TryGetReport => e.Tried?
    case GetReport => e.Got?
    case Dequeue => e.Received?
  }

  /** The section that a thread is in or waits in, and that has made no entry. */
  function Pending(at: Place): Option<Section> {
    match at
    case Inside(Broadcast(m, _)) => Some(Broadcast(m, 0))
    case Inside(section) => Some(section)
    case Sleeping(section, _) => Some(section)
    case _ => None
  }

  function PendingOf(s: State, i: nat): Option<Section> {
    if i < |s.agents| then Pending(s.agents[i].at) else None
  }

  ghost predicate InTurn(asked: seq<Section>, done: seq<Entry>, pending: Option<Section>) {
    && |asked| == |done| + (if pending.Some? then 1 else 0)
    && (forall k :: 0 <= k < |done| ==> Serves(done[k], asked[k]))
    && (pending.Some? ==> asked[|done|] == pending.value)
  }

  ghost predicate Ordered(s: State, asked: seq<Section>, i: nat) {
    InTurn(asked, By(s.log, i), PendingOf(s, i))
  }

  /** What a step of thread e.i does to thread i: an entry more, a section entered. */
  lemma StepOrder(s: State, e: Event, i: nat)
    requires Inv(s) && Enabled(s, e)
    ensures
      var s' := Do(s, e);
      var was, now := PendingOf(s, i), PendingOf(s', i);
      if e.i != i then By(s'.log, i) == By(s.log, i) && now == was
      else if e.Enter? then s'.log == s.log && was.None? && now == Some(e.section)
      else (s'.log == s.log && now == was)
           || (was.Some? && now.None? && |s'.log| == |s.log| + 1 && s'.log[..|s.log|] == s.log
               && s'.log[|s.log|].i == i && Serves(s'.log[|s.log|], was.value))
  {
    hide Do, By, Inv;
    var s' := Do(s, e);
    if !e.Work? {
      QuietLog(s, e);
      QuietPending(s, e, i);
    } else if s.agents[e.i].at.Inside? && s.agents[e.i].at.section.Broadcast? {
      BroadcastOrder(s, e.i, i);
      DoesWork(s, e);
    } else {
      SectionOrder(s, e.i, i);
      DoesWork(s, e);
    }
  }

  lemma DoesWork(s: State, e: Event)
    requires Enabled(s, e) && e.Work?
    ensures Do(s, e) == WorkStep(s, e.i)
  {
  }

  lemma QuietPending(s: State, e: Event, i: nat)
    requires Inv(s) && Enabled(s, e) && !e.Work?
    ensures
      var s' := Do(s, e);
      var was, now := PendingOf(s, i), PendingOf(s', i);
      if e.i != i || !e.Enter? then now == was else was.None? && now == Some(e.section)
  {
    hide WorkStep;
    assert PlaceOk(s.agents[e.i]);
  }

  lemma BroadcastOrder(s: State, j: nat, i: nat)
    requires j < |s.agents| && s.agents[j].at.Inside? && s.agents[j].at.section.Broadcast?
    ensures
      var s' := WorkStep(s, j);
      && |s'.agents| == |s.agents|
      && (i < |s.agents| && i != j ==> s'.agents[i].at == s.agents[i].at)
      && (i != j ==> By(s'.log, i) == By(s.log, i))
      && ((s'.log == s.log && Pending(s'.agents[j].at) == Pending(s.agents[j].at))
          || (s'.log == s.log + [Sent(j, s.agents[j].at.section.m)] && Pending(s'.agents[j].at).None?))
  {
    hide By, WorkStep, BroadcastStep;
    var m, pos := s.agents[j].at.section.m, s.agents[j].at.section.pos;
    WorkIsBroadcast(s, j);
    BroadcastFrame(s, j, m, pos);
    BroadcastLog(s, j, m, pos);
    BroadcastPlace(s, j, m, pos);
    ByNext(s.log, Sent(j, m), i);
  }

  lemma BroadcastPlace(s: State, i: nat, m: Message, pos: nat)
    requires i < |s.agents| && s.agents[i].at == Inside(Broadcast(m, pos))
    ensures |BroadcastStep(s, i, m, pos).agents| == |s.agents|
    ensures BroadcastStep(s, i, m, pos).agents[i].at
            == if pos < |s.workers| then Inside(Broadcast(m, pos + 1)) else Notifying
  {
  }

  lemma SectionOrder(s: State, j: nat, i: nat)
    requires j < |s.agents|
    requires s.agents[j].at.Notifying? || (s.agents[j].at.Inside? && !s.agents[j].at.section.Broadcast?)
    ensures
      var s', e := WorkStep(s, j), Outcome(s, j);
      && |s'.agents| == |s.agents|
      && (i < |s.agents| && i != j ==> Pending(s'.agents[i].at) == Pending(s.agents[i].at))
      && (i != j ==> By(s'.log, i) == By(s.log, i))
      && s'.log == (if e.None? then s.log else s.log + [e.value])
      && (e.None? ==> Pending(s'.agents[j].at) == Pending(s.agents[j].at))
      && (e.Some? ==> e.value.i == j && Pending(s'.agents[j].at).None? && Pending(s.agents[j].at).Some?
                      && Serves(e.value, Pending(s.agents[j].at).value))
  {
    hide By, WorkStep, NotifyAll;
    WorkShape(s, j);
    WorkLog(s, j);
    if Outcome(s, j).Some? { ByNext(s.log, Outcome(s, j).value, i); }
  }

  lemma {:induction false} OrderedRun(es: seq<Event>, i: nat)
    ensures Ordered(After(es), Asked(es, i), i)
    decreases |es|
  {
    hide Do, Inv, Enabled, Serves, By;
    if es == [] {
      NothingDone(i);
    } else {
      var front, e := es[..|es| - 1], es[|es| - 1];
      OrderedRun(front, i);
      InvOfRun(front);
      var s := After(front);
      if Enabled(s, e) {
        StepOrder(s, e, i);
        var log := Do(s, e).log;
        if log != s.log && e.i == i {
          assert log == s.log + [log[|s.log|]];
          ByNext(s.log, log[|s.log|], i);
        }
      }
    }
  }

  lemma NothingDone(i: nat)
    ensures By(Initial().log, i) == [] && (i < |Initial().agents| ==> Pending(Initial().agents[i].at).None?)
  {
  }

  /**
   In every execution the entries of a thread serve the sections it has entered, one each and in that order; only
   the section it is in, or waits in, can be without an entry.
   */
  lemma ProgramOrder(es: seq<Event>, i: nat)
    requires i < |After(es).agents|
    ensures
      var s := After(es);
      var asked, done, pending := Asked(es, i), By(s.log, i), Pending(s.agents[i].at);
      && |asked| == |done| + (if pending.Some? then 1 else 0)
      && (forall k :: 0 <= k < |done| ==> Serves(done[k], asked[k]))
      && (pending.Some? ==> asked[|done|] == pending.value)
  {
    hide After, Asked, By;
    OrderedRun(es, i);
  }

  // ----- the other histories are read off the log -----

  function Texts(log: seq<Entry>): seq<Text> {
    if log == [] then []
    else
      var e := log[|log| - 1];
      Texts(log[..|log| - 1]) + (if e.Reported? then [e.text] else [])
  }

  function Taken(log: seq<Entry>): seq<Text> {
    if log == [] then []
    else
      var e := log[|log| - 1];
      Taken(log[..|log| - 1])
      + (if e.Tried? && e.got.Some? then [e.got.value] else if e.Got? then [e.text] else [])
  }

  function Messages(log: seq<Entry>): seq<(nat, Message)> {
    if log == [] then []
    else
      var e := log[|log| - 1];
      Messages(log[..|log| - 1]) + (if e.Sent? then [(e.i, e.m)] else [])
  }

  function ReceivedBy(log: seq<Entry>, t: nat): seq<Message> {
    if log == [] then []
    else
      var e := log[|log| - 1];
      ReceivedBy(log[..|log| - 1], t) + (if e.Received? && e.i == t then [e.m] else [])
  }

  ghost predicate Kept(s: State) {
    && s.reported == Texts(s.log) && s.taken == Taken(s.log) && s.sent == Messages(s.log)
    && (forall t :: 0 <= t < |s.agents| ==> s.agents[t].received == ReceivedBy(s.log, t))
    && (forall t: nat :: t >= |s.agents| ==> ReceivedBy(s.log, t) == [])
  }

  lemma LogNext(log: seq<Entry>, e: Entry)
    ensures Texts(log + [e]) == Texts(log) + (if e.Reported? then [e.text] else [])
    ensures Taken(log + [e])
            == Taken(log) + (if e.Tried? && e.got.Some? then [e.got.value] else if e.Got? then [e.text] else [])
    ensures Messages(log + [e]) == Messages(log) + (if e.Sent? then [(e.i, e.m)] else [])
    ensures forall t :: ReceivedBy(log + [e], t) == ReceivedBy(log, t) + (if e.Received? && e.i == t then [e.m] else [])
  {
    assert (log + [e])[..|log|] == log;
  }

  /** Histories other than the log, by the entry made. */
  lemma WorkKept(s: State, i: nat)
    requires i < |s.agents|
    requires s.agents[i].at.Notifying? || (s.agents[i].at.Inside? && !s.agents[i].at.section.Broadcast?)
    ensures
      var s', e := WorkStep(s, i), Outcome(s, i);
      && s'.sent == s.sent
      && s'.reported == s.reported + (if e.Some? && e.value.Reported? then [e.value.text] else [])
      && s'.taken == s.taken + (if e.None? then [] else if e.value.Tried? && e.value.got.Some? then [e.value.got.value]
                                else if e.value.Got? then [e.value.text] else [])
  {
    hide NotifyAll, Without;
  }

  lemma WorkReceived(s: State, i: nat)
    requires i < |s.agents|
    requires s.agents[i].at.Notifying? || (s.agents[i].at.Inside? && !s.agents[i].at.section.Broadcast?)
    ensures
      var s', e := WorkStep(s, i), Outcome(s, i);
      && |s'.agents| == |s.agents|
      && forall t :: 0 <= t < |s.agents| ==>
           s'.agents[t].received == s.agents[t].received
               + (if e.Some? && e.value.Received? && e.value.i == t then [e.value.m] else [])
  {
    hide WorkStep, NotifyAll;
    WorkShape(s, i);
  }

  lemma BroadcastKept(s: State, i: nat, m: Message, pos: nat)
    requires i < |s.agents| && s.agents[i].at == Inside(Broadcast(m, pos))
    ensures
      var s' := BroadcastStep(s, i, m, pos);
      && s'.reported == s.reported && s'.taken == s.taken
      && s'.sent == (if pos < |s.workers| then s.sent else s.sent + [(i, m)])
  {
  }

  lemma QuietKept(s: State, e: Event)
    requires Enabled(s, e) && !e.Work?
    ensures Do(s, e).reported == s.reported && Do(s, e).taken == s.taken
  {
  }

  lemma StepKept(s: State, e: Event)
    requires Kept(s) && Enabled(s, e)
    ensures Kept(Do(s, e))
  {
    hide Do, WorkStep, Texts, Taken, Messages, ReceivedBy, BroadcastStep, Outcome;
    var s', i := Do(s, e), e.i;
    if !e.Work? {
      QuietLog(s, e);
      QuietFrame(s, e);
      QuietKept(s, e);
      forall t | 0 <= t < |s.agents| ensures s'.agents[t].received == s.agents[t].received { QuietAgent(s, e, t); }
    } else if s.agents[i].at.Inside? && s.agents[i].at.section.Broadcast? {
      var m, pos := s.agents[i].at.section.m, s.agents[i].at.section.pos;
      DoesWork(s, e);
      WorkIsBroadcast(s, i);
      BroadcastFrame(s, i, m, pos);
      BroadcastLog(s, i, m, pos);
      BroadcastKept(s, i, m, pos);
      LogNext(s.log, Sent(i, m));
    } else {
      DoesWork(s, e);
      WorkLog(s, i);
      WorkKept(s, i);
      WorkReceived(s, i);
      if Outcome(s, i).Some? {
        LogNext(s.log, Outcome(s, i).value);
        OutcomeIsMine(s, i);
      }
    }
  }

  lemma OutcomeIsMine(s: State, i: nat)
    requires i < |s.agents|
    requires s.agents[i].at.Notifying? || (s.agents[i].at.Inside? && !s.agents[i].at.section.Broadcast?)
    ensures Outcome(s, i).Some? ==> Outcome(s, i).value.i == i && !Outcome(s, i).value.Sent?
  {
  }

  lemma {:induction false} KeptRun(es: seq<Event>)
    ensures Kept(After(es))
    decreases |es|
  {
    hide Do, Enabled;
    if es != [] {
      KeptRun(es[..|es| - 1]);
      if Enabled(After(es[..|es| - 1]), es[|es| - 1]) { StepKept(After(es[..|es| - 1]), es[|es| - 1]); }
    }
  }

  // ----- reports and broadcasts go in the order they are entered -----

  /** The texts of the reports entered, and the broadcasts entered. */
  function EnteredTexts(es: seq<Event>): seq<Text> {
    if es == [] then []
    else
      var front, e := es[..|es| - 1], es[|es| - 1];
      EnteredTexts(front) + (if e.Enter? && e.section.Report? && Enabled(After(front), e) then [e.section.text] else [])
  }

  function EnteredMessages(es: seq<Event>): seq<(nat, Message)> {
    if es == [] then []
    else
      var front, e := es[..|es| - 1], es[|es| - 1];
      EnteredMessages(front)
      + (if e.Enter? && e.section.Broadcast? && Enabled(After(front), e) then [(e.i, e.section.m)] else [])
  }

  /** The report that a thread is about to make. */
  function TextUnderWay(s: State): seq<Text> {
    if s.lock.None? || s.lock.value >= |s.agents| then []
    else
      match s.agents[s.lock.value].at
      case Inside(Report(text)) => [text]
      case _ => []
  }

  /** The broadcast under way. */
  function MessageUnderWay(s: State): seq<(nat, Message)> {
    if s.lock.None? || s.lock.value >= |s.agents| then []
    else
      match s.agents[s.lock.value].at
      case Inside(Broadcast(m, _)) => [(s.lock.value, m)]
      case _ => []
  }

  /** Who holds the lock, and where, after a step outside the sections. */
  lemma QuietHolder(s: State, e: Event)
    requires Exclusive(s) && Enabled(s, e) && !e.Work? && PlaceOk(s.agents[e.i])
    ensures
      var s' := Do(s, e);
      match e
      case Enter(i, section) => s.lock.None? && s'.lock == Some(i) && i < |s'.agents|
          && s'.agents[i].at == Inside(section)
      case Wake(i) =>
        && s.lock.None? && s'.lock == Some(i) && i < |s'.agents|
        && (s'.agents[i].at == Inside(Dequeue) || s'.agents[i].at == Inside(GetReport))
      case Exit(i) => s.lock == Some(i) && s.agents[i].at.Leaving? && s'.lock.None?
      case Work(_) => true
      case _ =>
        && s'.lock == s.lock
        && (s.lock.Some? ==> s.lock.value < |s.agents| <= |s'.agents|
                             && s'.agents[s.lock.value].at == s.agents[s.lock.value].at)
  {
    hide WorkStep;
  }

  lemma QuietUnderWay(s: State, e: Event)
    requires Inv(s) && Enabled(s, e) && !e.Work?
    ensures TextUnderWay(Do(s, e)) == TextUnderWay(s) + (if e.Enter? && e.section.Report? then [e.section.text] else [])
    ensures MessageUnderWay(Do(s, e))
            == MessageUnderWay(s) + (if e.Enter? && e.section.Broadcast? then [(e.i, e.section.m)] else [])
  {
    hide Do, Inv, Enabled, Exclusive, PlaceOk;
    Acts(s, e);
    InvFacts(s, e.i);
    QuietHolder(s, e);
  }

  lemma Acts(s: State, e: Event)
    requires Enabled(s, e)
    ensures e.i < |s.agents|
  {
  }

  lemma WorkUnderWay(s: State, i: nat)
    requires Inv(s) && i < |s.agents| && (s.agents[i].at.Inside? || s.agents[i].at.Notifying?)
    ensures
      var s' := WorkStep(s, i);
      && s'.reported + TextUnderWay(s') == s.reported + TextUnderWay(s)
      && s'.sent + MessageUnderWay(s') == s.sent + MessageUnderWay(s)
  {
    hide WorkStep, NotifyAll, BroadcastStep;
    assert s.lock == Some(i);
    if s.agents[i].at.Inside? && s.agents[i].at.section.Broadcast? {
      var m, pos := s.agents[i].at.section.m, s.agents[i].at.section.pos;
      WorkIsBroadcast(s, i);
      BroadcastFrame(s, i, m, pos);
      BroadcastKept(s, i, m, pos);
      BroadcastPlace(s, i, m, pos);
    } else {
      WorkShape(s, i);
      WorkKept(s, i);
    }
  }

  lemma {:induction false} UnderWayRun(es: seq<Event>)
    ensures After(es).reported + TextUnderWay(After(es)) == EnteredTexts(es)
    ensures After(es).sent + MessageUnderWay(After(es)) == EnteredMessages(es)
    decreases |es|
  {
    hide Do, Inv, Enabled, TextUnderWay, MessageUnderWay;
    if es == [] {
      NoneUnderWay();
    } else {
      var front, e := es[..|es| - 1], es[|es| - 1];
      UnderWayRun(front);
      InvOfRun(front);
      var s := After(front);
      if Enabled(s, e) {
        if e.Work? {
          DoesWork(s, e);
          MayWork(s, e);
          WorkUnderWay(s, e.i);
        } else {
          QuietUnderWay(s, e);
          QuietKept(s, e);
          QuietFrame(s, e);
        }
      }
    }
  }

  lemma NoneUnderWay()
    ensures TextUnderWay(Initial()) == [] && MessageUnderWay(Initial()) == []
  {
  }

  lemma MayWork(s: State, e: Event)
    requires Enabled(s, e) && e.Work?
    ensures e.i < |s.agents| && (s.agents[e.i].at.Inside? || s.agents[e.i].at.Notifying?)
  {
  }

  /**
   In every execution the reports made are the texts of the report sections entered, in the order they were
   entered, and likewise the broadcasts; only one, under way, may be missing. What has been taken and received is
   what the requests for it were answered.
   */
  lemma ReportsAreEntered(es: seq<Event>)
    ensures
      var s := After(es);
      && s.reported + TextUnderWay(s) == EnteredTexts(es) && s.sent + MessageUnderWay(s) == EnteredMessages(es)
      && s.reported == Texts(s.log) && s.taken == Taken(s.log) && s.sent == Messages(s.log)
      && (forall t :: 0 <= t < |s.agents| ==> s.agents[t].received == ReceivedBy(s.log, t))
      && (s.lock.None? ==> s.reported == EnteredTexts(es) && s.sent == EnteredMessages(es))
  {
    hide After, Texts, Taken, Messages, ReceivedBy;
    UnderWayRun(es);
    KeptRun(es);
    var s := After(es);
    assert s.lock.None? ==> s.reported + [] == s.reported && s.sent + [] == s.sent;
  }

  // ----- every section ends, and so does agent.start -----

  function Works(i: nat, n: nat): seq<Event> { seq(n, _ => Work(i)) }

  lemma AfterNext(es: seq<Event>, e: Event)
    ensures After(es + [e]) == Next(After(es), e)
  {
    assert (es + [e])[..|es|] == es;
  }

  lemma FirstWork(es: seq<Event>, i: nat, n: nat)
    requires n > 0
    ensures es + Works(i, n) == (es + [Work(i)]) + Works(i, n - 1)
  {
    assert Works(i, n) == [Work(i)] + Works(i, n - 1);
  }

  /** A broadcast serves the workers one by one and is then made. */
  lemma {:induction false} BroadcastEnds(es: seq<Event>, i: nat, m: Message, pos: nat) returns (n: nat)
    requires i < |After(es).agents| && After(es).agents[i].at == Inside(Broadcast(m, pos)) && pos <= |After(es).workers|
    ensures n == |After(es).workers| - pos + 1
    ensures
      var s, s' := After(es), After(es + Works(i, n));
      && |s'.agents| == |s.agents| && s'.agents[i] == s.agents[i].(at := Notifying, queue := s'.agents[i].queue)
      && s'.log == s.log + [Sent(i, m)]
    decreases |After(es).workers| - pos
  {
    hide After, BroadcastStep;
    var s := After(es);
    AfterNext(es, Work(i));
    WorkIsBroadcast(s, i);
    BroadcastFrame(s, i, m, pos);
    BroadcastLog(s, i, m, pos);
    BroadcastPlace(s, i, m, pos);
    if pos == |s.workers| {
      n := 1;
      assert Works(i, 1) == [Work(i)];
    } else {
      n := BroadcastEnds(es + [Work(i)], i, m, pos + 1);
      n := n + 1;
      FirstWork(es, i, n);
    }
  }

  lemma SectionWork(es: seq<Event>, i: nat)
    requires i < |After(es).agents|
    requires
      var at := After(es).agents[i].at;
      at.Notifying? || (at.Inside? && !at.section.Broadcast?)
    ensures
      var s, s' := After(es), After(es + [Work(i)]);
      && |s'.agents| == |s.agents| && s'.agents[i] == Worked(s, s.agents[i])
      && s'.log == (if Outcome(s, i).None? then s.log else s.log + [Outcome(s, i).value])
      && (Worked(s, s.agents[i]).at.Sleeping? ==> s'.lock.None?)
  {
    hide After, WorkStep, NotifyAll, Outcome;
    AfterNext(es, Work(i));
    WorkShape(After(es), i);
    WorkLog(After(es), i);
  }

  lemma Leaves(es: seq<Event>, i: nat)
    requires i < |After(es).agents| && After(es).agents[i].at.Leaving?
    ensures
      var s, s' := After(es), After(es + [Exit(i)]);
      s'.lock.None? && s'.log == s.log && |s'.agents| == |s.agents|
          && s'.agents[i] == s.agents[i].(at := Outside(s.agents[i]))
  {
    hide After;
    AfterNext(es, Exit(i));
  }

  /** Where a thread is once it has left a section. */
  function Departed(section: Section, a: Agent): Place {
    if section.Unregister? then Gone else if a.didStart then Ready else Announcing
  }

  /**
   From anywhere in a section, a thread that goes on gets to its end: it serves the request once and leaves,
   ready for the next one, or it waits because there is nothing for it yet. Either way the lock is free then.
   */
  lemma SectionCompletes(es: seq<Event>, i: nat) returns (more: seq<Event>)
    requires i < |After(es).agents| && After(es).agents[i].at.Inside?
    ensures forall k :: 0 <= k < |more| ==> more[k].i == i
    ensures
      var s, s' := After(es), After(es + more);
      var section := s.agents[i].at.section;
      && |s'.agents| == |s.agents| && s'.lock.None?
      && (|| (&& |s'.log| == |s.log| + 1 && s'.log[..|s.log|] == s.log && s'.log[|s.log|].i == i
              && Serves(s'.log[|s.log|], section) && s'.agents[i].at == Departed(section, s.agents[i]))
          || (&& s'.log == s.log && s'.agents[i].at.Sleeping? && s'.agents[i].at.section == section
              && (section.GetReport? ==> s.reports == []) && (section.Dequeue? ==> s.agents[i].queue == [])
              && (section.GetReport? || section.Dequeue?)))
  {
    hide After, Inv;
    InvOfRun(es);
    var s := After(es);
    NotGone(s, i);
    var section := s.agents[i].at.section;
    if section.Broadcast? {
      var n := BroadcastEnds(es, i, section.m, section.pos);
      var es1 := es + Works(i, n);
      SectionWork(es1, i);
      Leaves(es1 + [Work(i)], i);
      more := Works(i, n) + [Work(i)] + [Exit(i)];
      assert es + more == (es1 + [Work(i)]) + [Exit(i)];
    } else {
      SectionWork(es, i);
      if section.Report? {
        SectionWork(es + [Work(i)], i);
        Leaves((es + [Work(i)]) + [Work(i)], i);
        more := [Work(i), Work(i), Exit(i)];
        assert es + more == ((es + [Work(i)]) + [Work(i)]) + [Exit(i)];
      } else if Worked(s, s.agents[i]).at.Sleeping? {
        more := [Work(i)];
      } else {
        Leaves(es + [Work(i)], i);
        more := [Work(i), Exit(i)];
        assert es + more == (es + [Work(i)]) + [Exit(i)];
      }
    }
  }

  lemma NotGone(s: State, i: nat)
    requires Inv(s) && i < |s.agents| && s.agents[i].at.Inside?
    ensures s.agents[i].until.None?
    ensures s.agents[i].at.section.Broadcast? ==> s.agents[i].at.section.pos <= |s.workers|
  {
    assert PlaceOk(s.agents[i]) && Delivered(s, i) && WithinList(s, s.agents[i]);
  }

  /** Once the started worker has registered, it announces itself and agent.start returns. */
  lemma StartCompletes(es: seq<Event>, i: nat)
    requires i < |After(es).agents| && After(es).agents[i].at.Starting?
    requires
      var s := After(es);
      s.agents[i].at.child < |s.agents| && s.agents[s.agents[i].at.child].at.Announcing?
    ensures
      var child := After(es).agents[i].at.child;
      var s' := After(es + [Announce(child), Check(i)]);
      && |s'.agents| == |After(es).agents| && s'.agents[i].at.Ready? && s'.agents[child].at.Ready?
      && s'.agents[child].startedAt == Some(|s'.sent|)
  {
    hide After, Inv;
    InvOfRun(es);
    var s := After(es);
    var child := s.agents[i].at.child;
    Parents(s, i);
    AfterNext(es, Announce(child));
    AfterNext(es + [Announce(child)], Check(i));
    assert es + [Announce(child), Check(i)] == (es + [Announce(child)]) + [Check(i)];
  }

  lemma Parents(s: State, i: nat)
    requires Inv(s) && i < |s.agents| && s.agents[i].at.Starting? && s.agents[i].at.child < |s.agents|
    ensures s.agents[s.agents[i].at.child].parent == i
  {
    assert HandshakeAt(s, i);
  }
}
