/**
 The agents of the JavaScript shell (Source/JavaScriptCore/jsc.cpp, 1686-1773, 1820-1865 and
 2904-2906): worker threads that pass messages through one lock and one condition variable. An
 execution is any interleaving of the threads' steps; a thread that holds the lock goes through
 its critical section one step at a time, a broadcast one worker at a time.
 */
module Agents {
  import opened Options

  /** A shared buffer and an index. */
  datatype Message = Message(contents: nat, index: int)

  type Text = string

  /** The critical sections; a broadcast has served the workers before pos. */
  datatype Section =
    | Register
    | Unregister
    | Broadcast(m: Message, pos: nat)
    | Report(text: Text)
    | TryGetReport
    | GetReport
    | Dequeue

  /**
   Born: created, its Worker not yet constructed. Announcing: registered, has not told its starter.
   Starting: in agent.start, waiting for the child. Gone: its Worker destroyed.
   */
  datatype Place =
    | Born
    | Announcing
    | Ready
    | Inside(section: Section)
    | Notifying
    | Leaving
    | Sleeping(section: Section, notified: bool)
    | Starting(child: nat, asleep: bool)
    | Gone

  /**
   A thread and its Worker. since and until are the numbers of broadcasts made when it registered
   and unregistered; received is what dequeue has answered; startedAt is the number of broadcasts
   made when the agent.start call that created it returned.
   */
  datatype Agent = Agent(
    at: Place, queue: seq<Message>, received: seq<Message>, since: Option<nat>, until: Option<nat>,
    parent: nat, didStart: bool, startedAt: Option<nat>)

  /** What thread i has done and, where it asked for something, the answer. */
  datatype Entry =
    | Joined(i: nat)
    | Left(i: nat)
    | Sent(i: nat, m: Message)
    | Reported(i: nat, text: Text)
    | Tried(i: nat, got: Option<Text>)
    | Got(i: nat, text: Text)
    | Received(i: nat, m: Message)

  /** sent, reported, taken and log are histories. */
  datatype State = State(
    agents: seq<Agent>, workers: seq<nat>, lock: Option<nat>, reports: seq<Text>,
    sent: seq<(nat, Message)>, reported: seq<Text>, taken: seq<Text>, log: seq<Entry>)

  datatype Event =
    | Enter(i: nat, section: Section)
    | Work(i: nat)
    | Exit(i: nat)
    | Wake(i: nat)
    | Start(i: nat)
    | Announce(i: nat)
    | Check(i: nat)

  /** A waiting thread may also wake without being notified. */
  predicate Enabled(s: State, e: Event) {
    e.i < |s.agents| &&
    var at := s.agents[e.i].at;
    match e
    case Enter(_, section) =>
      s.lock.None? && ((at.Born? && section.Register?)
          || (at.Ready? && !section.Register? && (section.Broadcast? ==> section.pos == 0)))
    case Work(_) => at.Inside? || at.Notifying?
    case Exit(_) => at.Leaving?
    case Wake(_) => s.lock.None? && at.Sleeping?
    case Start(_) => at.Ready?
    case Announce(_) => at.Announcing? && s.agents[e.i].parent < |s.agents|
    case Check(_) => at.Starting? && !at.asleep && at.child < |s.agents|
  }

  function With(s: State, i: nat, a: Agent): State
    requires i < |s.agents|
  {
    s.(agents := s.agents[i := a])
  }

  function Go(s: State, i: nat, at: Place): State
    requires i < |s.agents|
  {
    With(s, i, s.agents[i].(at := at))
  }

  /** What a thread goes on to after releasing the lock. */
  function Outside(a: Agent): Place {
    if a.until.Some? then Gone else if a.didStart then Ready else Announcing
  }

  function Without(ws: seq<nat>, i: nat): seq<nat> {
    if ws == [] then [] else if ws[0] == i then ws[1..] else [ws[0]] + Without(ws[1..], i)
  }

  function NotifyAll(agents: seq<Agent>): (r: seq<Agent>)
    ensures |r| == |agents|
    ensures forall t :: 0 <= t < |agents| ==>
      r[t] == if agents[t].at.Sleeping? then agents[t].(at := agents[t].at.(notified := true)) else agents[t]
  {
    if agents == [] then []
    else
      var a := agents[|agents| - 1];
      NotifyAll(agents[..|agents| - 1]) + [if a.at.Sleeping? then a.(at := a.at.(notified := true)) else a]
  }

  /** wait: releases the lock and sleeps until notified. */
  function Wait(s: State, i: nat, section: Section): State
    requires i < |s.agents|
  {
    Go(s, i, Sleeping(section, false)).(lock := None)
  }

  /** One worker of the list is served, all but the sender; after the last one everyone is to be notified. */
  function BroadcastStep(s: State, i: nat, m: Message, pos: nat): State
    requires i < |s.agents|
  {
    if pos >= |s.workers| then Go(s, i, Notifying).(sent := s.sent + [(i, m)], log := s.log + [Sent(i, m)])
    else
      var s1 := Go(s, i, Inside(Broadcast(m, pos + 1)));
      var w := s.workers[pos];
      if w == i || w >= |s.agents| then s1 else With(s1, w, s.agents[w].(queue := s.agents[w].queue + [m]))
  }

  /** Takes the first report. */
  function Take(s: State, i: nat): State
    requires i < |s.agents| && s.reports != []
  {
    Go(s, i, Leaving).(reports := s.reports[1..], taken := s.taken + [s.reports[0]])
  }

  function WorkStep(s: State, i: nat): State
    requires i < |s.agents| && (s.agents[i].at.Inside? || s.agents[i].at.Notifying?)
  {
    var a := s.agents[i];
    if a.at.Notifying? then Go(s.(agents := NotifyAll(s.agents)), i, Leaving)
    else
      match a.at.section
      case Register =>
        With(s, i, a.(at := Leaving, since := Some(|s.sent|))).(workers := s.workers + [i], log := s.log + [Joined(i)])
      case Unregister =>
        With(s, i, a.(at := Leaving, until := Some(|s.sent|)))
          .(workers := Without(s.workers, i), log := s.log + [Left(i)])
      case Broadcast(m, pos) => BroadcastStep(s, i, m, pos)
      case Report(text) =>
        Go(s, i, Notifying)
          .(reports := s.reports + [text], reported := s.reported + [text], log := s.log + [Reported(i, text)])
      case TryGetReport =>
        if s.reports == [] then Go(s, i, Leaving).(log := s.log + [Tried(i, None)])
        else Take(s, i).(log := s.log + [Tried(i, Some(s.reports[0]))])
      case GetReport =>
        if s.reports == [] then Wait(s, i, GetReport) else Take(s, i).(log := s.log + [Got(i, s.reports[0])])
      case Dequeue =>
        if a.queue == [] then Wait(s, i, Dequeue)
        else
          With(s, i, a.(at := Leaving, queue := a.queue[1..], received := a.received + [a.queue[0]]))
            .(log := s.log + [Received(i, a.queue[0])])
  }

  /** Agent i after its step in a section other than a broadcast. */
  function Worked(s: State, a: Agent): Agent
    requires a.at.Notifying? || (a.at.Inside? && !a.at.section.Broadcast?)
  {
    if a.at.Notifying? then a.(at := Leaving)
    else
      match a.at.section
      case Register => a.(at := Leaving, since := Some(|s.sent|))
      case Unregister => a.(at := Leaving, until := Some(|s.sent|))
      case Report(_) => a.(at := Notifying)
      case TryGetReport => a.(at := Leaving)
      case GetReport => a.(at := if s.reports == [] then Sleeping(GetReport, false) else Leaving)
      case Dequeue =>
        if a.queue == [] then a.(at := Sleeping(Dequeue, false))
        else a.(at := Leaving, queue := a.queue[1..], received := a.received + [a.queue[0]])
  }

  /** Such a step changes agent i, and wakes the sleepers if it notifies. */
  lemma WorkShape(s: State, i: nat)
    requires i < |s.agents|
    requires s.agents[i].at.Notifying? || (s.agents[i].at.Inside? && !s.agents[i].at.section.Broadcast?)
    ensures
      var s', a := WorkStep(s, i), s.agents[i];
      && s'.agents == (if a.at.Notifying? then NotifyAll(s.agents) else s.agents)[i := Worked(s, a)]
      && s'.sent == s.sent && s'.lock == (if Worked(s, a).at.Sleeping? then None else s.lock)
      && (s'.reports == s.reports || Worked(s, a).at.Notifying? || (s.reports != [] && Worked(s, a).at.Leaving?))
  {
    hide NotifyAll, Without;
  }

  function Newborn(parent: nat): Agent { Agent(Born, [], [], None, None, parent, false, None) }

  /** Sets didStart and wakes the starter, the only thread that can wait for it. */
  function AnnounceStep(s: State, i: nat): State
    requires i < |s.agents| && s.agents[i].parent < |s.agents|
  {
    var s1 := With(s, i, s.agents[i].(at := Ready, didStart := true));
    var p := s.agents[i].parent;
    if s1.agents[p].at == Starting(i, true) then Go(s1, p, Starting(i, false)) else s1
  }

  function CheckStep(s: State, i: nat, child: nat): State
    requires i < |s.agents| && child < |s.agents|
  {
    if s.agents[child].didStart then
      var s1 := Go(s, i, Ready);
      With(s1, child, s1.agents[child].(startedAt := Some(|s.sent|)))
    else Go(s, i, Starting(child, true))
  }

  function Do(s: State, e: Event): State
    requires Enabled(s, e)
  {
    var i := e.i;
    var a := s.agents[i];
    match e
    case Enter(_, section) => Go(s, i, Inside(section)).(lock := Some(i))
    case Work(_) => WorkStep(s, i)
    case Exit(_) => Go(s, i, Outside(a)).(lock := None)
    case Wake(_) => Go(s, i, Inside(a.at.section)).(lock := Some(i))
    case Start(_) =>
      var s1 := Go(s, i, Starting(|s.agents|, false));
      s1.(agents := s1.agents + [Newborn(i)])
    case Announce(_) => AnnounceStep(s, i)
    case Check(_) => CheckStep(s, i, a.at.child)
  }

  /** An event that cannot happen does nothing, so that every sequence of events is an execution. */
  function Next(s: State, e: Event): State {
    if Enabled(s, e) then Do(s, e) else s
  }

  /** The shell starts with its main thread, which no one waits for. */
  function Initial(): State { State([Newborn(0).(didStart := true)], [], None, [], [], [], [], []) }

  function After(es: seq<Event>): State
    decreases |es|
  {
    if es == [] then Initial() else Next(After(es[..|es| - 1]), es[|es| - 1])
  }

  // ----- mutual exclusion -----

  predicate Holds(at: Place) { at.Inside? || at.Notifying? || at.Leaving? }

  /** Exactly the holder of the lock is in a critical section. */
  ghost predicate Exclusive(s: State) {
    && (s.lock.Some? ==> s.lock.value < |s.agents| && Holds(s.agents[s.lock.value].at))
    && (forall t :: 0 <= t < |s.agents| && Holds(s.agents[t].at) ==> s.lock == Some(t))
  }

  lemma WorkExclusive(s: State, i: nat)
    requires Exclusive(s) && i < |s.agents| && (s.agents[i].at.Inside? || s.agents[i].at.Notifying?)
    ensures Exclusive(WorkStep(s, i))
  {
    hide WorkStep, BroadcastStep, NotifyAll;
    if s.agents[i].at.Inside? && s.agents[i].at.section.Broadcast? {
      BroadcastFrame(s, i, s.agents[i].at.section.m, s.agents[i].at.section.pos);
      BroadcastGoesOn(s, i, s.agents[i].at.section.m, s.agents[i].at.section.pos);
      WorkIsBroadcast(s, i);
    } else {
      WorkShape(s, i);
    }
  }

  lemma StepExclusive(s: State, e: Event)
    requires Exclusive(s) && Enabled(s, e)
    ensures Exclusive(Do(s, e))
  {
    hide WorkStep;
    if e.Work? {
      WorkExclusive(s, e.i);
    }
  }

  // ----- registration -----

  predicate Registered(a: Agent) { a.since.Some? && a.until.None? }

  /** How far a thread has come says whether its Worker exists; only dequeue and getReport wait. */
  predicate PlaceOk(a: Agent) {
    && (a.until.Some? ==> a.since.Some?)
    && match a.at
       case Born => a.since.None?
       case Inside(section) => if section.Register? then a.since.None? else Registered(a)
       case Leaving => a.since.Some?
       case Sleeping(section, _) => Registered(a) && (section.Dequeue? || section.GetReport?)
       case Gone => a.until.Some?
       case _ => Registered(a)
  }

  ghost predicate Placed(s: State) { forall t :: 0 <= t < |s.agents| ==> PlaceOk(s.agents[t]) }

  lemma BroadcastPlaced(s: State, i: nat, m: Message, pos: nat)
    requires Placed(s) && i < |s.agents| && s.agents[i].at == Inside(Broadcast(m, pos))
    ensures Placed(BroadcastStep(s, i, m, pos))
  {
  }

  lemma WorkPlaced(s: State, i: nat)
    requires Placed(s) && i < |s.agents| && (s.agents[i].at.Inside? || s.agents[i].at.Notifying?)
    ensures Placed(WorkStep(s, i))
  {
    hide WorkStep, PlaceOk;
    if s.agents[i].at.Inside? && s.agents[i].at.section.Broadcast? {
      BroadcastPlaced(s, i, s.agents[i].at.section.m, s.agents[i].at.section.pos);
      WorkIsBroadcast(s, i);
    } else {
      WorkSizes(s, i);
      forall t | 0 <= t < |s.agents| ensures PlaceOk(WorkStep(s, i).agents[t]) { WorkPlacedAt(s, i, t); }
    }
  }

  lemma WorkIsBroadcast(s: State, i: nat)
    requires i < |s.agents| && s.agents[i].at.Inside? && s.agents[i].at.section.Broadcast?
    ensures WorkStep(s, i) == BroadcastStep(s, i, s.agents[i].at.section.m, s.agents[i].at.section.pos)
  {
  }

  lemma WorkPlacedAt(s: State, i: nat, t: nat)
    requires i < |s.agents| && t < |s.agents| && PlaceOk(s.agents[i]) && PlaceOk(s.agents[t])
    requires s.agents[i].at.Notifying? || (s.agents[i].at.Inside? && !s.agents[i].at.section.Broadcast?)
    ensures t < |WorkStep(s, i).agents| && PlaceOk(WorkStep(s, i).agents[t])
  {
    hide WorkStep, NotifyAll;
    WorkShape(s, i);
  }

  lemma StepPlaced(s: State, e: Event)
    requires Placed(s) && Enabled(s, e)
    ensures Placed(Do(s, e))
  {
    hide WorkStep;
    if e.Work? {
      WorkPlaced(s, e.i);
    }
  }

  /** The list has exactly the registered workers, each once. */
  ghost predicate Listed(s: State) {
    && (forall t :: t in s.workers <==> 0 <= t < |s.agents| && Registered(s.agents[t]))
    && (forall k, m :: 0 <= k < m < |s.workers| ==> s.workers[k] != s.workers[m])
  }

  lemma {:induction false} WithoutRemoves(ws: seq<nat>, i: nat)
    requires forall k, m :: 0 <= k < m < |ws| ==> ws[k] != ws[m]
    ensures forall t :: t in Without(ws, i) <==> t in ws && t != i
    ensures forall k, m :: 0 <= k < m < |Without(ws, i)| ==> Without(ws, i)[k] != Without(ws, i)[m]
  {
    if ws != [] {
      WithoutRemoves(ws[1..], i);
      assert ws == [ws[0]] + ws[1..];
      assert forall t :: t in ws <==> t == ws[0] || t in ws[1..];
      assert ws[0] !in ws[1..];
    }
  }

  predicate Registering(at: Place) { at.Inside? && at.section.Register? }

  predicate Unregistering(at: Place) { at.Inside? && at.section.Unregister? }

  lemma BroadcastFrame(s: State, i: nat, m: Message, pos: nat)
    requires i < |s.agents| && s.agents[i].at == Inside(Broadcast(m, pos))
    ensures
      var s' := BroadcastStep(s, i, m, pos);
      && |s'.agents| == |s.agents| && |s.sent| <= |s'.sent| && s'.workers == s.workers && s'.lock == s.lock
      && forall t :: 0 <= t < |s.agents| ==>
           var a, b := s.agents[t], s'.agents[t];
           && b == a.(queue := b.queue, at := b.at) && (t != i ==> b.at == a.at)
           && !s'.agents[i].at.Starting?
  {
  }

  /** What a step inside a critical section leaves alone. */
  lemma WorkFrame(s: State, i: nat)
    requires i < |s.agents| && (s.agents[i].at.Inside? || s.agents[i].at.Notifying?)
    ensures
      var s', at := WorkStep(s, i), s.agents[i].at;
      && |s'.agents| == |s.agents| && |s.sent| <= |s'.sent|
      && s'.workers
          == (if Registering(at) then s.workers + [i]
              else if Unregistering(at) then Without(s.workers, i)
              else s.workers)
      && forall t :: 0 <= t < |s.agents| ==>
           var a, b := s.agents[t], s'.agents[t];
           && b.parent == a.parent && b.didStart == a.didStart && b.startedAt == a.startedAt
           && (a.at.Starting? ==> b.at == a.at) && (b.at.Starting? ==> b.at == a.at)
           && b.since == (if t == i && Registering(at) then Some(|s.sent|) else a.since)
           && b.until == (if t == i && Unregistering(at) then Some(|s.sent|) else a.until)
  {
    hide WorkStep;
    WorkSizes(s, i);
    var s', at := WorkStep(s, i), s.agents[i].at;
    forall t | 0 <= t < |s.agents|
      ensures
        var a, b := s.agents[t], s'.agents[t];
        && b.parent == a.parent && b.didStart == a.didStart && b.startedAt == a.startedAt
        && (a.at.Starting? ==> b.at == a.at) && (b.at.Starting? ==> b.at == a.at)
        && b.since == (if t == i && Registering(at) then Some(|s.sent|) else a.since)
        && b.until == (if t == i && Unregistering(at) then Some(|s.sent|) else a.until)
    {
      WorkFrameAt(s, i, t);
    }
  }

  /** What a step in the critical section of i leaves as it was in agent t. */
  predicate FramedAt(s: State, s': State, i: nat, t: nat)
    requires i < |s.agents| && t < |s.agents| == |s'.agents|
  {
    var a, b, at := s.agents[t], s'.agents[t], s.agents[i].at;
    && b.parent == a.parent && b.didStart == a.didStart && b.startedAt == a.startedAt
    && (a.at.Starting? ==> b.at == a.at) && (b.at.Starting? ==> b.at == a.at)
    && b.since == (if t == i && Registering(at) then Some(|s.sent|) else a.since)
    && b.until == (if t == i && Unregistering(at) then Some(|s.sent|) else a.until)
  }

  lemma WorkSizes(s: State, i: nat)
    requires i < |s.agents| && (s.agents[i].at.Inside? || s.agents[i].at.Notifying?)
    ensures
      var s', at := WorkStep(s, i), s.agents[i].at;
      && |s'.agents| == |s.agents| && |s.sent| <= |s'.sent|
      && s'.workers
          == (if Registering(at) then s.workers + [i]
              else if Unregistering(at) then Without(s.workers, i)
              else s.workers)
  {
    hide Without, BroadcastStep;
    if s.agents[i].at.Inside? && s.agents[i].at.section.Broadcast? {
      BroadcastFrame(s, i, s.agents[i].at.section.m, s.agents[i].at.section.pos);
    }
  }

  lemma WorkFrameAt(s: State, i: nat, t: nat)
    requires i < |s.agents| && (s.agents[i].at.Inside? || s.agents[i].at.Notifying?)
    requires t < |s.agents| == |WorkStep(s, i).agents|
    ensures FramedAt(s, WorkStep(s, i), i, t)
  {
    hide WorkStep, BroadcastStep, NotifyAll;
    if s.agents[i].at.Inside? && s.agents[i].at.section.Broadcast? {
      BroadcastFrame(s, i, s.agents[i].at.section.m, s.agents[i].at.section.pos);
      WorkIsBroadcast(s, i);
    } else {
      WorkShape(s, i);
    }
  }

  lemma WorkListed(s: State, i: nat)
    requires Listed(s) && Placed(s) && i < |s.agents| && (s.agents[i].at.Inside? || s.agents[i].at.Notifying?)
    ensures Listed(WorkStep(s, i))
  {
    hide Without, WorkStep;
    WithoutRemoves(s.workers, i);
    WorkFrame(s, i);
    assert PlaceOk(s.agents[i]);
  }

  lemma StepListed(s: State, e: Event)
    requires Listed(s) && Placed(s) && Enabled(s, e)
    ensures Listed(Do(s, e))
  {
    hide WorkStep;
    if e.Work? {
      WorkListed(s, e.i);
    }
  }

  // ----- no lost notification -----

  /** The holder of the lock has yet to call notifyAll. */
  predicate WillNotify(s: State) {
    && s.lock.Some? && s.lock.value < |s.agents|
    && var at := s.agents[s.lock.value].at;
       at.Notifying? || (at.Inside? && at.section.Broadcast?)
  }

  /** A thread that sleeps though there is something for it has been or will be notified. */
  ghost predicate WokenAt(s: State, t: nat)
    requires t < |s.agents|
  {
    var a := s.agents[t];
    a.at.Sleeping? && !a.at.notified ==>
      && (a.at.section.Dequeue? && a.queue != [] ==> WillNotify(s))
      && (a.at.section.GetReport? && s.reports != [] ==> WillNotify(s))
  }

  ghost predicate Woken(s: State) { forall t :: 0 <= t < |s.agents| ==> WokenAt(s, t) }

  lemma BroadcastWoken(s: State, i: nat, m: Message, pos: nat)
    requires Woken(s) && Exclusive(s) && i < |s.agents| && s.agents[i].at == Inside(Broadcast(m, pos))
    ensures Woken(BroadcastStep(s, i, m, pos))
  {
    hide BroadcastStep;
    BroadcastFrame(s, i, m, pos);
    BroadcastGoesOn(s, i, m, pos);
    var s' := BroadcastStep(s, i, m, pos);
    forall t | 0 <= t < |s'.agents| ensures WokenAt(s', t) {
      assert WokenAt(s, t);
    }
  }

  lemma BroadcastGoesOn(s: State, i: nat, m: Message, pos: nat)
    requires i < |s.agents| && s.agents[i].at == Inside(Broadcast(m, pos))
    ensures
      var at := BroadcastStep(s, i, m, pos).agents[i].at;
      at.Notifying? || (at.Inside? && at.section.Broadcast?)
  {
  }

  lemma WorkWoken(s: State, i: nat)
    requires Woken(s) && Exclusive(s) && i < |s.agents| && (s.agents[i].at.Inside? || s.agents[i].at.Notifying?)
    ensures Woken(WorkStep(s, i))
  {
    hide WorkStep, BroadcastStep, NotifyAll;
    if s.agents[i].at.Inside? && s.agents[i].at.section.Broadcast? {
      BroadcastWoken(s, i, s.agents[i].at.section.m, s.agents[i].at.section.pos);
      WorkIsBroadcast(s, i);
    } else {
      var s' := WorkStep(s, i);
      WorkShape(s, i);
      assert s.lock == Some(i) && (WillNotify(s) ==> s.agents[i].at.Notifying?);
      forall t | 0 <= t < |s'.agents| ensures WokenAt(s', t) {
        assert WokenAt(s, t);
      }
    }
  }

  lemma StepWoken(s: State, e: Event)
    requires Woken(s) && Exclusive(s) && Enabled(s, e)
    ensures Woken(Do(s, e))
  {
    hide WorkStep;
    if e.Work? {
      WorkWoken(s, e.i);
    } else {
      var s' := Do(s, e);
      assert WillNotify(s) ==> s'.lock == s.lock && s'.agents[s.lock.value].at == s.agents[s.lock.value].at;
      forall t | 0 <= t < |s'.agents| ensures WokenAt(s', t) {
        if t < |s.agents| {
          assert WokenAt(s, t);
        }
      }
    }
  }

  // ----- reports -----

  ghost predicate InOrder(s: State) { s.taken + s.reports == s.reported }

  lemma StepInOrder(s: State, e: Event)
    requires InOrder(s) && Enabled(s, e)
    ensures InOrder(Do(s, e))
  {
    hide Without;
  }

  // ----- the start handshake -----

  /** No starter sleeps once its child has announced itself, and only a registered worker does. */
  ghost predicate HandshakeAt(s: State, t: nat)
    requires t < |s.agents|
  {
    var a := s.agents[t];
    && a.parent < |s.agents|
    && (a.since.Some? ==> a.since.value <= |s.sent|)
    && (t > 0 && a.didStart ==> a.since.Some?)
    && (a.startedAt.Some? ==> a.since.Some? && a.since.value <= a.startedAt.value <= |s.sent|)
    && (a.at.Starting? ==> 0 < a.at.child < |s.agents| && s.agents[a.at.child].parent == t)
    && (a.at.Starting? && a.at.asleep ==> !s.agents[a.at.child].didStart)
  }

  ghost predicate Handshake(s: State) { forall t :: 0 <= t < |s.agents| ==> HandshakeAt(s, t) }

  lemma WorkHandshake(s: State, i: nat)
    requires Handshake(s) && Placed(s) && i < |s.agents| && (s.agents[i].at.Inside? || s.agents[i].at.Notifying?)
    ensures Handshake(WorkStep(s, i))
  {
    hide Without, WorkStep;
    WorkFrame(s, i);
    var s' := WorkStep(s, i);
    forall t | 0 <= t < |s'.agents| ensures HandshakeAt(s', t) {
      assert HandshakeAt(s, t) && PlaceOk(s.agents[t]);
    }
  }

  lemma AnnounceHandshake(s: State, i: nat)
    requires Handshake(s) && i < |s.agents| && s.agents[i].at.Announcing? && PlaceOk(s.agents[i])
    ensures s.agents[i].parent < |s.agents| && Handshake(AnnounceStep(s, i))
  {
    assert HandshakeAt(s, i);
    var s' := AnnounceStep(s, i);
    forall t | 0 <= t < |s'.agents| ensures HandshakeAt(s', t) {
      assert HandshakeAt(s, t);
    }
  }

  lemma CheckHandshake(s: State, i: nat, child: nat)
    requires Handshake(s) && i < |s.agents| && child < |s.agents| && s.agents[i].at == Starting(child, false)
    ensures Handshake(CheckStep(s, i, child))
  {
    var s' := CheckStep(s, i, child);
    assert HandshakeAt(s, i) && HandshakeAt(s, child);
    forall t | 0 <= t < |s'.agents| ensures HandshakeAt(s', t) {
      assert HandshakeAt(s, t);
    }
  }

  lemma StepHandshake(s: State, e: Event)
    requires Handshake(s) && Placed(s) && Enabled(s, e)
    ensures Handshake(Do(s, e))
  {
    hide WorkStep, AnnounceStep, CheckStep;
    match e
    case Work(_) => WorkHandshake(s, e.i);
    case Announce(_) => AnnounceHandshake(s, e.i);
    case Check(_) => CheckHandshake(s, e.i, s.agents[e.i].at.child);
    case _ =>
      var s' := Do(s, e);
      forall t | 0 <= t < |s'.agents| ensures HandshakeAt(s', t) {
        if t < |s.agents| {
          assert HandshakeAt(s, t);
        }
      }
  }

  // ----- delivery -----

  /** The messages of broadcasts from number since up to number until that t did not send. */
  ghost function Heard(sent: seq<(nat, Message)>, since: nat, until: nat, t: nat): seq<Message>
    requires until <= |sent|
    decreases until
  {
    if until <= since then []
    else Heard(sent, since, until - 1, t) + (if sent[until - 1].0 == t then [] else [sent[until - 1].1])
  }

  lemma {:induction false} HeardPrefix(sent: seq<(nat, Message)>, more: seq<(nat, Message)>, since: nat, until: nat,
                                       t: nat)
    requires until <= |sent|
    ensures Heard(sent + more, since, until, t) == Heard(sent, since, until, t)
    decreases until
  {
    if until > since {
      HeardPrefix(sent, more, since, until - 1, t);
      assert (sent + more)[until - 1] == sent[until - 1];
    }
  }

  lemma {:induction false} HeardSplit(sent: seq<(nat, Message)>, since: nat, mid: nat, until: nat, t: nat)
    requires since <= mid <= until <= |sent|
    ensures Heard(sent, since, until, t) == Heard(sent, since, mid, t) + Heard(sent, mid, until, t)
    decreases until
  {
    if until > mid {
      HeardSplit(sent, since, mid, until - 1, t);
    }
  }

  /** The message of a broadcast under way, if it has reached t. */
  ghost function Extra(s: State, t: nat): seq<Message> {
    if s.lock.None? || s.lock.value >= |s.agents| then []
    else
      match s.agents[s.lock.value].at
      case Inside(Broadcast(m, pos)) =>
        if t != s.lock.value && pos <= |s.workers| && t in s.workers[..pos] then [m] else []
      case _ => []
  }

  /** The number of broadcasts after which t hears no more. */
  function End(s: State, a: Agent): nat { if a.until.Some? then a.until.value else |s.sent| }

  /** What t has received and what it has yet to receive are the broadcasts made while it was registered. */
  ghost predicate Delivered(s: State, t: nat) {
    && t < |s.agents|
    && var a := s.agents[t];
       && (a.since.None? ==> a.received == [] && a.queue == [] && a.until.None?)
       && End(s, a) <= |s.sent|
       && (a.since.Some? ==>
           a.since.value <= End(s, a)
               && a.received + a.queue == Heard(s.sent, a.since.value, End(s, a), t) + Extra(s, t))
  }

  /** A broadcast stays within the list. */
  predicate WithinList(s: State, a: Agent) {
    a.at.Inside? && a.at.section.Broadcast? ==> a.at.section.pos <= |s.workers|
  }

  ghost predicate AllDelivered(s: State) {
    forall t :: 0 <= t < |s.agents| ==> Delivered(s, t) && WithinList(s, s.agents[t])
  }

  /** A worker that a step does not concern. */
  lemma Untouched(s: State, s': State, t: nat)
    requires Delivered(s, t) && t < |s'.agents| && s'.sent == s.sent && Extra(s', t) == Extra(s, t)
    requires s'.agents[t].received + s'.agents[t].queue == s.agents[t].received + s.agents[t].queue
    requires s'.agents[t].since == s.agents[t].since && s'.agents[t].until == s.agents[t].until
    ensures Delivered(s', t)
  {
    hide Extra, Heard;
    assert s.agents[t].received == [] && s.agents[t].queue == [] ==> s.agents[t].received + s.agents[t].queue == [];
    assert s'.agents[t].received + s'.agents[t].queue == [] ==> |s'.agents[t].received| + |s'.agents[t].queue| == 0;
  }

  /** Outside a critical section no step moves a broadcast on. */
  lemma QuietExtra(s: State, e: Event, t: nat)
    requires Exclusive(s) && Placed(s) && Enabled(s, e) && !e.Work? && t < |s.agents|
    ensures Extra(Do(s, e), t) == Extra(s, t)
  {
    hide WorkStep;
    assert PlaceOk(s.agents[e.i]);
    assert s.lock.Some? && s.lock.value != e.i && !e.Exit? ==>
             Do(s, e).agents[s.lock.value].at == s.agents[s.lock.value].at;
  }

  lemma QuietFrame(s: State, e: Event)
    requires Enabled(s, e) && !e.Work?
    ensures
      var s' := Do(s, e);
      && |s.agents| <= |s'.agents| && s'.sent == s.sent && s'.workers == s.workers
      && (forall t :: |s.agents| <= t < |s'.agents| ==> s'.agents[t] == Newborn(e.i))
  {
  }

  lemma QuietAgent(s: State, e: Event, t: nat)
    requires Enabled(s, e) && !e.Work? && t < |s.agents| <= |Do(s, e).agents|
    ensures
      var a, b := s.agents[t], Do(s, e).agents[t];
      && b.queue == a.queue && b.received == a.received && b.since == a.since && b.until == a.until
      && (WithinList(s, a) && PlaceOk(a) ==> WithinList(Do(s, e), b))
  {
    hide WorkStep, AnnounceStep, CheckStep;
    if e.Announce? {
      AnnounceQuiet(s, e.i, t);
    } else if e.Check? {
      CheckQuiet(s, e.i, s.agents[e.i].at.child, t);
    }
  }

  lemma AnnounceQuiet(s: State, i: nat, t: nat)
    requires i < |s.agents| && s.agents[i].parent < |s.agents| && t < |s.agents|
    ensures
      var s', a := AnnounceStep(s, i), s.agents[t];
      && |s'.agents| == |s.agents| && s'.workers == s.workers
      && s'.agents[t] == a.(at := s'.agents[t].at, didStart := s'.agents[t].didStart)
      && (s'.agents[t].at == a.at || !s'.agents[t].at.Inside?)
  {
  }

  lemma CheckQuiet(s: State, i: nat, child: nat, t: nat)
    requires i < |s.agents| && child < |s.agents| && t < |s.agents|
    ensures
      var s', a := CheckStep(s, i, child), s.agents[t];
      && |s'.agents| == |s.agents| && s'.workers == s.workers
      && s'.agents[t] == a.(at := s'.agents[t].at, startedAt := s'.agents[t].startedAt)
      && (s'.agents[t].at == a.at || !s'.agents[t].at.Inside?)
  {
  }

  lemma QuietDelivered(s: State, e: Event)
    requires AllDelivered(s) && Exclusive(s) && Placed(s) && Enabled(s, e) && !e.Work?
    ensures AllDelivered(Do(s, e))
  {
    hide Do, Extra, Heard, PlaceOk;
    var s' := Do(s, e);
    QuietFrame(s, e);
    forall t | 0 <= t < |s'.agents| ensures Delivered(s', t) && WithinList(s', s'.agents[t]) {
      if t < |s.agents| {
        QuietExtra(s, e, t);
        QuietAgent(s, e, t);
        Untouched(s, s', t);
      }
    }
  }

  lemma ServeDelivered(s: State, i: nat, m: Message, pos: nat)
    requires AllDelivered(s) && Exclusive(s) && Listed(s) && i < |s.agents|
    requires s.agents[i].at == Inside(Broadcast(m, pos)) && pos < |s.workers|
    ensures AllDelivered(BroadcastStep(s, i, m, pos))
  {
    hide Heard, Extra, Delivered, BroadcastStep;
    var s' := BroadcastStep(s, i, m, pos);
    ServeSize(s, i, m, pos);
    forall t | 0 <= t < |s'.agents| ensures Delivered(s', t) && WithinList(s', s'.agents[t]) {
      assert Delivered(s, t) && WithinList(s, s.agents[t]);
      ServeOne(s, i, m, pos, t);
    }
  }

  lemma ServeSize(s: State, i: nat, m: Message, pos: nat)
    requires i < |s.agents| && pos < |s.workers|
    ensures |BroadcastStep(s, i, m, pos).agents| == |s.agents|
  {
  }

  /** The worker at pos gets the message; nothing changes for the others. */
  lemma ServeOne(s: State, i: nat, m: Message, pos: nat, t: nat)
    requires Exclusive(s) && Listed(s) && i < |s.agents| && t < |s.agents|
    requires s.agents[i].at == Inside(Broadcast(m, pos)) && pos < |s.workers|
    requires Delivered(s, t) && WithinList(s, s.agents[t])
    ensures
      var s' := BroadcastStep(s, i, m, pos);
      Delivered(s', t) && WithinList(s', s'.agents[t])
  {
    hide Heard;
    var s', w := BroadcastStep(s, i, m, pos), s.workers[pos];
    assert s.workers[..pos + 1] == s.workers[..pos] + [w];
    assert w !in s.workers[..pos];
    assert w in s.workers;
    if t == w && t != i {
      assert s'.agents[t].received + s'.agents[t].queue == (s.agents[t].received + s.agents[t].queue) + [m];
    } else {
      Untouched(s, s', t);
    }
  }

  /** The broadcast has reached everyone. */
  lemma FinishDelivered(s: State, i: nat, m: Message, pos: nat)
    requires AllDelivered(s) && Exclusive(s) && Listed(s) && i < |s.agents|
    requires s.agents[i].at == Inside(Broadcast(m, pos)) && pos >= |s.workers|
    ensures AllDelivered(BroadcastStep(s, i, m, pos))
  {
    hide Heard, Extra, Delivered, BroadcastStep;
    var s' := BroadcastStep(s, i, m, pos);
    FinishSize(s, i, m, pos);
    assert WithinList(s, s.agents[i]);
    forall t | 0 <= t < |s'.agents| ensures Delivered(s', t) && WithinList(s', s'.agents[t]) {
      assert Delivered(s, t) && WithinList(s, s.agents[t]);
      FinishOne(s, i, m, pos, t);
    }
  }

  lemma FinishSize(s: State, i: nat, m: Message, pos: nat)
    requires i < |s.agents| && pos >= |s.workers|
    ensures |BroadcastStep(s, i, m, pos).agents| == |s.agents|
  {
  }

  /** What was extra while the broadcast went on is now heard. */
  lemma FinishOne(s: State, i: nat, m: Message, pos: nat, t: nat)
    requires Exclusive(s) && Listed(s) && i < |s.agents| && t < |s.agents|
    requires s.agents[i].at == Inside(Broadcast(m, pos)) && pos == |s.workers|
    requires Delivered(s, t) && WithinList(s, s.agents[t])
    ensures
      var s' := BroadcastStep(s, i, m, pos);
      Delivered(s', t) && WithinList(s', s'.agents[t])
  {
    hide Heard;
    var s', a := BroadcastStep(s, i, m, pos), s.agents[t];
    assert s.workers[..pos] == s.workers && (t in s.workers <==> Registered(a));
    assert s'.agents[t].queue == a.queue && Extra(s', t) == [];
    if a.since.Some? {
      HeardPrefix(s.sent, [(i, m)], a.since.value, End(s, a), t);
      if a.until.None? {
        HeardLast(s.sent, i, m, a.since.value, t);
      }
    }
  }

  lemma HeardLast(sent: seq<(nat, Message)>, i: nat, m: Message, since: nat, t: nat)
    requires since <= |sent|
    ensures Heard(sent + [(i, m)], since, |sent| + 1, t) == Heard(sent, since, |sent|, t) + (if i == t then [] else [m])
  {
    HeardPrefix(sent, [(i, m)], since, |sent|, t);
  }

  /** In the other critical sections no message is sent. */
  lemma SectionQueues(s: State, i: nat)
    requires i < |s.agents|
    requires s.agents[i].at.Notifying? || (s.agents[i].at.Inside? && !s.agents[i].at.section.Broadcast?)
    ensures
      var s' := WorkStep(s, i);
      && |s'.agents| == |s.agents| && s'.sent == s.sent && !s'.agents[i].at.Inside?
      && forall t :: 0 <= t < |s.agents| ==>
           var a, b := s.agents[t], s'.agents[t];
           b.received + b.queue == a.received + a.queue && (t != i ==> b.at.Inside? == a.at.Inside?)
  {
    hide WorkStep, NotifyAll;
    WorkShape(s, i);
    var a := s.agents[i];
    assert a.queue != [] ==> (a.received + [a.queue[0]]) + a.queue[1..] == a.received + a.queue;
  }

  lemma SectionExtra(s: State, i: nat, t: nat)
    requires Exclusive(s) && i < |s.agents| && t < |s.agents|
    requires s.agents[i].at.Notifying? || (s.agents[i].at.Inside? && !s.agents[i].at.section.Broadcast?)
    ensures
      var s' := WorkStep(s, i);
      t < |s'.agents| && Extra(s, t) == [] && Extra(s', t) == [] && WithinList(s', s'.agents[t])
  {
    hide WorkStep;
    SectionQueues(s, i);
    assert forall u :: 0 <= u < |s.agents| && s.agents[u].at.Inside? ==> u == i;
  }

  lemma SectionDelivered(s: State, i: nat)
    requires AllDelivered(s) && Exclusive(s) && Placed(s) && i < |s.agents|
    requires s.agents[i].at.Notifying? || (s.agents[i].at.Inside? && !s.agents[i].at.section.Broadcast?)
    ensures AllDelivered(WorkStep(s, i))
  {
    hide WorkStep, Extra, Without;
    SectionQueues(s, i);
    WorkFrame(s, i);
    var s' := WorkStep(s, i);
    assert PlaceOk(s.agents[i]);
    forall t | 0 <= t < |s'.agents| ensures Delivered(s', t) && WithinList(s', s'.agents[t]) {
      assert Delivered(s, t);
      SectionExtra(s, i, t);
      if t == i && (Registering(s.agents[i].at) || Unregistering(s.agents[i].at)) {
        assert s'.agents[t].received + s'.agents[t].queue == s.agents[t].received + s.agents[t].queue;
      } else {
        Untouched(s, s', t);
      }
    }
  }

  lemma StepDelivered(s: State, e: Event)
    requires AllDelivered(s) && Exclusive(s) && Placed(s) && Listed(s) && Enabled(s, e)
    ensures AllDelivered(Do(s, e))
  {
    hide AllDelivered, Exclusive, Placed, Listed, BroadcastStep;
    if !e.Work? {
      QuietDelivered(s, e);
    } else {
      match s.agents[e.i].at
      case Inside(Broadcast(m, pos)) =>
        if pos < |s.workers| {
          ServeDelivered(s, e.i, m, pos);
        } else {
          FinishDelivered(s, e.i, m, pos);
        }
      case _ => SectionDelivered(s, e.i);
    }
  }

  // ----- every execution -----

  ghost predicate Inv(s: State) {
    Exclusive(s) && Placed(s) && Listed(s) && Woken(s) && InOrder(s) && Handshake(s) && AllDelivered(s)
  }

  lemma InitialInv()
    ensures Inv(Initial())
  {
    var s := Initial();
    assert HandshakeAt(s, 0) && Delivered(s, 0) && WokenAt(s, 0);
  }

  lemma StepInv(s: State, e: Event)
    requires Inv(s)
    ensures Inv(Next(s, e))
  {
    hide Exclusive, Placed, Listed, Woken, InOrder, Handshake, AllDelivered, Do;
    if Enabled(s, e) {
      StepExclusive(s, e);
      StepPlaced(s, e);
      StepListed(s, e);
      StepWoken(s, e);
      StepInOrder(s, e);
      StepHandshake(s, e);
      StepDelivered(s, e);
    }
  }

  lemma {:induction false} InvOfRun(es: seq<Event>)
    ensures Inv(After(es))
    decreases |es|
  {
    hide Inv, Next;
    if es == [] {
      InitialInv();
    } else {
      InvOfRun(es[..|es| - 1]);
      StepInv(After(es[..|es| - 1]), es[|es| - 1]);
    }
  }

  /**
   In every execution, what a worker has received is, in order and each once, a prefix of the
   broadcasts others made while it was registered; when no broadcast is under way the rest of
   them are in its queue.
   */
  lemma DeliveryLaw(es: seq<Event>, t: nat)
    requires t < |After(es).agents| && After(es).agents[t].since.Some?
    ensures
      var s := After(es);
      var a := s.agents[t];
      && a.since.value <= End(s, a) <= |s.sent|
      && (s.lock.None? ==> a.received + a.queue == Heard(s.sent, a.since.value, End(s, a), t))
      && a.received <= Heard(s.sent, a.since.value, End(s, a), t) + Extra(s, t)
  {
    hide After, Heard;
    InvOfRun(es);
    assert Delivered(After(es), t);
  }

  /** Reports come out in the order reported. */
  lemma ReportsInOrder(es: seq<Event>)
    ensures After(es).taken + After(es).reports == After(es).reported
  {
    hide After;
    InvOfRun(es);
  }

  /** While the lock is free, no thread sleeps un-notified with something waiting for it. */
  lemma NoLostNotification(es: seq<Event>, t: nat)
    requires After(es).lock.None? && t < |After(es).agents|
    ensures
      var s := After(es);
      var a := s.agents[t];
      && (a.at.Sleeping? && !a.at.notified && a.at.section.Dequeue? ==> a.queue == [])
      && (a.at.Sleeping? && !a.at.notified && a.at.section.GetReport? ==> s.reports == [])
      && (a.at.Starting? && a.at.asleep ==> a.at.child < |s.agents| && !s.agents[a.at.child].didStart)
  {
    hide After;
    InvOfRun(es);
    assert HandshakeAt(After(es), t) && WokenAt(After(es), t);
  }

  /**
   Once agent.start has returned, every broadcast another thread makes while the started worker
   is registered reaches it: those made since the return come last in what it has and will receive.
   */
  lemma StartedWorkerHears(es: seq<Event>, t: nat)
    requires t < |After(es).agents| && After(es).agents[t].startedAt.Some? && After(es).lock.None?
    ensures
      var s := After(es);
      var a := s.agents[t];
      && a.since.Some? && a.since.value <= a.startedAt.value <= |s.sent|
      && (a.startedAt.value <= End(s, a) ==>
            End(s, a) <= |s.sent| &&
            a.received + a.queue
                == Heard(s.sent, a.since.value, a.startedAt.value, t) + Heard(s.sent, a.startedAt.value, End(s, a), t))
  {
    hide After, Heard;
    InvOfRun(es);
    var s := After(es);
    var a := s.agents[t];
    assert HandshakeAt(s, t);
    DeliveryLaw(es, t);
    if a.startedAt.value <= End(s, a) {
      HeardSplit(s.sent, a.since.value, a.startedAt.value, End(s, a), t);
    }
  }

  /** At most one thread is in a critical section, and the list has exactly the registered workers. */
  lemma LockLaw(es: seq<Event>, t: nat, u: nat)
    requires t < |After(es).agents| && u < |After(es).agents|
    ensures Holds(After(es).agents[t].at) && Holds(After(es).agents[u].at) ==> t == u
    ensures t in After(es).workers <==> Registered(After(es).agents[t])
    ensures Unregistering(After(es).agents[t].at) ==> t in After(es).workers
  {
    hide After;
    InvOfRun(es);
    assert PlaceOk(After(es).agents[t]);
  }
}
