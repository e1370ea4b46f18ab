/**
 Who runs next in the Richards scheduler (demo/v8_benchmark.js, 478-538, 614-644): what a round does to the current
 block and to the suspended and held bits, told from what the running block does.
 */
module SchedulerControl {
  import opened Options
  import opened RichardsScheduler
  import opened SchedulerHistory

  /** The service that a task calls. */
  datatype Act = Sending(packet: Packet) | Holding | Suspending | Releasing(id: nat)

  function Action(t: Task, p: Option<Packet>): Act {
    match Reaction(t, p).1
    case Some(q) => Sending(q)
    case None =>
      match t
      case Idle(v1, count) =>
        if count == 1 then Holding else Releasing(if v1 & 1 == 0 then ID_DEVICE_A else ID_DEVICE_B)
      case Worker(_, _) => Suspending
      case Handler(_, _) => Suspending
      case Device(_) => if p.Some? then Holding else Suspending
  }

  /** The block that is current after a round in which the running task does a. */
  function Next(u: State, a: Act): int
    requires 0 <= u.current < |u.tcbs|
  {
    match a
    case Sending(q) =>
      var k := Block(u, q.id);
      if 0 <= k < |u.tcbs| && Remaining(u, k) == [] && u.tcbs[k].priority > u.tcbs[u.current].priority then k
      else u.current
    case Holding => u.current - 1
    case Suspending => u.current
    case Releasing(id) =>
      var k := Block(u, id);
      if 0 <= k < |u.tcbs| && u.tcbs[k].priority > u.tcbs[u.current].priority then k else u.current
  }

  ghost predicate Controls(u: State, v: State, a: Act) {
    && 0 <= u.current < |u.tcbs| == |v.tcbs| && v.current == Next(u, a)
    && forall k :: 0 <= k < |u.tcbs| ==>
         && v.tcbs[k].state.suspended == (if k == u.current then a.Suspending? else u.tcbs[k].state.suspended)
         && v.tcbs[k].state.held
            == (if k == u.current then a.Holding?
                else u.tcbs[k].state.held && !(a.Releasing? && Block(u, a.id) == k))
  }

  /** A state between the taking of a packet and the end of the run. */
  ghost predicate Ready(u: State, s: State) {
    && Runs(u, u.current) && Running(s) && s.current == u.current && s.blocks == u.blocks && |s.tcbs| == |u.tcbs|
    && !s.tcbs[s.current].state.suspended && !s.tcbs[s.current].state.held
    && s.tcbs[s.current].task == u.tcbs[u.current].task
    && (forall k :: 0 <= k < |u.tcbs| ==>
          && s.tcbs[k].queue == Remaining(u, k) && s.tcbs[k].priority == u.tcbs[k].priority
          && (k != u.current ==> s.tcbs[k].state == u.tcbs[k].state))
  }

  lemma TakesReady(u: State)
    requires Inv(u) && Runs(u, u.current)
    ensures HasPacket(u.tcbs[u.current])
    ensures
      var (s, p) := TakePacket(u.(currentId := u.tcbs[u.current].id));
      Ready(u, s) && p == Taken(u)
  {
    InvIsSafe(u);
  }

  lemma SendControls(u: State, s: State, t: Task, q: Packet)
    requires Ready(u, s) && 0 <= Block(s, q.id) < |s.tcbs|
    ensures Running(SetTask(s, t)) && Controls(u, Enqueue(SetTask(s, t), q), Sending(q))
  {
    var s1 := SetTask(s, t);
    var v := Enqueue(s1, q);
    var to := Block(s, q.id);
    assert v.tcbs == s1.tcbs[to := Appended(s1.tcbs[to], q.(id := s.currentId))];
  }

  lemma HoldControls(u: State, s: State, t: Task)
    requires Ready(u, s)
    ensures Running(SetTask(s, t)) && Controls(u, HoldCurrent(SetTask(s, t)), Holding)
  {
  }

  lemma SuspendControls(u: State, s: State, t: Task)
    requires Ready(u, s)
    ensures Running(SetTask(s, t)) && Controls(u, SuspendCurrent(SetTask(s, t)), Suspending)
  {
  }

  lemma ReleaseControls(u: State, s: State, t: Task, id: nat)
    requires Ready(u, s) && 0 <= Block(s, id) < |s.tcbs|
    ensures Running(SetTask(s, t)) && Controls(u, Release(SetTask(s, t), id), Releasing(id))
  {
  }

  /** What a called task does to the control of the scheduler. */
  lemma TaskControls(u: State, s: State, p: Option<Packet>)
    requires Ready(u, s) && Called(s, p)
    ensures Controls(u, RunTask(s, p), Action(s.tcbs[s.current].task, p))
  {
    hide Ready, Controls, HoldCurrent, SuspendCurrent, Release, Enqueue, HalfSigned, Letter, Called;
    ReadyRuns(u, s);
    CalledBlocks(s, p);
    var t := s.tcbs[s.current].task;
    var t' := Reaction(t, p).0;
    match Action(t, p) {
      case Sending(q) => SendControls(u, s, t', q);
      case Holding => HoldControls(u, s, t');
      case Suspending =>
        SameTask(s);
        SuspendControls(u, s, t');
      case Releasing(id) => ReleaseControls(u, s, t', id);
    }
  }

  lemma ReadyRuns(u: State, s: State)
    requires Ready(u, s)
    ensures Running(s) && s.current == u.current && s.tcbs[s.current].task == u.tcbs[u.current].task
  {
  }

  /** Every round of a running block. */
  lemma RoundControls(u: State)
    requires Inv(u) && Runs(u, u.current)
    ensures Indexed(u) && HasPacket(u.tcbs[u.current])
    ensures Controls(u, Step(u), Action(u.tcbs[u.current].task, Taken(u)))
  {
    hide Inv, Ready, RunTask, Called, Action, TakePacket, Controls;
    InvIsSafe(u);
    var u0 := u.(currentId := u.tcbs[u.current].id);
    SetCurrentId(u, u0.currentId, (0, WorkKind));
    KeptInv(u, u0, (0, WorkKind), 0);
    TakeKeeps(u0, (0, WorkKind));
    TakesReady(u);
    var (s, p) := TakePacket(u0);
    ReadyRuns(u, s);
    TaskControls(u, s, p);
  }
}
