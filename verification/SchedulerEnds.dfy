/**
 schedule() of the Richards scheduler ends (demo/v8_benchmark.js, 478-488): every round that runs a
 task lowers a potential. Packets of the two kinds go round between handlers and devices, and
 between handlers and the worker; what keeps them going is the count of the idle task.
 */
module SchedulerEnds {
  import Arithmetic
  import opened Options
  import opened RichardsScheduler

  datatype Role = IdleRole | WorkerRole | HandlerRole | DeviceRole | Nobody

  function RoleOf(t: Task): Role {
    match t
    case Idle(_, _) => IdleRole
    case Worker(_, _) => WorkerRole
    case Handler(_, _) => HandlerRole
    case Device(_) => DeviceRole
  }

  /** The role of the block with a certain id. */
  function RoleAt(s: State, id: nat): Role {
    if Indexed(s) && id < NUMBER_OF_IDS && s.blocks[id] >= 0 then RoleOf(s.tcbs[s.blocks[id]].task) else Nobody
  }

  // ----- which packets are where -----

  /** A device's packets come from handlers; a handler's come from devices or from the worker, by their kind. */
  predicate Fits(s: State, r: Role, p: Packet) {
    match r
    case DeviceRole => p.kind == DeviceKind && RoleAt(s, p.id) == HandlerRole
    case WorkerRole => p.kind == WorkKind
    case HandlerRole => RoleAt(s, p.id) == if p.kind == DeviceKind then DeviceRole else WorkerRole
    case _ => false
  }

  predicate AllFit(s: State, r: Role, ps: seq<Packet>) { forall i :: 0 <= i < |ps| ==> Fits(s, r, ps[i]) }

  predicate OfKind(kind: Kind, ps: seq<Packet>) { forall i :: 0 <= i < |ps| ==> ps[i].kind == kind }

  /** Packets are where they should be, and an idle task that is not held has rounds left. */
  predicate TaskFits(s: State, t: Tcb) {
    match t.task
    case Idle(_, count) => t.state.held || count >= 1
    case Worker(_, _) => true
    case Handler(work, device) =>
      && OfKind(WorkKind, work) && OfKind(DeviceKind, device)
      && AllFit(s, HandlerRole, work) && AllFit(s, HandlerRole, device)
    case Device(slot) => slot.Some? ==> Fits(s, DeviceRole, slot.value)
  }

  predicate BlockFits(s: State, t: Tcb) { AllFit(s, RoleOf(t.task), t.queue) && TaskFits(s, t) }

  predicate Named(s: State) {
    && RoleAt(s, ID_HANDLER_A) == RoleAt(s, ID_HANDLER_B) == HandlerRole
    && RoleAt(s, ID_DEVICE_A) == RoleAt(s, ID_DEVICE_B) == DeviceRole
  }

  predicate Roles(s: State) { Named(s) && forall k :: 0 <= k < |s.tcbs| ==> BlockFits(s, s.tcbs[k]) }

  // ----- the potential -----

  /** A work packet whose data have all been sent on. */
  function Full(p: Packet): int { if p.a1 >= DATA_SIZE then 4 else 0 }

  function Weight(r: Role, p: Packet): int {
    match r
    case DeviceRole => 2
    case WorkerRole => 3
    case HandlerRole => if p.kind == DeviceKind then 8 else Full(p) + 1
    case _ => 0
  }

  function ListWeight(r: Role, ps: seq<Packet>): (w: int)
    ensures w >= 0
  {
    if ps == [] then 0 else Weight(r, ps[0]) + ListWeight(r, ps[1..])
  }

  function FullWeight(ps: seq<Packet>): (w: int)
    ensures w >= 0
  {
    if ps == [] then 0 else Full(ps[0]) + FullWeight(ps[1..])
  }

  function TaskWeight(t: Tcb): int {
    match t.task
    case Idle(_, count) => if t.state.held then 0 else 10 * count
    case Worker(_, _) => 0
    case Handler(work, device) => FullWeight(work) + 7 * |device|
    case Device(slot) => if slot.Some? && !t.state.held then 9 else 0
  }

  function Awake(t: Tcb): int { if t.task.Idle? || t.state.suspended then 0 else 1 }

  function BlockWeight(t: Tcb): int { ListWeight(RoleOf(t.task), t.queue) + TaskWeight(t) + Awake(t) }

  function Potential(ts: seq<Tcb>): int {
    if ts == [] then 0 else Potential(ts[..|ts| - 1]) + BlockWeight(ts[|ts| - 1])
  }

  lemma {:induction false} PotentialUpdate(ts: seq<Tcb>, k: nat, t: Tcb)
    requires k < |ts|
    ensures Potential(ts[k := t]) == Potential(ts) - BlockWeight(ts[k]) + BlockWeight(t)
  {
    hide BlockWeight;
    var n := |ts| - 1;
    if k == n {
      assert ts[k := t][..n] == ts[..n];
    } else {
      PotentialUpdate(ts[..n], k, t);
      assert ts[k := t][..n] == ts[..n][k := t];
    }
  }

  lemma {:induction false} PotentialNonNegative(s: State, n: nat)
    requires Roles(s) && n <= |s.tcbs|
    ensures Potential(s.tcbs[..n]) >= 0
  {
    if n > 0 {
      PotentialNonNegative(s, n - 1);
      assert BlockFits(s, s.tcbs[n - 1]);
      assert s.tcbs[..n][..n - 1] == s.tcbs[..n - 1];
    }
  }

  lemma {:induction false} ListWeightAppend(r: Role, ps: seq<Packet>, p: Packet)
    ensures ListWeight(r, ps + [p]) == ListWeight(r, ps) + Weight(r, p)
  {
    if ps == [] {
      assert ps + [p] == [p] && [p][1..] == [];
    } else {
      ListWeightAppend(r, ps[1..], p);
      assert (ps + [p])[1..] == ps[1..] + [p];
    }
  }

  lemma {:induction false} FullWeightAppend(ps: seq<Packet>, p: Packet)
    ensures FullWeight(ps + [p]) == FullWeight(ps) + Full(p)
  {
    if ps == [] {
      assert ps + [p] == [p] && [p][1..] == [];
    } else {
      FullWeightAppend(ps[1..], p);
      assert (ps + [p])[1..] == ps[1..] + [p];
    }
  }

  // ----- what an operation does to it -----

  /** The roles are kept and the potential grows by d. */
  ghost predicate Shifts(s: State, s': State, d: int) {
    && Roles(s') && s'.blocks == s.blocks && |s'.tcbs| == |s.tcbs| && (forall id :: RoleAt(s', id) == RoleAt(s, id))
    && Potential(s'.tcbs) == Potential(s.tcbs) + d
  }

  lemma ShiftsTrans(s: State, s1: State, s2: State, d: int, e: int)
    requires Shifts(s, s1, d) && Shifts(s1, s2, e)
    ensures Shifts(s, s2, d + e)
  {
    hide Roles, Potential;
  }

  /** Replacing one block by another that fits, in the same role. */
  lemma ReplaceShifts(s: State, k: nat, t: Tcb, s': State)
    requires Roles(s) && Indexed(s) && k < |s.tcbs| && RoleOf(t.task) == RoleOf(s.tcbs[k].task) && BlockFits(s, t)
    requires s'.tcbs == s.tcbs[k := t] && s'.blocks == s.blocks
    ensures Shifts(s, s', BlockWeight(t) - BlockWeight(s.tcbs[k]))
  {
    hide Potential, BlockWeight;
    PotentialUpdate(s.tcbs, k, t);
    assert forall id :: RoleAt(s', id) == RoleAt(s, id);
    forall j | 0 <= j < |s'.tcbs| ensures BlockFits(s', s'.tcbs[j]) {
      assert j != k ==> BlockFits(s, s.tcbs[j]);
      SameRolesFit(s, s', s'.tcbs[j]);
    }
  }

  lemma SameRolesFit(s: State, s': State, t: Tcb)
    requires BlockFits(s, t) && forall id :: RoleAt(s', id) == RoleAt(s, id)
    ensures BlockFits(s', t)
  {
    hide RoleAt;
    assert forall r, p :: Fits(s', r, p) == Fits(s, r, p);
  }

  /** The running block is replaced by one that differs in its state word or its task. */
  lemma CurrentShifts(s: State, t: Tcb, s': State)
    requires Roles(s) && Running(s) && RoleOf(t.task) == RoleOf(s.tcbs[s.current].task)
    requires t.queue == s.tcbs[s.current].queue && TaskFits(s, t)
    requires s'.tcbs == s.tcbs[s.current := t] && s'.blocks == s.blocks
    ensures Shifts(s, s', TaskWeight(t) + Awake(t) - TaskWeight(s.tcbs[s.current]) - Awake(s.tcbs[s.current]))
  {
    hide Potential, Fits, TaskFits;
    assert BlockFits(s, s.tcbs[s.current]);
    ReplaceShifts(s, s.current, t, s');
  }

  lemma EnqueueShifts(s: State, p: Packet)
    requires Roles(s) && Running(s) && Block(s, p.id) >= 0 && Fits(s, RoleAt(s, p.id), p.(id := s.currentId))
    ensures Shifts(s, Enqueue(s, p), Weight(RoleAt(s, p.id), p))
  {
    hide Potential, Fits, BlockFits, BlockWeight, Shifts;
    var k, p' := Block(s, p.id), p.(id := s.currentId);
    var t := s.tcbs[k];
    assert BlockFits(s, t);
    AppendedFits(s, t, p');
    assert Enqueue(s, p).tcbs == s.tcbs[k := Appended(t, p')];
    ReplaceShifts(s, k, Appended(t, p'), Enqueue(s, p));
  }

  lemma AppendedFits(s: State, t: Tcb, p: Packet)
    requires BlockFits(s, t) && Fits(s, RoleOf(t.task), p)
    ensures
      var t' := Appended(t, p);
      t'.task == t.task && BlockFits(s, t') && BlockWeight(t') == BlockWeight(t) + Weight(RoleOf(t.task), p)
  {
    hide Fits;
    assert t.queue == [] ==> t.queue + [p] == [p];
    ListWeightAppend(RoleOf(t.task), t.queue, p);
    assert AllFit(s, RoleOf(t.task), t.queue + [p]);
  }

  /** A task runs: its block is awake and not held. */
  predicate Runnable(s: State) {
    && Running(s) && s.currentId == s.tcbs[s.current].id
    && !s.tcbs[s.current].state.suspended && !s.tcbs[s.current].state.held
  }

  lemma SuspendLowers(s: State)
    requires Roles(s) && Runnable(s) && !s.tcbs[s.current].task.Idle?
    ensures Shifts(s, SuspendCurrent(s), -1)
  {
    hide Potential, Fits;
    var b := s.tcbs[s.current];
    assert BlockFits(s, b);
    CurrentShifts(s, b.(state := b.state.(suspended := true)), SuspendCurrent(s));
  }

  /** What the current task is given, besides, before it runs. */
  function Given(s: State, p: Option<Packet>): int
    requires Running(s)
  {
    if p.None? then 0 else Weight(RoleOf(s.tcbs[s.current].task), p.value) - 1
  }

  /** The task's run lowers the potential, counting the packet it is given. */
  ghost predicate Lowers(s: State, p: Option<Packet>, s': State)
    requires Running(s)
  {
    exists d :: d < Given(s, p) && Shifts(s, s', d)
  }

  lemma LowersBy(s: State, p: Option<Packet>, s': State, d: int)
    requires Running(s) && Shifts(s, s', d) && d < Given(s, p)
    ensures Lowers(s, p, s')
  {
  }

  lemma DeviceLowers(s: State, p: Option<Packet>)
    requires Roles(s) && Runnable(s) && s.tcbs[s.current].task.Device? && Configured(s)
    requires p.Some? ==> Fits(s, DeviceRole, p.value) && s.tcbs[s.current].task.slot.None?
    ensures Lowers(s, p, RunDevice(s, p))
  {
    hide Potential, Shifts, Lowers, Enqueue;
    var b := s.tcbs[s.current];
    assert BlockFits(s, b);
    if p.Some? {
      var t := b.(task := Device(p), state := b.state.(held := true));
      assert RunDevice(s, p).tcbs == s.tcbs[s.current := t];
      CurrentShifts(s, t, RunDevice(s, p));
      LowersBy(s, p, RunDevice(s, p), 0);
    } else if b.task.slot.None? {
      SuspendLowers(s);
      LowersBy(s, p, RunDevice(s, p), -1);
    } else {
      var v, s1 := b.task.slot.value, SetTask(s, Device(None));
      CurrentShifts(s, b.(task := Device(None)), s1);
      SendShifts(s, s1, -9, v);
      LowersBy(s, p, RunDevice(s, p), -1);
    }
  }

  /** Sending after a change of task. */
  lemma SendShifts(s: State, s1: State, d: int, v: Packet)
    requires Runnable(s) && Configured(s) && Shifts(s, s1, d) && Running(s1) && s1.current == s.current
    requires s1.currentId == s.currentId
    requires s1.tcbs[s.current].id == s.currentId
    requires RoleAt(s, v.id) != Nobody && Fits(s, RoleAt(s, v.id), v.(id := s.currentId))
    ensures Shifts(s, Enqueue(s1, v), d + Weight(RoleAt(s, v.id), v))
  {
    hide Potential, Enqueue, Roles;
    EnqueueShifts(s1, v);
    ShiftsTrans(s, s1, Enqueue(s1, v), d, Weight(RoleAt(s, v.id), v));
  }

  lemma OwnRole(s: State)
    requires Runnable(s) && Configured(s)
    ensures RoleAt(s, s.currentId) == RoleOf(s.tcbs[s.current].task)
  {
  }

  lemma WorkerLowers(s: State, p: Option<Packet>)
    requires Roles(s) && Runnable(s) && s.tcbs[s.current].task.Worker? && Configured(s)
    requires p.Some? ==> Fits(s, WorkerRole, p.value)
    ensures Lowers(s, p, RunWorker(s, p))
  {
    hide Potential, Shifts, Lowers, Enqueue, Letter, Configured, AllFit;
    OwnRole(s);
    var b := s.tcbs[s.current];
    if p.None? {
      SuspendLowers(s);
      LowersBy(s, p, RunWorker(s, p), -1);
    } else {
      var target := if b.task.target == ID_HANDLER_A then ID_HANDLER_B else ID_HANDLER_A;
      var data := seq(DATA_SIZE, i requires 0 <= i < DATA_SIZE => Letter(b.task.v2, i + 1));
      var t := Worker(target, Letter(b.task.v2, DATA_SIZE));
      var q, s1 := p.value.(id := target, a1 := 0, a2 := data), SetTask(s, t);
      CurrentShifts(s, b.(task := t), s1);
      SendShifts(s, s1, 0, q);
      LowersBy(s, p, RunWorker(s, p), 1);
    }
  }

  /** Accepting a packet adds to the handler's weight what it is given. */
  lemma AcceptWeight(s: State, b: Tcb, p: Option<Packet>)
    requires b.task.Handler? && BlockFits(s, b) && (p.Some? ==> Fits(s, HandlerRole, p.value))
    ensures
      var b' := b.(task := Accept(b.task, p));
      && b'.task.Handler? && BlockFits(s, b') && Awake(b') == Awake(b)
      && TaskWeight(b') == TaskWeight(b) + if p.None? then 0 else Weight(HandlerRole, p.value) - 1
  {
    hide Fits;
    if p.Some? {
      FullWeightAppend(b.task.work, p.value);
    }
  }

  lemma FirstWeight(ps: seq<Packet>, q: Packet)
    requires ps != []
    ensures FullWeight(ps) == Full(ps[0]) + FullWeight(ps[1..])
    ensures FullWeight(ps[0 := q]) == Full(q) + FullWeight(ps[1..])
  {
    assert ps[0 := q][1..] == ps[1..];
  }

  /** The handler's task becomes t and it sends v. */
  lemma HandlerSends(s: State, p: Option<Packet>, t: Task, v: Packet)
    requires Roles(s) && Runnable(s) && Configured(s) && s.tcbs[s.current].task.Handler? && t.Handler?
    requires TaskFits(s, s.tcbs[s.current].(task := t)) && Fits(s, HandlerRole, v)
    requires
      var b := s.tcbs[s.current];
      TaskWeight(b.(task := t)) - TaskWeight(b) + (if v.kind == DeviceKind then 2 else 3) < Given(s, p)
    ensures Lowers(s, p, Enqueue(SetTask(s, t), v))
  {
    hide Potential, Shifts, Lowers, Enqueue, Configured, TaskFits, TaskWeight, Roles;
    OwnRole(s);
    var b, s1 := s.tcbs[s.current], SetTask(s, t);
    var d := TaskWeight(b.(task := t)) - TaskWeight(b);
    CurrentShifts(s, b.(task := t), s1);
    SendShifts(s, s1, d, v);
    LowersBy(s, p, Enqueue(s1, v), d + Weight(RoleAt(s, v.id), v));
  }

  lemma HandlerLowers(s: State, p: Option<Packet>)
    requires Roles(s) && Runnable(s) && s.tcbs[s.current].task.Handler? && Configured(s)
    requires p.Some? ==> Fits(s, HandlerRole, p.value)
    ensures Lowers(s, p, RunHandler(s, p))
  {
    hide Potential, Shifts, Lowers, Enqueue, Accept, Configured, Fits, BlockFits, TaskWeight;
    var b := s.tcbs[s.current];
    assert BlockFits(s, b);
    AcceptWeight(s, b, p);
    var t := Accept(b.task, p);
    if t.work != [] && t.work[0].a1 >= DATA_SIZE {
      WorkGoes(s, b, t);
      HandlerSends(s, p, t.(work := t.work[1..]), t.work[0]);
    } else if t.work != [] && t.device != [] {
      var w := t.work[0];
      DeviceGoes(s, b, t);
      HandlerSends(s, p, Handler(t.work[0 := w.(a1 := w.a1 + 1)], t.device[1..]), t.device[0].(a1 := Data(w)));
    } else {
      var t' := b.(task := t, state := b.state.(suspended := true));
      assert RunHandler(s, p).tcbs == s.tcbs[s.current := t'];
      AsleepSame(s, b.(task := t), t');
      CurrentShifts(s, t', RunHandler(s, p));
      LowersBy(s, p, RunHandler(s, p), TaskWeight(t') - TaskWeight(b) - 1);
    }
  }

  lemma AsleepSame(s: State, t: Tcb, t': Tcb)
    requires t.task.Handler? && BlockFits(s, t) && t' == t.(state := t'.state)
    ensures TaskFits(s, t') && TaskWeight(t') == TaskWeight(t)
  {
  }

  /** A full work packet leaves the handler. */
  lemma WorkGoes(s: State, b: Tcb, t: Task)
    requires t.Handler? && b.task.Handler? && BlockFits(s, b.(task := t)) && t.work != [] && t.work[0].a1 >= DATA_SIZE
    ensures
      var t' := t.(work := t.work[1..]);
      && TaskFits(s, b.(task := t')) && Fits(s, HandlerRole, t.work[0]) && t.work[0].kind == WorkKind
      && TaskWeight(b.(task := t')) == TaskWeight(b.(task := t)) - 4
  {
    hide Fits;
    FirstWeight(t.work, t.work[0]);
  }

  /** A device packet leaves the handler with a datum of the first work packet. */
  lemma DeviceGoes(s: State, b: Tcb, t: Task)
    requires t.Handler? && b.task.Handler? && BlockFits(s, b.(task := t)) && t.work != [] && t.device != []
    ensures
      var w, v := t.work[0], t.device[0].(a1 := Data(t.work[0]));
      var t' := Handler(t.work[0 := w.(a1 := w.a1 + 1)], t.device[1..]);
      && TaskFits(s, b.(task := t')) && Fits(s, HandlerRole, v) && v.kind == DeviceKind
      && TaskWeight(b.(task := t')) <= TaskWeight(b.(task := t)) - 3
  {
    hide Fits;
    var w := t.work[0];
    FirstWeight(t.work, w.(a1 := w.a1 + 1));
    FitsWithA1(s, w, w.(a1 := w.a1 + 1));
    FitsWithA1(s, t.device[0], t.device[0].(a1 := Data(w)));
  }

  lemma FitsWithA1(s: State, p: Packet, q: Packet)
    requires q.id == p.id && q.kind == p.kind
    ensures forall r :: Fits(s, r, p) <==> Fits(s, r, q)
  {
  }

  lemma IdleLowers(s: State)
    requires Roles(s) && Runnable(s) && s.tcbs[s.current].task.Idle?
    ensures Lowers(s, None, RunIdle(s))
  {
    hide Potential, Shifts, Lowers, HalfSigned, Fits, Release, HoldCurrent;
    var b := s.tcbs[s.current];
    assert BlockFits(s, b);
    var count := b.task.count - 1;
    if count == 0 {
      var t := b.(task := Idle(b.task.v1, 0), state := b.state.(held := true));
      HoldIs(SetTask(s, Idle(b.task.v1, 0)));
      assert RunIdle(s).tcbs == s.tcbs[s.current := t];
      CurrentShifts(s, t, RunIdle(s));
      LowersBy(s, None, RunIdle(s), -10);
    } else {
      var v1 := if b.task.v1 & 1 == 0 then HalfSigned(b.task.v1) else HalfSigned(b.task.v1) ^ 0xD008;
      var s1 := SetTask(s, Idle(v1, count));
      CurrentShifts(s, b.(task := Idle(v1, count)), s1);
      var id := if b.task.v1 & 1 == 0 then ID_DEVICE_A else ID_DEVICE_B;
      ReleaseShifts(s, s1, id, -10);
    }
  }

  lemma HoldIs(s: State)
    requires Running(s)
    ensures HoldCurrent(s).blocks == s.blocks
    ensures HoldCurrent(s).tcbs
            == s.tcbs[s.current := s.tcbs[s.current].(state := s.tcbs[s.current].state.(held := true))]
  {
  }

  /** Releasing a device raises the potential by at most nine. */
  lemma ReleaseShifts(s: State, s1: State, id: nat, d: int)
    requires Running(s) && Shifts(s, s1, d) && Running(s1) && RoleAt(s, id) == DeviceRole && d <= -10
    ensures Lowers(s, None, Release(s1, id))
  {
    hide Potential, Fits, Lowers;
    var k := Block(s1, id);
    var b := s1.tcbs[k];
    assert RoleAt(s1, id) == DeviceRole;
    assert BlockFits(s1, b);
    var t := b.(state := b.state.(held := false));
    ReplaceShifts(s1, k, t, Release(s1, id));
    ShiftsTrans(s, s1, Release(s1, id), d, BlockWeight(t) - BlockWeight(b));
    LowersBy(s, None, Release(s1, id), d + BlockWeight(t) - BlockWeight(b));
  }

  // ----- every round lowers a measure -----

  /** The situation in which a task's run method is called with p. */
  predicate Ready(s: State, p: Option<Packet>) {
    && Roles(s) && Runnable(s)
    && var t := s.tcbs[s.current].task;
       p.Some? ==> Fits(s, RoleOf(t), p.value) && !t.Idle? && (t.Device? ==> t.slot.None?)
  }

  lemma TakeShifts(s: State)
    requires Inv(s) && Roles(s) && Running(s) && s.currentId == s.tcbs[s.current].id
    requires !s.tcbs[s.current].IsHeldOrSuspended()
    ensures HasPacket(s.tcbs[s.current])
    ensures
      var (s1, p) := TakePacket(s);
      Ready(s1, p) && Configured(s1) && s1.current == s.current && Shifts(s, s1, -Given(s1, p))
  {
    hide Potential, Fits, Configured;
    InvFacts(s);
    InvConfigured(s);
    var b := s.tcbs[s.current];
    TakeOk(s, b);
    assert BlockFits(s, b);
    var (s1, p) := TakePacket(s);
    if b.state == SUSPENDED_RUNNABLE {
      var t := s1.tcbs[s.current];
      ReplaceShifts(s, s.current, t, s1);
      SameRolesFitPacket(s, s1, b.queue[0]);
      SameConfiguration(s, t, s1);
    }
  }

  lemma InvConfigured(s: State)
    requires Inv(s)
    ensures Configured(s)
  {
  }

  lemma SameRolesFitPacket(s: State, s': State, p: Packet)
    requires forall id :: RoleAt(s', id) == RoleAt(s, id)
    ensures forall r :: Fits(s', r, p) == Fits(s, r, p)
  {
  }

  lemma SameConfiguration(s: State, t: Tcb, s': State)
    requires Configured(s) && Running(s) && s'.blocks == s.blocks && s'.current == s.current
    requires t.id == s.tcbs[s.current].id && t.priority == s.tcbs[s.current].priority
    requires t.task == s.tcbs[s.current].task && s'.tcbs == s.tcbs[s.current := t]
    ensures Configured(s')
  {
    ShapeKeepsConfiguration(s, s');
  }

  lemma TaskLowers(s: State, p: Option<Packet>)
    requires Ready(s, p) && Configured(s)
    ensures Lowers(s, p, RunTask(s, p))
  {
    hide Lowers, RunIdle, RunWorker, RunHandler, RunDevice, Configured, Roles, Fits;
    match s.tcbs[s.current].task
    case Idle(_, _) => IdleLowers(s);
    case Worker(_, _) => WorkerLowers(s, p);
    case Handler(_, _) => HandlerLowers(s, p);
    case Device(_) => DeviceLowers(s, p);
  }

  /** A round that runs a task keeps the roles and lowers the potential. */
  lemma RunLowers(s: State)
    requires Inv(s) && Roles(s) && Running(s) && !s.tcbs[s.current].IsHeldOrSuspended()
    ensures HasPacket(s.tcbs[s.current])
    ensures Roles(Step(s)) && |Step(s).tcbs| == |s.tcbs| && Potential(Step(s).tcbs) < Potential(s.tcbs)
  {
    hide Inv, Potential, RunTask, TakePacket, Configured, Everywhere, Kept;
    var s0 := s.(currentId := s.tcbs[s.current].id);
    SetCurrentId(s, s0.currentId, (0, WorkKind));
    KeptInv(s, s0, (0, WorkKind), 0);
    SetIdRoles(s, s0.currentId);
    TakeShifts(s0);
    var (s1, p) := TakePacket(s0);
    TaskLowers(s1, p);
    var d :| d < Given(s1, p) && Shifts(s1, RunTask(s1, p), d);
    ShiftsTrans(s0, s1, RunTask(s1, p), -Given(s1, p), d);
  }

  lemma SetIdRoles(s: State, id: nat)
    requires Roles(s)
    ensures Roles(s.(currentId := id))
  {
    var s0 := s.(currentId := id);
    assert forall i :: RoleAt(s0, i) == RoleAt(s, i);
    forall k | 0 <= k < |s.tcbs| ensures BlockFits(s0, s.tcbs[k]) { SameRolesFit(s, s0, s.tcbs[k]); }
  }

  /** A bound on the rounds that are left. */
  function Measure(s: State): int { (|s.tcbs| + 1) * Potential(s.tcbs) + s.current + 1 }

  lemma StepLowers(s: State)
    requires Inv(s) && Roles(s) && 0 <= s.current
    ensures HasPacket(s.tcbs[s.current]) && Roles(Step(s)) && Measure(Step(s)) < Measure(s)
  {
    hide Inv, Roles, Potential, RunBlock;
    StepIsSafe(s);
    if s.tcbs[s.current].IsHeldOrSuspended() {
      SkipRoles(s);
    } else {
      RunLowers(s);
      InvIsSafe(Step(s));
      MeasureArith(|s.tcbs| + 1, Potential(s.tcbs), Potential(Step(s).tcbs));
    }
  }

  lemma SkipRoles(s: State)
    requires Roles(s)
    ensures Roles(s.(current := s.current - 1))
  {
    var s0 := s.(current := s.current - 1);
    assert forall i :: RoleAt(s0, i) == RoleAt(s, i);
    forall k | 0 <= k < |s.tcbs| ensures BlockFits(s0, s.tcbs[k]) { SameRolesFit(s, s0, s.tcbs[k]); }
  }

  lemma MeasureArith(n: int, x: int, y: int)
    requires n > 0 && y < x
    ensures n * y + n <= n * x
  {
    Arithmetic.MulMonotone(y + 1, x, n);
    Arithmetic.Distribute(n, y, 1);
  }

  lemma MeasureNonNegative(s: State)
    requires Inv(s) && Roles(s)
    ensures Measure(s) >= 0
  {
    hide Inv, Roles, Potential;
    InvIsSafe(s);
    PotentialNonNegative(s, |s.tcbs|);
    assert s.tcbs[..|s.tcbs|] == s.tcbs;
    Arithmetic.MulMonotone(0, Potential(s.tcbs), |s.tcbs| + 1);
  }

  /** From every good state with packets in their roles, schedule() ends after at most Measure rounds. */
  lemma {:induction false} ScheduleEnds(s: State, n: nat)
    requires Inv(s) && Roles(s) && n >= Measure(s)
    ensures Rounds(s, n).current == -1
    decreases n
  {
    hide Inv, Roles, Measure, Rounds;
    MeasureNonNegative(s);
    InvIsSafe(s);
    if s.current < 0 {
      StaysEnded(s, n);
    } else {
      StepLowers(s);
      OneRound(s);
      MeasureNonNegative(Rounds(s, 1));
      ScheduleEnds(Rounds(s, 1), n - 1);
      FirstRound(s, n - 1);
    }
  }

  lemma OneRound(s: State)
    requires Inv(s)
    ensures Indexed(s) && -1 <= s.current < |s.tcbs| && (s.current >= 0 ==> HasPacket(s.tcbs[s.current]))
    ensures Rounds(s, 1) == Step(s)
  {
    hide Inv, Step;
    StepIsSafe(s);
    assert Rounds(s, 0) == s;
  }

  lemma {:induction false} StaysEnded(s: State, n: nat)
    requires Inv(s) && s.current < 0
    ensures Rounds(s, n) == s
  {
    hide Inv;
    if n > 0 { StaysEnded(s, n - 1); }
  }

  /** A round first, then n rounds. */
  lemma {:induction false} FirstRound(s: State, n: nat)
    requires Inv(s)
    ensures Rounds(Rounds(s, 1), n) == Rounds(s, n + 1)
  {
    hide Inv, Step;
    if n > 0 { FirstRound(s, n - 1); }
  }

  // ----- and without rounds for the idle task it does not end -----

  /** Block k is an idle task that has missed the end of its count. */
  predicate Spinning(s: State, k: nat) {
    && k < |s.tcbs| && s.tcbs[k].task.Idle? && s.tcbs[k].task.count <= 0 && s.tcbs[k].state == RUNNING
    && Named(s)
  }

  lemma EnqueueSpares(s: State, p: Packet, k: nat)
    requires Running(s) && Routable(s, p.id) && k < |s.tcbs| && s.tcbs[k].task.Idle?
    ensures |Enqueue(s, p).tcbs| == |s.tcbs| && Enqueue(s, p).tcbs[k] == s.tcbs[k]
  {
  }

  /** Another task's run leaves an idle block alone. */
  lemma RunSpares(s: State, p: Option<Packet>, k: nat)
    requires Called(s, p) && k < |s.tcbs| && s.tcbs[k].task.Idle? && s.current != k && !s.tcbs[s.current].task.Idle?
    ensures Running(s) && |RunTask(s, p).tcbs| == |s.tcbs| && RunTask(s, p).tcbs[k] == s.tcbs[k]
  {
    hide Inv, Routable, Called, BlockOk, Enqueue, Letter, Configured;
    CalledFacts(s, p);
    var b := s.tcbs[s.current];
    match b.task
    case Idle(_, _) =>
    case Worker(_, _) =>
      if p.Some? {
        var target := if b.task.target == ID_HANDLER_A then ID_HANDLER_B else ID_HANDLER_A;
        var data := seq(DATA_SIZE, i requires 0 <= i < DATA_SIZE => Letter(b.task.v2, i + 1));
        var t := Worker(target, Letter(b.task.v2, DATA_SIZE));
        var s1 := SetTask(s, t);
        SameRoutes(s, t, s1);
        EnqueueSpares(s1, p.value.(id := target, a1 := 0, a2 := data), k);
      }
    case Handler(_, _) =>
      var t := Accept(b.task, p);
      AcceptOk(s, b, p);
      if t.work != [] && t.work[0].a1 >= DATA_SIZE {
        var t' := t.(work := t.work[1..]);
        var s1 := SetTask(s, t');
        SameRoutes(s, t', s1);
        EnqueueSpares(s1, t.work[0], k);
      } else if t.work != [] && t.device != [] {
        var w := t.work[0];
        var t' := t.(work := t.work[0 := w.(a1 := w.a1 + 1)], device := t.device[1..]);
        var s1 := SetTask(s, t');
        SameRoutes(s, t', s1);
        EnqueueSpares(s1, t.device[0].(a1 := Data(w)), k);
      }
    case Device(slot) =>
      if p.None? && slot.Some? {
        DeviceOk(s, b, None);
        var s1 := SetTask(s, Device(None));
        SameRoutes(s, Device(None), s1);
        EnqueueSpares(s1, slot.value, k);
      }
  }

  /** A task of the same kind changes no address. */
  lemma SameRoutes(s: State, t: Task, s': State)
    requires Running(s) && s'.blocks == s.blocks && s'.current == s.current
    requires SameKind(t, s.tcbs[s.current].task) && s'.tcbs == s.tcbs[s.current := s.tcbs[s.current].(task := t)]
    ensures Running(s') && forall id :: Routable(s', id) <==> Routable(s, id)
  {
  }

  /** An idle task's run keeps a spinning block spinning, be it its own or another. */
  lemma IdleSpins(s: State, k: nat)
    requires Running(s) && s.tcbs[s.current].task.Idle? && Spinning(s, k)
    ensures
      var ts := RunIdle(s).tcbs;
      |ts| == |s.tcbs| && ts[k].task.Idle? && ts[k].task.count <= 0 && ts[k].state == RUNNING
  {
    hide HalfSigned;
    assert RoleAt(s, ID_DEVICE_A) == RoleAt(s, ID_DEVICE_B) == DeviceRole;
    assert Block(s, ID_DEVICE_A) != k && Block(s, ID_DEVICE_B) != k;
  }

  lemma TakeSpares(s: State, k: nat)
    requires Running(s) && HasPacket(s.tcbs[s.current]) && k < |s.tcbs| && s.tcbs[k].state == RUNNING
    ensures
      var s1 := TakePacket(s).0;
      Running(s1) && s1.current == s.current && s1.blocks == s.blocks && |s1.tcbs| == |s.tcbs|
          && s1.tcbs[k] == s.tcbs[k]
    ensures TakePacket(s).0.tcbs[s.current].task == s.tcbs[s.current].task
    ensures forall id :: RoleAt(TakePacket(s).0, id) == RoleAt(s, id)
  {
  }

  lemma RunSpins(s: State, p: Option<Packet>, k: nat)
    requires Called(s, p) && Running(s) && Spinning(s, k)
    ensures
      var ts := RunTask(s, p).tcbs;
      |ts| == |s.tcbs| && ts[k].task.Idle? && ts[k].task.count <= 0 && ts[k].state == RUNNING
  {
    hide Called, RunIdle, RunWorker, RunHandler, RunDevice, Indexed;
    if s.tcbs[s.current].task.Idle? {
      IdleSpins(s, k);
    } else {
      RunSpares(s, p, k);
    }
  }

  lemma StepSpins(s: State, k: nat)
    requires Inv(s) && Spinning(s, k)
    ensures s.current >= 0 && HasPacket(s.tcbs[s.current]) && Spinning(Step(s), k)
  {
    hide Inv, RunTask, TakePacket, Everywhere, Called, Kept, RoleAt, SameShape;
    SpinningRuns(s, k);
    StepIsSafe(s);
    StepKeepsRoles(s);
    if !s.tcbs[s.current].IsHeldOrSuspended() {
      var s0 := s.(currentId := s.tcbs[s.current].id);
      SetCurrentId(s, s0.currentId, (0, WorkKind));
      KeptInv(s, s0, (0, WorkKind), 0);
      TakeKeeps(s0, (0, WorkKind));
      TakeSpares(s0, k);
      SameIdRoles(s, s0);
      RunSpins(TakePacket(s0).0, TakePacket(s0).1, k);
    }
  }

  lemma SameIdRoles(s: State, s': State)
    requires s'.tcbs == s.tcbs && s'.blocks == s.blocks
    ensures forall id :: RoleAt(s', id) == RoleAt(s, id)
  {
  }

  /** Something is left to run while a block spins. */
  lemma SpinningRuns(s: State, k: nat)
    requires Inv(s) && Spinning(s, k)
    ensures s.current >= 0
  {
    assert s.current < k ==> s.tcbs[k].IsHeldOrSuspended();
  }

  lemma StepKeepsRoles(s: State)
    requires Inv(s) && 0 <= s.current
    ensures HasPacket(s.tcbs[s.current]) && forall id :: RoleAt(Step(s), id) == RoleAt(s, id)
  {
    hide Inv, Step, Everywhere;
    StepIsSafe(s);
    StepKeeps(s, (0, WorkKind));
  }

  /** From such a state schedule() never ends. */
  lemma {:induction false} SpinsForever(s: State, k: nat, n: nat)
    requires Inv(s) && Spinning(s, k)
    ensures Spinning(Rounds(s, n), k) && Rounds(s, n).current >= 0
  {
    hide Inv, Spinning, Step;
    if n > 0 {
      SpinsForever(s, k, n - 1);
      StepSpins(Rounds(s, n - 1), k);
    }
    SpinningRuns(Rounds(s, n), k);
  }
}
