/**
 The Richards task scheduler (demo/v8_benchmark.js, 389-825) as a state machine over the
 rounds of its schedule() loop. Task control blocks are kept in the order they were added,
 so the link of block k is block k-1 and null is -1; work lists are sequences.
 */
module RichardsScheduler {
  import opened Options

  const ID_HANDLER_A: nat := 2
  const ID_HANDLER_B: nat := 3
  const ID_DEVICE_A: nat := 4
  const ID_DEVICE_B: nat := 5
  const NUMBER_OF_IDS: nat := 6
  const DATA_SIZE: nat := 4

  datatype Kind = DeviceKind | WorkKind

  /** A packet; serial is its identity, which no operation changes. */
  datatype Packet = Packet(serial: nat, id: nat, kind: Kind, a1: int, a2: seq<int>)

  datatype Task =
    | Idle(v1: bv32, count: int)
    | Worker(target: nat, v2: int)
    | Handler(work: seq<Packet>, device: seq<Packet>)
    | Device(slot: Option<Packet>)

  /** The three bits of a state word: 1 runnable, 2 suspended, 4 held. */
  datatype Flags = Flags(runnable: bool, suspended: bool, held: bool) {
    function Word(): bv3 { (if runnable then 1 else 0) | (if suspended then 2 else 0) | (if held then 4 else 0) }
  }

  const RUNNING := Flags(false, false, false)
  const RUNNABLE := Flags(true, false, false)
  const SUSPENDED := Flags(false, true, false)
  const SUSPENDED_RUNNABLE := Flags(true, true, false)

  /** Setting and clearing a flag is what the code's bit operations do to the word. */
  lemma FlagsAreBits(f: Flags)
    ensures f.(runnable := true).Word() == f.Word() | 1
    ensures f.(suspended := true).Word() == f.Word() | 2
    ensures f.(held := true).Word() == f.Word() | 4 && f.(held := false).Word() == f.Word() & !4
    ensures f.held <==> f.Word() & 4 != 0
    ensures forall g: Flags :: f == g <==> f.Word() == g.Word()
  {
    forall g: Flags ensures f == g <==> f.Word() == g.Word() {
      assert f.runnable <==> f.Word() & 1 != 0;
      assert f.suspended <==> f.Word() & 2 != 0;
      assert g.runnable <==> g.Word() & 1 != 0;
      assert g.suspended <==> g.Word() & 2 != 0;
    }
  }

  datatype Tcb = Tcb(id: nat, priority: int, queue: seq<Packet>, state: Flags, task: Task) {
    predicate IsHeldOrSuspended() { state.held || state == SUSPENDED }
  }

  /** current is the block to look at next, -1 for none. */
  datatype State = State(
    tcbs: seq<Tcb>, blocks: seq<int>, current: int, currentId: nat, queueCount: nat, holdCount: nat)

  // ----- scheduler services, called by the running task -----

  predicate Indexed(s: State) {
    && |s.blocks| == NUMBER_OF_IDS
    && forall i :: 0 <= i < NUMBER_OF_IDS ==> -1 <= s.blocks[i] < |s.tcbs|
  }

  /** A task is running: its block is current. */
  predicate Running(s: State) { Indexed(s) && 0 <= s.current < |s.tcbs| }

  function Block(s: State, id: nat): int {
    if id < |s.blocks| then s.blocks[id] else -1
  }

  function SetState(s: State, k: int, st: Flags): State
    requires 0 <= k < |s.tcbs|
  {
    s.(tcbs := s.tcbs[k := s.tcbs[k].(state := st)])
  }

  function SetTask(s: State, t: Task): State
    requires Running(s)
  {
    s.(tcbs := s.tcbs[s.current := s.tcbs[s.current].(task := t)])
  }

  function Release(s: State, id: nat): State
    requires Running(s)
  {
    var k := Block(s, id);
    if k < 0 || k >= |s.tcbs| then s.(current := -1)
    else
      var s1 := SetState(s, k, s.tcbs[k].state.(held := false));
      if s.tcbs[k].priority > s.tcbs[s.current].priority then s1.(current := k) else s1
  }

  function HoldCurrent(s: State): State
    requires Running(s)
  {
    var s1 := SetState(s, s.current, s.tcbs[s.current].state.(held := true));
    s1.(holdCount := s.holdCount + 1, current := s.current - 1)
  }

  function SuspendCurrent(s: State): State
    requires Running(s)
  {
    SetState(s, s.current, s.tcbs[s.current].state.(suspended := true))
  }

  /** Appends to a block's list; an idle list makes it runnable and may switch to it. */
  function CheckPriorityAdd(s: State, k: int, p: Packet): State
    requires Running(s) && 0 <= k < |s.tcbs|
  {
    var t := s.tcbs[k];
    if t.queue == [] then
      var s1 := s.(tcbs := s.tcbs[k := t.(queue := [p], state := t.state.(runnable := true))]);
      if t.priority > s.tcbs[s.current].priority then s1.(current := k) else s1
    else
      s.(tcbs := s.tcbs[k := t.(queue := t.queue + [p])])
  }

  function Enqueue(s: State, p: Packet): State
    requires Running(s)
  {
    var k := Block(s, p.id);
    if k < 0 || k >= |s.tcbs| then s.(current := -1)
    else CheckPriorityAdd(s.(queueCount := s.queueCount + 1), k, p.(id := s.currentId))
  }

  // ----- the four kinds of task -----

  /** JavaScript's v >> 1: the sign bit stays. */
  function HalfSigned(v: bv32): bv32 { (v >> 1) | (v & 0x8000_0000) }

  function RunIdle(s: State): State
    requires Running(s) && s.tcbs[s.current].task.Idle?
  {
    var t := s.tcbs[s.current].task;
    var count := t.count - 1;
    if count == 0 then HoldCurrent(SetTask(s, Idle(t.v1, count)))
    else if t.v1 & 1 == 0 then Release(SetTask(s, Idle(HalfSigned(t.v1), count)), ID_DEVICE_A)
    else Release(SetTask(s, Idle(HalfSigned(t.v1) ^ 0xD008, count)), ID_DEVICE_B)
  }

  function RunDevice(s: State, p: Option<Packet>): State
    requires Running(s) && s.tcbs[s.current].task.Device?
  {
    var t := s.tcbs[s.current].task;
    if p.Some? then HoldCurrent(SetTask(s, Device(p)))
    else if t.slot.None? then SuspendCurrent(s)
    else Enqueue(SetTask(s, Device(None)), t.slot.value)
  }

  /** The counter that fills packets: 1 to 26, over and over. */
  function NextLetter(v: int): int { if v + 1 > 26 then 1 else v + 1 }

  function Letter(v: int, n: nat): int { if n == 0 then v else NextLetter(Letter(v, n - 1)) }

  function RunWorker(s: State, p: Option<Packet>): State
    requires Running(s) && s.tcbs[s.current].task.Worker?
  {
    var t := s.tcbs[s.current].task;
    if p.None? then SuspendCurrent(s)
    else
      var target := if t.target == ID_HANDLER_A then ID_HANDLER_B else ID_HANDLER_A;
      var data := seq(DATA_SIZE, i requires 0 <= i < DATA_SIZE => Letter(t.v2, i + 1));
      Enqueue(SetTask(s, Worker(target, Letter(t.v2, DATA_SIZE))), p.value.(id := target, a1 := 0, a2 := data))
  }

  /** The list a handler puts a packet on. */
  function Accept(t: Task, p: Option<Packet>): Task
    requires t.Handler?
  {
    if p.None? then t
    else if p.value.kind == WorkKind then t.(work := t.work + [p.value])
    else t.(device := t.device + [p.value])
  }

  /** a2[i], undefined elements read as 0. */
  function Data(p: Packet): int {
    if 0 <= p.a1 < |p.a2| then p.a2[p.a1] else 0
  }

  function RunHandler(s: State, p: Option<Packet>): State
    requires Running(s) && s.tcbs[s.current].task.Handler?
  {
    var t := Accept(s.tcbs[s.current].task, p);
    if t.work == [] then SuspendCurrent(SetTask(s, t))
    else
      var w := t.work[0];
      if w.a1 >= DATA_SIZE then Enqueue(SetTask(s, t.(work := t.work[1..])), w)
      else if t.device == [] then SuspendCurrent(SetTask(s, t))
      else
        var v := t.device[0];
        Enqueue(SetTask(s, t.(work := t.work[0 := w.(a1 := w.a1 + 1)], device := t.device[1..])), v.(a1 := Data(w)))
  }

  function RunTask(s: State, p: Option<Packet>): State
    requires Running(s)
  {
    match s.tcbs[s.current].task
    case Idle(_, _) => RunIdle(s)
    case Worker(_, _) => RunWorker(s, p)
    case Handler(_, _) => RunHandler(s, p)
    case Device(_) => RunDevice(s, p)
  }

  /** run() will not read a packet off an empty list. */
  predicate HasPacket(t: Tcb) { t.state == SUSPENDED_RUNNABLE ==> t.queue != [] }

  /** What a round does before it calls the block's task: takes the packet of a suspended, runnable block. */
  function TakePacket(s: State): (State, Option<Packet>)
    requires Running(s) && HasPacket(s.tcbs[s.current])
  {
    var t := s.tcbs[s.current];
    if t.state == SUSPENDED_RUNNABLE then
      var rest := t.queue[1..];
      var t' := t.(queue := rest, state := if rest == [] then RUNNING else RUNNABLE);
      (s.(tcbs := s.tcbs[s.current := t']), Some(t.queue[0]))
    else (s, None)
  }

  function RunBlock(s: State): State
    requires Running(s) && HasPacket(s.tcbs[s.current])
  {
    var (s1, p) := TakePacket(s);
    RunTask(s1, p)
  }

  /** One round of schedule(). */
  function Step(s: State): State
    requires Indexed(s) && -1 <= s.current < |s.tcbs| && (s.current >= 0 ==> HasPacket(s.tcbs[s.current]))
  {
    if s.current < 0 then s
    else if s.tcbs[s.current].IsHeldOrSuspended() then s.(current := s.current - 1)
    else RunBlock(s.(currentId := s.tcbs[s.current].id))
  }

  // ----- conservation: how often a packet occurs -----

  type Tag = (nat, Kind)

  function One(p: Packet, g: Tag): int { if (p.serial, p.kind) == g then 1 else 0 }

  ghost function InList(ps: seq<Packet>, g: Tag): int {
    if ps == [] then 0 else One(ps[0], g) + InList(ps[1..], g)
  }

  lemma {:induction false} InListAppend(ps: seq<Packet>, p: Packet, g: Tag)
    ensures InList(ps + [p], g) == InList(ps, g) + One(p, g) && InList([p], g) == One(p, g)
  {
    assert [p][1..] == [];
    if ps == [] {
      assert ps + [p] == [p];
    } else {
      InListAppend(ps[1..], p, g);
      assert (ps + [p])[1..] == ps[1..] + [p];
    }
  }

  function InSlot(p: Option<Packet>, g: Tag): int { if p.None? then 0 else One(p.value, g) }

  /** Occurrences inside a task. */
  ghost function Inside(t: Task, g: Tag): int {
    match t
    case Idle(_, _) => 0
    case Worker(_, _) => 0
    case Handler(work, device) => InList(work, g) + InList(device, g)
    case Device(slot) => InSlot(slot, g)
  }

  ghost function Holdings(t: Tcb, g: Tag): int { InList(t.queue, g) + Inside(t.task, g) }

  /** Occurrences of g in all work lists, handler lists and device slots. */
  ghost function Everywhere(ts: seq<Tcb>, g: Tag): int {
    if ts == [] then 0 else Everywhere(ts[..|ts| - 1], g) + Holdings(ts[|ts| - 1], g)
  }

  lemma {:induction false} EverywhereUpdate(ts: seq<Tcb>, k: nat, t: Tcb, g: Tag)
    requires k < |ts|
    ensures Everywhere(ts[k := t], g) == Everywhere(ts, g) - Holdings(ts[k], g) + Holdings(t, g)
  {
    hide Holdings;
    var n := |ts| - 1;
    if k == n {
      assert ts[k := t][..n] == ts[..n];
    } else {
      EverywhereUpdate(ts[..n], k, t, g);
      assert ts[k := t][..n] == ts[..n][k := t];
    }
  }

  // ----- the invariant -----

  predicate SameKind(t: Task, u: Task) {
    && (t.Idle? <==> u.Idle?) && (t.Worker? <==> u.Worker?) && (t.Handler? <==> u.Handler?)
  }

  /** A step changes neither the blocks' identity nor their order. */
  ghost predicate SameShape(s: State, s': State) {
    && |s'.tcbs| == |s.tcbs| && s'.blocks == s.blocks
    && forall k :: 0 <= k < |s.tcbs| ==>
         s'.tcbs[k].id == s.tcbs[k].id && s'.tcbs[k].priority == s.tcbs[k].priority
             && SameKind(s'.tcbs[k].task, s.tcbs[k].task)
  }

  /** A packet may be addressed to id. */
  predicate Routable(s: State, id: nat) {
    Indexed(s) && 0 <= Block(s, id) && id < NUMBER_OF_IDS && !s.tcbs[s.blocks[id]].task.Idle?
  }

  /** Tasks were added in rising priority, under distinct ids, and those addressed by name exist. */
  ghost predicate Configured(s: State) {
    && Indexed(s)
    && (forall i, j :: 0 <= i < j < |s.tcbs| ==> s.tcbs[i].priority < s.tcbs[j].priority)
    && (forall k :: 0 <= k < |s.tcbs| ==> s.tcbs[k].id < NUMBER_OF_IDS && s.blocks[s.tcbs[k].id] == k)
    && (forall k :: 0 <= k < |s.tcbs| && s.tcbs[k].task.Worker? ==>
        Routable(s, ID_HANDLER_A) && Routable(s, ID_HANDLER_B))
    && (forall k :: 0 <= k < |s.tcbs| && s.tcbs[k].task.Idle? ==>
        s.blocks[ID_DEVICE_A] >= 0 && s.blocks[ID_DEVICE_B] >= 0)
  }

  lemma ShapeKeepsConfiguration(s: State, s': State)
    requires Configured(s) && SameShape(s, s')
    ensures Configured(s') && forall id :: Routable(s, id) <==> Routable(s', id)
  {
  }

  ghost predicate AllRoutable(s: State, ps: seq<Packet>) {
    forall i :: 0 <= i < |ps| ==> Routable(s, ps[i].id)
  }

  /** RUNNABLE says exactly that the list is non-empty; a device holding a packet is not SUSPENDED. */
  ghost predicate BlockOk(s: State, t: Tcb) {
    && (t.state.runnable <==> t.queue != [])
    && AllRoutable(s, t.queue)
    && match t.task
       case Idle(_, _) => t.queue == []
       case Worker(_, _) => true
       case Handler(work, device) => AllRoutable(s, work) && AllRoutable(s, device)
       case Device(slot) => slot.Some? ==> !t.state.suspended && Routable(s, slot.value.id)
  }

  lemma ShapeKeepsBlock(s: State, s': State, t: Tcb)
    requires (forall id :: Routable(s, id) <==> Routable(s', id)) && BlockOk(s, t)
    ensures BlockOk(s', t)
  {
    hide Routable;
  }

  /** Every block of higher priority than the current one is held or suspended. */
  ghost predicate StrictPriority(s: State) {
    forall k :: 0 <= k < |s.tcbs| && s.current < k ==> s.tcbs[k].IsHeldOrSuspended()
  }

  ghost predicate Inv(s: State) {
    && Configured(s) && -1 <= s.current < |s.tcbs| && StrictPriority(s)
    && forall k :: 0 <= k < |s.tcbs| ==> BlockOk(s, s.tcbs[k])
  }

  // ----- each operation keeps it -----

  /** Replacing one block by an acceptable one of the same identity. */
  lemma ReplaceBlock(s: State, k: nat, t: Tcb, current: int, s': State, g: Tag)
    requires Inv(s) && k < |s.tcbs| && -1 <= current < |s.tcbs|
    requires t.id == s.tcbs[k].id && t.priority == s.tcbs[k].priority && SameKind(t.task, s.tcbs[k].task)
    requires BlockOk(s, t)
    requires s'.tcbs == s.tcbs[k := t] && s'.blocks == s.blocks && s'.current == current
    requires forall q :: 0 <= q < |s.tcbs| && current < q && q != k ==> s.tcbs[q].IsHeldOrSuspended()
    requires current < k ==> t.IsHeldOrSuspended()
    ensures Inv(s') && SameShape(s, s')
    ensures Everywhere(s'.tcbs, g) == Everywhere(s.tcbs, g) - Holdings(s.tcbs[k], g) + Holdings(t, g)
  {
    hide Everywhere, Holdings;
    EverywhereUpdate(s.tcbs, k, t, g);
    ShapeKeepsConfiguration(s, s');
    hide Configured;
    forall q | 0 <= q < |s'.tcbs| ensures BlockOk(s', s'.tcbs[q]) {
      ShapeKeepsBlock(s, s', s'.tcbs[q]);
    }
  }

  /** The invariant and the blocks are kept, and g occurs extra times more often. */
  ghost predicate Kept(s: State, s': State, g: Tag, extra: int) {
    Inv(s') && SameShape(s, s') && Everywhere(s'.tcbs, g) == Everywhere(s.tcbs, g) + extra
  }

  lemma KeptTrans(s: State, s1: State, s2: State, g: Tag, m: int, n: int)
    requires Kept(s, s1, g, m) && Kept(s1, s2, g, n)
    ensures Kept(s, s2, g, m + n)
  {
    hide Inv, Everywhere;
  }

  lemma PriorityIsPosition(s: State, k: nat)
    requires Inv(s) && Running(s) && k < |s.tcbs|
    ensures s.tcbs[k].priority > s.tcbs[s.current].priority <==> k > s.current
  {
  }

  lemma ReleaseKeeps(s: State, id: nat, g: Tag)
    requires Inv(s) && Running(s) && 0 <= Block(s, id)
    ensures Kept(s, Release(s, id), g, 0)
  {
    hide Everywhere, Configured, Routable;
    var k := Block(s, id);
    var t := s.tcbs[k].(state := s.tcbs[k].state.(held := false));
    PriorityIsPosition(s, k);
    ReplaceBlock(s, k, t, Release(s, id).current, Release(s, id), g);
  }

  lemma HoldKeeps(s: State, g: Tag)
    requires Inv(s) && Running(s)
    ensures Kept(s, HoldCurrent(s), g, 0)
  {
    hide Everywhere, Configured, Routable;
    var t := s.tcbs[s.current];
    ReplaceBlock(s, s.current, t.(state := t.state.(held := true)), s.current - 1, HoldCurrent(s), g);
  }

  lemma SuspendKeeps(s: State, g: Tag)
    requires Inv(s) && Running(s) && !(s.tcbs[s.current].task.Device? && s.tcbs[s.current].task.slot.Some?)
    ensures Kept(s, SuspendCurrent(s), g, 0)
  {
    hide Everywhere, Configured, Routable;
    var t := s.tcbs[s.current];
    ReplaceBlock(s, s.current, t.(state := t.state.(suspended := true)), s.current, SuspendCurrent(s), g);
  }

  /** A block with p appended to its list. */
  function Appended(t: Tcb, p: Packet): Tcb {
    if t.queue == [] then t.(queue := [p], state := t.state.(runnable := true)) else t.(queue := t.queue + [p])
  }

  lemma AppendedHoldings(t: Tcb, p: Packet, g: Tag)
    ensures Holdings(Appended(t, p), g) == Holdings(t, g) + One(p, g)
  {
    InListAppend(t.queue, p, g);
    assert t.queue == [] ==> t.queue + [p] == [p];
  }

  lemma AppendedOk(s: State, t: Tcb, p: Packet)
    requires BlockOk(s, t) && Routable(s, p.id) && !t.task.Idle?
    ensures BlockOk(s, Appended(t, p))
    ensures t.queue != [] && t.IsHeldOrSuspended() ==> Appended(t, p).IsHeldOrSuspended()
  {
    hide Routable;
  }

  lemma EnqueueKeeps(s: State, p: Packet, g: Tag)
    requires Inv(s) && Running(s) && Routable(s, p.id) && Routable(s, s.currentId)
    ensures Kept(s, Enqueue(s, p), g, One(p, g))
  {
    var k := Block(s, p.id);
    var p' := p.(id := s.currentId);
    var t := s.tcbs[k];
    assert !t.task.Idle? && Enqueue(s, p).tcbs == s.tcbs[k := Appended(t, p')];
    AppendedOk(s, t, p');
    AppendedHoldings(t, p', g);
    PriorityIsPosition(s, k);
    hide Everywhere, Configured, Routable, Holdings, BlockOk;
    ReplaceBlock(s, k, Appended(t, p'), Enqueue(s, p).current, Enqueue(s, p), g);
  }

  lemma SetTaskKeeps(s: State, t: Task, g: Tag)
    requires Inv(s) && Running(s) && SameKind(t, s.tcbs[s.current].task) && BlockOk(s, s.tcbs[s.current].(task := t))
    ensures Running(SetTask(s, t)) && (forall id :: Routable(SetTask(s, t), id) <==> Routable(s, id))
    ensures Kept(s, SetTask(s, t), g, Inside(t, g) - Inside(s.tcbs[s.current].task, g))
  {
    var b := s.tcbs[s.current];
    ReplaceBlock(s, s.current, b.(task := t), s.current, SetTask(s, t), g);
    ShapeKeepsConfiguration(s, SetTask(s, t));
    hide Everywhere, Configured, Inv;
  }

  // ----- a whole round -----

  /** The situation in which a task's run method is called with p. */
  ghost predicate Called(s: State, p: Option<Packet>) {
    && Inv(s) && Running(s) && s.currentId == s.tcbs[s.current].id
    && var t := s.tcbs[s.current];
       p.Some? ==>
         Routable(s, p.value.id) && !t.state.suspended && !t.task.Idle? && (t.task.Device? ==> t.task.slot.None?)
  }

  /** What a called task may rely on. */
  lemma CalledFacts(s: State, p: Option<Packet>)
    requires Called(s, p)
    ensures Inv(s) && Running(s) && BlockOk(s, s.tcbs[s.current]) && (p.Some? ==> Routable(s, p.value.id))
    ensures p.Some? && s.tcbs[s.current].task.Device? ==>
              s.tcbs[s.current].task.slot.None? && !s.tcbs[s.current].state.suspended
    ensures !s.tcbs[s.current].task.Idle? ==> Routable(s, s.currentId)
    ensures s.tcbs[s.current].task.Worker? ==> Routable(s, ID_HANDLER_A) && Routable(s, ID_HANDLER_B)
    ensures s.tcbs[s.current].task.Idle? ==> 0 <= Block(s, ID_DEVICE_A) && 0 <= Block(s, ID_DEVICE_B) && p.None?
  {
  }

  /** Tasks without packets inside may change freely. */
  lemma PlainOk(s: State, b: Tcb, t: Task)
    requires BlockOk(s, b) && ((b.task.Idle? && t.Idle?) || (b.task.Worker? && t.Worker?))
    ensures BlockOk(s, b.(task := t))
  {
  }

  lemma DeviceOk(s: State, b: Tcb, slot: Option<Packet>)
    requires BlockOk(s, b) && b.task.Device? && (slot.Some? ==> !b.state.suspended && Routable(s, slot.value.id))
    ensures BlockOk(s, b.(task := Device(slot))) && (b.task.slot.Some? ==> Routable(s, b.task.slot.value.id))
  {
  }

  /** A handler block with other lists of addressable packets. */
  lemma HandlerOk(s: State, b: Tcb, work: seq<Packet>, device: seq<Packet>)
    requires b.task.Handler? && BlockOk(s, b) && AllRoutable(s, work) && AllRoutable(s, device)
    ensures BlockOk(s, b.(task := Handler(work, device)))
  {
  }

  lemma IdleKeeps(s: State, p: Option<Packet>, g: Tag)
    requires Called(s, p) && s.tcbs[s.current].task.Idle?
    ensures Kept(s, RunIdle(s), g, InSlot(p, g))
  {
    hide Inv, Everywhere, Routable, SameShape, Called, BlockOk, Kept, HalfSigned;
    CalledFacts(s, p);
    var t := s.tcbs[s.current].task;
    var count := t.count - 1;
    var t' :=
      if count == 0 then Idle(t.v1, count)
      else if t.v1 & 1 == 0 then Idle(HalfSigned(t.v1), count)
      else Idle(HalfSigned(t.v1) ^ 0xD008, count);
    PlainOk(s, s.tcbs[s.current], t');
    SetTaskKeeps(s, t', g);
    var s1 := SetTask(s, t');
    KeptInv(s, s1, g, 0);
    if count == 0 {
      HoldKeeps(s1, g);
    } else if t.v1 & 1 == 0 {
      ReleaseKeeps(s1, ID_DEVICE_A, g);
    } else {
      ReleaseKeeps(s1, ID_DEVICE_B, g);
    }
    KeptTrans(s, s1, RunIdle(s), g, 0, 0);
  }

  lemma KeptInv(s: State, s': State, g: Tag, extra: int)
    requires Kept(s, s', g, extra)
    ensures Inv(s')
  {
  }

  lemma DeviceKeeps(s: State, p: Option<Packet>, g: Tag)
    requires Called(s, p) && s.tcbs[s.current].task.Device?
    ensures Kept(s, RunDevice(s, p), g, InSlot(p, g))
  {
    hide Inv, Everywhere, Routable, SameShape, Called, BlockOk, Kept;
    CalledFacts(s, p);
    var t := s.tcbs[s.current].task;
    if p.Some? {
      DeviceOk(s, s.tcbs[s.current], p);
      SetTaskKeeps(s, Device(p), g);
      KeptInv(s, SetTask(s, Device(p)), g, InSlot(p, g));
      HoldKeeps(SetTask(s, Device(p)), g);
      KeptTrans(s, SetTask(s, Device(p)), RunDevice(s, p), g, InSlot(p, g), 0);
    } else if t.slot.None? {
      SuspendKeeps(s, g);
    } else {
      DeviceOk(s, s.tcbs[s.current], None);
      SetTaskKeeps(s, Device(None), g);
      KeptInv(s, SetTask(s, Device(None)), g, -InSlot(t.slot, g));
      EnqueueKeeps(SetTask(s, Device(None)), t.slot.value, g);
      KeptTrans(s, SetTask(s, Device(None)), RunDevice(s, p), g, -InSlot(t.slot, g), InSlot(t.slot, g));
    }
  }

  lemma WorkerKeeps(s: State, p: Option<Packet>, g: Tag)
    requires Called(s, p) && s.tcbs[s.current].task.Worker?
    ensures Kept(s, RunWorker(s, p), g, InSlot(p, g))
  {
    hide Inv, Everywhere, Routable, SameShape, Called, Letter, BlockOk, Kept;
    CalledFacts(s, p);
    var t := s.tcbs[s.current].task;
    if p.None? {
      SuspendKeeps(s, g);
    } else {
      var target := if t.target == ID_HANDLER_A then ID_HANDLER_B else ID_HANDLER_A;
      var data := seq(DATA_SIZE, i requires 0 <= i < DATA_SIZE => Letter(t.v2, i + 1));
      var t' := Worker(target, Letter(t.v2, DATA_SIZE));
      var q := p.value.(id := target, a1 := 0, a2 := data);
      PlainOk(s, s.tcbs[s.current], t');
      SetTaskKeeps(s, t', g);
      KeptInv(s, SetTask(s, t'), g, 0);
      EnqueueKeeps(SetTask(s, t'), q, g);
      KeptTrans(s, SetTask(s, t'), RunWorker(s, p), g, 0, One(q, g));
    }
  }

  /** Accepting a packet puts it on one of the handler's lists. */
  lemma AcceptOk(s: State, b: Tcb, p: Option<Packet>)
    requires b.task.Handler? && BlockOk(s, b) && (p.Some? ==> Routable(s, p.value.id))
    ensures
      var t := Accept(b.task, p);
      t.Handler? && AllRoutable(s, t.work) && AllRoutable(s, t.device)
  {
    hide Routable;
  }

  lemma AcceptInside(t: Task, p: Option<Packet>, g: Tag)
    requires t.Handler?
    ensures Inside(Accept(t, p), g) == Inside(t, g) + InSlot(p, g)
  {
    hide InList;
    if p.Some? {
      InListAppend(t.work, p.value, g);
      InListAppend(t.device, p.value, g);
    }
  }

  lemma InListHead(ps: seq<Packet>, q: Packet, g: Tag)
    requires ps != [] && q.serial == ps[0].serial && q.kind == ps[0].kind
    ensures InList(ps, g) == One(q, g) + InList(ps[1..], g) && InList(ps[0 := q], g) == InList(ps, g)
  {
    assert ps[0 := q][1..] == ps[1..];
  }

  /** A handler keeps lists t' and sends v. */
  lemma SendKeeps(s: State, p: Option<Packet>, t': Task, v: Packet, g: Tag)
    requires Called(s, p) && s.tcbs[s.current].task.Handler? && t'.Handler?
    requires AllRoutable(s, t'.work) && AllRoutable(s, t'.device) && Routable(s, v.id)
    requires Inside(t', g) + One(v, g) == Inside(s.tcbs[s.current].task, g) + InSlot(p, g)
    ensures Kept(s, Enqueue(SetTask(s, t'), v), g, InSlot(p, g))
  {
    hide Inv, Everywhere, Routable, SameShape, Called, BlockOk, Inside, Kept, AllRoutable;
    CalledFacts(s, p);
    var b := s.tcbs[s.current];
    HandlerOk(s, b, t'.work, t'.device);
    SetTaskKeeps(s, t', g);
    KeptInv(s, SetTask(s, t'), g, Inside(t', g) - Inside(b.task, g));
    EnqueueKeeps(SetTask(s, t'), v, g);
    KeptTrans(s, SetTask(s, t'), Enqueue(SetTask(s, t'), v), g, Inside(t', g) - Inside(b.task, g), One(v, g));
  }

  lemma HandlerKeeps(s: State, p: Option<Packet>, g: Tag)
    requires Called(s, p) && s.tcbs[s.current].task.Handler?
    ensures Kept(s, RunHandler(s, p), g, InSlot(p, g))
  {
    hide Inv, Everywhere, Routable, SameShape, Called, BlockOk, Accept, InList, Kept;
    CalledFacts(s, p);
    var b := s.tcbs[s.current];
    var t := Accept(b.task, p);
    AcceptOk(s, b, p);
    AcceptInside(b.task, p, g);
    if t.work != [] && t.work[0].a1 >= DATA_SIZE {
      InListHead(t.work, t.work[0], g);
      SendKeeps(s, p, t.(work := t.work[1..]), t.work[0], g);
    } else if t.work != [] && t.device != [] {
      var w := t.work[0];
      var w', v := w.(a1 := w.a1 + 1), t.device[0].(a1 := Data(w));
      InListHead(t.work, w', g);
      InListHead(t.device, v, g);
      SendKeeps(s, p, t.(work := t.work[0 := w'], device := t.device[1..]), v, g);
    } else {
      HandlerOk(s, b, t.work, t.device);
      SetTaskKeeps(s, t, g);
      KeptInv(s, SetTask(s, t), g, InSlot(p, g));
      SuspendKeeps(SetTask(s, t), g);
      KeptTrans(s, SetTask(s, t), RunHandler(s, p), g, InSlot(p, g), 0);
    }
  }

  /** Taking the first packet of a runnable block. */
  lemma TakeOk(s: State, t: Tcb)
    requires BlockOk(s, t) && !t.IsHeldOrSuspended()
    ensures HasPacket(t)
    ensures t.state == SUSPENDED_RUNNABLE ==>
      var rest := t.queue[1..];
      && Routable(s, t.queue[0].id) && !t.task.Idle? && (t.task.Device? ==> t.task.slot.None?)
      && BlockOk(s, t.(queue := rest, state := if rest == [] then RUNNING else RUNNABLE))
  {
  }

  lemma InvFacts(s: State)
    requires Inv(s) && 0 <= s.current
    ensures Running(s) && BlockOk(s, s.tcbs[s.current]) && StrictPriority(s)
  {
  }

  lemma TakeKeeps(s: State, g: Tag)
    requires Inv(s) && Running(s) && s.currentId == s.tcbs[s.current].id && !s.tcbs[s.current].IsHeldOrSuspended()
    ensures HasPacket(s.tcbs[s.current])
    ensures
      var (s1, p) := TakePacket(s);
      Called(s1, p) && Kept(s, s1, g, -InSlot(p, g))
  {
    hide Inv, Everywhere, BlockOk, Routable, InList, SameShape;
    InvFacts(s);
    var t := s.tcbs[s.current];
    TakeOk(s, t);
    var s1 := TakePacket(s).0;
    if t.state == SUSPENDED_RUNNABLE {
      ReplaceBlock(s, s.current, s1.tcbs[s.current], s.current, s1, g);
      ShapeKeepsRoutes(s, s1);
      InListHead(t.queue, t.queue[0], g);
    } else {
      SetCurrentId(s, s.currentId, g);
    }
  }

  lemma ShapeKeepsRoutes(s: State, s': State)
    requires Inv(s) && SameShape(s, s')
    ensures forall id :: Routable(s, id) <==> Routable(s', id)
  {
    ShapeKeepsConfiguration(s, s');
  }

  lemma SetCurrentId(s: State, id: nat, g: Tag)
    requires Inv(s)
    ensures Kept(s, s.(currentId := id), g, 0) && s.(currentId := s.currentId) == s
  {
    hide Configured, Everywhere;
    var s0 := s.(currentId := id);
    ShapeKeepsConfiguration(s, s0);
    forall k | 0 <= k < |s.tcbs| ensures BlockOk(s0, s.tcbs[k]) { ShapeKeepsBlock(s, s0, s.tcbs[k]); }
  }

  lemma RunKeeps(s: State, p: Option<Packet>, g: Tag)
    requires Called(s, p)
    ensures Running(s) && Kept(s, RunTask(s, p), g, InSlot(p, g))
  {
    hide Kept, Inv, Called, RunIdle, RunWorker, RunHandler, RunDevice;
    CalledFacts(s, p);
    match s.tcbs[s.current].task
    case Idle(_, _) => IdleKeeps(s, p, g);
    case Worker(_, _) => WorkerKeeps(s, p, g);
    case Handler(_, _) => HandlerKeeps(s, p, g);
    case Device(_) => DeviceKeeps(s, p, g);
  }

  /** Passing over a held or suspended block. */
  lemma SkipKeeps(s: State, g: Tag)
    requires Inv(s) && 0 <= s.current && s.tcbs[s.current].IsHeldOrSuspended()
    ensures Kept(s, s.(current := s.current - 1), g, 0)
  {
    hide Configured, Everywhere;
    var s0 := s.(current := s.current - 1);
    ShapeKeepsConfiguration(s, s0);
    forall k | 0 <= k < |s.tcbs| ensures BlockOk(s0, s.tcbs[k]) { ShapeKeepsBlock(s, s0, s.tcbs[k]); }
  }

  lemma InvIsSafe(s: State)
    requires Inv(s)
    ensures Indexed(s) && -1 <= s.current < |s.tcbs| && (s.current >= 0 ==> HasPacket(s.tcbs[s.current]))
  {
  }

  /** One round keeps the invariant and every packet. */
  lemma StepKeeps(s: State, g: Tag)
    requires Inv(s)
    ensures s.current >= 0 ==> HasPacket(s.tcbs[s.current])
    ensures Kept(s, Step(s), g, 0)
  {
    hide Inv, Everywhere, SameShape, Called, Kept, RunTask, TakePacket;
    InvIsSafe(s);
    if s.current < 0 {
      SetCurrentId(s, s.currentId, g);
    } else if s.tcbs[s.current].IsHeldOrSuspended() {
      SkipKeeps(s, g);
    } else {
      var s0 := s.(currentId := s.tcbs[s.current].id);
      SetCurrentId(s, s0.currentId, g);
      KeptInv(s, s0, g, 0);
      TakeKeeps(s0, g);
      var (s1, p) := TakePacket(s0);
      RunKeeps(s1, p, g);
      KeptTrans(s0, s1, Step(s), g, -InSlot(p, g), InSlot(p, g));
      KeptTrans(s, s0, Step(s), g, 0, 0);
    }
  }

  // ----- whole runs -----

  /** The state after n rounds of schedule(). */
  ghost function Rounds(s: State, n: nat): (r: State)
    requires Inv(s)
    ensures Inv(r)
  {
    if n == 0 then s
    else
      var u := Rounds(s, n - 1);
      StepIsSafe(u);
      Step(u)
  }

  lemma StepIsSafe(s: State)
    requires Inv(s)
    ensures Indexed(s) && -1 <= s.current < |s.tcbs| && (s.current >= 0 ==> HasPacket(s.tcbs[s.current]))
    ensures Inv(Step(s))
  {
    hide Inv, Step, Everywhere, SameShape;
    InvIsSafe(s);
    StepKeeps(s, (0, WorkKind));
    KeptInv(s, Step(s), (0, WorkKind), 0);
  }

  /** Over every run, every packet occurs as often as it did at the start. */
  lemma {:induction false} PacketsConserved(s: State, n: nat, g: Tag)
    requires Inv(s)
    ensures Everywhere(Rounds(s, n).tcbs, g) == Everywhere(s.tcbs, g)
  {
    hide Inv, Step, Everywhere, SameShape;
    if n > 0 {
      PacketsConserved(s, n - 1, g);
      var u := Rounds(s, n - 1);
      StepIsSafe(u);
      StepKeeps(u, g);
    }
  }

  /** Over every run the blocks keep their ids, priorities and kinds. */
  lemma {:induction false} BlocksKept(s: State, n: nat)
    requires Inv(s)
    ensures SameShape(s, Rounds(s, n))
  {
    hide Inv, Step, Everywhere;
    if n > 0 {
      BlocksKept(s, n - 1);
      var u := Rounds(s, n - 1);
      StepIsSafe(u);
      StepKeeps(u, (0, WorkKind));
    }
  }

  /** The block that the next round runs. */
  predicate Runs(s: State, k: int) { k == s.current && 0 <= k < |s.tcbs| && !s.tcbs[k].IsHeldOrSuspended() }

  /**
   Over every run: a running task has the highest priority of all that are neither held nor
   suspended, it is given a packet only off a non-empty list, and a device given one has none;
   a run that ends leaves every task held or suspended.
   */
  lemma StrictPriorityOverRuns(s: State, n: nat)
    requires Inv(s)
    ensures
      var u := Rounds(s, n);
      && (forall k, j :: Runs(u, k) && 0 <= j < |u.tcbs| && u.tcbs[j].priority > u.tcbs[k].priority ==>
          u.tcbs[j].IsHeldOrSuspended())
      && (forall k :: Runs(u, k) && u.tcbs[k].state == SUSPENDED_RUNNABLE ==>
            u.tcbs[k].queue != [] && (u.tcbs[k].task.Device? ==> u.tcbs[k].task.slot.None?))
      && (u.current == -1 ==> forall k :: 0 <= k < |u.tcbs| ==> u.tcbs[k].IsHeldOrSuspended())
  {
    hide Rounds, Routable;
    var u := Rounds(s, n);
    forall k, j | Runs(u, k) && 0 <= j < |u.tcbs| && u.tcbs[j].priority > u.tcbs[k].priority
      ensures u.tcbs[j].IsHeldOrSuspended()
    {
      InvFacts(u);
      PriorityIsPosition(u, j);
    }
    forall k | Runs(u, k) && u.tcbs[k].state == SUSPENDED_RUNNABLE
      ensures u.tcbs[k].queue != [] && (u.tcbs[k].task.Device? ==> u.tcbs[k].task.slot.None?)
    {
      InvFacts(u);
      TakeOk(u, u.tcbs[k]);
    }
  }

  // ----- starting -----

  function NoTasks(): State { State([], seq(NUMBER_OF_IDS, _ => -1), -1, 0, 0, 0) }

  /** addTask: the new block is the first of the list and the current one. */
  function AddTask(s: State, id: nat, priority: int, queue: seq<Packet>, task: Task): State
    requires Indexed(s) && id < NUMBER_OF_IDS
  {
    var t := Tcb(id, priority, queue, if queue == [] then SUSPENDED else SUSPENDED_RUNNABLE, task);
    s.(tcbs := s.tcbs + [t], blocks := s.blocks[id := |s.tcbs|], current := |s.tcbs|)
  }

  function SetRunning(s: State): State
    requires Running(s)
  {
    SetState(s, s.current, RUNNING)
  }

  /** schedule() starts at the block added last. */
  function Start(s: State): State { s.(current := |s.tcbs| - 1) }

  /** A block as the add methods make it. */
  ghost predicate Fresh(t: Tcb) {
    && t.state == (if t.task.Idle? then RUNNING else if t.queue == [] then SUSPENDED else SUSPENDED_RUNNABLE)
    && (t.task.Handler? ==> t.task.work == [] && t.task.device == [])
    && (t.task.Device? ==> t.task.slot.None?)
    && (t.task.Idle? ==> t.queue == [])
  }

  /** Every properly configured scheduler starts in a good state. */
  lemma StartIsGood(s: State)
    requires Configured(s)
    requires forall k :: 0 <= k < |s.tcbs| ==> Fresh(s.tcbs[k]) && AllRoutable(s, s.tcbs[k].queue)
    ensures Inv(Start(s)) && forall g :: Everywhere(Start(s).tcbs, g) == Everywhere(s.tcbs, g)
  {
    hide Everywhere;
    ShapeKeepsConfiguration(s, Start(s));
    hide Configured;
    forall k | 0 <= k < |s.tcbs| ensures BlockOk(Start(s), s.tcbs[k]) {
      assert BlockOk(s, s.tcbs[k]);
      ShapeKeepsBlock(s, Start(s), s.tcbs[k]);
    }
  }
}
