/**
 The two numbers that runRichards checks (demo/v8_benchmark.js, 337-375). The control of the scheduler depends on
 its packets only through how many there are, of which kind and where, so a machine on these numbers follows it.
 */
module RichardsCounts {
  import opened Options
  import opened RichardsLetters
  import opened RichardsProgram
  import opened RichardsScheduler
  import opened SchedulerControl
  import opened SchedulerHistory

  // ----- the small machine -----

  datatype WorkerCell = WorkerCell(queue: nat, suspended: bool, toB: bool)

  /** work and device packets inside, and the letters gone from the first work packet. */
  datatype HandlerCell = HandlerCell(queue: seq<Kind>, suspended: bool, work: nat, gone: nat, device: nat)

  datatype DeviceCell = DeviceCell(queue: nat, suspended: bool, held: bool, slot: bool)

  datatype Small = Small(
    worker: WorkerCell, handlerA: HandlerCell, handlerB: HandlerCell, deviceA: DeviceCell, deviceB: DeviceCell,
    current: int, queued: nat, holds: nat)
  {
    function Handler(k: nat): HandlerCell { if k == ID_HANDLER_A then handlerA else handlerB }

    function Device(k: nat): DeviceCell { if k == ID_DEVICE_A then deviceA else deviceB }

    function SetHandler(k: nat, c: HandlerCell): Small {
      if k == ID_HANDLER_A then this.(handlerA := c) else this.(handlerB := c)
    }

    function SetDevice(k: nat, c: DeviceCell): Small {
      if k == ID_DEVICE_A then this.(deviceA := c) else this.(deviceB := c)
    }

    /** A packet is delivered: a block that had none is switched to if it comes before the running one. */
    function Count(to: nat, first: bool): Small {
      this.(queued := queued + 1, current := if first && to > current then to else current)
    }

    function ToWorker(): Small {
      this.(worker := worker.(queue := worker.queue + 1)).Count(ID_WORKER, worker.queue == 0)
    }

    function ToHandler(k: nat, kind: Kind): Small {
      var c := Handler(k);
      SetHandler(k, c.(queue := Added(c.queue, kind))).Count(k, c.queue == [])
    }

    function ToDevice(k: nat): Small {
      var c := Device(k);
      SetDevice(k, c.(queue := c.queue + 1)).Count(k, c.queue == 0)
    }
  }

  function Added(q: seq<Kind>, kind: Kind): seq<Kind> { if q == [] then [kind] else q + [kind] }

  function WorkerStep(z: Small): Small {
    var c := z.worker;
    if c.suspended && c.queue == 0 then z.(current := ID_IDLE)
    else if c.suspended then
      var to := if c.toB then ID_HANDLER_B else ID_HANDLER_A;
      z.(worker := WorkerCell(c.queue - 1, false, !c.toB)).ToHandler(to, WorkKind)
    else z.(worker := c.(suspended := true))
  }

  /** A handler's cell after it has taken a packet, if it takes one. */
  function Taking(c: HandlerCell): HandlerCell {
    if !c.suspended || c.queue == [] then c
    else
      var rest := if |c.queue| == 1 then [] else c.queue[1..];
      if c.queue[0] == WorkKind then c.(queue := rest, suspended := false, work := c.work + 1)
      else c.(queue := rest, suspended := false, device := c.device + 1)
  }

  function HandlerStep(z: Small, k: nat): Small {
    var c := z.Handler(k);
    if c.suspended && c.queue == [] then z.(current := k - 1)
    else
      var h := Taking(c);
      if h.work == 0 || (h.gone < DATA_SIZE && h.device == 0) then z.SetHandler(k, h.(suspended := true))
      else if h.gone >= DATA_SIZE then z.SetHandler(k, h.(work := h.work - 1, gone := 0)).ToWorker()
      else z.SetHandler(k, h.(gone := h.gone + 1, device := h.device - 1)).ToDevice(k + 2)
  }

  function DeviceStep(z: Small, k: nat): Small
    requires k >= 2
  {
    var c := z.Device(k);
    if c.held || (c.suspended && c.queue == 0) then z.(current := k - 1)
    else if c.suspended then
      z.SetDevice(k, DeviceCell(c.queue - 1, false, true, true)).(current := k - 1, holds := z.holds + 1)
    else if c.slot then z.SetDevice(k, c.(slot := false)).ToHandler(k - 2, DeviceKind)
    else z.SetDevice(k, c.(suspended := true))
  }

  predicate Busy(z: Small) { 1 <= z.current < NUMBER_OF_IDS }

  function SmallStep(z: Small): Small
    requires Busy(z)
  {
    if z.current == ID_WORKER then WorkerStep(z)
    else if z.current <= ID_HANDLER_B then HandlerStep(z, z.current)
    else DeviceStep(z, z.current)
  }

  // ----- what it has to do with the scheduler -----

  function Kinds(ps: seq<Packet>): (r: seq<Kind>)
    ensures |r| == |ps|
  {
    seq(|ps|, i requires 0 <= i < |ps| => ps[i].kind)
  }

  predicate ShowsWorker(t: Tcb, c: WorkerCell) {
    && t.task.Worker? && c.queue == |t.queue| && c.suspended == t.state.suspended && !t.state.held
    && c.toB == (t.task.target == ID_HANDLER_A)
  }

  predicate ShowsHandler(t: Tcb, c: HandlerCell) {
    && t.task.Handler? && c.queue == Kinds(t.queue) && c.suspended == t.state.suspended && !t.state.held
    && c.work == |t.task.work| && c.device == |t.task.device|
    && c.gone == if t.task.work == [] then 0 else t.task.work[0].a1
  }

  predicate ShowsDevice(t: Tcb, c: DeviceCell) {
    && t.task.Device? && c.queue == |t.queue| && c.suspended == t.state.suspended && c.held == t.state.held
    && c.slot == t.task.slot.Some?
  }

  predicate Shows(u: State, z: Small) {
    && |u.tcbs| == NUMBER_OF_IDS && u.current == z.current && u.queueCount == z.queued && u.holdCount == z.holds
    && ShowsWorker(u.tcbs[1], z.worker) && ShowsHandler(u.tcbs[2], z.handlerA) && ShowsHandler(u.tcbs[3], z.handlerB)
    && ShowsDevice(u.tcbs[4], z.deviceA) && ShowsDevice(u.tcbs[5], z.deviceB)
  }

  /** All that a round of a running block changes. */
  ghost predicate Ran(u: State, v: State, p: Option<Packet>, a: Act) {
    var c := u.current;
    && Runs(u, c) && |u.tcbs| == |v.tcbs| == NUMBER_OF_IDS && p == Taken(u)
    && a == Action(u.tcbs[c].task, p) && (a.Sending? ==> a.packet.id < NUMBER_OF_IDS)
    && (forall k :: 0 <= k < NUMBER_OF_IDS ==>
          && v.tcbs[k].task == (if k == c then Reaction(u.tcbs[c].task, p).0 else u.tcbs[k].task)
          && v.tcbs[k].queue
             == Remaining(u, k) + (if a.Sending? && a.packet.id == k then [a.packet.(id := c)] else [])
          && v.tcbs[k].state.suspended == (if k == c then a.Suspending? else u.tcbs[k].state.suspended)
          && (!a.Releasing? ==> v.tcbs[k].state.held == if k == c then a.Holding? else u.tcbs[k].state.held))
    && v.queueCount == u.queueCount + (if a.Sending? then 1 else 0)
    && v.holdCount == u.holdCount + (if a.Holding? then 1 else 0)
    && v.current == match a
                    case Sending(q) => (if Remaining(u, q.id) == [] && q.id > c then q.id else c)
                    case Holding => c - 1
                    case Suspending => c
                    case Releasing(id) => id
  }

  lemma RoundRan(u: State)
    requires Inv(u) && AtHome(u) && Runs(u, u.current)
    ensures Indexed(u) && HasPacket(u.tcbs[u.current])
    ensures Ran(u, Step(u), Taken(u), Action(u.tcbs[u.current].task, Taken(u)))
  {
    hide Inv, Step, Sent, Home, TaskHome, Proper, Gains, Reaction;
    var c, p := u.current, Taken(u);
    RoundLaw(u);
    RoundControls(u);
    ReactionStaysHome(c, u.tcbs[c].task, p);
    PriorityRises(u);
    ActionHolds(u.tcbs[c].task, p);
    BlocksInPlace(u);
    if u.tcbs[c].task.Idle? {
      IdleIsFirst(c, u.tcbs[c].task);
    }
  }

  lemma BlocksInPlace(u: State)
    requires AtHome(u)
    ensures forall id :: 0 <= id < NUMBER_OF_IDS ==> Block(u, id) == id
  {
  }

  lemma IdleIsFirst(k: nat, t: Task)
    requires TaskHome(k, t) && t.Idle?
    ensures k == ID_IDLE
  {
  }

  lemma PriorityRises(u: State)
    requires Inv(u)
    ensures
      forall i, j :: 0 <= i < |u.tcbs| && 0 <= j < |u.tcbs| ==>
        (u.tcbs[i].priority < u.tcbs[j].priority <==> i < j)
  {
    forall i, j | 0 <= i < |u.tcbs| && 0 <= j < |u.tcbs|
      ensures u.tcbs[i].priority < u.tcbs[j].priority <==> i < j
    {
    }
  }

  lemma ActionHolds(t: Task, p: Option<Packet>)
    ensures Action(t, p).Holding? <==> (t.Device? && p.Some?) || (t.Idle? && t.count == 1)
    ensures Action(t, p).Sending? <==> Reaction(t, p).1.Some?
    ensures Action(t, p).Releasing? ==> t.Idle? && 0 < Action(t, p).id < NUMBER_OF_IDS
  {
  }

  lemma FlagsTell(u: State, k: nat)
    requires Inv(u) && k < |u.tcbs|
    ensures
      var t := u.tcbs[k];
      && (t.IsHeldOrSuspended() <==> t.state.held || (t.state.suspended && t.queue == []))
      && (Runs(u, k) ==> (Taken(u).Some? <==> t.state.suspended))
      && (Runs(u, k) && t.state.suspended ==> t.queue != [] && Taken(u) == Some(t.queue[0]))
  {
    assert BlockOk(u, u.tcbs[k]);
  }

  lemma SkipShows(u: State, z: Small)
    requires Inv(u) && AtHome(u) && Shows(u, z) && Busy(z) && !Runs(u, u.current)
    ensures Indexed(u) && HasPacket(u.tcbs[u.current]) && Shows(Step(u), SmallStep(z))
  {
    hide Inv, AtHome;
    InvIsSafe(u);
    FlagsTell(u, u.current);
  }

  // ----- the blocks that do not run -----

  predicate Reaches(a: Act, k: nat) { a.Sending? && a.packet.id == k }

  function WorkerMore(c: WorkerCell, a: Act): WorkerCell {
    if Reaches(a, ID_WORKER) then c.(queue := c.queue + 1) else c
  }

  function HandlerMore(c: HandlerCell, a: Act, k: nat): HandlerCell {
    if Reaches(a, k) then c.(queue := Added(c.queue, a.packet.kind)) else c
  }

  function DeviceMore(c: DeviceCell, a: Act, k: nat): DeviceCell {
    if Reaches(a, k) then c.(queue := c.queue + 1) else c
  }

  /** A block that does not run, nor is released, only gains what is sent to it. */
  lemma Spared(u: State, v: State, p: Option<Packet>, a: Act, k: nat)
    requires Ran(u, v, p, a) && k != u.current && k < NUMBER_OF_IDS && !a.Releasing?
    ensures |v.tcbs| == |u.tcbs|
    ensures
      var t := u.tcbs[k];
      && v.tcbs[k].task == t.task && v.tcbs[k].state.suspended == t.state.suspended
      && v.tcbs[k].state.held == t.state.held
      && v.tcbs[k].queue == if Reaches(a, k) then t.queue + [a.packet.(id := u.current)] else t.queue
  {
    assert u.tcbs[k].queue + [] == u.tcbs[k].queue;
  }

  lemma WorkerSpared(u: State, v: State, p: Option<Packet>, a: Act, c: WorkerCell)
    requires Ran(u, v, p, a) && ID_WORKER != u.current && !a.Releasing? && ShowsWorker(u.tcbs[ID_WORKER], c)
    ensures ShowsWorker(v.tcbs[ID_WORKER], WorkerMore(c, a))
  {
    Spared(u, v, p, a, ID_WORKER);
    hide Ran;
  }

  lemma HandlerSpared(u: State, v: State, p: Option<Packet>, a: Act, k: nat, c: HandlerCell)
    requires Ran(u, v, p, a) && IsHandler(k) && k != u.current && !a.Releasing? && ShowsHandler(u.tcbs[k], c)
    ensures ShowsHandler(v.tcbs[k], HandlerMore(c, a, k))
  {
    Spared(u, v, p, a, k);
    if Reaches(a, k) {
      KindsMore(u.tcbs[k].queue, a.packet.(id := u.current));
    }
    hide Ran;
  }

  lemma DeviceSpared(u: State, v: State, p: Option<Packet>, a: Act, k: nat, c: DeviceCell)
    requires Ran(u, v, p, a) && IsDevice(k) && k != u.current && !a.Releasing? && ShowsDevice(u.tcbs[k], c)
    ensures ShowsDevice(v.tcbs[k], DeviceMore(c, a, k))
  {
    Spared(u, v, p, a, k);
    hide Ran;
  }

  // ----- the block that runs -----

  /** The block that runs keeps what it does not take, sends nothing to itself, and is suspended or held if it asks. */
  lemma Acts(u: State, v: State, p: Option<Packet>, a: Act)
    requires Ran(u, v, p, a) && !Reaches(a, u.current) && !a.Releasing?
    ensures
      var k := u.current;
      && v.tcbs[k].task == Reaction(u.tcbs[k].task, p).0 && v.tcbs[k].queue == Remaining(u, k)
      && v.tcbs[k].state.suspended == a.Suspending? && v.tcbs[k].state.held == a.Holding?
  {
    assert Remaining(u, u.current) + [] == Remaining(u, u.current);
  }

  /** What the block that runs has, at the call of its task. */
  ghost predicate Begins(u: State, p: Option<Packet>) {
    var k := u.current;
    && Runs(u, k) && p == Taken(u) && BlockHome(k, u.tcbs[k])
    && (p.Some? <==> u.tcbs[k].state.suspended) && (p.Some? ==> u.tcbs[k].queue != [] && p.value == u.tcbs[k].queue[0])
  }

  function Gone(t: Task): int { if t.Handler? && t.work != [] then t.work[0].a1 else 0 }

  /** What a handler does, told from the numbers of its packets alone. */
  lemma HandlerActs(k: nat, t: Task, p: Option<Packet>)
    requires TaskHome(k, t) && t.Handler? && (p.Some? ==> Home(k, p.value))
    ensures
      var h, t', a := Accept(t, p), Reaction(t, p).0, Action(t, p);
      && t'.Handler? && Gone(h) >= 0 && Gone(h) == Gone(t)
      && if h.work == [] || (Gone(h) < DATA_SIZE && h.device == []) then a.Suspending? && t' == h
         else if Gone(h) >= DATA_SIZE then
           && a.Sending? && a.packet.id == ID_WORKER && a.packet.kind == WorkKind
           && |t'.work| == |h.work| - 1 && t'.device == h.device && Gone(t') == 0
         else
           && a.Sending? && a.packet.id == k + 2 && a.packet.kind == DeviceKind
           && |t'.work| == |h.work| && |t'.device| == |h.device| - 1 && Gone(t') == Gone(h) + 1
  {
    HandlerStaysHome(k, t, p);
  }

  lemma HandlerTakes(t: Tcb, c: HandlerCell, p: Option<Packet>)
    requires ShowsHandler(t, c) && (p.Some? <==> t.state.suspended)
    requires p.Some? ==> t.queue != [] && p.value == t.queue[0]
    ensures
      var h, r := Accept(t.task, p), Taking(c);
      && r.work == |h.work| && r.device == |h.device| && r.queue == Kinds(if p.Some? then t.queue[1..] else t.queue)
      && !r.suspended && r.gone == c.gone == Gone(t.task)
  {
  }

  /** A handler's cell after its run, and what it sends. */
  function HandlerAfter(c: HandlerCell): HandlerCell {
    var h := Taking(c);
    if h.work == 0 || (h.gone < DATA_SIZE && h.device == 0) then h.(suspended := true)
    else if h.gone >= DATA_SIZE then h.(work := h.work - 1, gone := 0)
    else h.(gone := h.gone + 1, device := h.device - 1)
  }

  predicate HandlerDoes(c: HandlerCell, a: Act, k: nat) {
    var h := Taking(c);
    if h.work == 0 || (h.gone < DATA_SIZE && h.device == 0) then a.Suspending?
    else if h.gone >= DATA_SIZE then Reaches(a, ID_WORKER)
    else Reaches(a, k + 2)
  }

  lemma HandlerRan(u: State, v: State, p: Option<Packet>, a: Act, c: HandlerCell)
    requires Ran(u, v, p, a) && Begins(u, p) && IsHandler(u.current) && ShowsHandler(u.tcbs[u.current], c)
    ensures HandlerDoes(c, a, u.current) && ShowsHandler(v.tcbs[u.current], HandlerAfter(c))
  {
    var k := u.current;
    HandlerActs(k, u.tcbs[k].task, p);
    HandlerTakes(u.tcbs[k], c, p);
    Acts(u, v, p, a);
    hide Ran, Reaction, Action, Accept, Taking, Kinds;
  }

  lemma KindsMore(ps: seq<Packet>, p: Packet)
    ensures Kinds(ps + [p]) == Added(Kinds(ps), p.kind)
  {
  }

  predicate Vacant(z: Small, k: nat) {
    if k == ID_WORKER then z.worker.queue == 0
    else if IsHandler(k) then z.Handler(k).queue == []
    else z.Device(k).queue == 0
  }

  /** The counts and the current block after a run. */
  ghost predicate Counted(v: State, z: Small, a: Act) {
    && |v.tcbs| == NUMBER_OF_IDS
    && v.queueCount == z.queued + (if a.Sending? then 1 else 0)
    && v.holdCount == z.holds + (if a.Holding? then 1 else 0)
    && v.current == match a
                    case Sending(q) => (if Vacant(z, q.id) && q.id > z.current then q.id else z.current)
                    case Holding => z.current - 1
                    case _ => z.current
  }

  lemma RanCounted(u: State, v: State, z: Small, p: Option<Packet>, a: Act)
    requires Ran(u, v, p, a) && Shows(u, z) && !a.Releasing? && !Reaches(a, u.current) && !Reaches(a, ID_IDLE)
    ensures Counted(v, z, a)
  {
    if a.Sending? {
      var k := a.packet.id;
      assert Remaining(u, k) == u.tcbs[k].queue;
    }
  }

  lemma HandlerShows(u: State, v: State, z: Small, p: Option<Packet>, a: Act)
    requires Ran(u, v, p, a) && Begins(u, p) && Shows(u, z) && IsHandler(u.current)
    ensures Shows(v, SmallStep(z))
  {
    hide Ran, Begins, ShowsWorker, ShowsHandler, ShowsDevice;
    var k := u.current;
    HandlerRan(u, v, p, a, z.Handler(k));
    WorkerSpared(u, v, p, a, z.worker);
    HandlerSpared(u, v, p, a, 5 - k, z.Handler(5 - k));
    DeviceSpared(u, v, p, a, ID_DEVICE_A, z.deviceA);
    DeviceSpared(u, v, p, a, ID_DEVICE_B, z.deviceB);
    RanCounted(u, v, z, p, a);
    HandlerAwake(u, p, z);
  }

  /** A handler that runs is not passed over. */
  lemma HandlerAwake(u: State, p: Option<Packet>, z: Small)
    requires Begins(u, p) && Shows(u, z) && IsHandler(u.current)
    ensures var c := z.Handler(z.current); !(c.suspended && c.queue == [])
  {
  }

  lemma WorkerRan(u: State, v: State, p: Option<Packet>, a: Act, c: WorkerCell)
    requires Ran(u, v, p, a) && Begins(u, p) && u.current == ID_WORKER && ShowsWorker(u.tcbs[ID_WORKER], c)
    ensures c.suspended ==> c.queue > 0
    ensures
      if c.suspended then
        && Reaches(a, if c.toB then ID_HANDLER_B else ID_HANDLER_A) && a.packet.kind == WorkKind
        && ShowsWorker(v.tcbs[ID_WORKER], WorkerCell(c.queue - 1, false, !c.toB))
      else a.Suspending? && ShowsWorker(v.tcbs[ID_WORKER], c.(suspended := true))
  {
    hide Letter;
    assert p.Some? ==> Home(ID_WORKER, p.value);
    Acts(u, v, p, a);
  }

  lemma WorkerShows(u: State, v: State, z: Small, p: Option<Packet>, a: Act)
    requires Ran(u, v, p, a) && Begins(u, p) && Shows(u, z) && u.current == ID_WORKER
    ensures Shows(v, SmallStep(z))
  {
    hide Ran, Begins, ShowsWorker, ShowsHandler, ShowsDevice;
    WorkerRan(u, v, p, a, z.worker);
    HandlerSpared(u, v, p, a, ID_HANDLER_A, z.handlerA);
    HandlerSpared(u, v, p, a, ID_HANDLER_B, z.handlerB);
    DeviceSpared(u, v, p, a, ID_DEVICE_A, z.deviceA);
    DeviceSpared(u, v, p, a, ID_DEVICE_B, z.deviceB);
    RanCounted(u, v, z, p, a);
  }

  lemma DeviceRan(u: State, v: State, p: Option<Packet>, a: Act, c: DeviceCell)
    requires Ran(u, v, p, a) && Begins(u, p) && IsDevice(u.current) && ShowsDevice(u.tcbs[u.current], c)
    ensures !c.held && (c.suspended ==> c.queue > 0)
    ensures
      var k := u.current;
      if c.suspended then a.Holding? && ShowsDevice(v.tcbs[k], DeviceCell(c.queue - 1, false, true, true))
      else if c.slot then
        Reaches(a, k - 2) && a.packet.kind == DeviceKind && ShowsDevice(v.tcbs[k], c.(slot := false))
      else a.Suspending? && ShowsDevice(v.tcbs[k], c.(suspended := true))
  {
    Acts(u, v, p, a);
  }

  lemma DeviceShows(u: State, v: State, z: Small, p: Option<Packet>, a: Act)
    requires Ran(u, v, p, a) && Begins(u, p) && Shows(u, z) && IsDevice(u.current)
    ensures Shows(v, SmallStep(z))
  {
    hide Ran, Begins, ShowsWorker, ShowsHandler, ShowsDevice;
    var k := u.current;
    DeviceRan(u, v, p, a, z.Device(k));
    WorkerSpared(u, v, p, a, z.worker);
    HandlerSpared(u, v, p, a, ID_HANDLER_A, z.handlerA);
    HandlerSpared(u, v, p, a, ID_HANDLER_B, z.handlerB);
    DeviceSpared(u, v, p, a, 9 - k, z.Device(9 - k));
    RanCounted(u, v, z, p, a);
  }

  /** Round by round, as long as the idle task is not reached, the machine shows what the scheduler does. */
  lemma StepShows(u: State, z: Small)
    requires Inv(u) && AtHome(u) && Shows(u, z) && Busy(z)
    ensures Indexed(u) && HasPacket(u.tcbs[u.current]) && Shows(Step(u), SmallStep(z))
  {
    hide Inv, Ran, Step, Shows, SmallStep, Action, Reaction, Taken, TaskHome, AllHome;
    ShowsCurrent(u, z);
    var k := u.current;
    if Runs(u, k) {
      FlagsTell(u, k);
      RoundRan(u);
      var p, v := Taken(u), Step(u);
      var a := Action(u.tcbs[k].task, p);
      if k == ID_WORKER {
        WorkerShows(u, v, z, p, a);
      } else if IsHandler(k) {
        HandlerShows(u, v, z, p, a);
      } else {
        DeviceShows(u, v, z, p, a);
      }
    } else {
      SkipShows(u, z);
    }
  }

  lemma ShowsCurrent(u: State, z: Small)
    requires Shows(u, z)
    ensures u.current == z.current && |u.tcbs| == NUMBER_OF_IDS
  {
  }
}
