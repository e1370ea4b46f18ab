/**
 The scheduler as the mutable object of demo/v8_benchmark.js, 337-825. Its work lists, the lists of
 handlers and the slots of devices are packets linked in memory; each method is proved to do what
 the state functions of RichardsScheduler say, so that the results about whole runs hold of it. A
 method that in the source returns the next block returns its index.
 */
module SchedulerObject {
  import opened Options
  import opened PacketStore
  import opened RichardsProgram
  import opened RichardsScheduler
  import opened RichardsTally
  import opened RichardsThousand

  // ----- blocks without their packets -----

  datatype Scalars = IdleTask(v1: bv32, count: int) | WorkerTask(target: nat, v2: int) | HandlerTask | DeviceTask

  datatype Cell = Cell(id: nat, priority: int, state: Flags, task: Scalars)

  function TaskOf(c: Scalars, work: seq<Packet>, device: seq<Packet>, slot: Option<Packet>): Task {
    match c
    case IdleTask(v1, count) => Idle(v1, count)
    case WorkerTask(target, v2) => Worker(target, v2)
    case HandlerTask => Handler(work, device)
    case DeviceTask => Device(slot)
  }

  /** Each block has a work list, a handler's two lists and a device's slot, whether its task uses them or not. */
  predicate Shaped(cells: seq<Cell>, lists: seq<seq<Packet>>, slots: seq<Option<Packet>>) {
    |lists| == 3 * |cells| && |slots| == |cells|
  }

  function TcbAt(cells: seq<Cell>, lists: seq<seq<Packet>>, slots: seq<Option<Packet>>, k: nat): Tcb
    requires Shaped(cells, lists, slots) && k < |cells|
  {
    var c := cells[k];
    Tcb(c.id, c.priority, lists[3 * k], c.state, TaskOf(c.task, lists[3 * k + 1], lists[3 * k + 2], slots[k]))
  }

  function Build(cells: seq<Cell>, lists: seq<seq<Packet>>, slots: seq<Option<Packet>>): (r: seq<Tcb>)
    requires Shaped(cells, lists, slots)
    ensures |r| == |cells|
  {
    seq(|cells|, k requires 0 <= k < |cells| => TcbAt(cells, lists, slots, k))
  }

  /** A change in row k changes block k only. */
  lemma BuildRow(cells: seq<Cell>, lists: seq<seq<Packet>>, slots: seq<Option<Packet>>,
                 cells': seq<Cell>, lists': seq<seq<Packet>>, slots': seq<Option<Packet>>, k: nat)
    requires Shaped(cells, lists, slots) && Shaped(cells', lists', slots') && k < |cells| == |cells'|
    requires forall j :: 0 <= j < |cells| && j != k ==> cells'[j] == cells[j] && slots'[j] == slots[j]
    requires forall i :: 0 <= i < |lists| && !(3 * k <= i < 3 * k + 3) ==> lists'[i] == lists[i]
    ensures Build(cells', lists', slots') == Build(cells, lists, slots)[k := TcbAt(cells', lists', slots', k)]
  {
    forall j | 0 <= j < |cells| && j != k ensures TcbAt(cells', lists', slots', j) == TcbAt(cells, lists, slots, j) {
      assert lists'[3 * j] == lists[3 * j] && lists'[3 * j + 1] == lists[3 * j + 1]
             && lists'[3 * j + 2] == lists[3 * j + 2];
    }
  }

  /** Another state word and work list for block k. */
  lemma QueueRow(cells: seq<Cell>, lists: seq<seq<Packet>>, slots: seq<Option<Packet>>, k: nat, st: Flags,
                 q: seq<Packet>)
    requires Shaped(cells, lists, slots) && k < |cells|
    ensures
      Build(cells[k := cells[k].(state := st)], lists[3 * k := q], slots)
      == Build(cells, lists, slots)[k := Build(cells, lists, slots)[k].(state := st, queue := q)]
  {
    BuildRow(cells, lists, slots, cells[k := cells[k].(state := st)], lists[3 * k := q], slots, k);
  }

  /** Another task for block k. */
  lemma TaskRow(cells: seq<Cell>, lists: seq<seq<Packet>>, slots: seq<Option<Packet>>, k: nat,
                c: Scalars, work: seq<Packet>, device: seq<Packet>, slot: Option<Packet>)
    requires Shaped(cells, lists, slots) && k < |cells|
    ensures
      Build(cells[k := cells[k].(task := c)], lists[3 * k + 1 := work][3 * k + 2 := device], slots[k := slot])
      == Build(cells, lists, slots)[k := Build(cells, lists, slots)[k].(task := TaskOf(c, work, device, slot))]
  {
    BuildRow(cells, lists, slots, cells[k := cells[k].(task := c)], lists[3 * k + 1 := work][3 * k + 2 := device],
        slots[k := slot], k);
  }

  /**
   Whatever the current task may send, given p, has an addressee; a device given p has none, and an idle task is given
   none.
   */
  ghost predicate CanSend(s: State, p: Option<Packet>) {
    Running(s) &&
    match s.tcbs[s.current].task
    case Idle(_, _) => p.None?
    case Worker(_, _) => Block(s, ID_HANDLER_A) >= 0 && Block(s, ID_HANDLER_B) >= 0
    case Handler(work, device) =>
      && (forall q :: q in work || q in device ==> Block(s, q.id) >= 0)
      && (p.Some? ==> Block(s, p.value.id) >= 0)
    case Device(slot) => (slot.Some? ==> p.None? && Block(s, slot.value.id) >= 0)
  }

  // ----- the scheduler -----

  class Scheduler {
    var cells: seq<Cell>
    const store: Store
    var blocks: seq<int>
    var currentTcb: int
    var currentId: nat
    var queueCount: nat
    var holdCount: nat

    ghost predicate Valid()
      reads this, store, store.place.Keys
    {
      store.Valid() && |store.heads| == 3 * |cells| && |store.slots| == |cells|
    }

    ghost function Now(): State
      requires Valid()
      reads this, store, store.place.Keys
    {
      State(Build(cells, store.Lists(), store.Slots()), blocks, currentTcb, currentId, queueCount, holdCount)
    }

    lemma At(k: nat)
      requires Valid() && k < |cells|
      ensures Now().tcbs[k] == TcbAt(cells, store.Lists(), store.Slots(), k)
    {
    }

    /** The object is as expected, but for the next block, which has only been answered. */
    ghost predicate Yields(before: State, next: int, expected: State)
      reads this, store, store.place.Keys
    {
      Valid() && Now().(current := next) == expected && currentTcb == before.current
    }

    constructor ()
      ensures Valid() && Now() == NoTasks() && fresh(store) && store.place == map[] && store.Settled()
    {
      cells := [];
      store := new Store();
      blocks := seq(NUMBER_OF_IDS, _ => -1);
      currentTcb := -1;
      currentId, queueCount, holdCount := 0, 0, 0;
    }

    /** Writes the state word of block k. */
    method SetFlags(k: nat, st: Flags)
      requires Valid() && k < |cells|
      modifies this`cells
      ensures Valid() && Now() == SetState(old(Now()), k, st) && |cells| == old(|cells|)
    {
      hide Build, Store.Valid, Store.Lists, Store.Slots;
      At(k);
      QueueRow(cells, store.Lists(), store.Slots(), k, st, store.Lists()[3 * k]);
      assert store.Lists()[3 * k := store.Lists()[3 * k]] == store.Lists();
      cells := cells[k := cells[k].(state := st)];
    }

    /** Writes the fields of an idle task or a worker. */
    method Become(c: Scalars)
      requires Valid() && Running(Now())
               && ((c.IdleTask? && cells[currentTcb].task.IdleTask?)
                   || (c.WorkerTask? && cells[currentTcb].task.WorkerTask?))
      modifies this`cells
      ensures Valid() && Now() == SetTask(old(Now()), TaskOf(c, [], [], None)) && |cells| == old(|cells|)
      ensures Running(Now()) && cells[currentTcb].task == c
    {
      hide Build, Store.Valid, Store.Lists, Store.Slots;
      var k := currentTcb;
      ghost var lists, slots := store.Lists(), store.Slots();
      TaskRow(cells, lists, slots, k, c, lists[3 * k + 1], lists[3 * k + 2], slots[k]);
      assert lists[3 * k + 1 := lists[3 * k + 1]][3 * k + 2 := lists[3 * k + 2]] == lists
             && slots[k := slots[k]] == slots;
      cells := cells[k := cells[k].(task := c)];
    }

    method ReleaseTask(id: nat) returns (next: int)
      requires Valid() && Running(Now())
      modifies this`cells
      ensures Yields(old(Now()), next, Release(old(Now()), id))
    {
      hide Build, Store.Valid, Store.Lists, Store.Slots;
      var k := if id < |blocks| then blocks[id] else -1;
      if k < 0 {
        return -1;
      }
      At(k);
      At(currentTcb);
      next := if cells[k].priority > cells[currentTcb].priority then k else currentTcb;
      SetFlags(k, cells[k].state.(held := false));
    }

    method Hold() returns (next: int)
      requires Valid() && Running(Now())
      modifies this`cells, this`holdCount
      ensures Yields(old(Now()), next, HoldCurrent(old(Now())))
    {
      hide Build, Store.Valid, Store.Lists, Store.Slots;
      At(currentTcb);
      SetFlags(currentTcb, cells[currentTcb].state.(held := true));
      holdCount := holdCount + 1;
      next := currentTcb - 1;
    }

    method Suspend() returns (next: int)
      requires Valid() && Running(Now())
      modifies this`cells
      ensures Yields(old(Now()), next, SuspendCurrent(old(Now())))
    {
      hide Build, Store.Valid, Store.Lists, Store.Slots;
      At(currentTcb);
      SetFlags(currentTcb, cells[currentTcb].state.(suspended := true));
      next := currentTcb;
    }

    method Queue(packet: PacketNode) returns (next: int)
      requires Valid() && Running(Now()) && store.IsLoose(packet)
      modifies this, store, store.place.Keys
      ensures Yields(old(Now()), next, Enqueue(old(Now()), old(packet.Value())))
      ensures store.place.Keys == old(store.place.Keys)
      ensures old(Block(Now(), packet.id)) >= 0 ==>
                store.place == old(store.place)[packet := Listed(3 * old(Block(Now(), packet.id)))]
    {
      hide Build, Store.Valid, Store.Lists, Store.Slots;
      var k := if packet.id < |blocks| then blocks[packet.id] else -1;
      if k < 0 {
        return -1;
      }
      queueCount := queueCount + 1;
      store.Unlink(packet);
      store.Write(packet, currentId, packet.a1, packet.a2);
      next := PriorityAdd(k, packet);
    }

    method PriorityAdd(k: int, packet: PacketNode) returns (next: int)
      requires Valid() && Running(Now()) && 0 <= k < |cells| && store.IsLoose(packet) && packet.link == null
      modifies this`cells, store, store.place.Keys`link
      ensures Yields(old(Now()), next, CheckPriorityAdd(old(Now()), k, packet.Value()))
      ensures store.place == old(store.place)[packet := Listed(3 * k)]
    {
      hide Build, Store.Valid, Store.Lists, Store.Slots, Indexed;
      At(k);
      At(currentTcb);
      store.HeadTells(3 * k);
      next := if store.heads[3 * k] == null && cells[k].priority > cells[currentTcb].priority then k else currentTcb;
      Enlist(k, packet);
    }

    /** Puts a packet on the work list of block k, which is then runnable. */
    method Enlist(k: nat, packet: PacketNode)
      requires Valid() && k < |cells| && store.IsLoose(packet) && packet.link == null
      modifies this`cells, store, store.place.Keys`link
      ensures Valid()
      ensures Now() == old(Now()).(tcbs := old(Now()).tcbs[k := Appended(old(Now()).tcbs[k], packet.Value())])
      ensures store.place == old(store.place)[packet := Listed(3 * k)]
    {
      hide Build, Store.Valid, Store.Lists, Store.Slots;
      ghost var lists, slots, c := store.Lists(), store.Slots(), cells[k];
      At(k);
      store.HeadTells(3 * k);
      if store.heads[3 * k] == null {
        QueueRow(cells, lists, slots, k, c.state.(runnable := true), [packet.Value()]);
        store.Start(3 * k, packet);
        cells := cells[k := cells[k].(state := cells[k].state.(runnable := true))];
      } else {
        QueueRow(cells, lists, slots, k, c.state, lists[3 * k] + [packet.Value()]);
        assert cells[k := c] == cells;
        store.Append(3 * k, packet);
      }
    }

    // ----- the packets of a task -----

    /** A packet for the handler's lists. */
    method AcceptPacket(packet: PacketNode)
      requires Valid() && Running(Now()) && cells[currentTcb].task.HandlerTask? && store.IsLoose(packet)
      modifies store, store.place.Keys`link
      ensures Valid() && Running(Now())
      ensures
        var t := old(Now()).tcbs[currentTcb].task;
        t.Handler? && Now() == SetTask(old(Now()), Accept(t, Some(packet.Value())))
      ensures store.place
              == old(store.place)[packet := Listed(3 * currentTcb + if packet.kind == WorkKind then 1 else 2)]
    {
      hide Build, Store.Valid, Store.Lists, Store.Slots;
      var k := currentTcb;
      ghost var lists, slots, p := store.Lists(), store.Slots(), packet.Value();
      At(k);
      assert cells[k := cells[k].(task := HandlerTask)] == cells && slots[k := slots[k]] == slots;
      if packet.kind == WorkKind {
        TaskRow(cells, lists, slots, k, HandlerTask, lists[3 * k + 1] + [p], lists[3 * k + 2], slots[k]);
        store.Append(3 * k + 1, packet);
        assert store.Lists() == lists[3 * k + 1 := lists[3 * k + 1] + [p]][3 * k + 2 := lists[3 * k + 2]];
      } else {
        TaskRow(cells, lists, slots, k, HandlerTask, lists[3 * k + 1], lists[3 * k + 2] + [p], slots[k]);
        store.Append(3 * k + 2, packet);
        assert store.Lists() == lists[3 * k + 1 := lists[3 * k + 1]][3 * k + 2 := lists[3 * k + 2] + [p]];
      }
    }

    /** Takes the handler's first work packet. */
    method TakeWork() returns (v: PacketNode)
      requires Valid() && Running(Now()) && cells[currentTcb].task.HandlerTask?
      requires store.heads[3 * currentTcb + 1] != null
      modifies store
      ensures Valid() && Running(Now()) && store.place == old(store.place)[v := Loose] && v in old(store.place)
      ensures
        var t := old(Now()).tcbs[currentTcb].task;
        t.Handler? && t.work != [] && v.Value() == t.work[0] && Now() == SetTask(old(Now()), t.(work := t.work[1..]))
    {
      hide Build, Store.Valid, Store.Lists, Store.Slots;
      var k := currentTcb;
      ghost var lists, slots := store.Lists(), store.Slots();
      At(k);
      store.HeadTells(3 * k + 1);
      assert cells[k := cells[k].(task := HandlerTask)] == cells && slots[k := slots[k]] == slots;
      TaskRow(cells, lists, slots, k, HandlerTask, lists[3 * k + 1][1..], lists[3 * k + 2], slots[k]);
      v := store.Pop(3 * k + 1);
      assert store.Lists() == lists[3 * k + 1 := lists[3 * k + 1][1..]][3 * k + 2 := lists[3 * k + 2]];
    }

    /** Takes the handler's first device packet with the next datum of its first work packet. */
    method TakeDevice(w: PacketNode) returns (v: PacketNode)
      requires Valid() && Running(Now()) && cells[currentTcb].task.HandlerTask?
      requires store.heads[3 * currentTcb + 1] == w && store.heads[3 * currentTcb + 2] != null
      modifies store, store.place.Keys
      ensures Valid() && Running(Now()) && store.place == old(store.place)[v := Loose] && v in old(store.place)
      ensures
        var t := old(Now()).tcbs[currentTcb].task;
        && t.Handler? && t.work != [] && t.device != [] && v.Value() == t.device[0].(a1 := Data(t.work[0]))
        && Now() == SetTask(old(Now()), Handler(t.work[0 := t.work[0].(a1 := t.work[0].a1 + 1)], t.device[1..]))
    {
      hide Build, Store.Valid, Store.Lists, Store.Slots;
      var k := currentTcb;
      ghost var lists, slots := store.Lists(), store.Slots();
      At(k);
      store.HeadTells(3 * k + 1);
      store.HeadTells(3 * k + 2);
      assert cells[k := cells[k].(task := HandlerTask)] == cells && slots[k := slots[k]] == slots;
      ghost var work: seq<Packet> := lists[3 * k + 1];
      work := work[0 := work[0].(a1 := w.a1 + 1)];
      TaskRow(cells, lists, slots, k, HandlerTask, work, lists[3 * k + 2][1..], slots[k]);
      var count := w.a1;
      var datum := Data(w.Value());
      v := store.Pop(3 * k + 2);
      store.Write(v, v.id, datum, v.a2);
      store.WriteFirst(3 * k + 1, w, count + 1);
      assert store.Lists() == lists[3 * k + 1 := work][3 * k + 2 := lists[3 * k + 2][1..]];
    }

    method FillSlot(packet: PacketNode)
      requires Valid() && Running(Now()) && cells[currentTcb].task.DeviceTask? && store.IsLoose(packet)
      modifies store
      ensures Valid() && Running(Now()) && Now() == SetTask(old(Now()), Device(Some(packet.Value())))
      ensures store.place.Keys == old(store.place.Keys)
      ensures old(store.slots[currentTcb]) == null ==> store.place == old(store.place)[packet := Slotted(currentTcb)]
    {
      hide Build, Store.Valid, Store.Lists, Store.Slots;
      var k := currentTcb;
      ghost var lists, slots := store.Lists(), store.Slots();
      assert cells[k := cells[k].(task := DeviceTask)] == cells;
      assert lists[3 * k + 1 := lists[3 * k + 1]][3 * k + 2 := lists[3 * k + 2]] == lists;
      TaskRow(cells, lists, slots, k, DeviceTask, lists[3 * k + 1], lists[3 * k + 2], Some(packet.Value()));
      store.Fill(k, packet);
    }

    method EmptySlot() returns (v: PacketNode)
      requires Valid() && Running(Now()) && cells[currentTcb].task.DeviceTask? && store.slots[currentTcb] != null
      modifies store
      ensures Valid() && Running(Now()) && Now() == SetTask(old(Now()), Device(None))
      ensures old(Now()).tcbs[currentTcb].task == Device(Some(v.Value()))
      ensures v in old(store.place) && store.place == old(store.place)[v := Loose]
    {
      hide Build, Store.Valid, Store.Lists, Store.Slots;
      var k := currentTcb;
      ghost var lists, slots := store.Lists(), store.Slots();
      At(k);
      assert cells[k := cells[k].(task := DeviceTask)] == cells;
      assert lists[3 * k + 1 := lists[3 * k + 1]][3 * k + 2 := lists[3 * k + 2]] == lists;
      TaskRow(cells, lists, slots, k, DeviceTask, lists[3 * k + 1], lists[3 * k + 2], None);
      v := store.Empty(k);
    }

    // ----- how tasks run -----

    method RunIdleTask() returns (next: int)
      requires Valid() && Running(Now()) && cells[currentTcb].task.IdleTask?
      modifies this
      ensures old(Now()).tcbs[old(currentTcb)].task.Idle? && Yields(old(Now()), next, RunIdle(old(Now())))
    {
      hide Build, Store.Valid, Store.Lists, Store.Slots, Release, HoldCurrent, HalfSigned, SetTask, Indexed;
      At(currentTcb);
      var t := cells[currentTcb].task;
      var count := t.count - 1;
      SetTaskTwice(Now(), Idle(t.v1, count), Idle(HalfSigned(t.v1), count));
      SetTaskTwice(Now(), Idle(t.v1, count), Idle(HalfSigned(t.v1) ^ 0xD008, count));
      Become(t.(count := count));
      if count == 0 {
        next := Hold();
      } else if t.v1 & 1 == 0 {
        Become(IdleTask(HalfSigned(t.v1), count));
        next := ReleaseTask(ID_DEVICE_A);
      } else {
        Become(IdleTask(HalfSigned(t.v1) ^ 0xD008, count));
        next := ReleaseTask(ID_DEVICE_B);
      }
    }

    static lemma SetTaskTwice(s: State, t: Task, u: Task)
      requires Running(s)
      ensures Running(SetTask(s, t)) && SetTask(SetTask(s, t), u) == SetTask(s, u)
    {
      assert s.tcbs[s.current := s.tcbs[s.current].(task := t)][s.current := s.tcbs[s.current].(task := u)]
          == s.tcbs[s.current := s.tcbs[s.current].(task := u)];
    }

    method RunDeviceTask(packet: PacketNode?) returns (next: int)
      requires Valid() && Running(Now()) && cells[currentTcb].task.DeviceTask?
      requires (packet != null ==> store.IsLoose(packet))
      modifies this, store, store.place.Keys
      ensures old(Now()).tcbs[old(currentTcb)].task.Device?
      ensures Yields(old(Now()), next, RunDevice(old(Now()), old(ValueOf(packet))))
      ensures store.place.Keys == old(store.place.Keys)
      ensures old(CanSend(Now(), ValueOf(packet)) && store.SettledBut(packet)) ==> store.Settled()
    {
      hide Build, Store.Valid, Store.Lists, Store.Slots, Enqueue, HoldCurrent, SuspendCurrent, SetTask, Indexed;
      At(currentTcb);
      store.SlotTells(currentTcb);
      if packet == null {
        if store.slots[currentTcb] == null {
          next := Suspend();
        } else {
          var v := EmptySlot();
          next := Queue(v);
        }
      } else {
        FillSlot(packet);
        next := Hold();
      }
    }

    method RunWorkerTask(packet: PacketNode?) returns (next: int)
      requires Valid() && Running(Now()) && cells[currentTcb].task.WorkerTask?
      requires (packet != null ==> store.IsLoose(packet))
      modifies this, store, store.place.Keys
      ensures old(Now()).tcbs[old(currentTcb)].task.Worker?
      ensures Yields(old(Now()), next, RunWorker(old(Now()), old(ValueOf(packet))))
      ensures store.place.Keys == old(store.place.Keys)
      ensures old(CanSend(Now(), ValueOf(packet)) && store.SettledBut(packet)) ==> store.Settled()
    {
      hide Build, Store.Valid, Store.Lists, Store.Slots, Enqueue, SuspendCurrent, SetTask, Indexed;
      At(currentTcb);
      if packet == null {
        next := Suspend();
      } else {
        var t := cells[currentTcb].task;
        var target := if t.target == ID_HANDLER_A then ID_HANDLER_B else ID_HANDLER_A;
        var v2, a2 := FillData(t.v2);
        Become(WorkerTask(target, v2));
        store.Write(packet, target, 0, a2);
        next := Queue(packet);
      }
    }

    /** The next letters of the cycle, and the last of them. */
    static method FillData(v: int) returns (v2: int, a2: seq<int>)
      ensures v2 == Letter(v, DATA_SIZE) && a2 == seq(DATA_SIZE, i requires 0 <= i < DATA_SIZE => Letter(v, i + 1))
    {
      v2, a2 := v, [];
      for i := 0 to DATA_SIZE
        invariant v2 == Letter(v, i) && |a2| == i
        invariant forall j :: 0 <= j < i ==> a2[j] == Letter(v, j + 1)
      {
        v2 := v2 + 1;
        if v2 > 26 {
          v2 := 1;
        }
        a2 := a2 + [v2];
      }
    }

    /** What a handler does once it has put its packet on a list. */
    method Handle() returns (next: int)
      requires Valid() && Running(Now()) && cells[currentTcb].task.HandlerTask?
      modifies this, store, store.place.Keys
      ensures old(Now()).tcbs[old(currentTcb)].task.Handler?
      ensures Yields(old(Now()), next, RunHandler(old(Now()), None)) && store.place.Keys == old(store.place.Keys)
      ensures old(CanSend(Now(), None) && store.Settled()) ==> store.Settled()
    {
      hide Build, Store.Valid, Store.Lists, Store.Slots, Enqueue, SuspendCurrent, Indexed, CanSend;
      var k := currentTcb;
      At(k);
      CanSendFirst(Now());
      store.HeadTells(3 * k + 1);
      store.HeadTells(3 * k + 2);
      var w := store.heads[3 * k + 1];
      if w != null {
        if w.a1 < DATA_SIZE {
          if store.heads[3 * k + 2] != null {
            next := SendDevice(w);
            return;
          }
        } else {
          next := SendWork();
          return;
        }
      }
      SetSameTask(Now());
      next := Suspend();
    }

    method SendWork() returns (next: int)
      requires Valid() && Running(Now()) && cells[currentTcb].task.HandlerTask?
      requires store.heads[3 * currentTcb + 1] != null
      modifies this, store, store.place.Keys
      ensures
        var s := old(Now());
        var t := s.tcbs[s.current].task;
        && t.Handler? && t.work != []
        && Yields(s, next, Enqueue(SetTask(s, t.(work := t.work[1..])), t.work[0]))
        && store.place.Keys == old(store.place.Keys)
        && (old(store.Settled()) && Block(s, t.work[0].id) >= 0 ==> store.Settled())
    {
      hide Build, Store.Valid, Store.Lists, Store.Slots, Enqueue, Indexed;
      var v := TakeWork();
      next := Queue(v);
    }

    method SendDevice(w: PacketNode) returns (next: int)
      requires Valid() && Running(Now()) && cells[currentTcb].task.HandlerTask?
      requires store.heads[3 * currentTcb + 1] == w && store.heads[3 * currentTcb + 2] != null
      modifies this, store, store.place.Keys
      ensures
        var s := old(Now());
        var t := s.tcbs[s.current].task;
        && t.Handler? && t.work != [] && t.device != []
        && var t' := Handler(t.work[0 := t.work[0].(a1 := t.work[0].a1 + 1)], t.device[1..]);
           && Yields(s, next, Enqueue(SetTask(s, t'), t.device[0].(a1 := Data(t.work[0]))))
           && store.place.Keys == old(store.place.Keys)
           && (old(store.Settled()) && Block(s, t.device[0].id) >= 0 ==> store.Settled())
    {
      hide Build, Store.Valid, Store.Lists, Store.Slots, Enqueue, Indexed;
      var v := TakeDevice(w);
      next := Queue(v);
    }

    static lemma CanSendFirst(s: State)
      requires Running(s) && s.tcbs[s.current].task.Handler?
      ensures
        var t := s.tcbs[s.current].task;
        CanSend(s, None) ==>
          && (t.work != [] ==> Block(s, t.work[0].id) >= 0)
          && (t.device != [] ==> Block(s, t.device[0].id) >= 0)
    {
    }

    static lemma SetSameTask(s: State)
      requires Running(s)
      ensures SetTask(s, s.tcbs[s.current].task) == s
    {
    }

    /** Accepting a packet first and then going on without one is the same. */
    static lemma AcceptThenHandle(s: State, p: Option<Packet>)
      requires Running(s) && s.tcbs[s.current].task.Handler?
      ensures
        var s' := SetTask(s, Accept(s.tcbs[s.current].task, p));
        Running(s') && RunHandler(s', None) == RunHandler(s, p) && (CanSend(s, p) ==> CanSend(s', None))
    {
      hide Enqueue, SuspendCurrent, SetTask;
      var t := Accept(s.tcbs[s.current].task, p);
      SetTaskIs(s, t);
      SetTaskTwice(s, t, t);
      if t.work != [] {
        SetTaskTwice(s, t, t.(work := t.work[1..]));
        if t.device != [] {
          SetTaskTwice(s, t, Handler(t.work[0 := t.work[0].(a1 := t.work[0].a1 + 1)], t.device[1..]));
        }
      }
    }

    static lemma SetTaskIs(s: State, t: Task)
      requires Running(s)
      ensures
        var s' := SetTask(s, t);
        Running(s') && s'.current == s.current && s'.tcbs[s.current].task == t && s'.blocks == s.blocks
    {
    }

    method RunHandlerTask(packet: PacketNode?) returns (next: int)
      requires Valid() && Running(Now()) && cells[currentTcb].task.HandlerTask?
      requires (packet != null ==> store.IsLoose(packet))
      modifies this, store, store.place.Keys
      ensures old(Now()).tcbs[old(currentTcb)].task.Handler?
      ensures Yields(old(Now()), next, RunHandler(old(Now()), old(ValueOf(packet))))
      ensures store.place.Keys == old(store.place.Keys)
      ensures old(CanSend(Now(), ValueOf(packet)) && store.SettledBut(packet)) ==> store.Settled()
    {
      hide Build, Store.Valid, Store.Lists, Store.Slots, RunHandler, CanSend, SetTask, Indexed;
      At(currentTcb);
      AcceptThenHandle(Now(), ValueOf(packet));
      if packet != null {
        AcceptPacket(packet);
      } else {
        SetSameTask(Now());
      }
      next := Handle();
    }

    /** Takes the first packet off the current work list. */
    method TakeFirst() returns (packet: PacketNode)
      requires Valid() && Running(Now()) && cells[currentTcb].state == SUSPENDED_RUNNABLE
      requires HasPacket(Now().tcbs[currentTcb])
      modifies this`cells, store
      ensures Valid() && Running(Now()) && (Now(), Some(packet.Value())) == TakePacket(old(Now()))
      ensures |cells| == old(|cells|)
      ensures packet in old(store.place) && store.place == old(store.place)[packet := Loose]
      ensures cells[currentTcb].task == old(cells[currentTcb].task)
    {
      hide Build, Store.Valid, Store.Lists, Store.Slots;
      var k := currentTcb;
      ghost var lists, slots := store.Lists(), store.Slots();
      At(k);
      store.HeadTells(3 * k);
      ghost var rest := lists[3 * k][1..];
      QueueRow(cells, lists, slots, k, if rest == [] then RUNNING else RUNNABLE, rest);
      packet := store.Pop(3 * k);
      store.HeadTells(3 * k);
      cells := cells[k := cells[k].(state := if store.heads[3 * k] == null then RUNNING else RUNNABLE)];
    }

    static lemma IdleTakesNone(s: State, p: Option<Packet>)
      ensures CanSend(s, p) && s.tcbs[s.current].task.Idle? ==> p.None?
    {
    }

    /** run() of a task control block. */
    method RunCurrent() returns (next: int)
      requires Valid() && Running(Now()) && HasPacket(Now().tcbs[currentTcb])
      modifies this, store, store.place.Keys
      ensures Yields(old(Now()), next, RunBlock(old(Now()))) && store.place.Keys == old(store.place.Keys)
      ensures old(var (s, p) := TakePacket(Now()); CanSend(s, p) && store.Settled()) ==> store.Settled()
    {
      hide Build, Store.Valid, Store.Lists, Store.Slots, RunIdle, RunDevice, RunWorker, RunHandler, CanSend, Indexed;
      At(currentTcb);
      var packet: PacketNode? := null;
      if cells[currentTcb].state == SUSPENDED_RUNNABLE {
        packet := TakeFirst();
      }
      At(currentTcb);
      IdleTakesNone(Now(), ValueOf(packet));
      match cells[currentTcb].task
      case IdleTask(_, _) => next := RunIdleTask();
      case WorkerTask(_, _) => next := RunWorkerTask(packet);
      case HandlerTask => next := RunHandlerTask(packet);
      case DeviceTask => next := RunDeviceTask(packet);
    }

    // ----- starting and scheduling -----

    method Add(id: nat, priority: int, queue: seq<Packet>, task: Scalars)
      requires Valid() && Indexed(Now()) && id < NUMBER_OF_IDS
      modifies this, store
      ensures Valid() && Now() == AddTask(old(Now()), id, priority, queue, TaskOf(task, [], [], None)) && Running(Now())
      ensures old(store.Settled()) ==> store.Settled()
      ensures fresh(store.place.Keys - old(store.place.Keys))
    {
      hide Build, Store.Valid, Store.Lists, Store.Slots;
      var k := |cells|;
      ghost var lists, slots, before := store.Lists(), store.Slots(), cells;
      var state := if queue == [] then SUSPENDED else SUSPENDED_RUNNABLE;
      BuildMore(cells, lists, slots, Cell(id, priority, state, task), queue);
      cells := cells + [Cell(id, priority, state, task)];
      currentTcb, blocks := k, blocks[id := k];
      store.AddRow();
      FillQueue(3 * k, queue, lists);
    }

    /** Makes the packets of a list, the last first. */
    method FillQueue(i: nat, queue: seq<Packet>, ghost lists: seq<seq<Packet>>)
      requires store.Valid() && |lists| == i && store.Lists() == lists + [[], [], []]
      modifies store
      ensures store.Valid() && |store.heads| == i + 3 && store.slots == old(store.slots)
      ensures store.Slots() == old(store.Slots())
      ensures store.Lists() == lists + [queue, [], []]
      ensures old(store.Settled()) ==> store.Settled()
      ensures fresh(store.place.Keys - old(store.place.Keys))
    {
      hide Store.Valid, Store.Lists, Store.Slots;
      var j := |queue|;
      assert queue[j..] == [];
      while j > 0
        invariant 0 <= j <= |queue| && store.Valid() && |store.heads| == i + 3
        invariant store.slots == old(store.slots) && store.Slots() == old(store.Slots())
        invariant store.Lists() == lists + [queue[j..], [], []]
        invariant old(store.Settled()) ==> store.Settled()
        invariant fresh(store.place.Keys - old(store.place.Keys))
      {
        j := j - 1;
        var n := store.Push(i, queue[j]);
        assert [queue[j]] + queue[j + 1..] == queue[j..];
        assert (lists + [queue[j + 1..], [], []])[i := queue[j..]] == lists + [queue[j..], [], []];
      }
      assert queue[0..] == queue;
    }

    method AddRunning(id: nat, priority: int, queue: seq<Packet>, task: Scalars)
      requires Valid() && Indexed(Now()) && id < NUMBER_OF_IDS
      modifies this, store
      ensures Valid() && Now() == SetRunning(AddTask(old(Now()), id, priority, queue, TaskOf(task, [], [], None)))
      ensures Running(Now())
      ensures old(store.Settled()) ==> store.Settled()
      ensures fresh(store.place.Keys - old(store.place.Keys))
    {
      hide Build, Store.Valid, Store.Lists, Store.Slots;
      Add(id, priority, queue, task);
      SetFlags(currentTcb, RUNNING);
    }

    /**
     schedule(), stopped after a number of rounds if it has not ended by then: the object goes
     through exactly the states of the run, and when it ends nothing is left to run. Every packet
     is in exactly one list or slot after every round.
     */
    method Schedule(limit: nat) returns (rounds: nat)
      requires Valid() && Inv(RichardsScheduler.Start(Now())) && store.Settled()
      modifies this, store, store.place.Keys
      ensures Valid() && rounds <= limit && Now() == Rounds(RichardsScheduler.Start(old(Now())), rounds)
      ensures rounds < limit ==> currentTcb == -1
      ensures currentTcb == -1 ==> forall k :: 0 <= k < |Now().tcbs| ==> Now().tcbs[k].IsHeldOrSuspended()
      ensures store.Settled() && store.place.Keys == old(store.place.Keys)
    {
      hide Valid, Now, Inv, Step;
      ghost var s := RichardsScheduler.Start(Now());
      Restart();
      rounds := 0;
      while currentTcb != -1 && rounds < limit
        invariant Valid() && rounds <= limit && Now() == Rounds(s, rounds) && Now().current == currentTcb
        invariant store.Settled() && store.place.Keys == old(store.place.Keys)
        decreases limit - rounds
      {
        StepIsSafe(Now());
        Round();
        rounds := rounds + 1;
      }
      StrictPriorityOverRuns(s, rounds);
    }

    method Restart()
      requires Valid()
      modifies this`currentTcb
      ensures Valid() && Now() == RichardsScheduler.Start(old(Now())) && Now().current == currentTcb
    {
      currentTcb := |cells| - 1;
    }

    /** One round of schedule(). */
    method Round()
      requires Valid() && Inv(Now()) && currentTcb >= 0 && store.Settled()
      modifies this, store, store.place.Keys
      ensures Valid() && StepIs(old(Now()), Now()) && Now().current == currentTcb
      ensures store.Settled() && store.place.Keys == old(store.place.Keys)
    {
      hide Build, Store.Valid, Store.Lists, Store.Slots, Inv, RunBlock, TakePacket, CanSend;
      InvIsSafe(Now());
      At(currentTcb);
      if cells[currentTcb].state.held || cells[currentTcb].state == SUSPENDED {
        currentTcb := currentTcb - 1;
      } else {
        GoodCanSend(Now());
        currentId := cells[currentTcb].id;
        currentTcb := RunCurrent();
      }
    }

    static ghost predicate StepIs(s: State, s': State)
      requires Inv(s)
    {
      StepIsSafe(s);
      s' == Step(s)
    }
  }

  /** In a good state the current task can send what it may send. */
  lemma GoodCanSend(s: State)
    requires Inv(s) && Running(s) && !s.tcbs[s.current].IsHeldOrSuspended()
    ensures
      var s0 := s.(currentId := s.tcbs[s.current].id);
      HasPacket(s0.tcbs[s0.current]) && var (s1, p) := TakePacket(s0); CanSend(s1, p)
  {
    hide Inv, TakePacket, CanSend, Called;
    var s0 := s.(currentId := s.tcbs[s.current].id);
    SetCurrentId(s, s0.currentId, (0, WorkKind));
    KeptInv(s, s0, (0, WorkKind), 0);
    TakeKeeps(s0, (0, WorkKind));
    var (s1, p) := TakePacket(s0);
    CalledCanSend(s1, p);
  }

  lemma CalledCanSend(s: State, p: Option<Packet>)
    requires Called(s, p)
    ensures CanSend(s, p)
  {
    CalledFacts(s, p);
  }

  /** One more block with a work list. */
  lemma BuildMore(cells: seq<Cell>, lists: seq<seq<Packet>>, slots: seq<Option<Packet>>, c: Cell, queue: seq<Packet>)
    requires Shaped(cells, lists, slots)
    ensures
      Build(cells + [c], lists + [queue, [], []], slots + [None])
      == Build(cells, lists, slots) + [Tcb(c.id, c.priority, queue, c.state, TaskOf(c.task, [], [], None))]
  {
  }

  // ----- the program -----

  method Richards(count: int) returns (s: Scheduler)
    ensures fresh(s) && fresh(s.store) && fresh(s.store.place.Keys) && s.Valid() && s.store.Settled()
    ensures s.Now().tcbs == RichardsBlocks(count) && s.Now().blocks == [0, 1, 2, 3, 4, 5] && Inv(Start(s.Now()))
    ensures s.Now().queueCount == s.Now().holdCount == 0
  {
    hide Inv, Packets, AddTask, SetRunning, Scheduler.Valid, Scheduler.Now, Store.Settled;
    RichardsBuilt(count);
    s := new Scheduler();
    s.AddRunning(ID_IDLE, 0, [], IdleTask(1, count));
    s.Add(ID_WORKER, 1000, Packets(0, 2, ID_WORKER, WorkKind), WorkerTask(ID_HANDLER_A, 0));
    s.Add(ID_HANDLER_A, 2000, Packets(2, 3, ID_DEVICE_A, DeviceKind), HandlerTask);
    s.Add(ID_HANDLER_B, 3000, Packets(5, 3, ID_DEVICE_B, DeviceKind), HandlerTask);
    s.Add(ID_DEVICE_A, 4000, [], DeviceTask);
    s.Add(ID_DEVICE_B, 5000, [], DeviceTask);
    RichardsIsGood(s.Now(), count);
  }

  /**
   runRichards: with a positive count everything comes to rest, every packet is in one place, and the counts are those
   of the tally; with the program's own count they are the ones it expects.
   */
  method RunRichards(count: int) returns (s: Scheduler, correct: bool)
    requires count >= 1
    ensures fresh(s) && s.Valid() && s.store.Settled() && s.currentTcb == -1
    ensures forall k :: 0 <= k < |s.Now().tcbs| ==> s.Now().tcbs[k].IsHeldOrSuspended()
    ensures forall g :: Everywhere(s.Now().tcbs, g) == if Made(g) then 1 else 0
    ensures (s.queueCount, s.holdCount) == Tally(count)
    ensures correct == (Tally(count) == (EXPECTED_QUEUE_COUNT, EXPECTED_HOLD_COUNT)) && (count == COUNT ==> correct)
  {
    hide Inv, Build, Store.Valid, Store.Lists, Store.Slots, Rounds, RichardsBlocks, Everywhere, Tally;
    s := Richards(count);
    ghost var s0 := s.Now();
    RichardsEnds(s0, count, RoundLimit(count));
    var rounds := s.Schedule(RoundLimit(count));
    forall g ensures Everywhere(s.Now().tcbs, g) == if Made(g) then 1 else 0 {
      RichardsPacketsOnce(s0, count, rounds, g);
    }
    RichardsCounted(s0, count, rounds);
    Thousand();
    correct := s.queueCount == EXPECTED_QUEUE_COUNT && s.holdCount == EXPECTED_HOLD_COUNT;
  }
}
