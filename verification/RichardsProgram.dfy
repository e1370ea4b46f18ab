/**
 The configuration that runRichards builds (demo/v8_benchmark.js, 337-359): it starts in the invariant of the
 scheduler, its eight packets are never lost or copied, and its schedule() ends.
 */
module RichardsProgram {
  import opened Options
  import opened RichardsScheduler
  import opened SchedulerEnds

  const ID_IDLE: nat := 0
  const ID_WORKER: nat := 1

  function NewPacket(serial: nat, id: nat, kind: Kind): Packet { Packet(serial, id, kind, 0, [0, 0, 0, 0]) }

  function Packets(first: nat, n: nat, id: nat, kind: Kind): (ps: seq<Packet>)
    ensures |ps| == n
  {
    seq(n, i requires 0 <= i < n => NewPacket(first + n - 1 - i, id, kind))
  }

  /** The blocks runRichards makes, in the order it adds them. */
  function RichardsBlocks(count: int): seq<Tcb> {
    [ Tcb(ID_IDLE, 0, [], RUNNING, Idle(1, count)),
      Tcb(ID_WORKER, 1000, Packets(0, 2, ID_WORKER, WorkKind), SUSPENDED_RUNNABLE, Worker(ID_HANDLER_A, 0)),
      Tcb(ID_HANDLER_A, 2000, Packets(2, 3, ID_DEVICE_A, DeviceKind), SUSPENDED_RUNNABLE, Handler([], [])),
      Tcb(ID_HANDLER_B, 3000, Packets(5, 3, ID_DEVICE_B, DeviceKind), SUSPENDED_RUNNABLE, Handler([], [])),
      Tcb(ID_DEVICE_A, 4000, [], SUSPENDED, Device(None)),
      Tcb(ID_DEVICE_B, 5000, [], SUSPENDED, Device(None)) ]
  }

  lemma RichardsIsConfigured(s: State, count: int)
    requires s.tcbs == RichardsBlocks(count) && s.blocks == [0, 1, 2, 3, 4, 5]
    ensures Configured(s)
  {
    hide Packets;
  }

  lemma RichardsIsFresh(s: State, count: int)
    requires s.tcbs == RichardsBlocks(count) && s.blocks == [0, 1, 2, 3, 4, 5]
    ensures forall k :: 0 <= k < |s.tcbs| ==> Fresh(s.tcbs[k]) && AllRoutable(s, s.tcbs[k].queue)
  {
    assert Routable(s, ID_WORKER) && Routable(s, ID_DEVICE_A) && Routable(s, ID_DEVICE_B) by { hide Packets; }
    hide Routable;
  }

  /** That configuration starts in a good state, for any count. */
  lemma RichardsIsGood(s: State, count: int)
    requires s.tcbs == RichardsBlocks(count) && s.blocks == [0, 1, 2, 3, 4, 5]
    ensures Inv(Start(s))
  {
    hide Configured, AllRoutable, Fresh, Inv, Everywhere, RichardsBlocks;
    RichardsIsConfigured(s, count);
    RichardsIsFresh(s, count);
    StartIsGood(s);
  }

  /** The tags of the packets that runRichards makes. */
  predicate Made(g: Tag) { (g.1 == WorkKind && g.0 < 2) || (g.1 == DeviceKind && 2 <= g.0 < 8) }

  lemma {:induction false} InPackets(first: nat, n: nat, id: nat, kind: Kind, g: Tag)
    ensures InList(Packets(first, n, id, kind), g) == if g.1 == kind && first <= g.0 < first + n then 1 else 0
  {
    if n == 0 {
      assert Packets(first, n, id, kind) == [];
    } else {
      InPackets(first, n - 1, id, kind, g);
      var ps := Packets(first, n, id, kind);
      assert ps[1..] == Packets(first, n - 1, id, kind);
      assert ps[0] == NewPacket(first + n - 1, id, kind) && InList(ps, g) == One(ps[0], g) + InList(ps[1..], g);
    }
  }

  lemma RichardsPackets(count: int, g: Tag)
    ensures Everywhere(RichardsBlocks(count), g) == if Made(g) then 1 else 0
  {
    hide InList, Packets;
    var ts := RichardsBlocks(count);
    InPackets(0, 2, ID_WORKER, WorkKind, g);
    InPackets(2, 3, ID_DEVICE_A, DeviceKind, g);
    InPackets(5, 3, ID_DEVICE_B, DeviceKind, g);
    InNothing(g);
    OneMoreBlock(ts, 0, g);
    OneMoreBlock(ts, 1, g);
    OneMoreBlock(ts, 2, g);
    OneMoreBlock(ts, 3, g);
    OneMoreBlock(ts, 4, g);
    OneMoreBlock(ts, 5, g);
    assert ts[..6] == ts && ts[..0] == [];
  }

  lemma OneMoreBlock(ts: seq<Tcb>, k: nat, g: Tag)
    requires k < |ts|
    ensures Everywhere(ts[..k + 1], g) == Everywhere(ts[..k], g) + Holdings(ts[k], g)
  {
    assert ts[..k + 1][..k] == ts[..k];
  }

  lemma InNothing(g: Tag)
    ensures InList([], g) == 0
  {
  }

  /** After every number of rounds each of these packets occurs exactly once, and no other occurs. */
  lemma RichardsPacketsOnce(s: State, count: int, n: nat, g: Tag)
    requires s.tcbs == RichardsBlocks(count) && s.blocks == [0, 1, 2, 3, 4, 5]
    ensures Inv(Start(s)) && Everywhere(Rounds(Start(s), n).tcbs, g) == if Made(g) then 1 else 0
  {
    hide Inv, Everywhere, RichardsBlocks, Rounds;
    RichardsIsGood(s, count);
    PacketsConserved(Start(s), n, g);
    RichardsPackets(count, g);
  }

  /** At the start packets are where they should be, as long as the idle task has rounds left. */
  lemma RichardsRoles(s: State, count: int)
    requires s.tcbs == RichardsBlocks(count) && s.blocks == [0, 1, 2, 3, 4, 5]
    ensures Named(s) && (count >= 1 ==> Roles(s))
  {
    hide RichardsBlocks, Packets, Fits;
    RichardsNamed(s, count);
    if count >= 1 {
      forall k | 0 <= k < |s.tcbs| ensures BlockFits(s, s.tcbs[k]) { RichardsFits(s, count, k); }
    }
  }

  lemma RichardsNamed(s: State, count: int)
    requires s.tcbs == RichardsBlocks(count) && s.blocks == [0, 1, 2, 3, 4, 5]
    ensures |s.tcbs| == 6 && Named(s)
    ensures RoleAt(s, ID_WORKER) == WorkerRole
  {
    hide Packets;
  }

  lemma RichardsFits(s: State, count: int, k: nat)
    requires s.tcbs == RichardsBlocks(count) && s.blocks == [0, 1, 2, 3, 4, 5] && count >= 1 && k < 6
    ensures BlockFits(s, s.tcbs[k])
  {
    hide RoleAt;
    RichardsNamed(s, count);
  }

  lemma {:induction false} PacketsWeigh(r: Role, first: nat, n: nat, id: nat, kind: Kind)
    ensures ListWeight(r, Packets(first, n, id, kind)) == n * Weight(r, NewPacket(0, id, kind))
  {
    if n == 0 {
      assert Packets(first, n, id, kind) == [];
    } else {
      PacketsWeigh(r, first, n - 1, id, kind);
      var ps := Packets(first, n, id, kind);
      assert ps[1..] == Packets(first, n - 1, id, kind);
      assert ps[0] == NewPacket(first + n - 1, id, kind)
             && ListWeight(r, ps) == Weight(r, ps[0]) + ListWeight(r, ps[1..]);
    }
  }

  lemma RichardsPotential(count: int)
    ensures Potential(RichardsBlocks(count)) == 54 + 10 * count
  {
    hide ListWeight, Packets;
    var ts := RichardsBlocks(count);
    PacketsWeigh(WorkerRole, 0, 2, ID_WORKER, WorkKind);
    PacketsWeigh(HandlerRole, 2, 3, ID_DEVICE_A, DeviceKind);
    PacketsWeigh(HandlerRole, 5, 3, ID_DEVICE_B, DeviceKind);
    NothingWeighs();
    OneMoreWeight(ts, 0);
    OneMoreWeight(ts, 1);
    OneMoreWeight(ts, 2);
    OneMoreWeight(ts, 3);
    OneMoreWeight(ts, 4);
    OneMoreWeight(ts, 5);
    assert ts[..6] == ts && ts[..0] == [];
  }

  lemma NothingWeighs()
    ensures forall r :: ListWeight(r, []) == 0
  {
  }

  lemma OneMoreWeight(ts: seq<Tcb>, k: nat)
    requires k < |ts|
    ensures Potential(ts[..k + 1]) == Potential(ts[..k]) + BlockWeight(ts[k])
  {
    assert ts[..k + 1][..k] == ts[..k];
  }

  function RoundLimit(count: int): int { 7 * (54 + 10 * count) + 6 }

  /** The program's schedule() ends, within this many rounds, exactly when its idle count is positive. */
  lemma RichardsEnds(s: State, count: int, n: nat)
    requires s.tcbs == RichardsBlocks(count) && s.blocks == [0, 1, 2, 3, 4, 5] && n >= RoundLimit(count)
    ensures Inv(Start(s)) && (Rounds(Start(s), n).current == -1 <==> count >= 1)
  {
    hide Inv, Roles, Rounds, Potential, RoleAt;
    RichardsIsGood(s, count);
    SameIdRoles(s, Start(s));
    RichardsRoles(Start(s), count);
    if count >= 1 {
      RichardsPotential(count);
      ScheduleEnds(Start(s), n);
    } else {
      SpinsForever(Start(s), 0, n);
    }
  }

  lemma RichardsBuilt(count: int)
    ensures
      var s1 := SetRunning(AddTask(NoTasks(), ID_IDLE, 0, [], Idle(1, count)));
      var s2 := AddTask(s1, ID_WORKER, 1000, Packets(0, 2, ID_WORKER, WorkKind), Worker(ID_HANDLER_A, 0));
      var s3 := AddTask(s2, ID_HANDLER_A, 2000, Packets(2, 3, ID_DEVICE_A, DeviceKind), Handler([], []));
      var s4 := AddTask(s3, ID_HANDLER_B, 3000, Packets(5, 3, ID_DEVICE_B, DeviceKind), Handler([], []));
      var s5 := AddTask(s4, ID_DEVICE_A, 4000, [], Device(None));
      var s6 := AddTask(s5, ID_DEVICE_B, 5000, [], Device(None));
      s6.tcbs == RichardsBlocks(count) && s6.blocks == [0, 1, 2, 3, 4, 5] && s6.queueCount == s6.holdCount == 0
  {
    hide Packets;
  }
}
