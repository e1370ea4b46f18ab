/**
 The counts that schedule() ends with in runRichards (demo/v8_benchmark.js, 337-375), for every count of the idle
 task: they are those of as many ticks as the idle task releases a device, each by the last bit of its shift register.
 */
module RichardsTally {
  import opened Options
  import opened RichardsCounts
  import opened RichardsLetters
  import opened RichardsProgram
  import opened RichardsRests
  import opened RichardsScheduler
  import opened SchedulerControl
  import opened SchedulerEnds
  import opened SchedulerHistory

  /** The idle task's register after one run. */
  function Shifted(v1: bv32): bv32 { if v1 & 1 == 0 then HalfSigned(v1) else HalfSigned(v1) ^ 0xD008 }

  /** The handler whose device the idle task releases. */
  function Chosen(v1: bv32): nat { if v1 & 1 == 0 then ID_HANDLER_A else ID_HANDLER_B }

  function Ticks(y: Rest, v1: bv32, n: nat): Rest
    decreases n
  {
    if n == 0 then y else Ticks(Tick(y, Chosen(v1)), Shifted(v1), n - 1)
  }

  /** The counts in the end: the idle task is held too. */
  function Tally(count: nat): (nat, nat)
    requires count >= 1
  {
    var y := Ticks(FIRST, 1, count - 1);
    (y.queued, y.holds + 1)
  }

  // ----- the scheduler follows the machine -----

  lemma {:induction false} RoundsOn(s: State, m: nat, n: nat)
    requires Inv(s)
    ensures Rounds(Rounds(s, m), n) == Rounds(s, m + n)
  {
    hide Inv, Step;
    if n > 0 {
      RoundsOn(s, m, n - 1);
    }
  }

  ghost predicate SameIdle(u: State, v: State) {
    && |u.tcbs| == |v.tcbs| == NUMBER_OF_IDS && v.tcbs[0].task == u.tcbs[0].task
    && v.tcbs[0].state.suspended == u.tcbs[0].state.suspended && v.tcbs[0].state.held == u.tcbs[0].state.held
  }

  lemma IdleSpared(u: State)
    requires Inv(u) && AtHome(u) && 1 <= u.current
    ensures Indexed(u) && u.current < |u.tcbs| && HasPacket(u.tcbs[u.current]) && SameIdle(u, Step(u))
  {
    hide Inv, RunBlock, Ran, Action, Reaction, TaskHome, AllHome;
    InvIsSafe(u);
    if Runs(u, u.current) {
      RoundRan(u);
      var a := Action(u.tcbs[u.current].task, Taken(u));
      ActionHolds(u.tcbs[u.current].task, Taken(u));
      if u.tcbs[u.current].task.Idle? {
        IdleIsFirst(u.current, u.tcbs[u.current].task);
      }
      Spared(u, Step(u), Taken(u), a, ID_IDLE);
    }
  }

  /** A state of the scheduler in its invariants that shows z. */
  ghost predicate Follows(u: State, z: Small) { Inv(u) && AtHome(u) && Shows(u, z) }

  lemma {:induction false} LeadsState(u: State, z: Small, n: nat, z': Small)
    requires Follows(u, z) && Leads(z, n, z')
    ensures Follows(Rounds(u, n), z') && SameIdle(u, Rounds(u, n))
    decreases n
  {
    hide Inv, Step, SmallStep, Shows, AtHome, Rounds;
    FollowsSize(u, z);
    if n == 0 {
      NoRound(u);
    } else {
      StepShows(u, z);
      IdleSpared(u);
      RoundStaysHome(u);
      OneRound(u);
      LeadsState(Rounds(u, 1), SmallStep(z), n - 1, z');
      FirstRound(u, n - 1);
    }
  }

  lemma FollowsSize(u: State, z: Small)
    requires Follows(u, z)
    ensures |u.tcbs| == NUMBER_OF_IDS && u.current == z.current
  {
    hide Inv, AtHome;
  }

  lemma NoRound(u: State)
    requires Inv(u)
    ensures Rounds(u, 0) == u
  {
    hide Inv;
  }

  /** Only the idle task can run, with so many runs to go. */
  ghost predicate AtRest(u: State, y: Rest, v1: bv32, count: int) {
    && y.Valid() && Follows(u, Resting(y)) && |u.tcbs| == NUMBER_OF_IDS && u.tcbs[0].task == Idle(v1, count)
    && !u.tcbs[0].state.suspended && !u.tcbs[0].state.held
  }

  /** A run of the idle task that is not its last: it only releases device d. */
  ghost predicate Lets(u: State, v: State, d: nat) {
    && |u.tcbs| == |v.tcbs| == NUMBER_OF_IDS && v.current == d
    && v.queueCount == u.queueCount && v.holdCount == u.holdCount
    && forall k :: 1 <= k < NUMBER_OF_IDS ==>
         && v.tcbs[k].task == u.tcbs[k].task && v.tcbs[k].queue == u.tcbs[k].queue
         && v.tcbs[k].state.suspended == u.tcbs[k].state.suspended
         && v.tcbs[k].state.held == (u.tcbs[k].state.held && k != d)
  }

  lemma IdleLets(u: State, v1: bv32, count: int)
    requires Inv(u) && AtHome(u) && Runs(u, ID_IDLE) && u.tcbs[0].task == Idle(v1, count) && count != 1
    ensures Indexed(u) && HasPacket(u.tcbs[0])
    ensures Lets(u, Step(u), Chosen(v1) + 2)
    ensures
      var b := Step(u).tcbs[0];
      b.task == Idle(Shifted(v1), count - 1) && !b.state.suspended && !b.state.held
  {
    hide Inv, Step, HalfSigned;
    RoundRan(u);
    RoundControls(u);
    IdleTakesNothing(u);
  }

  lemma IdleTakesNothing(u: State)
    requires Inv(u) && Runs(u, ID_IDLE) && u.tcbs[0].task.Idle?
    ensures Taken(u).None?
    ensures forall k :: 0 <= k < |u.tcbs| ==> Remaining(u, k) == u.tcbs[k].queue
    ensures forall k :: 0 <= k < |u.tcbs| ==> u.tcbs[k].queue + [] == u.tcbs[k].queue
  {
    assert BlockOk(u, u.tcbs[0]);
  }

  lemma LetsShows(u: State, v: State, z: Small, k: nat)
    requires IsHandler(k) && Lets(u, v, k + 2) && Shows(u, z)
    ensures Shows(v, Released(z, k))
  {
    hide Kinds;
  }

  lemma IdleReleases(u: State, y: Rest, v1: bv32, count: int)
    requires AtRest(u, y, v1, count) && count != 1
    ensures
      var v := Rounds(u, 1);
      && Follows(v, Released(Resting(y), Chosen(v1)))
      && |v.tcbs| == NUMBER_OF_IDS && v.tcbs[0].task == Idle(Shifted(v1), count - 1)
      && !v.tcbs[0].state.suspended && !v.tcbs[0].state.held
  {
    hide Inv, Step, AtHome, Rounds, Lets, Shows, Resting;
    RestRuns(u, y, v1, count);
    IdleLets(u, v1, count);
    OneRound(u);
    RoundStaysHome(u);
    LetsShows(u, Step(u), Resting(y), Chosen(v1));
  }

  lemma RestRuns(u: State, y: Rest, v1: bv32, count: int)
    requires AtRest(u, y, v1, count)
    ensures Runs(u, ID_IDLE)
  {
    hide AtHome;
    FlagsTell(u, ID_IDLE);
  }

  lemma NextRest(u: State, y: Rest, v1: bv32, count: int) returns (n: nat)
    requires AtRest(u, y, v1, count) && count != 1
    ensures AtRest(Rounds(u, n), Tick(y, Chosen(v1)), Shifted(v1), count - 1)
  {
    hide Inv, Follows, Rounds, Resting, Tick, Released, Shifted;
    IdleReleases(u, y, v1, count);
    RestGood(u, y, v1, count);
    TickHappens(y, Chosen(v1));
    var z, z' := Released(Resting(y), Chosen(v1)), Resting(Tick(y, Chosen(v1)));
    var m: nat :| Leads(z, m, z');
    FollowsGood(Rounds(u, 1), z);
    LeadsState(Rounds(u, 1), z, m, z');
    FirstRound(u, m);
    n := m + 1;
  }

  lemma RestGood(u: State, y: Rest, v1: bv32, count: int)
    requires AtRest(u, y, v1, count)
    ensures Inv(u)
  {
    hide Inv;
  }

  lemma FollowsGood(u: State, z: Small)
    requires Follows(u, z)
    ensures Inv(u)
  {
    hide Inv;
  }

  /** The last run of the idle task. */
  lemma LastRest(u: State, y: Rest, v1: bv32)
    requires AtRest(u, y, v1, 1)
    ensures Inv(u)
    ensures var v := Rounds(u, 1); v.current == -1 && v.queueCount == y.queued && v.holdCount == y.holds + 1
  {
    hide Inv, Step, Rounds, Shows, TaskHome, AllHome;
    RestRuns(u, y, v1, 1);
    OneRound(u);
    RoundRan(u);
    IdleTakesNothing(u);
    RestCounts(u, y, v1, 1);
  }

  lemma RestCounts(u: State, y: Rest, v1: bv32, count: int)
    requires AtRest(u, y, v1, count)
    ensures u.current == ID_IDLE && u.queueCount == y.queued && u.holdCount == y.holds
  {
    hide Inv, AtHome;
  }

  lemma {:induction false} RunsOut(u: State, y: Rest, v1: bv32, count: nat) returns (n: nat)
    requires AtRest(u, y, v1, count) && count >= 1
    ensures Inv(u)
    ensures
      var v, y' := Rounds(u, n), Ticks(y, v1, count - 1);
      v.current == -1 && v.queueCount == y'.queued && v.holdCount == y'.holds + 1
    decreases count
  {
    hide Inv, AtRest, Rounds, Tick, Shifted, Chosen;
    RestGood(u, y, v1, count);
    if count == 1 {
      LastRest(u, y, v1);
      n := 1;
    } else {
      var m := NextRest(u, y, v1, count);
      var r := RunsOut(Rounds(u, m), Tick(y, Chosen(v1)), Shifted(v1), count - 1);
      RoundsOn(u, m, r);
      n := m + r;
    }
  }

  lemma StartShows(s: State, count: int)
    requires s.tcbs == RichardsBlocks(count) && s.blocks == [0, 1, 2, 3, 4, 5] && s.queueCount == s.holdCount == 0
    ensures Shows(Start(s), AtStart())
  {
    assert Kinds(Packets(2, 3, ID_DEVICE_A, DeviceKind)) == Waiting(3) == Kinds(Packets(5, 3, ID_DEVICE_B, DeviceKind));
  }

  lemma FirstRests(s: State, count: int) returns (n: nat)
    requires s.tcbs == RichardsBlocks(count) && s.blocks == [0, 1, 2, 3, 4, 5] && s.queueCount == s.holdCount == 0
    ensures Inv(Start(s)) && AtRest(Rounds(Start(s), n), FIRST, 1, count)
  {
    hide Inv, AtHome, Shows, Rounds, AtStart, Resting, Packets;
    RichardsIsGood(s, count);
    RichardsAtHome(s, count);
    StartShows(s, count);
    FirstRest();
    n :| Leads(AtStart(), n, Resting(FIRST));
    LeadsState(Start(s), AtStart(), n, Resting(FIRST));
  }

  lemma EndsAlike(s: State, m: nat, n: nat)
    requires Inv(s) && Rounds(s, m).current == -1 && Rounds(s, n).current == -1
    ensures Rounds(s, m) == Rounds(s, n)
  {
    hide Inv, Rounds;
    if m <= n {
      RoundsOn(s, m, n - m);
      StaysEnded(Rounds(s, m), n - m);
    } else {
      RoundsOn(s, n, m - n);
      StaysEnded(Rounds(s, n), m - n);
    }
  }

  /** Whenever schedule() has ended, the two counts are those of the tally. */
  lemma RichardsCounted(s: State, count: nat, n: nat)
    requires s.tcbs == RichardsBlocks(count) && s.blocks == [0, 1, 2, 3, 4, 5] && s.queueCount == s.holdCount == 0
    requires count >= 1
    ensures Inv(Start(s))
    ensures
      var v := Rounds(Start(s), n);
      v.current == -1 ==> (v.queueCount, v.holdCount) == Tally(count)
  {
    hide Inv, Rounds, AtRest, Ticks, RichardsBlocks;
    var m := FirstRests(s, count);
    var u := Rounds(Start(s), m);
    var r := RunsOut(u, FIRST, 1, count);
    RoundsOn(Start(s), m, r);
    if Rounds(Start(s), n).current == -1 {
      EndsAlike(Start(s), m + r, n);
    }
  }
}
