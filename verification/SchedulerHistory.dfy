/**
 What the tasks of the Richards scheduler send one another over whole runs (demo/v8_benchmark.js, 389-825),
 read off the states of a run: what a block takes is the head of its work list when it runs, and what it sends
 is what some work list has gained.
 */
module SchedulerHistory {
  import opened Options
  import opened RichardsScheduler

  // ----- what can be seen of a round -----

  /** The packet that the round from u takes. */
  function Taken(u: State): Option<Packet> {
    if Runs(u, u.current) && u.tcbs[u.current].state == SUSPENDED_RUNNABLE && u.tcbs[u.current].queue != []
    then Some(u.tcbs[u.current].queue[0])
    else None
  }

  /** The work list of block k without what is taken. */
  function Remaining(u: State, k: nat): seq<Packet>
    requires k < |u.tcbs|
  {
    if k == u.current && Taken(u).Some? then u.tcbs[k].queue[1..] else u.tcbs[k].queue
  }

  /** A packet sent: by which block, to which block. */
  datatype Send = Send(from: int, to: nat, packet: Packet)

  /** What the work lists of the first n blocks gain from u to v. */
  function Gains(u: State, v: State, n: nat): seq<Send>
    requires n <= |u.tcbs| && n <= |v.tcbs|
  {
    if n == 0 then [] else Gains(u, v, n - 1) + Each(u.current, n - 1, Growth(Remaining(u, n - 1), v.tcbs[n - 1].queue))
  }

  /** What a list has beyond the length of an earlier one. */
  function Growth(before: seq<Packet>, after: seq<Packet>): seq<Packet> {
    if |after| < |before| then [] else after[|before|..]
  }

  function Each(from: int, to: nat, ps: seq<Packet>): seq<Send> {
    seq(|ps|, i requires 0 <= i < |ps| => Send(from, to, ps[i]))
  }

  function Sent(u: State, v: State): seq<Send>
    requires |v.tcbs| == |u.tcbs|
  {
    Gains(u, v, |u.tcbs|)
  }

  /** The running block is held afterwards. */
  predicate Held(u: State, v: State)
    requires |v.tcbs| == |u.tcbs|
  {
    Runs(u, u.current) && v.tcbs[u.current].state.held
  }

  /** No work list loses anything but what is taken, and at most one of them gains, at its end. */
  ghost predicate Delivers(u: State, v: State, sends: seq<Send>) {
    && |v.tcbs| == |u.tcbs| && |sends| <= 1
    && (sends != [] ==> sends[0].from == u.current && sends[0].to < |u.tcbs|)
    && forall k :: 0 <= k < |u.tcbs| ==>
         v.tcbs[k].queue == Remaining(u, k) + (if sends != [] && sends[0].to == k then [sends[0].packet] else [])
  }

  lemma {:induction false} DeliversGains(u: State, v: State, sends: seq<Send>, n: nat)
    requires Delivers(u, v, sends) && n <= |u.tcbs|
    ensures Gains(u, v, n) == if sends != [] && sends[0].to < n then sends else []
  {
    hide Remaining, Each, Growth, Delivers;
    if n > 0 {
      DeliversGains(u, v, sends, n - 1);
      DeliversOne(u, v, sends, n - 1);
    }
  }

  lemma DeliversOne(u: State, v: State, sends: seq<Send>, k: nat)
    requires Delivers(u, v, sends) && k < |u.tcbs|
    ensures
      Each(u.current, k, Growth(Remaining(u, k), v.tcbs[k].queue))
      == if sends != [] && sends[0].to == k then sends else []
  {
    hide Remaining;
    var more := if sends != [] && sends[0].to == k then [sends[0].packet] else [];
    assert (Remaining(u, k) + more)[|Remaining(u, k)|..] == more;
    assert sends != [] ==> sends == [sends[0]];
  }

  // ----- what a task does with a packet -----

  function Other(target: nat): nat { if target == ID_HANDLER_A then ID_HANDLER_B else ID_HANDLER_A }

  /** The letters of the worker's next packet. */
  function NextData(v2: int): seq<int> { seq(DATA_SIZE, i requires 0 <= i < DATA_SIZE => Letter(v2, i + 1)) }

  /** What a task becomes, and the packet it sends, with its address. */
  function Reaction(t: Task, p: Option<Packet>): (Task, Option<Packet>) {
    match t
    case Idle(v1, count) =>
      var half := HalfSigned(v1);
      (Idle(if count == 1 then v1 else if v1 & 1 == 0 then half else half ^ 0xD008, count - 1), None)
    case Worker(target, v2) =>
      if p.None? then (t, None)
      else (Worker(Other(target), Letter(v2, DATA_SIZE)),
            Some(p.value.(id := Other(target), a1 := 0, a2 := NextData(v2))))
    case Handler(_, _) =>
      var h := Accept(t, p);
      if h.work == [] || (h.work[0].a1 < DATA_SIZE && h.device == []) then (h, None)
      else if h.work[0].a1 >= DATA_SIZE then (h.(work := h.work[1..]), Some(h.work[0]))
      else
        var w := h.work[0];
        (h.(work := h.work[0 := w.(a1 := w.a1 + 1)], device := h.device[1..]), Some(h.device[0].(a1 := Data(w))))
    case Device(slot) => if p.Some? then (Device(p), None) else (Device(None), slot)
  }

  /** A round in which block c, after taking p, has become t and sent q. */
  ghost predicate Reacts(u: State, v: State, t: Task, q: Option<Packet>) {
    var c := u.current;
    && 0 <= c < |u.tcbs| == |v.tcbs|
    && v.tcbs[c].task == t && (forall k :: 0 <= k < |u.tcbs| && k != c ==> v.tcbs[k].task == u.tcbs[k].task)
    && (q.Some? ==> 0 <= Block(u, q.value.id) < |u.tcbs|)
    && Delivers(u, v, if q.None? then [] else [Send(c, Block(u, q.value.id), q.value.(id := u.tcbs[c].id))])
    && v.queueCount == u.queueCount + (if q.None? then 0 else 1)
  }

  /** A state between the taking of a packet and the end of the run. */
  ghost predicate Midway(u: State, s: State, p: Option<Packet>) {
    && Runs(u, u.current) && Running(s) && s.current == u.current && s.blocks == u.blocks && |s.tcbs| == |u.tcbs|
    && p == Taken(u) && s.currentId == u.tcbs[u.current].id && s.queueCount == u.queueCount
    && s.holdCount == u.holdCount
    && s.tcbs[s.current].task == u.tcbs[u.current].task && !s.tcbs[s.current].state.held
    && (forall k :: 0 <= k < |u.tcbs| ==> s.tcbs[k].queue == Remaining(u, k))
    && (forall k :: 0 <= k < |u.tcbs| && k != u.current ==> s.tcbs[k] == u.tcbs[k])
  }

  lemma TakesMidway(u: State)
    requires Inv(u) && Runs(u, u.current)
    ensures HasPacket(u.tcbs[u.current])
    ensures
      var (s, p) := TakePacket(u.(currentId := u.tcbs[u.current].id));
      Midway(u, s, p)
  {
    InvIsSafe(u);
  }

  /** Sending from such a state. */
  lemma SendReacts(u: State, s: State, p: Option<Packet>, t: Task, q: Packet)
    requires Midway(u, s, p) && 0 <= Block(s, q.id) < |s.tcbs|
    ensures Running(SetTask(s, t))
    ensures
      var v := Enqueue(SetTask(s, t), q);
      && Reacts(u, v, t, Some(q)) && v.holdCount == u.holdCount && !v.tcbs[u.current].state.held
  {
    hide Remaining, Taken, Runs;
    var s1 := SetTask(s, t);
    var v := Enqueue(s1, q);
    var to, q' := Block(s, q.id), q.(id := u.tcbs[u.current].id);
    assert v.tcbs == s1.tcbs[to := Appended(s1.tcbs[to], q')];
  }

  lemma HoldReacts(u: State, s: State, p: Option<Packet>, t: Task)
    requires Midway(u, s, p)
    ensures Running(SetTask(s, t))
    ensures
      var v := HoldCurrent(SetTask(s, t));
      Reacts(u, v, t, None) && v.holdCount == u.holdCount + 1 && v.tcbs[u.current].state.held
  {
  }

  lemma SuspendReacts(u: State, s: State, p: Option<Packet>, t: Task)
    requires Midway(u, s, p)
    ensures Running(SetTask(s, t))
    ensures
      var v := SuspendCurrent(SetTask(s, t));
      Reacts(u, v, t, None) && v.holdCount == u.holdCount && !v.tcbs[u.current].state.held
  {
  }

  lemma ReleaseReacts(u: State, s: State, p: Option<Packet>, t: Task, id: nat)
    requires Midway(u, s, p) && 0 <= Block(s, id) < |s.tcbs|
    ensures Running(SetTask(s, t))
    ensures
      var v := Release(SetTask(s, t), id);
      Reacts(u, v, t, None) && v.holdCount == u.holdCount && !v.tcbs[u.current].state.held
  {
  }

  /** What RoundReacts says of a task's run. */
  ghost predicate Responds(u: State, s: State, p: Option<Packet>, v: State)
    requires Running(s)
  {
    var t := s.tcbs[s.current].task;
    && Reacts(u, v, Reaction(t, p).0, Reaction(t, p).1)
    && (v.tcbs[u.current].state.held <==> (t.Device? && p.Some?) || (t.Idle? && t.count == 1))
    && v.holdCount == u.holdCount + (if v.tcbs[u.current].state.held then 1 else 0)
  }

  lemma SameTask(s: State)
    requires Running(s)
    ensures SetTask(s, s.tcbs[s.current].task) == s
  {
    assert s.tcbs[s.current := s.tcbs[s.current]] == s.tcbs;
  }

  lemma IdleReacts(u: State, s: State, p: Option<Packet>)
    requires Midway(u, s, p) && s.tcbs[s.current].task.Idle?
    requires 0 <= Block(s, ID_DEVICE_A) < |s.tcbs| && 0 <= Block(s, ID_DEVICE_B) < |s.tcbs|
    ensures Responds(u, s, p, RunIdle(s))
  {
    hide Midway, Reacts, HoldCurrent, Release, HalfSigned;
    MidwayFacts(u, s, p);
    var t := s.tcbs[s.current].task;
    var t' := Reaction(t, p).0;
    if t.count == 1 {
      HoldReacts(u, s, p, t');
    } else if t.v1 & 1 == 0 {
      ReleaseReacts(u, s, p, t', ID_DEVICE_A);
    } else {
      ReleaseReacts(u, s, p, t', ID_DEVICE_B);
    }
  }

  lemma WorkerReacts(u: State, s: State, p: Option<Packet>)
    requires Midway(u, s, p) && s.tcbs[s.current].task.Worker?
    requires 0 <= Block(s, ID_HANDLER_A) < |s.tcbs| && 0 <= Block(s, ID_HANDLER_B) < |s.tcbs|
    ensures Responds(u, s, p, RunWorker(s, p))
  {
    hide Midway, Reacts, SuspendCurrent, Enqueue, Letter;
    MidwayFacts(u, s, p);
    var t := s.tcbs[s.current].task;
    if p.None? {
      SameTask(s);
      SuspendReacts(u, s, p, t);
    } else {
      SendReacts(u, s, p, Reaction(t, p).0, Reaction(t, p).1.value);
    }
  }

  lemma HandlerReacts(u: State, s: State, p: Option<Packet>)
    requires Midway(u, s, p) && s.tcbs[s.current].task.Handler?
    requires Reaction(s.tcbs[s.current].task, p).1.Some? ==>
               0 <= Block(s, Reaction(s.tcbs[s.current].task, p).1.value.id) < |s.tcbs|
    ensures Responds(u, s, p, RunHandler(s, p))
  {
    hide Midway, Reacts, SuspendCurrent, Enqueue;
    MidwayFacts(u, s, p);
    var t := s.tcbs[s.current].task;
    var (t', q) := Reaction(t, p);
    if q.None? {
      SuspendReacts(u, s, p, t');
    } else {
      SendReacts(u, s, p, t', q.value);
    }
  }

  lemma DeviceReacts(u: State, s: State, p: Option<Packet>)
    requires Midway(u, s, p) && s.tcbs[s.current].task.Device?
    requires s.tcbs[s.current].task.slot.Some? ==> 0 <= Block(s, s.tcbs[s.current].task.slot.value.id) < |s.tcbs|
    ensures Responds(u, s, p, RunDevice(s, p))
  {
    hide Midway, Reacts, SuspendCurrent, HoldCurrent, Enqueue;
    MidwayFacts(u, s, p);
    var t := s.tcbs[s.current].task;
    if p.Some? {
      HoldReacts(u, s, p, Device(p));
    } else if t.slot.None? {
      SameTask(s);
      SuspendReacts(u, s, p, t);
    } else {
      SendReacts(u, s, p, Device(None), t.slot.value);
    }
  }

  /** What a called handler or device would send has an address. */
  lemma CalledRoutes(s: State, p: Option<Packet>)
    requires Called(s, p)
    ensures
      var t := s.tcbs[s.current].task;
      t.Handler? || t.Device? ==> Reaction(t, p).1.Some? ==> Routable(s, Reaction(t, p).1.value.id)
  {
    hide Routable;
    CalledFacts(s, p);
  }

  lemma CalledBlocks(s: State, p: Option<Packet>)
    requires Called(s, p)
    ensures
      var t := s.tcbs[s.current].task;
      && (t.Idle? ==> 0 <= Block(s, ID_DEVICE_A) < |s.tcbs| && 0 <= Block(s, ID_DEVICE_B) < |s.tcbs|)
      && (t.Worker? ==> 0 <= Block(s, ID_HANDLER_A) < |s.tcbs| && 0 <= Block(s, ID_HANDLER_B) < |s.tcbs|)
      && (t.Device? && t.slot.Some? ==> 0 <= Block(s, t.slot.value.id) < |s.tcbs|)
      && (t.Handler? && Reaction(t, p).1.Some? ==> 0 <= Block(s, Reaction(t, p).1.value.id) < |s.tcbs|)
  {
    hide Called, Reaction;
    CalledFacts(s, p);
    CalledRoutes(s, p);
  }

  /** Every round of a running block is such a reaction, and it is held exactly when that is counted. */
  lemma RoundReacts(u: State)
    requires Inv(u) && Runs(u, u.current)
    ensures HasPacket(u.tcbs[u.current])
    ensures
      var v, t, p := Step(u), u.tcbs[u.current].task, Taken(u);
      && Reacts(u, v, Reaction(t, p).0, Reaction(t, p).1)
      && (Held(u, v) <==> (t.Device? && p.Some?) || (t.Idle? && t.count == 1))
      && v.holdCount == u.holdCount + (if Held(u, v) then 1 else 0)
  {
    hide Inv, Midway, RunIdle, RunWorker, RunHandler, RunDevice, Called, Reaction, TakePacket;
    InvIsSafe(u);
    var u0 := u.(currentId := u.tcbs[u.current].id);
    SetCurrentId(u, u0.currentId, (0, WorkKind));
    KeptInv(u, u0, (0, WorkKind), 0);
    TakeKeeps(u0, (0, WorkKind));
    TakesMidway(u);
    var (s, p) := TakePacket(u0);
    MidwayFacts(u, s, p);
    CalledBlocks(s, p);
    match s.tcbs[s.current].task
    case Idle(_, _) => IdleReacts(u, s, p);
    case Worker(_, _) => WorkerReacts(u, s, p);
    case Handler(_, _) => HandlerReacts(u, s, p);
    case Device(_) => DeviceReacts(u, s, p);
  }

  lemma MidwayFacts(u: State, s: State, p: Option<Packet>)
    requires Midway(u, s, p)
    ensures Running(s) && s.current == u.current && s.tcbs[s.current].task == u.tcbs[u.current].task && p == Taken(u)
  {
  }

  // ----- one round, whoever runs -----

  /** The packet that the round from u sends, with its address; None if it sends none or nothing runs. */
  function Posts(u: State): Option<Packet> {
    if Runs(u, u.current) then Reaction(u.tcbs[u.current].task, Taken(u)).1 else None
  }

  /** What block k runs after the round from u. */
  function TaskAfter(u: State, k: nat): Task
    requires k < |u.tcbs|
  {
    if k == u.current && Runs(u, k) then Reaction(u.tcbs[k].task, Taken(u)).0 else u.tcbs[k].task
  }

  function Addressed(u: State, q: Option<Packet>): seq<Send>
    requires q.Some? ==> 0 <= u.current < |u.tcbs| && 0 <= Block(u, q.value.id)
  {
    if q.None? then [] else [Send(u.current, Block(u, q.value.id), q.value.(id := u.tcbs[u.current].id))]
  }

  /** Whether the round from u holds the running block. */
  predicate Holds(u: State) {
    && Runs(u, u.current)
    && var t := u.tcbs[u.current].task;
       (t.Device? && Taken(u).Some?) || (t.Idle? && t.count == 1)
  }

  lemma RoundLaw(u: State)
    requires Inv(u)
    ensures Indexed(u) && -1 <= u.current < |u.tcbs| && (u.current >= 0 ==> HasPacket(u.tcbs[u.current]))
    ensures Posts(u).Some? ==> 0 <= u.current && 0 <= Block(u, Posts(u).value.id) < |u.tcbs|
    ensures
      var v := Step(u);
      && |v.tcbs| == |u.tcbs| && v.blocks == u.blocks
      && (forall k :: 0 <= k < |u.tcbs| ==> v.tcbs[k].task == TaskAfter(u, k) && v.tcbs[k].id == u.tcbs[k].id)
      && Sent(u, v) == Addressed(u, Posts(u)) && Delivers(u, v, Sent(u, v))
      && v.queueCount == u.queueCount + |Sent(u, v)|
      && v.holdCount == u.holdCount + (if Held(u, v) then 1 else 0)
      && (Held(u, v) <==> Holds(u))
  {
    hide Inv, Reaction, Delivers, Gains, Everywhere, RunBlock;
    InvIsSafe(u);
    StepKeeps(u, (0, WorkKind));
    if Runs(u, u.current) {
      RoundReacts(u);
    } else {
      QuietDelivers(u, Step(u));
    }
    DeliversGains(u, Step(u), Addressed(u, Posts(u)), |u.tcbs|);
  }

  lemma QuietDelivers(u: State, v: State)
    requires !Runs(u, u.current) && v.tcbs == u.tcbs
    ensures Delivers(u, v, [])
  {
  }

  // ----- the history of a run -----

  /** The packets sent in the first n rounds, in order. */
  ghost function History(s: State, n: nat): seq<Send>
    requires Inv(s)
  {
    if n == 0 then []
    else
      BlocksKept(s, n - 1);
      BlocksKept(s, n);
      History(s, n - 1) + Sent(Rounds(s, n - 1), Rounds(s, n))
  }

  function SentBy(h: seq<Send>, k: int): seq<Send> {
    if h == [] then []
    else
      var last := h[|h| - 1];
      SentBy(h[..|h| - 1], k) + if last.from == k then [last] else []
  }

  function SentTo(h: seq<Send>, k: nat): seq<Packet> {
    if h == [] then []
    else
      var last := h[|h| - 1];
      SentTo(h[..|h| - 1], k) + if last.to == k then [last.packet] else []
  }

  function ByBlock(u: State, k: nat): Option<Packet> { if u.current == k then Taken(u) else None }

  function Few<T>(x: Option<T>): seq<T> { if x.None? then [] else [x.value] }

  /** The packets that block k takes in the first n rounds. */
  ghost function Takes(s: State, n: nat, k: nat): seq<Packet>
    requires Inv(s)
  {
    if n == 0 then [] else Takes(s, n - 1, k) + Few(ByBlock(Rounds(s, n - 1), k))
  }

  /** The number of rounds among the first n that hold their block. */
  ghost function HoldsIn(s: State, n: nat): nat
    requires Inv(s)
  {
    if n == 0 then 0
    else
      BlocksKept(s, n - 1);
      BlocksKept(s, n);
      HoldsIn(s, n - 1) + if Held(Rounds(s, n - 1), Rounds(s, n)) then 1 else 0
  }

  /** Packet p as block k sends it. */
  function Outgoing(s: State, k: nat, p: Packet): Send
    requires k < |s.tcbs| && 0 <= Block(s, p.id)
  {
    Send(k, Block(s, p.id), p.(id := s.tcbs[k].id))
  }

  lemma SentOne(h: seq<Send>, more: seq<Send>, k: nat)
    requires |more| <= 1
    ensures SentBy(h + more, k) == SentBy(h, k) + if more != [] && more[0].from == k then more else []
    ensures SentTo(h + more, k) == SentTo(h, k) + Reaching(more, k)
  {
    if more == [] {
      assert h + more == h;
    } else {
      assert (h + more)[..|h|] == h && more == [more[0]];
    }
  }

  /** What the n-th round is to block k. */
  ghost predicate Rounded(s: State, n: nat, k: nat)
    requires Inv(s) && n > 0 && k < |s.tcbs|
  {
    var u, v := Rounds(s, n - 1), Rounds(s, n);
    && |u.tcbs| == |v.tcbs| == |s.tcbs| && u.blocks == s.blocks && u.tcbs[k].id == s.tcbs[k].id
    && var t, p := u.tcbs[k].task, ByBlock(u, k);
    && SameKind(t, s.tcbs[k].task) && (p.Some? ==> Runs(u, k))
    && Takes(s, n, k) == Takes(s, n - 1, k) + Few(p)
    && if Runs(u, k) then
         && v.tcbs[k].task == Reaction(t, p).0
         && match Reaction(t, p).1
            case None => SentBy(History(s, n), k) == SentBy(History(s, n - 1), k)
            case Some(q) =>
              0 <= Block(s, q.id) && SentBy(History(s, n), k) == SentBy(History(s, n - 1), k) + [Outgoing(s, k, q)]
       else v.tcbs[k].task == t && SentBy(History(s, n), k) == SentBy(History(s, n - 1), k)
  }

  lemma RoundOf(s: State, n: nat, k: nat)
    requires Inv(s) && n > 0 && k < |s.tcbs|
    ensures Rounded(s, n, k)
  {
    hide Inv, Reaction, Delivers, Sent, SentBy, SentTo, Step;
    var u := Rounds(s, n - 1);
    BlocksKept(s, n - 1);
    BlocksKept(s, n);
    RoundLaw(u);
    SentOne(History(s, n - 1), Sent(u, Rounds(s, n)), k);
  }

  /** The packet that a round brings to block k. */
  function Reaching(sent: seq<Send>, k: nat): seq<Packet> {
    if sent != [] && sent[0].to == k then [sent[0].packet] else []
  }

  lemma QueueRound(u: State, k: nat)
    requires Inv(u) && k < |u.tcbs|
    ensures Indexed(u) && -1 <= u.current < |u.tcbs| && (u.current >= 0 ==> HasPacket(u.tcbs[u.current]))
    ensures |Step(u).tcbs| == |u.tcbs| && |Sent(u, Step(u))| <= 1
    ensures u.tcbs[k].queue == Few(ByBlock(u, k)) + Remaining(u, k)
    ensures Step(u).tcbs[k].queue == Remaining(u, k) + Reaching(Sent(u, Step(u)), k)
  {
    hide Inv, Step, Sent;
    RoundLaw(u);
  }

  /** Block k takes the packets sent to it, in the order in which they were sent: no work list loses or reorders. */
  lemma {:induction false} FirstInFirstOut(s: State, n: nat, k: nat)
    requires Inv(s) && k < |s.tcbs|
    ensures |Rounds(s, n).tcbs| == |s.tcbs|
    ensures Takes(s, n, k) + Rounds(s, n).tcbs[k].queue == s.tcbs[k].queue + SentTo(History(s, n), k)
  {
    hide Inv, Step, Sent, SentBy, SentTo, Few, ByBlock, Remaining, Reaching;
    BlocksKept(s, n);
    if n == 0 {
      EmptyHistory(k);
    } else {
      FirstInFirstOut(s, n - 1, k);
      var u := Rounds(s, n - 1);
      QueueRound(u, k);
      SentOne(History(s, n - 1), Sent(u, Rounds(s, n)), k);
      Passed(Takes(s, n - 1, k), Few(ByBlock(u, k)), Remaining(u, k), Reaching(Sent(u, Rounds(s, n)), k));
    }
  }

  lemma Passed(taken: seq<Packet>, now: seq<Packet>, left: seq<Packet>, more: seq<Packet>)
    ensures (taken + now) + (left + more) == (taken + (now + left)) + more
  {
  }

  lemma EmptyHistory(k: nat)
    ensures SentTo([], k) == [] && SentBy([], k) == []
  {
  }

  /** queueCount is the number of packets delivered and holdCount the number of blocks held. */
  lemma {:induction false} CountsAreEvents(s: State, n: nat)
    requires Inv(s)
    ensures Rounds(s, n).queueCount == s.queueCount + |History(s, n)|
    ensures Rounds(s, n).holdCount == s.holdCount + HoldsIn(s, n)
  {
    hide Inv, Step, Sent, Held, Delivers;
    if n > 0 {
      CountsAreEvents(s, n - 1);
      BlocksKept(s, n - 1);
      BlocksKept(s, n);
      RoundLaw(Rounds(s, n - 1));
    }
  }

  // ----- the worker -----

  /** The n-th letter after v on the way 1, 2, ..., 26, 1, 2, ... */
  lemma {:induction false} LettersGoRound(v: int, n: nat)
    requires 0 <= v <= 26
    ensures 0 <= Letter(v, n) <= 26 && (n > 0 ==> Letter(v, n) == (v + n - 1) % 26 + 1)
  {
    if n > 0 {
      LettersGoRound(v, n - 1);
    }
  }

  lemma {:induction false} LetterAfter(v: int, m: nat, n: nat)
    ensures Letter(Letter(v, m), n) == Letter(v, m + n)
  {
    if n > 0 {
      LetterAfter(v, m, n - 1);
    }
  }

  lemma LettersAfter(v: int, m: nat)
    ensures NextData(Letter(v, m)) == seq(DATA_SIZE, i requires 0 <= i < DATA_SIZE => Letter(v, m + i + 1))
  {
    hide Letter;
    var data := seq(DATA_SIZE, i requires 0 <= i < DATA_SIZE => Letter(v, m + i + 1));
    forall i | 0 <= i < DATA_SIZE ensures NextData(Letter(v, m))[i] == data[i] {
      LetterAfter(v, m, i + 1);
    }
  }

  /** The handler that the m-th packet of a worker goes to, counted from 0. */
  function Turn(target: nat, m: nat): nat { if m % 2 == 0 then Other(target) else Other(Other(target)) }

  /** The packet that the m-th packet taken becomes. */
  function Filled(s: State, k: nat, p: Packet, m: nat): Send
    requires k < |s.tcbs| && s.tcbs[k].task.Worker?
  {
    var t := s.tcbs[k].task;
    var data := seq(DATA_SIZE, i requires 0 <= i < DATA_SIZE => Letter(t.v2, 4 * m + i + 1));
    var to := Block(s, Turn(t.target, m));
    Send(k, if to < 0 then 0 else to, p.(id := s.tcbs[k].id, a1 := 0, a2 := data))
  }

  ghost predicate WorkerHas(s: State, n: nat, k: nat)
    requires Inv(s) && k < |s.tcbs| && s.tcbs[k].task.Worker?
  {
    var took, sent := Takes(s, n, k), SentBy(History(s, n), k);
    && |Rounds(s, n).tcbs| == |s.tcbs|
    && |sent| == |took| && (forall m :: 0 <= m < |took| ==> sent[m] == Filled(s, k, took[m], m))
    && var t, t0 := Rounds(s, n).tcbs[k].task, s.tcbs[k].task;
    && t == Worker(if |took| == 0 then t0.target else Turn(t0.target, |took| - 1), Letter(t0.v2, 4 * |took|))
  }

  lemma {:induction false} WorkerSends(s: State, n: nat, k: nat)
    requires Inv(s) && k < |s.tcbs| && s.tcbs[k].task.Worker?
    ensures WorkerHas(s, n, k)
  {
    hide Inv, Step, SentBy, History, Takes, Letter, Rounds;
    if n == 0 {
      FirstHas(s, k);
    } else {
      WorkerSends(s, n - 1, k);
      RoundOf(s, n, k);
      WorkerRound(s, n, k);
    }
  }

  lemma FirstHas(s: State, k: nat)
    requires Inv(s) && k < |s.tcbs| && s.tcbs[k].task.Worker?
    ensures WorkerHas(s, 0, k)
  {
    hide Inv;
  }

  lemma WorkerRound(s: State, n: nat, k: nat)
    requires Inv(s) && n > 0 && k < |s.tcbs| && s.tcbs[k].task.Worker?
    requires WorkerHas(s, n - 1, k) && Rounded(s, n, k)
    ensures WorkerHas(s, n, k)
  {
    hide Inv, Step, SentBy, History, Takes, Letter, Rounds;
    var t0, m := s.tcbs[k].task, |Takes(s, n - 1, k)|;
    if ByBlock(Rounds(s, n - 1), k).Some? {
      LetterAfter(t0.v2, 4 * m, DATA_SIZE);
      LettersAfter(t0.v2, 4 * m);
      assert NextData(Letter(t0.v2, 4 * m)) == Filled(s, k, ByBlock(Rounds(s, n - 1), k).value, m).packet.a2;
    }
  }

  /**
   Over every run a worker sends on each packet it takes, in order; each to the other handler than the one before,
   and with the next four letters of the round 1, ..., 26.
   */
  lemma WorkerAlternates(s: State, n: nat, k: nat, m: nat)
    requires Inv(s) && k < |s.tcbs| && s.tcbs[k].task.Worker? && m < |Takes(s, n, k)|
    requires 0 <= s.tcbs[k].task.v2 <= 26
    ensures |SentBy(History(s, n), k)| == |Takes(s, n, k)|
    ensures
      var x, p, t0 := SentBy(History(s, n), k)[m], Takes(s, n, k)[m], s.tcbs[k].task;
      && x.packet == p.(id := s.tcbs[k].id, a1 := 0, a2 := x.packet.a2) && |x.packet.a2| == DATA_SIZE
      && (forall i :: 0 <= i < DATA_SIZE ==> x.packet.a2[i] == (t0.v2 + 4 * m + i) % 26 + 1)
      && x.to == Block(s, if (t0.target == ID_HANDLER_A) == (m % 2 == 0) then ID_HANDLER_B else ID_HANDLER_A)
  {
    hide Inv, Step, SentBy, History, Takes, Letter, Rounds;
    WorkerSends(s, n, k);
    WorkerHandlers(s, k);
    var t0, x := s.tcbs[k].task, SentBy(History(s, n), k)[m];
    assert x == Filled(s, k, Takes(s, n, k)[m], m);
    forall i | 0 <= i < DATA_SIZE ensures x.packet.a2[i] == (t0.v2 + 4 * m + i) % 26 + 1 {
      LettersGoRound(t0.v2, 4 * m + i + 1);
    }
  }

  lemma WorkerHandlers(s: State, k: nat)
    requires Inv(s) && k < |s.tcbs| && s.tcbs[k].task.Worker?
    ensures 0 <= Block(s, ID_HANDLER_A) && 0 <= Block(s, ID_HANDLER_B)
  {
    assert Routable(s, ID_HANDLER_A) && Routable(s, ID_HANDLER_B);
  }

  // ----- the devices -----

  ghost predicate Addresses(s: State, ps: seq<Packet>) { forall i :: 0 <= i < |ps| ==> 0 <= Block(s, ps[i].id) }

  /** Packets as block k sends them. */
  ghost function AllOutgoing(s: State, k: nat, ps: seq<Packet>): (xs: seq<Send>)
    requires k < |s.tcbs| && Addresses(s, ps)
    ensures |xs| == |ps|
  {
    seq(|ps|, i requires 0 <= i < |ps| => Outgoing(s, k, ps[i]))
  }

  ghost predicate DeviceHas(s: State, n: nat, k: nat)
    requires Inv(s) && k < |s.tcbs| && s.tcbs[k].task.Device?
  {
    && |Rounds(s, n).tcbs| == |s.tcbs| && Rounds(s, n).tcbs[k].task.Device?
    && var slot, came := Few(Rounds(s, n).tcbs[k].task.slot), Few(s.tcbs[k].task.slot) + Takes(s, n, k);
    && Addresses(s, slot) && Addresses(s, came)
    && SentBy(History(s, n), k) + AllOutgoing(s, k, slot) == AllOutgoing(s, k, came)
  }

  /** Over every run a device sends back exactly the packets it takes, in order and unchanged but for its address. */
  lemma {:induction false} DeviceReturns(s: State, n: nat, k: nat)
    requires Inv(s) && k < |s.tcbs| && s.tcbs[k].task.Device?
    ensures DeviceHas(s, n, k)
  {
    hide Inv, Step, SentBy, History, Takes, Rounds;
    if n == 0 {
      DeviceStarts(s, k);
    } else {
      DeviceReturns(s, n - 1, k);
      RoundOf(s, n, k);
      DeviceEmpty(s, n - 1, k);
      DeviceRound(s, n, k);
    }
  }

  lemma DeviceStarts(s: State, k: nat)
    requires Inv(s) && k < |s.tcbs| && s.tcbs[k].task.Device?
    ensures DeviceHas(s, 0, k)
  {
    assert BlockOk(s, s.tcbs[k]);
  }

  /** A device takes a packet only when it has none, and the packet it takes can be sent. */
  lemma DeviceEmpty(s: State, n: nat, k: nat)
    requires Inv(s) && k < |s.tcbs| == |Rounds(s, n).tcbs| && Rounds(s, n).tcbs[k].task.Device?
    ensures ByBlock(Rounds(s, n), k).Some? ==> Rounds(s, n).tcbs[k].task.slot.None?
    ensures Addresses(s, Few(ByBlock(Rounds(s, n), k)))
  {
    var u := Rounds(s, n);
    assert BlockOk(u, u.tcbs[k]);
    BlocksKept(s, n);
    assert u.tcbs[k].queue != [] ==> Routable(u, u.tcbs[k].queue[0].id);
  }

  lemma DeviceRound(s: State, n: nat, k: nat)
    requires Inv(s) && n > 0 && k < |s.tcbs| && s.tcbs[k].task.Device?
    requires DeviceHas(s, n - 1, k) && Rounded(s, n, k)
    requires ByBlock(Rounds(s, n - 1), k).Some? ==> Rounds(s, n - 1).tcbs[k].task.slot.None?
    requires Addresses(s, Few(ByBlock(Rounds(s, n - 1), k)))
    ensures DeviceHas(s, n, k)
  {
    hide Inv, Step, SentBy, History, Takes, Rounds;
    var slot, p := Rounds(s, n - 1).tcbs[k].task.slot, ByBlock(Rounds(s, n - 1), k);
    var came0, came := Few(s.tcbs[k].task.slot) + Takes(s, n - 1, k), Few(s.tcbs[k].task.slot) + Takes(s, n, k);
    assert came == came0 + Few(p);
    assert AllOutgoing(s, k, came) == AllOutgoing(s, k, came0) + AllOutgoing(s, k, Few(p));
    assert AllOutgoing(s, k, []) == [];
  }

  // ----- the handlers -----

  /** What a handler sends: a letter on a device packet, or a work packet back. */
  datatype Item = Carried(letter: int) | Returned(send: Send)

  function ItemOf(x: Send): Item { if x.packet.kind == DeviceKind then Carried(x.packet.a1) else Returned(x) }

  function Items(xs: seq<Send>): (r: seq<Item>)
    ensures |r| == |xs|
  {
    seq(|xs|, i requires 0 <= i < |xs| => ItemOf(xs[i]))
  }

  /** What becomes of a work packet: its letters from a1 on, and then the packet. */
  ghost function Spent(s: State, k: nat, w: Packet): seq<Item>
    requires k < |s.tcbs| && 0 <= Block(s, w.id)
    decreases DATA_SIZE - w.a1
  {
    if w.a1 >= DATA_SIZE then [Returned(Outgoing(s, k, w))]
    else [Carried(Data(w))] + Spent(s, k, w.(a1 := w.a1 + 1))
  }

  ghost function AllSpent(s: State, k: nat, ws: seq<Packet>): seq<Item>
    requires k < |s.tcbs| && Addresses(s, ws)
  {
    if ws == [] then [] else Spent(s, k, ws[0]) + AllSpent(s, k, ws[1..])
  }

  function Only(kind: Kind, ps: seq<Packet>): seq<Packet> {
    if ps == [] then []
    else
      var last := ps[|ps| - 1];
      Only(kind, ps[..|ps| - 1]) + if last.kind == kind then [last] else []
  }

  predicate AllOf(kind: Kind, ps: seq<Packet>) { forall i :: 0 <= i < |ps| ==> ps[i].kind == kind }

  /** A packet sent, whatever letter it carries. */
  function Blank(x: Send): Send { x.(packet := x.packet.(a1 := 0)) }

  /** The device packets among those sent, whatever letters they carry. */
  function Blanks(xs: seq<Send>): seq<Send> {
    if xs == [] then []
    else
      var last := xs[|xs| - 1];
      Blanks(xs[..|xs| - 1]) + if last.packet.kind == DeviceKind then [Blank(last)] else []
  }

  lemma BlanksOne(xs: seq<Send>, x: Send)
    ensures Blanks(xs + [x]) == Blanks(xs) + if x.packet.kind == DeviceKind then [Blank(x)] else []
    ensures Items(xs + [x]) == Items(xs) + [ItemOf(x)]
  {
    assert (xs + [x])[..|xs|] == xs;
  }

  lemma OnlyOne(kind: Kind, ps: seq<Packet>, p: Option<Packet>)
    ensures
      Only(kind, ps + Few(p)) == if p.Some? && p.value.kind == kind then Only(kind, ps) + [p.value] else Only(kind, ps)
  {
    if p.None? {
      assert ps + Few(p) == ps;
    } else {
      assert (ps + Few(p))[..|ps|] == ps;
    }
  }

  lemma {:induction false} SpentOne(s: State, k: nat, ws: seq<Packet>, w: Packet)
    requires k < |s.tcbs| && Addresses(s, ws) && 0 <= Block(s, w.id)
    ensures Addresses(s, ws + [w]) && AllSpent(s, k, ws + [w]) == AllSpent(s, k, ws) + Spent(s, k, w)
  {
    hide Spent;
    if ws == [] {
      assert ws + [w] == [w] && [w][1..] == [];
    } else {
      SpentOne(s, k, ws[1..], w);
      assert (ws + [w])[1..] == ws[1..] + [w];
    }
  }

  /** The balance of a handler that has sent xs and holds t, out of work and device. */
  ghost predicate Balanced(s: State, k: nat, t: Task, xs: seq<Send>, work: seq<Packet>, device: seq<Packet>) {
    && k < |s.tcbs| && t.Handler?
    && AllOf(WorkKind, t.work) && AllOf(DeviceKind, t.device) && Addresses(s, t.work) && Addresses(s, t.device)
    && Addresses(s, work) && Addresses(s, device)
    && Items(xs) + AllSpent(s, k, t.work) == AllSpent(s, k, work)
    && Blanks(xs) + Blanks(AllOutgoing(s, k, t.device)) == Blanks(AllOutgoing(s, k, device))
  }

  lemma AcceptBalanced(s: State, k: nat, t: Task, p: Packet, xs: seq<Send>, work: seq<Packet>, device: seq<Packet>)
    requires Balanced(s, k, t, xs, work, device) && 0 <= Block(s, p.id)
    ensures
      var h := Accept(t, Some(p));
      if p.kind == WorkKind then Balanced(s, k, h, xs, work + [p], device)
      else Balanced(s, k, h, xs, work, device + [p])
  {
    hide AllSpent, Spent, Items, Blanks;
    if p.kind == WorkKind {
      SpentOne(s, k, t.work, p);
      SpentOne(s, k, work, p);
    } else {
      BlankMore(s, k, t.device, p);
      BlankMore(s, k, device, p);
    }
  }

  lemma BlankMore(s: State, k: nat, ps: seq<Packet>, p: Packet)
    requires k < |s.tcbs| && Addresses(s, ps) && 0 <= Block(s, p.id) && p.kind == DeviceKind
    ensures Addresses(s, ps + [p])
    ensures Blanks(AllOutgoing(s, k, ps + [p])) == Blanks(AllOutgoing(s, k, ps)) + [Blank(Outgoing(s, k, p))]
  {
    hide Blanks;
    assert AllOutgoing(s, k, ps + [p]) == AllOutgoing(s, k, ps) + [Outgoing(s, k, p)];
    BlanksOne(AllOutgoing(s, k, ps), Outgoing(s, k, p));
  }

  lemma {:induction false} BlankFirst(s: State, k: nat, ps: seq<Packet>)
    requires k < |s.tcbs| && Addresses(s, ps) && AllOf(DeviceKind, ps) && ps != []
    ensures Blanks(AllOutgoing(s, k, ps)) == [Blank(Outgoing(s, k, ps[0]))] + Blanks(AllOutgoing(s, k, ps[1..]))
  {
    hide Blanks, AllOutgoing, Outgoing;
    var n := |ps| - 1;
    var last := ps[n];
    assert ps == ps[..n] + [last];
    BlankMore(s, k, ps[..n], last);
    if n == 0 {
      assert ps[..n] == [] && ps[1..] == [];
      NoBlanks(s, k);
    } else {
      BlankFirst(s, k, ps[..n]);
      assert ps[1..] == ps[..n][1..] + [last];
      BlankMore(s, k, ps[..n][1..], last);
    }
  }

  lemma NoBlanks(s: State, k: nat)
    requires k < |s.tcbs|
    ensures Blanks(AllOutgoing(s, k, [])) == []
  {
    assert AllOutgoing(s, k, []) == [];
  }

  /** Sending a letter or a finished packet keeps the balance. */
  lemma SendBalanced(s: State, k: nat, h: Task, xs: seq<Send>, work: seq<Packet>, device: seq<Packet>)
    requires Balanced(s, k, h, xs, work, device)
    ensures
      var (t, q) := Reaction(h, None);
      if q.None? then t == h
      else 0 <= Block(s, q.value.id) && Balanced(s, k, t, xs + [Outgoing(s, k, q.value)], work, device)
  {
    hide AllSpent, Spent, Items, Blanks;
    var (t, q) := Reaction(h, None);
    if q.Some? {
      var w := h.work[0];
      assert 0 <= Block(s, w.id);
      BlanksOne(xs, Outgoing(s, k, q.value));
      if w.a1 >= DATA_SIZE {
        SpentPacket(s, k, h.work);
      } else {
        SpentLetter(s, k, h.work);
        assert h.device[0].kind == DeviceKind && 0 <= Block(s, h.device[0].id);
        BlankFirst(s, k, h.device);
      }
    }
  }

  lemma SpentPacket(s: State, k: nat, ws: seq<Packet>)
    requires k < |s.tcbs| && Addresses(s, ws) && ws != [] && ws[0].a1 >= DATA_SIZE
    ensures AllSpent(s, k, ws) == [Returned(Outgoing(s, k, ws[0]))] + AllSpent(s, k, ws[1..])
  {
  }

  lemma SpentLetter(s: State, k: nat, ws: seq<Packet>)
    requires k < |s.tcbs| && Addresses(s, ws) && ws != [] && ws[0].a1 < DATA_SIZE
    ensures
      var ws' := ws[0 := ws[0].(a1 := ws[0].a1 + 1)];
      Addresses(s, ws') && AllSpent(s, k, ws) == [Carried(Data(ws[0]))] + AllSpent(s, k, ws')
  {
    var w' := ws[0].(a1 := ws[0].a1 + 1);
    var ws' := ws[0 := w'];
    assert ws'[1..] == ws[1..];
    assert Spent(s, k, ws[0]) == [Carried(Data(ws[0]))] + Spent(s, k, w');
  }

  ghost predicate HandlerHas(s: State, n: nat, k: nat)
    requires Inv(s) && k < |s.tcbs| && s.tcbs[k].task.Handler?
  {
    && |Rounds(s, n).tcbs| == |s.tcbs|
    && var t, t0, took := Rounds(s, n).tcbs[k].task, s.tcbs[k].task, Takes(s, n, k);
    && Balanced(s, k, t, SentBy(History(s, n), k), t0.work + Only(WorkKind, took), t0.device + Only(DeviceKind, took))
  }

  /**
   Over every run a handler sends the letters of the work packets it has taken, in order, each on the next of the
   device packets it has taken, and each work packet back after its last letter.
   */
  lemma {:induction false} HandlerSends(s: State, n: nat, k: nat)
    requires Inv(s) && k < |s.tcbs| && s.tcbs[k].task.Handler?
    requires AllOf(WorkKind, s.tcbs[k].task.work) && AllOf(DeviceKind, s.tcbs[k].task.device)
    ensures HandlerHas(s, n, k)
  {
    hide Inv, Step, SentBy, History, Takes, Rounds, Balanced;
    if n == 0 {
      HandlerStarts(s, k);
    } else {
      HandlerSends(s, n - 1, k);
      RoundOf(s, n, k);
      TakenAddress(s, n - 1, k);
      HandlerRound(s, n, k);
    }
  }

  lemma HandlerStarts(s: State, k: nat)
    requires Inv(s) && k < |s.tcbs| && s.tcbs[k].task.Handler?
    requires AllOf(WorkKind, s.tcbs[k].task.work) && AllOf(DeviceKind, s.tcbs[k].task.device)
    ensures HandlerHas(s, 0, k)
  {
    assert BlockOk(s, s.tcbs[k]);
    var t := s.tcbs[k].task;
    assert t.work + [] == t.work && t.device + [] == t.device;
  }

  lemma TakenAddress(s: State, n: nat, k: nat)
    requires Inv(s) && k < |s.tcbs|
    ensures Addresses(s, Few(ByBlock(Rounds(s, n), k)))
  {
    var u := Rounds(s, n);
    BlocksKept(s, n);
    assert BlockOk(u, u.tcbs[k]);
    assert u.tcbs[k].queue != [] ==> Routable(u, u.tcbs[k].queue[0].id);
  }

  lemma HandlerRound(s: State, n: nat, k: nat)
    requires Inv(s) && n > 0 && k < |s.tcbs| && s.tcbs[k].task.Handler?
    requires HandlerHas(s, n - 1, k) && Rounded(s, n, k) && Addresses(s, Few(ByBlock(Rounds(s, n - 1), k)))
    ensures HandlerHas(s, n, k)
  {
    hide Inv, Step, SentBy, History, Takes, Rounds, Balanced, Reaction, Only;
    var t, t0, took := Rounds(s, n - 1).tcbs[k].task, s.tcbs[k].task, Takes(s, n - 1, k);
    var p, xs := ByBlock(Rounds(s, n - 1), k), SentBy(History(s, n - 1), k);
    AcceptTaken(s, k, t, t0, took, p, xs);
    var work, device := t0.work + Only(WorkKind, Takes(s, n, k)), t0.device + Only(DeviceKind, Takes(s, n, k));
    SendBalanced(s, k, Accept(t, p), xs, work, device);
    ReactionAccepts(t, p);
  }

  lemma ReactionAccepts(t: Task, p: Option<Packet>)
    requires t.Handler?
    ensures Reaction(t, p) == Reaction(Accept(t, p), None)
  {
  }

  lemma AcceptTaken(s: State, k: nat, t: Task, t0: Task, took: seq<Packet>, p: Option<Packet>, xs: seq<Send>)
    requires t0.Handler? && Addresses(s, Few(p))
    requires Balanced(s, k, t, xs, t0.work + Only(WorkKind, took), t0.device + Only(DeviceKind, took))
    ensures
      var took' := took + Few(p);
      && t.Handler?
      && Balanced(s, k, Accept(t, p), xs, t0.work + Only(WorkKind, took'), t0.device + Only(DeviceKind, took'))
  {
    hide AllSpent, Spent, Items, Blanks, Only;
    if p.None? {
      assert took + Few(p) == took;
    } else {
      OnlyOne(WorkKind, took, p);
      OnlyOne(DeviceKind, took, p);
      assert Few(p)[0] == p.value;
      AcceptBalanced(s, k, t, p.value, xs, t0.work + Only(WorkKind, took), t0.device + Only(DeviceKind, took));
      assert t0.work + (Only(WorkKind, took) + [p.value]) == (t0.work + Only(WorkKind, took)) + [p.value];
      assert t0.device + (Only(DeviceKind, took) + [p.value]) == (t0.device + Only(DeviceKind, took)) + [p.value];
    }
  }
}
