/**
 What the tasks of runRichards send one another (demo/v8_benchmark.js, 337-359), packet by packet: of the packets a
 handler sends every fifth is a work packet going back to the worker, and the others are device packets that carry
 the letters of the worker's packets to that handler, in order.
 */
module RichardsLetters {
  import opened Options
  import opened RichardsProgram
  import opened RichardsScheduler
  import opened SchedulerHistory

  // ----- where packets belong -----

  /** Packet p may wait at block k. */
  predicate Home(k: nat, p: Packet) {
    if p.kind == WorkKind then k == ID_WORKER || (IsHandler(k) && p.id == ID_WORKER && p.a1 == 0)
    else (IsHandler(k) && p.id == k + 2) || (IsDevice(k) && p.id == k - 2)
  }

  predicate IsHandler(k: nat) { k == ID_HANDLER_A || k == ID_HANDLER_B }

  predicate IsDevice(k: nat) { k == ID_DEVICE_A || k == ID_DEVICE_B }

  predicate AllHome(k: nat, ps: seq<Packet>) { forall i :: 0 <= i < |ps| ==> Home(k, ps[i]) }

  /** The first packet of a handler's work list may have been begun, the others not. */
  predicate WorkHome(k: nat, ps: seq<Packet>) {
    && AllOf(WorkKind, ps) && (ps != [] ==> 0 <= ps[0].a1 <= DATA_SIZE && ps[0].id == ID_WORKER)
    && forall i :: 1 <= i < |ps| ==> Home(k, ps[i])
  }

  /** Task t may be that of block k. */
  predicate TaskHome(k: nat, t: Task) {
    match t
    case Idle(_, _) => k == ID_IDLE
    case Worker(target, _) => k == ID_WORKER && IsHandler(target)
    case Handler(work, device) => IsHandler(k) && WorkHome(k, work) && AllOf(DeviceKind, device) && AllHome(k, device)
    case Device(slot) => IsDevice(k) && (slot.Some? ==> Home(k, slot.value))
  }

  predicate BlockHome(k: nat, t: Tcb) { t.id == k && TaskHome(k, t.task) && AllHome(k, t.queue) }

  predicate AtHome(u: State) {
    && |u.tcbs| == NUMBER_OF_IDS && u.blocks == [0, 1, 2, 3, 4, 5]
    && forall k :: 0 <= k < NUMBER_OF_IDS ==> BlockHome(k, u.tcbs[k])
  }

  /** A packet sent from one block to another is on one of the five ways there are. */
  predicate Proper(x: Send) {
    if x.packet.kind == WorkKind then
      if IsHandler(x.to) then x.from == ID_WORKER else x.to == ID_WORKER && x.from >= 0 && IsHandler(x.from)
    else (IsHandler(x.to) && x.from == x.to + 2) || (IsDevice(x.to) && x.from == x.to - 2)
  }

  lemma HandlerStaysHome(k: nat, t: Task, p: Option<Packet>)
    requires TaskHome(k, t) && t.Handler? && (p.Some? ==> Home(k, p.value))
    ensures TaskHome(k, Accept(t, p))
  {
  }

  /** What a task does with a packet at home leaves it at home, and what it sends is at home where it goes. */
  lemma ReactionStaysHome(k: nat, t: Task, p: Option<Packet>)
    requires TaskHome(k, t) && (p.Some? ==> Home(k, p.value))
    ensures TaskHome(k, Reaction(t, p).0)
    ensures
      Reaction(t, p).1.Some? ==>
        var q := Reaction(t, p).1.value;
        q.id < NUMBER_OF_IDS && Home(q.id, q.(id := k)) && Proper(Send(k, q.id, q.(id := k)))
  {
    if t.Handler? {
      HandlerStaysHome(k, t, p);
    }
  }

  lemma RoundStaysHome(u: State)
    requires Inv(u) && AtHome(u)
    ensures Indexed(u) && -1 <= u.current < |u.tcbs| && (u.current >= 0 ==> HasPacket(u.tcbs[u.current]))
    ensures |Step(u).tcbs| == |u.tcbs| && AtHome(Step(u))
    ensures forall x :: x in Sent(u, Step(u)) ==> Proper(x)
  {
    hide Inv, Step, Sent, Reaction, Home, TaskHome, Proper;
    RoundLaw(u);
    var v, c := Step(u), u.current;
    if Runs(u, c) {
      ReactionStaysHome(c, u.tcbs[c].task, Taken(u));
    }
  }

  lemma {:induction false} RunStaysHome(s: State, n: nat)
    requires Inv(s) && AtHome(s)
    ensures AtHome(Rounds(s, n))
    ensures forall x :: x in History(s, n) ==> Proper(x)
  {
    hide Inv, Step, Sent, AtHome, Proper;
    if n > 0 {
      RunStaysHome(s, n - 1);
      RoundStaysHome(Rounds(s, n - 1));
    }
  }

  lemma RichardsAtHome(s: State, count: int)
    requires s.tcbs == RichardsBlocks(count) && s.blocks == [0, 1, 2, 3, 4, 5]
    ensures AtHome(Start(s))
  {
  }

  // ----- which work packets reach a handler -----

  /** The work packets sent to a handler are those that the worker sent to it. */
  lemma {:induction false} WorkFromWorker(h: seq<Send>, k: nat)
    requires IsHandler(k) && forall x :: x in h ==> Proper(x)
    ensures Only(WorkKind, SentTo(h, k)) == SentTo(SentBy(h, ID_WORKER), k)
  {
    if h != [] {
      var n := |h| - 1;
      var rest, x := h[..n], h[n];
      WorkFromWorker(rest, k);
      assert h == rest + [x] && x in h;
      SentOne(rest, [x], k);
      SentOne(rest, [x], ID_WORKER);
      var mine := if x.from == ID_WORKER then [x] else [];
      SentOne(SentBy(rest, ID_WORKER), mine, k);
      OnlyOne(WorkKind, SentTo(rest, k), if x.to == k then Some(x.packet) else None);
    }
  }

  lemma {:induction false} OnlySplits(kind: Kind, a: seq<Packet>, b: seq<Packet>)
    ensures Only(kind, a + b) == Only(kind, a) + Only(kind, b)
  {
    if b == [] {
      assert a + b == a;
    } else {
      var n := |b| - 1;
      OnlySplits(kind, a, b[..n]);
      assert (a + b)[..|a| + n] == a + b[..n];
    }
  }

  lemma {:induction false} OnlyNone(kind: Kind, ps: seq<Packet>)
    requires forall i :: 0 <= i < |ps| ==> ps[i].kind != kind
    ensures Only(kind, ps) == []
  {
    if ps != [] {
      OnlyNone(kind, ps[..|ps| - 1]);
    }
  }

  predicate InTurns(xs: seq<Send>) {
    forall m :: 0 <= m < |xs| ==> xs[m].to == if m % 2 == 0 then ID_HANDLER_B else ID_HANDLER_A
  }

  /** The number, among the worker's packets, of the j-th that goes to handler k. */
  function Number(k: nat, j: nat): nat { if k == ID_HANDLER_B then 2 * j else 2 * j + 1 }

  lemma {:induction false} EveryOther(xs: seq<Send>, k: nat)
    requires IsHandler(k) && InTurns(xs)
    ensures Number(k, |SentTo(xs, k)|) - 1 <= |xs| <= Number(k, |SentTo(xs, k)|)
    ensures forall j :: 0 <= j < |SentTo(xs, k)| ==> Number(k, j) < |xs| && SentTo(xs, k)[j] == xs[Number(k, j)].packet
  {
    if xs != [] {
      var n := |xs| - 1;
      EveryOther(xs[..n], k);
      var ps := SentTo(xs[..n], k);
      assert xs[n].to == k <==> n == Number(k, |ps|);
      assert SentTo(xs, k) == ps + if xs[n].to == k then [xs[n].packet] else [];
    }
  }

  // ----- what a handler makes of them -----

  predicate Unbegun(ws: seq<Packet>) { forall i :: 0 <= i < |ws| ==> ws[i].a1 == 0 && |ws[i].a2| == DATA_SIZE }

  lemma SpentLetters(s: State, k: nat, w: Packet)
    requires k < |s.tcbs| && 0 <= Block(s, w.id) && w.a1 == 0 && |w.a2| == DATA_SIZE
    ensures
      var d := w.a2;
      Spent(s, k, w)
      == [Carried(d[0]), Carried(d[1]), Carried(d[2]), Carried(d[3]), Returned(Outgoing(s, k, w.(a1 := DATA_SIZE)))]
  {
    var w1, w2, w3, w4 := w.(a1 := 1), w.(a1 := 2), w.(a1 := 3), w.(a1 := 4);
    assert Spent(s, k, w4) == [Returned(Outgoing(s, k, w4))];
    assert Spent(s, k, w3) == [Carried(w.a2[3])] + Spent(s, k, w4);
    assert Spent(s, k, w2) == [Carried(w.a2[2])] + Spent(s, k, w3);
    assert Spent(s, k, w1) == [Carried(w.a2[1])] + Spent(s, k, w2);
  }

  lemma {:induction false} SpentAt(s: State, k: nat, ws: seq<Packet>, i: nat)
    requires k < |s.tcbs| && Addresses(s, ws) && Unbegun(ws) && i < |AllSpent(s, k, ws)|
    ensures i / 5 < |ws| && 0 <= Block(s, ws[i / 5].id)
    ensures
      AllSpent(s, k, ws)[i]
      == if i % 5 < 4 then Carried(ws[i / 5].a2[i % 5]) else Returned(Outgoing(s, k, ws[i / 5].(a1 := DATA_SIZE)))
  {
    hide Spent, Outgoing;
    if ws != [] {
      SpentLetters(s, k, ws[0]);
      if i >= 5 {
        SpentAt(s, k, ws[1..], i - 5);
      }
    }
  }

  // ----- the whole way of the letters -----

  predicate Letters(data: seq<int>, m: nat) {
    |data| == DATA_SIZE && forall i :: 0 <= i < DATA_SIZE ==> data[i] == (4 * m + i) % 26 + 1
  }

  lemma WorkerInTurns(s: State, count: int, n: nat)
    requires s.tcbs == RichardsBlocks(count) && s.blocks == [0, 1, 2, 3, 4, 5] && Inv(Start(s))
    ensures
      var xs := SentBy(History(Start(s), n), ID_WORKER);
      InTurns(xs) && forall m :: 0 <= m < |xs| ==> xs[m].packet.a1 == 0 && Letters(xs[m].packet.a2, m)
  {
    hide Inv, Step, SentBy, History, Takes, Letter, Rounds, Packets;
    var s0 := Start(s);
    var xs := SentBy(History(s0, n), ID_WORKER);
    WorkerSends(s0, n, ID_WORKER);
    forall m | 0 <= m < |xs|
      ensures xs[m].to == if m % 2 == 0 then ID_HANDLER_B else ID_HANDLER_A
      ensures xs[m].packet.a1 == 0 && Letters(xs[m].packet.a2, m)
    {
      WorkerAlternates(s0, n, ID_WORKER, m);
    }
  }

  /** The work packets that a handler has taken, in order. */
  lemma WorkTaken(s: State, count: int, n: nat, k: nat)
    requires s.tcbs == RichardsBlocks(count) && s.blocks == [0, 1, 2, 3, 4, 5] && Inv(Start(s)) && IsHandler(k)
    ensures
      var works := Only(WorkKind, Takes(Start(s), n, k));
      Unbegun(works) && forall j :: 0 <= j < |works| ==> Letters(works[j].a2, Number(k, j))
  {
    hide Inv, Step, SentBy, SentTo, History, Takes, Rounds, Only, Letters;
    var s0 := Start(s);
    var h := History(s0, n);
    RichardsAtHome(s, count);
    RunStaysHome(s0, n);
    FirstInFirstOut(s0, n, k);
    var took, queue, queue0 := Takes(s0, n, k), Rounds(s0, n).tcbs[k].queue, s0.tcbs[k].queue;
    OnlySplits(WorkKind, took, queue);
    OnlySplits(WorkKind, queue0, SentTo(h, k));
    NoWorkAtFirst(count, k);
    WorkFromWorker(h, k);
    assert Only(WorkKind, took) + Only(WorkKind, queue) == [] + SentTo(SentBy(h, ID_WORKER), k);
    WorkerInTurns(s, count, n);
    var xs := SentBy(h, ID_WORKER);
    EveryOther(xs, k);
    LettersPrefix(Only(WorkKind, took), Only(WorkKind, queue), xs, SentTo(xs, k), k);
  }

  lemma LettersPrefix(works: seq<Packet>, rest: seq<Packet>, xs: seq<Send>, ps: seq<Packet>, k: nat)
    requires works + rest == [] + ps
    requires forall m :: 0 <= m < |xs| ==> xs[m].packet.a1 == 0 && Letters(xs[m].packet.a2, m)
    requires forall j :: 0 <= j < |ps| ==> Number(k, j) < |xs| && ps[j] == xs[Number(k, j)].packet
    ensures Unbegun(works) && forall j :: 0 <= j < |works| ==> Letters(works[j].a2, Number(k, j))
  {
    forall j | 0 <= j < |works|
      ensures works[j].a1 == 0 && |works[j].a2| == DATA_SIZE && Letters(works[j].a2, Number(k, j))
    {
      assert works[j] == (works + rest)[j] == ps[j] == xs[Number(k, j)].packet;
    }
  }

  lemma NoWorkAtFirst(count: int, k: nat)
    requires IsHandler(k)
    ensures Only(WorkKind, RichardsBlocks(count)[k].queue) == []
  {
    OnlyNone(WorkKind, RichardsBlocks(count)[k].queue);
  }

  /** What a handler has sent is a beginning of what becomes of the work packets it has taken. */
  lemma HandlerSpends(s: State, count: int, n: nat, k: nat)
    requires s.tcbs == RichardsBlocks(count) && s.blocks == [0, 1, 2, 3, 4, 5] && Inv(Start(s)) && IsHandler(k)
    ensures
      var s0 := Start(s);
      var sent, works := SentBy(History(s0, n), k), Only(WorkKind, Takes(s0, n, k));
      Addresses(s0, works) && Items(sent) <= AllSpent(s0, k, works)
  {
    hide Inv, Step, SentBy, History, Takes, Rounds, Only, Packets, AllSpent, Items, Blanks;
    var s0 := Start(s);
    HandlerSends(s0, n, k);
    var works := Only(WorkKind, Takes(s0, n, k));
    assert [] + works == works;
  }

  /**
   The i-th packet that a handler sends, for every i and over every run: four device packets with the next four
   letters, to the handler's own device, and then the work packet, back to the worker.
   */
  lemma HandlerSendsLetters(s: State, count: int, n: nat, k: nat, i: nat)
    requires s.tcbs == RichardsBlocks(count) && s.blocks == [0, 1, 2, 3, 4, 5] && IsHandler(k)
    ensures Inv(Start(s))
    ensures
      var sent, m := SentBy(History(Start(s), n), k), Number(k, i / 5);
      i < |sent| ==>
        var x := sent[i];
        if i % 5 < 4 then x.packet.kind == DeviceKind && x.to == k + 2 && x.packet.a1 == (4 * m + i % 5) % 26 + 1
        else x.packet.kind == WorkKind && x.to == ID_WORKER && x.packet.a1 == DATA_SIZE && Letters(x.packet.a2, m)
  {
    hide Inv, Step, SentBy, History, Takes, Rounds, Only, AllSpent, RichardsBlocks, Addresses;
    RichardsIsGood(s, count);
    var s0 := Start(s);
    var h := History(s0, n);
    var sent, works := SentBy(h, k), Only(WorkKind, Takes(s0, n, k));
    if i < |sent| {
      RichardsAtHome(s, count);
      WorkTaken(s, count, n, k);
      HandlerSpends(s, count, n, k);
      SpentAt(s0, k, works, i);
      assert Items(sent)[i] == AllSpent(s0, k, works)[i];
      RunStaysHome(s0, n);
      SentByFrom(h, k, i);
      assert Proper(sent[i]);
    }
  }

  lemma {:induction false} SentByFrom(h: seq<Send>, k: nat, i: nat)
    requires i < |SentBy(h, k)|
    ensures SentBy(h, k)[i] in h && SentBy(h, k)[i].from == k
  {
    if h != [] && i < |SentBy(h[..|h| - 1], k)| {
      SentByFrom(h[..|h| - 1], k, i);
    }
  }
}
