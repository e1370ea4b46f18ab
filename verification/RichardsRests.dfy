/**
 What happens between two runs of the idle task of runRichards: the released device returns its packet, the handler
 sends a letter on it, a finished work packet goes through the worker to a handler, and everything comes to rest.
 */
module RichardsRests {
  import opened RichardsCounts
  import opened RichardsLetters
  import opened RichardsProgram
  import opened RichardsScheduler

  // ----- states at rest -----

  /** What a handler has: work packets, letters gone from the first, device packets. */
  datatype Hands = Hands(work: nat, gone: nat, device: nat)

  /** Where the packets are when nothing but the idle task can run, and the two counts. */
  datatype Rest = Rest(toB: bool, a: Hands, b: Hands, queued: nat, holds: nat) {
    function Of(k: nat): Hands { if k == ID_HANDLER_A then a else b }

    function With(k: nat, h: Hands, more: nat, held: nat): Rest {
      if k == ID_HANDLER_A then Rest(toB, h, b, queued + more, holds + held)
      else Rest(toB, a, h, queued + more, holds + held)
    }

    predicate Valid() { Fine(a) && Fine(b) }
  }

  predicate Fine(h: Hands) {
    h.gone < DATA_SIZE && h.device <= 3 && if h.work == 0 then h.gone == 0 else h.device == 0
  }

  /** A work packet arrives at the next handler: every device packet that waits there leaves with a letter. */
  function Arrive(y: Rest): Rest {
    var k := if y.toB then ID_HANDLER_B else ID_HANDLER_A;
    var h := y.Of(k);
    var y' := if h.work > 0 then y.With(k, Hands(h.work + 1, h.gone, h.device), 1, 0)
              else y.With(k, Hands(1, h.device, 0), 1 + h.device, if h.device == 3 then 1 else 0);
    y'.(toB := !y.toB)
  }

  /** From one rest to the next, when the device of handler k is released. */
  function Tick(y: Rest, k: nat): Rest {
    var h := y.Of(k);
    if h.device >= 3 then y
    else
      var held := if h.device < 2 then 1 else 0;
      if h.work == 0 then y.With(k, Hands(0, h.gone, h.device + 1), 1, held)
      else if h.gone < 3 then y.With(k, Hands(h.work, h.gone + 1, h.device), 2, held)
      else Arrive(y.With(k, Hands(h.work - 1, 0, h.device), 3, held))
  }

  lemma TickValid(y: Rest, k: nat)
    requires y.Valid() && IsHandler(k)
    ensures Tick(y, k).Valid()
  {
  }

  function AtHandler(h: Hands): HandlerCell { HandlerCell([], true, h.work, h.gone, h.device) }

  /** A device with n packets: the first in its slot, and the device held. */
  function AtDevice(n: nat): DeviceCell {
    if n == 0 then DeviceCell(0, true, false, false) else DeviceCell(n - 1, false, true, true)
  }

  function Resting(y: Rest): Small
    requires y.Valid()
  {
    Small(WorkerCell(0, true, y.toB), AtHandler(y.a), AtHandler(y.b),
          AtDevice(3 - y.a.device), AtDevice(3 - y.b.device), ID_IDLE, y.queued, y.holds)
  }

  // ----- ways of the machine that do not reach the idle task before their end -----

  ghost predicate Leads(z: Small, n: nat, z': Small)
    decreases n
  {
    if n == 0 then z == z' else Busy(z) && Leads(SmallStep(z), n - 1, z')
  }

  ghost predicate Comes(z: Small, z': Small) { exists n: nat :: Leads(z, n, z') }

  lemma {:induction false} LeadsOn(z: Small, m: nat, z1: Small, n: nat, z2: Small)
    requires Leads(z, m, z1) && Leads(z1, n, z2)
    ensures Leads(z, m + n, z2)
    decreases m
  {
    if m > 0 {
      LeadsOn(SmallStep(z), m - 1, z1, n, z2);
    }
  }

  lemma ComesOn(z: Small, z1: Small, z2: Small)
    requires Comes(z, z1) && Comes(z1, z2)
    ensures Comes(z, z2)
  {
    var m: nat :| Leads(z, m, z1);
    var n: nat :| Leads(z1, n, z2);
    LeadsOn(z, m, z1, n, z2);
  }

  lemma OneStep(z: Small)
    requires Busy(z)
    ensures Comes(z, SmallStep(z))
  {
    assert Leads(SmallStep(z), 0, SmallStep(z));
    assert Leads(z, 1, SmallStep(z));
  }

  /** A block that the scheduler passes over. */
  predicate Blocked(z: Small, k: nat) {
    if k == ID_WORKER then z.worker.suspended && z.worker.queue == 0
    else if IsHandler(k) then z.Handler(k).suspended && z.Handler(k).queue == []
    else z.Device(k).held || (z.Device(k).suspended && z.Device(k).queue == 0)
  }

  lemma {:induction false} Falls(z: Small, j: nat, i: nat)
    requires i <= j < NUMBER_OF_IDS && forall k :: i < k <= j ==> Blocked(z, k)
    ensures Comes(z.(current := j), z.(current := i))
  {
    var zj, zi := z.(current := j), z.(current := i);
    if i == j {
      assert Leads(zj, 0, zi);
    } else {
      OneStep(zj);
      assert Blocked(z, j);
      assert SmallStep(zj) == z.(current := j - 1);
      Falls(z, j - 1, i);
      ComesOn(zj, z.(current := j - 1), zi);
    }
  }

  // ----- one phase after the other -----

  /** A released device sends what it has in its slot, and takes the next packet if there is one. */
  lemma DeviceReturns(z: Small, k: nat, n: nat)
    requires IsHandler(k) && z.current == k + 2 && n > 0 && z.Device(k + 2) == DeviceCell(n - 1, false, false, true)
    requires z.Handler(k).queue == [] && Blocked(z, k + 1)
    ensures
      var z' := z.SetDevice(k + 2, AtDevice(n - 1)).SetHandler(k, z.Handler(k).(queue := [DeviceKind]));
      Comes(z, z'.(current := k, queued := z.queued + 1, holds := z.holds + if n > 1 then 1 else 0))
  {
    hide Comes;
    var z1 := SmallStep(z);
    var z2 := SmallStep(z1);
    var z3 := SmallStep(z2);
    OneStep(z);
    OneStep(z1);
    OneStep(z2);
    ComesOn(z, z1, z2);
    ComesOn(z, z2, z3);
    assert z3.current == k + 1 && Blocked(z3, k + 1);
    Falls(z3, k + 1, k);
    ComesOn(z, z3, z3.(current := k));
  }

  /** A handler that has a letter to send and a packet to carry it sends it, and is current again. */
  lemma LetterGoes(z: Small, k: nat, n: nat)
    requires IsHandler(k) && z.current == k && Blocked(z, k + 1) && z.Device(k + 2) == AtDevice(n)
    requires
      var h := z.Handler(k);
      !h.suspended && h.queue == [] && h.work > 0 && h.gone < DATA_SIZE && h.device > 0
    ensures
      var h := z.Handler(k);
      var z' := z.SetDevice(k + 2, AtDevice(n + 1)).SetHandler(k, h.(gone := h.gone + 1, device := h.device - 1));
      Comes(z, z'.(queued := z.queued + 1, holds := z.holds + if n == 0 then 1 else 0))
  {
    hide Comes;
    var z1 := SmallStep(z);
    OneStep(z);
    if n == 0 {
      var z2 := SmallStep(z1);
      OneStep(z1);
      ComesOn(z, z1, z2);
      Falls(z2, k + 1, k);
      ComesOn(z, z2, z2.(current := k));
    } else if n == 1 {
      Falls(z1, k + 2, k);
      ComesOn(z, z1, z1.(current := k));
    }
  }

  /** While a handler has letters and packets, all of these leave. */
  lemma {:induction false} LettersGo(z: Small, k: nat, n: nat)
    requires IsHandler(k) && z.current == k && Blocked(z, k + 1) && z.Device(k + 2) == AtDevice(n)
    requires
      var h := z.Handler(k);
      !h.suspended && h.queue == [] && h.work > 0 && h.gone + h.device <= DATA_SIZE
    ensures
      var h := z.Handler(k);
      var z' := z.SetDevice(k + 2, AtDevice(n + h.device)).SetHandler(k, h.(gone := h.gone + h.device, device := 0));
      Comes(z, z'.(queued := z.queued + h.device, holds := z.holds + if n == 0 && h.device > 0 then 1 else 0))
    decreases z.Handler(k).device
  {
    hide Comes;
    var h := z.Handler(k);
    if h.device == 0 {
      Stays(z);
    } else {
      LetterGoes(z, k, n);
      var z1 := z.SetDevice(k + 2, AtDevice(n + 1)).SetHandler(k, h.(gone := h.gone + 1, device := h.device - 1));
      var z2 := z1.(queued := z.queued + 1, holds := z.holds + if n == 0 then 1 else 0);
      LettersGo(z2, k, n + 1);
      var z3 := z2.SetDevice(k + 2, AtDevice(n + h.device)).SetHandler(k, h.(gone := h.gone + h.device, device := 0));
      ComesOn(z, z2, z3.(queued := z.queued + h.device));
    }
  }

  lemma Stays(z: Small)
    ensures Comes(z, z)
  {
    assert Leads(z, 0, z);
  }

  /** A handler that takes a packet goes on as one that has it. */
  lemma TakesFirst(z: Small, k: nat, z': Small)
    requires IsHandler(k) && z.current == k && z.Handler(k).queue != []
    requires Comes(z.SetHandler(k, Taking(z.Handler(k))), z') && z'.current != k
    ensures Comes(z, z')
  {
    var z1 := z.SetHandler(k, Taking(z.Handler(k)));
    var n: nat :| Leads(z1, n, z');
    if z.Handler(k).suspended {
      assert Taking(Taking(z.Handler(k))) == Taking(z.Handler(k));
      assert SmallStep(z1) == SmallStep(z);
      assert Leads(z, n, z');
    } else {
      assert z1 == z;
    }
  }

  predicate Idles(h: HandlerCell) {
    !h.suspended && h.queue == [] && (h.work == 0 || (h.gone < DATA_SIZE && h.device == 0))
  }

  /** A handler with nothing to send is suspended, and the scheduler goes down to block i. */
  lemma HandlerRests(z: Small, k: nat, i: nat)
    requires IsHandler(k) && z.current == k && Idles(z.Handler(k)) && i < k && forall j :: i < j < k ==> Blocked(z, j)
    ensures Comes(z, z.SetHandler(k, z.Handler(k).(suspended := true)).(current := i))
  {
    hide Comes;
    var z1 := SmallStep(z);
    OneStep(z);
    forall j | i < j <= k ensures Blocked(z1, j) {
      assert j < k ==> Blocked(z, j);
    }
    Falls(z1, k, i);
    ComesOn(z, z1, z1.(current := i));
  }

  // ----- a work packet arrives -----

  /** At rest but for the m packets of the worker. */
  function Arriving(y: Rest, m: nat): Small
    requires y.Valid()
  {
    Resting(y).(current := ID_WORKER, worker := WorkerCell(m, true, y.toB))
  }

  function Awake(z: Small): Small { z.(worker := z.worker.(suspended := false)) }

  lemma ArriveHappens(y: Rest, m: nat)
    requires y.Valid() && m > 0
    ensures Arrive(y).Valid() && Comes(Arriving(y, m), Arriving(Arrive(y), m - 1))
  {
    hide Comes;
    var k := if y.toB then ID_HANDLER_B else ID_HANDLER_A;
    var z0, h, z' := Arriving(y, m), y.Of(k), Arriving(Arrive(y), m - 1);
    var z1 := SmallStep(z0);
    OneStep(z0);
    var z2 := z1.SetHandler(k, Taking(z1.Handler(k)));
    var z3 := Awake(z').(current := k);
    var z4 := z3.SetHandler(k, z3.Handler(k).(suspended := false));
    if h.work > 0 {
      Stays(z2);
    } else {
      LettersGo(z2, k, 3 - h.device);
    }
    assert Comes(z2, z4);
    HandlerRests(z4, k, ID_WORKER);
    ComesOn(z2, z4, Awake(z'));
    OneStep(Awake(z'));
    ComesOn(z2, Awake(z'), z');
    TakesFirst(z1, k, z');
    ComesOn(z0, z1, z');
  }

  lemma AllArrived(y: Rest)
    requires y.Valid()
    ensures Comes(Arriving(y, 0), Resting(y))
  {
    hide Comes;
    assert Blocked(Resting(y), ID_WORKER);
    Falls(Resting(y), ID_WORKER, ID_IDLE);
  }

  // ----- from one rest to the next -----

  /** The idle task has released the device of handler k. */
  function Released(z: Small, k: nat): Small {
    z.SetDevice(k + 2, z.Device(k + 2).(held := false)).(current := k + 2)
  }

  lemma BlockedAtRest(y: Rest)
    requires y.Valid()
    ensures forall k :: 1 <= k < NUMBER_OF_IDS ==> Blocked(Resting(y), k)
  {
  }

  lemma TickHappens(y: Rest, k: nat)
    requires y.Valid() && IsHandler(k)
    ensures Tick(y, k).Valid() && Comes(Released(Resting(y), k), Resting(Tick(y, k)))
  {
    hide Comes, Taking;
    TickValid(y, k);
    BlockedAtRest(y);
    var z, h := Resting(y), y.Of(k);
    var z0 := Released(z, k);
    if h.device == 3 {
      assert z0 == z.(current := k + 2);
      Falls(z, k + 2, ID_IDLE);
    } else {
      var n := 3 - h.device;
      DeviceReturns(z0, k, n);
      var z1 := z.SetDevice(k + 2, AtDevice(n - 1)).SetHandler(k, AtHandler(h).(queue := [DeviceKind]));
      var z2 := z1.(current := k, queued := y.queued + 1, holds := y.holds + if n > 1 then 1 else 0);
      HandlerTicks(y, k, z2);
      ComesOn(z0, z2, Resting(Tick(y, k)));
    }
  }

  /** The device has sent one of its packets back to handler k, which comes next. */
  lemma HandlerTicks(y: Rest, k: nat, z: Small)
    requires y.Valid() && IsHandler(k) && y.Of(k).device < 3 && Tick(y, k).Valid()
    requires
      var h, r := y.Of(k), Resting(y);
      var z1 := r.SetDevice(k + 2, AtDevice(2 - h.device)).SetHandler(k, AtHandler(h).(queue := [DeviceKind]));
      z == z1.(current := k, queued := y.queued + 1, holds := y.holds + if h.device < 2 then 1 else 0)
    ensures Comes(z, Resting(Tick(y, k)))
  {
    hide Comes;
    var h, z1 := y.Of(k), z.SetHandler(k, Taking(z.Handler(k)));
    if h.work == 0 {
      HandlerRests(z1, k, ID_IDLE);
    } else {
      LetterGoes(z1, k, 2);
      var z2 := z1.SetDevice(k + 2, AtDevice(3)).SetHandler(k, z1.Handler(k).(gone := h.gone + 1, device := 0));
      var z3 := z2.(queued := z.queued + 1);
      if h.gone < 3 {
        HandlerRests(z3, k, ID_IDLE);
      } else {
        WorkReturns(y, k, z3);
      }
      ComesOn(z1, z3, Resting(Tick(y, k)));
    }
    TakesFirst(z, k, Resting(Tick(y, k)));
  }

  /** The last letter of a work packet has gone: the packet goes back, and the worker passes it on. */
  lemma WorkReturns(y: Rest, k: nat, z: Small)
    requires y.Valid() && IsHandler(k) && y.Of(k).work > 0 && y.Of(k).gone == 3
    requires
      var h, r := y.Of(k), Resting(y);
      var z1 := r.SetHandler(k, HandlerCell([], false, h.work, DATA_SIZE, 0));
      z == z1.(current := k, queued := y.queued + 2, holds := y.holds + 1)
    ensures Tick(y, k).Valid() && Comes(z, Resting(Tick(y, k)))
  {
    hide Comes;
    var y1 := y.With(k, Hands(y.Of(k).work - 1, 0, 0), 3, 1);
    var z1 := SmallStep(z);
    OneStep(z);
    HandlerRests(z1, k, ID_WORKER);
    assert z1.SetHandler(k, z1.Handler(k).(suspended := true)).(current := ID_WORKER) == Arriving(y1, 1);
    ArriveHappens(y1, 1);
    AllArrived(Arrive(y1));
    ComesOn(z1, Arriving(y1, 1), Arriving(Arrive(y1), 0));
    ComesOn(z1, Arriving(Arrive(y1), 0), Resting(Arrive(y1)));
    ComesOn(z, z1, Resting(Arrive(y1)));
  }

  // ----- the first rest -----

  function Waiting(n: nat): seq<Kind> { seq(n, _ => DeviceKind) }

  function AtStart(): Small {
    var h, d := HandlerCell(Waiting(3), true, 0, 0, 0), AtDevice(0);
    Small(WorkerCell(2, true, true), h, h, d, d, ID_DEVICE_B, 0, 0)
  }

  /** A handler without work puts away the device packets that wait. */
  lemma {:induction false} PutsAway(z: Small, k: nat, n: nat)
    requires IsHandler(k) && z.current == k
    requires var h := z.Handler(k); h.queue == Waiting(n) && h.suspended && h.work == 0
    ensures
      var h := z.Handler(k);
      Comes(z, z.SetHandler(k, h.(queue := [], device := h.device + n)).(current := k - 1))
    decreases n
  {
    hide Comes;
    var h := z.Handler(k);
    OneStep(z);
    var z1 := SmallStep(z);
    if n > 0 {
      assert Waiting(n)[1..] == Waiting(n - 1) && (n == 1 ==> Waiting(n - 1) == []);
      PutsAway(z1, k, n - 1);
      ComesOn(z, z1, z.SetHandler(k, h.(queue := [], device := h.device + n)).(current := k - 1));
    }
  }

  const FIRST := Rest(true, Hands(1, 3, 0), Hands(1, 3, 0), 8, 2)

  lemma FirstRest()
    ensures Comes(AtStart(), Resting(FIRST))
  {
    hide Comes, Waiting;
    var y0 := Rest(true, Hands(0, 0, 3), Hands(0, 0, 3), 0, 0);
    var z0 := AtStart();
    var z1 := z0.(current := ID_HANDLER_B);
    var z2 := z1.SetHandler(ID_HANDLER_B, AtHandler(y0.b)).(current := ID_HANDLER_A);
    Falls(z0, ID_DEVICE_B, ID_HANDLER_B);
    PutsAway(z1, ID_HANDLER_B, 3);
    ComesOn(z0, z1, z2);
    PutsAway(z2, ID_HANDLER_A, 3);
    ComesOn(z0, z2, Arriving(y0, 2));
    ArriveHappens(y0, 2);
    ComesOn(z0, Arriving(y0, 2), Arriving(Arrive(y0), 1));
    ArriveHappens(Arrive(y0), 1);
    ComesOn(z0, Arriving(Arrive(y0), 1), Arriving(FIRST, 0));
    AllArrived(FIRST);
    ComesOn(z0, Arriving(FIRST, 0), Resting(FIRST));
  }
}
