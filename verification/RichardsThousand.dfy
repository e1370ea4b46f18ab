/**
 The counts that runRichards expects for its own count of 1000, 2322 and 928 (demo/v8_benchmark.js, 361-380). A tick is
 computed in one function on numbers, nine ticks at a time.
 */
module RichardsThousand {
  import opened RichardsLetters
  import opened RichardsRests
  import opened RichardsScheduler
  import opened RichardsTally

  const COUNT: nat := 1000
  const EXPECTED_QUEUE_COUNT: nat := 2322
  const EXPECTED_HOLD_COUNT: nat := 928

  /** A state at rest and the register, as numbers: work packets, letters gone and device packets of A and of B. */
  datatype Flat = Flat(
    toB: bool, workA: nat, goneA: nat, deviceA: nat, workB: nat, goneB: nat, deviceB: nat,
    queued: nat, holds: nat, v1: bv32)

  function Flattened(y: Rest, v1: bv32): Flat {
    Flat(y.toB, y.a.work, y.a.gone, y.a.device, y.b.work, y.b.gone, y.b.device, y.queued, y.holds, v1)
  }

  /** One tick that releases device A, with the next value of the register. */
  function NextA(s: Flat, v1: bv32): Flat {
    if s.deviceA >= 3 then
      Flat(s.toB, s.workA, s.goneA, s.deviceA, s.workB, s.goneB, s.deviceB, s.queued, s.holds, v1)
    else if s.workA == 0 then
      Flat(s.toB, 0, s.goneA, s.deviceA + 1, s.workB, s.goneB, s.deviceB,
           s.queued + 1, s.holds + (if s.deviceA < 2 then 1 else 0), v1)
    else if s.goneA < 3 then
      Flat(s.toB, s.workA, s.goneA + 1, 0, s.workB, s.goneB, s.deviceB, s.queued + 2, s.holds + 1, v1)
    else if !s.toB then Flat(true, s.workA, 0, 0, s.workB, s.goneB, s.deviceB, s.queued + 4, s.holds + 1, v1)
    else if s.workB > 0 then
      Flat(false, s.workA - 1, 0, 0, s.workB + 1, s.goneB, 0, s.queued + 4, s.holds + 1, v1)
    else
      Flat(false, s.workA - 1, 0, 0, 1, s.deviceB, 0,
           s.queued + 4 + s.deviceB, s.holds + (if s.deviceB == 3 then 2 else 1), v1)
  }

  function NextB(s: Flat, v1: bv32): Flat {
    if s.deviceB >= 3 then
      Flat(s.toB, s.workA, s.goneA, s.deviceA, s.workB, s.goneB, s.deviceB, s.queued, s.holds, v1)
    else if s.workB == 0 then
      Flat(s.toB, s.workA, s.goneA, s.deviceA, 0, s.goneB, s.deviceB + 1,
           s.queued + 1, s.holds + (if s.deviceB < 2 then 1 else 0), v1)
    else if s.goneB < 3 then
      Flat(s.toB, s.workA, s.goneA, s.deviceA, s.workB, s.goneB + 1, 0, s.queued + 2, s.holds + 1, v1)
    else if s.toB then
      Flat(false, s.workA, s.goneA, s.deviceA, s.workB, 0, 0, s.queued + 4, s.holds + 1, v1)
    else if s.workA > 0 then
      Flat(true, s.workA + 1, s.goneA, 0, s.workB - 1, 0, 0, s.queued + 4, s.holds + 1, v1)
    else
      Flat(true, 1, s.deviceA, 0, s.workB - 1, 0, 0,
           s.queued + 4 + s.deviceA, s.holds + (if s.deviceA == 3 then 2 else 1), v1)
  }

  /** One tick; the last bit of the register says which device is released. */
  function Next(s: Flat): Flat {
    if s.v1 & 1 == 0 then NextA(s, Shifted(s.v1)) else NextB(s, Shifted(s.v1))
  }

  lemma NextIsTickA(y: Rest, v1: bv32, v: bv32)
    requires y.Valid()
    ensures NextA(Flattened(y, v1), v) == Flattened(Tick(y, ID_HANDLER_A), v)
  {
  }

  lemma NextIsTickB(y: Rest, v1: bv32, v: bv32)
    requires y.Valid()
    ensures NextB(Flattened(y, v1), v) == Flattened(Tick(y, ID_HANDLER_B), v)
  {
  }

  lemma NextIsTick(y: Rest, v1: bv32)
    requires y.Valid()
    ensures IsHandler(Chosen(v1)) && Next(Flattened(y, v1)) == Flattened(Tick(y, Chosen(v1)), Shifted(v1))
  {
    hide NextA, NextB, Tick, Shifted;
    NextIsTickA(y, v1, Shifted(v1));
    NextIsTickB(y, v1, Shifted(v1));
  }

  function Nexts(s: Flat, n: nat): Flat
    decreases n
  {
    if n == 0 then s else Nexts(Next(s), n - 1)
  }

  lemma {:induction false} NextsAreTicks(y: Rest, v1: bv32, n: nat)
    requires y.Valid()
    ensures
      var s, y' := Nexts(Flattened(y, v1), n), Ticks(y, v1, n);
      s.queued == y'.queued && s.holds == y'.holds
    decreases n
  {
    hide Next, Tick, Chosen, Shifted;
    if n > 0 {
      NextIsTick(y, v1);
      TickValid(y, Chosen(v1));
      NextsAreTicks(Tick(y, Chosen(v1)), Shifted(v1), n - 1);
    }
  }

  // ----- nine at a time -----

  function Nine(s: Flat): Flat { Next(Next(Next(Next(Next(Next(Next(Next(Next(s))))))))) }

  lemma {:induction false} NineNexts(s: Flat, n: nat, s': Flat)
    requires n >= 9 && Nine(s) == s'
    ensures Nexts(s, n) == Nexts(s', n - 9)
  {
    hide Next;
    var s3 := Next(Next(Next(s)));
    var s6 := Next(Next(Next(s3)));
    ThreeNexts(s, n);
    ThreeNexts(s3, n - 3);
    ThreeNexts(s6, n - 6);
  }

  lemma ThreeNexts(s: Flat, n: nat)
    requires n >= 3
    ensures Nexts(s, n) == Nexts(Next(Next(Next(s))), n - 3)
  {
    hide Next;
    assert Nexts(s, n) == Nexts(Next(s), n - 1) == Nexts(Next(Next(s)), n - 2);
  }

  lemma Part1()
    ensures
      Nexts(Flat(true, 1, 3, 0, 1, 3, 0, 8, 2, 1), 999)
      == Nexts(Flat(false, 1, 3, 0, 1, 1, 0, 154, 60, 37790), 936)
  {
    hide Nexts;
    NineNexts(Flat(true, 1, 3, 0, 1, 3, 0, 8, 2, 1), 999, Flat(false, 0, 0, 1, 2, 2, 0, 31, 11, 56792));
    NineNexts(Flat(false, 0, 0, 1, 2, 2, 0, 31, 11, 56792), 990, Flat(false, 0, 0, 2, 2, 1, 0, 50, 19, 16364));
    NineNexts(Flat(false, 0, 0, 2, 2, 1, 0, 50, 19, 16364), 981, Flat(false, 0, 0, 1, 2, 1, 0, 69, 26, 53206));
    NineNexts(Flat(false, 0, 0, 1, 2, 1, 0, 69, 26, 53206), 972, Flat(false, 0, 0, 1, 2, 2, 0, 91, 35, 32130));
    NineNexts(Flat(false, 0, 0, 1, 2, 2, 0, 91, 35, 32130), 963, Flat(false, 0, 0, 0, 2, 2, 0, 110, 42, 41875));
    NineNexts(Flat(false, 0, 0, 0, 2, 2, 0, 110, 42, 41875), 954, Flat(false, 0, 0, 0, 2, 3, 0, 132, 51, 41772));
    NineNexts(Flat(false, 0, 0, 0, 2, 3, 0, 132, 51, 41772), 945, Flat(false, 1, 3, 0, 1, 1, 0, 154, 60, 37790));
  }

  lemma Part2()
    ensures
      Nexts(Flat(false, 1, 3, 0, 1, 1, 0, 154, 60, 37790), 936)
      == Nexts(Flat(false, 1, 1, 0, 1, 3, 0, 294, 116, 51197), 873)
  {
    hide Nexts;
    NineNexts(Flat(false, 1, 3, 0, 1, 1, 0, 154, 60, 37790), 936, Flat(false, 1, 2, 0, 1, 3, 0, 176, 69, 10026));
    NineNexts(Flat(false, 1, 2, 0, 1, 3, 0, 176, 69, 10026), 927, Flat(false, 1, 3, 0, 1, 3, 0, 198, 78, 48959));
    NineNexts(Flat(false, 1, 3, 0, 1, 3, 0, 198, 78, 48959), 918, Flat(true, 2, 1, 0, 0, 0, 2, 220, 87, 35041));
    NineNexts(Flat(true, 2, 1, 0, 0, 0, 2, 220, 87, 35041), 909, Flat(true, 2, 0, 0, 0, 0, 3, 239, 94, 39835));
    NineNexts(Flat(true, 2, 0, 0, 0, 0, 3, 239, 94, 39835), 900, Flat(true, 2, 0, 0, 0, 0, 0, 256, 100, 52660));
    NineNexts(Flat(true, 2, 0, 0, 0, 0, 0, 256, 100, 52660), 891, Flat(false, 1, 0, 0, 1, 3, 0, 272, 107, 18465));
    NineNexts(Flat(false, 1, 0, 0, 1, 3, 0, 272, 107, 18465), 882, Flat(false, 1, 1, 0, 1, 3, 0, 294, 116, 51197));
  }

  lemma Part3()
    ensures
      Nexts(Flat(false, 1, 1, 0, 1, 3, 0, 294, 116, 51197), 873)
      == Nexts(Flat(true, 1, 1, 0, 1, 3, 0, 444, 176, 48744), 810)
  {
    hide Nexts;
    NineNexts(Flat(false, 1, 1, 0, 1, 3, 0, 294, 116, 51197), 873, Flat(true, 2, 1, 0, 0, 0, 0, 318, 125, 53114));
    NineNexts(Flat(true, 2, 1, 0, 0, 0, 0, 318, 125, 53114), 864, Flat(true, 2, 1, 0, 0, 0, 1, 339, 134, 22081));
    NineNexts(Flat(true, 2, 1, 0, 0, 0, 1, 339, 134, 22081), 855, Flat(true, 2, 2, 0, 0, 0, 1, 361, 143, 59889));
    NineNexts(Flat(true, 2, 2, 0, 0, 0, 1, 361, 143, 59889), 846, Flat(true, 2, 2, 0, 0, 0, 2, 382, 152, 38571));
    NineNexts(Flat(true, 2, 2, 0, 0, 0, 2, 382, 152, 38571), 837, Flat(true, 2, 2, 0, 0, 0, 0, 400, 158, 55987));
    NineNexts(Flat(true, 2, 2, 0, 0, 0, 0, 400, 158, 55987), 828, Flat(true, 1, 0, 0, 1, 3, 0, 422, 167, 26905));
    NineNexts(Flat(true, 1, 0, 0, 1, 3, 0, 422, 167, 26905), 819, Flat(true, 1, 1, 0, 1, 3, 0, 444, 176, 48744));
  }

  lemma Part4()
    ensures
      Nexts(Flat(true, 1, 1, 0, 1, 3, 0, 444, 176, 48744), 810)
      == Nexts(Flat(true, 2, 3, 0, 0, 0, 0, 602, 239, 8285), 747)
  {
    hide Nexts;
    NineNexts(Flat(true, 1, 1, 0, 1, 3, 0, 444, 176, 48744), 810, Flat(true, 1, 2, 0, 1, 3, 0, 466, 185, 16600));
    NineNexts(Flat(true, 1, 2, 0, 1, 3, 0, 466, 185, 16600), 801, Flat(true, 1, 3, 0, 1, 3, 0, 488, 194, 61354));
    NineNexts(Flat(true, 1, 3, 0, 1, 3, 0, 488, 194, 61354), 792, Flat(false, 0, 0, 1, 2, 2, 0, 511, 203, 55135));
    NineNexts(Flat(false, 0, 0, 1, 2, 2, 0, 511, 203, 55135), 783, Flat(false, 1, 3, 0, 1, 1, 0, 534, 212, 42710));
    NineNexts(Flat(false, 1, 3, 0, 1, 1, 0, 534, 212, 42710), 774, Flat(false, 1, 2, 0, 1, 3, 0, 556, 221, 44478));
    NineNexts(Flat(false, 1, 2, 0, 1, 3, 0, 556, 221, 44478), 765, Flat(true, 2, 2, 0, 0, 0, 0, 580, 230, 15668));
    NineNexts(Flat(true, 2, 2, 0, 0, 0, 0, 580, 230, 15668), 756, Flat(true, 2, 3, 0, 0, 0, 0, 602, 239, 8285));
  }

  lemma Part5()
    ensures
      Nexts(Flat(true, 2, 3, 0, 0, 0, 0, 602, 239, 8285), 747)
      == Nexts(Flat(true, 2, 1, 0, 0, 0, 3, 741, 295, 20029), 684)
  {
    hide Nexts;
    NineNexts(Flat(true, 2, 3, 0, 0, 0, 0, 602, 239, 8285), 747, Flat(false, 1, 0, 0, 1, 0, 0, 626, 248, 27908));
    NineNexts(Flat(false, 1, 0, 0, 1, 0, 0, 626, 248, 27908), 738, Flat(true, 1, 2, 0, 1, 3, 0, 646, 257, 59260));
    NineNexts(Flat(true, 1, 2, 0, 1, 3, 0, 646, 257, 59260), 729, Flat(false, 1, 2, 0, 1, 0, 0, 670, 266, 31414));
    NineNexts(Flat(false, 1, 2, 0, 1, 0, 0, 670, 266, 31414), 720, Flat(false, 1, 1, 0, 1, 2, 0, 692, 275, 33747));
    NineNexts(Flat(false, 1, 1, 0, 1, 2, 0, 692, 275, 33747), 711, Flat(true, 2, 0, 0, 0, 0, 0, 716, 284, 38718));
    NineNexts(Flat(true, 2, 0, 0, 0, 0, 0, 716, 284, 38718), 702, Flat(true, 2, 3, 0, 0, 0, 3, 725, 289, 21805));
    NineNexts(Flat(true, 2, 3, 0, 0, 0, 3, 725, 289, 21805), 693, Flat(true, 2, 1, 0, 0, 0, 3, 741, 295, 20029));
  }

  lemma Part6()
    ensures
      Nexts(Flat(true, 2, 1, 0, 0, 0, 3, 741, 295, 20029), 684)
      == Nexts(Flat(true, 1, 1, 0, 1, 2, 0, 862, 343, 10159), 621)
  {
    hide Nexts;
    NineNexts(Flat(true, 2, 1, 0, 0, 0, 3, 741, 295, 20029), 684, Flat(false, 1, 0, 0, 1, 3, 0, 752, 299, 17200));
    NineNexts(Flat(false, 1, 0, 0, 1, 3, 0, 752, 299, 17200), 675, Flat(false, 1, 3, 0, 1, 1, 0, 774, 308, 5920));
    NineNexts(Flat(false, 1, 3, 0, 1, 1, 0, 774, 308, 5920), 666, Flat(false, 0, 0, 2, 2, 3, 0, 794, 317, 51714));
    NineNexts(Flat(false, 0, 0, 2, 2, 3, 0, 794, 317, 51714), 657, Flat(false, 0, 0, 3, 2, 1, 0, 811, 323, 7108));
    NineNexts(Flat(false, 0, 0, 3, 2, 1, 0, 811, 323, 7108), 648, Flat(true, 1, 3, 0, 1, 0, 0, 822, 327, 47937));
    NineNexts(Flat(true, 1, 3, 0, 1, 0, 0, 822, 327, 47937), 639, Flat(false, 0, 0, 3, 2, 3, 0, 835, 333, 14735));
    NineNexts(Flat(false, 0, 0, 3, 2, 3, 0, 835, 333, 14735), 630, Flat(true, 1, 1, 0, 1, 2, 0, 862, 343, 10159));
  }

  lemma Part7()
    ensures
      Nexts(Flat(true, 1, 1, 0, 1, 2, 0, 862, 343, 10159), 621)
      == Nexts(Flat(true, 2, 2, 0, 0, 0, 0, 1020, 406, 55908), 558)
  {
    hide Nexts;
    NineNexts(Flat(true, 1, 1, 0, 1, 2, 0, 862, 343, 10159), 621, Flat(false, 1, 0, 0, 1, 0, 0, 886, 352, 15777));
    NineNexts(Flat(false, 1, 0, 0, 1, 0, 0, 886, 352, 15777), 612, Flat(false, 1, 1, 0, 1, 0, 0, 908, 361, 32715));
    NineNexts(Flat(false, 1, 1, 0, 1, 0, 0, 908, 361, 32715), 603, Flat(false, 1, 0, 0, 1, 2, 0, 930, 370, 9420));
    NineNexts(Flat(false, 1, 0, 0, 1, 2, 0, 930, 370, 9420), 594, Flat(false, 1, 3, 0, 1, 0, 0, 952, 379, 1490));
    NineNexts(Flat(false, 1, 3, 0, 1, 0, 0, 952, 379, 1490), 585, Flat(false, 1, 3, 0, 1, 1, 0, 974, 388, 19109));
    NineNexts(Flat(false, 1, 3, 0, 1, 1, 0, 974, 388, 19109), 576, Flat(true, 2, 1, 0, 0, 0, 0, 998, 397, 39098));
    NineNexts(Flat(true, 2, 1, 0, 0, 0, 0, 998, 397, 39098), 567, Flat(true, 2, 2, 0, 0, 0, 0, 1020, 406, 55908));
  }

  lemma Part8()
    ensures
      Nexts(Flat(true, 2, 2, 0, 0, 0, 0, 1020, 406, 55908), 558)
      == Nexts(Flat(false, 1, 0, 0, 1, 2, 0, 1150, 458, 41727), 495)
  {
    hide Nexts;
    NineNexts(Flat(true, 2, 2, 0, 0, 0, 0, 1020, 406, 55908), 558, Flat(true, 1, 1, 0, 1, 2, 0, 1042, 415, 6444));
    NineNexts(Flat(true, 1, 1, 0, 1, 2, 0, 1042, 415, 6444), 549, Flat(false, 1, 0, 0, 1, 0, 0, 1066, 424, 37827));
    NineNexts(Flat(false, 1, 0, 0, 1, 0, 0, 1066, 424, 37827), 540, Flat(true, 2, 3, 0, 0, 0, 2, 1084, 433, 19006));
    NineNexts(Flat(true, 2, 3, 0, 0, 0, 2, 1084, 433, 19006), 531, Flat(true, 2, 1, 0, 0, 0, 3, 1101, 439, 34123));
    NineNexts(Flat(true, 2, 1, 0, 0, 0, 3, 1101, 439, 34123), 522, Flat(true, 2, 3, 0, 0, 0, 3, 1105, 441, 19637));
    NineNexts(Flat(true, 2, 3, 0, 0, 0, 3, 1105, 441, 19637), 513, Flat(true, 2, 3, 0, 0, 0, 3, 1125, 449, 17841));
    NineNexts(Flat(true, 2, 3, 0, 0, 0, 3, 1125, 449, 17841), 504, Flat(false, 1, 0, 0, 1, 2, 0, 1150, 458, 41727));
  }

  lemma Part9()
    ensures
      Nexts(Flat(false, 1, 0, 0, 1, 2, 0, 1150, 458, 41727), 495)
      == Nexts(Flat(false, 1, 0, 0, 1, 1, 0, 1308, 521, 47293), 432)
  {
    hide Nexts;
    NineNexts(Flat(false, 1, 0, 0, 1, 2, 0, 1150, 458, 41727), 495, Flat(false, 1, 1, 0, 1, 2, 0, 1172, 467, 1249));
    NineNexts(Flat(false, 1, 1, 0, 1, 2, 0, 1172, 467, 1249), 486, Flat(true, 2, 0, 0, 0, 0, 0, 1196, 476, 39901));
    NineNexts(Flat(true, 2, 0, 0, 0, 0, 0, 1196, 476, 39901), 477, Flat(true, 2, 1, 0, 0, 0, 0, 1218, 485, 54613));
    NineNexts(Flat(true, 2, 1, 0, 0, 0, 0, 1218, 485, 54613), 468, Flat(false, 1, 3, 0, 1, 3, 0, 1238, 494, 54258));
    NineNexts(Flat(false, 1, 3, 0, 1, 3, 0, 1238, 494, 54258), 459, Flat(true, 1, 0, 0, 1, 3, 0, 1262, 503, 20687));
    NineNexts(Flat(true, 1, 0, 0, 1, 3, 0, 1262, 503, 20687), 450, Flat(true, 2, 2, 0, 0, 0, 2, 1282, 512, 50065));
    NineNexts(Flat(true, 2, 2, 0, 0, 0, 2, 1282, 512, 50065), 441, Flat(false, 1, 0, 0, 1, 1, 0, 1308, 521, 47293));
  }

  lemma Part10()
    ensures
      Nexts(Flat(false, 1, 0, 0, 1, 1, 0, 1308, 521, 47293), 432)
      == Nexts(Flat(true, 2, 2, 0, 0, 0, 0, 1460, 582, 60756), 369)
  {
    hide Nexts;
    NineNexts(Flat(false, 1, 0, 0, 1, 1, 0, 1308, 521, 47293), 432, Flat(false, 1, 0, 0, 1, 2, 0, 1330, 530, 11087));
    NineNexts(Flat(false, 1, 0, 0, 1, 2, 0, 1330, 530, 11087), 423, Flat(true, 2, 2, 0, 0, 0, 3, 1343, 536, 31648));
    NineNexts(Flat(true, 2, 2, 0, 0, 0, 3, 1343, 536, 31648), 414, Flat(false, 1, 0, 0, 1, 2, 0, 1370, 546, 41520));
    NineNexts(Flat(false, 1, 0, 0, 1, 2, 0, 1370, 546, 41520), 405, Flat(false, 1, 2, 0, 1, 1, 0, 1392, 555, 51032));
    NineNexts(Flat(false, 1, 2, 0, 1, 1, 0, 1392, 555, 51032), 396, Flat(false, 1, 3, 0, 1, 1, 0, 1414, 564, 22501));
    NineNexts(Flat(false, 1, 3, 0, 1, 1, 0, 1414, 564, 22501), 387, Flat(false, 1, 3, 0, 1, 2, 0, 1436, 573, 31934));
    NineNexts(Flat(false, 1, 3, 0, 1, 2, 0, 1436, 573, 31934), 378, Flat(true, 2, 2, 0, 0, 0, 0, 1460, 582, 60756));
  }

  lemma Part11()
    ensures
      Nexts(Flat(true, 2, 2, 0, 0, 0, 0, 1460, 582, 60756), 369)
      == Nexts(Flat(true, 1, 3, 0, 1, 1, 0, 1604, 640, 38454), 306)
  {
    hide Nexts;
    NineNexts(Flat(true, 2, 2, 0, 0, 0, 0, 1460, 582, 60756), 369, Flat(true, 1, 1, 0, 1, 2, 0, 1482, 591, 3638));
    NineNexts(Flat(true, 1, 1, 0, 1, 2, 0, 1482, 591, 3638), 360, Flat(true, 1, 1, 0, 1, 3, 0, 1504, 600, 60397));
    NineNexts(Flat(true, 1, 1, 0, 1, 3, 0, 1504, 600, 60397), 351, Flat(false, 1, 1, 0, 1, 0, 0, 1528, 609, 4708));
    NineNexts(Flat(false, 1, 1, 0, 1, 0, 0, 1528, 609, 4708), 342, Flat(false, 0, 0, 0, 2, 2, 0, 1550, 618, 6472));
    NineNexts(Flat(false, 0, 0, 0, 2, 2, 0, 1550, 618, 6472), 333, Flat(true, 1, 3, 0, 1, 2, 0, 1566, 625, 35458));
    NineNexts(Flat(true, 1, 3, 0, 1, 2, 0, 1566, 625, 35458), 324, Flat(false, 0, 0, 1, 2, 1, 0, 1589, 634, 29664));
    NineNexts(Flat(false, 0, 0, 1, 2, 1, 0, 1589, 634, 29664), 315, Flat(true, 1, 3, 0, 1, 1, 0, 1604, 640, 38454));
  }

  lemma Part12()
    ensures
      Nexts(Flat(true, 1, 3, 0, 1, 1, 0, 1604, 640, 38454), 306)
      == Nexts(Flat(false, 0, 0, 0, 2, 2, 0, 1750, 698, 5712), 243)
  {
    hide Nexts;
    NineNexts(Flat(true, 1, 3, 0, 1, 1, 0, 1604, 640, 38454), 306, Flat(true, 1, 3, 0, 1, 2, 0, 1626, 649, 60321));
    NineNexts(Flat(true, 1, 3, 0, 1, 2, 0, 1626, 649, 60321), 297, Flat(false, 0, 0, 0, 2, 2, 0, 1650, 658, 32672));
    NineNexts(Flat(false, 0, 0, 0, 2, 2, 0, 1650, 658, 32672), 288, Flat(true, 1, 3, 0, 1, 1, 0, 1664, 664, 41522));
    NineNexts(Flat(true, 1, 3, 0, 1, 1, 0, 1664, 664, 41522), 279, Flat(true, 1, 3, 0, 1, 0, 0, 1682, 671, 56569));
    NineNexts(Flat(true, 1, 3, 0, 1, 0, 0, 1682, 671, 56569), 270, Flat(false, 0, 0, 0, 2, 0, 0, 1706, 680, 10301));
    NineNexts(Flat(false, 0, 0, 0, 2, 0, 0, 1706, 680, 10301), 261, Flat(true, 1, 3, 0, 1, 2, 0, 1726, 689, 17155));
    NineNexts(Flat(true, 1, 3, 0, 1, 2, 0, 1726, 689, 17155), 252, Flat(false, 0, 0, 0, 2, 2, 0, 1750, 698, 5712));
  }

  lemma Part13()
    ensures
      Nexts(Flat(false, 0, 0, 0, 2, 2, 0, 1750, 698, 5712), 243)
      == Nexts(Flat(true, 1, 3, 0, 1, 2, 0, 1886, 753, 273), 180)
  {
    hide Nexts;
    NineNexts(Flat(false, 0, 0, 0, 2, 2, 0, 1750, 698, 5712), 243, Flat(false, 0, 0, 0, 2, 1, 0, 1768, 705, 59649));
    NineNexts(Flat(false, 0, 0, 0, 2, 1, 0, 1768, 705, 59649), 234, Flat(false, 0, 0, 3, 2, 3, 0, 1775, 709, 3492));
    NineNexts(Flat(false, 0, 0, 3, 2, 3, 0, 1775, 709, 3492), 225, Flat(true, 1, 1, 0, 1, 0, 0, 1798, 717, 38217));
    NineNexts(Flat(true, 1, 1, 0, 1, 0, 0, 1798, 717, 38217), 216, Flat(true, 1, 1, 0, 1, 1, 0, 1820, 726, 22300));
    NineNexts(Flat(true, 1, 1, 0, 1, 1, 0, 1820, 726, 22300), 207, Flat(true, 1, 1, 0, 1, 2, 0, 1842, 735, 21741));
    NineNexts(Flat(true, 1, 1, 0, 1, 2, 0, 1842, 735, 21741), 198, Flat(false, 1, 0, 0, 1, 0, 0, 1866, 744, 49715));
    NineNexts(Flat(false, 1, 0, 0, 1, 0, 0, 1866, 744, 49715), 189, Flat(true, 1, 3, 0, 1, 2, 0, 1886, 753, 273));
  }

  lemma Part14()
    ensures
      Nexts(Flat(true, 1, 3, 0, 1, 2, 0, 1886, 753, 273), 180)
      == Nexts(Flat(false, 1, 2, 0, 1, 0, 0, 2030, 810, 39703), 117)
  {
    hide Nexts;
    NineNexts(Flat(true, 1, 3, 0, 1, 2, 0, 1886, 753, 273), 180, Flat(true, 1, 3, 0, 1, 0, 0, 1902, 759, 53464));
    NineNexts(Flat(true, 1, 3, 0, 1, 0, 0, 1902, 759, 53464), 171, Flat(true, 1, 3, 0, 1, 0, 0, 1922, 767, 61410));
    NineNexts(Flat(true, 1, 3, 0, 1, 0, 0, 1922, 767, 61410), 162, Flat(true, 1, 3, 0, 1, 0, 0, 1942, 775, 36313));
    NineNexts(Flat(true, 1, 3, 0, 1, 0, 0, 1942, 775, 36313), 153, Flat(true, 1, 3, 0, 1, 0, 0, 1962, 783, 57884));
    NineNexts(Flat(true, 1, 3, 0, 1, 0, 0, 1962, 783, 57884), 144, Flat(true, 1, 2, 0, 1, 2, 0, 1984, 792, 33983));
    NineNexts(Flat(true, 1, 2, 0, 1, 2, 0, 1984, 792, 33983), 135, Flat(true, 1, 2, 0, 1, 3, 0, 2006, 801, 12528));
    NineNexts(Flat(true, 1, 2, 0, 1, 3, 0, 2006, 801, 12528), 126, Flat(false, 1, 2, 0, 1, 0, 0, 2030, 810, 39703));
  }

  lemma Part15()
    ensures
      Nexts(Flat(false, 1, 2, 0, 1, 0, 0, 2030, 810, 39703), 117)
      == Nexts(Flat(true, 1, 3, 0, 1, 2, 0, 2186, 873, 60588), 54)
  {
    hide Nexts;
    NineNexts(Flat(false, 1, 2, 0, 1, 0, 0, 2030, 810, 39703), 117, Flat(false, 1, 1, 0, 1, 2, 0, 2052, 819, 64630));
    NineNexts(Flat(false, 1, 1, 0, 1, 2, 0, 2052, 819, 64630), 108, Flat(false, 1, 2, 0, 1, 2, 0, 2074, 828, 57238));
    NineNexts(Flat(false, 1, 2, 0, 1, 2, 0, 2074, 828, 57238), 99, Flat(true, 2, 1, 0, 0, 0, 0, 2098, 837, 18824));
    NineNexts(Flat(true, 2, 1, 0, 0, 0, 0, 2098, 837, 18824), 90, Flat(true, 1, 0, 0, 1, 2, 0, 2120, 846, 54956));
    NineNexts(Flat(true, 1, 0, 0, 1, 2, 0, 2120, 846, 54956), 81, Flat(true, 1, 1, 0, 1, 2, 0, 2142, 855, 11176));
    NineNexts(Flat(true, 1, 1, 0, 1, 2, 0, 2142, 855, 11176), 72, Flat(true, 1, 3, 0, 1, 1, 0, 2164, 864, 52380));
    NineNexts(Flat(true, 1, 3, 0, 1, 1, 0, 2164, 864, 52380), 63, Flat(true, 1, 3, 0, 1, 2, 0, 2186, 873, 60588));
  }

  lemma Part16()
    ensures
      Nexts(Flat(true, 1, 3, 0, 1, 2, 0, 2186, 873, 60588), 54)
      == Nexts(Flat(true, 1, 2, 0, 1, 1, 0, 2322, 927, 50588), 0)
  {
    hide Nexts;
    NineNexts(Flat(true, 1, 3, 0, 1, 2, 0, 2186, 873, 60588), 54, Flat(false, 0, 0, 0, 2, 2, 0, 2210, 882, 11189));
    NineNexts(Flat(false, 0, 0, 0, 2, 2, 0, 2210, 882, 11189), 45, Flat(false, 1, 3, 0, 1, 0, 0, 2232, 891, 38282));
    NineNexts(Flat(false, 1, 3, 0, 1, 0, 0, 2232, 891, 38282), 36, Flat(true, 1, 0, 0, 1, 0, 0, 2256, 900, 52579));
    NineNexts(Flat(true, 1, 0, 0, 1, 0, 0, 2256, 900, 52579), 27, Flat(true, 1, 1, 0, 1, 0, 0, 2278, 909, 14356));
    NineNexts(Flat(true, 1, 1, 0, 1, 0, 0, 2278, 909, 14356), 18, Flat(true, 1, 2, 0, 1, 0, 0, 2300, 918, 59990));
    NineNexts(Flat(true, 1, 2, 0, 1, 0, 0, 2300, 918, 59990), 9, Flat(true, 1, 2, 0, 1, 1, 0, 2322, 927, 50588));
  }

  /** The counts of the program's own run are the ones it expects. */
  lemma Thousand()
    ensures Tally(COUNT) == (EXPECTED_QUEUE_COUNT, EXPECTED_HOLD_COUNT)
  {
    hide Nexts, Ticks;
    NextsAreTicks(FIRST, 1, 999);
    Part1();
    Part2();
    Part3();
    Part4();
    Part5();
    Part6();
    Part7();
    Part8();
    Part9();
    Part10();
    Part11();
    Part12();
    Part13();
    Part14();
    Part15();
    Part16();
    NoNexts(Flat(true, 1, 2, 0, 1, 1, 0, 2322, 927, 50588));
  }

  lemma NoNexts(s: Flat)
    ensures Nexts(s, 0) == s
  {
  }
}
