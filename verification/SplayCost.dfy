/**
 Shapes of splay trees, what one splay makes of a shape, and what it costs
 (demo/v8_benchmark.js, 10881-10888 and 11042-11111): the cost is the number of rounds of the
 splay loop, and O(log n) amortized is shown with twice the sum of ranks as potential.
 */
module SplayCosts {

  class Node {
    const key: real
    const value: int
    var left: Node?
    var right: Node?

    constructor (key: real, value: int)
      ensures this.key == key && this.value == value && left == null && right == null
    {
      this.key, this.value := key, value;
      left, right := null, null;
    }
  }

  datatype Tree = Leaf | Branch(left: Tree, node: Node, right: Tree) {
    ghost function Root(): Node? { if Leaf? then null else node }
  }

  /** A tree taken apart at a node, in so many rounds. */
  datatype Parts = Parts(left: Tree, node: Node, right: Tree, rounds: nat)

  /**
   The splay loop as a recursion: each round descends one step, or two after a rotation.
   What it passes ends up on the other side of the node it stops at.
   */
  ghost function Split(t: Tree, key: real): Parts
    requires t.Branch?
  {
    if key < t.node.key && t.left.Branch? then
      if key < t.left.node.key then
        var below := Branch(t.left.right, t.node, t.right);
        if t.left.left.Leaf? then Parts(Leaf, t.left.node, below, 1) else
        var p := Split(t.left.left, key);
        Parts(p.left, p.node, Branch(p.right, t.left.node, below), p.rounds + 1)
      else
        var p := Split(t.left, key);
        Parts(p.left, p.node, Branch(p.right, t.node, t.right), p.rounds + 1)
    else if key > t.node.key && t.right.Branch? then
      if key > t.right.node.key then
        var below := Branch(t.left, t.node, t.right.left);
        if t.right.right.Leaf? then Parts(below, t.right.node, Leaf, 1) else
        var p := Split(t.right.right, key);
        Parts(Branch(below, t.right.node, p.left), p.node, p.right, p.rounds + 1)
      else
        var p := Split(t.right, key);
        Parts(Branch(t.left, t.node, p.left), p.node, p.right, p.rounds + 1)
    else
      Parts(t.left, t.node, t.right, 1)
  }

  ghost function Splayed(t: Tree, key: real): Tree {
    if t.Leaf? then t else var p := Split(t, key); Branch(p.left, p.node, p.right)
  }

  ghost function Rounds(t: Tree, key: real): nat { if t.Leaf? then 0 else Split(t, key).rounds }

  /** Where the loop may stop. */
  ghost predicate Stops(t: Tree, key: real) {
    t.Branch? && (key < t.node.key ==> t.left.Leaf?) && (key > t.node.key ==> t.right.Leaf?)
  }

  /** The first round rotates. */
  ghost predicate Rotates(t: Tree, key: real)
    requires t.Branch?
  {
    || (key < t.node.key && t.left.Branch? && key < t.left.node.key)
    || (key > t.node.key && t.right.Branch? && key > t.right.node.key)
  }

  /** What the current subtree is after the rotation of a round, if it makes one. */
  ghost function Turned(t: Tree, key: real): (u: Tree)
    requires t.Branch?
    ensures u.Branch?
  {
    if !Rotates(t, key) then t
    else if key < t.node.key then Branch(t.left.left, t.left.node, Branch(t.left.right, t.node, t.right))
    else Branch(Branch(t.left, t.node, t.right.left), t.right.node, t.right.right)
  }

  /** One round of the loop: stop, or pass the current node and go on below it. */
  lemma {:induction false} SplitRound(t: Tree, key: real)
    requires t.Branch?
    ensures
      var u := Turned(t, key);
      && (key < t.node.key ==> key < u.node.key) && (key > t.node.key ==> key > u.node.key)
      && (Stops(u, key) ==> Split(t, key) == Parts(u.left, u.node, u.right, 1))
      && (!Stops(u, key) && key < u.node.key ==>
            var p := Split(u.left, key);
            Split(t, key) == Parts(p.left, p.node, Branch(p.right, u.node, u.right), p.rounds + 1))
      && (!Stops(u, key) && key > u.node.key ==>
            var p := Split(u.right, key);
            Split(t, key) == Parts(Branch(u.left, u.node, p.left), p.node, p.right, p.rounds + 1))
  {
  }

  // ----- sizes, ranks, potential -----

  ghost function Size(t: Tree): nat { if t.Leaf? then 0 else Size(t.left) + 1 + Size(t.right) }

  /** The logarithm to base 2, rounded down; 0 for 0. */
  ghost function Log2(n: nat): nat { if n <= 1 then 0 else 1 + Log2(n / 2) }

  ghost function Rank(t: Tree): nat { Log2(Size(t)) }

  ghost function Potential(t: Tree): nat {
    if t.Leaf? then 0 else Potential(t.left) + Potential(t.right) + 2 * Rank(t)
  }

  lemma {:induction false} Log2Bounds(n: nat)
    requires n > 0
    ensures Power2(Log2(n)) <= n < Power2(Log2(n) + 1)
  {
    if n > 1 { Log2Bounds(n / 2); }
  }

  ghost function Power2(e: nat): nat { if e == 0 then 1 else 2 * Power2(e - 1) }

  lemma {:induction false} Log2Monotone(m: nat, n: nat)
    requires m <= n
    ensures Log2(m) <= Log2(n)
  {
    if m > 1 { Log2Monotone(m / 2, n / 2); }
  }

  /** Two disjoint parts cannot both have the rank of the whole. */
  lemma {:induction false} RankSum(m: nat, n: nat, whole: nat)
    requires 0 < m && 0 < n && m + n <= whole
    ensures Log2(m) + Log2(n) + 1 <= 2 * Log2(whole)
  {
    Log2Monotone(m, whole);
    Log2Monotone(n, whole);
    Log2Monotone(if m <= n then m else n, whole / 2);
  }

  // ----- the cost of a splay -----

  /** What taking t apart costs, with the potential it leaves. */
  ghost function Cost(t: Tree, key: real): int
    requires t.Branch?
  {
    var p := Split(t, key);
    p.rounds + Potential(p.left) + Potential(p.right)
  }

  ghost function Budget(t: Tree): int { Potential(t) + 4 * Rank(t) + 1 }

  lemma {:induction false} SplitSize(t: Tree, key: real)
    requires t.Branch?
    ensures Size(Split(t, key).left) + 1 + Size(Split(t, key).right) == Size(t)
  {
    if key < t.node.key && t.left.Branch? {
      if key < t.left.node.key {
        if t.left.left.Branch? { SplitSize(t.left.left, key); }
      } else {
        SplitSize(t.left, key);
      }
    } else if key > t.node.key && t.right.Branch? {
      if key > t.right.node.key {
        if t.right.right.Branch? { SplitSize(t.right.right, key); }
      } else {
        SplitSize(t.right, key);
      }
    }
  }

  /** A round that rotates pays for itself and has one to spare. */
  lemma {:induction false} RotateRanks(low: nat, below: nat, joined: nat, child: nat, whole: nat)
    requires 0 < low <= child <= whole && 0 < below && low + below <= whole && joined <= whole
    ensures 4 * Log2(low) + 2 * Log2(joined) + 2 * Log2(below) + 2 <= 2 * Log2(child) + 6 * Log2(whole)
  {
    hide Log2;
    RankSum(low, below, whole);
    Log2Monotone(low, child);
    Log2Monotone(joined, whole);
  }

  /** Two rounds that link on different sides pay for each other. */
  lemma {:induction false} TurnRanks(low: nat, left: nat, right: nat, child: nat, whole: nat)
    requires 0 < left && 0 < right && left + right <= whole && low <= child <= whole
    ensures 4 * Log2(low) + 2 * Log2(left) + 2 * Log2(right) + 2 <= 2 * Log2(child) + 6 * Log2(whole)
  {
    hide Log2;
    RankSum(left, right, whole);
    Log2Monotone(low, child);
    Log2Monotone(child, whole);
  }

  /** A tree of two nodes or more has a positive rank. */
  lemma {:induction false} RankPositive(t: Tree)
    requires Size(t) >= 2
    ensures Rank(t) >= 1
  {
  }

  lemma {:induction false} SplitCost(t: Tree, key: real)
    requires t.Branch?
    ensures Cost(t, key) <= Budget(t)
    ensures Rotates(t, key) ==> Cost(t, key) + 1 <= Budget(t)
    decreases t
  {
    if key < t.node.key && t.left.Branch? {
      if key < t.left.node.key {
        if t.left.left.Branch? { SplitCost(t.left.left, key); }
        RotateCost(t, key);
      } else {
        SplitCost(t.left, key);
        if t.left.node.key < key && t.left.right.Branch? { SplitCost(t.left.right, key); }
        LinkRightCost(t, key);
      }
    } else if key > t.node.key && t.right.Branch? {
      if key > t.right.node.key {
        if t.right.right.Branch? { SplitCost(t.right.right, key); }
        RotateCost(t, key);
      } else {
        SplitCost(t.right, key);
        if t.right.node.key > key && t.right.left.Branch? { SplitCost(t.right.left, key); }
        LinkLeftCost(t, key);
      }
    }
  }

  lemma {:induction false} RotateCost(t: Tree, key: real)
    requires t.Branch? && Rotates(t, key)
    requires key < t.node.key && t.left.left.Branch? ==> Cost(t.left.left, key) <= Budget(t.left.left)
    requires key > t.node.key && t.right.right.Branch? ==> Cost(t.right.right, key) <= Budget(t.right.right)
    ensures Cost(t, key) + 1 <= Budget(t)
  {
    hide Log2;
    RankPositive(t);
    if key < t.node.key {
      var low, below := t.left.left, Branch(t.left.right, t.node, t.right);
      assert Potential(t.left) == Potential(low) + Potential(t.left.right) + 2 * Rank(t.left);
      Log2Monotone(Size(below), Size(t));
      if low.Branch? {
        SplitSize(low, key);
        var joined := Branch(Split(low, key).right, t.left.node, below);
        assert Cost(t, key) == Cost(low, key) + 1 + Potential(below) + 2 * Rank(joined);
        RotateRanks(Size(low), Size(below), Size(joined), Size(t.left), Size(t));
      } else {
        assert Split(t, key) == Parts(Leaf, t.left.node, below, 1);
      }
    } else {
      var low, below := t.right.right, Branch(t.left, t.node, t.right.left);
      assert Potential(t.right) == Potential(low) + Potential(t.right.left) + 2 * Rank(t.right);
      Log2Monotone(Size(below), Size(t));
      if low.Branch? {
        SplitSize(low, key);
        var joined := Branch(below, t.right.node, Split(low, key).left);
        assert Cost(t, key) == Cost(low, key) + 1 + Potential(below) + 2 * Rank(joined);
        RotateRanks(Size(low), Size(below), Size(joined), Size(t.right), Size(t));
      } else {
        assert Split(t, key) == Parts(below, t.right.node, Leaf, 1);
      }
    }
  }

  /** One round that links without rotating, towards smaller keys. */
  lemma {:induction false} LinkRightCost(t: Tree, key: real)
    requires t.Branch? && key < t.node.key && t.left.Branch? && t.left.node.key <= key
    requires Cost(t.left, key) <= Budget(t.left) && (Rotates(t.left, key) ==> Cost(t.left, key) + 1 <= Budget(t.left))
    requires t.left.node.key < key && t.left.right.Branch? ==> Cost(t.left.right, key) <= Budget(t.left.right)
    ensures Cost(t, key) <= Budget(t)
  {
    hide Log2;
    var a := t.left;
    var linked := Branch(Split(a, key).right, t.node, t.right);
    assert Cost(t, key) == Cost(a, key) + 1 + Potential(t.right) + 2 * Rank(linked);
    RankPositive(t);
    SplitSize(a, key);
    Log2Monotone(Size(linked), Size(t));
    Log2Monotone(Size(a), Size(t));
    if !Rotates(a, key) && a.node.key < key && a.right.Branch? {
      SplitSize(a.right, key);
      TurnRanks(Size(a.right), Size(Branch(a.left, a.node, Split(a.right, key).left)), Size(linked), Size(a), Size(t));
    }
  }

  /** Its mirror image. */
  lemma {:induction false} LinkLeftCost(t: Tree, key: real)
    requires t.Branch? && key > t.node.key && t.right.Branch? && key <= t.right.node.key
    requires Cost(t.right, key) <= Budget(t.right)
    requires Rotates(t.right, key) ==> Cost(t.right, key) + 1 <= Budget(t.right)
    requires key < t.right.node.key && t.right.left.Branch? ==> Cost(t.right.left, key) <= Budget(t.right.left)
    ensures Cost(t, key) <= Budget(t)
  {
    hide Log2;
    var a := t.right;
    var linked := Branch(t.left, t.node, Split(a, key).left);
    assert Cost(t, key) == Cost(a, key) + 1 + Potential(t.left) + 2 * Rank(linked);
    RankPositive(t);
    SplitSize(a, key);
    Log2Monotone(Size(linked), Size(t));
    Log2Monotone(Size(a), Size(t));
    if !Rotates(a, key) && key < a.node.key && a.left.Branch? {
      SplitSize(a.left, key);
      TurnRanks(Size(a.left), Size(linked), Size(Branch(Split(a.left, key).right, a.node, a.right)), Size(a), Size(t));
    }
  }

  /** Splaying n nodes costs at most 6 log n + 1 rounds, amortized. */
  lemma {:induction false} SplayCost(t: Tree, key: real)
    ensures Size(Splayed(t, key)) == Size(t)
    ensures Rounds(t, key) + Potential(Splayed(t, key)) <= Potential(t) + 6 * Rank(t) + 1
  {
    if t.Branch? {
      SplitSize(t, key);
      SplitCost(t, key);
    }
  }

  // ----- the cost of the operations -----

  /** The tree with n above it, split at the root. */
  ghost function Grafted(t: Tree, n: Node): Tree
    requires t.Branch?
  {
    if n.key > t.node.key then Branch(Branch(t.left, t.node, Leaf), n, t.right)
    else Branch(t.left, n, Branch(Leaf, t.node, t.right))
  }

  lemma {:induction false} GraftCost(t: Tree, n: Node)
    requires t.Branch?
    ensures Size(Grafted(t, n)) == Size(t) + 1
    ensures Potential(Grafted(t, n)) <= Potential(t) + 2 * Log2(Size(t) + 1)
  {
    hide Log2;
    assert Size(Leaf) == 0 && Potential(Leaf) == 0;
    var low := if n.key > t.node.key then Branch(t.left, t.node, Leaf) else Branch(Leaf, t.node, t.right);
    Log2Monotone(Size(low), Size(t));
  }

  /** The tree without its root: what is left of it splayed again, with the right subtree hung on that. */
  ghost function Unrooted(t: Tree, key: real): Tree
    requires t.Branch?
  {
    if t.left.Leaf? then t.right else var s := Splayed(t.left, key); Branch(s.left, s.node, t.right)
  }

  lemma {:induction false} UnrootCost(t: Tree, key: real)
    requires t.Branch?
    ensures Size(Unrooted(t, key)) <= Size(t)
    ensures Rounds(t.left, key) + Potential(Unrooted(t, key)) <= Potential(t) + 4 * Rank(t) + 1
  {
    hide Log2;
    SplayCost(t.left, key);
    Log2Monotone(Size(t.left), Size(t));
    Log2Monotone(Size(Unrooted(t, key)), Size(t));
  }

  /** What one operation on a tree of at most n nodes may cost, amortized. */
  ghost function Allowance(n: nat): nat { 10 * Log2(n) + 2 }

  lemma {:induction false} AllowanceMonotone(m: nat, n: nat)
    requires m <= n
    ensures Allowance(m) <= Allowance(n)
  {
    Log2Monotone(m, n);
  }
}
