/**
 A top-down splay tree whose nodes are relinked in place
 (demo/v8_benchmark.js, 10890-11153). The shape of the linked nodes is described by a
 ghost `Tree`; `Inorder` lists the nodes of a shape from left to right.
 */
module SplayTrees {

  import opened SplayCosts

  // ----- shapes -----

  ghost function Nodes(t: Tree): set<Node> {
    match t
    case Leaf => {}
    case Branch(l, x, r) => Nodes(l) + {x} + Nodes(r)
  }

  ghost function Inorder(t: Tree): seq<Node> {
    match t
    case Leaf => []
    case Branch(l, x, r) => Inorder(l) + [x] + Inorder(r)
  }

  /** No node occurs twice. */
  ghost predicate Separate(t: Tree) {
    match t
    case Leaf => true
    case Branch(l, x, r) => Separate(l) && Separate(r) && x !in Nodes(l) && x !in Nodes(r) && Nodes(l) !! Nodes(r)
  }

  /** The left and right links of some nodes at one moment. */
  datatype Links = Links(left: map<Node, Node?>, right: map<Node, Node?>) {
    ghost predicate Covers(s: set<Node>) { s <= left.Keys && s <= right.Keys }

    /** Same links as h for the nodes of s. */
    ghost predicate Same(h: Links, s: set<Node>) {
      && Covers(s) && h.Covers(s)
      && forall x :: x in s ==> left[x] == h.left[x] && right[x] == h.right[x]
    }
  }

  ghost function Snapshot(s: set<Node>): Links
    reads s
  {
    Links(map x | x in s :: x.left, map x | x in s :: x.right)
  }

  /** The links below n have the shape t. */
  ghost predicate Linked(h: Links, n: Node?, t: Tree) {
    match t
    case Leaf => n == null
    case Branch(l, x, r) => n == x && h.Covers({x}) && Linked(h, h.left[x], l) && Linked(h, h.right[x], r)
  }

  lemma {:induction false} LinkedFrame(h: Links, h': Links, n: Node?, t: Tree)
    requires Linked(h, n, t) && h'.Same(h, Nodes(t))
    ensures Linked(h', n, t)
  {
    match t
    case Leaf =>
    case Branch(l, x, r) =>
      LinkedFrame(h, h', h.left[x], l);
      LinkedFrame(h, h', h.right[x], r);
  }

  // ----- side trees under construction -----

  /**
   A list of nodes, each with one finished subtree, the node last added at the end.
   The far link of that last node is still open.
   */
  datatype Chain = Start | Link(rest: Chain, sub: Tree, node: Node)

  ghost function ChainNodes(c: Chain): set<Node> {
    match c
    case Start => {}
    case Link(rest, sub, x) => ChainNodes(rest) + Nodes(sub) + {x}
  }

  ghost predicate SeparateChain(c: Chain) {
    match c
    case Start => true
    case Link(rest, sub, x) =>
      && SeparateChain(rest) && Separate(sub)
      && x !in Nodes(sub) && x !in ChainNodes(rest) && Nodes(sub) !! ChainNodes(rest)
  }

  ghost function Last(c: Chain, dummy: Node): (x: Node)
    ensures x in ChainNodes(c) + {dummy}
  {
    match c
    case Start => dummy
    case Link(_, _, x) => x
  }

  /** The L tree: hung on dummy.right, growing to the right. */
  ghost predicate LeftChain(h: Links, c: Chain, dummy: Node) {
    match c
    case Start => true
    case Link(rest, sub, x) =>
      && LeftChain(h, rest, dummy) && h.Covers({x, Last(rest, dummy)})
      && h.right[Last(rest, dummy)] == x && Linked(h, h.left[x], sub)
  }

  /** The R tree: hung on dummy.left, growing to the left. */
  ghost predicate RightChain(h: Links, c: Chain, dummy: Node) {
    match c
    case Start => true
    case Link(rest, sub, x) =>
      && RightChain(h, rest, dummy) && h.Covers({x, Last(rest, dummy)})
      && h.left[Last(rest, dummy)] == x && Linked(h, h.right[x], sub)
  }

  lemma {:induction false} LeftChainFrame(h: Links, h': Links, c: Chain, dummy: Node)
    requires LeftChain(h, c, dummy) && SeparateChain(c) && dummy !in ChainNodes(c)
    requires h.Covers(ChainNodes(c) + {dummy}) && h'.Covers(ChainNodes(c) + {dummy})
    requires forall x :: x in ChainNodes(c) ==> h'.left[x] == h.left[x]
    requires forall x :: x in ChainNodes(c) + {dummy} && x != Last(c, dummy) ==> h'.right[x] == h.right[x]
    ensures LeftChain(h', c, dummy)
  {
    match c
    case Start =>
    case Link(rest, sub, x) =>
      LeftChainFrame(h, h', rest, dummy);
      LinkedFrame(h, h', h.left[x], sub);
  }

  lemma {:induction false} RightChainFrame(h: Links, h': Links, c: Chain, dummy: Node)
    requires RightChain(h, c, dummy) && SeparateChain(c) && dummy !in ChainNodes(c)
    requires h.Covers(ChainNodes(c) + {dummy}) && h'.Covers(ChainNodes(c) + {dummy})
    requires forall x :: x in ChainNodes(c) ==> h'.right[x] == h.right[x]
    requires forall x :: x in ChainNodes(c) + {dummy} && x != Last(c, dummy) ==> h'.left[x] == h.left[x]
    ensures RightChain(h', c, dummy)
  {
    match c
    case Start =>
    case Link(rest, sub, x) =>
      RightChainFrame(h, h', rest, dummy);
      LinkedFrame(h, h', h.right[x], sub);
  }

  ghost function LeftOrder(c: Chain): seq<Node> {
    match c
    case Start => []
    case Link(rest, sub, x) => LeftOrder(rest) + (Inorder(sub) + [x])
  }

  ghost function RightOrder(c: Chain): seq<Node> {
    match c
    case Start => []
    case Link(rest, sub, x) => ([x] + Inorder(sub)) + RightOrder(rest)
  }

  // ----- the splay loop, on shapes -----

  /** The L tree l, the current subtree t, the R tree r and the dummy share no node. */
  ghost predicate Apart(dummy: Node, l: Chain, t: Tree, r: Chain) {
    && SeparateChain(l) && SeparateChain(r) && Separate(t)
    && ChainNodes(l) !! ChainNodes(r) && ChainNodes(l) !! Nodes(t) && ChainNodes(r) !! Nodes(t)
    && dummy !in ChainNodes(l) && dummy !in ChainNodes(r) && dummy !in Nodes(t)
  }

  ghost function All(dummy: Node, l: Chain, t: Tree, r: Chain): set<Node> {
    ChainNodes(l) + ChainNodes(r) + Nodes(t) + {dummy}
  }

  /** Everything between two steps of the loop. */
  ghost predicate Splaying(h: Links, dummy: Node, l: Chain, t: Tree, r: Chain) {
    && LeftChain(h, l, dummy) && RightChain(h, r, dummy) && Linked(h, t.Root(), t)
    && Apart(dummy, l, t, r) && h.Covers(All(dummy, l, t, r))
  }

  ghost function Order(l: Chain, t: Tree, r: Chain): seq<Node> {
    LeftOrder(l) + Inorder(t) + RightOrder(r)
  }

  /** Both side trees are untouched by changes to nodes of the current subtree. */
  lemma ChainsFrame(h: Links, h': Links, dummy: Node, l: Chain, t: Tree, r: Chain)
    requires LeftChain(h, l, dummy) && RightChain(h, r, dummy) && Apart(dummy, l, t, r)
    requires h.Covers(All(dummy, l, t, r)) && h'.Covers(All(dummy, l, t, r))
    requires forall z :: z in All(dummy, l, t, r) && z !in Nodes(t) ==>
               h'.left[z] == h.left[z] && h'.right[z] == h.right[z]
    ensures LeftChain(h', l, dummy) && RightChain(h', r, dummy)
  {
    hide LeftChain, RightChain, SeparateChain, Separate, Linked, Nodes, ChainNodes;
    LeftChainFrame(h, h', l, dummy);
    RightChainFrame(h, h', r, dummy);
  }

  lemma RotateApart(dummy: Node, l: Chain, a: Tree, y: Node, b: Tree, x: Node, d: Tree, r: Chain)
    ensures Apart(dummy, l, Branch(a, y, Branch(b, x, d)), r) <==> Apart(dummy, l, Branch(Branch(a, y, b), x, d), r)
    ensures All(dummy, l, Branch(a, y, Branch(b, x, d)), r) == All(dummy, l, Branch(Branch(a, y, b), x, d), r)
  {
    hide SeparateChain, ChainNodes, Separate, Nodes;
    NodesRotated(a, y, b, x, d);
    SeparateRotated(a, y, b, x, d);
  }

  lemma NodesRotated(a: Tree, y: Node, b: Tree, x: Node, d: Tree)
    ensures Nodes(Branch(Branch(a, y, b), x, d)) == Nodes(Branch(a, y, Branch(b, x, d)))
  {
    var left, right := Branch(a, y, b), Branch(b, x, d);
    assert Nodes(left) == Nodes(a) + {y} + Nodes(b);
    assert Nodes(right) == Nodes(b) + {x} + Nodes(d);
    assert Nodes(Branch(left, x, d)) == Nodes(left) + {x} + Nodes(d);
    assert Nodes(Branch(a, y, right)) == Nodes(a) + {y} + Nodes(right);
  }

  lemma SeparateRotated(a: Tree, y: Node, b: Tree, x: Node, d: Tree)
    ensures Separate(Branch(Branch(a, y, b), x, d)) <==> Separate(Branch(a, y, Branch(b, x, d)))
  {
    assert Nodes(Branch(a, y, b)) == Nodes(a) + {y} + Nodes(b);
    assert Nodes(Branch(b, x, d)) == Nodes(b) + {x} + Nodes(d);
  }

  lemma RotateOrder(l: Chain, a: Tree, y: Node, b: Tree, x: Node, d: Tree, r: Chain)
    ensures Order(l, Branch(a, y, Branch(b, x, d)), r) == Order(l, Branch(Branch(a, y, b), x, d), r)
  {
    assert Inorder(Branch(a, y, Branch(b, x, d))) == Inorder(Branch(Branch(a, y, b), x, d));
  }

  lemma SplayingFacts(h: Links, dummy: Node, l: Chain, t: Tree, r: Chain)
    requires Splaying(h, dummy, l, t, r)
    ensures LeftChain(h, l, dummy) && RightChain(h, r, dummy) && Linked(h, t.Root(), t)
    ensures Apart(dummy, l, t, r) && Separate(t) && h.Covers(All(dummy, l, t, r)) && Nodes(t) <= All(dummy, l, t, r)
  {
    hide LeftChain, RightChain, SeparateChain, ChainNodes, Linked, Nodes, Separate;
  }

  lemma RotateRight(h: Links, dummy: Node, l: Chain, a: Tree, y: Node, b: Tree, x: Node, d: Tree, r: Chain)
    returns (h': Links)
    requires Splaying(h, dummy, l, Branch(Branch(a, y, b), x, d), r)
    requires x in h.left && y in h.right
    ensures h' == Links(h.left[x := h.right[y]], h.right[y := x])
    ensures Splaying(h', dummy, l, Branch(a, y, Branch(b, x, d)), r)
  {
    hide LeftChain, RightChain, SeparateChain, ChainNodes, Apart, Linked, Nodes, Separate, All;
    var s, t := Branch(a, y, b), Branch(Branch(a, y, b), x, d);
    SplayingFacts(h, dummy, l, t, r);
    RootLinks(h, x, t);
    RootLinks(h, y, s);
    SubtreeShape(t);
    SubtreeShape(s);
    h' := Links(h.left[x := h.right[y]], h.right[y := x]);
    ChainsFrame(h, h', dummy, l, t, r);
    LinkedFrame(h, h', h.left[y], a);
    LinkedFrame(h, h', h.right[y], b);
    LinkedFrame(h, h', h.right[x], d);
    LinkedBranch(h', b, x, d);
    LinkedBranch(h', a, y, Branch(b, x, d));
    RotateApart(dummy, l, a, y, b, x, d, r);
  }

  lemma RotateLeft(h: Links, dummy: Node, l: Chain, a: Tree, x: Node, b: Tree, y: Node, d: Tree, r: Chain)
    returns (h': Links)
    requires Splaying(h, dummy, l, Branch(a, x, Branch(b, y, d)), r)
    requires y in h.left && x in h.right
    ensures h' == Links(h.left[y := x], h.right[x := h.left[y]])
    ensures Splaying(h', dummy, l, Branch(Branch(a, x, b), y, d), r)
  {
    hide LeftChain, RightChain, SeparateChain, ChainNodes, Apart, Linked, Nodes, Separate, All;
    var s, t := Branch(b, y, d), Branch(a, x, Branch(b, y, d));
    SplayingFacts(h, dummy, l, t, r);
    RootLinks(h, x, t);
    RootLinks(h, y, s);
    SubtreeShape(t);
    SubtreeShape(s);
    h' := Links(h.left[y := x], h.right[x := h.left[y]]);
    ChainsFrame(h, h', dummy, l, t, r);
    LinkedFrame(h, h', h.left[x], a);
    LinkedFrame(h, h', h.left[y], b);
    LinkedFrame(h, h', h.right[y], d);
    LinkedBranch(h', a, x, b);
    LinkedBranch(h', Branch(a, x, b), y, d);
    RotateApart(dummy, l, a, x, b, y, d, r);
  }

  lemma LinkRightApart(dummy: Node, l: Chain, a: Tree, x: Node, b: Tree, r: Chain)
    requires Apart(dummy, l, Branch(a, x, b), r)
    ensures Apart(dummy, l, a, Link(r, b, x)) && Apart(dummy, Link(l, a, x), b, r)
    ensures All(dummy, l, a, Link(r, b, x)) == All(dummy, l, Branch(a, x, b), r) == All(dummy, Link(l, a, x), b, r)
  {
    assert Nodes(Branch(a, x, b)) == Nodes(a) + {x} + Nodes(b);
  }

  lemma LinkOrder(l: Chain, a: Tree, x: Node, b: Tree, r: Chain)
    ensures Order(l, a, Link(r, b, x)) == Order(l, Branch(a, x, b), r) == Order(Link(l, a, x), b, r)
  {
    LinkedOrders(l, r, a, x, b);
    hide LeftOrder, RightOrder, Inorder;
    Regroup(LeftOrder(l), Inorder(a), [x], Inorder(b), RightOrder(r));
  }

  lemma LinkedOrders(l: Chain, r: Chain, a: Tree, x: Node, b: Tree)
    ensures Inorder(Branch(a, x, b)) == Inorder(a) + [x] + Inorder(b)
    ensures RightOrder(Link(r, b, x)) == ([x] + Inorder(b)) + RightOrder(r)
    ensures LeftOrder(Link(l, a, x)) == LeftOrder(l) + (Inorder(a) + [x])
  {
  }

  lemma Regroup<T>(p: seq<T>, q: seq<T>, x: seq<T>, r: seq<T>, s: seq<T>)
    ensures p + (q + x + r) + s == p + q + ((x + r) + s)
    ensures p + (q + x + r) + s == (p + (q + x)) + r + s
  {
  }

  /** The open ends of the side trees are not in the other parts. */
  lemma OpenEnds(dummy: Node, l: Chain, a: Tree, x: Node, b: Tree, r: Chain)
    requires Apart(dummy, l, Branch(a, x, b), r)
    ensures {Last(l, dummy), Last(r, dummy), x} !! (Nodes(a) + Nodes(b))
    ensures Last(r, dummy) !in ChainNodes(l) && Last(l, dummy) !in ChainNodes(r)
    ensures x !in ChainNodes(l) && x !in ChainNodes(r) && x != dummy
    ensures Nodes(a) + Nodes(b) + {x} <= All(dummy, l, Branch(a, x, b), r)
  {
    hide SeparateChain, ChainNodes;
  }

  lemma LinkRight(h: Links, dummy: Node, l: Chain, a: Tree, x: Node, b: Tree, r: Chain) returns (h': Links)
    requires Splaying(h, dummy, l, Branch(a, x, b), r)
    ensures h' == Links(h.left[Last(r, dummy) := x], h.right)
    ensures Splaying(h', dummy, l, a, Link(r, b, x)) && h'.left[x] == a.Root()
  {
    hide Separate, Nodes, Linked, SeparateChain, ChainNodes, LeftChain, RightChain, Last;
    RootLinks(h, x, Branch(a, x, b));
    LinkRightApart(dummy, l, a, x, b, r);
    OpenEnds(dummy, l, a, x, b, r);
    h' := Links(h.left[Last(r, dummy) := x], h.right);
    LinkedFrame(h, h', h.left[x], a);
    LinkedFrame(h, h', h.right[x], b);
    LeftChainFrame(h, h', l, dummy);
    RightChainFrame(h, h', r, dummy);
    ExtendChains(h', dummy, l, a, x, b, r);
  }

  lemma ExtendChains(h: Links, dummy: Node, l: Chain, a: Tree, x: Node, b: Tree, r: Chain)
    requires h.Covers({x, Last(l, dummy), Last(r, dummy)})
    ensures RightChain(h, r, dummy) && h.left[Last(r, dummy)] == x && Linked(h, h.right[x], b) ==>
              RightChain(h, Link(r, b, x), dummy)
    ensures LeftChain(h, l, dummy) && h.right[Last(l, dummy)] == x && Linked(h, h.left[x], a) ==>
              LeftChain(h, Link(l, a, x), dummy)
  {
  }

  lemma LinkLeft(h: Links, dummy: Node, l: Chain, a: Tree, x: Node, b: Tree, r: Chain) returns (h': Links)
    requires Splaying(h, dummy, l, Branch(a, x, b), r)
    ensures h' == Links(h.left, h.right[Last(l, dummy) := x])
    ensures Splaying(h', dummy, Link(l, a, x), b, r) && h'.right[x] == b.Root()
  {
    hide Separate, Nodes, Linked, SeparateChain, ChainNodes, LeftChain, RightChain, Last;
    RootLinks(h, x, Branch(a, x, b));
    LinkRightApart(dummy, l, a, x, b, r);
    OpenEnds(dummy, l, a, x, b, r);
    h' := Links(h.left, h.right[Last(l, dummy) := x]);
    LinkedFrame(h, h', h.left[x], a);
    LinkedFrame(h, h', h.right[x], b);
    LeftChainFrame(h, h', l, dummy);
    RightChainFrame(h, h', r, dummy);
    ExtendChains(h', dummy, l, a, x, b, r);
  }

  // ----- assembling -----

  /** The L tree with its open link closed by t. */
  ghost function CloseLeft(c: Chain, t: Tree): Tree {
    match c
    case Start => t
    case Link(rest, sub, x) => CloseLeft(rest, Branch(sub, x, t))
  }

  ghost function CloseRight(c: Chain, t: Tree): Tree {
    match c
    case Start => t
    case Link(rest, sub, x) => CloseRight(rest, Branch(t, x, sub))
  }

  lemma {:induction false} CloseOrder(c: Chain, t: Tree)
    ensures Inorder(CloseLeft(c, t)) == LeftOrder(c) + Inorder(t)
    ensures Inorder(CloseRight(c, t)) == Inorder(t) + RightOrder(c)
  {
    match c
    case Start =>
    case Link(rest, sub, x) =>
      CloseOrder(rest, Branch(sub, x, t));
      CloseOrder(rest, Branch(t, x, sub));
      Regroup(LeftOrder(rest), Inorder(sub), [x], Inorder(t), []);
      Regroup([], Inorder(t), [x], Inorder(sub), RightOrder(rest));
      NoEnds(LeftOrder(rest) + (Inorder(sub) + [x] + Inorder(t)),
             (LeftOrder(rest) + (Inorder(sub) + [x])) + Inorder(t));
      NoEnds(Inorder(t) + [x] + Inorder(sub), Inorder(t));
  }

  lemma NoEnds<T>(p: seq<T>, q: seq<T>)
    ensures p + [] == p && [] + p == p && q + [] == q && [] + q == q
  {
  }

  lemma {:induction false} CloseLeftSeparate(c: Chain, t: Tree)
    requires SeparateChain(c) && Separate(t) && ChainNodes(c) !! Nodes(t)
    ensures Separate(CloseLeft(c, t)) && Nodes(CloseLeft(c, t)) == ChainNodes(c) + Nodes(t)
  {
    match c
    case Start =>
    case Link(rest, sub, x) =>
      assert Separate(Branch(sub, x, t)) && Nodes(Branch(sub, x, t)) == Nodes(sub) + {x} + Nodes(t);
      CloseLeftSeparate(rest, Branch(sub, x, t));
  }

  lemma {:induction false} CloseRightSeparate(c: Chain, t: Tree)
    requires SeparateChain(c) && Separate(t) && ChainNodes(c) !! Nodes(t)
    ensures Separate(CloseRight(c, t)) && Nodes(CloseRight(c, t)) == ChainNodes(c) + Nodes(t)
  {
    match c
    case Start =>
    case Link(rest, sub, x) =>
      assert Separate(Branch(t, x, sub)) && Nodes(Branch(t, x, sub)) == Nodes(sub) + {x} + Nodes(t);
      CloseRightSeparate(rest, Branch(t, x, sub));
  }

  lemma {:induction false} CloseLeftLinked(h: Links, c: Chain, t: Tree, dummy: Node)
    requires LeftChain(h, c, dummy) && h.Covers({Last(c, dummy), dummy}) && Linked(h, h.right[Last(c, dummy)], t)
    ensures Linked(h, h.right[dummy], CloseLeft(c, t))
  {
    match c
    case Start =>
    case Link(rest, sub, x) =>
      CloseLeftLinked(h, rest, Branch(sub, x, t), dummy);
  }

  lemma {:induction false} CloseRightLinked(h: Links, c: Chain, t: Tree, dummy: Node)
    requires RightChain(h, c, dummy) && h.Covers({Last(c, dummy), dummy}) && Linked(h, h.left[Last(c, dummy)], t)
    ensures Linked(h, h.left[dummy], CloseRight(c, t))
  {
    match c
    case Start =>
    case Link(rest, sub, x) =>
      CloseRightLinked(h, rest, Branch(t, x, sub), dummy);
  }

  /** The tree that results when the loop ends at x with children a and b. */
  ghost function Assembled(l: Chain, a: Tree, x: Node, b: Tree, r: Chain): Tree {
    Branch(CloseLeft(l, a), x, CloseRight(r, b))
  }

  /** The parts p of the current subtree with the side trees around them, after n more rounds. */
  ghost function Around(l: Chain, p: Parts, r: Chain, n: nat): Parts {
    Parts(CloseLeft(l, p.left), p.node, CloseRight(r, p.right), p.rounds + n)
  }

  lemma AroundStart(p: Parts)
    ensures Around(Start, p, Start, 0) == p
  {
  }

  /** The last round leaves the current node with its children; any other passes it. */
  lemma AroundRound(l: Chain, t: Tree, r: Chain, key: real, n: nat)
    requires t.Branch?
    ensures
      var u := Turned(t, key);
      && (key < t.node.key ==> key < u.node.key) && (key > t.node.key ==> key > u.node.key)
      && (Stops(u, key) ==> Around(l, Split(t, key), r, n) == Around(l, Parts(u.left, u.node, u.right, 1), r, n))
      && (!Stops(u, key) && key < u.node.key ==>
            Around(l, Split(t, key), r, n) == Around(l, Split(u.left, key), Link(r, u.right, u.node), n + 1))
      && (!Stops(u, key) && key > u.node.key ==>
            Around(l, Split(t, key), r, n) == Around(Link(l, u.left, u.node), Split(u.right, key), r, n + 1))
  {
    SplitRound(t, key);
    hide Split;
  }

  lemma AtKey(t: Tree, key: real)
    requires t.Branch? && key == t.node.key
    ensures Turned(t, key) == t && Stops(t, key)
  {
  }

  lemma AssembledAround(l: Chain, t: Tree, r: Chain, n: nat)
    requires t.Branch? && n > 0
    ensures
      var p := Around(l, Parts(t.left, t.node, t.right, 1), r, n - 1);
      Assembled(l, t.left, t.node, t.right, r) == Branch(p.left, p.node, p.right) && p.rounds == n
  {
  }

  lemma AssembledShape(dummy: Node, l: Chain, a: Tree, x: Node, b: Tree, r: Chain)
    requires Apart(dummy, l, Branch(a, x, b), r)
    ensures
      var t := Assembled(l, a, x, b, r);
      && Separate(t) && dummy !in Nodes(t) && Nodes(t) + {dummy} == All(dummy, l, Branch(a, x, b), r)
      && Nodes(t.left) == ChainNodes(l) + Nodes(a) && Nodes(t.right) == ChainNodes(r) + Nodes(b)
  {
    assert Nodes(Branch(a, x, b)) == Nodes(a) + {x} + Nodes(b);
    CloseLeftSeparate(l, a);
    CloseRightSeparate(r, b);
    hide CloseLeft, CloseRight, ChainNodes, SeparateChain;
    assert Separate(Branch(CloseLeft(l, a), x, CloseRight(r, b)));
  }

  lemma AssembledOrder(l: Chain, a: Tree, x: Node, b: Tree, r: Chain)
    ensures
      var t := Assembled(l, a, x, b, r);
      && Inorder(t) == Order(l, Branch(a, x, b), r)
      && Inorder(t.left) == LeftOrder(l) + Inorder(a) && Inorder(t.right) == Inorder(b) + RightOrder(r)
  {
    CloseOrder(l, a);
    CloseOrder(r, b);
    hide CloseLeft, CloseRight, LeftOrder, RightOrder;
    assert (LeftOrder(l) + Inorder(a)) + [x] + (Inorder(b) + RightOrder(r))
        == LeftOrder(l) + (Inorder(a) + [x] + Inorder(b)) + RightOrder(r);
  }

  /** Closing both side trees with the children of x... */
  lemma AssembleSides(h: Links, dummy: Node, l: Chain, a: Tree, x: Node, b: Tree, r: Chain) returns (h1: Links)
    requires Splaying(h, dummy, l, Branch(a, x, b), r)
    ensures h1 == Links(h.left[Last(r, dummy) := h.right[x]], h.right[Last(l, dummy) := h.left[x]])
    ensures h1.Covers(All(dummy, l, Branch(a, x, b), r))
    ensures Linked(h1, h1.right[dummy], CloseLeft(l, a)) && Linked(h1, h1.left[dummy], CloseRight(r, b))
  {
    hide Separate, Nodes, Linked, SeparateChain, ChainNodes, LeftChain, RightChain, Last;
    RootLinks(h, x, Branch(a, x, b));
    OpenEnds(dummy, l, a, x, b, r);
    h1 := Links(h.left[Last(r, dummy) := h.right[x]], h.right[Last(l, dummy) := h.left[x]]);
    LinkedFrame(h, h1, h.left[x], a);
    LinkedFrame(h, h1, h.right[x], b);
    LeftChainFrame(h, h1, l, dummy);
    RightChainFrame(h, h1, r, dummy);
    CloseLeftLinked(h1, l, a, dummy);
    CloseRightLinked(h1, r, b, dummy);
  }

  /** ... and hanging them below x. */
  lemma Assemble(h1: Links, dummy: Node, l: Chain, a: Tree, x: Node, b: Tree, r: Chain) returns (h2: Links)
    requires Apart(dummy, l, Branch(a, x, b), r) && h1.Covers(All(dummy, l, Branch(a, x, b), r))
    requires Linked(h1, h1.right[dummy], CloseLeft(l, a)) && Linked(h1, h1.left[dummy], CloseRight(r, b))
    ensures h2 == Links(h1.left[x := h1.right[dummy]], h1.right[x := h1.left[dummy]])
    ensures Linked(h2, x, Assembled(l, a, x, b, r))
  {
    h2 := Links(h1.left[x := h1.right[dummy]], h1.right[x := h1.left[dummy]]);
    AssembledShape(dummy, l, a, x, b, r);
    hide ChainNodes, SeparateChain, CloseLeft, CloseRight, Apart, Linked;
    assert Nodes(Assembled(l, a, x, b, r)) <= All(dummy, l, Branch(a, x, b), r);
    HangBelow(h1, h1.right[dummy], CloseLeft(l, a), x, h1.left[dummy], CloseRight(r, b));
  }

  lemma HangBelow(h: Links, m: Node?, u: Tree, x: Node, n: Node?, v: Tree)
    requires Linked(h, m, u) && Linked(h, n, v) && x !in Nodes(u) && x !in Nodes(v)
    requires h.Covers(Nodes(Branch(u, x, v)))
    ensures Linked(Links(h.left[x := m], h.right[x := n]), x, Branch(u, x, v))
  {
    var h' := Links(h.left[x := m], h.right[x := n]);
    LinkedFrame(h, h', m, u);
    LinkedFrame(h, h', n, v);
  }

  // ----- order of keys -----

  ghost predicate Sorted(s: seq<Node>) {
    forall i, j :: 0 <= i < j < |s| ==> s[i].key < s[j].key
  }

  ghost predicate Below(s: seq<Node>, key: real) {
    forall i :: 0 <= i < |s| ==> s[i].key < key
  }

  ghost predicate Above(s: seq<Node>, key: real) {
    forall i :: 0 <= i < |s| ==> key < s[i].key
  }

  lemma SortedBranch(a: Tree, x: Node, b: Tree)
    requires Sorted(Inorder(Branch(a, x, b)))
    ensures Sorted(Inorder(a)) && Sorted(Inorder(b)) && Below(Inorder(a), x.key) && Above(Inorder(b), x.key)
  {
    var s := Inorder(a) + [x] + Inorder(b);
    var n := |Inorder(a)|;
    assert s[n] == x;
    assert forall i :: 0 <= i < n ==> s[i] == Inorder(a)[i];
    assert forall i :: 0 <= i < |Inorder(b)| ==> Inorder(b)[i] == s[n + 1 + i];
  }

  /** The loop invariant: nothing lost, order kept, key between the side trees. */
  ghost predicate Search(key: real, nodes: set<Node>, order: seq<Node>, h: Links, dummy: Node, l: Chain, t: Tree,
                         r: Chain) {
    && Splaying(h, dummy, l, t, r) && All(dummy, l, t, r) == nodes && Order(l, t, r) == order
    && Sorted(Inorder(t)) && Below(LeftOrder(l), key) && Above(RightOrder(r), key)
  }

  lemma SnapshotSame(s: set<Node>, nodes: set<Node>, dummy: Node)
    requires nodes == s + {dummy}
    ensures Snapshot(nodes).Same(Snapshot(s), s) && Snapshot(nodes).Covers({dummy})
  {
  }

  lemma SearchStart(key: real, h: Links, h': Links, n: Node?, t: Tree, dummy: Node)
    requires Linked(h, n, t) && Separate(t) && Sorted(Inorder(t)) && dummy !in Nodes(t)
    requires h'.Same(h, Nodes(t)) && h'.Covers({dummy})
    ensures Search(key, Nodes(t) + {dummy}, Inorder(t), h', dummy, Start, t, Start)
    ensures n == t.Root()
  {
    LinkedFrame(h, h', n, t);
    assert Order(Start, t, Start) == Inorder(t);
  }

  lemma SearchRotateRight(key: real, nodes: set<Node>, order: seq<Node>, h: Links, dummy: Node, l: Chain, t: Tree,
                          r: Chain) returns (h': Links, t': Tree)
    requires Search(key, nodes, order, h, dummy, l, t, r) && t.Branch? && t.left.Branch?
    ensures t' == Branch(t.left.left, t.left.node, Branch(t.left.right, t.node, t.right))
    ensures t.node in h.left && t.left.node in h.right
    ensures h' == Links(h.left[t.node := h.right[t.left.node]], h.right[t.left.node := t.node])
    ensures Search(key, nodes, order, h', dummy, l, t', r)
  {
    hide LeftChain, RightChain, Linked, Separate, SeparateChain, Nodes, ChainNodes, LeftOrder, RightOrder;
    RootLinks(h, t.node, t);
    RootLinks(h, t.left.node, t.left);
    var a, y, b, x, d := t.left.left, t.left.node, t.left.right, t.node, t.right;
    t' := Branch(a, y, Branch(b, x, d));
    h' := RotateRight(h, dummy, l, a, y, b, x, d, r);
    RotateApart(dummy, l, a, y, b, x, d, r);
    RotateOrder(l, a, y, b, x, d, r);
    hide Splaying, All, Order;
    assert Inorder(t') == Inorder(t);
  }

  lemma SearchRotateLeft(key: real, nodes: set<Node>, order: seq<Node>, h: Links, dummy: Node, l: Chain, t: Tree,
                         r: Chain) returns (h': Links, t': Tree)
    requires Search(key, nodes, order, h, dummy, l, t, r) && t.Branch? && t.right.Branch?
    ensures t' == Branch(Branch(t.left, t.node, t.right.left), t.right.node, t.right.right)
    ensures t.node in h.right && t.right.node in h.left
    ensures h' == Links(h.left[t.right.node := t.node], h.right[t.node := h.left[t.right.node]])
    ensures Search(key, nodes, order, h', dummy, l, t', r)
  {
    hide LeftChain, RightChain, Linked, Separate, SeparateChain, Nodes, ChainNodes, LeftOrder, RightOrder;
    RootLinks(h, t.node, t);
    RootLinks(h, t.right.node, t.right);
    var a, x, b, y, d := t.left, t.node, t.right.left, t.right.node, t.right.right;
    t' := Branch(Branch(a, x, b), y, d);
    h' := RotateLeft(h, dummy, l, a, x, b, y, d, r);
    RotateApart(dummy, l, a, x, b, y, d, r);
    RotateOrder(l, a, x, b, y, d, r);
    hide Splaying, All, Order;
    assert Inorder(t') == Inorder(t);
  }

  lemma SearchLinkRight(key: real, nodes: set<Node>, order: seq<Node>, h: Links, dummy: Node, l: Chain, t: Tree,
                        r: Chain) returns (h': Links)
    requires Search(key, nodes, order, h, dummy, l, t, r) && t.Branch? && key < t.node.key
    ensures h' == Links(h.left[Last(r, dummy) := t.node], h.right)
    ensures Search(key, nodes, order, h', dummy, l, t.left, Link(r, t.right, t.node))
    ensures t.node in h'.left && h'.left[t.node] == t.left.Root()
  {
    hide LeftChain, RightChain, Linked, Separate, SeparateChain, Nodes, ChainNodes, LeftOrder;
    RootLinks(h, t.node, t);
    h' := LinkRight(h, dummy, l, t.left, t.node, t.right, r);
    LinkRightApart(dummy, l, t.left, t.node, t.right, r);
    LinkOrder(l, t.left, t.node, t.right, r);
    SortedBranch(t.left, t.node, t.right);
    hide Splaying, All, Order;
    assert RightOrder(Link(r, t.right, t.node)) == ([t.node] + Inorder(t.right)) + RightOrder(r);
  }

  lemma SearchLinkLeft(key: real, nodes: set<Node>, order: seq<Node>, h: Links, dummy: Node, l: Chain, t: Tree,
                       r: Chain) returns (h': Links)
    requires Search(key, nodes, order, h, dummy, l, t, r) && t.Branch? && t.node.key < key
    ensures h' == Links(h.left, h.right[Last(l, dummy) := t.node])
    ensures Search(key, nodes, order, h', dummy, Link(l, t.left, t.node), t.right, r)
    ensures t.node in h'.right && h'.right[t.node] == t.right.Root()
  {
    hide LeftChain, RightChain, Linked, Separate, SeparateChain, Nodes, ChainNodes, RightOrder;
    RootLinks(h, t.node, t);
    h' := LinkLeft(h, dummy, l, t.left, t.node, t.right, r);
    LinkRightApart(dummy, l, t.left, t.node, t.right, r);
    LinkOrder(l, t.left, t.node, t.right, r);
    SortedBranch(t.left, t.node, t.right);
    hide Splaying, All, Order;
    assert LeftOrder(Link(l, t.left, t.node)) == LeftOrder(l) + (Inorder(t.left) + [t.node]);
  }

  /** key is at the root, or would be next to it: it lies between the two subtrees. */
  ghost predicate SplitAt(t: Tree, key: real) {
    t.Branch? && Below(Inorder(t.left), key) && Above(Inorder(t.right), key)
  }

  lemma EndsInside(dummy: Node, l: Chain, t: Tree, r: Chain)
    requires Apart(dummy, l, t, r) && t.Branch?
    ensures {t.node, dummy, Last(l, dummy), Last(r, dummy)} <= All(dummy, l, t, r)
    ensures t.node !in {dummy, Last(l, dummy), Last(r, dummy)}
  {
    hide SeparateChain, Separate;
  }

  lemma SearchDone(key: real, nodes: set<Node>, order: seq<Node>, h: Links, dummy: Node, l: Chain, t: Tree, r: Chain)
    returns (h1: Links, h2: Links, t': Tree)
    requires Search(key, nodes, order, h, dummy, l, t, r) && Stops(t, key)
    ensures t' == Assembled(l, t.left, t.node, t.right, r)
    ensures h.Covers(nodes) && {t.node, dummy, Last(l, dummy), Last(r, dummy)} <= nodes
    ensures t.node !in {dummy, Last(l, dummy), Last(r, dummy)}
    ensures h1 == Links(h.left[Last(r, dummy) := h.right[t.node]], h.right[Last(l, dummy) := h.left[t.node]])
    ensures h2 == Links(h1.left[t.node := h1.right[dummy]], h1.right[t.node := h1.left[dummy]])
    ensures Linked(h2, t.node, t') && Separate(t') && Nodes(t') == nodes - {dummy} && Inorder(t') == order
    ensures SplitAt(t', key)
  {
    hide LeftChain, RightChain, Linked, Separate, SeparateChain, LeftOrder, RightOrder, Nodes, ChainNodes, CloseLeft,
        CloseRight, Last;
    t' := Assembled(l, t.left, t.node, t.right, r);
    AssembledShape(dummy, l, t.left, t.node, t.right, r);
    OpenEnds(dummy, l, t.left, t.node, t.right, r);
    EndsInside(dummy, l, t, r);
    h1 := AssembleSides(h, dummy, l, t.left, t.node, t.right, r);
    h2 := Assemble(h1, dummy, l, t.left, t.node, t.right, r);
    AssembledOrder(l, t.left, t.node, t.right, r);
    SortedBranch(t.left, t.node, t.right);
    assert Below(LeftOrder(l) + Inorder(t.left), key);
    assert Above(Inorder(t.right) + RightOrder(r), key);
  }

  // ----- the tree object -----

  class SplayTree {
    var root: Node?
    ghost var tree: Tree
    ghost var rounds: nat  // of the splay loop, so far

    /** Links match the shape, no sharing, and keys rise strictly from left to right. */
    ghost predicate Valid()
      reads this, Nodes(tree)
    {
      Linked(Snapshot(Nodes(tree)), root, tree) && Separate(tree) && Sorted(Inorder(tree))
    }

    constructor ()
      ensures Valid() && tree == Leaf && rounds == 0
    {
      root := null;
      tree, rounds := Leaf, 0;
    }

    /**
     Brings key, or a neighbour of where it would be, to the root; keeps nodes and order.
     The tree and the number of rounds are those of the recursive form.
     */
    method Splay(key: real)
      requires Valid()
      modifies this, Nodes(tree)
      ensures Valid() && Nodes(tree) == old(Nodes(tree)) && Inorder(tree) == old(Inorder(tree))
      ensures old(root) != null ==> root != null && tree.Branch? && root == tree.node && SplitAt(tree, key)
      ensures tree == Splayed(old(tree), key) && rounds == old(rounds) + Rounds(old(tree), key)
    {
      hide Search, Linked, Separate, Sorted, Inorder, Nodes, Snapshot, SplitAt, Split, Stops, Turned, Around;
      if root == null {
        EmptyTree(Snapshot(Nodes(tree)), tree);
        return;
      }
      ghost var order := Inorder(tree);
      ghost var h0 := Snapshot(Nodes(tree));
      var dummy := new Node(0.0, 0);
      var left, right, current := dummy, dummy, root;
      ghost var nodes := Nodes(tree) + {dummy};
      ghost var l, t, r := Start, tree, Start;
      SnapshotSame(Nodes(tree), nodes, dummy);
      SearchStart(key, h0, Snapshot(nodes), root, tree, dummy);
      RootLinks(h0, root, tree);
      AroundStart(Split(tree, key));
      while true
        invariant nodes == old(Nodes(tree)) + {dummy} && fresh(dummy)
        invariant Search(key, nodes, order, Snapshot(nodes), dummy, l, t, r)
        invariant t.Branch? && current == t.node && left == Last(l, dummy) && right == Last(r, dummy)
        invariant root == old(root) && tree == old(tree) && rounds >= old(rounds)
        invariant Around(l, Split(t, key), r, rounds - old(rounds)) == Split(tree, key)
        decreases t
      {
        AroundRound(l, t, r, key, rounds - old(rounds));
        rounds := rounds + 1;
        if key < current.key {
          var stop;
          stop, current, right, t, r := StepRight(key, current, right, nodes, order, dummy, l, t, r);
          if stop { break; }
        } else if key > current.key {
          var stop;
          stop, current, left, t, l := StepLeft(key, current, left, nodes, order, dummy, l, t, r);
          if stop { break; }
        } else {
          AtKey(t, key);
          break;
        }
      }
      Finish(key, current, left, right, nodes, order, dummy, l, t, r);
      AssembledAround(l, t, r, rounds - old(rounds));
    }

    // ----- operations -----

    /** The ordered map this tree stands for. */
    ghost function Contents(): map<real, int>
      reads this
    {
      Entries(Inorder(tree))
    }

    method Insert(key: real, value: int)
      requires Valid()
      modifies this, Nodes(tree)
      ensures Valid() && forall x :: x in Nodes(tree) ==> x in old(Nodes(tree)) || fresh(x)
      ensures Contents() == if key in old(Contents()) then old(Contents()) else old(Contents())[key := value]
      ensures Size(tree) <= old(Size(tree)) + 1
      ensures rounds + Potential(tree) <= old(rounds + Potential(tree)) + 8 * Log2(old(Size(tree)) + 1) + 1
    {
      hide Entries, Inorder, Linked, Separate, Sorted, Nodes, SplitAt, Size, Potential, Splayed, Rounds, Log2, Grafted;
      if root == null {
        Plant(key, value);
        return;
      }
      SplayCost(tree, key);
      Log2Monotone(Size(tree), Size(tree) + 1);
      Splay(key);
      SplitLookup(tree, key);
      if root.key == key { return; }
      RootInNodes(tree);
      ghost var t := tree;
      Graft(key, value);
      GraftCost(t, root);
    }

    /** The first node. */
    method Plant(key: real, value: int)
      requires Valid() && root == null
      modifies this
      ensures Valid() && root != null && fresh(root) && Nodes(tree) == {root}
      ensures Contents() == old(Contents())[key := value] && old(Contents()) == map[]
      ensures Size(tree) == old(Size(tree)) + 1 && Potential(tree) == old(Potential(tree)) && rounds == old(rounds)
    {
      EmptyTree(Snapshot(Nodes(tree)), tree);
      var n := new Node(key, value);
      root, tree := n, Branch(Leaf, n, Leaf);
      assert Inorder(tree) == [n] && Nodes(tree) == {n};
      LinkedBranch(Snapshot(Nodes(tree)), Leaf, n, Leaf);
      EntriesOne(n);
    }

    /** Makes a new node the root, with the old root on its other side. */
    method Graft(key: real, value: int)
      requires Valid() && root != null && SplitAt(tree, key) && root.key != key
      modifies this, root
      ensures Valid() && root != null && fresh(root) && Nodes(tree) == old(Nodes(tree)) + {root}
      ensures Contents() == old(Contents())[key := value]
      ensures tree == Grafted(old(tree), root) && rounds == old(rounds)
    {
      hide Sorted, Entries, Inorder, Separate, Linked, SplitAt, Nodes, Grafted;
      ghost var t, h := tree, Snapshot(Nodes(tree));
      RootLinks(h, root, t);
      var node := new Node(key, value);
      GraftedShape(t, node);
      InsertedEntries(t.left, t.node, t.right, node);
      if key > root.key {
        node.left := root;
        node.right := root.right;
        root.right := null;
      } else {
        node.right := root;
        node.left := root.left;
        root.left := null;
      }
      tree := Grafted(t, node);
      root := node;
      GraftedLinks(h, Snapshot(Nodes(tree)), t, node);
    }

    method Remove(key: real) returns (removed: Node?)
      requires Valid()
      modifies this, Nodes(tree)
      ensures Valid() && Nodes(tree) <= old(Nodes(tree))
      ensures removed != null <==> key in old(Contents())
      ensures removed != null ==> removed.key == key && removed.value == old(Contents())[key] && removed !in Nodes(tree)
      ensures Contents() == old(Contents()) - {key} && Size(tree) <= old(Size(tree))
      ensures rounds + Potential(tree) <= old(rounds + Potential(tree)) + Allowance(old(Size(tree)))
    {
      hide Entries, Linked, Sorted, SplitAt, Separate, Nodes, Inorder, Size, Potential, Splayed, Rounds, Log2, Unrooted;
      if root == null {
        EmptyTree(Snapshot(Nodes(tree)), tree);
        NoEntries();
        return null;
      }
      SplayCost(tree, key);
      Splay(key);
      UnrootCost(tree, key);
      SplitLookup(tree, key);
      if root.key != key { return null; }
      removed := root;
      RemovedEntries(tree.left, tree.node, tree.right);
      RootLinks(Snapshot(Nodes(tree)), root, tree);
      if root.left == null {
        RemoveOuter(key);
      } else {
        RemoveInner(key);
      }
    }

    /** Removes a root without left child. */
    method RemoveOuter(ghost key: real)
      requires Valid() && root != null && root.left == null
      modifies this
      ensures Valid() && Nodes(tree) == old(Nodes(tree)) - {old(root)}
      ensures Inorder(tree) == old(Inorder(tree.left)) + old(Inorder(tree.right))
      ensures tree == Unrooted(old(tree), key) && rounds == old(rounds) + Rounds(old(tree.left), key)
    {
      ghost var t, h := tree, Snapshot(Nodes(tree));
      RootLinks(h, root, t);
      SubtreeShape(t);
      SortedBranch(t.left, t.node, t.right);
      root, tree := root.right, t.right;
      hide Sorted, Separate, Linked, Nodes;
      LinkedFrame(h, Snapshot(Nodes(tree)), root, tree);
      assert Inorder(t.left) == [];
    }

    /** Removes the root, whose left child exists: splays the left subtree and hangs the right one on it. */
    method RemoveInner(key: real)
      requires Valid() && root != null && root.left != null && root.key == key
      modifies this, Nodes(tree)
      ensures Valid() && Nodes(tree) == old(Nodes(tree)) - {old(root)}
      ensures Inorder(tree) == old(Inorder(tree.left)) + old(Inorder(tree.right))
      ensures tree == Unrooted(old(tree), key) && rounds == old(rounds) + Rounds(old(tree.left), key)
    {
      hide Sorted, Separate, Linked, Nodes, Inorder, SplitAt, Below, Splayed, Rounds;
      ghost var t := tree;
      RootLinks(Snapshot(Nodes(t)), root, t);
      SubtreeShape(t);
      SortedBranch(t.left, t.node, t.right);
      SortedRemoved(t.left, t.node, t.right);
      var right := DropRoot();
      Splay(key);
      NoRightChild(tree, key);
      RootInNodes(tree);
      HangRight(right, t.right);
    }

    /** The left subtree alone; answers the right one. */
    method DropRoot() returns (right: Node?)
      requires Valid() && root != null && root.left != null
      modifies this
      ensures old(tree.Branch?) && root == old(root.left) && tree == old(tree.left) && Valid() && rounds == old(rounds)
      ensures Linked(Snapshot(Nodes(old(tree.right))), right, old(tree.right))
      ensures Separate(old(tree.right)) && Nodes(old(tree.right)) !! Nodes(tree)
    {
      hide Sorted, Separate, Linked, Nodes, Inorder;
      ghost var t, h := tree, Snapshot(Nodes(tree));
      RootLinks(h, root, t);
      SubtreeShape(t);
      SortedBranch(t.left, t.node, t.right);
      right := root.right;
      root, tree := root.left, t.left;
      LinkedFrame(h, Snapshot(Nodes(tree)), root, tree);
      LinkedFrame(h, Snapshot(Nodes(t.right)), right, t.right);
    }

    /** Puts the subtree r, linked below right, in place of the missing right child of the root. */
    method HangRight(right: Node?, ghost r: Tree)
      requires Valid() && root != null && tree.Branch? && tree.right == Leaf
      requires Linked(Snapshot(Nodes(r)), right, r) && Separate(r) && Nodes(r) !! Nodes(tree)
      requires Sorted(Inorder(tree) + Inorder(r))
      modifies this, root
      ensures Valid() && Nodes(tree) == old(Nodes(tree)) + Nodes(r) && Inorder(tree) == old(Inorder(tree)) + Inorder(r)
      ensures tree == Branch(old(tree.left), old(tree.node), r) && rounds == old(rounds)
    {
      hide Sorted, Separate, Inorder, Linked, Nodes;
      ghost var t, h, g := tree, Snapshot(Nodes(tree)), Snapshot(Nodes(r));
      RootLinks(h, root, t);
      HungShape(t, r);
      root.right := right;
      tree := Branch(t.left, t.node, r);
      HungLinks(h, g, Snapshot(Nodes(tree)), t, right, r);
    }

    method Find(key: real) returns (n: Node?)
      requires Valid()
      modifies this, Nodes(tree)
      ensures Valid() && Nodes(tree) == old(Nodes(tree)) && Contents() == old(Contents())
      ensures n != null <==> key in Contents()
      ensures n != null ==> n.key == key && n.value == Contents()[key]
      ensures Size(tree) == old(Size(tree))
      ensures rounds + Potential(tree) <= old(rounds + Potential(tree)) + 6 * Rank(old(tree)) + 1
    {
      hide Size, Potential, Splayed, Rounds, Rank;
      if root == null { return null; }
      SplayCost(tree, key);
      Splay(key);
      SplitLookup(tree, key);
      n := if root.key == key then root else null;
    }

    /** The last node of the subtree t below start. */
    static method FindMax(start: Node, ghost t: Tree) returns (n: Node)
      requires Linked(Snapshot(Nodes(t)), start, t)
      ensures Inorder(t) != [] && n == Inorder(t)[|Inorder(t)| - 1]
    {
      n := start;
      ghost var u := t;
      while n.right != null
        invariant Nodes(u) <= Nodes(t) && Linked(Snapshot(Nodes(u)), n, u)
        invariant Inorder(u) != [] && Inorder(t) != [] && Inorder(u)[|Inorder(u)| - 1] == Inorder(t)[|Inorder(t)| - 1]
        decreases u
      {
        ghost var h := Snapshot(Nodes(u));
        LinkedFrame(h, Snapshot(Nodes(u.right)), n.right, u.right);
        n, u := n.right, u.right;
        assert Inorder(u) != [];
      }
    }

    /** findMax without a start node: the node with the greatest key, null for an empty tree. */
    method Max() returns (n: Node?)
      requires Valid()
      ensures n == null <==> Contents() == map[]
      ensures n != null ==> n.key in Contents() && n.value == Contents()[n.key]
      ensures n != null ==> forall k :: k in Contents() ==> k <= n.key
    {
      hide Entries, Linked, Inorder, Separate, Nodes, Sorted;
      if root == null {
        EmptyTree(Snapshot(Nodes(tree)), tree);
        NoEntries();
        return null;
      }
      n := FindMax(root, tree);
      LastIsGreatest(Inorder(tree));
    }

    /** The stored node with the greatest key below key, if any. */
    method FindGreatestLessThan(key: real) returns (n: Node?)
      requires Valid()
      modifies this, Nodes(tree)
      ensures Valid() && Nodes(tree) == old(Nodes(tree)) && Contents() == old(Contents())
      ensures n == null ==> forall k :: k in Contents() ==> k >= key
      ensures n != null ==> n.key in Contents() && n.value == Contents()[n.key] && IsFloor(Contents(), key, n.key)
      ensures Size(tree) == old(Size(tree))
      ensures rounds + Potential(tree) <= old(rounds + Potential(tree)) + 6 * Rank(old(tree)) + 1
    {
      hide Entries, Linked, Sorted, Separate, Nodes, Inorder, IsFloor, Size, Potential, Splayed, Rounds, Rank;
      if root == null {
        EmptyTree(Snapshot(Nodes(tree)), tree);
        NoEntries();
        return null;
      }
      SplayCost(tree, key);
      Splay(key);
      ghost var h := Snapshot(Nodes(tree));
      RootLinks(h, root, tree);
      if root.key < key {
        n := root;
        FloorAtRoot(tree, key);
      } else if root.left != null {
        SubtreeShape(tree);
        LinkedFrame(h, Snapshot(Nodes(tree.left)), root.left, tree.left);
        n := FindMax(root.left, tree.left);
        FloorBelowRoot(tree, key, n);
      } else {
        n := null;
        NothingBelow(tree, key);
      }
    }

    /** The keys in rising order. */
    method ExportKeys() returns (keys: seq<real>)
      requires Valid()
      ensures forall i, j :: 0 <= i < j < |keys| ==> keys[i] < keys[j]
      ensures forall k :: k in keys <==> k in Contents()
    {
      hide Entries, Linked, Inorder, Separate, Nodes;
      KeysOfEntries(Inorder(tree));
      keys := [];
      if root != null {
        keys := Traverse(root, tree, keys);
      } else {
        EmptyTree(Snapshot(Nodes(tree)), tree);
      }
      assert keys == KeysOf(Inorder(tree));
    }

    static method Traverse(start: Node?, ghost t: Tree, keys0: seq<real>) returns (keys: seq<real>)
      requires Linked(Snapshot(Nodes(t)), start, t)
      ensures keys == keys0 + KeysOf(Inorder(t))
      decreases t
    {
      hide Inorder, Linked, Nodes, KeysOf;
      keys := keys0;
      var current := start;
      ghost var u := t;
      while current != null
        invariant Linked(Snapshot(Nodes(u)), current, u)
        invariant keys + KeysOf(Inorder(u)) == keys0 + KeysOf(Inorder(t))
        invariant u == t || (t decreases to u)
        decreases u
      {
        Descend(current, u);
        KeysOfBranch(u);
        ghost var h := Snapshot(Nodes(u.right));
        if current.left != null {
          keys := Traverse(current.left, u.left, keys);
          assert Snapshot(Nodes(u.right)) == h;
        } else {
          EmptyTree(Snapshot(Nodes(u.left)), u.left);
        }
        keys := keys + [current.key];
        current, u := current.right, u.right;
      }
      EmptyTree(Snapshot(Nodes(u)), u);
      NoKeys();
    }

    /**
     Any sequence of operations answers as the ordered map would, and splays for O(log n) rounds
     each, amortized: m operations on an empty tree for at most m * (10 * log2(m) + 2) in all.
     */
    method Run(ops: seq<Op>) returns (answers: seq<Answer>, ghost maps: seq<map<real, int>>)
      requires Valid()
      modifies this, Nodes(tree)
      ensures Valid() && forall x :: x in Nodes(tree) ==> x in old(Nodes(tree)) || fresh(x)
      ensures |answers| == |ops| && |maps| == |ops| + 1 && maps[0] == old(Contents()) && maps[|ops|] == Contents()
      ensures forall i :: 0 <= i < |ops| ==> Answers(maps[i], ops[i], answers[i], maps[i + 1])
      ensures rounds + Potential(tree) <=
              old(rounds + Potential(tree)) + |ops| * Allowance(old(Size(tree)) + |ops|)
      ensures old(tree) == Leaf ==> rounds <= old(rounds) + |ops| * Allowance(|ops|)
    {
      hide Entries, Linked, Sorted, Separate, Nodes, Inorder, IsFloor, Size, Potential, Allowance;
      ghost var each := Allowance(Size(tree) + |ops|);
      EmptyCost();
      answers, maps := [], [Contents()];
      var i := 0;
      while i < |ops|
        invariant Valid() && forall x :: x in Nodes(tree) ==> x in old(Nodes(tree)) || fresh(x)
        invariant 0 <= i <= |ops| && |answers| == i && |maps| == i + 1 && maps[0] == old(Contents())
        invariant maps[i] == Contents() && Size(tree) <= old(Size(tree)) + i
        invariant rounds + Potential(tree) <= old(rounds + Potential(tree)) + i * each
        invariant forall k :: 0 <= k < i ==> Answers(maps[k], ops[k], answers[k], maps[k + 1])
      {
        AllowanceMonotone(Size(tree) + 1, old(Size(tree)) + |ops|);
        var a := Apply(ops[i]);
        answers := answers + [a];
        maps := maps + [Contents()];
        i := i + 1;
      }
    }

    method Apply(op: Op) returns (a: Answer)
      requires Valid()
      modifies this, Nodes(tree)
      ensures Valid() && forall x :: x in Nodes(tree) ==> x in old(Nodes(tree)) || fresh(x)
      ensures Answers(old(Contents()), op, a, Contents())
      ensures Size(tree) <= old(Size(tree)) + 1
      ensures rounds + Potential(tree) <= old(rounds + Potential(tree)) + Allowance(old(Size(tree)) + 1)
    {
      hide Entries, Linked, Sorted, Separate, Nodes, Inorder, IsFloor, Size, Potential, Log2;
      Log2Monotone(Size(tree), Size(tree) + 1);
      a := Nothing;
      match op
      case Put(k, v) =>
        Insert(k, v);
      case Delete(k) =>
        var n := Remove(k);
        if n != null { a := Entry(n.key, n.value); }
      case Get(k) =>
        var n := Find(k);
        if n != null { a := Entry(n.key, n.value); }
      case GetBelow(k) =>
        var n := FindGreatestLessThan(k);
        if n != null { a := Entry(n.key, n.value); }
    }

    /** One round towards smaller keys: perhaps rotate right, then link right, or stop. */
    static method StepRight(key: real, current: Node, right: Node, ghost nodes: set<Node>, ghost order: seq<Node>,
                            ghost dummy: Node, ghost l: Chain, ghost t: Tree, ghost r: Chain)
      returns (stop: bool, current': Node, right': Node, ghost t': Tree, ghost r': Chain)
      requires Search(key, nodes, order, Snapshot(nodes), dummy, l, t, r)
      requires t.Branch? && current == t.node && right == Last(r, dummy) && key < current.key
      modifies nodes
      ensures Search(key, nodes, order, Snapshot(nodes), dummy, l, t', r')
      ensures t'.Branch? && current' == t'.node && right' == Last(r', dummy)
      ensures stop == Stops(Turned(t, key), key)
      ensures if stop then t' == Turned(t, key) && r' == r else (t decreases to t')
      ensures !stop ==> var u := Turned(t, key); t' == u.left && r' == Link(r, u.right, u.node)
    {
      hide Search, Snapshot;
      stop, current', right', t', r' := true, current, right, t, r;
      ChildrenOf(key, nodes, order, dummy, l, t, r);
      if current.left == null { return; }
      if key < current.left.key {
        current', t' := DoRotateRight(key, current, nodes, order, dummy, l, t, r);
        ChildrenOf(key, nodes, order, dummy, l, t', r);
        if current'.left == null { return; }
      }
      DoLinkRight(key, current', right, nodes, order, dummy, l, t', r);
      right' := current';
      current' := current'.left;
      stop, r', t' := false, Link(r, t'.right, t'.node), t'.left;
    }

    static method DoRotateRight(key: real, current: Node, ghost nodes: set<Node>, ghost order: seq<Node>,
                                ghost dummy: Node, ghost l: Chain, ghost t: Tree, ghost r: Chain)
      returns (tmp: Node, ghost t': Tree)
      requires Search(key, nodes, order, Snapshot(nodes), dummy, l, t, r)
      requires t.Branch? && t.left.Branch? && current == t.node
      modifies nodes
      ensures t'.Branch? && tmp == t.left.node == t'.node && Search(key, nodes, order, Snapshot(nodes), dummy, l, t', r)
      ensures t' == Branch(t.left.left, t.left.node, Branch(t.left.right, t.node, t.right))
    {
      hide Search;
      ChildrenOf(key, nodes, order, dummy, l, t, r);
      ghost var h;
      h, t' := SearchRotateRight(key, nodes, order, Snapshot(nodes), dummy, l, t, r);
      tmp := current.left;
      current.left := tmp.right;
      tmp.right := current;
      assert Snapshot(nodes) == h;
    }

    static method DoLinkRight(key: real, current: Node, right: Node, ghost nodes: set<Node>, ghost order: seq<Node>,
                              ghost dummy: Node, ghost l: Chain, ghost t: Tree, ghost r: Chain)
      requires Search(key, nodes, order, Snapshot(nodes), dummy, l, t, r)
      requires t.Branch? && t.left.Branch? && current == t.node && right == Last(r, dummy) && key < current.key
      modifies nodes
      ensures Search(key, nodes, order, Snapshot(nodes), dummy, l, t.left, Link(r, t.right, t.node))
      ensures current.left == t.left.node
    {
      hide Search, Last;
      ChildrenOf(key, nodes, order, dummy, l, t, r);
      ghost var h := SearchLinkRight(key, nodes, order, Snapshot(nodes), dummy, l, t, r);
      right.left := current;
      assert Snapshot(nodes) == h;
    }

    /** One round towards larger keys: perhaps rotate left, then link left, or stop. */
    static method StepLeft(key: real, current: Node, left: Node, ghost nodes: set<Node>, ghost order: seq<Node>,
                            ghost dummy: Node, ghost l: Chain, ghost t: Tree, ghost r: Chain)
      returns (stop: bool, current': Node, left': Node, ghost t': Tree, ghost l': Chain)
      requires Search(key, nodes, order, Snapshot(nodes), dummy, l, t, r)
      requires t.Branch? && current == t.node && left == Last(l, dummy) && key > current.key
      modifies nodes
      ensures Search(key, nodes, order, Snapshot(nodes), dummy, l', t', r)
      ensures t'.Branch? && current' == t'.node && left' == Last(l', dummy)
      ensures stop == Stops(Turned(t, key), key)
      ensures if stop then t' == Turned(t, key) && l' == l else (t decreases to t')
      ensures !stop ==> var u := Turned(t, key); t' == u.right && l' == Link(l, u.left, u.node)
    {
      hide Search, Snapshot;
      stop, current', left', t', l' := true, current, left, t, l;
      ChildrenOf(key, nodes, order, dummy, l, t, r);
      if current.right == null { return; }
      if key > current.right.key {
        current', t' := DoRotateLeft(key, current, nodes, order, dummy, l, t, r);
        ChildrenOf(key, nodes, order, dummy, l, t', r);
        if current'.right == null { return; }
      }
      DoLinkLeft(key, current', left, nodes, order, dummy, l, t', r);
      left' := current';
      current' := current'.right;
      stop, l', t' := false, Link(l, t'.left, t'.node), t'.right;
    }

    static method DoRotateLeft(key: real, current: Node, ghost nodes: set<Node>, ghost order: seq<Node>,
                                ghost dummy: Node, ghost l: Chain, ghost t: Tree, ghost r: Chain)
      returns (tmp: Node, ghost t': Tree)
      requires Search(key, nodes, order, Snapshot(nodes), dummy, l, t, r)
      requires t.Branch? && t.right.Branch? && current == t.node
      modifies nodes
      ensures t'.Branch? && tmp == t.right.node == t'.node
      ensures Search(key, nodes, order, Snapshot(nodes), dummy, l, t', r)
      ensures t' == Branch(Branch(t.left, t.node, t.right.left), t.right.node, t.right.right)
    {
      hide Search;
      ChildrenOf(key, nodes, order, dummy, l, t, r);
      ghost var h;
      h, t' := SearchRotateLeft(key, nodes, order, Snapshot(nodes), dummy, l, t, r);
      tmp := current.right;
      current.right := tmp.left;
      tmp.left := current;
      assert Snapshot(nodes) == h;
    }

    static method DoLinkLeft(key: real, current: Node, left: Node, ghost nodes: set<Node>, ghost order: seq<Node>,
                              ghost dummy: Node, ghost l: Chain, ghost t: Tree, ghost r: Chain)
      requires Search(key, nodes, order, Snapshot(nodes), dummy, l, t, r)
      requires t.Branch? && t.right.Branch? && current == t.node && left == Last(l, dummy) && key > current.key
      modifies nodes
      ensures Search(key, nodes, order, Snapshot(nodes), dummy, Link(l, t.left, t.node), t.right, r)
      ensures current.right == t.right.node
    {
      hide Search, Last;
      ChildrenOf(key, nodes, order, dummy, l, t, r);
      ghost var h := SearchLinkLeft(key, nodes, order, Snapshot(nodes), dummy, l, t, r);
      left.right := current;
      assert Snapshot(nodes) == h;
    }

    /** The assembly after the loop. */
    method Finish(key: real, current: Node, left: Node, right: Node, ghost nodes: set<Node>, ghost order: seq<Node>,
                  dummy: Node, ghost l: Chain, ghost t: Tree, ghost r: Chain)
      requires Search(key, nodes, order, Snapshot(nodes), dummy, l, t, r) && Stops(t, key)
      requires current == t.node && left == Last(l, dummy) && right == Last(r, dummy) && Sorted(order)
      modifies this, nodes
      ensures Valid() && root != null && tree.Branch? && root == tree.node
      ensures Nodes(tree) == nodes - {dummy} && Inorder(tree) == order && SplitAt(tree, key)
      ensures tree == Assembled(l, t.left, t.node, t.right, r) && rounds == old(rounds)
    {
      hide Search, Linked, Separate, SplitAt, Sorted, Nodes, Inorder, Last;
      ghost var h := Snapshot(nodes);
      ghost var h1, h2, t' := SearchDone(key, nodes, order, h, dummy, l, t, r);
      Relink(current, left, right, dummy, nodes, h, h1, h2);
      root := current;
      tree := t';
      LinkedFrame(h2, Snapshot(Nodes(tree)), root, tree);
    }

    static method Relink(current: Node, left: Node, right: Node, dummy: Node, ghost nodes: set<Node>,
                         ghost h: Links, ghost h1: Links, ghost h2: Links)
      requires {current, dummy, left, right} <= nodes && current !in {dummy, left, right} && h == Snapshot(nodes)
      requires h1 == Links(h.left[right := h.right[current]], h.right[left := h.left[current]])
      requires h2 == Links(h1.left[current := h1.right[dummy]], h1.right[current := h1.left[dummy]])
      modifies nodes
      ensures forall x :: x in nodes ==> x.left == h2.left[x] && x.right == h2.right[x]
    {
      left.right := current.left;
      right.left := current.right;
      assert forall x :: x in nodes ==> x.left == h1.left[x] && x.right == h1.right[x];
      current.left := dummy.right;
      current.right := dummy.left;
    }
  }

  /** The links of the current node lead to the roots of its subtrees. */
  lemma ChildrenOf(key: real, nodes: set<Node>, order: seq<Node>, dummy: Node, l: Chain, t: Tree, r: Chain)
    requires Search(key, nodes, order, Snapshot(nodes), dummy, l, t, r) && t.Branch?
    ensures {t.node, dummy, Last(l, dummy), Last(r, dummy)} <= nodes && t.node != dummy
    ensures t.node.left == t.left.Root() && t.node.right == t.right.Root()
    ensures t.left.Branch? ==> t.left.node in nodes
    ensures t.right.Branch? ==> t.right.node in nodes
  {
    hide LeftChain, RightChain, Separate, SeparateChain, Inorder, LeftOrder, RightOrder, Sorted, Below, Above;
    var h := Snapshot(nodes);
    assert Linked(h, h.left[t.node], t.left) && Linked(h, h.right[t.node], t.right);
  }

  // ----- the ordered map it refines -----

  datatype Op = Put(key: real, value: int) | Delete(key: real) | Get(key: real) | GetBelow(key: real)

  /** The node handed back, or nothing (for Delete, the exception for a missing key). */
  datatype Answer = Nothing | Entry(key: real, value: int)

  ghost predicate Answers(m: map<real, int>, op: Op, a: Answer, m': map<real, int>) {
    match op
    case Put(k, v) => a == Nothing && m' == if k in m then m else m[k := v]
    case Delete(k) => m' == m - {k} && a == if k in m then Entry(k, m[k]) else Nothing
    case Get(k) => m' == m && a == if k in m then Entry(k, m[k]) else Nothing
    case GetBelow(k) =>
      && m' == m
      && (a.Nothing? ==> forall q :: q in m ==> q >= k)
      && (a.Entry? ==> a.key in m && a.value == m[a.key] && IsFloor(m, k, a.key))
  }

  // ----- what a sequence of nodes maps to -----

  ghost function Entries(s: seq<Node>): map<real, int> {
    if s == [] then map[] else Entries(s[..|s| - 1])[s[|s| - 1].key := s[|s| - 1].value]
  }

  lemma EmptyCost()
    ensures Size(Leaf) == 0 && Potential(Leaf) == 0
  {
  }

  lemma NoEntries()
    ensures Entries([]) == map[]
  {
  }

  /** The last of sorted nodes has the greatest key. */
  lemma LastIsGreatest(s: seq<Node>)
    requires Sorted(s) && s != []
    ensures
      var n, m := s[|s| - 1], Entries(s);
      n.key in m && m[n.key] == n.value && forall k :: k in m ==> k <= n.key
  {
    var n := s[|s| - 1];
    forall k | k in Entries(s) ensures k <= n.key {
      EntriesKeys(s, k);
    }
  }

  lemma EntriesOne(n: Node)
    ensures Entries([n]) == map[n.key := n.value]
  {
    assert [n][..0] == [];
  }

  lemma {:induction false} EntriesConcat(a: seq<Node>, b: seq<Node>)
    ensures Entries(a + b) == Entries(a) + Entries(b)
  {
    if b == [] {
      assert a + b == a;
    } else {
      var n := |b| - 1;
      EntriesConcat(a, b[..n]);
      assert (a + b)[..|a + b| - 1] == a + b[..n];
    }
  }

  lemma {:induction false} EntriesKeys(s: seq<Node>, k: real)
    ensures k in Entries(s) <==> exists i :: 0 <= i < |s| && s[i].key == k
  {
    if s != [] {
      var n := |s| - 1;
      EntriesKeys(s[..n], k);
      assert forall i :: 0 <= i < n ==> s[..n][i] == s[i];
    }
  }

  /** After a splay, key is stored exactly if it is at the root. */
  lemma SplitLookup(t: Tree, key: real)
    requires SplitAt(t, key)
    ensures key !in Entries(Inorder(t.left)) && key !in Entries(Inorder(t.right))
    ensures key in Entries(Inorder(t)) <==> t.node.key == key
    ensures t.node.key == key ==> Entries(Inorder(t))[key] == t.node.value
    ensures Entries(Inorder(t)) == Entries(Inorder(t.left))[t.node.key := t.node.value] + Entries(Inorder(t.right))
  {
    EntriesKeys(Inorder(t.left), key);
    EntriesKeys(Inorder(t.right), key);
    EntriesConcat(Inorder(t.left), [t.node]);
    EntriesConcat(Inorder(t.left) + [t.node], Inorder(t.right));
    EntriesOne(t.node);
  }

  lemma GraftedShape(t: Tree, n: Node)
    requires t.Branch? && Separate(t) && n !in Nodes(t)
    ensures Separate(Grafted(t, n)) && Nodes(Grafted(t, n)) == Nodes(t) + {n} && t.node in Nodes(t)
  {
    assert Nodes(Branch(t.left, t.node, Leaf)) == Nodes(t.left) + {t.node};
    assert Nodes(Branch(Leaf, t.node, t.right)) == Nodes(t.right) + {t.node};
  }

  lemma GraftedLinks(h: Links, h': Links, t: Tree, n: Node)
    requires t.Branch? && Linked(h, t.node, t) && Separate(t) && h'.Same(h, Nodes(t) - {t.node})
    requires h'.Covers({t.node, n})
    requires n.key > t.node.key ==>
               h'.left[n] == t.node && h'.right[n] == h.right[t.node] && h'.left[t.node] == h.left[t.node]
                   && h'.right[t.node] == null
    requires n.key <= t.node.key ==>
               h'.right[n] == t.node && h'.left[n] == h.left[t.node] && h'.right[t.node] == h.right[t.node]
                   && h'.left[t.node] == null
    ensures Linked(h', n, Grafted(t, n))
  {
    var l, x, r := t.left, t.node, t.right;
    SubtreeShape(t);
    RootLinks(h, x, t);
    hide Nodes, Separate, Linked;
    LinkedFrame(h, h', h.left[x], l);
    LinkedFrame(h, h', h.right[x], r);
    LinkedLeaf(h');
    if n.key > x.key {
      LinkedBranch(h', l, x, Leaf);
      LinkedBranch(h', Branch(l, x, Leaf), n, r);
    } else {
      LinkedBranch(h', Leaf, x, r);
      LinkedBranch(h', l, n, Branch(Leaf, x, r));
    }
  }

  /** The new node goes between the root and the subtree on its side. */
  lemma InsertedEntries(l: Tree, x: Node, r: Tree, n: Node)
    requires SplitAt(Branch(l, x, r), n.key) && x.key != n.key && Sorted(Inorder(Branch(l, x, r)))
    ensures
      var t := Grafted(Branch(l, x, r), n);
      Sorted(Inorder(t)) && Entries(Inorder(t)) == Entries(Inorder(Branch(l, x, r)))[n.key := n.value]
  {
    hide Sorted, Entries;
    SortedBranch(l, x, r);
    var a, b := Inorder(l), Inorder(r);
    assert Inorder(Leaf) == [];
    if n.key > x.key {
      assert Inorder(Branch(l, x, Leaf)) == a + [x];
      assert Inorder(Branch(Branch(l, x, Leaf), n, r)) == (a + [x]) + [n] + b;
      InsertedSeq(a + [x], n, b);
    } else {
      assert Inorder(Branch(Leaf, x, r)) == [x] + b;
      assert Inorder(Branch(l, n, Branch(Leaf, x, r))) == a + [n] + ([x] + b);
      assert a + [x] + b == a + ([x] + b);
      InsertedSeq(a, n, [x] + b);
    }
  }

  lemma InsertedSeq(a: seq<Node>, n: Node, b: seq<Node>)
    requires Sorted(a + b) && Below(a, n.key) && Above(b, n.key)
    ensures Sorted(a + [n] + b) && Entries(a + [n] + b) == Entries(a + b)[n.key := n.value]
  {
    InsertedSorted(a, n, b);
    EntriesConcat(a, b);
    EntriesConcat(a, [n]);
    EntriesConcat(a + [n], b);
    EntriesOne(n);
    EntriesKeys(b, n.key);
  }

  lemma InsertedSorted(a: seq<Node>, n: Node, b: seq<Node>)
    requires Sorted(a + b) && Below(a, n.key) && Above(b, n.key)
    ensures Sorted(a + [n] + b)
  {
    var s, u := a + [n] + b, a + b;
    forall i, j | 0 <= i < j < |s| ensures s[i].key < s[j].key {
      if i != |a| && j != |a| {
        var i', j' := if i < |a| then i else i - 1, if j < |a| then j else j - 1;
        assert s[i] == u[i'] && s[j] == u[j'];
      }
    }
  }

  lemma SortedRemoved(l: Tree, x: Node, r: Tree)
    requires Sorted(Inorder(Branch(l, x, r)))
    ensures Sorted(Inorder(l) + Inorder(r))
  {
    var a, b := Inorder(l), Inorder(r);
    var s, u := a + [x] + b, a + b;
    forall i, j | 0 <= i < j < |u| ensures u[i].key < u[j].key {
      var i', j' := if i < |a| then i else i + 1, if j < |a| then j else j + 1;
      assert u[i] == s[i'] && u[j] == s[j'];
    }
  }

  lemma RemovedEntries(l: Tree, x: Node, r: Tree)
    requires Sorted(Inorder(Branch(l, x, r)))
    ensures Sorted(Inorder(l) + Inorder(r))
    ensures Entries(Inorder(l) + Inorder(r)) == Entries(Inorder(Branch(l, x, r))) - {x.key}
  {
    SortedBranch(l, x, r);
    SortedRemoved(l, x, r);
    InsertedSeq(Inorder(l), x, Inorder(r));
    EntriesConcat(Inorder(l), Inorder(r));
    EntriesKeys(Inorder(l), x.key);
    EntriesKeys(Inorder(r), x.key);
  }

  /** When every key is below the splayed one, the new root has no right child. */
  lemma NoRightChild(t: Tree, key: real)
    requires SplitAt(t, key) && Below(Inorder(t), key)
    ensures t.right == Leaf
  {
    RightPart(t);
    BelowNotAbove(Inorder(t.right), key);
    InorderEmpty(t.right);
  }

  lemma BelowNotAbove(s: seq<Node>, key: real)
    ensures Below(s, key) && Above(s, key) ==> s == []
  {
    if s != [] && Below(s, key) { assert s[0].key < key; }
  }

  lemma RightPart(t: Tree)
    requires t.Branch?
    ensures |Inorder(t)| == |Inorder(t.left)| + 1 + |Inorder(t.right)|
    ensures forall i :: 0 <= i < |Inorder(t.right)| ==> Inorder(t.right)[i] == Inorder(t)[|Inorder(t.left)| + 1 + i]
  {
  }

  lemma InorderEmpty(t: Tree)
    ensures Inorder(t) == [] <==> t.Leaf?
  {
  }

  lemma RootLinks(h: Links, n: Node?, t: Tree)
    requires Linked(h, n, t) && n != null
    ensures t.Branch? && n == t.node && h.Covers({n})
    ensures h.left[n] == t.left.Root() && h.right[n] == t.right.Root()
    ensures Linked(h, h.left[n], t.left) && Linked(h, h.right[n], t.right)
  {
  }

  lemma EmptyTree(h: Links, t: Tree)
    requires Linked(h, null, t)
    ensures t == Leaf && Inorder(t) == []
  {
  }

  /** Both children of n are linked as the subtrees of t. */
  lemma Descend(n: Node, t: Tree)
    requires Linked(Snapshot(Nodes(t)), n, t)
    ensures t.Branch? && n == t.node
    ensures Linked(Snapshot(Nodes(t.left)), n.left, t.left) && Linked(Snapshot(Nodes(t.right)), n.right, t.right)
  {
    var h := Snapshot(Nodes(t));
    RootLinks(h, n, t);
    SubtreeNodes(t);
    hide Linked;
    LinkedFrame(h, Snapshot(Nodes(t.left)), n.left, t.left);
    LinkedFrame(h, Snapshot(Nodes(t.right)), n.right, t.right);
  }

  lemma SubtreeNodes(t: Tree)
    requires t.Branch?
    ensures Nodes(t.left) <= Nodes(t) && Nodes(t.right) <= Nodes(t)
  {
  }

  lemma RootInNodes(t: Tree)
    requires t.Branch?
    ensures t.node in Nodes(t)
  {
  }

  lemma SubtreeShape(t: Tree)
    requires t.Branch? && Separate(t)
    ensures Separate(t.left) && Separate(t.right) && Nodes(t.left) !! Nodes(t.right)
    ensures t.node !in Nodes(t.left) && t.node !in Nodes(t.right)
    ensures Nodes(t) == Nodes(t.left) + Nodes(t.right) + {t.node}
  {
  }

  lemma HungShape(t: Tree, r: Tree)
    requires t.Branch? && t.right == Leaf && Separate(t) && Separate(r) && Nodes(r) !! Nodes(t)
    ensures
      var u := Branch(t.left, t.node, r);
      Separate(u) && Nodes(u) == Nodes(t) + Nodes(r) && Inorder(u) == Inorder(t) + Inorder(r) && t.node in Nodes(t)
  {
  }

  lemma HungLinks(h: Links, g: Links, h': Links, t: Tree, right: Node?, r: Tree)
    requires t.Branch? && Linked(h, t.node, t) && Separate(t) && Linked(g, right, r)
    requires h'.Same(h, Nodes(t) - {t.node}) && h'.Same(g, Nodes(r)) && h'.Covers({t.node})
    requires h'.left[t.node] == h.left[t.node] && h'.right[t.node] == right
    ensures Linked(h', t.node, Branch(t.left, t.node, r))
  {
    hide Nodes, Separate, Linked;
    SubtreeShape(t);
    RootLinks(h, t.node, t);
    LinkedFrame(h, h', h.left[t.node], t.left);
    LinkedFrame(g, h', right, r);
    LinkedBranch(h', t.left, t.node, r);
  }

  lemma LinkedLeaf(h: Links)
    ensures Linked(h, null, Leaf)
  {
  }

  lemma LinkedBranch(h: Links, l: Tree, x: Node, r: Tree)
    requires h.Covers({x}) && Linked(h, h.left[x], l) && Linked(h, h.right[x], r)
    ensures Linked(h, x, Branch(l, x, r))
  {
  }

  /** k is the greatest key of m below key. */
  ghost predicate IsFloor(m: map<real, int>, key: real, k: real) {
    k < key && k in m && forall q :: q in m && q < key ==> q <= k
  }

  lemma SortedMiddle(a: seq<Node>, n: Node, b: seq<Node>)
    requires Sorted(a + [n] + b)
    ensures Below(a, n.key) && Above(b, n.key)
  {
    var s := a + [n] + b;
    assert s[|a|] == n && forall i :: 0 <= i < |a| ==> a[i] == s[i];
    assert forall i :: 0 <= i < |b| ==> b[i] == s[|a| + 1 + i];
  }

  lemma Floor(a: seq<Node>, n: Node, b: seq<Node>, key: real)
    requires Sorted(a + [n] + b) && n.key < key && forall i :: 0 <= i < |b| ==> key <= b[i].key
    ensures
      var m := Entries(a + [n] + b);
      n.key in m && m[n.key] == n.value && IsFloor(m, key, n.key)
  {
    SortedMiddle(a, n, b);
    hide Entries, Sorted;
    var s := a + [n] + b;
    EntriesConcat(a, [n]);
    EntriesConcat(a + [n], b);
    EntriesOne(n);
    EntriesKeys(b, n.key);
    forall k | k in Entries(s) && k < key ensures k <= n.key {
      EntriesKeys(a, k);
      EntriesKeys(b, k);
    }
  }

  lemma FloorAtRoot(t: Tree, key: real)
    requires SplitAt(t, key) && Sorted(Inorder(t)) && t.node.key < key
    ensures
      var m := Entries(Inorder(t));
      t.node.key in m && m[t.node.key] == t.node.value && IsFloor(m, key, t.node.key)
  {
    Floor(Inorder(t.left), t.node, Inorder(t.right), key);
  }

  lemma LastApart(s: seq<Node>, x: Node, r: seq<Node>)
    requires s != []
    ensures s + [x] + r == s[..|s| - 1] + [s[|s| - 1]] + ([x] + r)
  {
  }

  lemma FloorBelowRoot(t: Tree, key: real, n: Node)
    requires SplitAt(t, key) && Sorted(Inorder(t)) && t.node.key >= key
    requires Inorder(t.left) != [] && n == Inorder(t.left)[|Inorder(t.left)| - 1]
    ensures
      var m := Entries(Inorder(t));
      n.key in m && m[n.key] == n.value && IsFloor(m, key, n.key)
  {
    hide Entries, IsFloor, Sorted;
    var s, r := Inorder(t.left), Inorder(t.right);
    assert Inorder(t) == s + [t.node] + r;
    hide Inorder;
    LastApart(s, t.node, r);
    Floor(s[..|s| - 1], n, [t.node] + r, key);
  }

  lemma NothingBelow(t: Tree, key: real)
    requires SplitAt(t, key) && t.left == Leaf && t.node.key >= key
    ensures forall k :: k in Entries(Inorder(t)) ==> k >= key
  {
    hide Entries;
    var r := Inorder(t.right);
    assert Inorder(t) == [t.node] + r;
    EntriesConcat([t.node], r);
    EntriesOne(t.node);
    forall k | k in Entries(r) ensures k >= key { EntriesKeys(r, k); }
  }

  ghost function KeysOf(s: seq<Node>): (r: seq<real>)
    ensures |r| == |s| && forall i :: 0 <= i < |s| ==> r[i] == s[i].key
  {
    seq(|s|, i requires 0 <= i < |s| => s[i].key)
  }

  lemma NoKeys()
    ensures KeysOf([]) == []
  {
  }

  lemma KeysOfBranch(t: Tree)
    requires t.Branch?
    ensures KeysOf(Inorder(t)) == KeysOf(Inorder(t.left)) + [t.node.key] + KeysOf(Inorder(t.right))
    ensures KeysOf([]) == []
  {
    var a, b := Inorder(t.left), Inorder(t.right);
    assert Inorder(t) == a + [t.node] + b;
    hide Inorder;
    assert KeysOf(a + [t.node] + b) == KeysOf(a) + [t.node.key] + KeysOf(b);
  }

  lemma KeysOfEntries(s: seq<Node>)
    ensures forall k :: k in KeysOf(s) <==> k in Entries(s)
  {
    forall k ensures k in KeysOf(s) <==> k in Entries(s) { EntriesKeys(s, k); }
  }
}
