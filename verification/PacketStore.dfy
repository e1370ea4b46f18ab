/**
 The packets of the Richards scheduler in memory (demo/v8_benchmark.js, 782-825): work lists are
 linked through the packets, and every packet is in one list, in one device's slot, or loose, that
 is, in the hands of the running task.
 */
module PacketStore {
  import opened Options
  import opened RichardsScheduler

  class PacketNode {
    var link: PacketNode?
    const serial: nat
    var id: nat
    const kind: Kind
    var a1: int
    var a2: seq<int>

    constructor (link: PacketNode?, p: Packet)
      ensures this.link == link && Value() == p
    {
      this.link := link;
      serial, id, kind, a1, a2 := p.serial, p.id, p.kind, p.a1, p.a2;
    }

    function Value(): Packet
      reads this`id, this`a1, this`a2
    {
      Packet(serial, id, kind, a1, a2)
    }

    /** Puts this packet at the end of a list and answers the list. */
    method AddTo(queue: PacketNode?, ghost nodes: seq<PacketNode>) returns (head: PacketNode)
      requires IsList(queue, nodes) && this !in nodes
      modifies this`link, nodes`link
      ensures IsList(head, nodes + [this])
      ensures forall n :: n in nodes && n != nodes[|nodes| - 1] ==> n.link == old(n.link)
    {
      hide Links;
      this.link := null;
      ghost var links := Links(nodes);
      if queue == null {
        assert Links([this]) == [null];
        return this;
      }
      var next: PacketNode := queue;
      ghost var i := 0;
      while next.link != null
        invariant i < |nodes| && next == nodes[i]
        modifies {}
        decreases |nodes| - i
      {
        next := next.link;
        i := i + 1;
      }
      next.link := this;
      assert Links(nodes + [this]) == links[i := this] + [null];
      SnocLinked(queue, nodes, links, this);
      return queue;
    }
  }

  function After(nodes: seq<PacketNode>, i: nat): PacketNode? {
    if i + 1 < |nodes| then nodes[i + 1] else null
  }

  ghost function Links(nodes: seq<PacketNode>): (r: seq<PacketNode?>)
    reads nodes`link
    ensures |r| == |nodes| && forall j :: 0 <= j < |r| ==> r[j] == nodes[j].link
  {
    if nodes == [] then [] else [nodes[0].link] + Links(nodes[1..])
  }

  /** nodes, which link to links, are the members of the list that starts at head, in order, none twice. */
  ghost predicate Linked(head: PacketNode?, nodes: seq<PacketNode>, links: seq<PacketNode?>) {
    && (head == null <==> nodes == [])
    && (nodes != [] ==> head == nodes[0])
    && |links| == |nodes| && (forall i :: 0 <= i < |nodes| ==> links[i] == After(nodes, i))
    && (forall i, j :: 0 <= i < j < |nodes| ==> nodes[i] != nodes[j])
  }

  lemma SnocLinked(head: PacketNode, nodes: seq<PacketNode>, links: seq<PacketNode?>, p: PacketNode)
    requires Linked(head, nodes, links) && p !in nodes
    ensures Linked(head, nodes + [p], links[|nodes| - 1 := p] + [null])
  {
  }

  ghost predicate IsList(head: PacketNode?, nodes: seq<PacketNode>)
    reads nodes`link
  {
    Linked(head, nodes, Links(nodes))
  }

  ghost function Values(nodes: seq<PacketNode>): (r: seq<Packet>)
    reads nodes`id, nodes`a1, nodes`a2
    ensures |r| == |nodes| && forall j :: 0 <= j < |r| ==> r[j] == nodes[j].Value()
  {
    if nodes == [] then [] else [nodes[0].Value()] + Values(nodes[1..])
  }

  /** A list without its first packet, and with one more. */
  lemma TailIsList(head: PacketNode, nodes: seq<PacketNode>)
    requires IsList(head, nodes)
    ensures nodes != [] && head == nodes[0] && head !in nodes[1..] && IsList(head.link, nodes[1..])
    ensures Values(nodes[1..]) == Values(nodes)[1..]
  {
    hide Links, Values;
    TailLinked(head, nodes, Links(nodes));
    assert Links(nodes[1..]) == Links(nodes)[1..];
    assert Values(nodes[1..]) == Values(nodes)[1..];
  }

  lemma TailLinked(head: PacketNode, nodes: seq<PacketNode>, links: seq<PacketNode?>)
    requires Linked(head, nodes, links)
    ensures nodes != [] && head == nodes[0] && head !in nodes[1..] && Linked(links[0], nodes[1..], links[1..])
  {
    forall i | 0 <= i < |nodes| - 1 ensures links[1..][i] == After(nodes[1..], i) {
      assert links[i + 1] == After(nodes, i + 1);
    }
    forall i | 0 <= i < |nodes| - 1 ensures nodes[1..][i] != head { assert nodes[1..][i] == nodes[i + 1]; }
    assert links[0] == After(nodes, 0);
  }

  lemma EmptyIsList()
    ensures IsList(null, []) && Values([]) == []
  {
  }

  lemma ConsIsList(n: PacketNode, nodes: seq<PacketNode>)
    requires IsList(n.link, nodes) && n !in nodes
    ensures IsList(n, [n] + nodes) && Values([n] + nodes) == [n.Value()] + Values(nodes)
  {
  }

  lemma ValuesSnoc(nodes: seq<PacketNode>, p: PacketNode)
    ensures Values(nodes + [p]) == Values(nodes) + [p.Value()]
  {
  }

  function ValueOf(p: PacketNode?): Option<Packet>
    reads if p == null then {} else {p}
  {
    if p == null then None else Some(p.Value())
  }

  datatype Place = Loose | Listed(i: nat) | Slotted(k: nat)

  /** Lists and slots, and where every packet is. */
  class Store {
    var heads: seq<PacketNode?>
    var slots: seq<PacketNode?>
    ghost var nodes: seq<seq<PacketNode>>
    ghost var place: map<PacketNode, Place>

    ghost predicate ListOk(i: nat)
      requires i < |heads| == |nodes|
      reads this, place.Keys
    {
      && (forall n :: n in nodes[i] ==> n in place && place[n] == Listed(i))
      && IsList(heads[i], nodes[i])
    }

    ghost predicate SlotOk(k: nat)
      requires k < |slots|
      reads this
    {
      var n := slots[k];
      n != null ==> n in place && place[n] == Slotted(k)
    }

    /** A packet is where place says. */
    ghost predicate PlaceOk(n: PacketNode)
      requires n in place && |heads| == |nodes|
      reads this
    {
      match place[n]
      case Loose => true
      case Listed(i) => i < |nodes| && n in nodes[i]
      case Slotted(k) => k < |slots| && slots[k] == n
    }

    ghost predicate Valid()
      reads this, place.Keys
    {
      && |heads| == |nodes|
      && (forall i :: 0 <= i < |nodes| ==> ListOk(i))
      && (forall k :: 0 <= k < |slots| ==> SlotOk(k))
      && (forall n :: n in place ==> PlaceOk(n))
    }

    /** What the first m lists hold. */
    ghost function ListsUpTo(m: nat): (r: seq<seq<Packet>>)
      requires Valid() && m <= |nodes|
      reads this, place.Keys
      ensures |r| == m && forall i :: 0 <= i < m ==> r[i] == Values(nodes[i])
    {
      if m == 0 then []
      else
        assert ListOk(m - 1);
        ListsUpTo(m - 1) + [Values(nodes[m - 1])]
    }

    ghost function Lists(): (r: seq<seq<Packet>>)
      requires Valid()
      reads this, place.Keys
      ensures |r| == |heads|
    {
      ListsUpTo(|nodes|)
    }

    /** What the first m slots hold. */
    ghost function SlotsUpTo(m: nat): (r: seq<Option<Packet>>)
      requires Valid() && m <= |slots|
      reads this, place.Keys
      ensures |r| == m && forall k :: 0 <= k < m ==> r[k] == ValueOf(slots[k])
    {
      if m == 0 then []
      else
        assert SlotOk(m - 1);
        SlotsUpTo(m - 1) + [ValueOf(slots[m - 1])]
    }

    ghost function Slots(): (r: seq<Option<Packet>>)
      requires Valid()
      reads this, place.Keys
      ensures |r| == |slots|
    {
      SlotsUpTo(|slots|)
    }

    ghost predicate IsLoose(p: PacketNode)
      reads this
    {
      p in place && place[p] == Loose
    }

    /** No packet is loose, but perhaps p. */
    ghost predicate SettledBut(p: PacketNode?)
      reads this
    {
      forall n :: n in place && n != p ==> place[n] != Loose
    }

    ghost predicate Settled()
      reads this
    {
      SettledBut(null)
    }

    /** A list is empty exactly when its head is null. */
    lemma HeadTells(i: nat)
      requires Valid() && i < |heads|
      ensures heads[i] == null <==> Lists()[i] == []
      ensures heads[i] != null ==>
                heads[i] in place && place[heads[i]] == Listed(i) && heads[i].Value() == Lists()[i][0]
    {
      assert ListOk(i);
    }

    lemma SlotTells(k: nat)
      requires Valid() && k < |slots|
      ensures slots[k] == null <==> Slots()[k].None?
    {
    }

    constructor ()
      ensures Valid() && heads == [] && slots == [] && place == map[] && Lists() == [] && Slots() == []
    {
      heads, slots, nodes, place := [], [], [], map[];
    }

    /** Three more empty lists and an empty slot. */
    method AddRow()
      requires Valid()
      modifies this
      ensures Valid() && place == old(place)
      ensures |heads| == old(|heads|) + 3 && |slots| == old(|slots|) + 1
      ensures Lists() == old(Lists()) + [[], [], []] && Slots() == old(Slots()) + [None]
    {
      hide IsList, Values;
      EmptyIsList();
      heads, nodes, slots := heads + [null, null, null], nodes + [[], [], []], slots + [null];
      forall i | 0 <= i < |nodes| ensures ListOk(i) { assert i < old(|nodes|) ==> old(ListOk(i)); }
      forall k | 0 <= k < |slots| ensures SlotOk(k) { assert k < old(|slots|) ==> old(SlotOk(k)); }
      forall n | n in place ensures PlaceOk(n) { assert old(PlaceOk(n)); }
    }

    /** A new packet at the head of list i. */
    method Push(i: nat, p: Packet) returns (n: PacketNode)
      requires Valid() && i < |heads|
      modifies this
      ensures Valid() && |heads| == old(|heads|) && slots == old(slots)
      ensures fresh(n) && place == old(place)[n := Listed(i)]
      ensures Lists() == old(Lists())[i := [p] + old(Lists())[i]] && Slots() == old(Slots())
    {
      hide Valid, Lists, Slots;
      n := NewNode(heads[i], p);
      Cons(i, n);
    }

    /** A new packet that is nowhere yet. */
    method NewNode(link: PacketNode?, p: Packet) returns (n: PacketNode)
      requires Valid()
      modifies this`place
      ensures Valid() && fresh(n) && n.link == link && n.Value() == p && place == old(place)[n := Loose]
      ensures Lists() == old(Lists()) && Slots() == old(Slots())
    {
      hide IsList, Values;
      n := new PacketNode(link, p);
      place := place[n := Loose];
      forall j | 0 <= j < |nodes| ensures ListOk(j) { assert old(ListOk(j)); }
      forall k | 0 <= k < |slots| ensures SlotOk(k) { assert old(SlotOk(k)); }
      forall q | q in place ensures PlaceOk(q) { assert q != n ==> old(PlaceOk(q)); }
    }

    /** A loose packet that links to the head of list i becomes its head. */
    method Cons(i: nat, n: PacketNode)
      requires Valid() && i < |heads| && IsLoose(n) && n.link == heads[i]
      modifies this
      ensures Valid() && |heads| == old(|heads|) && slots == old(slots) && place == old(place)[n := Listed(i)]
      ensures Lists() == old(Lists())[i := [n.Value()] + old(Lists())[i]] && Slots() == old(Slots())
    {
      hide IsList, Values;
      assert ListOk(i);
      ConsIsList(n, nodes[i]);
      heads, nodes, place := heads[i := n], nodes[i := [n] + nodes[i]], place[n := Listed(i)];
      forall j | 0 <= j < |nodes| ensures ListOk(j) { assert old(ListOk(j)); }
      forall k | 0 <= k < |slots| ensures SlotOk(k) { assert old(SlotOk(k)); }
      forall q | q in place ensures PlaceOk(q) { assert old(PlaceOk(q)); }
    }

    /** Takes the first packet off list i; its link stays as it was. */
    method Pop(i: nat) returns (p: PacketNode)
      requires Valid() && i < |heads| && heads[i] != null
      modifies this
      ensures Valid() && |heads| == old(|heads|) && slots == old(slots) && heads == old(heads)[i := heads[i]]
      ensures p in old(place) && old(place)[p] == Listed(i) && place == old(place)[p := Loose]
      ensures old(Lists())[i] != [] && p.Value() == old(Lists())[i][0]
      ensures Lists() == old(Lists())[i := old(Lists())[i][1..]] && Slots() == old(Slots())
    {
      hide IsList, Values;
      assert ListOk(i);
      p := heads[i];
      TailIsList(p, nodes[i]);
      heads, nodes, place := heads[i := p.link], nodes[i := nodes[i][1..]], place[p := Loose];
      forall j | 0 <= j < |nodes| ensures ListOk(j) { assert old(ListOk(j)); }
      forall k | 0 <= k < |slots| ensures SlotOk(k) { assert old(SlotOk(k)); }
      forall n | n in place ensures PlaceOk(n) { assert old(PlaceOk(n)); }
    }

    /** Links a loose packet to the end of list i, which touches no other list. */
    method Link(i: nat, p: PacketNode) returns (head: PacketNode)
      requires Valid() && i < |heads| && IsLoose(p)
      modifies place.Keys`link
      ensures IsList(head, nodes[i] + [p])
      ensures forall j :: 0 <= j < |nodes| && j != i ==> IsList(heads[j], nodes[j])
    {
      hide Linked, Links;
      assert ListOk(i);
      head := p.AddTo(heads[i], nodes[i]);
      forall j | 0 <= j < |nodes| && j != i ensures IsList(heads[j], nodes[j]) {
        assert old(ListOk(j));
        forall n | n in nodes[j] ensures n.link == old(n.link) { assert n != p && n !in nodes[i]; }
        assert Links(nodes[j]) == old(Links(nodes[j]));
      }
    }

    /** Puts a loose packet at the end of list i. */
    method Append(i: nat, p: PacketNode)
      requires Valid() && i < |heads| && IsLoose(p)
      modifies this, place.Keys`link
      ensures Valid() && |heads| == old(|heads|) && slots == old(slots) && place == old(place)[p := Listed(i)]
      ensures Lists() == old(Lists())[i := old(Lists())[i] + [p.Value()]] && Slots() == old(Slots())
    {
      hide IsList, Values;
      var head := Link(i, p);
      ValuesSnoc(nodes[i], p);
      heads, nodes, place := heads[i := head], nodes[i := nodes[i] + [p]], place[p := Listed(i)];
      forall j | 0 <= j < |nodes| ensures ListOk(j) { assert old(ListOk(j)); }
      forall k | 0 <= k < |slots| ensures SlotOk(k) { assert old(SlotOk(k)); }
      forall n | n in place ensures PlaceOk(n) { assert old(PlaceOk(n)); }
    }

    /** Makes a loose packet that links to nothing the only one of list i. */
    method Start(i: nat, p: PacketNode)
      requires Valid() && i < |heads| && IsLoose(p) && heads[i] == null && p.link == null
      modifies this
      ensures Valid() && |heads| == old(|heads|) && slots == old(slots) && place == old(place)[p := Listed(i)]
      ensures Lists() == old(Lists())[i := [p.Value()]] && Slots() == old(Slots())
    {
      assert ListOk(i);
      hide IsList, Values;
      EmptyIsList();
      ConsIsList(p, []);
      assert Values([p] + []) == [p.Value()];
      heads, nodes, place := heads[i := p], nodes[i := [p] + []], place[p := Listed(i)];
      forall j | 0 <= j < |nodes| ensures ListOk(j) { assert old(ListOk(j)); }
      forall k | 0 <= k < |slots| ensures SlotOk(k) { assert old(SlotOk(k)); }
      forall n | n in place ensures PlaceOk(n) { assert old(PlaceOk(n)); }
    }

    /** Puts a loose packet in slot k; one that was there becomes loose. */
    method Fill(k: nat, p: PacketNode)
      requires Valid() && k < |slots| && IsLoose(p)
      modifies this
      ensures Valid() && heads == old(heads) && |slots| == old(|slots|)
      ensures old(slots[k]) == null ==> place == old(place)[p := Slotted(k)]
      ensures place.Keys == old(place.Keys)
      ensures Lists() == old(Lists()) && Slots() == old(Slots())[k := Some(p.Value())]
    {
      hide IsList, Values;
      assert SlotOk(k);
      if slots[k] != null { place := place[slots[k] := Loose]; }
      slots, place := slots[k := p], place[p := Slotted(k)];
      forall j | 0 <= j < |nodes| ensures ListOk(j) { assert old(ListOk(j)); }
      forall q | 0 <= q < |slots| ensures SlotOk(q) { assert old(SlotOk(q)); }
      forall n | n in place ensures PlaceOk(n) { assert old(PlaceOk(n)); }
    }

    method Empty(k: nat) returns (p: PacketNode)
      requires Valid() && k < |slots| && slots[k] != null
      modifies this
      ensures Valid() && heads == old(heads) && |slots| == old(|slots|) && p in old(place)
      ensures place == old(place)[p := Loose]
      ensures old(Slots())[k] == Some(p.Value())
      ensures Lists() == old(Lists()) && Slots() == old(Slots())[k := None]
    {
      hide IsList, Values;
      assert SlotOk(k);
      p := slots[k];
      slots, place := slots[k := null], place[p := Loose];
      forall j | 0 <= j < |nodes| ensures ListOk(j) { assert old(ListOk(j)); }
      forall q | 0 <= q < |slots| ensures SlotOk(q) { assert old(SlotOk(q)); }
      forall n | n in place ensures PlaceOk(n) { assert old(PlaceOk(n)); }
    }

    /** A loose packet links to nothing. */
    method Unlink(p: PacketNode)
      requires Valid() && IsLoose(p)
      modifies p`link
      ensures Valid() && p.link == null && Lists() == old(Lists()) && Slots() == old(Slots())
    {
      hide Linked, Links, Values;
      p.link := null;
      forall j | 0 <= j < |nodes| ensures ListOk(j) {
        assert old(ListOk(j));
        assert Links(nodes[j]) == old(Links(nodes[j]));
      }
      forall q | 0 <= q < |slots| ensures SlotOk(q) { assert old(SlotOk(q)); }
      forall n | n in place ensures PlaceOk(n) { assert old(PlaceOk(n)); }
    }

    /** Writes the fields of a loose packet. */
    method Write(p: PacketNode, id: nat, a1: int, a2: seq<int>)
      requires Valid() && IsLoose(p)
      modifies p`id, p`a1, p`a2
      ensures Valid() && p.Value() == old(p.Value()).(id := id, a1 := a1, a2 := a2)
      ensures Lists() == old(Lists()) && Slots() == old(Slots())
    {
      hide IsList, Values;
      p.id, p.a1, p.a2 := id, a1, a2;
      forall j | 0 <= j < |nodes|
        ensures ListOk(j) && Values(nodes[j]) == old(Values(nodes[j]))
      {
        assert old(ListOk(j));
      }
      forall q | 0 <= q < |slots|
        ensures SlotOk(q) && ValueOf(slots[q]) == old(ValueOf(slots[q]))
      {
        assert old(SlotOk(q));
      }
      forall n | n in place ensures PlaceOk(n) { assert old(PlaceOk(n)); }
    }

    /** Writes a1 of the first packet of list i. */
    method WriteFirst(i: nat, p: PacketNode, a1: int)
      requires Valid() && i < |heads| && heads[i] == p
      modifies p`a1
      ensures Valid() && old(Lists())[i] != []
      ensures Lists() == old(Lists())[i := old(Lists())[i][0 := old(Lists())[i][0].(a1 := a1)]]
      ensures Slots() == old(Slots())
    {
      hide IsList, Values;
      assert ListOk(i);
      TailIsList(p, nodes[i]);
      p.a1 := a1;
      forall j | 0 <= j < |nodes| ensures ListOk(j) && (j != i ==> Values(nodes[j]) == old(Values(nodes[j]))) {
        assert old(ListOk(j));
        assert j != i ==> p !in nodes[j];
      }
      forall t | 0 < t < |nodes[i]| ensures nodes[i][t] != p { assert nodes[i][t] == nodes[i][1..][t - 1]; }
      assert Values(nodes[i]) == old(Values(nodes[i]))[0 := old(Values(nodes[i]))[0].(a1 := a1)];
      forall q | 0 <= q < |slots|
        ensures SlotOk(q) && ValueOf(slots[q]) == old(ValueOf(slots[q]))
      {
        assert old(SlotOk(q));
      }
      forall n | n in place ensures PlaceOk(n) { assert old(PlaceOk(n)); }
    }
  }
}
