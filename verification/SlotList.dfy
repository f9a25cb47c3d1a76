/** The intrusive lists of src/utils/lists.h on the heap.
    A doubly linked node stores `next` and a *slot pointer*: the address of whichever
    pointer refers to the node, either the head of its list or the `next` field of the
    node in front.  Unlinking therefore never needs to know the list. */
module SlotList {

  /** The address of a pointer-to-node: of a list head, or of a node's `next` field. */
  datatype Slot<T> = Unset | InHead(list: DList<T>) | InNext(node: DNode<T>)

  /** What `*slot` holds. */
  ghost function Deref<T>(slot: Slot<T>): DNode?<T>
    requires !slot.Unset?
    reads if slot.InHead? then {slot.list} else {}, if slot.InNext? then {slot.node} else {}
  {
    match slot
    case InHead(l) => l.head
    case InNext(n) => n.next
  }

  class DNode<T> {
    var next: DNode?<T>
    var slot: Slot<T>
    var item: T  // the structure the links are embedded in

    constructor (item: T)
      ensures this.item == item
    {
      this.item := item;
      next, slot := null, Unset;
    }
  }

  ghost function AsSet<T>(n: DNode?<T>): set<DNode<T>> {
    if n == null then {} else {n}
  }

  /** The node in front, when the slot is its `next` field. */
  ghost function Before<T>(n: DNode<T>): set<DNode<T>>
    reads n`slot
  {
    if n.slot.InNext? then {n.slot.node} else {}
  }

  ghost predicate Differ<T>(s: seq<T>, i: nat, j: nat)
    requires i < |s| && j < |s|
  {
    i != j ==> s[i] != s[j]
  }

  ghost predicate Distinct<T>(s: seq<T>) {
    forall i, j :: 0 <= i < |s| && 0 <= j < |s| ==> Differ(s, i, j)
  }

  lemma OthersDiffer<T>(s: seq<T>, k: nat)
    requires Distinct(s) && k < |s|
    ensures forall j :: 0 <= j < |s| && j != k ==> s[j] != s[k]
  {
    forall j | 0 <= j < |s| && j != k ensures s[j] != s[k] {
      assert Differ(s, j, k);
    }
  }

  lemma DistinctTail<T>(s: seq<T>)
    requires s != [] && Distinct(s)
    ensures Distinct(s[1..])
  {
    forall i, j | 0 <= i < |s| - 1 && 0 <= j < |s| - 1 ensures Differ(s[1..], i, j) {
      assert Differ(s, i + 1, j + 1);
    }
  }

  lemma DistinctPrepend<T>(x: T, s: seq<T>)
    requires Distinct(s) && x !in s
    ensures Distinct([x] + s)
  {
    forall i, j | 0 <= i <= |s| && 0 <= j <= |s| ensures Differ([x] + s, i, j) {
      assert i > 0 && j > 0 ==> Differ(s, i - 1, j - 1);
    }
  }

  ghost function Without<T>(s: seq<T>, x: T): seq<T>
  {
    if s == [] then [] else if s[0] == x then s[1..] else [s[0]] + Without(s[1..], x)
  }

  lemma {:induction false} WithoutAt<T>(s: seq<T>, k: nat)
    requires Distinct(s) && k < |s|
    ensures Without(s, s[k]) == s[..k] + s[k+1..]
  {
    if k > 0 {
      assert Differ(s, 0, k);
      DistinctTail(s);
      WithoutAt(s[1..], k - 1);
      assert [s[0]] + (s[1..][..k-1] + s[1..][k..]) == s[..k] + s[k+1..];
    }
  }

  lemma WithoutIndex<T>(s: seq<T>, k: nat)
    requires Distinct(s) && k < |s|
    ensures var t := Without(s, s[k]);
      && |t| == |s| - 1 && Distinct(t) && s[k] !in t
      && forall i :: 0 <= i < |t| ==> t[i] == s[if i < k then i else i + 1]
  {
    WithoutAt(s, k);
    var t := s[..k] + s[k+1..];
    forall i, j | 0 <= i < |t| && 0 <= j < |t| ensures Differ(t, i, j) {
      assert Differ(s, if i < k then i else i + 1, if j < k then j else j + 1);
    }
    OthersDiffer(s, k);
  }

  class DList<T> {
    var head: DNode?<T>
    ghost var nodes: seq<DNode<T>>

    /** The links that position `i` of the sequence `s` asks for. */
    ghost predicate LinkedAt(s: seq<DNode<T>>, i: nat)
      requires i < |s|
      reads s`next, s`slot
    {
      && s[i].next == (if i + 1 < |s| then s[i+1] else null)
      && s[i].slot == (if i == 0 then InHead(this) else InNext(s[i-1]))
    }

    ghost predicate Valid()
      reads this, nodes`next, nodes`slot
    {
      && Distinct(nodes)
      && head == (if nodes == [] then null else nodes[0])
      && forall i :: 0 <= i < |nodes| ==> LinkedAt(nodes, i)
    }

    constructor ()
      ensures Valid() && nodes == [] && fresh(this)
    {
      head, nodes := null, [];
    }

    /** yoi_dlist_add: link `node` in front.  `other` is any list at all: unless it is this
        one, it stays as it was. */
    method Add(node: DNode<T>, ghost other: DList<T>)
      requires Valid() && node !in nodes
      requires other.Valid() && node !in other.nodes
      modifies this, node`next, node`slot, AsSet(head)`slot
      ensures Valid() && nodes == [node] + old(nodes)
      ensures other != this ==> other.Valid() && other.nodes == old(other.nodes)
    {
      if other != this {
        ListsAreDisjoint(this, other);
      }
      assert head != null ==> head in nodes;
      node.next := head;
      node.slot := InHead(this);
      if head != null {
        head.slot := InNext(node);
      }
      head := node;
      ghost var s := nodes;
      nodes := [node] + nodes;
      DistinctPrepend(node, s);
      forall i | 0 <= i < |nodes| ensures LinkedAt(nodes, i) {
        if i > 0 {
          assert old(LinkedAt(s, i - 1)) && Differ(s, i - 1, 0);
        }
      }
      if other != this {
        forall i | 0 <= i < |other.nodes| ensures other.LinkedAt(other.nodes, i) {
          assert old(other.LinkedAt(other.nodes, i));
        }
      }
    }
  }

  /** yoi_dlist_del: unlink `node`, wherever it sits.  The list is a ghost argument: the
      code learns it only through the slot.  The node's own links are left as they were. */
  method Detach<T>(node: DNode<T>, ghost list: DList<T>)
    requires list.Valid() && node in list.nodes
    requires !node.slot.Unset?
    modifies list, Before(node)`next, AsSet(node.next)`slot
    ensures list.Valid() && list.nodes == Without(old(list.nodes), node)
    ensures node.next == old(node.next) && node.slot == old(node.slot)
  {
    ghost var s := list.nodes;
    ghost var k :| 0 <= k < |s| && s[k] == node;
    ghost var t := s[..k] + s[k+1..];
    assert list.LinkedAt(s, k);
    if node.next != null {
      node.next.slot := node.slot;
    }
    if node.slot.InHead? {
      node.slot.list.head := node.next;
    } else {
      node.slot.node.next := node.next;
    }
    assert k > 0 ==> s[k-1].next == node.next;
    assert k + 1 < |s| ==> s[k+1].slot == node.slot;
    list.nodes := t;
    forall i | 0 <= i < |t| ensures list.LinkedAt(t, i) {
      if i < k {
        assert t[i] == s[i] && old(list.LinkedAt(s, i)) && Differ(s, i, k - 1);
        assert k + 1 < |s| ==> Differ(s, i, k + 1);
      } else {
        assert t[i] == s[i+1] && old(list.LinkedAt(s, i + 1)) && Differ(s, i + 1, k + 1);
        assert k > 0 ==> Differ(s, i + 1, k - 1);
      }
    }
    WithoutAt(s, k);
    WithoutIndex(s, k);
  }

  /** The same, and what it leaves alone: `other` is any list at all, and unless it is this
      one, it stays as it was. */
  method Unlink<T>(node: DNode<T>, ghost list: DList<T>, ghost other: DList<T>)
    requires list.Valid() && node in list.nodes && other.Valid()
    requires !node.slot.Unset?
    modifies list, Before(node)`next, AsSet(node.next)`slot
    ensures list.Valid() && list.nodes == Without(old(list.nodes), node)
    ensures node.next == old(node.next) && node.slot == old(node.slot)
    ensures other != list ==> other.Valid() && other.nodes == old(other.nodes)
  {
    if other != list {
      ListsAreDisjoint(list, other);
      NeighboursAreMembers(node, list);
    }
    ghost var near := Before(node) + AsSet(node.next);
    Detach(node, list);
    if other != list {
      assert forall n :: n in other.nodes ==> n !in near && n.next == old(n.next) && n.slot == old(n.slot);
      forall i | 0 <= i < |other.nodes| ensures other.LinkedAt(other.nodes, i) {
        assert old(other.LinkedAt(other.nodes, i));
      }
    }
  }

  lemma NeighboursAreMembers<T>(node: DNode<T>, list: DList<T>)
    requires list.Valid() && node in list.nodes
    ensures forall n :: n in Before(node) + AsSet(node.next) ==> n in list.nodes
  {
    var k :| 0 <= k < |list.nodes| && list.nodes[k] == node;
    assert list.LinkedAt(list.nodes, k);
  }

  /** `*slot(n) == n` for every member of a valid list, and no pointer outside the list
      can be the slot of a member. */
  lemma SlotRefersToNode<T>(list: DList<T>, n: DNode<T>)
    requires list.Valid() && n in list.nodes
    ensures !n.slot.Unset? && Deref(n.slot) == n
    ensures n.slot.InHead? ==> n.slot.list == list && list.head == n
    ensures n.slot.InNext? ==> n.slot.node in list.nodes
  {
    var k :| 0 <= k < |list.nodes| && list.nodes[k] == n;
    assert list.LinkedAt(list.nodes, k);
    if k > 0 {
      assert list.LinkedAt(list.nodes, k - 1);
    }
  }

  /** A node is in at most one valid list: membership is decided by the links alone. */
  lemma {:induction false} MembershipIsUnique<T>(a: DList<T>, b: DList<T>, i: nat, j: nat)
    requires a.Valid() && b.Valid() && i < |a.nodes| && j < |b.nodes|
    requires a.nodes[i] == b.nodes[j]
    ensures a == b
    decreases i
  {
    assert a.LinkedAt(a.nodes, i) && b.LinkedAt(b.nodes, j);
    if i > 0 {
      MembershipIsUnique(a, b, i - 1, j - 1);
    }
  }

  /** So two different valid lists share no node, which is why a change to one leaves every
      other as it was. */
  lemma ListsAreDisjoint<T>(a: DList<T>, b: DList<T>)
    requires a.Valid() && b.Valid() && a != b
    ensures forall n :: n in a.nodes ==> n !in b.nodes
  {
    forall n | n in a.nodes ensures n !in b.nodes {
      if n in b.nodes {
        var i :| 0 <= i < |a.nodes| && a.nodes[i] == n;
        var j :| 0 <= j < |b.nodes| && b.nodes[j] == n;
        MembershipIsUnique(a, b, i, j);
      }
    }
  }
}
