/** The children of an array or object: a chain of nodes linked in both directions, edited in place. */
module JsonChildren {

  class Node {
    var next: Node?
    var prev: Node?

    constructor ()
      ensures Detached()
    {
      next, prev := null, null;
    }

    ghost predicate Detached()
      reads this
    {
      next == null && prev == null
    }
  }

  /** The index that a requested position stands for. */
  function Index(which: int): nat {
    if which < 0 then 0 else which
  }

  function Inserted<T>(s: seq<T>, k: nat, x: T): seq<T> {
    if k < |s| then s[..k] + [x] + s[k..] else s + [x]
  }

  function Removed<T>(s: seq<T>, k: nat): seq<T> {
    if k < |s| then s[..k] + s[k + 1..] else s
  }

  function Replaced<T>(s: seq<T>, k: nat, x: T): seq<T> {
    if k < |s| then s[k := x] else s
  }

  lemma RemoveUndoesInsert<T>(s: seq<T>, k: nat, x: T)
    ensures Removed(Inserted(s, k, x), if k < |s| then k else |s|) == s
  {
    var t := Inserted(s, k, x);
    if k < |s| {
      assert t[..k] == s[..k] && t[k + 1..] == s[k..];
    }
  }

  lemma InsertedAreOld<T>(s: seq<T>, k: nat, x: T)
    ensures forall y :: y in Inserted(s, k, x) ==> y in s || y == x
  {
  }

  lemma InsertUndoesRemove<T>(s: seq<T>, k: nat)
    requires k < |s|
    ensures Inserted(Removed(s, k), k, s[k]) == s
  {
    var t := Removed(s, k);
    if k < |t| {
      assert t[..k] == s[..k] && t[k..] == s[k + 1..];
    }
  }

  lemma ReplaceIsRemoveAndInsert<T>(s: seq<T>, k: nat, x: T)
    requires k < |s|
    ensures Replaced(s, k, x) == Inserted(Removed(s, k), k, x)
  {
    var t := Removed(s, k);
    if k < |t| {
      assert t[..k] == s[..k] && t[k..] == s[k + 1..];
    }
  }

  function NodeAt(nodes: seq<Node>, i: int): Node? {
    if 0 <= i < |nodes| then nodes[i] else null
  }

  ghost predicate Distinct(nodes: seq<Node>) {
    forall i, j :: 0 <= i < j < |nodes| ==> nodes[i] != nodes[j]
  }

  /** The two links of the node at `i`. */
  ghost predicate Links(nodes: seq<Node>, i: nat, next: Node?, prev: Node?)
    requires i < |nodes|
    reads nodes
  {
    nodes[i].next == next && nodes[i].prev == prev
  }

  ghost predicate LinkedAt(nodes: seq<Node>, i: nat)
    requires i < |nodes|
    reads nodes
  {
    Links(nodes, i, NodeAt(nodes, i + 1), NodeAt(nodes, i - 1))
  }

  /** `next` and `prev` lead from every node to its neighbours, and to null at the ends. */
  ghost predicate Linked(nodes: seq<Node>)
    reads nodes
  {
    forall i :: 0 <= i < |nodes| ==> LinkedAt(nodes, i)
  }

  /** The links of the node at `i` pass by the node at `k`. */
  ghost predicate BypassedAt(nodes: seq<Node>, k: nat, i: nat)
    requires i < |nodes|
    reads nodes
  {
    Links(nodes, i, NodeAt(nodes, if i == k - 1 then k + 1 else i + 1),
          NodeAt(nodes, if i == k + 1 then k - 1 else i - 1))
  }

  ghost predicate Bypassed(nodes: seq<Node>, k: nat)
    reads nodes
  {
    forall i :: 0 <= i < |nodes| && i != k ==> BypassedAt(nodes, k, i)
  }

  lemma BypassedIsRemoved(nodes: seq<Node>, k: nat)
    requires k < |nodes| && Distinct(nodes) && Bypassed(nodes, k)
    ensures var t := Removed(nodes, k); Distinct(t) && Linked(t) && nodes[k] !in t
  {
    var t := Removed(nodes, k);
    assert forall i :: 0 <= i < |t| ==> t[i] == nodes[if i < k then i else i + 1];
    forall i | 0 <= i < |t|
      ensures LinkedAt(t, i)
    {
      assert BypassedAt(nodes, k, if i < k then i else i + 1);
    }
  }

  /** The links of the node at `i` go through `x` in front of the node at `k`, or behind the last one. */
  ghost predicate ThroughAt(nodes: seq<Node>, k: nat, x: Node, i: nat)
    requires i < |nodes|
    reads nodes
  {
    Links(nodes, i, if i == k - 1 then x else NodeAt(nodes, i + 1), if i == k then x else NodeAt(nodes, i - 1))
  }

  ghost predicate Through(nodes: seq<Node>, k: nat, x: Node)
    reads nodes, x
  {
    x.next == NodeAt(nodes, k) && x.prev == NodeAt(nodes, k - 1)
    && forall i :: 0 <= i < |nodes| ==> ThroughAt(nodes, k, x, i)
  }

  lemma ThroughIsInserted(nodes: seq<Node>, k: nat, x: Node)
    requires k <= |nodes| && Distinct(nodes) && x !in nodes && Through(nodes, k, x)
    ensures var t := Inserted(nodes, k, x); Distinct(t) && Linked(t)
  {
    var t := Inserted(nodes, k, x);
    assert forall i :: 0 <= i < |t| ==> t[i] == if i < k then nodes[i] else if i == k then x else nodes[i - 1];
    forall i | 0 <= i < |t|
      ensures LinkedAt(t, i)
    {
      if i != k {
        assert ThroughAt(nodes, k, x, if i < k then i else i - 1);
      }
    }
  }

  /** The links of the node at `i` go through `x` in place of the node at `k`. */
  ghost predicate InsteadAt(nodes: seq<Node>, k: nat, x: Node, i: nat)
    requires i < |nodes|
    reads nodes
  {
    Links(nodes, i, if i == k - 1 then x else NodeAt(nodes, i + 1), if i == k + 1 then x else NodeAt(nodes, i - 1))
  }

  ghost predicate Instead(nodes: seq<Node>, k: nat, x: Node)
    reads nodes, x
  {
    x.next == NodeAt(nodes, k + 1) && x.prev == NodeAt(nodes, k - 1)
    && forall i :: 0 <= i < |nodes| && i != k ==> InsteadAt(nodes, k, x, i)
  }

  lemma InsteadIsReplaced(nodes: seq<Node>, k: nat, x: Node)
    requires k < |nodes| && Distinct(nodes) && x !in nodes && Instead(nodes, k, x)
    ensures var t := Replaced(nodes, k, x); Distinct(t) && Linked(t)
  {
    var t := Replaced(nodes, k, x);
    forall i | 0 <= i < |t|
      ensures LinkedAt(t, i)
    {
      if i != k {
        assert InsteadAt(nodes, k, x, i);
      }
    }
  }

  class Container {
    var child: Node?
    ghost var nodes: seq<Node>

    ghost predicate Valid()
      reads this, nodes
    {
      child == NodeAt(nodes, 0) && Distinct(nodes) && Linked(nodes)
    }

    constructor ()
      ensures Valid() && nodes == []
    {
      child, nodes := null, [];
    }

    /** Following `next` from the first child visits every child once and ends. */
    method Size() returns (n: nat)
      requires Valid()
      ensures n == |nodes|
    {
      n := 0;
      var c := child;
      while c != null
        invariant n <= |nodes| && c == NodeAt(nodes, n)
        decreases |nodes| - n
      {
        assert LinkedAt(nodes, n);
        c := c.next;
        n := n + 1;
      }
    }

    /** The child at a position; a negative position stands for the first. */
    method Find(which: int) returns (c: Node?)
      requires Valid()
      ensures c == NodeAt(nodes, Index(which))
    {
      c := child;
      var w := which;
      ghost var k := 0;
      while c != null && w > 0
        invariant 0 <= k <= |nodes| && c == NodeAt(nodes, k)
        invariant if which > 0 then k + w == which && w >= 0 else k == 0 && w == which
        decreases |nodes| - k
      {
        assert LinkedAt(nodes, k);
        c := c.next;
        w := w - 1;
        k := k + 1;
      }
    }

    /** `cJSON_AddItemToArray` */
    method Add(item: Node?)
      requires Valid() && (item != null ==> item.Detached() && item !in nodes)
      modifies this, nodes, item
      ensures Valid()
      ensures nodes == if item == null then old(nodes) else old(nodes) + [item]
    {
      if item == null {
        return;
      }
      if child == null {
        child := item;
      } else {
        var c: Node := child;
        ghost var k := 0;
        while c.next != null
          invariant 0 <= k < |nodes| && c == nodes[k]
          decreases |nodes| - k
        {
          assert LinkedAt(nodes, k);
          c := c.next;
          k := k + 1;
        }
        assert LinkedAt(nodes, k);
        c.next := item;
        item.prev := c;
      }
      forall i | 0 <= i < |nodes|
        ensures ThroughAt(nodes, |nodes|, item, i)
      {
        assert old(LinkedAt(nodes, i));
      }
      ThroughIsInserted(nodes, |nodes|, item);
      nodes := nodes + [item];
    }

    /** `cJSON_DetachItemFromArray` */
    method Detach(which: int) returns (c: Node?)
      requires Valid()
      modifies this, nodes
      ensures Valid()
      ensures c == old(NodeAt(nodes, Index(which)))
      ensures c != null ==> c.Detached() && c !in nodes
      ensures nodes == Removed(old(nodes), Index(which))
    {
      c := Find(which);
      if c == null {
        return;
      }
      ghost var k := Index(which);
      assert LinkedAt(nodes, k);
      if c.prev != null {
        c.prev.next := c.next;
      }
      if c.next != null {
        c.next.prev := c.prev;
      }
      if c == child {
        child := c.next;
      }
      c.prev, c.next := null, null;
      forall i | 0 <= i < |nodes| && i != k
        ensures BypassedAt(nodes, k, i)
      {
        assert old(LinkedAt(nodes, i));
      }
      BypassedIsRemoved(nodes, k);
      nodes := Removed(nodes, k);
    }

    /** `cJSON_InsertItemInArray` */
    method Insert(which: int, newitem: Node)
      requires Valid() && newitem.Detached() && newitem !in nodes
      modifies this, nodes, newitem
      ensures Valid()
      ensures nodes == Inserted(old(nodes), Index(which), newitem)
    {
      var c := Find(which);
      if c == null {
        Add(newitem);
        return;
      }
      ghost var k := Index(which);
      assert LinkedAt(nodes, k);
      newitem.next := c;
      newitem.prev := c.prev;
      c.prev := newitem;
      if c == child {
        child := newitem;
      } else {
        newitem.prev.next := newitem;
      }
      forall i | 0 <= i < |nodes|
        ensures ThroughAt(nodes, k, newitem, i)
      {
        assert old(LinkedAt(nodes, i));
      }
      ThroughIsInserted(nodes, k, newitem);
      nodes := Inserted(nodes, k, newitem);
    }

    /** `cJSON_ReplaceItemInArray`, except that the replaced node is not freed. */
    method Replace(which: int, newitem: Node)
      requires Valid() && newitem.Detached() && newitem !in nodes
      modifies this, nodes, newitem
      ensures Valid()
      ensures nodes == Replaced(old(nodes), Index(which), newitem)
      ensures Index(which) < |old(nodes)| ==> old(nodes)[Index(which)].Detached()
      ensures Index(which) >= |old(nodes)| ==> newitem.Detached()
    {
      var c := Find(which);
      if c == null {
        return;
      }
      assert LinkedAt(nodes, Index(which));
      newitem.next := c.next;
      newitem.prev := c.prev;
      if newitem.next != null {
        newitem.next.prev := newitem;
      }
      if c == child {
        child := newitem;
      } else {
        newitem.prev.next := newitem;
      }
      c.next, c.prev := null, null;
      forall i | 0 <= i < |nodes| && i != Index(which)
        ensures InsteadAt(nodes, Index(which), newitem, i)
      {
        assert old(LinkedAt(nodes, i));
      }
      InsteadIsReplaced(nodes, Index(which), newitem);
      nodes := Replaced(nodes, Index(which), newitem);
    }

    // Laws of the operations

    /** No link of a child, and not the first one, has changed. */
    twostate predicate Restored()
      reads this, nodes
    {
      nodes == old(nodes) && child == old(child)
      && forall i :: 0 <= i < |nodes| ==> Links(nodes, i, old(nodes[i].next), old(nodes[i].prev))
    }

    /** The chain of children is determined by their order. */
    twostate lemma SameOrder()
      requires old(Valid()) && Valid() && nodes == old(nodes)
      ensures Restored()
    {
      forall i | 0 <= i < |nodes|
        ensures Links(nodes, i, old(nodes[i].next), old(nodes[i].prev))
      {
        assert LinkedAt(nodes, i) && old(LinkedAt(nodes, i));
      }
    }

    /** Detaching a child that was inserted restores all links. */
    method InsertAndDetach(which: int, newitem: Node) returns (c: Node?)
      requires Valid() && newitem.Detached() && newitem !in nodes
      modifies this, nodes, newitem
      ensures Valid() && c == newitem && newitem.Detached() && Restored()
    {
      var n := Size();
      RemoveUndoesInsert(nodes, Index(which), newitem);
      InsertedAreOld(nodes, Index(which), newitem);
      hide Removed, Inserted;
      Insert(which, newitem);
      c := Detach(if Index(which) < n then which else n);
      SameOrder();
    }

    /** Inserting a child that was detached at the same position restores all links. */
    method DetachAndInsert(which: int)
      requires Valid() && Index(which) < |nodes|
      modifies this, nodes
      ensures Valid() && Restored()
    {
      InsertUndoesRemove(nodes, Index(which));
      var c := Detach(which);
      Insert(which, c);
      SameOrder();
    }

    /** Detaching one child and inserting another at its position leaves what replacing it leaves. */
    method DetachAndInsertOther(which: int, newitem: Node)
      requires Valid() && Index(which) < |nodes| && newitem.Detached() && newitem !in nodes
      modifies this, nodes, newitem
      ensures Valid() && nodes == Replaced(old(nodes), Index(which), newitem)
      ensures old(nodes)[Index(which)].Detached()
    {
      ReplaceIsRemoveAndInsert(nodes, Index(which), newitem);
      var c := Detach(which);
      Insert(which, newitem);
    }
  }
}
