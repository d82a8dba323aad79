/**
 * The generic ordered tree of core/treeitem.h. A node holds its data,
 * its cached index in its parent's child list and its children, which
 * the list stores by value; the parent of a node is the node whose list
 * holds it.
 */
module TreeItems {
  import opened Globals

  datatype Tree<T> = Node(data: T, index: int, children: seq<Tree<T>>)

  /** TreeItem(data): a parent-less node with no children and index 0. */
  function Item<T>(data: T): (t: Tree<T>)
    ensures t.data == data && t.index == 0 && t.children == []
  {
    Node(data, 0, [])
  }

  /** childCount. */
  function ChildCount<T>(t: Tree<T>): nat
  {
    |t.children|
  }

  /** addChild: a new childless node at the end of the list, caching its position as its index. */
  function AddChild<T>(t: Tree<T>, data: T): (r: Tree<T>)
    ensures r.data == t.data && r.index == t.index
    ensures ChildCount(r) == ChildCount(t) + 1 && r.children[..ChildCount(t)] == t.children
    ensures r.children[ChildCount(t)] == Node(data, ChildCount(t), [])
  {
    t.(children := t.children + [Node(data, |t.children|, [])])
  }

  /** child(i): the child at the position, none for a negative or too large one. */
  function Child<T>(t: Tree<T>, i: int): Option<Tree<T>>
  {
    if i < 0 || i >= |t.children| then None else Some(t.children[i])
  }

  /**
   * Every node's cached index is its position in its parent's list, so
   * that `index()` of child i is i and the cache is never consulted
   * against the parent.
   */
  predicate IndexesCached<T>(t: Tree<T>)
  {
    forall i :: 0 <= i < |t.children| ==> t.children[i].index == i && IndexesCached(t.children[i])
  }

  /** A child lookup fails exactly out of range; in range, the child is the one there and knows its index. */
  lemma ChildSpec<T>(t: Tree<T>, i: int)
    requires IndexesCached(t)
    ensures Child(t, i).None? <==> i < 0 || i >= ChildCount(t)
    ensures Child(t, i).Some? ==> Child(t, i).value == t.children[i] && Child(t, i).value.index == i
  {
  }

  /**
   * addChild appends exactly one child, which child(previous count)
   * returns, and keeps every cached index right.
   */
  lemma AddChildSpec<T>(t: Tree<T>, data: T)
    requires IndexesCached(t)
    ensures var r := AddChild(t, data);
      && IndexesCached(r)
      && Child(r, ChildCount(t)) == Some(Node(data, ChildCount(t), []))
      && forall i :: 0 <= i < ChildCount(t) ==> Child(r, i) == Child(t, i)
  {
    var r := AddChild(t, data);
    forall i | 0 <= i < |r.children|
      ensures r.children[i].index == i && IndexesCached(r.children[i])
    {
      if i < |t.children| {
        assert r.children[i] == t.children[i];
      }
    }
  }

  /** The position of the first tree in the list holding the data, if any. */
  function FirstWith<T(==)>(ts: seq<Tree<T>>, data: T): (k: Option<nat>)
    ensures k.Some? ==> k.value < |ts| && ts[k.value].data == data
    ensures k.Some? ==> forall j :: 0 <= j < k.value ==> ts[j].data != data
    ensures k.None? ==> forall j :: 0 <= j < |ts| ==> ts[j].data != data
  {
    if ts == [] then None
    else if ts[0].data == data then Some(0)
    else match FirstWith(ts[1..], data)
      case None => None
      case Some(k) => Some(k + 1)
  }

  /** findChild, with its loop: the position of the first child holding the data, none if no child does. */
  method FindChild<T(==)>(t: Tree<T>, data: T) returns (r: Option<nat>)
    ensures r == FirstWith(t.children, data)
  {
    var i := 0;
    while i < |t.children|
      invariant 0 <= i <= |t.children|
      invariant forall j :: 0 <= j < i ==> t.children[j].data != data
    {
      if t.children[i].data == data {
        FirstWithIsFirst(t.children, data, i);
        return Some(i);
      }
      i := i + 1;
    }
    FirstWithIsFirst(t.children, data, |t.children|);
    r := None;
  }

  /** The first position holding the data is the only answer FirstWith can give. */
  lemma {:induction false} FirstWithIsFirst<T>(ts: seq<Tree<T>>, data: T, i: nat)
    requires i <= |ts| && forall j :: 0 <= j < i ==> ts[j].data != data
    requires i < |ts| ==> ts[i].data == data
    ensures FirstWith(ts, data) == if i < |ts| then Some(i) else None
    decreases i
  {
    if i > 0 {
      FirstWithIsFirst(ts[1..], data, i - 1);
    }
  }

  /**
   * clear: the node keeps its data and index and loses every child. The
   * source clears each child before emptying the list; on a value tree
   * the emptied list drops the children together with their subtrees, so
   * that first pass changes nothing anyone can observe and is not modelled.
   */
  function Clear<T>(t: Tree<T>): (r: Tree<T>)
    ensures r.data == t.data && r.index == t.index && ChildCount(r) == 0
  {
    t.(children := [])
  }
}
