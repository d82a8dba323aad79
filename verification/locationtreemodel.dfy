/**
 * The tree location model (core/locationtreemodel.cpp): locations held in
 * a tree whose invisible root is the model's top, each node carrying a
 * location and the flag that tells "never filled" from "filled with
 * nothing". A node is designated by its path of child positions from
 * the root; a model index is such a path (never the empty one, which is
 * the root) or the invalid index.
 */
module LocationTreeModels {
  import opened Globals
  import opened TreeItems
  import opened LocationModels

  /** LocationTreeItem: a location and whether add() was called under it. */
  datatype LocItem = LocItem(loc: Location, locationsAdded: bool)

  type LocTree = Tree<LocItem>

  /** A model index: invalid (standing for the root), or the path of an item. */
  datatype TreeIndex = NoIndex | At(path: seq<nat>)

  /** The path leads from the tree to one of its nodes. */
  predicate IsPath<T>(t: Tree<T>, p: seq<nat>)
  {
    p == [] || (p[0] < |t.children| && IsPath(t.children[p[0]], p[1..]))
  }

  /** The node the path leads to. */
  function NodeAt<T>(t: Tree<T>, p: seq<nat>): Tree<T>
    requires IsPath(t, p)
  {
    if p == [] then t else NodeAt(t.children[p[0]], p[1..])
  }

  /** The tree with the node at the path replaced. */
  function Replace<T>(t: Tree<T>, p: seq<nat>, n: Tree<T>): (r: Tree<T>)
    requires IsPath(t, p)
    ensures p != [] ==> r.data == t.data && r.index == t.index && |r.children| == |t.children|
  {
    if p == [] then n
    else t.(children := t.children[p[0] := Replace(t.children[p[0]], p[1..], n)])
  }

  /** Extending a path by one step goes to a child of its node. */
  lemma {:induction false} NodeAtSnoc<T>(t: Tree<T>, p: seq<nat>, k: nat)
    requires IsPath(t, p)
    ensures IsPath(t, p + [k]) <==> k < |NodeAt(t, p).children|
    ensures IsPath(t, p + [k]) ==> NodeAt(t, p + [k]) == NodeAt(t, p).children[k]
    decreases |p|
  {
    if p != [] {
      assert (p + [k])[1..] == p[1..] + [k];
      NodeAtSnoc(t.children[p[0]], p[1..], k);
    }
  }

  /** Every prefix of a path is a path. */
  lemma {:induction false} PrefixIsPath<T>(t: Tree<T>, p: seq<nat>, n: nat)
    requires IsPath(t, p) && n <= |p|
    ensures IsPath(t, p[..n])
    decreases |p|
  {
    if n > 0 {
      assert p[..n][1..] == p[1..][..n - 1];
      PrefixIsPath(t.children[p[0]], p[1..], n - 1);
    }
  }

  /** With cached indexes, the node at a path knows its position, and its own children do too. */
  lemma {:induction false} CachedAt<T>(t: Tree<T>, p: seq<nat>)
    requires IndexesCached(t) && IsPath(t, p)
    ensures IndexesCached(NodeAt(t, p))
    ensures p != [] ==> NodeAt(t, p).index == p[|p| - 1]
    decreases |p|
  {
    if p != [] {
      CachedAt(t.children[p[0]], p[1..]);
      if |p| > 1 {
        assert p[1..][|p| - 2] == p[|p| - 1];
      }
    }
  }

  /**
   * Replacing a node keeps every path, puts the new node at its path,
   * and keeps the indexes cached when the new node keeps the old one's
   * index and its own children's.
   */
  lemma {:induction false} ReplaceSpec<T>(t: Tree<T>, p: seq<nat>, n: Tree<T>)
    requires IsPath(t, p)
    ensures IsPath(Replace(t, p, n), p) && NodeAt(Replace(t, p, n), p) == n
    ensures IndexesCached(t) && IndexesCached(n) && n.index == NodeAt(t, p).index
      ==> IndexesCached(Replace(t, p, n))
    decreases |p|
  {
    if p != [] {
      var c := t.children[p[0]];
      ReplaceSpec(c, p[1..], n);
      var r := Replace(t, p, n);
      assert r.children[p[0]] == Replace(c, p[1..], n);
      if IndexesCached(t) && IndexesCached(n) && n.index == NodeAt(t, p).index {
        if p[1..] == [] {
          assert Replace(c, p[1..], n) == n;
          assert n.index == c.index;
        }
        forall i | 0 <= i < |r.children|
          ensures r.children[i].index == i && IndexesCached(r.children[i])
        {
          if i != p[0] {
            assert r.children[i] == t.children[i];
          }
        }
      }
    }
  }

  /** A fresh item for a location: no locations added under it yet. */
  function NewItem(loc: Location): LocItem
  {
    LocItem(loc, false)
  }

  /** The node after addChild has been called once per location, in order. */
  function AddedAll(n: LocTree, locs: seq<Location>): LocTree
  {
    if locs == [] then n else AddChild(AddedAll(n, locs[..|locs| - 1]), NewItem(locs[|locs| - 1]))
  }

  /**
   * Adding the locations keeps the node's data, index and children, and
   * puts one fresh childless child per location after them, in order;
   * the cached indexes stay right.
   */
  lemma {:induction false} AddedAllSpec(n: LocTree, locs: seq<Location>)
    ensures var r := AddedAll(n, locs);
      && r.data == n.data && r.index == n.index
      && |r.children| == |n.children| + |locs|
      && r.children[..|n.children|] == n.children
      && (forall j :: 0 <= j < |locs| ==> r.children[|n.children| + j] == Node(NewItem(locs[j]), |n.children| + j, []))
      && (IndexesCached(n) ==> IndexesCached(r))
    decreases |locs|
  {
    if locs != [] {
      var init := locs[..|locs| - 1];
      var m := AddedAll(n, init);
      AddedAllSpec(n, init);
      if IndexesCached(n) {
        AddChildSpec(m, NewItem(locs[|locs| - 1]));
      }
      var r := AddedAll(n, locs);
      assert r.children == m.children + [Node(NewItem(locs[|locs| - 1]), |m.children|, [])];
      forall j | 0 <= j < |locs|
        ensures r.children[|n.children| + j] == Node(NewItem(locs[j]), |n.children| + j, [])
      {
        if j < |locs| - 1 {
          assert init[j] == locs[j];
        }
      }
    }
  }

  /** The path of the node an index stands for: the root for the invalid index. */
  function Target(idx: TreeIndex): seq<nat>
  {
    if idx.NoIndex? then [] else idx.path
  }

  /**
   * The item after the node at the path, as nextIndex finds it: the next
   * sibling of the node, or else of its nearest ancestor that has one;
   * none when there is no such sibling.
   */
  function NextPath<T>(t: Tree<T>, p: seq<nat>): Option<seq<nat>>
    requires IsPath(t, p)
    decreases |p|
  {
    if p == [] then None
    else
      var q := p[..|p| - 1];
      PrefixIsPath(t, p, |p| - 1);
      if p[|p| - 1] + 1 < |NodeAt(t, q).children| then Some(q + [p[|p| - 1] + 1])
      else NextPath(t, q)
  }

  /** The item before the node at the path, as prevIndex finds it: the previous sibling of it or of its nearest ancestor that has one. */
  function PrevPath<T>(t: Tree<T>, p: seq<nat>): Option<seq<nat>>
    requires IsPath(t, p)
    decreases |p|
  {
    if p == [] then None
    else
      var q := p[..|p| - 1];
      PrefixIsPath(t, p, |p| - 1);
      if p[|p| - 1] > 0 then Some(q + [p[|p| - 1] - 1])
      else PrevPath(t, q)
  }

  /** What nextIndex finds is a path of the tree: the next sibling of the start or of one of its ancestors. */
  lemma {:induction false} NextPathShape<T>(t: Tree<T>, p: seq<nat>)
    requires IsPath(t, p)
    ensures match NextPath(t, p)
      case Some(q) =>
        && 0 < |q| <= |p| && IsPath(t, q)
        && q == p[..|q| - 1] + [p[|q| - 1] + 1]
      case None => true
    decreases |p|
  {
    if p != [] {
      var q := p[..|p| - 1];
      PrefixIsPath(t, p, |p| - 1);
      NodeAtSnoc(t, q, p[|p| - 1] + 1);
      if p[|p| - 1] + 1 >= |NodeAt(t, q).children| {
        NextPathShape(t, q);
        match NextPath(t, q)
        case Some(r) =>
          assert q[..|r| - 1] == p[..|r| - 1] && q[|r| - 1] == p[|r| - 1];
        case None =>
      }
    }
  }

  /** Where nextIndex climbs past a level, the node on the start's path at that level is the last of its siblings. */
  lemma {:induction false} NextPathLast<T>(t: Tree<T>, p: seq<nat>)
    requires IsPath(t, p)
    ensures match NextPath(t, p)
      case Some(q) => |q| <= |p| && forall d :: |q| < d <= |p| ==> PrefixIsLast(t, p, d)
      case None => forall d :: 0 < d <= |p| ==> PrefixIsLast(t, p, d)
    decreases |p|
  {
    if p != [] {
      var q := p[..|p| - 1];
      PrefixIsPath(t, p, |p| - 1);
      if p[|p| - 1] + 1 >= |NodeAt(t, q).children| {
        assert NextPath(t, p) == NextPath(t, q);
        NextPathLast(t, q);
        assert q + [p[|p| - 1]] == p;
        NodeAtSnoc(t, q, p[|p| - 1]);
        var lo := match NextPath(t, q) case Some(r) => |r| case None => 0;
        forall d | lo < d <= |p|
          ensures PrefixIsLast(t, p, d)
        {
          if d < |p| {
            PrefixIsLastOfPrefix(t, p, d);
          } else {
            assert p[..d - 1] == q;
          }
        }
      }
    }
  }

  /** Whether a node on the path is the last of its siblings does not depend on the steps below it. */
  lemma {:induction false} PrefixIsLastOfPrefix<T>(t: Tree<T>, p: seq<nat>, d: nat)
    requires IsPath(t, p) && 0 < d < |p|
    ensures IsPath(t, p[..|p| - 1])
    ensures PrefixIsLast(t, p, d) == PrefixIsLast(t, p[..|p| - 1], d)
  {
    var q := p[..|p| - 1];
    PrefixIsPath(t, p, |p| - 1);
    assert p[..d - 1] == q[..d - 1] && p[d - 1] == q[d - 1];
  }

  /**
   * What nextIndex finds is a path of the tree, no deeper than the
   * start: the next sibling of the start or of one of its ancestors, so
   * never a child. None means that the start and every ancestor is the
   * last of its siblings.
   */
  lemma NextPathSpec<T>(t: Tree<T>, p: seq<nat>)
    requires IsPath(t, p)
    ensures match NextPath(t, p)
      case Some(q) =>
        && 0 < |q| <= |p| && IsPath(t, q)
        && q == p[..|q| - 1] + [p[|q| - 1] + 1]
        && forall d :: |q| < d <= |p| ==> PrefixIsLast(t, p, d)
      case None => forall d :: 0 < d <= |p| ==> PrefixIsLast(t, p, d)
  {
    NextPathShape(t, p);
    NextPathLast(t, p);
  }

  /**
   * The node that the first d steps of the path lead to is the last of
   * its siblings.
   */
  predicate PrefixIsLast<T>(t: Tree<T>, p: seq<nat>, d: nat)
    requires IsPath(t, p) && 0 < d <= |p|
  {
    PrefixIsPath(t, p, d - 1);
    p[d - 1] + 1 == |NodeAt(t, p[..d - 1]).children|
  }

  /**
   * What prevIndex finds is a path of the tree, no deeper than the
   * start: the previous sibling of the start or of one of its ancestors.
   * None means that the start and every ancestor is the first of its
   * siblings.
   */
  lemma {:induction false} PrevPathSpec<T>(t: Tree<T>, p: seq<nat>)
    requires IsPath(t, p)
    ensures match PrevPath(t, p)
      case Some(q) =>
        && 0 < |q| <= |p| && IsPath(t, q) && p[|q| - 1] > 0
        && q == p[..|q| - 1] + [p[|q| - 1] - 1]
        && forall d :: |q| <= d < |p| ==> p[d] == 0
      case None => forall d :: 0 <= d < |p| ==> p[d] == 0
    decreases |p|
  {
    if p != [] {
      var q := p[..|p| - 1];
      PrefixIsPath(t, p, |p| - 1);
      assert q + [p[|p| - 1]] == p;
      NodeAtSnoc(t, q, p[|p| - 1]);
      if p[|p| - 1] > 0 {
        NodeAtSnoc(t, q, p[|p| - 1] - 1);
      } else {
        PrevPathSpec(t, q);
      }
    }
  }

  /**
   * One pass of nextIndex's loop: with cached indexes, the node's own
   * index is its position, and its next sibling, when there is one, is
   * what the walk finds; otherwise the walk goes on from the parent.
   */
  lemma {:induction false} NextStep<T>(t: Tree<T>, p: seq<nat>)
    requires IndexesCached(t) && IsPath(t, p) && p != []
    ensures IsPath(t, p[..|p| - 1]) && NodeAt(t, p).index == p[|p| - 1]
    ensures match Child(NodeAt(t, p[..|p| - 1]), NodeAt(t, p).index + 1)
      case Some(s) => s.index == p[|p| - 1] + 1 && NextPath(t, p) == Some(p[..|p| - 1] + [p[|p| - 1] + 1])
      case None => NextPath(t, p) == NextPath(t, p[..|p| - 1])
  {
    var q := p[..|p| - 1];
    PrefixIsPath(t, p, |p| - 1);
    CachedAt(t, p);
    CachedAt(t, q);
    assert q + [p[|p| - 1]] == p;
    NodeAtSnoc(t, q, p[|p| - 1]);
  }

  /** One pass of prevIndex's loop, looking for the previous sibling. */
  lemma {:induction false} PrevStep<T>(t: Tree<T>, p: seq<nat>)
    requires IndexesCached(t) && IsPath(t, p) && p != []
    ensures IsPath(t, p[..|p| - 1]) && NodeAt(t, p).index == p[|p| - 1]
    ensures match Child(NodeAt(t, p[..|p| - 1]), NodeAt(t, p).index - 1)
      case Some(s) => p[|p| - 1] > 0 && s.index == p[|p| - 1] - 1 && PrevPath(t, p) == Some(p[..|p| - 1] + [p[|p| - 1] - 1])
      case None => PrevPath(t, p) == PrevPath(t, p[..|p| - 1])
  {
    var q := p[..|p| - 1];
    PrefixIsPath(t, p, |p| - 1);
    CachedAt(t, p);
    CachedAt(t, q);
    assert q + [p[|p| - 1]] == p;
    NodeAtSnoc(t, q, p[|p| - 1]);
  }

  /**
   * Going back from the item nextIndex found lands on the start or on
   * the ancestor of the start at the found item's depth.
   */
  lemma {:induction false} NextThenPrev<T>(t: Tree<T>, p: seq<nat>)
    requires IsPath(t, p)
    ensures match NextPath(t, p)
      case Some(q) => |q| <= |p| && IsPath(t, q) && PrevPath(t, q) == Some(p[..|q|])
      case None => true
  {
    NextPathShape(t, p);
    match NextPath(t, p)
    case Some(q) =>
      var k := |q| - 1;
      assert q[..k] == p[..k] && q[k] == p[k] + 1;
      assert p[..|q|] == p[..k] + [p[k]];
      assert q[..|q| - 1] == p[..k];
    case None =>
  }

  class LocationTreeModel {
    var root: LocTree

    /** Every node's cached index is its position among its siblings. */
    predicate Valid()
      reads this
    {
      IndexesCached(root)
    }

    /** An index the model could have handed out: invalid, or the path of an item. */
    predicate IsIndex(idx: TreeIndex)
      reads this
    {
      idx.NoIndex? || (idx.path != [] && IsPath(root, idx.path))
    }

    constructor ()
      ensures Valid() && root.children == [] && !root.data.locationsAdded
    {
      root := Item(LocItem(EmptyLocation(), false));
    }

    /**
     * add: marks the target node as filled, even for no locations, and
     * appends one fresh child per location in order.
     */
    method Add(locs: seq<Location>, parent: TreeIndex)
      requires Valid() && IsIndex(parent)
      modifies this
      ensures Valid() && IsIndex(parent)
      ensures var p := Target(parent); var n := NodeAt(old(root), p);
        root == Replace(old(root), p, AddedAll(n.(data := n.data.(locationsAdded := true)), locs))
        && IsPath(root, p) && NodeAt(root, p) == AddedAll(n.(data := n.data.(locationsAdded := true)), locs)
    {
      var p := Target(parent);
      var node := NodeAt(root, p);
      node := node.(data := node.data.(locationsAdded := true));
      ghost var marked := node;
      CachedAt(root, p);
      assert IndexesCached(marked);
      var i := 0;
      while i < |locs|
        invariant 0 <= i <= |locs|
        invariant node == AddedAll(marked, locs[..i])
      {
        assert locs[..i + 1][..i] == locs[..i];
        node := AddChild(node, NewItem(locs[i]));
        i := i + 1;
      }
      assert locs[..i] == locs;
      AddedAllSpec(marked, locs);
      ReplaceSpec(root, p, node);
      root := Replace(root, p, node);
    }

    /** isEmpty: Unknown if add() was never called on the node; otherwise Empty or Full by its children. */
    function IsEmpty(idx: TreeIndex): (r: IsEmptyResult)
      reads this
      requires IsIndex(idx)
    {
      var node := NodeAt(root, Target(idx));
      if !node.data.locationsAdded then Unknown
      else if ChildCount(node) == 0 then Empty
      else Full
    }

    /**
     * clear: a node with children loses them all and its flag; clearing
     * a childless node, the root included, changes nothing.
     */
    method Clear(parent: TreeIndex)
      requires Valid() && IsIndex(parent)
      modifies this
      ensures Valid() && IsIndex(parent)
      ensures var p := Target(parent); var n := NodeAt(old(root), p);
        root == if n.children == [] then old(root)
          else Replace(old(root), p, Node(n.data.(locationsAdded := false), n.index, []))
    {
      var p := Target(parent);
      var node := NodeAt(root, p);
      if ChildCount(node) == 0 {
        return;
      }
      var cleared := TreeItems.Clear(node);
      cleared := cleared.(data := cleared.data.(locationsAdded := false));
      ReplaceSpec(root, p, cleared);
      root := Replace(root, p, cleared);
    }

    /** locationFromIndex: the location of an item; the invalid index has none. */
    function LocationFromIndex(idx: TreeIndex): (r: Option<Location>)
      reads this
      requires IsIndex(idx)
      ensures r.None? <==> idx.NoIndex?
    {
      if idx.NoIndex? then None else Some(NodeAt(root, idx.path).data.loc)
    }

    /** firstLocation: the first top-level item's location, failing exactly when there is none. */
    function FirstLocation(): (r: Option<Location>)
      reads this
      ensures r.None? <==> root.children == []
      ensures r.Some? ==> r.value == root.children[0].data.loc
    {
      if ChildCount(root) == 0 then None else Some(root.children[0].data.loc)
    }

    /** rowCount: the number of children of the node. */
    function RowCount(parent: TreeIndex): nat
      reads this
      requires IsIndex(parent)
    {
      ChildCount(NodeAt(root, Target(parent)))
    }

    /** index(row, 0, parent): the child at the row of the parent's node, invalid when there is none. */
    function Index(row: int, parent: TreeIndex): (r: TreeIndex)
      reads this
      requires IsIndex(parent)
      ensures r.At? <==> 0 <= row < RowCount(parent)
      ensures r.At? ==> r.path == Target(parent) + [row as nat] && IsIndex(r)
    {
      var p := Target(parent);
      match Child(NodeAt(root, p), row)
      case None => NoIndex
      case Some(_) =>
        NodeAtSnoc(root, p, row as nat);
        At(p + [row as nat])
    }

    /** parent: the item above an item, invalid for a top-level item and for the invalid index. */
    function Parent(idx: TreeIndex): (r: TreeIndex)
      reads this
      requires IsIndex(idx)
      ensures r.At? <==> idx.At? && |idx.path| > 1
      ensures r.At? ==> r.path == idx.path[..|idx.path| - 1] && IsIndex(r)
    {
      if idx.NoIndex? || |idx.path| == 1 then NoIndex
      else
        PrefixIsPath(root, idx.path, |idx.path| - 1);
        At(idx.path[..|idx.path| - 1])
    }

    /** The index nextIndex returns. */
    function NextOf(idx: TreeIndex): TreeIndex
      reads this
      requires IsIndex(idx)
    {
      if idx.NoIndex? then Index(0, NoIndex)
      else match NextPath(root, idx.path)
        case None => NoIndex
        case Some(q) => At(q)
    }

    /** The index prevIndex returns: the first item, too, for the invalid index. */
    function PrevOf(idx: TreeIndex): TreeIndex
      reads this
      requires IsIndex(idx)
    {
      if idx.NoIndex? then Index(0, NoIndex)
      else match PrevPath(root, idx.path)
        case None => NoIndex
        case Some(q) => At(q)
    }

    /** nextIndex, with its loop up the tree through the parents. */
    method NextIndex(idx: TreeIndex) returns (r: TreeIndex)
      requires Valid() && IsIndex(idx)
      ensures r == NextOf(idx) && IsIndex(r)
    {
      if idx.NoIndex? {
        return Index(0, NoIndex);
      }
      NextPathShape(root, idx.path);
      var p: seq<nat> := idx.path;
      while p != []
        invariant IsPath(root, p)
        invariant NextPath(root, p) == NextPath(root, idx.path)
        decreases |p|
      {
        NextStep(root, p);
        var q := p[..|p| - 1];
        var node := NodeAt(root, p);
        match Child(NodeAt(root, q), node.index + 1)
        case Some(sibling) =>
          var row: nat := sibling.index;
          return At(q + [row]);
        case None =>
        p := q;
      }
      return NoIndex;
    }

    /** prevIndex, with the same loop looking for previous siblings. */
    method PrevIndex(idx: TreeIndex) returns (r: TreeIndex)
      requires Valid() && IsIndex(idx)
      ensures r == PrevOf(idx) && IsIndex(r)
    {
      if idx.NoIndex? {
        return Index(0, NoIndex);
      }
      PrevPathSpec(root, idx.path);
      var p: seq<nat> := idx.path;
      while p != []
        invariant IsPath(root, p)
        invariant PrevPath(root, p) == PrevPath(root, idx.path)
        decreases |p|
      {
        PrevStep(root, p);
        var q := p[..|p| - 1];
        var node := NodeAt(root, p);
        match Child(NodeAt(root, q), node.index - 1)
        case Some(sibling) =>
          var row: nat := sibling.index;
          return At(q + [row]);
        case None =>
        p := q;
      }
      return NoIndex;
    }
  }

  /** Adding the locations keeps the node's data and adds one child per location. */
  lemma {:induction false} AddedShape(n: LocTree, locs: seq<Location>)
    ensures AddedAll(n, locs).data == n.data
    ensures |AddedAll(n, locs).children| == |n.children| + |locs|
  {
    AddedAllSpec(n, locs);
  }

  /** The child added for the j-th location sits right after the node's earlier children and holds that location. */
  lemma {:induction false} AddedChildAt(t: LocTree, p: seq<nat>, n: LocTree, locs: seq<Location>, j: nat)
    requires IsPath(t, p) && NodeAt(t, p) == AddedAll(n, locs) && j < |locs|
    ensures IsPath(t, p + [|n.children| + j]) && NodeAt(t, p + [|n.children| + j]).data.loc == locs[j]
  {
    AddedAllSpec(n, locs);
    NodeAtSnoc(t, p, |n.children| + j);
  }

  /**
   * After add, the target node is never Unknown: it is Empty exactly when
   * it had no children and no locations were given, Full otherwise; the
   * new children hold the locations in order.
   */
  method AddThenIsEmpty(m: LocationTreeModel, locs: seq<Location>, parent: TreeIndex)
    requires m.Valid() && m.IsIndex(parent)
    modifies m
    ensures m.IsIndex(parent)
    ensures m.IsEmpty(parent) == if old(m.RowCount(parent)) == 0 && locs == [] then Empty else Full
    ensures m.RowCount(parent) == old(m.RowCount(parent)) + |locs|
    ensures forall j :: 0 <= j < |locs| ==>
      m.LocationFromIndex(m.Index(old(m.RowCount(parent)) + j, parent)) == Some(locs[j])
  {
    ghost var p := Target(parent);
    ghost var n := NodeAt(m.root, p);
    ghost var before := m.RowCount(parent);
    m.Add(locs, parent);
    ghost var marked := n.(data := n.data.(locationsAdded := true));
    AddedShape(marked, locs);
    forall j | 0 <= j < |locs|
      ensures m.LocationFromIndex(m.Index(before + j, parent)) == Some(locs[j])
    {
      AddedChildAt(m.root, p, marked, locs, j);
    }
  }

  /** The parent of the index of a child is the index it was made under: invalid for a top-level item. */
  lemma ParentOfIndex(m: LocationTreeModel, row: int, parent: TreeIndex)
    requires m.IsIndex(parent)
    ensures m.Index(row, parent).At? ==> m.Parent(m.Index(row, parent)) == parent
  {
    if m.Index(row, parent).At? && parent.At? {
      assert (parent.path + [row as nat])[..|parent.path|] == parent.path;
    }
  }

  /** The walk forward from the invalid index starts at the first top-level item, as does the walk back. */
  lemma InvalidStartsAtFirst(m: LocationTreeModel)
    ensures m.NextOf(NoIndex) == m.PrevOf(NoIndex)
    ensures m.NextOf(NoIndex) == (if m.root.children == [] then NoIndex else At([0]))
    ensures m.NextOf(NoIndex).At? ==> m.LocationFromIndex(m.NextOf(NoIndex)) == m.FirstLocation()
  {
    NodeAtSnoc(m.root, [], 0);
    assert Target(NoIndex) + [0] == [] + [0] == [0];
  }
}
