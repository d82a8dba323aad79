/**
 * The round trip of the code-base file tree (core/codebasemodel.cpp):
 * getFiles after addFiles gives back exactly the files added, when every
 * file lies below the root, is written with single separators, and is
 * not the directory of another file.
 *
 * The tree is described by the component paths it holds: a node is
 * reached by following children named by successive components, and the
 * files getFiles reports are the childless nodes reached that way.
 */
module CodebaseRoundTrip {
  import opened Globals
  import opened TreeItems
  import opened CodebaseModel

  /** Whether following children named by the components of p from t reaches a node. */
  predicate HasPath(t: Tree<string>, p: seq<string>)
    decreases p
  {
    p == [] || exists k :: 0 <= k < |t.children| && t.children[k].data == p[0] && HasPath(t.children[k], p[1..])
  }

  /** Whether following p from t reaches a childless node, which getFiles reports as a file. */
  predicate IsLeafPath(t: Tree<string>, p: seq<string>)
    decreases p
  {
    if p == [] then t.children == []
    else exists k :: 0 <= k < |t.children| && t.children[k].data == p[0] && IsLeafPath(t.children[k], p[1..])
  }

  /** No two children of a node hold the same name, at any depth. */
  predicate Distinct(t: Tree<string>)
    decreases t
  {
    && (forall i, j :: 0 <= i < j < |t.children| ==> t.children[i].data != t.children[j].data)
    && (forall i :: 0 <= i < |t.children| ==> Distinct(t.children[i]))
  }

  /** A directory's path as getFiles extends it: with a separator at its end. */
  function Dir(name: string): (d: string)
    ensures EndsWith(d, Sep)
  {
    if EndsWith(name, Sep) then name else name + [Sep]
  }

  /** The path getFiles builds for the node reached by p from a node whose path is name. */
  function Render(name: string, p: seq<string>): string
    decreases p
  {
    if p == [] then name else Render(Dir(name) + p[0], p[1..])
  }

  /** The components joined with single separators. */
  function JoinSep(parts: seq<string>): string
    decreases |parts|
  {
    if parts == [] then [] else if |parts| == 1 then parts[0] else parts[0] + [Sep] + JoinSep(parts[1..])
  }

  /** Components as split produces them: at least one, none empty, none holding a separator. */
  predicate PlainParts(parts: seq<string>)
  {
    parts != [] && forall i :: 0 <= i < |parts| ==> parts[i] != [] && Sep !in parts[i]
  }

  /** A relative path written with single separators, without one at either end. */
  predicate Normal(rel: string)
  {
    && rel != [] && rel[0] != Sep && rel[|rel| - 1] != Sep
    && forall i :: 0 <= i < |rel| - 1 ==> !(rel[i] == Sep && rel[i + 1] == Sep)
  }

  /** A normal relative path splits into plain components that join back into it. */
  lemma {:induction false} NormalSplitJoin(rel: string)
    requires Normal(rel)
    ensures PlainParts(Split(rel, Sep)) && JoinSep(Split(rel, Sep)) == rel
    decreases |rel|
  {
    var k := FirstIndex(rel, Sep);
    if k == |rel| {
      assert Split(rel, Sep) == [rel];
    } else {
      assert k != 0;
      assert k < |rel| - 1;
      var rest := rel[k + 1..];
      assert rest[0] != Sep by { assert rel[k] == Sep; }
      assert rest[|rest| - 1] == rel[|rel| - 1];
      forall i | 0 <= i < |rest| - 1
        ensures !(rest[i] == Sep && rest[i + 1] == Sep)
      {
        assert rest[i] == rel[k + 1 + i] && rest[i + 1] == rel[k + 1 + i + 1];
      }
      NormalSplitJoin(rest);
      var parts := Split(rel, Sep);
      assert parts == [rel[..k]] + Split(rest, Sep);
      assert parts[1..] == Split(rest, Sep);
      assert JoinSep(parts) == rel[..k] + [Sep] + rest;
      assert rel == rel[..k] + [Sep] + rest;
    }
  }

  /** Rendering plain components below a directory joins them after its separator. */
  lemma {:induction false} RenderJoin(name: string, parts: seq<string>)
    requires PlainParts(parts)
    ensures Render(name, parts) == Dir(name) + JoinSep(parts)
    decreases |parts|
  {
    var next := Dir(name) + parts[0];
    if |parts| == 1 {
      assert Render(next, parts[1..]) == next;
    } else {
      PlainTail(parts);
      RenderJoin(next, parts[1..]);
      RenderJoinStep(name, parts);
    }
  }

  /** RenderJoin for more than one component, given RenderJoin below the first one. */
  lemma {:induction false} RenderJoinStep(name: string, parts: seq<string>)
    requires PlainParts(parts) && |parts| > 1
    requires Render(Dir(name) + parts[0], parts[1..]) == Dir(Dir(name) + parts[0]) + JoinSep(parts[1..])
    ensures Render(name, parts) == Dir(name) + JoinSep(parts)
  {
    var d, j := Dir(name), JoinSep(parts[1..]);
    var next := d + parts[0];
    assert !EndsWith(next, Sep) by {
      assert next[|next| - 1] == parts[0][|parts[0]| - 1];
      assert parts[0][|parts[0]| - 1] in parts[0];
    }
    assert Dir(next) == next + [Sep];
    assert JoinSep(parts) == parts[0] + [Sep] + j;
    AppendAssoc(d, parts[0], [Sep]);
    AppendAssoc(d, parts[0] + [Sep], j);
  }

  /** The components after the first of plain components are plain. */
  lemma {:induction false} PlainTail(parts: seq<string>)
    requires PlainParts(parts) && |parts| > 1
    ensures PlainParts(parts[1..])
  {
    forall i | 0 <= i < |parts[1..]|
      ensures parts[1..][i] != [] && Sep !in parts[1..][i]
    {
      assert parts[1..][i] == parts[i + 1];
    }
  }

  /** Joining plain components keeps a prefix of them as a prefix of the text, followed by a separator. */
  lemma {:induction false} JoinSepPrefix(p: seq<string>, q: seq<string>)
    requires PlainParts(q) && p != [] && |p| < |q| && p == q[..|p|]
    ensures JoinSep(q) == JoinSep(p) + [Sep] + JoinSep(q[|p|..])
    decreases |p|
  {
    if |p| > 1 {
      PlainTail(q);
      assert p[1..] == q[1..][..|p[1..]|];
      JoinSepPrefix(p[1..], q[1..]);
      assert q[1..][|p[1..]|..] == q[|p|..];
      assert p[0] == q[0];
    } else {
      assert p == [q[0]];
    }
  }

  /**
   * Inserting a component path adds exactly that path and its prefixes
   * to the paths of the tree.
   */
  lemma {:induction false} InsertedPaths(t: Tree<string>, parts: seq<string>, q: seq<string>)
    ensures HasPath(Inserted(t, parts), q) <==> HasPath(t, q) || q <= parts
    decreases |parts|
  {
    if parts != [] && q != [] {
      match FirstWith(t.children, parts[0])
      case Some(k) =>
        InsertedPaths(t.children[k], parts[1..], q[1..]);
        InsertedPathsBelow(t, parts, q, k);
      case None =>
        InsertedPaths(Node(parts[0], |t.children|, []), parts[1..], q[1..]);
        InsertedPathsNew(t, parts, q);
    }
  }

  /** InsertedPaths one level down, through an existing child named by the first component. */
  lemma {:induction false} InsertedPathsBelow(t: Tree<string>, parts: seq<string>, q: seq<string>, k: nat)
    requires parts != [] && q != [] && FirstWith(t.children, parts[0]) == Some(k)
    requires HasPath(Inserted(t.children[k], parts[1..]), q[1..]) <==> HasPath(t.children[k], q[1..]) || q[1..] <= parts[1..]
    ensures HasPath(Inserted(t, parts), q) <==> HasPath(t, q) || q <= parts
  {
    var r := Inserted(t, parts);
    var c := t.children[k];
    assert r.children == t.children[k := Inserted(c, parts[1..])];
    if HasPath(r, q) {
      var j :| 0 <= j < |r.children| && r.children[j].data == q[0] && HasPath(r.children[j], q[1..]);
      if j != k {
        assert HasPath(t, q);
      } else if HasPath(c, q[1..]) {
        assert HasPath(t, q);
      } else {
        assert q <= parts;
      }
    }
    if HasPath(t, q) {
      var j :| 0 <= j < |t.children| && t.children[j].data == q[0] && HasPath(t.children[j], q[1..]);
      assert r.children[j].data == q[0] && HasPath(r.children[j], q[1..]);
    }
    if q <= parts {
      assert q[1..] <= parts[1..];
      assert r.children[k].data == q[0] && HasPath(r.children[k], q[1..]);
    }
  }

  /** InsertedPaths one level down, through a new child named by the first component. */
  lemma {:induction false} InsertedPathsNew(t: Tree<string>, parts: seq<string>, q: seq<string>)
    requires parts != [] && q != [] && FirstWith(t.children, parts[0]).None?
    requires var leaf := Node(parts[0], |t.children|, []);
      HasPath(Inserted(leaf, parts[1..]), q[1..]) <==> HasPath(leaf, q[1..]) || q[1..] <= parts[1..]
    ensures HasPath(Inserted(t, parts), q) <==> HasPath(t, q) || q <= parts
  {
    var r := Inserted(t, parts);
    var n := |t.children|;
    var leaf := Node(parts[0], n, []);
    assert r.children == t.children + [Inserted(leaf, parts[1..])];
    assert HasPath(leaf, q[1..]) <==> q[1..] == [];
    if HasPath(r, q) {
      var j :| 0 <= j < |r.children| && r.children[j].data == q[0] && HasPath(r.children[j], q[1..]);
      if j < n {
        assert r.children[j] == t.children[j];
        assert HasPath(t, q);
      } else {
        assert q[1..] <= parts[1..];
        assert q <= parts;
      }
    }
    if HasPath(t, q) {
      var j :| 0 <= j < |t.children| && t.children[j].data == q[0] && HasPath(t.children[j], q[1..]);
      assert r.children[j] == t.children[j];
    }
    if q <= parts {
      assert q[1..] <= parts[1..];
      assert r.children[n].data == q[0] && HasPath(r.children[n], q[1..]);
    }
  }

  /** Insertion never gives two children of a node the same name. */
  lemma {:induction false} InsertedDistinct(t: Tree<string>, parts: seq<string>)
    requires Distinct(t)
    ensures Distinct(Inserted(t, parts))
    decreases |parts|
  {
    if parts != [] {
      var r := Inserted(t, parts);
      match FirstWith(t.children, parts[0])
      case Some(k) =>
        InsertedDistinct(t.children[k], parts[1..]);
        assert r.children == t.children[k := Inserted(t.children[k], parts[1..])];
        assert forall i :: 0 <= i < |r.children| ==> r.children[i].data == t.children[i].data;
      case None =>
        var n := |t.children|;
        var leaf := Node(parts[0], n, []);
        InsertedDistinct(leaf, parts[1..]);
        assert r.children == t.children + [Inserted(leaf, parts[1..])];
        assert forall i :: 0 <= i < n ==> r.children[i] == t.children[i];
    }
  }

  /**
   * With distinct names, a path leads to a childless node exactly when
   * the tree holds it and no longer path through it.
   */
  lemma {:induction false} LeafIsMaximal(t: Tree<string>, p: seq<string>)
    requires Distinct(t)
    ensures IsLeafPath(t, p) <==> HasPath(t, p) && forall x :: !HasPath(t, p + [x])
    decreases p
  {
    if p == [] {
      forall x
        ensures HasPath(t, p + [x]) <==> exists k :: 0 <= k < |t.children| && t.children[k].data == x
      {
        assert (p + [x])[0] == x && (p + [x])[1..] == [];
      }
      if t.children != [] {
        assert HasPath(t, p + [t.children[0].data]);
      }
    } else {
      forall x
        ensures (p + [x])[0] == p[0] && (p + [x])[1..] == p[1..] + [x]
      {
      }
      if k :| 0 <= k < |t.children| && t.children[k].data == p[0] {
        var c := t.children[k];
        assert forall j :: 0 <= j < |t.children| && t.children[j].data == p[0] ==> j == k;
        LeafIsMaximal(c, p[1..]);
        assert IsLeafPath(t, p) <==> IsLeafPath(c, p[1..]);
        assert HasPath(t, p) <==> HasPath(c, p[1..]);
        forall x
          ensures HasPath(t, p + [x]) <==> HasPath(c, p[1..] + [x])
        {
        }
      } else {
        assert !IsLeafPath(t, p) && !HasPath(t, p);
      }
    }
  }

  /** A file under one of a list of children is reported for the list. */
  lemma {:induction false} FilesOfComplete(ts: seq<Tree<string>>, dir: string, k: nat, s: string)
    requires k < |ts| && s in Files(ts[k], dir)
    ensures s in FilesOf(ts, dir)
    decreases |ts|
  {
    if k < |ts| - 1 {
      FilesOfComplete(ts[..|ts| - 1], dir, k, s);
    }
  }

  /** A file reported for a list of children is under one of them. */
  lemma {:induction false} FilesOfSound(ts: seq<Tree<string>>, dir: string, s: string) returns (k: nat)
    requires s in FilesOf(ts, dir)
    ensures k < |ts| && s in Files(ts[k], dir)
    decreases |ts|
  {
    var init := ts[..|ts| - 1];
    if s in FilesOf(init, dir) {
      k := FilesOfSound(init, dir, s);
      assert init[k] == ts[k];
    } else {
      k := |ts| - 1;
    }
  }

  /** getFiles reports the rendering of every leaf path. */
  lemma {:induction false} FilesComplete(t: Tree<string>, path: string, p: seq<string>)
    requires IsLeafPath(t, p)
    ensures Render(path + t.data, p) in Files(t, path)
    decreases t
  {
    var name := path + t.data;
    if p != [] {
      var k :| 0 <= k < |t.children| && t.children[k].data == p[0] && IsLeafPath(t.children[k], p[1..]);
      var c := t.children[k];
      var dir := Dir(name);
      FilesComplete(c, dir, p[1..]);
      assert Render(name, p) == Render(dir + c.data, p[1..]);
      FilesOfComplete(t.children, dir, k, Render(name, p));
    }
  }

  /** Everything getFiles reports is the rendering of a leaf path. */
  lemma {:induction false} FilesSound(t: Tree<string>, path: string, s: string) returns (p: seq<string>)
    requires s in Files(t, path)
    ensures IsLeafPath(t, p) && s == Render(path + t.data, p)
    decreases t
  {
    var name := path + t.data;
    if t.children == [] {
      p := [];
    } else {
      var dir := Dir(name);
      var k := FilesOfSound(t.children, dir, s);
      var c := t.children[k];
      var p' := FilesSound(c, dir, s);
      p := [c.data] + p';
      assert p[0] == c.data && p[1..] == p';
      assert IsLeafPath(t, p);
    }
  }

  /** addFiles keeps the root's name. */
  lemma {:induction false} AddFilesRoot(root: Tree<string>, paths: seq<string>)
    ensures AddFiles(root, paths).data == root.data
    decreases |paths|
  {
    if paths != [] {
      AddFilesRoot(root, paths[..|paths| - 1]);
    }
  }

  /** The components of each file, in list order. */
  function AllParts(rootPath: string, paths: seq<string>): (ps: seq<seq<string>>)
    ensures |ps| == |paths|
    ensures forall i :: 0 <= i < |paths| ==> ps[i] == PathParts(rootPath, paths[i])
  {
    seq(|paths|, i requires 0 <= i < |paths| => PathParts(rootPath, paths[i]))
  }

  /** Whether q is a prefix of one of the component lists. */
  predicate CoveredBy(ps: seq<seq<string>>, q: seq<string>)
  {
    exists i :: 0 <= i < |ps| && q <= ps[i]
  }

  /** Whether q is a prefix of the components of one of the files. */
  predicate Covered(rootPath: string, paths: seq<string>, q: seq<string>)
  {
    CoveredBy(AllParts(rootPath, paths), q)
  }

  /** The last step of addFiles inserts the components of the last file. */
  lemma {:induction false} AddFilesLast(rootPath: string, paths: seq<string>)
    requires paths != []
    ensures AddFiles(Item(rootPath), paths)
         == Inserted(AddFiles(Item(rootPath), paths[..|paths| - 1]), PathParts(rootPath, paths[|paths| - 1]))
  {
    AddFilesRoot(Item(rootPath), paths[..|paths| - 1]);
  }

  /** addFiles from a fresh root never gives two children of a node the same name. */
  lemma {:induction false} AddFilesDistinct(rootPath: string, paths: seq<string>)
    ensures Distinct(AddFiles(Item(rootPath), paths))
    decreases |paths|
  {
    if paths != [] {
      AddFilesDistinct(rootPath, paths[..|paths| - 1]);
      AddFilesLast(rootPath, paths);
      InsertedDistinct(AddFiles(Item(rootPath), paths[..|paths| - 1]), PathParts(rootPath, paths[|paths| - 1]));
    }
  }

  /** A prefix is covered by a list of files when it is covered by all but the last or by the last. */
  lemma {:induction false} CoveredSnoc(rootPath: string, paths: seq<string>, q: seq<string>)
    requires paths != []
    ensures Covered(rootPath, paths, q)
       <==> Covered(rootPath, paths[..|paths| - 1], q) || q <= PathParts(rootPath, paths[|paths| - 1])
  {
    var n := |paths| - 1;
    var ps := AllParts(rootPath, paths[..n]);
    var x := PathParts(rootPath, paths[n]);
    assert AllParts(rootPath, paths) == ps + [x];
    CoveredBySnoc(ps, x, q);
  }

  /** A prefix of one of a list of component lists followed by one more. */
  lemma {:induction false} CoveredBySnoc(ps: seq<seq<string>>, x: seq<string>, q: seq<string>)
    ensures CoveredBy(ps + [x], q) <==> CoveredBy(ps, q) || q <= x
  {
    if CoveredBy(ps + [x], q) {
      var i :| 0 <= i < |ps + [x]| && q <= (ps + [x])[i];
      if i < |ps| {
        assert (ps + [x])[i] == ps[i];
      }
    }
    if CoveredBy(ps, q) {
      var i :| 0 <= i < |ps| && q <= ps[i];
      assert (ps + [x])[i] == ps[i];
    }
    if q <= x {
      assert (ps + [x])[|ps|] == x;
    }
  }

  /** The tree built by addFiles from a fresh root holds exactly the prefixes of the files' component paths. */
  lemma {:induction false} AddFilesPaths(rootPath: string, paths: seq<string>, q: seq<string>)
    ensures HasPath(AddFiles(Item(rootPath), paths), q) <==> q == [] || Covered(rootPath, paths, q)
    decreases |paths|
  {
    if paths == [] {
      assert HasPath(Item(rootPath), q) <==> q == [];
    } else {
      var init := paths[..|paths| - 1];
      AddFilesPaths(rootPath, init, q);
      AddFilesLast(rootPath, paths);
      InsertedPaths(AddFiles(Item(rootPath), init), PathParts(rootPath, paths[|paths| - 1]), q);
      CoveredSnoc(rootPath, paths, q);
    }
  }

  /** A file with its relative path: below the root, written with single separators. */
  predicate WellPlaced(rootPath: string, path: string)
  {
    StartsWith(path, rootPath) && Normal(path[|rootPath|..])
  }

  /** A well-placed file is rendered from its components as the same text. */
  lemma {:induction false} RenderPath(rootPath: string, path: string)
    requires EndsWith(rootPath, Sep) && WellPlaced(rootPath, path)
    ensures PlainParts(PathParts(rootPath, path))
    ensures Render(rootPath, PathParts(rootPath, path)) == path
  {
    var rel := path[|rootPath|..];
    assert RelativePath(rootPath, path) == rel;
    NormalSplitJoin(rel);
    RenderJoin(rootPath, Split(rel, Sep));
    assert Dir(rootPath) == rootPath;
    assert rootPath + rel == path;
  }

  /** A normal relative path whose components extend another's continues it after a separator. */
  lemma {:induction false} RelativePrefix(ra: string, rb: string)
    requires Normal(ra) && Normal(rb) && Split(ra, Sep) < Split(rb, Sep)
    ensures StartsWith(rb, ra + [Sep])
  {
    var pa := Split(ra, Sep);
    var pb := Split(rb, Sep);
    NormalSplitJoin(ra);
    NormalSplitJoin(rb);
    JoinSepPrefix(pa, pb);
    assert rb == ra + [Sep] + JoinSep(pb[|pa|..]);
  }

  /** A file whose components extend another's lies in that file's directory. */
  lemma {:induction false} PartsPrefixIsDirectory(rootPath: string, a: string, b: string)
    requires WellPlaced(rootPath, a) && WellPlaced(rootPath, b)
    requires PathParts(rootPath, a) < PathParts(rootPath, b)
    ensures StartsWith(b, a + [Sep])
  {
    var ra := a[|rootPath|..];
    var rb := b[|rootPath|..];
    assert RelativePath(rootPath, a) == ra && RelativePath(rootPath, b) == rb;
    RelativePrefix(ra, rb);
    assert a == rootPath + ra;
    assert b == rootPath + rb;
    StartsWithBelow(rootPath, rb, ra + [Sep]);
    AppendAssoc(rootPath, ra, [Sep]);
  }

  /** A common beginning keeps one text starting with another. */
  lemma {:induction false} StartsWithBelow(r: string, x: string, y: string)
    requires StartsWith(x, y)
    ensures StartsWith(r + x, r + y)
  {
    assert (r + x)[..|r + y|] == r + x[..|y|];
  }

  /** The preconditions of the round trip: a root ending with a separator, and well-placed files none of which is another's directory. */
  predicate Separate(rootPath: string, paths: seq<string>)
  {
    && EndsWith(rootPath, Sep) && paths != []
    && (forall i :: 0 <= i < |paths| ==> WellPlaced(rootPath, paths[i]))
    && (forall i, j :: 0 <= i < |paths| && 0 <= j < |paths| ==> !StartsWith(paths[j], paths[i] + [Sep]))
  }

  /** A proper prefix of a file's components can be extended by one component inside the built tree. */
  lemma {:induction false} PrefixExtends(rootPath: string, paths: seq<string>, p: seq<string>, i: nat)
    requires i < |paths| && p < PathParts(rootPath, paths[i])
    ensures HasPath(AddFiles(Item(rootPath), paths), p + [PathParts(rootPath, paths[i])[|p|]])
  {
    var pi := PathParts(rootPath, paths[i]);
    assert p + [pi[|p|]] <= pi;
    AddFilesPaths(rootPath, paths, p + [pi[|p|]]);
  }

  /** Every childless node of the built tree is reached by the components of one of the files. */
  lemma {:induction false} LeafIsFile(rootPath: string, paths: seq<string>, p: seq<string>) returns (i: nat)
    requires Separate(rootPath, paths)
    requires IsLeafPath(AddFiles(Item(rootPath), paths), p)
    ensures i < |paths| && p == PathParts(rootPath, paths[i])
  {
    var t := AddFiles(Item(rootPath), paths);
    AddFilesDistinct(rootPath, paths);
    LeafIsMaximal(t, p);
    AddFilesPaths(rootPath, paths, p);
    if p == [] {
      RenderPath(rootPath, paths[0]);
      PrefixExtends(rootPath, paths, p, 0);
      assert false;
    }
    i :| 0 <= i < |paths| && p <= PathParts(rootPath, paths[i]);
    if p != PathParts(rootPath, paths[i]) {
      PrefixExtends(rootPath, paths, p, i);
      assert false;
    }
  }

  /** The components of every file lead to a childless node of the built tree. */
  lemma {:induction false} FileIsLeaf(rootPath: string, paths: seq<string>, i: nat)
    requires Separate(rootPath, paths) && i < |paths|
    ensures IsLeafPath(AddFiles(Item(rootPath), paths), PathParts(rootPath, paths[i]))
  {
    var t := AddFiles(Item(rootPath), paths);
    var p := PathParts(rootPath, paths[i]);
    AddFilesDistinct(rootPath, paths);
    LeafIsMaximal(t, p);
    AddFilesPaths(rootPath, paths, p);
    assert CoveredBy(AllParts(rootPath, paths), p) by {
      assert AllParts(rootPath, paths)[i] == p;
    }
    forall x
      ensures !HasPath(t, p + [x])
    {
      FileNotExtended(rootPath, paths, i, x);
    }
  }

  /** No node lies below the components of a file in the built tree. */
  lemma {:induction false} FileNotExtended(rootPath: string, paths: seq<string>, i: nat, x: string)
    requires Separate(rootPath, paths) && i < |paths|
    ensures !HasPath(AddFiles(Item(rootPath), paths), PathParts(rootPath, paths[i]) + [x])
  {
    var p := PathParts(rootPath, paths[i]);
    var ps := AllParts(rootPath, paths);
    AddFilesPaths(rootPath, paths, p + [x]);
    if j :| 0 <= j < |ps| && p + [x] <= ps[j] {
      assert p < PathParts(rootPath, paths[j]);
      PartsPrefixIsDirectory(rootPath, paths[i], paths[j]);
    }
  }

  /**
   * getFiles after addFiles on a fresh root: when the root path ends with
   * a separator and every file is well placed and none is the directory
   * of another, the paths reported are exactly the files added.
   */
  lemma {:induction false} GetFilesAfterAddFiles(rootPath: string, paths: seq<string>)
    requires EndsWith(rootPath, Sep) && paths != []
    requires forall i :: 0 <= i < |paths| ==> WellPlaced(rootPath, paths[i])
    requires forall i, j :: 0 <= i < |paths| && 0 <= j < |paths| ==> !StartsWith(paths[j], paths[i] + [Sep])
    ensures forall s :: s in Files(AddFiles(Item(rootPath), paths), "") <==> s in paths
  {
    var t := AddFiles(Item(rootPath), paths);
    AddFilesRoot(Item(rootPath), paths);
    assert "" + t.data == rootPath;
    forall s
      ensures s in Files(t, "") <==> s in paths
    {
      if s in Files(t, "") {
        var p := FilesSound(t, "", s);
        var i := LeafIsFile(rootPath, paths, p);
        RenderPath(rootPath, paths[i]);
      }
      if s in paths {
        var i :| 0 <= i < |paths| && s == paths[i];
        FileIsLeaf(rootPath, paths, i);
        FilesComplete(t, "", PathParts(rootPath, paths[i]));
        RenderPath(rootPath, paths[i]);
      }
    }
  }
}
