/**
 * The tree of files of a code base (core/codebasemodel.cpp): file paths
 * are broken into their components below the root path and inserted as
 * a path of tree nodes; walking the tree gives the file paths back.
 */
module CodebaseModel {
  import opened Globals
  import opened TreeItems

  /** QDir::separator() on a Unix system, where toNativeSeparators changes nothing. */
  const Sep: char := '/'

  /** The path below the root: the root string is cut off whenever the path starts with it. */
  function RelativePath(root: string, path: string): (r: string)
    ensures StartsWith(path, root) ==> root + r == path
    ensures !StartsWith(path, root) ==> r == path
  {
    if StartsWith(path, root) then path[|root|..] else path
  }

  /** The components of a path below the root, repeated separators collapsed. */
  function PathParts(root: string, path: string): seq<string>
  {
    Split(RelativePath(root, path), Sep)
  }

  /**
   * The descent of addFile: follow the child holding each component,
   * adding one where there is none.
   */
  function Inserted(t: Tree<string>, parts: seq<string>): (r: Tree<string>)
    ensures r.data == t.data && r.index == t.index
    decreases |parts|
  {
    if parts == [] then t
    else match FirstWith(t.children, parts[0])
      case Some(k) => t.(children := t.children[k := Inserted(t.children[k], parts[1..])])
      case None =>
        var u := AddChild(t, parts[0]);
        u.(children := u.children[|t.children| := Inserted(u.children[|t.children|], parts[1..])])
  }

  /** addFile on the root node. */
  function AddFile(root: Tree<string>, path: string): Tree<string>
  {
    Inserted(root, PathParts(root.data, path))
  }

  /** addFiles: the files one after the other, in list order. */
  function AddFiles(root: Tree<string>, paths: seq<string>): Tree<string>
  {
    if paths == [] then root else AddFile(AddFiles(root, paths[..|paths| - 1]), paths[|paths| - 1])
  }

  /**
   * The recursive getFiles: a childless node is a file and gives its full
   * path; any other node is a directory, whose path gets a trailing
   * separator if it has none, and gives the files of its children in order.
   */
  function Files(t: Tree<string>, path: string): seq<string>
    decreases t, 1
  {
    var name := path + t.data;
    if t.children == [] then [name]
    else FilesOf(t.children, if EndsWith(name, Sep) then name else name + [Sep])
  }

  function FilesOf(ts: seq<Tree<string>>, dir: string): seq<string>
    decreases ts, 0
  {
    if ts == [] then [] else FilesOf(ts[..|ts| - 1], dir) + Files(ts[|ts| - 1], dir)
  }

  /** Inserting a path leaves the child for its first component first among the children holding that name. */
  lemma InsertedFindsSameChild(t: Tree<string>, parts: seq<string>)
    requires parts != []
    ensures var r := Inserted(t, parts);
      && FirstWith(r.children, parts[0]).Some?
      && var k := FirstWith(r.children, parts[0]).value;
         k < |r.children| && r.children[k] == Inserted(if k < |t.children| then t.children[k] else Node(parts[0], k, []), parts[1..])
  {
    var r := Inserted(t, parts);
    match FirstWith(t.children, parts[0])
    case Some(k) =>
      FirstWithIsFirst(r.children, parts[0], k);
    case None =>
      var n := |t.children|;
      assert forall j :: 0 <= j < n ==> r.children[j] == t.children[j];
      FirstWithIsFirst(r.children, parts[0], n);
  }

  /** Adding a path that is already there changes nothing: addFile is idempotent. */
  lemma {:induction false} InsertedIdempotent(t: Tree<string>, parts: seq<string>)
    ensures Inserted(Inserted(t, parts), parts) == Inserted(t, parts)
    decreases |parts|
  {
    if parts != [] {
      var r := Inserted(t, parts);
      InsertedFindsSameChild(t, parts);
      var k := FirstWith(r.children, parts[0]).value;
      var c := if k < |t.children| then t.children[k] else Node(parts[0], k, []);
      InsertedIdempotent(c, parts[1..]);
      assert r.children[k := Inserted(r.children[k], parts[1..])] == r.children;
    }
  }

  /** Adding the same file twice leaves the tree as adding it once. */
  lemma AddFileTwice(root: Tree<string>, path: string)
    ensures AddFile(AddFile(root, path), path) == AddFile(root, path)
  {
    InsertedIdempotent(root, PathParts(root.data, path));
  }

  /** With no files added, the childless root counts as a file and the only path given is the root path. */
  lemma NoFilesGivesRoot(rootPath: string)
    ensures Files(AddFiles(Item(rootPath), []), "") == [rootPath]
  {
    assert "" + rootPath == rootPath;
  }

  /** The root prefix test is on strings, not components: root /a also cuts /ab/c to b and c. */
  lemma RootPrefixIsTextual()
    ensures PathParts("/a", "/ab/c") == ["b", "c"]
  {
    assert RelativePath("/a", "/ab/c") == "b/c";
    assert "b/c" == "b" + [Sep] + "c";
    SplitAround("b", Sep, "c");
    SplitPiece("b", Sep);
    SplitPiece("c", Sep);
  }

  /** Doubled separators are collapsed: a//b has the components of a/b. */
  lemma SeparatorsCollapse(root: string, a: string, b: string)
    requires StartsWith(a, root)
    ensures PathParts(root, a + [Sep, Sep] + b) == PathParts(root, a + [Sep] + b)
  {
    var rest := a[|root|..];
    assert RelativePath(root, a + [Sep, Sep] + b) == rest + [Sep, Sep] + b;
    assert RelativePath(root, a + [Sep] + b) == rest + [Sep] + b;
    SplitCollapses(rest, Sep, b);
  }

  /** The code base model: the root node, named by the root path. */
  class Codebase {
    var root: Tree<string>

    /**
     * The model of a code base under a root path: a root item named by the
     * path, then every file the code base lists, added in order (the code
     * base hands its files to the getFiles callback, which is a parameter
     * here).
     */
    constructor (rootPath: string, codebaseFiles: seq<string>)
      ensures root == AddFiles(Item(rootPath), codebaseFiles)
    {
      root := Item(rootPath);
      new;
      AddFilesTo(codebaseFiles);
    }

    /** addFiles, with its loop over the list. */
    method AddFilesTo(fileList: seq<string>)
      modifies this
      ensures root == AddFiles(old(root), fileList)
    {
      var i := 0;
      while i < |fileList|
        invariant 0 <= i <= |fileList|
        invariant root == AddFiles(old(root), fileList[..i])
      {
        assert fileList[..i + 1][..i] == fileList[..i];
        root := AddFile(root, fileList[i]);
        i := i + 1;
      }
      assert fileList[..i] == fileList;
    }

    /** getFiles: the list the recursive walk fills, starting at the root with an empty path. */
    method GetFiles() returns (fileList: seq<string>)
      ensures fileList == Files(root, "")
    {
      fileList := GetFilesFrom(root, "", []);
    }
  }

  /** The recursive getFiles: appends the files below a node, in order, to the list. */
  method GetFilesFrom(t: Tree<string>, path: string, fileList: seq<string>) returns (out: seq<string>)
    ensures out == fileList + Files(t, path)
    decreases t
  {
    var name := path + t.data;
    if |t.children| > 0 {
      if !EndsWith(name, Sep) {
        name := name + [Sep];
      }
      out := fileList;
      var i := 0;
      while i < |t.children|
        invariant 0 <= i <= |t.children|
        invariant out == fileList + FilesOf(t.children[..i], name)
      {
        assert t.children[..i + 1][..i] == t.children[..i];
        out := GetFilesFrom(t.children[i], name, out);
        i := i + 1;
      }
      assert t.children[..i] == t.children;
    } else {
      out := fileList + [name];
    }
  }
}
