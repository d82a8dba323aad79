/**
 * The most-recently-used project list of the application settings
 * (app/settings.cpp): at most ten (path, name) entries, the most recent
 * first, each path once.
 */
module Settings {
  import opened Globals

  datatype RecentProject = RecentProject(path: string, name: string)

  const MaxRecentProjects: nat := 10

  /** No path occurs twice. */
  predicate UniquePaths(xs: seq<RecentProject>)
  {
    forall i, j :: 0 <= i < j < |xs| ==> xs[i].path != xs[j].path
  }

  // ---- removeRecentProject as written

  /**
   * The erase loop of removeRecentProject as written, with the iterator
   * at index i of the current list: after `itr = erase(itr)` the loop's
   * own `++itr` steps over the element that followed the erased one, and
   * when the erased element was the last one it steps past the end,
   * which is undefined (None).
   */
  function RemoveAsWritten(xs: seq<RecentProject>, path: string, i: nat): Option<seq<RecentProject>>
    requires i <= |xs|
    decreases |xs| - i
  {
    if i == |xs| then Some(xs)
    else if xs[i].path == path then
      var ys := xs[..i] + xs[i + 1..];
      if i == |ys| then None else RemoveAsWritten(ys, path, i + 1)
    else RemoveAsWritten(xs, path, i + 1)
  }

  /** Two adjacent entries with the path: the second one survives the removal. */
  lemma RemoveAsWrittenSkipsNeighbour(a: RecentProject, b: RecentProject)
    requires a.path == b.path
    ensures RemoveAsWritten([a, b], a.path, 0) == Some([b])
  {
    assert [a, b][..0] + [a, b][1..] == [b];
  }

  /** Removing the path of the last entry steps the iterator past the end of the list. */
  lemma RemoveAsWrittenPastEnd(a: RecentProject, b: RecentProject)
    requires a.path != b.path
    ensures RemoveAsWritten([a, b], b.path, 0) == None
  {
    assert [a, b][..1] + [a, b][2..] == [a];
  }

  // ---- the intended removal

  /** removeRecentProject as intended: every entry with the path is dropped, the others keep their order. */
  function Removed(xs: seq<RecentProject>, path: string): (ys: seq<RecentProject>)
    ensures |ys| <= |xs|
  {
    if xs == [] then []
    else (if xs[0].path == path then [] else [xs[0]]) + Removed(xs[1..], path)
  }

  /** What removal keeps: exactly the entries with another path, none with this one. */
  lemma {:induction false} RemovedMembers(xs: seq<RecentProject>, path: string)
    ensures forall p :: p in Removed(xs, path) <==> p in xs && p.path != path
    decreases |xs|
  {
    if xs != [] {
      RemovedMembers(xs[1..], path);
      assert xs == [xs[0]] + xs[1..];
    }
  }

  /** Removal keeps paths unique. */
  lemma {:induction false} RemovedUnique(xs: seq<RecentProject>, path: string)
    requires UniquePaths(xs)
    ensures UniquePaths(Removed(xs, path))
    decreases |xs|
  {
    if xs != [] {
      assert UniquePaths(xs[1..]);
      RemovedUnique(xs[1..], path);
      RemovedMembers(xs[1..], path);
      var rest := Removed(xs[1..], path);
      forall q | q in rest
        ensures q.path != xs[0].path
      {
        var k :| 0 <= k < |xs[1..]| && xs[1..][k] == q;
        assert xs[k + 1] == q;
      }
      var h := if xs[0].path == path then [] else [xs[0]];
      var r := h + rest;
      forall i, j | 0 <= i < j < |r|
        ensures r[i].path != r[j].path
      {
        if |h| == 1 && i == 0 {
          assert r[j] == rest[j - 1];
          assert r[j] in rest;
        } else {
          assert r[i] == rest[i - |h|] && r[j] == rest[j - |h|];
        }
      }
    }
  }

  /** Both promises of removal together. */
  lemma RemovedSpec(xs: seq<RecentProject>, path: string)
    ensures forall p :: p in Removed(xs, path) <==> p in xs && p.path != path
    ensures UniquePaths(xs) ==> UniquePaths(Removed(xs, path))
  {
    RemovedMembers(xs, path);
    if UniquePaths(xs) {
      RemovedUnique(xs, path);
    }
  }

  /** When the path occurs at most once and not last, the code as written removes it as intended. */
  lemma {:induction false} RemoveAsWrittenAgrees(xs: seq<RecentProject>, path: string, i: nat)
    requires i <= |xs|
    requires forall j :: 0 <= j < i ==> xs[j].path != path
    requires forall j, k :: i <= j < k < |xs| && xs[j].path == path ==> xs[k].path != path
    requires |xs| > 0 && xs[|xs| - 1].path == path ==> |xs| - 1 < i
    ensures RemoveAsWritten(xs, path, i) == Some(Removed(xs, path))
    decreases |xs| - i
  {
    if i == |xs| {
      RemovedNone(xs, path);
    } else if xs[i].path == path {
      var ys := xs[..i] + xs[i + 1..];
      assert i < |ys|;
      assert forall j :: i <= j < |ys| ==> ys[j] == xs[j + 1];
      RemovedNone(ys, path);
      RemovedSplice(xs, path, i);
      assert RemoveAsWritten(ys, path, i + 1) == Some(ys) by {
        RemoveAsWrittenClean(ys, path, i + 1);
      }
    } else {
      RemoveAsWrittenAgrees(xs, path, i + 1);
    }
  }

  lemma {:induction false} RemovedSnoc(xs: seq<RecentProject>, x: RecentProject, path: string)
    ensures Removed(xs + [x], path) == Removed(xs, path) + (if x.path == path then [] else [x])
    decreases |xs|
  {
    if xs == [] {
      assert [x][1..] == [];
    } else {
      var t := xs + [x];
      assert t[0] == xs[0];
      assert t[1..] == xs[1..] + [x];
      RemovedSnoc(xs[1..], x, path);
      var h := if xs[0].path == path then [] else [xs[0]];
      assert Removed(t, path) == h + Removed(xs[1..] + [x], path);
      assert Removed(xs, path) == h + Removed(xs[1..], path);
    }
  }

  lemma {:induction false} RemovedNone(xs: seq<RecentProject>, path: string)
    requires forall j :: 0 <= j < |xs| ==> xs[j].path != path
    ensures Removed(xs, path) == xs
    decreases |xs|
  {
    if xs != [] {
      RemovedNone(xs[1..], path);
    }
  }

  lemma {:induction false} RemoveAsWrittenClean(xs: seq<RecentProject>, path: string, i: nat)
    requires i <= |xs| && forall j :: i <= j < |xs| ==> xs[j].path != path
    ensures RemoveAsWritten(xs, path, i) == Some(xs)
    decreases |xs| - i
  {
    if i < |xs| {
      RemoveAsWrittenClean(xs, path, i + 1);
    }
  }

  /** Dropping the only entry with the path is what removal does. */
  lemma {:induction false} RemovedSplice(xs: seq<RecentProject>, path: string, i: nat)
    requires i < |xs| && xs[i].path == path
    requires forall j :: 0 <= j < |xs| && j != i ==> xs[j].path != path
    ensures Removed(xs, path) == xs[..i] + xs[i + 1..]
    decreases |xs|
  {
    if i == 0 {
      RemovedNone(xs[1..], path);
    } else {
      RemovedSplice(xs[1..], path, i - 1);
      assert xs[1..][..i - 1] + xs[1..][i..] == (xs[..i] + xs[i + 1..])[1..];
    }
  }

  // ---- addRecentProject

  /**
   * addRecentProject: when the path is already first only its name is
   * updated; otherwise every entry with the path is removed, the project
   * is put first and the list is cut to ten entries.
   */
  function Added(xs: seq<RecentProject>, path: string, name: string): (ys: seq<RecentProject>)
  {
    if xs != [] && xs[0].path == path then xs[0 := RecentProject(path, name)]
    else
      var zs := [RecentProject(path, name)] + Removed(xs, path);
      if |zs| > MaxRecentProjects then zs[..MaxRecentProjects] else zs
  }

  /** The added project comes first, with its new name. */
  lemma {:induction false} AddedFirst(xs: seq<RecentProject>, path: string, name: string)
    ensures var ys := Added(xs, path, name); ys != [] && ys[0] == RecentProject(path, name)
  {
  }

  /** A list of at most ten entries stays within ten. */
  lemma {:induction false} AddedBounded(xs: seq<RecentProject>, path: string, name: string)
    requires |xs| <= MaxRecentProjects
    ensures |Added(xs, path, name)| <= MaxRecentProjects
  {
  }

  /** Unique paths stay unique. */
  lemma {:induction false} AddedUnique(xs: seq<RecentProject>, path: string, name: string)
    requires UniquePaths(xs)
    ensures UniquePaths(Added(xs, path, name))
  {
    var ys := Added(xs, path, name);
    if xs != [] && xs[0].path == path {
      assert forall i :: 0 < i < |ys| ==> ys[i] == xs[i];
    } else {
      var rs := Removed(xs, path);
      RemovedMembers(xs, path);
      RemovedUnique(xs, path);
      var zs := [RecentProject(path, name)] + rs;
      assert UniquePaths(zs) by {
        forall i, j | 0 <= i < j < |zs|
          ensures zs[i].path != zs[j].path
        {
          if i == 0 {
            assert zs[j] in rs;
          } else {
            assert zs[i] == rs[i - 1] && zs[j] == rs[j - 1];
          }
        }
      }
      assert ys == zs || ys == zs[..MaxRecentProjects];
    }
  }

  /**
   * The other entries keep their relative order: behind the added project
   * come the old entries after the first one when the path was first,
   * otherwise a prefix of the list with the path removed.
   */
  lemma {:induction false} AddedOrder(xs: seq<RecentProject>, path: string, name: string)
    ensures var ys := Added(xs, path, name);
      && (xs != [] && xs[0].path == path ==> ys[1..] == xs[1..])
      && (!(xs != [] && xs[0].path == path) ==> ys[1..] <= Removed(xs, path))
      && (!(xs != [] && xs[0].path == path) ==>
            |ys| == if 1 + |Removed(xs, path)| > MaxRecentProjects then MaxRecentProjects else 1 + |Removed(xs, path)|)
  {
    var ys := Added(xs, path, name);
    if xs != [] && xs[0].path == path {
      assert forall i :: 0 < i < |ys| ==> ys[i] == xs[i];
    } else {
      var zs := [RecentProject(path, name)] + Removed(xs, path);
      assert zs[1..] == Removed(xs, path);
      if |zs| > MaxRecentProjects {
        assert ys[1..] == zs[1..][..MaxRecentProjects - 1];
      }
    }
  }

  /** The promises of addRecentProject together. */
  lemma AddedSpec(xs: seq<RecentProject>, path: string, name: string)
    ensures var ys := Added(xs, path, name);
      && ys != [] && ys[0] == RecentProject(path, name)
      && (|xs| <= MaxRecentProjects ==> |ys| <= MaxRecentProjects)
      && (UniquePaths(xs) ==> UniquePaths(ys))
      && (xs != [] && xs[0].path == path ==> ys[1..] == xs[1..])
      && (!(xs != [] && xs[0].path == path) ==> ys[1..] <= Removed(xs, path))
      && (!(xs != [] && xs[0].path == path) ==>
            |ys| == if 1 + |Removed(xs, path)| > MaxRecentProjects then MaxRecentProjects else 1 + |Removed(xs, path)|)
  {
    AddedFirst(xs, path, name);
    if |xs| <= MaxRecentProjects {
      AddedBounded(xs, path, name);
    }
    if UniquePaths(xs) {
      AddedUnique(xs, path, name);
    }
    AddedOrder(xs, path, name);
  }

  // ---- addRecentProject as written

  /**
   * addRecentProject as written: the same steps, but around the erase
   * loop of removeRecentProject as written; None where that loop steps
   * past the end of the list.
   */
  function AddedAsWritten(xs: seq<RecentProject>, path: string, name: string): Option<seq<RecentProject>>
  {
    if xs != [] && xs[0].path == path then Some(xs[0 := RecentProject(path, name)])
    else
      match RemoveAsWritten(xs, path, 0)
      case None => None
      case Some(rs) =>
        var zs := [RecentProject(path, name)] + rs;
        Some(if |zs| > MaxRecentProjects then zs[..MaxRecentProjects] else zs)
  }

  /**
   * With each path once, and the path not on the last entry unless it is
   * first, addRecentProject as written is the intended one.
   */
  lemma AddedAsWrittenAgrees(xs: seq<RecentProject>, path: string, name: string)
    requires UniquePaths(xs)
    requires xs != [] && xs[0].path != path ==> xs[|xs| - 1].path != path
    ensures AddedAsWritten(xs, path, name) == Some(Added(xs, path, name))
  {
    if !(xs != [] && xs[0].path == path) {
      RemoveAsWrittenAgrees(xs, path, 0);
    }
  }

  /**
   * Two entries with the path behind another entry: the code as written
   * keeps the second of them, the intended removal drops both.
   */
  lemma AddedAsWrittenKeepsDuplicate(a: RecentProject, x: RecentProject, y: RecentProject, name: string)
    requires a.path != x.path && x.path == y.path
    ensures AddedAsWritten([a, x, y], x.path, name) == Some([RecentProject(x.path, name), a, y])
    ensures Added([a, x, y], x.path, name) == [RecentProject(x.path, name), a]
  {
    assert [a, x, y][..1] + [a, x, y][2..] == [a, y];
    assert RemoveAsWritten([a, y], x.path, 2) == Some([a, y]);
    assert RemoveAsWritten([a, x, y], x.path, 1) == Some([a, y]);
    assert RemoveAsWritten([a, x, y], x.path, 0) == Some([a, y]);
    assert [RecentProject(x.path, name)] + [a, y] == [RecentProject(x.path, name), a, y];
    assert [a, x, y][1..] == [x, y];
    assert [x, y][1..] == [y];
    assert Removed([y], x.path) == [];
    assert Removed([x, y], x.path) == [];
    assert Removed([a, x, y], x.path) == [a];
  }

  /** The path on the last of two entries: the code as written steps past the end. */
  lemma AddedAsWrittenPastEnd(a: RecentProject, b: RecentProject, name: string)
    requires a.path != b.path
    ensures AddedAsWritten([a, b], b.path, name) == None
    ensures Added([a, b], b.path, name) == [RecentProject(b.path, name), a]
  {
    RemoveAsWrittenPastEnd(a, b);
    assert [a, b][1..] == [b];
    assert Removed([b], b.path) == [];
    assert Removed([a, b], b.path) == [a];
  }

  /** Adding a project that is already first with the same name changes nothing. */
  lemma AddFirstAgainKeeps(xs: seq<RecentProject>)
    requires xs != []
    ensures Added(xs, xs[0].path, xs[0].name) == xs
  {
  }

  /** The settings object's list of recent projects, most recent first. */
  class Recent {
    var projects: seq<RecentProject>

    constructor ()
      ensures projects == []
    {
      projects := [];
    }

    /** addRecentProject, with its truncation loop. */
    method AddRecentProject(path: string, name: string)
      modifies this
      ensures projects == Added(old(projects), path, name)
    {
      if projects != [] && projects[0].path == path {
        projects := projects[0 := RecentProject(path, name)];
        return;
      }
      RemoveRecentProject(path);
      projects := [RecentProject(path, name)] + projects;
      ghost var full := projects;
      while |projects| > MaxRecentProjects
        invariant |projects| >= MaxRecentProjects ==> projects == full[..|projects|]
        invariant |projects| < MaxRecentProjects ==> projects == full
        decreases |projects|
      {
        projects := projects[..|projects| - 1];
      }
    }

    /** removeRecentProject as intended: every entry with the path is dropped. */
    method RemoveRecentProject(path: string)
      modifies this
      ensures projects == Removed(old(projects), path)
    {
      var kept: seq<RecentProject> := [];
      var i := 0;
      while i < |projects|
        invariant 0 <= i <= |projects| && projects == old(projects)
        invariant kept == Removed(projects[..i], path)
      {
        RemovedSnoc(projects[..i], projects[i], path);
        assert projects[..i + 1] == projects[..i] + [projects[i]];
        if projects[i].path != path {
          kept := kept + [projects[i]];
        }
        i := i + 1;
      }
      assert projects[..i] == projects;
      projects := kept;
    }
  }
}
