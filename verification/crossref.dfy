/**
 * The cscope engine object (cscope/crossref.cpp): opening a database
 * from an initialisation string, the status it is left in, the fields
 * each query fills in, and how a query is handed to cscope or ctags.
 */
module Crossrefs {
  import opened Globals
  import Cscope

  /** Engine::Status. */
  datatype Status = Unknown | Build | Rebuild | Ready

  /** What the file system shows at the database directory, given to open as an input. */
  datatype DirState = DirState(dirExists: bool, outExists: bool, outReadable: bool)

  /** Why open fails. */
  datatype OpenError = NoPath | NoDirectory | UnreadableDatabase

  /** What open leaves behind: the new path, arguments and status, or the exception it throws. */
  datatype OpenResult = Opened(path: string, args: seq<string>, status: Status) | Failed(error: OpenError)

  /** The separator of the parts of an initialisation string. */
  const Star: char := '*'

  /**
   * open: the string is split on '*' with empty parts skipped; the first
   * part is the directory and the rest are cscope's arguments. A missing
   * cscope.out needs a build, an unreadable one is an error, a readable
   * one is ready; but an engine opened before with another directory or
   * other arguments needs a rebuild.
   */
  function OpenOutcome(prev: Status, prevPath: string, prevArgs: seq<string>, initString: string, dir: DirState): OpenResult
  {
    var parts := Split(initString, Star);
    if parts == [] then Failed(NoPath)
    else if !dir.dirExists then Failed(NoDirectory)
    else if dir.outExists && !dir.outReadable then Failed(UnreadableDatabase)
    else
      var path := parts[0];
      var args := parts[1..];
      var status := if !dir.outExists then Build else Ready;
      Opened(path, args, if prev != Unknown && (path != prevPath || args != prevArgs) then Rebuild else status)
  }

  /** The initialisation string for a directory and its arguments: each argument after a '*'. */
  function InitString(path: string, args: seq<string>): string
  {
    path + Starred(args)
  }

  function Starred(args: seq<string>): string
  {
    if args == [] then [] else [Star] + args[0] + Starred(args[1..])
  }

  /** Parts that survive splitting unchanged: non-empty and free of '*'. */
  predicate Plain(parts: seq<string>)
  {
    forall i :: 0 <= i < |parts| ==> parts[i] != [] && Star !in parts[i]
  }

  /** Splitting a plain part followed by starred plain arguments gives back the part and the arguments. */
  lemma {:induction false} SplitStarred(p: string, args: seq<string>)
    requires p != [] && Star !in p && Plain(args)
    ensures Split(p + Starred(args), Star) == [p] + args
    decreases |args|
  {
    SplitPiece(p, Star);
    if args == [] {
      assert p + Starred(args) == p;
    } else {
      var rest := args[0] + Starred(args[1..]);
      assert p + Starred(args) == p + [Star] + rest;
      SplitAround(p, Star, rest);
      assert Plain(args[1..]) by {
        forall i | 0 <= i < |args[1..]|
          ensures args[1..][i] != [] && Star !in args[1..][i]
        {
          assert args[1..][i] == args[i + 1];
        }
      }
      assert args[0] != [] && Star !in args[0];
      SplitStarred(args[0], args[1..]);
      assert [args[0]] + args[1..] == args;
    }
  }

  /** Opening with the string made of a directory and arguments stores exactly those. */
  lemma OpenInitString(prev: Status, prevPath: string, prevArgs: seq<string>, path: string, args: seq<string>, dir: DirState)
    requires Plain([path] + args)
    ensures var r := OpenOutcome(prev, prevPath, prevArgs, InitString(path, args), dir);
      r.Opened? ==> r.path == path && r.args == args
  {
    assert Plain(args) by {
      forall i | 0 <= i < |args|
        ensures args[i] != [] && Star !in args[i]
      {
        assert args[i] == ([path] + args)[i + 1];
      }
    }
    assert ([path] + args)[0] == path;
    SplitStarred(path, args);
  }

  /**
   * The status decision: an empty string or a missing directory or an
   * unreadable database fails; otherwise a first open gives Build
   * without a database and Ready with one, a reopen with the same
   * parameters decides the same way, and a reopen with others gives Rebuild.
   */
  lemma OpenStatusSpec(prev: Status, prevPath: string, prevArgs: seq<string>, initString: string, dir: DirState)
    ensures var r := OpenOutcome(prev, prevPath, prevArgs, initString, dir);
      && (r.Failed? <==> Split(initString, Star) == [] || !dir.dirExists || (dir.outExists && !dir.outReadable))
      && (r.Opened? ==> [r.path] + r.args == Split(initString, Star))
      && (r.Opened? && (prev == Unknown || (r.path == prevPath && r.args == prevArgs)) ==>
            r.status == if dir.outExists then Ready else Build)
      && (r.Opened? && prev != Unknown && (r.path != prevPath || r.args != prevArgs) ==> r.status == Rebuild)
      && (r.Opened? ==> r.status != Unknown)
  {
    var parts := Split(initString, Star);
    if parts != [] {
      assert [parts[0]] + parts[1..] == parts;
    }
  }

  /** Whether a build that ended with the exit code and kind leaves the database ready. */
  function StatusAfterBuild(status: Status, code: int, normalExit: bool): (r: Status)
    ensures r == Ready <==> (code == 0 && normalExit) || status == Ready
    ensures r != Ready ==> r == status
  {
    if code == 0 && normalExit then Ready else status
  }

  /** queryFields: the fields a query of the type fills in, in display order. */
  function QueryFields(kind: QueryType): seq<Field>
  {
    match kind
    case FindFileQuery => [FileField]
    case TextQuery => [FileField, LineField, TextField]
    case IncludingFilesQuery => [FileField, LineField, TextField]
    case DefinitionQuery => [TagNameField, FileField, LineField, TextField]
    case ReferencesQuery => [ScopeField, FileField, LineField, TextField]
    case CalledFunctionsQuery => [ScopeField, FileField, LineField, TextField]
    case CallingFunctionsQuery => [ScopeField, FileField, LineField, TextField]
    case LocalTagsQuery => [TagNameField, ScopeField, LineField, TagTypeField]
    case InvalidQuery => []
  }

  /**
   * Only the invalid query has no fields; no field is listed twice; every
   * query of the cross-reference shows the file, while the local tags of
   * one file show the tag type instead.
   */
  lemma QueryFieldsSpec(kind: QueryType)
    ensures var fs := QueryFields(kind);
      && (fs == [] <==> kind == InvalidQuery)
      && (forall i, j :: 0 <= i < j < |fs| ==> fs[i] != fs[j])
      && (kind != InvalidQuery && kind != LocalTagsQuery ==> FileField in fs && TagTypeField !in fs)
      && (kind == LocalTagsQuery ==> FileField !in fs && TagTypeField in fs)
  {
  }

  /** Where query sends a query: a cscope search of a type, a ctags run, or nowhere (an exception). */
  datatype Dispatch = ToCscope(kind: Cscope.QueryType) | ToCtags | Unsupported

  /** The translation in query: text turns into an egrep search under the regular-expression flag. */
  function Translate(q: Query): Dispatch
  {
    match q.kind
    case TextQuery => ToCscope(if q.flags & RegExp != 0 then Cscope.EGrepPattern else Cscope.Text)
    case ReferencesQuery => ToCscope(Cscope.References)
    case DefinitionQuery => ToCscope(Cscope.Definition)
    case CalledFunctionsQuery => ToCscope(Cscope.CalledFunctions)
    case CallingFunctionsQuery => ToCscope(Cscope.CallingFunctions)
    case FindFileQuery => ToCscope(Cscope.FindFile)
    case IncludingFilesQuery => ToCscope(Cscope.IncludingFiles)
    case LocalTagsQuery => ToCtags
    case InvalidQuery => Unsupported
  }

  /**
   * Only the invalid query is refused and only local tags go to ctags;
   * queries of different types never reach the same cscope search, and
   * a text query becomes an egrep search exactly under the flag.
   */
  lemma TranslateSpec(q: Query, r: Query)
    ensures Translate(q) == Unsupported <==> q.kind == InvalidQuery
    ensures Translate(q) == ToCtags <==> q.kind == LocalTagsQuery
    ensures q.kind == TextQuery ==> (Translate(q) == ToCscope(Cscope.EGrepPattern) <==> q.flags & RegExp != 0)
    ensures Translate(q).ToCscope? && Translate(q) == Translate(r) ==> q.kind == r.kind
  {
  }

  /**
   * The case flag never changes what query hands to cscope: only the
   * translated type is passed on, so a case-insensitive query runs as a
   * case-sensitive one.
   */
  lemma TranslateIgnoresCase(q: Query)
    ensures Translate(q.(flags := q.flags | IgnoreCase)) == Translate(q)
    ensures Translate(q.(flags := q.flags & !IgnoreCase)) == Translate(q)
  {
  }

  /** The engine object: the database directory, the arguments for building it and its status. */
  class Crossref {
    var path: string
    var args: seq<string>
    var status: Status
    /** How many times a completion callback was called. */
    var callbacks: nat

    constructor ()
      ensures status == Unknown && callbacks == 0
    {
      path := [];
      args := [];
      status := Unknown;
      callbacks := 0;
    }

    /**
     * open: either throws, changing nothing, or stores what OpenOutcome
     * decides and then calls the callback if there is one.
     */
    method Open(initString: string, dir: DirState, withCallback: bool) returns (err: Option<OpenError>)
      modifies this
      ensures var r := OpenOutcome(old(status), old(path), old(args), initString, dir);
        if r.Failed? then
          err == Some(r.error) && path == old(path) && args == old(args)
          && status == old(status) && callbacks == old(callbacks)
        else
          err == None && path == r.path && args == r.args && status == r.status
          && callbacks == old(callbacks) + (if withCallback then 1 else 0)
    {
      var parts := Split(initString, Star);
      if parts == [] {
        return Some(NoPath);
      }
      var newPath := parts[0];
      var newArgs := parts[1..];
      if !dir.dirExists {
        return Some(NoDirectory);
      }
      var newStatus;
      if !dir.outExists {
        newStatus := Build;
      } else if !dir.outReadable {
        return Some(UnreadableDatabase);
      } else {
        newStatus := Ready;
      }
      if status != Unknown {
        if newPath != path || newArgs != args {
          newStatus := Rebuild;
        }
      }
      path := newPath;
      args := newArgs;
      status := newStatus;
      if withCallback {
        callbacks := callbacks + 1;
      }
      err := None;
    }

    /** buildProcessFinished: a clean exit makes the database ready; anything else changes nothing. */
    method BuildProcessFinished(code: int, normalExit: bool)
      modifies this
      ensures status == StatusAfterBuild(old(status), code, normalExit)
      ensures path == old(path) && args == old(args) && callbacks == old(callbacks)
    {
      if code == 0 && normalExit {
        status := Ready;
      }
    }
  }

  /**
   * Reopening an opened engine with the same string and the same
   * directory state keeps its status, unless it had been rebuilt since
   * the first open or had been waiting for a rebuild.
   */
  method ReopenSame(e: Crossref, initString: string, dir: DirState)
    modifies e
    ensures var r := OpenOutcome(old(e.status), old(e.path), old(e.args), initString, dir);
      r.Opened? ==> e.status == (if dir.outExists then Ready else Build)
  {
    var err := e.Open(initString, dir, false);
    if err == None {
      OpenStatusSpec(e.status, e.path, e.args, initString, dir);
      err := e.Open(initString, dir, false);
    }
  }
}
