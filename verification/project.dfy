/**
 * The project object of core/project.h: its configuration parameters,
 * whether they were loaded, and the two-step opening in which both the
 * engine and the code base report back before the project counts as open.
 */
module Projects {
  import opened Globals

  /** QDir::separator() on a Unix system. */
  const Sep: char := '/'

  /** ProjectBase::Params. */
  datatype Params = Params(projPath: string, name: string, rootPath: string, engineString: string, codebaseString: string)

  /** The values found under [Project] in a configuration file; a missing key is None. */
  datatype StoredConfig = StoredConfig(
    name: Option<string>, rootPath: Option<string>, engineString: Option<string>, codebaseString: Option<string>)

  /** What the file system shows for a project directory, given as an input. */
  datatype ProjectDir = ProjectDir(dirExists: bool, canCreate: bool, configExists: bool)

  /** The exceptions of open, create and updateConfig. */
  datatype ProjectError = NotLoaded | ExistingProject | DirectoryNotCreated | ExistingConfigFile | PathChanged

  /** A path with a separator at its end, added when missing. */
  function WithSep(path: string): (r: string)
    ensures EndsWith(r, Sep) && path <= r
    ensures EndsWith(path, Sep) ==> r == path
    ensures !EndsWith(path, Sep) ==> r == path + [Sep]
  {
    if EndsWith(path, Sep) then path else path + [Sep]
  }

  /** Adding the separator twice adds it once. */
  lemma WithSepIdempotent(path: string)
    ensures WithSep(WithSep(path)) == WithSep(path)
  {
  }

  function ValueOr(v: Option<string>, default: string): string
  {
    if v.Some? then v.value else default
  }

  /** load: the parameters read from a configuration file, with an empty name and "/" as root by default. */
  function Loaded(projPath: string, stored: StoredConfig): (p: Params)
    ensures EndsWith(p.projPath, Sep)
    ensures stored.name.None? ==> p.name == []
    ensures stored.rootPath.None? ==> p.rootPath == "/"
  {
    Params(WithSep(projPath), ValueOr(stored.name, []), ValueOr(stored.rootPath, "/"),
           ValueOr(stored.engineString, []), ValueOr(stored.codebaseString, []))
  }

  class Project {
    const configFileName: string
    var params: Params
    var loaded: bool
    var isOpen: bool
    var engineOpen: bool
    var codebaseOpen: bool
    /** Whether open() was given a callback. */
    var hasOpenCallback: bool
    /** How many times the callback given to open() was called. */
    var openCallbacks: nat

    /**
     * Project(configFileName, projPath): loads the parameters when the
     * configuration file is there and readable; otherwise the project
     * stays unloaded, waiting for create().
     */
    constructor (configFileName: string, projPath: string, configReadable: bool, stored: StoredConfig)
      ensures this.configFileName == configFileName && !isOpen && openCallbacks == 0
      ensures loaded == configReadable
      ensures configReadable ==> params == Loaded(projPath, stored)
    {
      this.configFileName := configFileName;
      params := Params([], [], [], [], []);
      loaded := false;
      isOpen := false;
      engineOpen := false;
      codebaseOpen := false;
      hasOpenCallback := false;
      openCallbacks := 0;
      new;
      if configReadable {
        params := Loaded(projPath, stored);
        loaded := true;
      }
    }

    /** configPath: the configuration file under the project path. */
    function ConfigPath(): (r: string)
      reads this
      ensures params.projPath <= r && r[|params.projPath|..] == configFileName
    {
      params.projPath + configFileName
    }

    /**
     * open: nothing when already open; an exception when the parameters
     * were not loaded; otherwise both components start opening and the
     * project waits for their callbacks.
     */
    method Open(withCallback: bool) returns (err: Option<ProjectError>)
      modifies this
      ensures old(isOpen) ==> err == None && unchanged(this)
      ensures !old(isOpen) && !old(loaded) ==> err == Some(NotLoaded) && unchanged(this)
      ensures !old(isOpen) && old(loaded) ==>
        && err == None && !isOpen && !engineOpen && !codebaseOpen && hasOpenCallback == withCallback
        && params == old(params) && loaded && openCallbacks == old(openCallbacks)
    {
      if isOpen {
        return None;
      }
      if !loaded {
        return Some(NotLoaded);
      }
      hasOpenCallback := withCallback;
      engineOpen := false;
      codebaseOpen := false;
      err := None;
    }

    /** finishOpen: the project is open and the caller of open() is told. */
    method FinishOpen()
      modifies this
      ensures isOpen && openCallbacks == old(openCallbacks) + (if hasOpenCallback then 1 else 0)
      ensures params == old(params) && loaded == old(loaded) && hasOpenCallback == old(hasOpenCallback)
      ensures engineOpen == old(engineOpen) && codebaseOpen == old(codebaseOpen)
    {
      isOpen := true;
      if hasOpenCallback {
        openCallbacks := openCallbacks + 1;
      }
    }

    /** The engine's open callback: finishes opening if the code base is already open. */
    method EngineOpened()
      modifies this
      ensures engineOpen && codebaseOpen == old(codebaseOpen)
      ensures isOpen == (old(isOpen) || old(codebaseOpen))
      ensures openCallbacks == old(openCallbacks) + (if old(codebaseOpen) && hasOpenCallback then 1 else 0)
      ensures params == old(params) && loaded == old(loaded) && hasOpenCallback == old(hasOpenCallback)
    {
      engineOpen := true;
      if codebaseOpen {
        FinishOpen();
      }
    }

    /** The code base's open callback: finishes opening if the engine is already open. */
    method CodebaseOpened()
      modifies this
      ensures codebaseOpen && engineOpen == old(engineOpen)
      ensures isOpen == (old(isOpen) || old(engineOpen))
      ensures openCallbacks == old(openCallbacks) + (if old(engineOpen) && hasOpenCallback then 1 else 0)
      ensures params == old(params) && loaded == old(loaded) && hasOpenCallback == old(hasOpenCallback)
    {
      codebaseOpen := true;
      if engineOpen {
        FinishOpen();
      }
    }

    /**
     * create: refused for an open or loaded project, for a directory that
     * cannot be made and over an existing configuration file; otherwise
     * the parameters are taken with a separator at the end of the path.
     * The project is neither open nor loaded afterwards.
     */
    method Create(newParams: Params, dir: ProjectDir) returns (err: Option<ProjectError>)
      modifies this
      ensures err.Some? ==> unchanged(this)
      ensures err == Some(ExistingProject) <==> old(isOpen) || old(loaded)
      ensures err == Some(DirectoryNotCreated) <==> !old(isOpen) && !old(loaded) && !dir.dirExists && !dir.canCreate
      ensures err == Some(ExistingConfigFile) <==>
        !old(isOpen) && !old(loaded) && (dir.dirExists || dir.canCreate) && dir.configExists
      ensures err == None ==> params == newParams.(projPath := WithSep(newParams.projPath))
      ensures err == None ==> !isOpen && !loaded && openCallbacks == old(openCallbacks)
      ensures err == None ==>
        engineOpen == old(engineOpen) && codebaseOpen == old(codebaseOpen) && hasOpenCallback == old(hasOpenCallback)
    {
      if isOpen || loaded {
        return Some(ExistingProject);
      }
      if !dir.dirExists && !dir.canCreate {
        return Some(DirectoryNotCreated);
      }
      if dir.configExists {
        return Some(ExistingConfigFile);
      }
      params := newParams;
      if !EndsWith(params.projPath, Sep) {
        params := params.(projPath := params.projPath + [Sep]);
      }
      err := None;
    }

    /** updateConfig: the project path may not change; any other parameter may. */
    method UpdateConfig(newParams: Params) returns (err: Option<ProjectError>)
      modifies this
      ensures err == None <==> newParams.projPath == old(params).projPath
      ensures err == None ==> params == newParams
      ensures err != None ==> err == Some(PathChanged) && params == old(params)
      ensures isOpen == old(isOpen) && loaded == old(loaded) && openCallbacks == old(openCallbacks)
      ensures engineOpen == old(engineOpen) && codebaseOpen == old(codebaseOpen) && hasOpenCallback == old(hasOpenCallback)
    {
      if newParams.projPath != params.projPath {
        return Some(PathChanged);
      }
      params := newParams;
      err := None;
    }

    /** close: the project is no longer open but keeps its parameters. */
    method Close()
      modifies this
      ensures !isOpen && params == old(params) && loaded == old(loaded)
      ensures openCallbacks == old(openCallbacks)
      ensures engineOpen == old(engineOpen) && codebaseOpen == old(codebaseOpen) && hasOpenCallback == old(hasOpenCallback)
    {
      isOpen := false;
    }
  }

  /**
   * A loaded project opens, and tells its caller once, only when both
   * components have reported back, in either order; after the first
   * report it is still closed.
   */
  method OpenWhenBothReport(p: Project, engineFirst: bool)
    requires p.loaded && !p.isOpen
    modifies p
    ensures p.isOpen && p.openCallbacks == old(p.openCallbacks) + 1 && p.params == old(p.params)
  {
    var err := p.Open(true);
    if engineFirst {
      p.EngineOpened();
      assert !p.isOpen;
      p.CodebaseOpened();
    } else {
      p.CodebaseOpened();
      assert !p.isOpen;
      p.EngineOpened();
    }
  }

  /**
   * The same object cannot open the project it has just created, since
   * create does not mark the parameters as loaded; the application opens
   * a new project object from the created directory instead.
   */
  method CreateThenOpen(p: Project, newParams: Params, dir: ProjectDir)
    modifies p
    ensures !old(p.isOpen) && !old(p.loaded) ==> !p.isOpen
  {
    var err := p.Create(newParams, dir);
    if err == None {
      err := p.Open(true);
      assert err == Some(NotLoaded);
    }
  }

  /** A project loaded from a directory keeps its configuration file right under that directory. */
  lemma LoadedConfigPath(projPath: string, stored: StoredConfig, configFileName: string)
    ensures var p := Loaded(projPath, stored).projPath + configFileName;
      projPath <= p && EndsWith(p[..|WithSep(projPath)|], Sep)
  {
  }
}
