/** The older top-level tool's configuration: one JSON file listing search
    directories and three lists of keyed projects (base, personal, work).
    Reading and parsing the file is I/O; the parsed record is an input. */
module LegacyConfig {
  import opened Wrappers
  import opened Discovery
  import Key

  /** A key and the path it stands for. */
  type KeyedProject = (string, string)

  datatype SessionConfig = SessionConfig(
    dirs: seq<string>,
    base: seq<KeyedProject>,
    personal: seq<KeyedProject>,
    work: seq<KeyedProject>)

  /** `get_keyed_projects_from_config`: the base projects, then the work
      or the personal ones. */
  method GetKeyedProjectsFromConfig(config: SessionConfig, isWork: bool) returns (result: seq<KeyedProject>)
    ensures result == KeyedProjects(config, isWork)
  {
    result := config.base;
    if isWork {
      result := result + config.work;
    } else {
      result := result + config.personal;
    }
  }

  /** The base projects come first, so they are looked up first. */
  function KeyedProjects(config: SessionConfig, isWork: bool): seq<KeyedProject> {
    config.base + (if isWork then config.work else config.personal)
  }

  /** A key configured in the base list resolves there whatever the other
      lists say; any other key resolves in the list the work flag picks. */
  lemma BaseWins(config: SessionConfig, isWork: bool, key: string, env: map<string, string>)
    ensures var chosen := if isWork then config.work else config.personal;
      var resolved := Key.ResolveProjectPath(key, KeyedProjects(config, isWork), env);
      ((exists i :: 0 <= i < |config.base| && config.base[i].0 == key) ==>
        resolved == Key.ResolveProjectPath(key, config.base, env)) &&
      ((forall i :: 0 <= i < |config.base| ==> config.base[i].0 != key) ==>
        resolved == Key.ResolveProjectPath(key, chosen, env))
  {
    Key.LookupAppend(key, config.base, if isWork then config.work else config.personal);
  }

  /** `get_all_directories_from_path` once the file is read: each `dirs`
      entry expanded in order, as the newer tool expands its own. */
  method GetAllDirectories(config: SessionConfig, env: map<string, string>, glob: string -> Result<seq<GlobEntry>>)
    returns (expandedDirs: seq<string>)
    ensures expandedDirs == ExpandAll(config.dirs, env, glob)
  {
    expandedDirs := [];
    for i := 0 to |config.dirs|
      invariant expandedDirs == ExpandAll(config.dirs[..i], env, glob)
    {
      assert config.dirs[..i + 1][..i] == config.dirs[..i];
      expandedDirs := ExpandInto(expandedDirs, config.dirs[i], env, glob);
    }
    assert config.dirs[..|config.dirs|] == config.dirs;
  }

  /** The directories listed are exactly the literal entries, tilde
      expanded, and the directories the glob entries match. */
  lemma AllDirectoriesMembers(config: SessionConfig, env: map<string, string>, glob: string -> Result<seq<GlobEntry>>, p: string)
    ensures p in ExpandAll(config.dirs, env, glob) <==>
      exists i :: 0 <= i < |config.dirs| &&
        ((!IsGlob(config.dirs[i]) && p == Tilde(config.dirs[i], env)) ||
         (IsGlob(config.dirs[i]) && glob(Tilde(config.dirs[i], env)).Ok? && Found(p, true) in glob(Tilde(config.dirs[i], env)).value))
  {
    ExpandAllMember(config.dirs, env, glob, p);
    forall i | 0 <= i < |config.dirs| {
      ExpandPatternShape(config.dirs[i], env, glob);
    }
  }
}
