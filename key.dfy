/** Jumping to a project by its configured key (`ksm key`): look the key up,
    expand a leading "~/", then either print the path or focus the
    project's session tab, creating it when it is not found.  The older
    top-level copy of the command has the same lookup and the same
    decision; `Decide` and `ResolveProjectPath` model both. */
module Key {
  import opened Wrappers
  import opened KittyTypes
  import opened SessionTabs
  import opened Executor
  import opened Kitty
  import opened Utils
  import Focusing = FocusTab

  // ----- Looking the key up -----

  /** The path of the first pair whose key is `key`. */
  function Lookup(key: string, projects: seq<(string, string)>): (r: Option<string>)
    ensures r.Some? <==> exists i :: 0 <= i < |projects| && projects[i].0 == key
  {
    if projects == [] then None
    else if projects[0].0 == key then Some(projects[0].1)
    else Lookup(key, projects[1..])
  }

  /** The path found belongs to the first pair carrying the key. */
  lemma {:induction false} LookupFirst(key: string, projects: seq<(string, string)>)
    ensures var r := Lookup(key, projects);
      r.Some? ==> exists i :: 0 <= i < |projects| && projects[i] == (key, r.value) &&
                    forall j :: 0 <= j < i ==> projects[j].0 != key
  {
    if projects != [] && projects[0].0 != key {
      LookupFirst(key, projects[1..]);
      var r := Lookup(key, projects);
      if r.Some? {
        var i :| 0 <= i < |projects[1..]| && projects[1..][i] == (key, r.value) &&
                 forall j :: 0 <= j < i ==> projects[1..][j].0 != key;
        assert projects[i + 1] == (key, r.value);
        assert forall j :: 0 <= j < i + 1 ==> projects[j].0 != key by {
          forall j | 0 <= j < i + 1 ensures projects[j].0 != key {
            if j > 0 { assert projects[j] == projects[1..][j - 1]; }
          }
        }
      }
    }
  }

  /** Pairs listed earlier take precedence over pairs listed later. */
  lemma {:induction false} LookupAppend(key: string, first: seq<(string, string)>, second: seq<(string, string)>)
    ensures Lookup(key, first + second) == if Lookup(key, first).Some? then Lookup(key, first) else Lookup(key, second)
  {
    if first != [] {
      assert (first + second)[1..] == first[1..] + second;
      LookupAppend(key, first[1..], second);
    } else {
      assert first + second == second;
    }
  }

  function NotFound(key: string): string {
    "No project found for key: " + key
  }

  /** `resolve_project_path`: the configured path with "~/" expanded, or
      an error naming the key. */
  function ResolveProjectPath(key: string, projects: seq<(string, string)>, env: map<string, string>): (r: Result<string>)
    ensures r.Err? <==> forall i :: 0 <= i < |projects| ==> projects[i].0 != key
    ensures r.Err? ==> r.error == NotFound(key)
    ensures r.Ok? ==> exists i :: 0 <= i < |projects| && projects[i].0 == key && r.value == ExpandTilde(projects[i].1, env)
  {
    LookupFirst(key, projects);
    match Lookup(key, projects)
    case None => Err(NotFound(key))
    case Some(path) => Ok(ExpandTilde(path, env))
  }

  /** `projects` lists the pairs of the map `keyed`, in any order. */
  predicate Enumerates(projects: seq<(string, string)>, keyed: map<string, string>) {
    (forall i :: 0 <= i < |projects| ==> projects[i].0 in keyed && keyed[projects[i].0] == projects[i].1) &&
    (forall key :: key in keyed ==> (key, keyed[key]) in projects)
  }

  /** Over the keyed projects of a configuration, whatever order they are
      listed in, the key resolves to its own path, or fails exactly when it
      is not configured. */
  lemma ResolveFromKeyedProjects(key: string, projects: seq<(string, string)>, keyed: map<string, string>, env: map<string, string>)
    requires Enumerates(projects, keyed)
    ensures key in keyed ==> ResolveProjectPath(key, projects, env) == Ok(ExpandTilde(keyed[key], env))
    ensures key !in keyed ==> ResolveProjectPath(key, projects, env) == Err(NotFound(key))
  {
    if key in keyed {
      assert (key, keyed[key]) in projects;
    }
  }

  // ----- The project name -----

  /** The last run of characters after the last '/'. */
  function LastSegment(path: string): (r: string)
    ensures |r| <= |path| && r == path[|path| - |r|..]
    ensures '/' !in r
    ensures |r| < |path| ==> path[|path| - |r| - 1] == '/'
  {
    if path == [] || path[|path| - 1] == '/' then []
    else LastSegment(path[..|path| - 1]) + [path[|path| - 1]]
  }

  /** The last component of a Unix path: separators repeat freely, a
      trailing separator and "." components are skipped. */
  function LastComponent(path: string): (r: Option<string>)
    decreases |path|
  {
    if path == [] then None
    else if path[|path| - 1] == '/' then LastComponent(path[..|path| - 1])
    else
      var segment := LastSegment(path);
      if segment == "." then LastComponent(path[..|path| - 1]) else Some(segment)
  }

  /** Rust's `Path::file_name`: the last component, or none when the path
      is empty, the root, or ends in "..". */
  function FileName(path: string): Option<string> {
    match LastComponent(path)
    case None => None
    case Some(c) => if c == ".." then None else Some(c)
  }

  /** A name that is one plain path component. */
  predicate PlainName(name: string) {
    name != [] && '/' !in name && name != "." && name != ".."
  }

  /** A file name is always one plain component. */
  lemma {:induction false} FileNamePlain(path: string)
    ensures FileName(path).Some? ==> PlainName(FileName(path).value)
  {
    LastComponentNonEmpty(path);
  }

  lemma {:induction false} LastComponentNonEmpty(path: string)
    ensures LastComponent(path).Some? ==>
      (LastComponent(path).value != [] && '/' !in LastComponent(path).value && LastComponent(path).value != ".")
    decreases |path|
  {
    if path != [] {
      if path[|path| - 1] == '/' || LastSegment(path) == "." {
        LastComponentNonEmpty(path[..|path| - 1]);
      } else {
        assert LastSegment(path) == LastSegment(path[..|path| - 1]) + [path[|path| - 1]];
      }
    }
  }

  /** Trailing separators do not change the file name. */
  lemma FileNameTrailingSlash(path: string)
    ensures FileName(path + "/") == FileName(path)
  {
    assert (path + "/")[..|path|] == path;
  }

  lemma {:induction false} LastSegmentOfJoin(dir: string, name: string)
    requires '/' !in name
    ensures LastSegment(dir + "/" + name) == name
    decreases |name|
  {
    if name == [] {
      assert (dir + "/" + name)[|dir + "/" + name| - 1] == '/';
    } else {
      var p := dir + "/" + name;
      var shorter := name[..|name| - 1];
      assert p[..|p| - 1] == dir + "/" + shorter;
      assert p[|p| - 1] == name[|name| - 1];
      LastSegmentOfJoin(dir, shorter);
      assert shorter + [name[|name| - 1]] == name;
    }
  }

  /** A directory joined with a plain name has that name as its file name,
      and so has the plain name alone. */
  lemma FileNameOfJoin(dir: string, name: string)
    requires PlainName(name)
    ensures FileName(dir + "/" + name) == Some(name)
    ensures FileName(name) == Some(name)
  {
    LastSegmentOfJoin(dir, name);
    assert name[|name| - 1] != '/' by { assert name[|name| - 1] in name; }
    var p := dir + "/" + name;
    assert p[|p| - 1] == name[|name| - 1];
    LastSegmentWhole(name);
  }

  lemma {:induction false} LastSegmentWhole(name: string)
    requires '/' !in name
    ensures LastSegment(name) == name
    decreases |name|
  {
    if name != [] {
      var shorter := name[..|name| - 1];
      assert name[|name| - 1] in name;
      assert forall c :: c in shorter ==> c in name;
      LastSegmentWhole(shorter);
      assert shorter + [name[|name| - 1]] == name;
    }
  }

  const UnknownProject := "unknown"

  /** The project (and session) name of a path: its file name, "unknown"
      when it has none. */
  function ProjectName(path: string): (r: string)
    ensures r == UnknownProject || PlainName(r)
    ensures FileName(path).Some? ==> r == FileName(path).value
  {
    FileNamePlain(path);
    FileName(path).GetOr(UnknownProject)
  }

  // ----- The decision -----

  /** What the command does once the path is known and not only printed. */
  datatype KeyAction = FocusExisting(tabId: nat) | CreateSession(path: string, name: string)

  /** An existing session tab is focused only when the lookup succeeded and
      found one; a failed lookup is treated like a missing tab. */
  function Decide(path: string, matched: Result<Option<KittyTab>>): (a: KeyAction)
    ensures a.FocusExisting? <==> matched.Ok? && matched.value.Some?
    ensures a.FocusExisting? ==> a.tabId == matched.value.value.id
    ensures a.CreateSession? ==> a.path == path && a.name == ProjectName(path)
  {
    if matched.Ok? && matched.value.Some? then FocusExisting(matched.value.value.id)
    else CreateSession(path, ProjectName(path))
  }

  /** The calls the session-tab lookup makes for `name`. */
  function MatchCalls(ex: Executor, name: string): seq<Call> {
    [LsCall(TitleQuery(name))] + (if TitleMatched(ex.lsReply, name) then [] else [LsCall(EnvQuery(name))])
  }

  /** What `cmd_key_with_projects` returns and the calls it makes. */
  function KeyOutcome(ex: Executor, key: string, printPath: bool, projects: seq<(string, string)>, env: map<string, string>): Effect {
    match ResolveProjectPath(key, projects, env)
    case Err(e) => Effect(Err(e), [])
    case Ok(path) =>
      if printPath then Effect(Ok(()), [])
      else
        var name := ProjectName(path);
        match Decide(path, MatchSessionTabSpec(ex.lsReply, name))
        case FocusExisting(id) =>
          Effect(Checked(ex.focusTabReply(Focusing.KittenFocusTabCommand(id)), FocusContext(id)),
                 MatchCalls(ex, name) + [FocusTabCall(Focusing.KittenFocusTabCommand(id))])
        case CreateSession(p, n) =>
          Effect(Checked(ex.launchReply(SessionTabLaunch(p, n)), "Failed to create session tab: "),
                 MatchCalls(ex, name) + [LaunchCall(SessionTabLaunch(p, n))])
  }

  /** An unknown key fails before kitty is asked anything; printing the
      path asks kitty nothing; otherwise the command ends with exactly one
      focus or one launch, and launches the expanded path under its
      project name exactly when no session tab was found. */
  lemma KeyOutcomeProperties(ex: Executor, key: string, printPath: bool, projects: seq<(string, string)>, env: map<string, string>)
    ensures var o := KeyOutcome(ex, key, printPath, projects, env);
      var resolved := ResolveProjectPath(key, projects, env);
      (resolved.Err? ==> o == Effect(Err(NotFound(key)), [])) &&
      (resolved.Ok? && printPath ==> o == Effect(Ok(()), [])) &&
      (resolved.Ok? && !printPath ==>
        var name := ProjectName(resolved.value);
        var matched := MatchSessionTabSpec(ex.lsReply, name);
        o.calls != [] && o.calls[..|o.calls| - 1] == MatchCalls(ex, name) &&
        (o.calls[|o.calls| - 1].LaunchCall? <==> !(matched.Ok? && matched.value.Some?)) &&
        (o.calls[|o.calls| - 1].LaunchCall? ==> o.calls[|o.calls| - 1].launch == SessionTabLaunch(resolved.value, name)) &&
        (o.calls[|o.calls| - 1].FocusTabCall? ==> o.calls[|o.calls| - 1].focus.tabId == matched.value.value.id))
  {
  }

  /** `cmd_key_with_projects` */
  method CmdKeyWithProjects(app: Kitty, key: string, printPath: bool, projects: seq<(string, string)>, env: map<string, string>)
    returns (r: Result<()>)
    modifies app.kitty
    ensures var o := KeyOutcome(app.kitty, key, printPath, projects, env);
      r == o.result && app.kitty.calls == old(app.kitty.calls) + o.calls
  {
    var resolved := ResolveProjectPath(key, projects, env);
    if resolved.Err? {
      return Err(resolved.error);
    }
    var expandedPath := resolved.value;
    if printPath {
      return Ok(());
    }
    var projectName := ProjectName(expandedPath);
    var existing := app.MatchSessionTab(projectName);
    if existing.Ok? && existing.value.Some? {
      r := app.FocusTab(existing.value.value.id);
      return;
    }
    r := app.CreateSessionTabByPath(expandedPath, projectName);
  }
}
