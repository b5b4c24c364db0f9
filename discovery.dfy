/** Turning the search settings into project directories: `dirs` entries
    are literal paths or glob patterns, and every `vsc` root is searched for
    git repositories.  The filesystem is an input: a glob is a function from
    pattern to the entries it yields (`Err` for an invalid pattern), and a
    directory is a tree of the subdirectories `read_dir` lists. */
module Discovery {
  import opened Wrappers
  import opened ConfigTypes
  import Config

  /** One entry a glob yields, or one it could not read. */
  datatype GlobEntry = Found(path: string, isDir: bool) | Unreadable

  /** A directory: whether it holds `.git`, and its subdirectories as
      `read_dir` lists them (none when it cannot be read; files are not
      listed, as only directories are looked at). */
  datatype Dir = Dir(path: string, name: string, hasGit: bool, readable: bool, subdirs: seq<Dir>)

  /** `shellexpand::tilde`: a leading `~` alone or before `/` becomes the
      home directory.  The home directory is taken to be HOME; the library's
      own lookup (which falls back to the password database when HOME is
      unset or empty) is not modelled. */
  function Tilde(path: string, env: map<string, string>): (r: string)
    ensures "HOME" in env && path == "~" ==> r == env["HOME"]
    ensures "HOME" in env && |path| >= 2 && path[..2] == "~/" ==> r == env["HOME"] + path[1..]
    ensures !("HOME" in env && (path == "~" || (|path| >= 2 && path[..2] == "~/"))) ==> r == path
  {
    if "HOME" in env && (path == "~" || (|path| >= 2 && path[..2] == "~/")) then env["HOME"] + path[1..]
    else path
  }

  /** An entry naming `*`, `?` or `[` is a glob pattern. */
  predicate IsGlob(pattern: string) {
    '*' in pattern || '?' in pattern || '[' in pattern
  }

  /** The directories among a glob's entries, in order. */
  function GlobDirs(entries: seq<GlobEntry>): seq<string> {
    if entries == [] then []
    else
      var last := entries[|entries| - 1];
      GlobDirs(entries[..|entries| - 1]) + (if last.Found? && last.isDir then [last.path] else [])
  }

  /** Exactly the directory entries a glob yields are kept. */
  lemma {:induction false} GlobDirsMembers(entries: seq<GlobEntry>)
    ensures forall p :: p in GlobDirs(entries) <==> Found(p, true) in entries
  {
    if entries != [] {
      var prev, last := entries[..|entries| - 1], entries[|entries| - 1];
      GlobDirsMembers(prev);
      assert entries == prev + [last];
    }
  }

  /** What one `dirs` entry contributes: a glob's directories (nothing for
      an invalid pattern), or the literal path whether or not it exists. */
  function ExpandPattern(pattern: string, env: map<string, string>, glob: string -> Result<seq<GlobEntry>>): seq<string> {
    var expanded := Tilde(pattern, env);
    if IsGlob(pattern) then
      (if glob(expanded).Ok? then GlobDirs(glob(expanded).value) else [])
    else [expanded]
  }

  /** A literal entry is kept as it is written, tilde expanded; a glob
      contributes exactly the directories it matches. */
  lemma ExpandPatternShape(pattern: string, env: map<string, string>, glob: string -> Result<seq<GlobEntry>>)
    ensures !IsGlob(pattern) ==> ExpandPattern(pattern, env, glob) == [Tilde(pattern, env)]
    ensures IsGlob(pattern) ==> forall p :: p in ExpandPattern(pattern, env, glob) <==>
      glob(Tilde(pattern, env)).Ok? && Found(p, true) in glob(Tilde(pattern, env)).value
  {
    if IsGlob(pattern) && glob(Tilde(pattern, env)).Ok? {
      GlobDirsMembers(glob(Tilde(pattern, env)).value);
    }
  }

  function ExpandAll(patterns: seq<string>, env: map<string, string>, glob: string -> Result<seq<GlobEntry>>): seq<string> {
    if patterns == [] then []
    else ExpandAll(patterns[..|patterns| - 1], env, glob) + ExpandPattern(patterns[|patterns| - 1], env, glob)
  }

  lemma ExpandAllSnoc(patterns: seq<string>, pattern: string, env: map<string, string>, glob: string -> Result<seq<GlobEntry>>)
    ensures ExpandAll(patterns + [pattern], env, glob) == ExpandAll(patterns, env, glob) + ExpandPattern(pattern, env, glob)
  {
    assert (patterns + [pattern])[..|patterns|] == patterns;
  }

  /** A directory is listed exactly when some entry contributes it. */
  lemma {:induction false} ExpandAllMember(patterns: seq<string>, env: map<string, string>, glob: string -> Result<seq<GlobEntry>>, p: string)
    ensures p in ExpandAll(patterns, env, glob) <==> exists i :: 0 <= i < |patterns| && p in ExpandPattern(patterns[i], env, glob)
  {
    if patterns != [] {
      var prefix := patterns[..|patterns| - 1];
      ExpandAllMember(prefix, env, glob, p);
      assert forall i :: 0 <= i < |prefix| ==> patterns[i] == prefix[i];
    }
  }

  function Flatten(parts: seq<seq<string>>): seq<string> {
    if parts == [] then [] else Flatten(parts[..|parts| - 1]) + parts[|parts| - 1]
  }

  lemma FlattenSnoc(parts: seq<seq<string>>, part: seq<string>)
    ensures Flatten(parts + [part]) == Flatten(parts) + part
  {
    assert (parts + [part])[..|parts|] == parts;
  }

  lemma {:induction false} FlattenMember(parts: seq<seq<string>>, p: string)
    ensures p in Flatten(parts) <==> exists i :: 0 <= i < |parts| && p in parts[i]
  {
    if parts != [] {
      var prefix := parts[..|parts| - 1];
      FlattenMember(prefix, p);
      assert forall i :: 0 <= i < |prefix| ==> parts[i] == prefix[i];
    }
  }

  /** `s.contains(p)` */
  predicate Contains(s: string, p: string) {
    p <= s || (s != [] && Contains(s[1..], p))
  }

  /** A hidden directory, or one whose name contains an exclude pattern, is
      not searched. */
  predicate Skipped(name: string, exclude: Option<seq<string>>) {
    (|name| > 0 && name[0] == '.') ||
    (exclude.Some? && exists pattern :: pattern in exclude.value && Contains(name, pattern))
  }

  /** `find_git_projects_recursive_helper` as specified: nothing at or
      beyond the depth limit; a directory holding `.git` is reported and
      not entered; otherwise the subdirectories that are not skipped are
      searched one level deeper, in listing order. */
  function GitProjects(dir: Dir, search: SearchConfig, depth: nat): seq<string>
    decreases dir, 1
  {
    if search.maxDepth.Some? && depth >= search.maxDepth.value then []
    else if dir.hasGit then [dir.path]
    else if !dir.readable then []
    else Flatten(Parts(dir, search, depth))
  }

  /** How many more levels may be searched (`None`: no limit). */
  function Remaining(maxDepth: Option<nat>, depth: nat): Option<nat> {
    if maxDepth.None? then None else if depth < maxDepth.value then Some(maxDepth.value - depth) else Some(0)
  }

  function Below(levels: Option<nat>): Option<nat> {
    if levels.None? then None else if levels.value > 0 then Some(levels.value - 1) else Some(0)
  }

  /** `p` is the path of a git repository in the tree under `dir`, found
      within `levels` levels, through readable directories that are not
      themselves repositories and whose names are not skipped. */
  ghost predicate GitAt(dir: Dir, p: string, exclude: Option<seq<string>>, levels: Option<nat>)
    decreases dir
  {
    (levels.None? || levels.value > 0) &&
    (if dir.hasGit then dir.path == p
     else dir.readable && exists i :: 0 <= i < |dir.subdirs| && !Skipped(dir.subdirs[i].name, exclude) &&
                                      GitAt(dir.subdirs[i], p, exclude, Below(levels)))
  }

  function Parts(dir: Dir, search: SearchConfig, depth: nat): seq<seq<string>>
    decreases dir, 0
  {
    seq(|dir.subdirs|, i requires 0 <= i < |dir.subdirs| =>
      if Skipped(dir.subdirs[i].name, search.exclude) then [] else GitProjects(dir.subdirs[i], search, depth + 1))
  }

  /** Everything the search reports is a repository within reach. */
  lemma {:induction false} GitProjectsSound(dir: Dir, search: SearchConfig, depth: nat, p: string)
    requires p in GitProjects(dir, search, depth)
    ensures GitAt(dir, p, search.exclude, Remaining(search.maxDepth, depth))
    decreases dir
  {
    if !dir.hasGit {
      var parts := Parts(dir, search, depth);
      assert GitProjects(dir, search, depth) == Flatten(parts);
      FlattenMember(parts, p);
      assert Remaining(search.maxDepth, depth + 1) == Below(Remaining(search.maxDepth, depth));
      var i :| 0 <= i < |parts| && p in parts[i];
      GitProjectsSound(dir.subdirs[i], search, depth + 1, p);
    }
  }

  /** Every repository within reach is reported. */
  lemma {:induction false} GitProjectsComplete(dir: Dir, search: SearchConfig, depth: nat, p: string)
    requires GitAt(dir, p, search.exclude, Remaining(search.maxDepth, depth))
    ensures p in GitProjects(dir, search, depth)
    decreases dir
  {
    var levels := Remaining(search.maxDepth, depth);
    if !dir.hasGit {
      var parts := Parts(dir, search, depth);
      assert GitProjects(dir, search, depth) == Flatten(parts);
      FlattenMember(parts, p);
      assert Remaining(search.maxDepth, depth + 1) == Below(levels);
      var i :| 0 <= i < |dir.subdirs| && !Skipped(dir.subdirs[i].name, search.exclude) &&
               GitAt(dir.subdirs[i], p, search.exclude, Below(levels));
      GitProjectsComplete(dir.subdirs[i], search, depth + 1, p);
      assert p in parts[i];
    }
  }

  /** `find_git_projects_recursive_helper`: appends what it finds to
      `gitProjects`. */
  method FindGitProjects(dir: Dir, gitProjects: seq<string>, search: SearchConfig, currentDepth: nat)
    returns (found: seq<string>)
    ensures found == gitProjects + GitProjects(dir, search, currentDepth)
    decreases dir
  {
    if search.maxDepth.Some? && currentDepth >= search.maxDepth.value {
      return gitProjects;
    }
    if dir.hasGit {
      return gitProjects + [dir.path];
    }
    if !dir.readable {
      assert gitProjects + [] == gitProjects;
      return gitProjects;
    }
    ghost var parts := Parts(dir, search, currentDepth);
    ghost var done: seq<seq<string>> := [];
    found := gitProjects;
    assert gitProjects + [] == gitProjects;
    for i := 0 to |dir.subdirs|
      invariant done == parts[..i]
      invariant found == gitProjects + Flatten(done)
    {
      var entry := dir.subdirs[i];
      ghost var part := parts[i];
      assert parts[..i + 1] == done + [part];
      FlattenSnoc(done, part);
      done := done + [part];
      if Skipped(entry.name, search.exclude) {
        assert part == [] && Flatten(done) == Flatten(parts[..i]) + [];
        continue;
      }
      assert part == GitProjects(entry, search, currentDepth + 1);
      assert gitProjects + Flatten(done) == (gitProjects + Flatten(parts[..i])) + part;
      found := FindGitProjects(entry, found, search, currentDepth + 1);
    }
    assert parts[..|parts|] == parts;
  }

  /** What searching the `vsc` roots finds: each root that exists as a
      directory (`fs` gives its tree), searched from depth 0, in order. */
  function Discovered(vsc: seq<string>, search: SearchConfig, env: map<string, string>, fs: string -> Option<Dir>): seq<string> {
    if vsc == [] then []
    else
      var root := fs(Tilde(vsc[|vsc| - 1], env));
      Discovered(vsc[..|vsc| - 1], search, env, fs) + (if root.Some? then GitProjects(root.value, search, 0) else [])
  }

  /** `discover_git_projects`, given the resolved search settings. */
  method DiscoverGitProjects(search: SearchConfig, env: map<string, string>, fs: string -> Option<Dir>)
    returns (gitProjects: seq<string>)
    ensures gitProjects == Discovered(search.vsc.GetOr([]), search, env, fs)
  {
    gitProjects := [];
    var vscDirs := search.vsc.GetOr([]);
    for i := 0 to |vscDirs|
      invariant gitProjects == Discovered(vscDirs[..i], search, env, fs)
    {
      assert vscDirs[..i + 1][..i] == vscDirs[..i];
      var vscPath := Tilde(vscDirs[i], env);
      var root := fs(vscPath);
      if root.Some? {
        gitProjects := FindGitProjects(root.value, gitProjects, search, 0);
      } else {
        assert gitProjects + [] == gitProjects;
      }
    }
    assert vscDirs[..|vscDirs|] == vscDirs;
  }

  lemma GlobDirsSnoc(entries: seq<GlobEntry>, e: GlobEntry)
    ensures GlobDirs(entries + [e]) == GlobDirs(entries) + (if e.Found? && e.isDir then [e.path] else [])
  {
    assert (entries + [e])[..|entries|] == entries;
  }

  /** The loop over a glob's entries: each directory is appended to `acc`. */
  method GlobInto(acc: seq<string>, entries: seq<GlobEntry>) returns (expandedDirs: seq<string>)
    ensures expandedDirs == acc + GlobDirs(entries)
  {
    expandedDirs := acc;
    ghost var done: seq<GlobEntry> := [];
    for k := 0 to |entries|
      invariant done == entries[..k]
      invariant expandedDirs == acc + GlobDirs(done)
    {
      var entry := entries[k];
      GlobDirsSnoc(done, entry);
      assert entries[..k + 1] == done + [entry];
      if entry.Found? && entry.isDir {
        assert acc + GlobDirs(done) + [entry.path] == acc + (GlobDirs(done) + [entry.path]);
        expandedDirs := expandedDirs + [entry.path];
      } else {
        assert GlobDirs(done) + [] == GlobDirs(done);
      }
      done := done + [entry];
    }
    assert entries[..|entries|] == entries;
  }

  /** The entries one `dirs` pattern contributes, appended to `acc`. */
  method ExpandInto(acc: seq<string>, dirPattern: string, env: map<string, string>, glob: string -> Result<seq<GlobEntry>>)
    returns (expandedDirs: seq<string>)
    ensures expandedDirs == acc + ExpandPattern(dirPattern, env, glob)
  {
    expandedDirs := acc;
    var expandedPath := Tilde(dirPattern, env);
    if IsGlob(dirPattern) {
      var paths := glob(expandedPath);
      if paths.Ok? {
        expandedDirs := GlobInto(acc, paths.value);
      } else {
        assert acc + [] == acc;
      }
    } else {
      expandedDirs := expandedDirs + [expandedPath];
    }
  }

  /** `expanded_directories`: the `dirs` entries expanded in order, then
      the discovered repositories. */
  method ExpandedDirectories(config: Config.Config, env: map<string, string>, glob: string -> Result<seq<GlobEntry>>,
                             fs: string -> Option<Dir>)
    returns (r: Result<seq<string>>)
    ensures var search := Config.ResolvedSearchSpec(config);
      r == Ok(ExpandAll(search.dirs.GetOr([]), env, glob) + Discovered(search.vsc.GetOr([]), search, env, fs))
  {
    var expandedDirs: seq<string> := [];
    var resolvedSearch := Config.ResolvedSearch(config);
    var dirs := resolvedSearch.dirs.GetOr([]);
    ghost var done: seq<string> := [];
    for i := 0 to |dirs|
      invariant done == dirs[..i]
      invariant expandedDirs == ExpandAll(done, env, glob)
    {
      assert dirs[..i + 1] == done + [dirs[i]];
      ExpandAllSnoc(done, dirs[i], env, glob);
      done := done + [dirs[i]];
      expandedDirs := ExpandInto(expandedDirs, dirs[i], env, glob);
    }
    assert dirs[..|dirs|] == dirs;
    var gitProjects := DiscoverGitProjects(resolvedSearch, env, fs);
    return Ok(expandedDirs + gitProjects);
  }

  /** The discovered repositories come after every `dirs` entry and are
      exactly the repositories within reach of some existing root. */
  lemma {:induction false} DiscoveredExact(vsc: seq<string>, search: SearchConfig, env: map<string, string>,
                                           fs: string -> Option<Dir>, p: string)
    ensures p in Discovered(vsc, search, env, fs) <==>
      exists i :: 0 <= i < |vsc| && fs(Tilde(vsc[i], env)).Some? &&
                  GitAt(fs(Tilde(vsc[i], env)).value, p, search.exclude, Remaining(search.maxDepth, 0))
  {
    if vsc != [] {
      var prefix := vsc[..|vsc| - 1];
      var n := |vsc| - 1;
      DiscoveredExact(prefix, search, env, fs, p);
      assert forall i :: 0 <= i < n ==> vsc[i] == prefix[i];
      var root := fs(Tilde(vsc[n], env));
      if root.Some? && p in GitProjects(root.value, search, 0) {
        GitProjectsSound(root.value, search, 0, p);
      }
      if root.Some? && GitAt(root.value, p, search.exclude, Remaining(search.maxDepth, 0)) {
        GitProjectsComplete(root.value, search, 0, p);
      }
    }
  }
}
