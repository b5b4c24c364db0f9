/** How `kitten @` reads the argument vectors the program builds: a reader
    per remote-control verb that takes a vector apart into the values it
    carries.  Both executors (kitty-lib's and the older top-level one) are
    checked against these readers. */
module KittenArgs {
  import opened Wrappers

  /** What an `ls` vector carries: the socket and the optional match. */
  datatype LsView = LsView(socket: string, matchArg: Option<string>)

  /** What a `focus-tab` vector carries: the socket and the match. */
  datatype FocusView = FocusView(socket: string, matchArg: string)

  /** What a `launch` vector carries. */
  datatype LaunchView = LaunchView(
    socket: string,
    launchType: string,
    cwd: Option<string>,
    env: Option<string>,
    tabTitle: Option<string>)

  const ToFlag := "--to="
  const MatchFlag := "--match="
  const TypeFlag := "--type="
  const CwdFlag := "--cwd="
  const EnvFlag := "--env="
  const TabTitleFlag := "--tab-title"

  function ReadLs(args: seq<string>): Option<LsView> {
    if |args| < 3 || |args| > 4 || args[0] != "@" || !(ToFlag <= args[1]) || args[2] != "ls" then None
    else if |args| == 3 then Some(LsView(args[1][|ToFlag|..], None))
    else if MatchFlag <= args[3] then Some(LsView(args[1][|ToFlag|..], Some(args[3][|MatchFlag|..])))
    else None
  }

  function ReadFocus(args: seq<string>): Option<FocusView> {
    if |args| != 4 || args[0] != "@" || !(ToFlag <= args[1]) || args[2] != "focus-tab" || !(MatchFlag <= args[3]) then None
    else Some(FocusView(args[1][|ToFlag|..], args[3][|MatchFlag|..]))
  }

  /** An optional "FLAGvalue" argument at the head of rest. */
  function ReadOptional(flag: string, rest: seq<string>): (r: (Option<string>, seq<string>))
    ensures |r.1| <= |rest|
  {
    if |rest| > 0 && flag <= rest[0] then (Some(rest[0][|flag|..]), rest[1..]) else (None, rest)
  }

  /** The title as "--tab-title" then the title itself, or nothing. */
  function ReadTitle(rest: seq<string>): Option<Option<string>> {
    if rest == [] then Some(None)
    else if |rest| == 2 && rest[0] == TabTitleFlag then Some(Some(rest[1]))
    else None
  }

  function ReadLaunch(args: seq<string>): Option<LaunchView> {
    if |args| < 4 || args[0] != "@" || !(ToFlag <= args[1]) || args[2] != "launch" || !(TypeFlag <= args[3]) then None
    else
      var (cwd, afterCwd) := ReadOptional(CwdFlag, args[4..]);
      var (env, afterEnv) := ReadOptional(EnvFlag, afterCwd);
      match ReadTitle(afterEnv)
      case Some(title) => Some(LaunchView(args[1][|ToFlag|..], args[3][|TypeFlag|..], cwd, env, title))
      case None => None
  }

  /** The "--env=" and "--tab-title" arguments never look like a "--cwd="
      argument, and "--tab-title" never looks like an "--env=" one, so the
      optional parts of a launch vector are read back without confusion. */
  lemma FlagsDistinct(env: string, cwd: string)
    ensures !(CwdFlag <= EnvFlag + env) && !(CwdFlag <= TabTitleFlag) && !(EnvFlag <= TabTitleFlag)
    ensures CwdFlag + cwd != TabTitleFlag && EnvFlag + env != TabTitleFlag
  {
    assert (EnvFlag + env)[2] == 'e';
    assert (CwdFlag + cwd)[2] == 'c';
    assert TabTitleFlag[2] == 't';
  }

  /** The optional tail of a launch vector reads back as the given cwd,
      environment assignment and title. */
  lemma LaunchTailReads(cwd: Option<string>, env: Option<string>, tabTitle: Option<string>, cwdPart: seq<string>, envPart: seq<string>, titlePart: seq<string>, rest: seq<string>)
    requires cwdPart == (if cwd.Some? then ["--cwd=" + cwd.value] else [])
    requires envPart == (if env.Some? then ["--env=" + env.value] else [])
    requires titlePart == (if tabTitle.Some? then ["--tab-title", tabTitle.value] else [])
    requires rest == cwdPart + envPart + titlePart
    ensures ReadOptional(CwdFlag, rest) == (cwd, envPart + titlePart)
    ensures ReadOptional(EnvFlag, envPart + titlePart) == (env, titlePart)
    ensures ReadTitle(titlePart) == Some(tabTitle)
  {
    FlagsDistinct(if env.Some? then env.value else "", if cwd.Some? then cwd.value else "");
    if cwd.Some? {
      assert rest == [CwdFlag + cwd.value] + (envPart + titlePart);
      ReadOptionalPresent(CwdFlag, cwd.value, envPart + titlePart);
    } else {
      assert rest == envPart + titlePart;
      ReadOptionalAbsent(CwdFlag, rest);
    }
    if env.Some? {
      assert envPart + titlePart == [EnvFlag + env.value] + titlePart;
      ReadOptionalPresent(EnvFlag, env.value, titlePart);
    } else {
      assert envPart + titlePart == titlePart;
      ReadOptionalAbsent(EnvFlag, envPart + titlePart);
    }
  }

  /** A launch vector built as the executors build it reads back as the
      command it was built from. */
  lemma LaunchVectorReads(socket: string, launchType: string, cwd: Option<string>, env: Option<string>,
                          tabTitle: Option<string>, cwdPart: seq<string>, envPart: seq<string>,
                          titlePart: seq<string>, args: seq<string>)
    requires cwdPart == (if cwd.Some? then ["--cwd=" + cwd.value] else [])
    requires envPart == (if env.Some? then ["--env=" + env.value] else [])
    requires titlePart == (if tabTitle.Some? then ["--tab-title", tabTitle.value] else [])
    requires args == ["@", "--to=" + socket, "launch", "--type=" + launchType] + cwdPart + envPart + titlePart
    ensures ReadLaunch(args) == Some(LaunchView(socket, launchType, cwd, env, tabTitle))
  {
    assert args[4..] == cwdPart + envPart + titlePart;
    LaunchTailReads(cwd, env, tabTitle, cwdPart, envPart, titlePart, args[4..]);
    assert args[1][|ToFlag|..] == socket;
    assert args[3][|TypeFlag|..] == launchType;
  }

  lemma ReadOptionalPresent(flag: string, value: string, tail: seq<string>)
    ensures ReadOptional(flag, [flag + value] + tail) == (Some(value), tail)
  {
    var rest := [flag + value] + tail;
    assert rest[0][|flag|..] == value;
    assert rest[1..] == tail;
  }

  lemma ReadOptionalAbsent(flag: string, rest: seq<string>)
    requires rest == [] || !(flag <= rest[0])
    ensures ReadOptional(flag, rest) == (None, rest)
  {
  }
}
