/** The older top-level `kitty_lib`: the same three remote-control commands,
    but each record carries its own socket and builds its own argument vector
    in `execute`.  Spawning `kitten` is I/O and is not modelled. */
module LegacyKittyLib {
  import opened Wrappers
  import opened Strings
  import opened MatchQuery
  import opened KittenArgs

  datatype KittenLsCommand = KittenLsCommand(socket: string, matchArg: Option<string>)

  datatype KittenFocusTabCommand = KittenFocusTabCommand(socket: string, tabId: nat)

  datatype KittenLaunchCommand = KittenLaunchCommand(
    socket: string,
    launchType: string,
    cwd: Option<string>,
    env: Option<string>,
    tabTitle: Option<string>)

  function LsNew(socket: string): (c: KittenLsCommand)
    ensures c.socket == socket && c.matchArg.None?
  {
    KittenLsCommand(socket, None)
  }

  /** `match_env`: the match argument the reference reader reads as this env query. */
  function MatchEnv(c: KittenLsCommand, name: string, value: string): (r: KittenLsCommand)
    ensures r.socket == c.socket && r.matchArg == Some("env:" + name + "=" + value)
  {
    c.(matchArg := Some("env:" + name + "=" + value))
  }

  lemma MatchEnvReads(c: KittenLsCommand, name: string, value: string)
    requires '=' !in name
    ensures Read(MatchEnv(c, name, value).matchArg.value) == Some(EnvQuery(name, value))
  {
    ReadEnvQuery(name, value);
  }

  function LaunchNew(socket: string): (c: KittenLaunchCommand)
    ensures c.socket == socket && c.launchType == "tab" && c.cwd.None? && c.env.None? && c.tabTitle.None?
  {
    KittenLaunchCommand(socket, "tab", None, None, None)
  }

  function LaunchType(c: KittenLaunchCommand, launchType: string): (r: KittenLaunchCommand)
    ensures r.launchType == launchType
    ensures r.socket == c.socket && r.cwd == c.cwd && r.env == c.env && r.tabTitle == c.tabTitle
  {
    c.(launchType := launchType)
  }

  function Cwd(c: KittenLaunchCommand, cwd: string): (r: KittenLaunchCommand)
    ensures r.cwd == Some(cwd)
    ensures r.socket == c.socket && r.launchType == c.launchType && r.env == c.env && r.tabTitle == c.tabTitle
  {
    c.(cwd := Some(cwd))
  }

  function Env(c: KittenLaunchCommand, name: string, value: string): (r: KittenLaunchCommand)
    ensures r.env == Some(name + "=" + value)
    ensures r.socket == c.socket && r.launchType == c.launchType && r.cwd == c.cwd && r.tabTitle == c.tabTitle
  {
    c.(env := Some(name + "=" + value))
  }

  function TabTitle(c: KittenLaunchCommand, title: string): (r: KittenLaunchCommand)
    ensures r.tabTitle == Some(title)
    ensures r.socket == c.socket && r.launchType == c.launchType && r.cwd == c.cwd && r.env == c.env
  {
    c.(tabTitle := Some(title))
  }

  lemma EnvAssignmentReads(c: KittenLaunchCommand, name: string, value: string)
    requires '=' !in name
    ensures ReadEnv(Env(c, name, value).env.value) == Some(EnvQuery(name, value))
  {
    ReadEnvAssignment(name, value);
  }

  /** `KittenLsCommand::execute`'s vector. */
  method LsArgs(c: KittenLsCommand) returns (args: seq<string>)
    ensures |args| == (if c.matchArg.Some? then 4 else 3)
    ensures args[..3] == ["@", "--to=" + c.socket, "ls"]
    ensures ReadLs(args) == Some(LsView(c.socket, c.matchArg))
  {
    var socketArg := "--to=" + c.socket;
    args := ["@", socketArg, "ls"];
    if c.matchArg.Some? {
      var matchFormatted := "--match=" + c.matchArg.value;
      args := args + [matchFormatted];
      assert args[3][|MatchFlag|..] == c.matchArg.value;
    }
    assert args[1][|ToFlag|..] == c.socket;
  }

  /** `KittenFocusTabCommand::execute`'s vector. */
  method FocusTabArgs(c: KittenFocusTabCommand) returns (args: seq<string>)
    ensures args == ["@", "--to=" + c.socket, "focus-tab", "--match=id:" + NatToString(c.tabId)]
    ensures ReadFocus(args) == Some(FocusView(c.socket, "id:" + NatToString(c.tabId)))
    ensures Read(ReadFocus(args).value.matchArg) == Some(IdQuery(c.tabId))
  {
    var socketArg := "--to=" + c.socket;
    var matchArg := "--match=id:" + NatToString(c.tabId);
    args := ["@", socketArg, "focus-tab", matchArg];
    assert args[1][|ToFlag|..] == c.socket;
    assert args[3][|MatchFlag|..] == "id:" + NatToString(c.tabId);
    ReadIdQuery(c.tabId);
  }

  /** `KittenLaunchCommand::execute`'s vector: the same layout as the newer
      executor's. */
  method LaunchArgs(c: KittenLaunchCommand) returns (args: seq<string>)
    ensures |args| >= 4 && args[..4] == ["@", "--to=" + c.socket, "launch", "--type=" + c.launchType]
    ensures ReadLaunch(args) == Some(LaunchView(c.socket, c.launchType, c.cwd, c.env, c.tabTitle))
  {
    var socketArg := "--to=" + c.socket;
    var typeArg := "--type=" + c.launchType;
    args := ["@", socketArg, "launch", typeArg];
    ghost var head := args;
    ghost var cwdPart: seq<string> := [];
    if c.cwd.Some? {
      cwdPart := ["--cwd=" + c.cwd.value];
      args := args + ["--cwd=" + c.cwd.value];
    }
    ghost var envPart: seq<string> := [];
    if c.env.Some? {
      envPart := ["--env=" + c.env.value];
      args := args + ["--env=" + c.env.value];
    }
    ghost var titlePart: seq<string> := [];
    if c.tabTitle.Some? {
      titlePart := ["--tab-title", c.tabTitle.value];
      args := args + ["--tab-title"];
      args := args + [c.tabTitle.value];
    }
    assert args == head + cwdPart + envPart + titlePart;
    LaunchVectorReads(c.socket, c.launchType, c.cwd, c.env, c.tabTitle, cwdPart, envPart, titlePart, args);
  }
}
