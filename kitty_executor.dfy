/** `KittyExecutor`: the executor that talks to a running kitty.  Only the
    argument vectors it hands to `kitten` are modelled; spawning the process
    and reading its output are I/O. */
module KittyExecutor {
  import opened Wrappers
  import opened Strings
  import opened MatchQuery
  import opened KittenArgs
  import opened Ls
  import opened FocusTab
  import opened Launch

  class KittyExecutor {
    /** The socket address, found by `get_kitty_socket` (I/O, so given). */
    const socket: string

    constructor(socket: string)
      ensures this.socket == socket
    {
      this.socket := socket;
    }

    /** The vector for `ls`: the match argument, when set, is the only
        optional part; `use_tab_match` is never consulted. */
    method LsArgs(command: KittenLsCommand) returns (args: seq<string>)
      ensures |args| == (if command.matchArg.Some? then 4 else 3)
      ensures args[..3] == ["@", "--to=" + socket, "ls"]
      ensures command.matchArg.Some? ==> args[3] == "--match=" + command.matchArg.value
      ensures ReadLs(args) == Some(LsView(socket, command.matchArg))
    {
      var socketArg := "--to=" + socket;
      args := ["@", socketArg, "ls"];
      if command.matchArg.Some? {
        var matchFormatted := "--match=" + command.matchArg.value;
        args := args + [matchFormatted];
        assert args[3][|MatchFlag|..] == command.matchArg.value;
      }
      assert args[1][|ToFlag|..] == socket;
    }

    /** The vector for `focus-tab`, selecting the tab by id. */
    method FocusTabArgs(command: KittenFocusTabCommand) returns (args: seq<string>)
      ensures args == ["@", "--to=" + socket, "focus-tab", "--match=id:" + NatToString(command.tabId)]
      ensures ReadFocus(args) == Some(FocusView(socket, "id:" + NatToString(command.tabId)))
      ensures Read(ReadFocus(args).value.matchArg) == Some(IdQuery(command.tabId))
    {
      var socketArg := "--to=" + socket;
      var matchArg := "--match=id:" + NatToString(command.tabId);
      args := ["@", socketArg, "focus-tab", matchArg];
      assert args[1][|ToFlag|..] == socket;
      assert args[3][|MatchFlag|..] == "id:" + NatToString(command.tabId);
      ReadIdQuery(command.tabId);
    }

    /** The vector for `launch`: type, then the cwd, the environment
        assignment and the title ("--tab-title" and the title as two
        arguments), each only when set.  `inherit_session` is not passed. */
    method LaunchArgs(command: KittenLaunchCommand) returns (args: seq<string>)
      ensures |args| >= 4 && args[..4] == ["@", "--to=" + socket, "launch", "--type=" + command.launchType]
      ensures ReadLaunch(args) == Some(LaunchView(socket, command.launchType, command.cwd, command.env, command.tabTitle))
    {
      var socketArg := "--to=" + socket;
      var typeArg := "--type=" + command.launchType;
      args := ["@", socketArg, "launch", typeArg];
      ghost var head := args;
      ghost var cwdPart: seq<string> := [];
      if command.cwd.Some? {
        cwdPart := ["--cwd=" + command.cwd.value];
        args := args + ["--cwd=" + command.cwd.value];
      }
      ghost var envPart: seq<string> := [];
      if command.env.Some? {
        envPart := ["--env=" + command.env.value];
        args := args + ["--env=" + command.env.value];
      }
      ghost var titlePart: seq<string> := [];
      if command.tabTitle.Some? {
        titlePart := ["--tab-title", command.tabTitle.value];
        args := args + ["--tab-title"];
        args := args + [command.tabTitle.value];
      }
      assert args == head + cwdPart + envPart + titlePart;
      LaunchVectorReads(socket, command.launchType, command.cwd, command.env, command.tabTitle, cwdPart, envPart, titlePart, args);
    }
  }
}
