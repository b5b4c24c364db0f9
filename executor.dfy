/** The executor the session layer talks to (the `CommandExecutor`
    interface, plus the `set_tab_title` operation the session layer also
    calls).  Its behaviour is left open: each operation's reply is an
    arbitrary but fixed function of the command, given when the executor is
    built, so every property proved over it holds for any executor that
    answers the same command the same way during one run of the program.
    Every call is recorded, in order, in `calls`. */
module Executor {
  import opened Wrappers
  import opened KittyTypes
  import opened Ls
  import opened FocusTab
  import opened CloseTab
  import opened Launch
  import opened NavigateTab
  import opened SetTabTitle

  datatype Call =
    | LsCall(ls: KittenLsCommand)
    | FocusTabCall(focus: KittenFocusTabCommand)
    | CloseTabCall(close: KittenCloseTabCommand)
    | LaunchCall(launch: KittenLaunchCommand)
    | NavigateTabCall(navigate: KittenNavigateTabCommand)
    | SetTabTitleCall(setTitle: KittenSetTabTitleCommand)

  class Executor {
    var calls: seq<Call>
    const lsReply: KittenLsCommand -> Result<KittyLsResponse>
    const focusTabReply: KittenFocusTabCommand -> Result<KittyCommandResult<()>>
    const closeTabReply: KittenCloseTabCommand -> Result<KittyCommandResult<()>>
    const launchReply: KittenLaunchCommand -> Result<KittyCommandResult<KittyLaunchResponse>>
    const navigateTabReply: KittenNavigateTabCommand -> Result<KittyCommandResult<()>>
    const setTabTitleReply: KittenSetTabTitleCommand -> Result<KittyCommandResult<()>>

    constructor (
      lsReply: KittenLsCommand -> Result<KittyLsResponse>,
      focusTabReply: KittenFocusTabCommand -> Result<KittyCommandResult<()>>,
      closeTabReply: KittenCloseTabCommand -> Result<KittyCommandResult<()>>,
      launchReply: KittenLaunchCommand -> Result<KittyCommandResult<KittyLaunchResponse>>,
      navigateTabReply: KittenNavigateTabCommand -> Result<KittyCommandResult<()>>,
      setTabTitleReply: KittenSetTabTitleCommand -> Result<KittyCommandResult<()>>)
      ensures calls == []
      ensures this.lsReply == lsReply && this.focusTabReply == focusTabReply
      ensures this.closeTabReply == closeTabReply && this.launchReply == launchReply
      ensures this.navigateTabReply == navigateTabReply && this.setTabTitleReply == setTabTitleReply
    {
      calls := [];
      this.lsReply := lsReply;
      this.focusTabReply := focusTabReply;
      this.closeTabReply := closeTabReply;
      this.launchReply := launchReply;
      this.navigateTabReply := navigateTabReply;
      this.setTabTitleReply := setTabTitleReply;
    }

    method Ls(command: KittenLsCommand) returns (r: Result<KittyLsResponse>)
      modifies this
      ensures calls == old(calls) + [LsCall(command)]
      ensures r == lsReply(command)
    {
      calls := calls + [LsCall(command)];
      r := lsReply(command);
    }

    method FocusTab(command: KittenFocusTabCommand) returns (r: Result<KittyCommandResult<()>>)
      modifies this
      ensures calls == old(calls) + [FocusTabCall(command)]
      ensures r == focusTabReply(command)
    {
      calls := calls + [FocusTabCall(command)];
      r := focusTabReply(command);
    }

    method CloseTab(command: KittenCloseTabCommand) returns (r: Result<KittyCommandResult<()>>)
      modifies this
      ensures calls == old(calls) + [CloseTabCall(command)]
      ensures r == closeTabReply(command)
    {
      calls := calls + [CloseTabCall(command)];
      r := closeTabReply(command);
    }

    method Launch(command: KittenLaunchCommand) returns (r: Result<KittyCommandResult<KittyLaunchResponse>>)
      modifies this
      ensures calls == old(calls) + [LaunchCall(command)]
      ensures r == launchReply(command)
    {
      calls := calls + [LaunchCall(command)];
      r := launchReply(command);
    }

    method NavigateTab(command: KittenNavigateTabCommand) returns (r: Result<KittyCommandResult<()>>)
      modifies this
      ensures calls == old(calls) + [NavigateTabCall(command)]
      ensures r == navigateTabReply(command)
    {
      calls := calls + [NavigateTabCall(command)];
      r := navigateTabReply(command);
    }

    method SetTabTitle(command: KittenSetTabTitleCommand) returns (r: Result<KittyCommandResult<()>>)
      modifies this
      ensures calls == old(calls) + [SetTabTitleCall(command)]
      ensures r == setTabTitleReply(command)
    {
      calls := calls + [SetTabTitleCall(command)];
      r := setTabTitleReply(command);
    }
  }
}
