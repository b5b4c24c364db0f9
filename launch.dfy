/** `KittenLaunchCommand`: what a `launch` call asks kitty to open. */
module Launch {
  import opened Wrappers
  import opened MatchQuery

  datatype KittenLaunchCommand = KittenLaunchCommand(
    launchType: string,
    cwd: Option<string>,
    env: Option<string>,
    tabTitle: Option<string>,
    inheritSession: bool)

  /** `new()` and `Default`: a plain new tab. */
  function New(): (c: KittenLaunchCommand)
    ensures c.launchType == "tab" && c.cwd.None? && c.env.None? && c.tabTitle.None? && !c.inheritSession
  {
    KittenLaunchCommand("tab", None, None, None, false)
  }

  function LaunchType(c: KittenLaunchCommand, launchType: string): (r: KittenLaunchCommand)
    ensures r.launchType == launchType
    ensures r.cwd == c.cwd && r.env == c.env && r.tabTitle == c.tabTitle && r.inheritSession == c.inheritSession
  {
    c.(launchType := launchType)
  }

  function Cwd(c: KittenLaunchCommand, cwd: string): (r: KittenLaunchCommand)
    ensures r.cwd == Some(cwd)
    ensures r.launchType == c.launchType && r.env == c.env && r.tabTitle == c.tabTitle && r.inheritSession == c.inheritSession
  {
    c.(cwd := Some(cwd))
  }

  /** `env(k, v)` keeps the one assignment "k=v", replacing any earlier one. */
  function Env(c: KittenLaunchCommand, name: string, value: string): (r: KittenLaunchCommand)
    ensures r.env == Some(name + "=" + value)
    ensures r.launchType == c.launchType && r.cwd == c.cwd && r.tabTitle == c.tabTitle && r.inheritSession == c.inheritSession
  {
    c.(env := Some(name + "=" + value))
  }

  function TabTitle(c: KittenLaunchCommand, title: string): (r: KittenLaunchCommand)
    ensures r.tabTitle == Some(title)
    ensures r.launchType == c.launchType && r.cwd == c.cwd && r.env == c.env && r.inheritSession == c.inheritSession
  {
    c.(tabTitle := Some(title))
  }

  /** `inherit_current_session`: sets the inheritance flag and nothing else. */
  function InheritCurrentSession(c: KittenLaunchCommand): (r: KittenLaunchCommand)
    ensures r.inheritSession
    ensures r.launchType == c.launchType && r.cwd == c.cwd && r.env == c.env && r.tabTitle == c.tabTitle
  {
    c.(inheritSession := true)
  }

  /** The stored assignment splits back into the variable and its value. */
  lemma EnvAssignmentReads(c: KittenLaunchCommand, name: string, value: string)
    requires '=' !in name
    ensures ReadEnv(Env(c, name, value).env.value) == Some(EnvQuery(name, value))
  {
    ReadEnvAssignment(name, value);
  }

  /** Setters of different fields commute, and a second `env` wins. */
  lemma BuildersIndependent(c: KittenLaunchCommand, cwd: string, name: string, value: string, title: string, name2: string, value2: string)
    ensures TabTitle(Cwd(c, cwd), title) == Cwd(TabTitle(c, title), cwd)
    ensures Env(Cwd(c, cwd), name, value) == Cwd(Env(c, name, value), cwd)
    ensures Env(Env(c, name, value), name2, value2) == Env(c, name2, value2)
  {
  }
}
