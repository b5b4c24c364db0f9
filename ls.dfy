/** `KittenLsCommand`: the query an `ls` call sends, built by value. */
module Ls {
  import opened Wrappers
  import opened MatchQuery

  datatype KittenLsCommand = KittenLsCommand(matchArg: Option<string>, useTabMatch: bool)

  /** `new()` and `Default`: list everything. */
  function New(): (c: KittenLsCommand)
    ensures c.matchArg.None? && !c.useTabMatch
  {
    KittenLsCommand(None, false)
  }

  /** `match_env`: select by a window's environment, keeping the tab flag. */
  function MatchEnv(c: KittenLsCommand, name: string, value: string): (r: KittenLsCommand)
    ensures r.matchArg == Some("env:" + name + "=" + value)
    ensures r.useTabMatch == c.useTabMatch
  {
    c.(matchArg := Some("env:" + name + "=" + value))
  }

  /** `match_tab_env`: the same selection, asking for tab matching. */
  function MatchTabEnv(c: KittenLsCommand, name: string, value: string): (r: KittenLsCommand)
    ensures r.matchArg == Some("env:" + name + "=" + value)
    ensures r.useTabMatch
  {
    KittenLsCommand(Some("env:" + name + "=" + value), true)
  }

  /** `match_tab_title`: select tabs by title pattern. */
  function MatchTabTitle(c: KittenLsCommand, pattern: string): (r: KittenLsCommand)
    ensures r.matchArg == Some("title:" + pattern)
    ensures r.useTabMatch
  {
    KittenLsCommand(Some("title:" + pattern), true)
  }

  /** Each builder leaves a match argument that the reference reader reads
      back as exactly the query asked for. */
  lemma MatchArgumentsRead(c: KittenLsCommand, name: string, value: string, pattern: string)
    requires '=' !in name
    ensures Read(MatchEnv(c, name, value).matchArg.value) == Some(EnvQuery(name, value))
    ensures Read(MatchTabEnv(c, name, value).matchArg.value) == Some(EnvQuery(name, value))
    ensures Read(MatchTabTitle(c, pattern).matchArg.value) == Some(TitleQuery(pattern))
  {
    ReadEnvQuery(name, value);
    ReadTitleQuery(pattern);
  }

  /** A later match builder replaces the earlier match argument. */
  lemma LaterMatchOverwrites(c: KittenLsCommand, name: string, value: string, pattern: string)
    ensures MatchTabTitle(MatchEnv(c, name, value), pattern) == MatchTabTitle(c, pattern)
    ensures MatchTabEnv(MatchTabTitle(c, pattern), name, value) == MatchTabEnv(c, name, value)
    ensures MatchEnv(MatchTabTitle(c, pattern), name, value).matchArg == MatchEnv(c, name, value).matchArg
  {
  }
}
