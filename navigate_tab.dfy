/** `KittenNavigateTabCommand`: a request to move to the next or previous
    tab, optionally within one session and with or without wrapping. */
module NavigateTab {
  import opened Wrappers

  datatype TabNavigationDirection = Next | Previous

  datatype KittenNavigateTabCommand = KittenNavigateTabCommand(
    direction: TabNavigationDirection,
    sessionName: Option<string>,
    allowWrap: bool)

  /** `new()`: forward, any session, wrapping. */
  function New(): (c: KittenNavigateTabCommand)
    ensures c.direction == Next && c.sessionName.None? && c.allowWrap
  {
    KittenNavigateTabCommand(Next, None, true)
  }

  /** `Default` is `new()`. */
  function Default(): (c: KittenNavigateTabCommand)
    ensures c == New()
  {
    New()
  }

  /** `next()` */
  function NextCommand(): (c: KittenNavigateTabCommand)
    ensures c.direction == Next && c.sessionName.None? && c.allowWrap
  {
    KittenNavigateTabCommand(Next, None, true)
  }

  /** `previous()` */
  function PreviousCommand(): (c: KittenNavigateTabCommand)
    ensures c.direction == Previous && c.sessionName.None? && c.allowWrap
  {
    KittenNavigateTabCommand(Previous, None, true)
  }

  function WithSession(c: KittenNavigateTabCommand, name: string): (r: KittenNavigateTabCommand)
    ensures r.sessionName == Some(name)
    ensures r.direction == c.direction && r.allowWrap == c.allowWrap
  {
    c.(sessionName := Some(name))
  }

  function WithWrap(c: KittenNavigateTabCommand, allowWrap: bool): (r: KittenNavigateTabCommand)
    ensures r.allowWrap == allowWrap
    ensures r.direction == c.direction && r.sessionName == c.sessionName
  {
    c.(allowWrap := allowWrap)
  }

  function NoWrap(c: KittenNavigateTabCommand): (r: KittenNavigateTabCommand)
    ensures !r.allowWrap
    ensures r.direction == c.direction && r.sessionName == c.sessionName
  {
    c.(allowWrap := false)
  }

  /** `no_wrap()` is `with_wrap(false)`, and `next()` is `new()`. */
  lemma BuilderAliases(c: KittenNavigateTabCommand)
    ensures NoWrap(c) == WithWrap(c, false)
    ensures NextCommand() == New()
  {
  }
}
