/** `KittenSetTabTitleCommand`: a new title, for the current tab unless a
    match pattern names another. */
module SetTabTitle {
  import opened Wrappers
  import opened Strings
  import opened MatchQuery

  datatype KittenSetTabTitleCommand = KittenSetTabTitleCommand(title: string, matchPattern: Option<string>)

  /** `new(t)`: retitle the current tab. */
  function New(title: string): (c: KittenSetTabTitleCommand)
    ensures c.title == title && c.matchPattern.None?
  {
    KittenSetTabTitleCommand(title, None)
  }

  function WithMatch(c: KittenSetTabTitleCommand, pattern: string): (r: KittenSetTabTitleCommand)
    ensures r.matchPattern == Some(pattern) && r.title == c.title
  {
    c.(matchPattern := Some(pattern))
  }

  /** `for_tab_id(n)`: target the tab whose id is n. */
  function ForTabId(c: KittenSetTabTitleCommand, tabId: nat): (r: KittenSetTabTitleCommand)
    ensures r.matchPattern == Some("id:" + NatToString(tabId)) && r.title == c.title
  {
    c.(matchPattern := Some("id:" + NatToString(tabId)))
  }

  /** The pattern `for_tab_id` writes selects exactly that id. */
  lemma ForTabIdSelects(c: KittenSetTabTitleCommand, tabId: nat)
    ensures Read(ForTabId(c, tabId).matchPattern.value) == Some(IdQuery(tabId))
  {
    ReadIdQuery(tabId);
  }
}
