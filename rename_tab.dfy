/** Renaming the current tab (`ksm rename-tab`): inside an explicit session
    the new title keeps the session marker, so the tab is still found by
    its title afterwards; outside one the description is the whole title. */
module RenameTab {
  import opened Wrappers
  import opened Session
  import opened SessionTabs
  import opened Executor
  import opened Kitty
  import Titling = SetTabTitle

  const TitleSeparator := " - "

  /** The title the tab is given. */
  function RenameTitle(context: SessionContext, description: string): string {
    if context.isExplicit then SessionTitlePrefix + Name(context) + TitleSeparator + description
    else description
  }

  /** Inside an explicit session the title is the session marker for the
      session's name, the separator, then the description, so the tab still
      counts as a session tab; outside one it is the description alone. */
  lemma RenameTitleShape(context: SessionContext, description: string)
    ensures var title := RenameTitle(context, description);
      var marker := SessionTitlePrefix + context.sessionName;
      (context.isExplicit ==>
        marker <= title && title[|marker|..] == TitleSeparator + description &&
        HasSessionTitle(KittyTypes.KittyTab(0, None, title, [], None, None))) &&
      (!context.isExplicit ==> title == description)
  {
    var title := RenameTitle(context, description);
    var marker := SessionTitlePrefix + context.sessionName;
    if context.isExplicit {
      assert title == marker + (TitleSeparator + description);
      assert SessionTitlePrefix <= marker;
    }
  }

  /** The description can be read back from the title of a renamed tab
      once the marker is known. */
  lemma RenameTitleRecoversDescription(context: SessionContext, description: string)
    requires context.isExplicit
    ensures var title := RenameTitle(context, description);
      var head := |SessionTitlePrefix + context.sessionName + TitleSeparator|;
      |title| >= head && title[head..] == description
  {
    var title := RenameTitle(context, description);
    assert title == (SessionTitlePrefix + context.sessionName + TitleSeparator) + description;
  }

  /** `cmd_rename_tab`: one title change on the current tab, whose failure
      is reported as the kitty layer reports it. */
  method CmdRenameTab(app: Kitty, env: map<string, string>, newDescription: string) returns (r: Result<()>)
    modifies app.kitty
    ensures var command := Titling.New(RenameTitle(Detect(env), newDescription));
      r == Checked(app.kitty.setTabTitleReply(command), "Failed to set tab title: ") &&
      app.kitty.calls == old(app.kitty.calls) + [SetTabTitleCall(command)]
  {
    var sessionContext := Detect(env);
    var newTitle := RenameTitle(sessionContext, newDescription);
    r := app.SetTabTitle(newTitle);
  }
}
