/** The session layer over an executor (`Kitty`): finding, creating,
    navigating and switching session tabs.  The detected environment, the
    title parser and the last-active tracker are passed in.  Each operation
    is specified by what it returns, the calls it makes, in order, and how
    it changes the tracker; the functions below say what those are in terms
    of the executor's replies. */
module Kitty {
  import opened Wrappers
  import opened KittyTypes
  import opened Session
  import opened SessionTabs
  import opened SessionListing
  import opened SessionScan
  import opened Executor
  import Ls
  import Listing = Ls
  import Focusing = FocusTab
  import Closing = CloseTab
  import Titling = SetTabTitle
  import FocusTab
  import CloseTab
  import Launch
  import NavigateTab
  import SetTabTitle
  import Utils
  import Strings

  const UnknownError := "Unknown error"

  /** How a command result is reported: a transport error passes through; a
      failed result becomes an error made of `context` and the result's
      message, "Unknown error" when it has none. */
  function Checked<T>(reply: Result<KittyCommandResult<T>>, context: string): Result<()> {
    if reply.Err? then Err(reply.error)
    else if !IsSuccess(reply.value) then Err(context + reply.value.errorMessage.GetOr(UnknownError))
    else Ok(())
  }

  /** Only a successful result is reported as success. */
  lemma CheckedOk<T>(reply: Result<KittyCommandResult<T>>, context: string)
    ensures Checked(reply, context).Ok? <==> reply.Ok? && reply.value.success
    ensures Checked(reply, context).Err? && reply.Ok? ==> context <= Checked(reply, context).error
  {
  }

  function FocusContext(tabId: nat): string {
    "Failed to focus tab " + Strings.NatToString(tabId) + ": "
  }

  /** The error for a session with no tabs. */
  function NoSuchSession(name: string): string {
    "Session '" + name + "' not found or has no tabs"
  }

  // ----- Commands the session layer composes -----

  /** `create_session_tab_by_path`: a tab at the project path, carrying the
      session variable and titled for the session. */
  function SessionTabLaunch(projectPath: string, projectName: string): Launch.KittenLaunchCommand {
    Launch.TabTitle(
      Launch.Env(Launch.Cwd(Launch.LaunchType(Launch.New(), "tab"), projectPath), SessionEnvVar, projectName),
      Utils.FormatSessionTabTitle(projectName))
  }

  lemma SessionTabLaunchFields(projectPath: string, projectName: string)
    ensures var c := SessionTabLaunch(projectPath, projectName);
      c.launchType == "tab" && c.cwd == Some(projectPath) &&
      c.env == Some(SessionEnvVar + "=" + projectName) &&
      c.tabTitle == Some(Utils.FormatSessionTabTitle(projectName)) && !c.inheritSession
  {
  }

  /** `create_tab_with_session_inheritance`: a tab inheriting the session,
      with the given directory and title; an explicit session's tab gets
      the session title when no title is given. */
  function InheritingLaunch(context: SessionContext, cwd: Option<string>, tabTitle: Option<string>): Launch.KittenLaunchCommand {
    var base := Launch.InheritCurrentSession(Launch.LaunchType(Launch.New(), "tab"));
    var withCwd := if cwd.Some? then Launch.Cwd(base, cwd.value) else base;
    if tabTitle.Some? then Launch.TabTitle(withCwd, tabTitle.value)
    else if context.isExplicit then Launch.TabTitle(withCwd, Utils.FormatSessionTabTitle(Name(context)))
    else withCwd
  }

  lemma InheritingLaunchFields(context: SessionContext, cwd: Option<string>, tabTitle: Option<string>)
    ensures var c := InheritingLaunch(context, cwd, tabTitle);
      c.launchType == "tab" && c.inheritSession && c.cwd == cwd && c.env.None? &&
      c.tabTitle == (if tabTitle.Some? then tabTitle
                     else if context.isExplicit then Some(Utils.FormatSessionTabTitle(Name(context)))
                     else None)
  {
  }

  /** `create_unnamed_tab`: a plain tab, no session variable, no
      inheritance. */
  function UnnamedLaunch(cwd: Option<string>, tabTitle: Option<string>): Launch.KittenLaunchCommand {
    var base := Launch.LaunchType(Launch.New(), "tab");
    var withCwd := if cwd.Some? then Launch.Cwd(base, cwd.value) else base;
    if tabTitle.Some? then Launch.TabTitle(withCwd, tabTitle.value) else withCwd
  }

  lemma UnnamedLaunchFields(cwd: Option<string>, tabTitle: Option<string>)
    ensures var c := UnnamedLaunch(cwd, tabTitle);
      c.launchType == "tab" && !c.inheritSession && c.cwd == cwd && c.env.None? && c.tabTitle == tabTitle
  {
  }

  /** The navigation request: direction, the context's name (its own name
      or "unnamed") and the wrap flag. */
  function NavigateCommand(context: SessionContext, direction: NavigateTab.TabNavigationDirection, allowWrap: bool): NavigateTab.KittenNavigateTabCommand {
    match direction
    case Next => NavigateTab.WithWrap(NavigateTab.WithSession(NavigateTab.NextCommand(), Name(context)), allowWrap)
    case Previous => NavigateTab.WithWrap(NavigateTab.WithSession(NavigateTab.PreviousCommand(), Name(context)), allowWrap)
  }

  lemma NavigateCommandFields(context: SessionContext, direction: NavigateTab.TabNavigationDirection, allowWrap: bool)
    ensures var c := NavigateCommand(context, direction, allowWrap);
      c.direction == direction && c.sessionName == Some(Name(context)) && c.allowWrap == allowWrap
  {
  }

  // ----- What the operations compute from the replies -----

  /** `match_session_tab`: the first tab the title query lists; failing
      that (or when that query fails), the first tab the environment query
      lists, whose failure is an error. */
  function MatchSessionTabSpec(lsReply: Ls.KittenLsCommand -> Result<KittyLsResponse>, projectName: string): Result<Option<KittyTab>> {
    var byTitle := lsReply(TitleQuery(projectName));
    if byTitle.Ok? && FirstListedTab(byTitle.value).Some? then Ok(FirstListedTab(byTitle.value))
    else
      var byEnv := lsReply(EnvQuery(projectName));
      if byEnv.Err? then Err(byEnv.error) else Ok(FirstListedTab(byEnv.value))
  }

  /** Whether `match_session_tab` stops after the title query. */
  predicate TitleMatched(lsReply: Ls.KittenLsCommand -> Result<KittyLsResponse>, projectName: string) {
    var byTitle := lsReply(TitleQuery(projectName));
    byTitle.Ok? && FirstListedTab(byTitle.value).Some?
  }

  /** A found tab is listed by one of the two queries, a title match taking
      precedence; "none" means neither query lists any tab. */
  lemma MatchSessionTabFinds(lsReply: Ls.KittenLsCommand -> Result<KittyLsResponse>, projectName: string)
    ensures var r := MatchSessionTabSpec(lsReply, projectName);
      r.Ok? && r.value.Some? ==>
        r.value.value in ReplyTabs(lsReply(TitleQuery(projectName))) + ReplyTabs(lsReply(EnvQuery(projectName)))
    ensures var r := MatchSessionTabSpec(lsReply, projectName);
      r == Ok(None) ==> ReplyTabs(lsReply(TitleQuery(projectName))) == [] && ReplyTabs(lsReply(EnvQuery(projectName))) == []
    ensures ReplyTabs(lsReply(TitleQuery(projectName))) != [] ==>
      MatchSessionTabSpec(lsReply, projectName) == Ok(Some(ReplyTabs(lsReply(TitleQuery(projectName)))[0]))
  {
  }

  /** `get_session_tabs`. */
  function SessionTabsOf(lsReply: Ls.KittenLsCommand -> Result<KittyLsResponse>, context: SessionContext): Result<seq<KittyTab>> {
    if context.isExplicit then
      Ok(ExplicitSessionTabs(lsReply(TitleQuery(Name(context))), lsReply(EnvQuery(Name(context)))))
    else
      var all := lsReply(Ls.New());
      if all.Err? then Err(all.error) else Ok(UnnamedTabs(AllTabs(all.value)))
  }

  /** The queries `get_session_tabs` sends. */
  function SessionTabsCalls(context: SessionContext): seq<Call> {
    if context.isExplicit then [LsCall(TitleQuery(Name(context))), LsCall(EnvQuery(Name(context)))]
    else [LsCall(Ls.New())]
  }

  /** The tab `switch_to_session` focuses: the recorded last-active tab when
      it is still one of the session's tabs, otherwise the first. */
  function SwitchTarget(tabs: seq<KittyTab>, last: Option<nat>): nat
    requires tabs != []
  {
    if last.Some? && HasId(tabs, last.value) then last.value else tabs[0].id
  }

  /** The target is one of the session's tabs, the recorded one when it is
      still there. */
  lemma SwitchTargetMember(tabs: seq<KittyTab>, last: Option<nat>)
    requires tabs != []
    ensures HasId(tabs, SwitchTarget(tabs, last))
    ensures last.Some? && HasId(tabs, last.value) ==> SwitchTarget(tabs, last) == last.value
  {
  }

  /** Among tabs in id order, the fallback is the lowest id. */
  lemma SwitchTargetChoice(tabs: seq<KittyTab>, last: Option<nat>)
    requires tabs != [] && SortedById(tabs)
    ensures !(last.Some? && HasId(tabs, last.value)) ==> forall k :: 0 <= k < |tabs| ==> SwitchTarget(tabs, last) <= tabs[k].id
  {
  }

  /** What a state-changing operation returns, the calls it makes and the
      tracker's map afterwards. */
  datatype Outcome = Outcome(result: Result<()>, calls: seq<Call>, tracked: map<string, nat>)

  function LastActive(tracked: map<string, nat>, name: string): Option<nat> {
    if name in tracked then Some(tracked[name]) else None
  }

  /** Switching to the session of `context`: its tabs, then one focus;
      the tracker is keyed by the context's name. */
  function SwitchWith(ex: Executor, context: SessionContext, tracked: map<string, nat>): Outcome {
    var name := Name(context);
    var listed := SessionTabsOf(ex.lsReply, context);
    var queries := SessionTabsCalls(context);
    if listed.Err? then Outcome(Err(listed.error), queries, tracked)
    else if listed.value == [] then Outcome(Err(NoSuchSession(name)), queries, tracked)
    else
      var tabs := listed.value;
      var last := LastActive(tracked, name);
      var target := SwitchTarget(tabs, last);
      var focus := FocusTab.KittenFocusTabCommand(target);
      var focused := Checked(ex.focusTabReply(focus), FocusContext(target));
      var fellBack := !(last.Some? && HasId(tabs, last.value));
      Outcome(focused, queries + [FocusTabCall(focus)],
              if fellBack && focused.Ok? then tracked[name := target] else tracked)
  }

  /** `switch_to_session(name)` as written: the name always becomes an
      explicit context, "unnamed" included. */
  function SwitchOutcomeAsWritten(ex: Executor, name: string, tracked: map<string, nat>): Outcome {
    SwitchWith(ex, New(name), tracked)
  }

  /** The context a session name stands for: the unnamed session's own
      name stands for the unnamed context. */
  function SwitchContext(name: string): (c: SessionContext)
    ensures Name(c) == name
    ensures c.isExplicit <==> name != UnnamedSession
  {
    if name == UnnamedSession then Unnamed() else New(name)
  }

  /** `switch_to_session(name)`, reaching the unnamed session's tabs when
      the name is "unnamed". */
  function SwitchOutcome(ex: Executor, name: string, tracked: map<string, nat>): Outcome {
    SwitchWith(ex, SwitchContext(name), tracked)
  }

  /** Switching fails, changing nothing, when the session's tabs cannot be
      listed or there are none; otherwise it focuses exactly one of them,
      the recorded one when it is still there, and records the focused tab
      only when it fell back; other sessions' records never change. */
  lemma SwitchWithProperties(ex: Executor, context: SessionContext, tracked: map<string, nat>)
    ensures var o := SwitchWith(ex, context, tracked);
      var listed := SessionTabsOf(ex.lsReply, context);
      var queries := SessionTabsCalls(context);
      var last := LastActive(tracked, Name(context));
      (listed.Err? || listed.value == [] <==> o.calls == queries) &&
      (listed.Err? || listed.value == [] ==> o.result.Err? && o.tracked == tracked) &&
      (listed.Ok? && listed.value != [] ==>
        |o.calls| == |queries| + 1 && o.calls[..|queries|] == queries && o.calls[|queries|].FocusTabCall? &&
        HasId(listed.value, o.calls[|queries|].focus.tabId) &&
        (last.Some? && HasId(listed.value, last.value) ==> o.calls[|queries|].focus.tabId == last.value && o.tracked == tracked)) &&
      (forall other :: other != Name(context) ==> LastActive(o.tracked, other) == LastActive(tracked, other)) &&
      (o.result.Err? ==> o.tracked == tracked)
  {
    var listed := SessionTabsOf(ex.lsReply, context);
    var queries := SessionTabsCalls(context);
    if listed.Ok? && listed.value != [] {
      SwitchTargetMember(listed.value, LastActive(tracked, Name(context)));
      var o := SwitchWith(ex, context, tracked);
      assert o.calls[..|queries|] == queries;
    }
  }

  /** For a named session the tabs are in id order, so the fallback is the
      session's lowest id. */
  lemma SwitchToNamedFallsBackToLowest(ex: Executor, name: string, tracked: map<string, nat>)
    requires name != UnnamedSession
    ensures var o := SwitchOutcome(ex, name, tracked);
      var tabs := ExplicitSessionTabs(ex.lsReply(TitleQuery(name)), ex.lsReply(EnvQuery(name)));
      var last := LastActive(tracked, name);
      tabs != [] && !(last.Some? && HasId(tabs, last.value)) ==>
        o.calls[2] == FocusTabCall(FocusTab.KittenFocusTabCommand(tabs[0].id)) &&
        forall k :: 0 <= k < |tabs| ==> tabs[0].id <= tabs[k].id
  {
    var tabs := ExplicitSessionTabs(ex.lsReply(TitleQuery(name)), ex.lsReply(EnvQuery(name)));
    ExplicitSessionTabsUnion(ex.lsReply(TitleQuery(name)), ex.lsReply(EnvQuery(name)));
    if tabs != [] {
      SwitchTargetChoice(tabs, LastActive(tracked, name));
    }
  }

  /** A kitty whose only tab belongs to no session, and which therefore
      lists nothing for the queries of a session called "unnamed". */
  predicate OneUnnamedTabKitty(ex: Executor, tab: KittyTab) {
    IsUnnamedTab(tab) &&
    ex.lsReply(Ls.New()) == Ok([KittyOsWindow(1, [tab], None, None)]) &&
    ex.lsReply(TitleQuery(UnnamedSession)) == Ok([]) &&
    ex.lsReply(EnvQuery(UnnamedSession)) == Ok([])
  }

  /** As written, switching to "unnamed" (which `list_sessions` reports
      whenever some tab belongs to no session, and which `next_session`
      then picks) finds no tab and fails, although the unnamed session has
      a tab. */
  lemma UnnamedSwitchAsWrittenFails(ex: Executor, tab: KittyTab, tracked: map<string, nat>)
    requires OneUnnamedTabKitty(ex, tab)
    ensures UnnamedTabs(AllTabs(ex.lsReply(Ls.New()).value)) == [tab]
    ensures SwitchOutcomeAsWritten(ex, UnnamedSession, tracked).result == Err(NoSuchSession(UnnamedSession))
    ensures NextSessionIndex([("a", 1), (UnnamedSession, 1)], "a") == 1
  {
    assert AllTabs([KittyOsWindow(1, [tab], None, None)]) == [tab] by {
      assert [KittyOsWindow(1, [tab], None, None)][..0] == [];
    }
    assert [tab][..0] == [];
    assert ReplyTabs(Ok([])) == [];
    assert AddMissing([], []) == [];
  }

  /** Switching to "unnamed" focuses one of the unnamed session's tabs
      whenever it has one. */
  lemma SwitchToUnnamedFocusesUnnamedTab(ex: Executor, tracked: map<string, nat>)
    ensures var all := ex.lsReply(Ls.New());
      var o := SwitchOutcome(ex, UnnamedSession, tracked);
      all.Ok? && UnnamedTabs(AllTabs(all.value)) != [] ==>
        |o.calls| == 2 && o.calls[0] == LsCall(Ls.New()) && o.calls[1].FocusTabCall? &&
        exists t :: t in AllTabs(all.value) && IsUnnamedTab(t) && t.id == o.calls[1].focus.tabId
  {
    var all := ex.lsReply(Ls.New());
    if all.Ok? && UnnamedTabs(AllTabs(all.value)) != [] {
      SwitchWithProperties(ex, Unnamed(), tracked);
      UnnamedTabsMembers(AllTabs(all.value));
      var tabs := UnnamedTabs(AllTabs(all.value));
      var o := SwitchOutcome(ex, UnnamedSession, tracked);
      var id := o.calls[1].focus.tabId;
      assert HasId(tabs, id);
      var k :| 0 <= k < |tabs| && tabs[k].id == id;
      assert tabs[k] in tabs;
    }
  }

  /** `focus_tab_with_tracking(id)`: focus, then list, then record the tab
      under its session when it is listed and has one. */
  function FocusWithTrackingOutcome(ex: Executor, tabId: nat, parseTitle: string -> Option<string>, tracked: map<string, nat>): Outcome {
    var focus := FocusTab.KittenFocusTabCommand(tabId);
    var focused := Checked(ex.focusTabReply(focus), FocusContext(tabId));
    if focused.Err? then Outcome(focused, [FocusTabCall(focus)], tracked)
    else
      var listing := ex.lsReply(Ls.New());
      var calls := [FocusTabCall(focus), LsCall(Ls.New())];
      if listing.Err? then Outcome(Err(listing.error), calls, tracked)
      else match TrackedSession(listing.value, tabId, parseTitle)
        case Some(name) => Outcome(Ok(()), calls, tracked[name := tabId])
        case None => Outcome(Ok(()), calls, tracked)
  }

  /** `next_session` / `prev_session` once the list is known: nothing to do
      with at most one session, otherwise switch to the neighbour. */
  function CycleOutcome(ex: Executor, sessions: seq<Entry>, current: string, forward: bool, tracked: map<string, nat>): Outcome {
    if |sessions| <= 1 then Outcome(Ok(()), [], tracked)
    else
      var i := if forward then NextSessionIndex(sessions, current) else PrevSessionIndex(sessions, current);
      SwitchOutcome(ex, sessions[i].0, tracked)
  }

  /** Tracking focuses first and lists only when the focus succeeded; the
      only record it can change is set to the focused tab, under the session
      of a listed tab with that id, and a listed tab that has a session is
      always recorded. */
  lemma FocusWithTrackingProperties(ex: Executor, tabId: nat, parseTitle: string -> Option<string>, tracked: map<string, nat>)
    ensures var o := FocusWithTrackingOutcome(ex, tabId, parseTitle, tracked);
      var reply := ex.focusTabReply(FocusTab.KittenFocusTabCommand(tabId));
      1 <= |o.calls| <= 2 && o.calls[0] == FocusTabCall(FocusTab.KittenFocusTabCommand(tabId)) &&
      (|o.calls| == 1 <==> !(reply.Ok? && reply.value.success)) &&
      (|o.calls| == 1 ==> o.result.Err? && o.tracked == tracked)
    ensures var o := FocusWithTrackingOutcome(ex, tabId, parseTitle, tracked);
      forall other :: LastActive(o.tracked, other) != LastActive(tracked, other) ==> LastActive(o.tracked, other) == Some(tabId)
    ensures var o := FocusWithTrackingOutcome(ex, tabId, parseTitle, tracked);
      var all := ex.lsReply(Ls.New());
      o.tracked != tracked ==>
        o.result.Ok? && all.Ok? &&
        exists t :: t in AllTabs(all.value) && t.id == tabId && Classify(t, parseTitle).Some? &&
          o.tracked == tracked[Classify(t, parseTitle).value := tabId]
    ensures var o := FocusWithTrackingOutcome(ex, tabId, parseTitle, tracked);
      var all := ex.lsReply(Ls.New());
      var name := if all.Ok? then TrackedSession(all.value, tabId, parseTitle) else None;
      |o.calls| == 2 && name.Some? ==> LastActive(o.tracked, name.value) == Some(tabId)
  {
    var focus := FocusTab.KittenFocusTabCommand(tabId);
    CheckedOk(ex.focusTabReply(focus), FocusContext(tabId));
    var all := ex.lsReply(Ls.New());
    if all.Ok? {
      TrackedSessionOfListedTab(all.value, tabId, parseTitle);
    }
  }

  /** With distinct session names, cycling from a listed session always
      switches to another session; from an unlisted one it switches to the
      first (forward) or last (backward) session. */
  lemma CycleOutcomeProperties(ex: Executor, sessions: seq<Entry>, current: string, forward: bool, tracked: map<string, nat>)
    requires DistinctNames(sessions)
    ensures |sessions| <= 1 ==> CycleOutcome(ex, sessions, current, forward, tracked) == Outcome(Ok(()), [], tracked)
    ensures |sessions| > 1 && Position(sessions, current).Some? ==>
      var i := if forward then NextSessionIndex(sessions, current) else PrevSessionIndex(sessions, current);
      CycleOutcome(ex, sessions, current, forward, tracked) == SwitchOutcome(ex, sessions[i].0, tracked) &&
      sessions[i].0 != current
    ensures |sessions| > 1 && Position(sessions, current).None? ==>
      CycleOutcome(ex, sessions, current, forward, tracked)
        == SwitchOutcome(ex, if forward then sessions[0].0 else sessions[|sessions| - 1].0, tracked)
  {
    if |sessions| > 1 {
      CyclingMoves(sessions, current);
      var p := Position(sessions, current);
      if p.Some? {
        var i := if forward then NextSessionIndex(sessions, current) else PrevSessionIndex(sessions, current);
        if i < p.value {
          assert sessions[i].0 != sessions[p.value].0;
        } else {
          assert sessions[p.value].0 != sessions[i].0;
        }
      }
    }
  }

  /** What navigating within a session returns and the calls it makes. */
  datatype Effect = Effect(result: Result<()>, calls: seq<Call>)

  /** `navigate_session_tab`: outside a named session, the tabs are listed
      first and navigation is skipped when none belongs to a session. */
  function NavigateOutcome(ex: Executor, context: SessionContext, direction: NavigateTab.TabNavigationDirection, allowWrap: bool): Effect {
    var navigate := NavigateCommand(context, direction, allowWrap);
    var all := ex.lsReply(Ls.New());
    var checks := if context.isExplicit then [] else [LsCall(Ls.New())];
    if !context.isExplicit && all.Err? then Effect(Err(all.error), checks)
    else if !context.isExplicit && !SessionTabs.HasSessionTabs(AllTabs(all.value)) then Effect(Ok(()), checks)
    else Effect(Checked(ex.navigateTabReply(navigate), "Failed to navigate tabs: "), checks + [NavigateTabCall(navigate)])
  }

  function NavigateCalls(calls: seq<Call>): nat {
    if calls == [] then 0
    else NavigateCalls(calls[..|calls| - 1]) + (if calls[|calls| - 1].NavigateTabCall? then 1 else 0)
  }

  /** At most one navigate command is sent; it is skipped, successfully,
      exactly when the caller is in no named session and no listed tab
      belongs to a session; the command sent carries the direction, the
      session's name and the wrap flag, and a failed result is an error. */
  lemma NavigateOutcomeProperties(ex: Executor, context: SessionContext, direction: NavigateTab.TabNavigationDirection, allowWrap: bool)
    ensures var o := NavigateOutcome(ex, context, direction, allowWrap);
      var all := ex.lsReply(Ls.New());
      NavigateCalls(o.calls) <= 1 &&
      (NavigateCalls(o.calls) == 0 && o.result.Ok? <==>
         !context.isExplicit && all.Ok? && !SessionTabs.HasSessionTabs(AllTabs(all.value))) &&
      (NavigateCalls(o.calls) == 1 ==>
         o.calls != [] && o.calls[|o.calls| - 1].NavigateTabCall? &&
         var c := o.calls[|o.calls| - 1].navigate;
         c.direction == direction && c.sessionName == Some(Name(context)) && c.allowWrap == allowWrap &&
         (o.result.Ok? <==> ex.navigateTabReply(c).Ok? && ex.navigateTabReply(c).value.success))
  {
    var navigate := NavigateCommand(context, direction, allowWrap);
    var all := ex.lsReply(Ls.New());
    var o := NavigateOutcome(ex, context, direction, allowWrap);
    var checks: seq<Call> := if context.isExplicit then [] else [LsCall(Ls.New())];
    assert NavigateCalls(checks) == 0 by {
      if checks != [] {
        assert checks[..0] == [];
      }
    }
    if !context.isExplicit && all.Err? {
      assert o == Effect(Err(all.error), checks);
    } else if !context.isExplicit && !SessionTabs.HasSessionTabs(AllTabs(all.value)) {
      assert o == Effect(Ok(()), checks);
    } else {
      var withNavigate := checks + [NavigateTabCall(navigate)];
      assert o == Effect(Checked(ex.navigateTabReply(navigate), "Failed to navigate tabs: "), withNavigate);
      assert withNavigate[..|withNavigate| - 1] == checks;
      assert NavigateCalls(withNavigate) == 1;
      NavigateCommandFields(context, direction, allowWrap);
      CheckedOk(ex.navigateTabReply(navigate), "Failed to navigate tabs: ");
    }
  }

  /** The session layer bound to one executor. */
  class Kitty {
    const kitty: Executor

    /** `with_executor` */
    constructor WithExecutor(executor: Executor)
      ensures kitty == executor
    {
      kitty := executor;
    }

    method MatchSessionTab(projectName: string) returns (r: Result<Option<KittyTab>>)
      modifies kitty
      ensures r == MatchSessionTabSpec(kitty.lsReply, projectName)
      ensures kitty.calls == old(kitty.calls) + [LsCall(TitleQuery(projectName))]
                             + (if TitleMatched(kitty.lsReply, projectName) then [] else [LsCall(EnvQuery(projectName))])
    {
      var byTitle := kitty.Ls(TitleQuery(projectName));
      if byTitle.Ok? {
        var first := FirstTab(byTitle.value);
        if first.Some? {
          return Ok(first);
        }
      }
      var byEnv := kitty.Ls(EnvQuery(projectName));
      if byEnv.Err? {
        return Err(byEnv.error);
      }
      var first := FirstTab(byEnv.value);
      return Ok(first);
    }

    method FocusTab(tabId: nat) returns (r: Result<()>)
      modifies kitty
      ensures kitty.calls == old(kitty.calls) + [FocusTabCall(Focusing.KittenFocusTabCommand(tabId))]
      ensures r == Checked(kitty.focusTabReply(Focusing.KittenFocusTabCommand(tabId)), FocusContext(tabId))
    {
      var result := kitty.FocusTab(Focusing.KittenFocusTabCommand(tabId));
      if result.Err? {
        return Err(result.error);
      }
      if !IsSuccess(result.value) {
        return Err(FocusContext(tabId) + result.value.errorMessage.GetOr(UnknownError));
      }
      return Ok(());
    }

    method CreateSessionTabByPath(projectPath: string, projectName: string) returns (r: Result<()>)
      modifies kitty
      ensures kitty.calls == old(kitty.calls) + [LaunchCall(SessionTabLaunch(projectPath, projectName))]
      ensures r == Checked(kitty.launchReply(SessionTabLaunch(projectPath, projectName)), "Failed to create session tab: ")
    {
      var command := SessionTabLaunch(projectPath, projectName);
      var result := kitty.Launch(command);
      r := Checked(result, "Failed to create session tab: ");
    }

    method CreateTabWithSessionInheritance(env: map<string, string>, cwd: Option<string>, tabTitle: Option<string>)
      returns (r: Result<()>)
      modifies kitty
      ensures kitty.calls == old(kitty.calls) + [LaunchCall(InheritingLaunch(Detect(env), cwd, tabTitle))]
      ensures r == Checked(kitty.launchReply(InheritingLaunch(Detect(env), cwd, tabTitle)), "Failed to create tab with session inheritance: ")
    {
      var context := Detect(env);
      var command := InheritingLaunch(context, cwd, tabTitle);
      var result := kitty.Launch(command);
      r := Checked(result, "Failed to create tab with session inheritance: ");
    }

    method CreateUnnamedTab(cwd: Option<string>, tabTitle: Option<string>) returns (r: Result<()>)
      modifies kitty
      ensures kitty.calls == old(kitty.calls) + [LaunchCall(UnnamedLaunch(cwd, tabTitle))]
      ensures r == Checked(kitty.launchReply(UnnamedLaunch(cwd, tabTitle)), "Failed to create unnamed tab: ")
    {
      var command := UnnamedLaunch(cwd, tabTitle);
      var result := kitty.Launch(command);
      r := Checked(result, "Failed to create unnamed tab: ");
    }

    method HasSessionTabs() returns (r: Result<bool>)
      modifies kitty
      ensures kitty.calls == old(kitty.calls) + [LsCall(Listing.New())]
      ensures var all := kitty.lsReply(Listing.New());
        r == if all.Err? then Err(all.error) else Ok(SessionTabs.HasSessionTabs(AllTabs(all.value)))
    {
      var all := kitty.Ls(Listing.New());
      if all.Err? {
        return Err(all.error);
      }
      var found := AnySessionTab(all.value);
      return Ok(found);
    }

    method NavigateSessionTab(context: SessionContext, direction: NavigateTab.TabNavigationDirection, allowWrap: bool)
      returns (r: Result<()>)
      modifies kitty
      ensures var o := NavigateOutcome(kitty, context, direction, allowWrap);
        r == o.result && kitty.calls == old(kitty.calls) + o.calls
    {
      if !context.isExplicit {
        var has := HasSessionTabs();
        if has.Err? {
          return Err(has.error);
        }
        if !has.value {
          return Ok(());
        }
      }
      var command := NavigateCommand(context, direction, allowWrap);
      var result := kitty.NavigateTab(command);
      r := Checked(result, "Failed to navigate tabs: ");
    }

    method NextSessionTab(env: map<string, string>, allowWrap: bool) returns (r: Result<()>)
      modifies kitty
      ensures var o := NavigateOutcome(kitty, Detect(env), NavigateTab.Next, allowWrap);
        r == o.result && kitty.calls == old(kitty.calls) + o.calls
    {
      r := NavigateSessionTab(Detect(env), NavigateTab.Next, allowWrap);
    }

    method PrevSessionTab(env: map<string, string>, allowWrap: bool) returns (r: Result<()>)
      modifies kitty
      ensures var o := NavigateOutcome(kitty, Detect(env), NavigateTab.Previous, allowWrap);
        r == o.result && kitty.calls == old(kitty.calls) + o.calls
    {
      r := NavigateSessionTab(Detect(env), NavigateTab.Previous, allowWrap);
    }

    method GetSessionTabs(context: SessionContext) returns (r: Result<seq<KittyTab>>)
      modifies kitty
      ensures r == SessionTabsOf(kitty.lsReply, context)
      ensures kitty.calls == old(kitty.calls) + SessionTabsCalls(context)
    {
      if context.isExplicit {
        var byTitle := kitty.Ls(TitleQuery(Name(context)));
        var byEnv := kitty.Ls(EnvQuery(Name(context)));
        var tabs := MergeSessionTabs(byTitle, byEnv);
        return Ok(tabs);
      }
      var all := kitty.Ls(Listing.New());
      if all.Err? {
        return Err(all.error);
      }
      var tabs := FilterUnnamed(all.value);
      return Ok(tabs);
    }

    method GetCurrentSessionTabs(env: map<string, string>) returns (r: Result<seq<KittyTab>>)
      modifies kitty
      ensures r == SessionTabsOf(kitty.lsReply, Detect(env))
      ensures kitty.calls == old(kitty.calls) + SessionTabsCalls(Detect(env))
    {
      r := GetSessionTabs(Detect(env));
    }

    method SwitchToSession(sessionName: string, tracker: LastActiveTracker) returns (r: Result<()>)
      modifies kitty, tracker
      ensures var o := SwitchOutcome(kitty, sessionName, old(tracker.tabs));
        r == o.result && kitty.calls == old(kitty.calls) + o.calls && tracker.tabs == o.tracked
    {
      var tabs := GetSessionTabs(SwitchContext(sessionName));
      if tabs.Err? {
        return Err(tabs.error);
      }
      var sessionTabs := tabs.value;
      if |sessionTabs| == 0 {
        return Err(NoSuchSession(sessionName));
      }
      var last := tracker.GetLastActiveTab(sessionName);
      if last.Some? && HasId(sessionTabs, last.value) {
        r := FocusTab(last.value);
        return;
      }
      var first := sessionTabs[0];
      r := FocusTab(first.id);
      if r.Err? {
        return;
      }
      tracker.SetLastActiveTab(sessionName, first.id);
    }

    method FocusTabWithTracking(tabId: nat, parseTitle: string -> Option<string>, tracker: LastActiveTracker)
      returns (r: Result<()>)
      modifies kitty, tracker
      ensures var o := FocusWithTrackingOutcome(kitty, tabId, parseTitle, old(tracker.tabs));
        r == o.result && kitty.calls == old(kitty.calls) + o.calls && tracker.tabs == o.tracked
    {
      r := FocusTab(tabId);
      if r.Err? {
        return;
      }
      var all := kitty.Ls(Listing.New());
      if all.Err? {
        return Err(all.error);
      }
      var session := SessionOfTab(all.value, tabId, parseTitle);
      if session.Some? {
        tracker.SetLastActiveTab(session.value, tabId);
      }
      return Ok(());
    }

    method ListSessions(parseTitle: string -> Option<string>) returns (r: Result<seq<Entry>>)
      modifies kitty
      ensures kitty.calls == old(kitty.calls) + [LsCall(Listing.New())]
      ensures var all := kitty.lsReply(Listing.New());
        (all.Err? ==> r == Err(all.error)) &&
        (all.Ok? ==> r.Ok? && IsListing(r.value, AllTabs(all.value), parseTitle))
    {
      var all := kitty.Ls(Listing.New());
      if all.Err? {
        return Err(all.error);
      }
      var sessions := CountSessions(all.value, parseTitle);
      return Ok(sessions);
    }

    method NextSession(env: map<string, string>, parseTitle: string -> Option<string>, tracker: LastActiveTracker)
      returns (r: Result<()>)
      modifies kitty, tracker
      ensures var all := kitty.lsReply(Listing.New());
        all.Err? ==> r == Err(all.error) && kitty.calls == old(kitty.calls) + [LsCall(Listing.New())] && tracker.tabs == old(tracker.tabs)
      ensures var all := kitty.lsReply(Listing.New());
        all.Ok? ==> forall sessions :: IsListing(sessions, AllTabs(all.value), parseTitle) ==>
          var o := CycleOutcome(kitty, sessions, Name(Detect(env)), true, old(tracker.tabs));
          r == o.result && kitty.calls == old(kitty.calls) + [LsCall(Listing.New())] + o.calls && tracker.tabs == o.tracked
    {
      r := Cycle(env, parseTitle, tracker, true);
    }

    method PrevSession(env: map<string, string>, parseTitle: string -> Option<string>, tracker: LastActiveTracker)
      returns (r: Result<()>)
      modifies kitty, tracker
      ensures var all := kitty.lsReply(Listing.New());
        all.Err? ==> r == Err(all.error) && kitty.calls == old(kitty.calls) + [LsCall(Listing.New())] && tracker.tabs == old(tracker.tabs)
      ensures var all := kitty.lsReply(Listing.New());
        all.Ok? ==> forall sessions :: IsListing(sessions, AllTabs(all.value), parseTitle) ==>
          var o := CycleOutcome(kitty, sessions, Name(Detect(env)), false, old(tracker.tabs));
          r == o.result && kitty.calls == old(kitty.calls) + [LsCall(Listing.New())] + o.calls && tracker.tabs == o.tracked
    {
      r := Cycle(env, parseTitle, tracker, false);
    }

    /** The shared body of `next_session` and `prev_session`. */
    method Cycle(env: map<string, string>, parseTitle: string -> Option<string>, tracker: LastActiveTracker, forward: bool)
      returns (r: Result<()>)
      modifies kitty, tracker
      ensures var all := kitty.lsReply(Listing.New());
        all.Err? ==> r == Err(all.error) && kitty.calls == old(kitty.calls) + [LsCall(Listing.New())] && tracker.tabs == old(tracker.tabs)
      ensures var all := kitty.lsReply(Listing.New());
        all.Ok? ==> forall sessions :: IsListing(sessions, AllTabs(all.value), parseTitle) ==>
          var o := CycleOutcome(kitty, sessions, Name(Detect(env)), forward, old(tracker.tabs));
          r == o.result && kitty.calls == old(kitty.calls) + [LsCall(Listing.New())] + o.calls && tracker.tabs == o.tracked
    {
      var listed := ListSessions(parseTitle);
      if listed.Err? {
        return Err(listed.error);
      }
      var sessions := listed.value;
      ghost var tabs := AllTabs(kitty.lsReply(Listing.New()).value);
      forall other | IsListing(other, tabs, parseTitle)
        ensures other == sessions
      {
        ListingUnique(other, sessions, tabs, parseTitle);
      }
      if |sessions| <= 1 {
        return Ok(());
      }
      var current := Name(Detect(env));
      var i := if forward then NextSessionIndex(sessions, current) else PrevSessionIndex(sessions, current);
      r := SwitchToSession(sessions[i].0, tracker);
    }

    /** `ls`: the executor's reply, unchanged. */
    method Ls(command: Ls.KittenLsCommand) returns (r: Result<KittyLsResponse>)
      modifies kitty
      ensures kitty.calls == old(kitty.calls) + [LsCall(command)]
      ensures r == kitty.lsReply(command)
    {
      r := kitty.Ls(command);
    }

    /** `close_tab`: a failed result is returned, not turned into an error. */
    method CloseTab(tabId: nat) returns (r: Result<KittyCommandResult<()>>)
      modifies kitty
      ensures kitty.calls == old(kitty.calls) + [CloseTabCall(Closing.KittenCloseTabCommand(tabId))]
      ensures r == kitty.closeTabReply(Closing.KittenCloseTabCommand(tabId))
    {
      r := kitty.CloseTab(Closing.KittenCloseTabCommand(tabId));
    }

    /** `set_tab_title`: retitles the current tab (no match pattern). */
    method SetTabTitle(title: string) returns (r: Result<()>)
      modifies kitty
      ensures kitty.calls == old(kitty.calls) + [SetTabTitleCall(Titling.New(title))]
      ensures r == Checked(kitty.setTabTitleReply(Titling.New(title)), "Failed to set tab title: ")
    {
      var result := kitty.SetTabTitle(Titling.New(title));
      r := Checked(result, "Failed to set tab title: ");
    }
  }
}
