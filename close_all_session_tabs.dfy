/** Closing every tab of a session (`close-all-session-tabs`): choose the
    target session, list its tabs, ask for confirmation unless forced, then
    close the tabs one by one in id order, counting the failures.  The
    detected session and the answer typed at the prompt are inputs. */
module CloseAllSessionTabs {
  import opened Wrappers
  import opened KittyTypes
  import opened Session
  import opened SessionTabs
  import opened SessionScan
  import opened Executor
  import opened Kitty
  import Strings
  import Closing = CloseTab

  /** The session to close: the one named, else the detected one when it is
      explicit, else none. */
  function Target(sessionName: Option<string>, detected: SessionContext): (r: Option<string>)
    ensures sessionName.Some? ==> r == sessionName
    ensures sessionName.None? ==> (r.Some? <==> detected.isExplicit)
    ensures sessionName.None? && r.Some? ==> r.value == detected.sessionName
  {
    if sessionName.Some? then sessionName
    else if detected.isExplicit then Some(detected.sessionName)
    else None
  }

  /** Some window of the tab carries the session variable set to `target`. */
  predicate InSessionOf(t: KittyTab, target: string) {
    exists w :: w in t.windows && SessionEnvVar in w.env && w.env[SessionEnvVar] == target
  }

  /** The listed tabs that belong to `target`, in listing order. */
  function TabsOf(tabs: seq<KittyTab>, target: string): seq<KittyTab> {
    if tabs == [] then []
    else
      var last := tabs[|tabs| - 1];
      TabsOf(tabs[..|tabs| - 1], target) + (if InSessionOf(last, target) then [last] else [])
  }

  /** The filter keeps exactly the tabs of the target session. */
  lemma {:induction false} TabsOfMembers(tabs: seq<KittyTab>, target: string)
    ensures forall t :: t in TabsOf(tabs, target) <==> t in tabs && InSessionOf(t, target)
  {
    if tabs != [] {
      var prev := tabs[..|tabs| - 1];
      TabsOfMembers(prev, target);
      assert tabs == prev + [tabs[|tabs| - 1]];
    }
  }

  /** The answer confirms only as "y" or "yes", ignoring case and
      surrounding blanks. */
  predicate Confirmed(answer: string) {
    IsYes(Strings.ToLower(Strings.Trim(answer)))
  }

  /** `input == "y" || input == "yes"`, character by character. */
  predicate IsYes(input: string) {
    (|input| == 1 || |input| == 3) && input[0] == 'y' && (|input| == 3 ==> input[1] == 'e' && input[2] == 's')
  }

  lemma IsYesWords(input: string)
    ensures IsYes(input) <==> input == "y" || input == "yes"
  {
    if input == "y" || input == "yes" {
      assert input[0] == 'y';
    }
    if IsYes(input) && |input| == 1 {
      assert input == [input[0]];
    }
    if IsYes(input) && |input| == 3 {
      assert input == [input[0], input[1], input[2]];
    }
  }

  predicate CloseFailed(reply: Result<KittyCommandResult<()>>) {
    reply.Err? || !IsSuccess(reply.value)
  }

  function CloseCommand(t: KittyTab): Closing.KittenCloseTabCommand {
    Closing.KittenCloseTabCommand(t.id)
  }

  /** The close calls for `tabs`, in order. */
  function CloseCalls(tabs: seq<KittyTab>): (r: seq<Call>)
    ensures |r| == |tabs|
    ensures forall i :: 0 <= i < |tabs| ==> r[i] == CloseTabCall(CloseCommand(tabs[i]))
  {
    if tabs == [] then [] else CloseCalls(tabs[..|tabs| - 1]) + [CloseTabCall(CloseCommand(tabs[|tabs| - 1]))]
  }

  /** The tabs whose close failed, with the reason. */
  function Failures(ex: Executor, tabs: seq<KittyTab>): seq<(nat, string)> {
    if tabs == [] then []
    else
      var t := tabs[|tabs| - 1];
      var reply := ex.closeTabReply(CloseCommand(t));
      Failures(ex, tabs[..|tabs| - 1]) +
        (if reply.Err? then [(t.id, reply.error)]
         else if !IsSuccess(reply.value) then [(t.id, reply.value.errorMessage.GetOr(""))]
         else [])
  }

  function Successes(ex: Executor, tabs: seq<KittyTab>): nat {
    if tabs == [] then 0
    else Successes(ex, tabs[..|tabs| - 1]) + (if CloseFailed(ex.closeTabReply(CloseCommand(tabs[|tabs| - 1]))) then 0 else 1)
  }

  /** Every tab is either closed or a failure, never both; the failures are
      exactly the tabs whose close failed, in order. */
  lemma {:induction false} CloseAccounting(ex: Executor, tabs: seq<KittyTab>)
    ensures Successes(ex, tabs) + |Failures(ex, tabs)| == |tabs|
    ensures forall f :: f in Failures(ex, tabs) ==>
      exists t :: t in tabs && t.id == f.0 && CloseFailed(ex.closeTabReply(CloseCommand(t)))
    ensures |Failures(ex, tabs)| == 0 <==> forall t :: t in tabs ==> !CloseFailed(ex.closeTabReply(CloseCommand(t)))
  {
    if tabs != [] {
      var prev := tabs[..|tabs| - 1];
      CloseAccounting(ex, prev);
      assert tabs == prev + [tabs[|tabs| - 1]];
    }
  }

  function FailedToClose(failed: nat, total: nat, target: string): string {
    "Failed to close " + Strings.NatToString(failed) + " out of " + Strings.NatToString(total) + " tabs in session '" + target + "'"
  }

  /** Closing `tabs`: one call per tab, and an error counting the failures
      when there are any. */
  function CloseStage(ex: Executor, tabs: seq<KittyTab>, target: string): Effect {
    var failures := Failures(ex, tabs);
    Effect(if |failures| > 0 then Err(FailedToClose(|failures|, |tabs|, target)) else Ok(()), CloseCalls(tabs))
  }

  /** What the command returns and the calls it makes. */
  function CloseAllOutcome(ex: Executor, sessionName: Option<string>, force: bool, detected: SessionContext, answer: string): Effect {
    match Target(sessionName, detected)
    case None => Effect(Ok(()), [])
    case Some(target) => TargetOutcome(ex, target, force || Confirmed(answer))
  }

  /** Once there is a target: the query for its tabs, then the close stage
      on what it lists. */
  function TargetOutcome(ex: Executor, target: string, proceed: bool): Effect {
    var listing := ex.lsReply(EnvQuery(target));
    var query := [LsCall(EnvQuery(target))];
    if listing.Err? then Effect(Err(listing.error), query)
    else
      var rest := ListedOutcome(ex, listing.value, target, proceed);
      Effect(rest.result, query + rest.calls)
  }

  /** What happens once the target's tabs are listed: nothing without a tab
      or without confirmation, else the close stage. */
  function ListedOutcome(ex: Executor, listing: KittyLsResponse, target: string, proceed: bool): Effect {
    if TabsOf(AllTabs(listing), target) == [] || !proceed then Effect(Ok(()), [])
    else CloseStage(ex, ToClose(listing, target), target)
  }

  /** The tabs the command would close for `target` given `listing`. */
  function ToClose(listing: KittyLsResponse, target: string): seq<KittyTab> {
    SortById(TabsOf(AllTabs(listing), target))
  }

  /** The tabs to close are exactly the listed tabs of the target session,
      each once, in ascending id order. */
  lemma ToCloseExact(listing: KittyLsResponse, target: string)
    ensures SortedById(ToClose(listing, target))
    ensures multiset(ToClose(listing, target)) == multiset(TabsOf(AllTabs(listing), target))
    ensures forall t :: t in ToClose(listing, target) <==> t in AllTabs(listing) && InSessionOf(t, target)
  {
    var tabs := TabsOf(AllTabs(listing), target);
    SortByIdCorrect(tabs);
    TabsOfMembers(AllTabs(listing), target);
    assert forall t :: t in ToClose(listing, target) <==> t in multiset(ToClose(listing, target));
    assert forall t :: t in tabs <==> t in multiset(tabs);
  }

  /** When the command closes tabs, the calls after the listing close the
      tabs of `ToClose` in order, the closing was forced or confirmed, and
      the command fails exactly when some close failed, reporting how many
      of how many. */
  lemma CloseAllCloses(ex: Executor, sessionName: Option<string>, force: bool, detected: SessionContext, answer: string)
    ensures var o := CloseAllOutcome(ex, sessionName, force, detected, answer);
      |o.calls| > 1 ==>
        var target := Target(sessionName, detected).value;
        var tabs := ToClose(ex.lsReply(EnvQuery(target)).value, target);
        (force || Confirmed(answer)) &&
        o.calls[1..] == CloseCalls(tabs) &&
        (o.result.Err? <==> exists t :: t in tabs && CloseFailed(ex.closeTabReply(CloseCommand(t)))) &&
        (o.result.Err? ==> o.result.error == FailedToClose(|Failures(ex, tabs)|, |tabs|, target))
  {
    var o := CloseAllOutcome(ex, sessionName, force, detected, answer);
    if |o.calls| > 1 {
      var target := Target(sessionName, detected).value;
      var listing := ex.lsReply(EnvQuery(target));
      assert listing.Ok?;
      var tabs := ToClose(listing.value, target);
      assert tabs != [] && (force || Confirmed(answer));
      var closing := CloseStage(ex, tabs, target);
      assert o == Effect(closing.result, [LsCall(EnvQuery(target))] + closing.calls);
      assert o.calls[1..] == closing.calls;
      CloseAccounting(ex, tabs);
    }
  }

  /** No target, a failed listing, no tab or no confirmation: nothing is
      closed. */
  lemma CloseAllNothingClosed(ex: Executor, sessionName: Option<string>, force: bool, detected: SessionContext, answer: string)
    ensures var o := CloseAllOutcome(ex, sessionName, force, detected, answer);
      (sessionName.None? && !detected.isExplicit ==> o == Effect(Ok(()), [])) &&
      (|o.calls| <= 1 ==> forall c :: c in o.calls ==> c.LsCall?)
  {
  }

  /** One OS window's tabs of the target, appended to `sessionTabs`. */
  method CollectWindowTabs(sessionTabs: seq<KittyTab>, ghost seen: seq<KittyTab>, tabs: seq<KittyTab>, targetSession: string)
    returns (r: seq<KittyTab>)
    requires sessionTabs == TabsOf(seen, targetSession)
    ensures r == TabsOf(seen + tabs, targetSession)
  {
    r := sessionTabs;
    assert seen + tabs[..0] == seen;
    for j := 0 to |tabs|
      invariant r == TabsOf(seen + tabs[..j], targetSession)
    {
      var tab := tabs[j];
      var next := seen + tabs[..j + 1];
      assert next[..|next| - 1] == seen + tabs[..j] && next[|next| - 1] == tab;
      var matchesSession := InSessionOf(tab, targetSession);
      if matchesSession {
        r := r + [tab];
      }
    }
    assert tabs[..|tabs|] == tabs;
  }

  /** The listed tabs of the target, gathered OS window by OS window. */
  method CollectSessionTabs(windows: KittyLsResponse, targetSession: string) returns (sessionTabs: seq<KittyTab>)
    ensures sessionTabs == TabsOf(AllTabs(windows), targetSession)
  {
    sessionTabs := [];
    for i := 0 to |windows|
      invariant sessionTabs == TabsOf(AllTabs(windows[..i]), targetSession)
    {
      AllTabsStep(windows, i);
      sessionTabs := CollectWindowTabs(sessionTabs, AllTabs(windows[..i]), windows[i].tabs, targetSession);
    }
    assert windows[..|windows|] == windows;
  }

  /** Closes `tabs` one by one, counting what closed and what failed. */
  method CloseEach(app: Kitty, tabs: seq<KittyTab>) returns (successfullyClosed: nat, failedCloses: seq<(nat, string)>)
    modifies app.kitty
    ensures successfullyClosed == Successes(app.kitty, tabs)
    ensures failedCloses == Failures(app.kitty, tabs)
    ensures app.kitty.calls == old(app.kitty.calls) + CloseCalls(tabs)
  {
    successfullyClosed := 0;
    failedCloses := [];
    for i := 0 to |tabs|
      invariant successfullyClosed == Successes(app.kitty, tabs[..i])
      invariant failedCloses == Failures(app.kitty, tabs[..i])
      invariant app.kitty.calls == old(app.kitty.calls) + CloseCalls(tabs[..i])
    {
      var tab := tabs[i];
      assert tabs[..i + 1][..i] == tabs[..i] && tabs[..i + 1][i] == tab;
      var result := app.CloseTab(tab.id);
      match result {
        case Ok(closed) =>
          if IsSuccess(closed) {
            successfullyClosed := successfullyClosed + 1;
          } else {
            failedCloses := failedCloses + [(tab.id, closed.errorMessage.GetOr(""))];
          }
        case Err(e) =>
          failedCloses := failedCloses + [(tab.id, e)];
      }
    }
    assert tabs[..|tabs|] == tabs;
  }

  /** The part of the command after the listing: gather, sort, confirm,
      close. */
  method CloseListed(app: Kitty, windows: KittyLsResponse, targetSession: string, force: bool, answer: string)
    returns (r: Result<()>)
    modifies app.kitty
    ensures var o := ListedOutcome(app.kitty, windows, targetSession, force || Confirmed(answer));
      r == o.result && app.kitty.calls == old(app.kitty.calls) + o.calls
  {
    ghost var toClose := ToClose(windows, targetSession);
    var sessionTabs := CollectSessionTabs(windows, targetSession);
    if |sessionTabs| == 0 {
      assert toClose == [];
      return Ok(());
    }
    sessionTabs := SortTabsById(sessionTabs);
    assert sessionTabs == toClose;
    var tabCount := |sessionTabs|;
    if !force {
      if !Confirmed(answer) {
        return Ok(());
      }
    }
    ghost var closing := CloseStage(app.kitty, toClose, targetSession);
    assert ListedOutcome(app.kitty, windows, targetSession, force || Confirmed(answer)) == closing;
    var successfullyClosed, failedCloses := CloseEach(app, sessionTabs);
    if |failedCloses| > 0 {
      return Err(FailedToClose(|failedCloses|, tabCount, targetSession));
    }
    return Ok(());
  }

  /** `cmd_close_all_session_tabs_with_context` */
  method CloseAllSessionTabsWithContext(app: Kitty, sessionName: Option<string>, force: bool,
                                        detected: SessionContext, answer: string)
    returns (r: Result<()>)
    modifies app.kitty
    ensures var o := CloseAllOutcome(app.kitty, sessionName, force, detected, answer);
      r == o.result && app.kitty.calls == old(app.kitty.calls) + o.calls
  {
    var target := Target(sessionName, detected);
    if target.None? {
      return Ok(());
    }
    r := CloseTarget(app, target.value, force, answer);
  }

  /** The command once the target is known: list its tabs, then close them. */
  method CloseTarget(app: Kitty, targetSession: string, force: bool, answer: string)
    returns (r: Result<()>)
    modifies app.kitty
    ensures var o := TargetOutcome(app.kitty, targetSession, force || Confirmed(answer));
      r == o.result && app.kitty.calls == old(app.kitty.calls) + o.calls
  {
    ghost var ex := app.kitty;
    ghost var proceed := force || Confirmed(answer);
    var osWindows := app.Ls(EnvQuery(targetSession));
    if osWindows.Err? {
      TargetListingFailed(ex, targetSession, proceed);
      return Err(osWindows.error);
    }
    ghost var listed := ex.calls;
    r := CloseListed(app, osWindows.value, targetSession, force, answer);
    TargetListed(ex, targetSession, proceed, osWindows.value, old(ex.calls), listed, ex.calls, r);
  }

  lemma TargetListingFailed(ex: Executor, target: string, proceed: bool)
    requires ex.lsReply(EnvQuery(target)).Err?
    ensures TargetOutcome(ex, target, proceed) == Effect(Err(ex.lsReply(EnvQuery(target)).error), [LsCall(EnvQuery(target))])
  {
  }

  /** The listing succeeded: the command's calls are the query followed by
      the close stage's, and its result is the close stage's. */
  lemma TargetListed(ex: Executor, target: string, proceed: bool, windows: KittyLsResponse,
                     prior: seq<Call>, listed: seq<Call>, now: seq<Call>, r: Result<()>)
    requires ex.lsReply(EnvQuery(target)) == Ok(windows)
    requires listed == prior + [LsCall(EnvQuery(target))]
    requires now == listed + ListedOutcome(ex, windows, target, proceed).calls
    requires r == ListedOutcome(ex, windows, target, proceed).result
    ensures r == TargetOutcome(ex, target, proceed).result
    ensures now == prior + TargetOutcome(ex, target, proceed).calls
  {
    var rest := ListedOutcome(ex, windows, target, proceed);
    assert now == prior + ([LsCall(EnvQuery(target))] + rest.calls);
  }
}
