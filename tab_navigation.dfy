/** Moving to the next or previous tab of the current session
    (`navigate_tab`): the wrap flag comes from an explicit `--no-wrap`
    override, else from the configured default, which is an input here. */
module TabNavigation {
  import opened Wrappers
  import opened Session
  import opened Executor
  import opened Kitty
  import Utils
  import Commands = NavigateTab

  /** Whether navigation wraps around the ends of the session. */
  function UseWrap(noWrap: Option<bool>, defaultWrap: bool): (r: bool)
    ensures noWrap.Some? ==> (r <==> !noWrap.value)
    ensures noWrap.None? ==> r == defaultWrap
  {
    match noWrap
    case Some(explicitNoWrap) => !explicitNoWrap
    case None => defaultWrap
  }

  function Direction(d: Utils.NavigationDirection): (r: Commands.TabNavigationDirection)
    ensures d.Next? <==> r.Next?
  {
    match d
    case Next => Commands.Next
    case Previous => Commands.Previous
  }

  /** One navigation in the wanted direction, with the resolved wrap flag. */
  method NavigateTab(app: Kitty, env: map<string, string>, direction: Utils.NavigationDirection,
                     noWrap: Option<bool>, defaultWrap: bool)
    returns (r: Result<()>)
    modifies app.kitty
    ensures var o := NavigateOutcome(app.kitty, Detect(env), Direction(direction), UseWrap(noWrap, defaultWrap));
      r == o.result && app.kitty.calls == old(app.kitty.calls) + o.calls
  {
    var useWrap := UseWrap(noWrap, defaultWrap);
    match direction {
      case Next => r := app.NextSessionTab(env, useWrap);
      case Previous => r := app.PrevSessionTab(env, useWrap);
    }
  }

  /** The index rule of tab navigation within a session of `n` tabs.  The
      executor that performs it is not part of this model: this is the rule
      its expected behaviour describes (one step, around the ends when
      wrapping, staying put at the ends otherwise). */
  function NavigateIndex(i: nat, n: nat, forward: bool, wrap: bool): (r: nat)
    requires i < n
    ensures r < n
  {
    if forward then (if i + 1 < n then i + 1 else if wrap then 0 else i)
    else (if i > 0 then i - 1 else if wrap then n - 1 else i)
  }

  /** With wrapping, next is `(i + 1) mod n` and previous `(i - 1 + n) mod n`;
      without, the ends are fixed points and elsewhere the two agree. */
  lemma NavigateIndexArithmetic(i: nat, n: nat)
    requires i < n
    ensures NavigateIndex(i, n, true, true) == (i + 1) % n
    ensures NavigateIndex(i, n, false, true) == (i - 1 + n) % n
    ensures NavigateIndex(n - 1, n, true, false) == n - 1 && NavigateIndex(0, n, false, false) == 0
    ensures i + 1 < n ==> NavigateIndex(i, n, true, false) == NavigateIndex(i, n, true, true)
    ensures i > 0 ==> NavigateIndex(i, n, false, false) == NavigateIndex(i, n, false, true)
  {
    if i + 1 == n {
      ModShifted(0, n);
    } else {
      ModSmall(i + 1, n);
    }
    if i == 0 {
      ModSmall(n - 1, n);
    } else {
      ModShifted(i - 1, n);
    }
  }

  lemma ModSmall(a: int, n: int)
    requires 0 <= a < n
    ensures a % n == a
  {
  }

  lemma ModShifted(a: int, n: int)
    requires 0 <= a < n
    ensures (a + n) % n == a
  {
  }

  /** With wrapping, previous undoes next and next undoes previous. */
  lemma NavigateIndexInverse(i: nat, n: nat)
    requires i < n
    ensures NavigateIndex(NavigateIndex(i, n, true, true), n, false, true) == i
    ensures NavigateIndex(NavigateIndex(i, n, false, true), n, true, true) == i
  {
  }
}
