/** Which session the caller is in, and the last-active-tab bookkeeping.
    The process environment is passed in as a map; the tracker, a global
    lock-protected map in the program, is a plain object here. */
module Session {
  import opened Wrappers

  /** The environment variable naming the current session. */
  const SessionEnvVar := "KITTY_SESSION_PROJECT"

  /** The name of the default session. */
  const UnnamedSession := "unnamed"

  datatype SessionContext = SessionContext(sessionName: string, isExplicit: bool)

  /** `SessionContext::detect`: explicit exactly when the variable is set to
      a non-empty value, which then names the session. */
  function Detect(env: map<string, string>): (c: SessionContext)
    ensures c.isExplicit <==> (SessionEnvVar in env && env[SessionEnvVar] != "")
    ensures c.isExplicit ==> c.sessionName == env[SessionEnvVar]
    ensures !c.isExplicit ==> c == Unnamed()
  {
    if SessionEnvVar in env && env[SessionEnvVar] != "" then SessionContext(env[SessionEnvVar], true)
    else Unnamed()
  }

  /** `SessionContext::new`: a named, explicit context. */
  function New(name: string): (c: SessionContext)
    ensures c.isExplicit && Name(c) == name
  {
    SessionContext(name, true)
  }

  /** `SessionContext::unnamed`: the default context. */
  function Unnamed(): (c: SessionContext)
    ensures !c.isExplicit && IsUnnamed(c)
  {
    SessionContext(UnnamedSession, false)
  }

  /** `is_unnamed` looks only at the name, not at how the context arose. */
  predicate IsUnnamed(c: SessionContext) {
    c.sessionName == UnnamedSession
  }

  function Name(c: SessionContext): string {
    c.sessionName
  }

  /** An explicit session that happens to be called "unnamed" counts as
      unnamed, and a detected context is unnamed whenever it is not explicit. */
  lemma IsUnnamedByName(env: map<string, string>)
    ensures IsUnnamed(New(UnnamedSession)) && New(UnnamedSession).isExplicit
    ensures !Detect(env).isExplicit ==> IsUnnamed(Detect(env))
    ensures Detect(env).isExplicit ==> (IsUnnamed(Detect(env)) <==> env[SessionEnvVar] == UnnamedSession)
  {
  }

  /** `SessionUtils::current_session` */
  function CurrentSession(env: map<string, string>): SessionContext {
    Detect(env)
  }

  /** `SessionUtils::in_session`: the variable is set and non-empty. */
  function InSession(env: map<string, string>): (b: bool)
    ensures b <==> (SessionEnvVar in env && env[SessionEnvVar] != "")
  {
    Detect(env).isExplicit
  }

  /** `SessionUtils::session_name_for_kitty`: the name, only for an explicit
      context. */
  function SessionNameForKitty(env: map<string, string>): (r: Option<string>)
    ensures r.Some? <==> InSession(env)
    ensures r.Some? ==> r.value == env[SessionEnvVar]
  {
    var c := Detect(env);
    if c.isExplicit then Some(c.sessionName) else None
  }

  /** The last active tab of each session (`LAST_ACTIVE_TABS`). */
  class LastActiveTracker {
    var tabs: map<string, nat>

    constructor ()
      ensures tabs == map[]
    {
      tabs := map[];
    }

    /** `get_last_active_tab`: None for a session never recorded. */
    function GetLastActiveTab(sessionName: string): (r: Option<nat>)
      reads this
      ensures r.Some? <==> sessionName in tabs
      ensures r.Some? ==> r.value == tabs[sessionName]
    {
      if sessionName in tabs then Some(tabs[sessionName]) else None
    }

    /** `set_last_active_tab`: an upsert for this session only. */
    method SetLastActiveTab(sessionName: string, tabId: nat)
      modifies this
      ensures GetLastActiveTab(sessionName) == Some(tabId)
      ensures forall other :: other != sessionName ==> GetLastActiveTab(other) == old(GetLastActiveTab(other))
      ensures tabs == old(tabs)[sessionName := tabId]
    {
      tabs := tabs[sessionName := tabId];
    }

    /** `clear_last_active_tab`: forgets this session only. */
    method ClearLastActiveTab(sessionName: string)
      modifies this
      ensures GetLastActiveTab(sessionName).None?
      ensures forall other :: other != sessionName ==> GetLastActiveTab(other) == old(GetLastActiveTab(other))
      ensures tabs == old(tabs) - {sessionName}
    {
      tabs := tabs - {sessionName};
    }

    /** `get_tracked_sessions`: every recorded session once, in the map's
        (unspecified) order. */
    method GetTrackedSessions() returns (names: seq<string>)
      ensures forall name :: name in names <==> name in tabs
      ensures forall i, j :: 0 <= i < j < |names| ==> names[i] != names[j]
    {
      names := [];
      var rest := tabs.Keys;
      while rest != {}
        invariant rest <= tabs.Keys
        invariant forall name :: name in names <==> name in tabs && name !in rest
        invariant forall i, j :: 0 <= i < j < |names| ==> names[i] != names[j]
        decreases |rest|
      {
        var name :| name in rest;
        names := names + [name];
        rest := rest - {name};
      }
    }
  }
}
