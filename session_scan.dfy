/** The loops of the session layer that only read a listing: they walk the
    OS windows and their tabs, pushing into local lists and counters, and
    are proved to compute the functions of `SessionTabs` and
    `SessionListing`. */
module SessionScan {
  import Seqs
  import opened Wrappers
  import opened KittyTypes
  import opened Session
  import opened SessionTabs
  import opened SessionListing
  import Strings

  /** The first tab of the first OS window that has one. */
  method FirstTab(windows: seq<KittyOsWindow>) returns (r: Option<KittyTab>)
    ensures r == FirstListedTab(windows)
  {
    var i := 0;
    while i < |windows|
      invariant 0 <= i <= |windows|
      invariant AllTabs(windows[..i]) == []
    {
      if |windows[i].tabs| > 0 {
        AllTabsAt(windows, i, 0);
        return Some(windows[i].tabs[0]);
      }
      AllTabsStep(windows, i);
      i := i + 1;
    }
    assert windows[..i] == windows;
    return None;
  }

  /** One step of the insertion sort: t goes after every tab whose id is
      not larger, shifting the larger ones up. */
  method InsertTab(sorted: seq<KittyTab>, t: KittyTab) returns (r: seq<KittyTab>)
    ensures r == InsertById(sorted, t)
  {
    var j := |sorted|;
    assert sorted[..j] == sorted && sorted[j..] == [];
    while j > 0 && sorted[j - 1].id > t.id
      invariant 0 <= j <= |sorted|
      invariant InsertById(sorted, t) == InsertById(sorted[..j], t) + sorted[j..]
    {
      assert sorted[..j][..j - 1] == sorted[..j - 1];
      assert sorted[j - 1..] == [sorted[j - 1]] + sorted[j..];
      j := j - 1;
    }
    r := sorted[..j] + [t] + sorted[j..];
  }

  /** Stable insertion sort by id. */
  method SortTabsById(tabs: seq<KittyTab>) returns (sorted: seq<KittyTab>)
    ensures sorted == SortById(tabs)
  {
    sorted := [];
    var i := 0;
    while i < |tabs|
      invariant 0 <= i <= |tabs|
      invariant sorted == SortById(tabs[..i])
    {
      assert tabs[..i + 1][..i] == tabs[..i];
      sorted := InsertTab(sorted, tabs[i]);
      i := i + 1;
    }
    assert tabs[..i] == tabs;
  }

  /** The tabs of a successful reply, OS window by OS window. */
  method CollectTabs(windows: seq<KittyOsWindow>) returns (tabs: seq<KittyTab>)
    ensures tabs == AllTabs(windows)
  {
    tabs := [];
    var i := 0;
    while i < |windows|
      invariant 0 <= i <= |windows|
      invariant tabs == AllTabs(windows[..i])
    {
      AllTabsStep(windows, i);
      tabs := tabs + windows[i].tabs;
      i := i + 1;
    }
    assert windows[..i] == windows;
  }

  /** The inner loop of the merge: one OS window's env-matched tabs. */
  method AddMissingTabs(sessionTabs: seq<KittyTab>, ghost titleTabs: seq<KittyTab>, ghost seen: seq<KittyTab>, tabs: seq<KittyTab>)
    returns (r: seq<KittyTab>)
    requires sessionTabs == AddMissing(titleTabs, seen)
    ensures r == AddMissing(titleTabs, seen + tabs)
  {
    r := sessionTabs;
    var j := 0;
    assert seen + tabs[..j] == seen;
    while j < |tabs|
      invariant 0 <= j <= |tabs|
      invariant r == AddMissing(titleTabs, seen + tabs[..j])
    {
      var tab := tabs[j];
      AddMissingStep(titleTabs, seen + tabs[..j], tab);
      Seqs.PrefixStep(seen, tabs, j);
      if !HasId(r, tab.id) {
        r := r + [tab];
      }
      j := j + 1;
    }
    assert tabs[..j] == tabs;
  }

  /** The tabs of an explicit session: the title matches, then each env
      match whose id is not there yet, sorted by id.  A failed query adds
      nothing. */
  method MergeSessionTabs(titleReply: Result<KittyLsResponse>, envReply: Result<KittyLsResponse>)
    returns (tabs: seq<KittyTab>)
    ensures tabs == ExplicitSessionTabs(titleReply, envReply)
  {
    var sessionTabs: seq<KittyTab> := [];
    if titleReply.Ok? {
      sessionTabs := CollectTabs(titleReply.value);
    }
    ghost var titleTabs := sessionTabs;
    if envReply.Ok? {
      var windows := envReply.value;
      var i := 0;
      while i < |windows|
        invariant 0 <= i <= |windows|
        invariant sessionTabs == AddMissing(titleTabs, AllTabs(windows[..i]))
      {
        sessionTabs := AddMissingTabs(sessionTabs, titleTabs, AllTabs(windows[..i]), windows[i].tabs);
        AllTabsStep(windows, i);
        i := i + 1;
      }
      assert windows[..i] == windows;
    } else {
      assert sessionTabs == AddMissing(titleTabs, []);
    }
    tabs := SortTabsById(sessionTabs);
  }

  /** The inner loop of the unnamed filter: one OS window's tabs. */
  method FilterUnnamedTabs(kept: seq<KittyTab>, ghost seen: seq<KittyTab>, windowTabs: seq<KittyTab>)
    returns (tabs: seq<KittyTab>)
    requires kept == UnnamedTabs(seen)
    ensures tabs == UnnamedTabs(seen + windowTabs)
  {
    tabs := kept;
    var j := 0;
    assert seen + windowTabs[..j] == seen;
    while j < |windowTabs|
      invariant 0 <= j <= |windowTabs|
      invariant tabs == UnnamedTabs(seen + windowTabs[..j])
    {
      var tab := windowTabs[j];
      var hasSessionEnv := CarriesSessionEnv(tab);
      var hasSessionTitle := SessionTitlePrefix <= tab.title;
      UnnamedTabsStep(seen + windowTabs[..j], tab);
      Seqs.PrefixStep(seen, windowTabs, j);
      if !hasSessionEnv && !hasSessionTitle {
        tabs := tabs + [tab];
      }
      j := j + 1;
    }
    assert windowTabs[..j] == windowTabs;
  }

  /** The tabs of the unnamed session, in listing order. */
  method FilterUnnamed(windows: seq<KittyOsWindow>) returns (tabs: seq<KittyTab>)
    ensures tabs == UnnamedTabs(AllTabs(windows))
  {
    tabs := [];
    var i := 0;
    while i < |windows|
      invariant 0 <= i <= |windows|
      invariant tabs == UnnamedTabs(AllTabs(windows[..i]))
    {
      tabs := FilterUnnamedTabs(tabs, AllTabs(windows[..i]), windows[i].tabs);
      AllTabsStep(windows, i);
      i := i + 1;
    }
    assert windows[..i] == windows;
  }

  lemma HasSessionTabsStep(seen: seq<KittyTab>, t: KittyTab)
    ensures HasSessionTabs(seen + [t]) <==> HasSessionTabs(seen) || HasSessionTitle(t) || CarriesSessionEnv(t)
  {
    var s := seen + [t];
    if HasSessionTabs(seen) {
      var k :| 0 <= k < |seen| && (HasSessionTitle(seen[k]) || CarriesSessionEnv(seen[k]));
      assert s[k] == seen[k];
    }
    if HasSessionTitle(t) || CarriesSessionEnv(t) {
      assert s[|seen|] == t;
    }
  }

  /** Whether any listed tab has a session title or a window carrying the
      session variable; stops at the first one. */
  method AnySessionTab(windows: seq<KittyOsWindow>) returns (found: bool)
    ensures found == HasSessionTabs(AllTabs(windows))
  {
    var i := 0;
    while i < |windows|
      invariant 0 <= i <= |windows|
      invariant !HasSessionTabs(AllTabs(windows[..i]))
    {
      var windowTabs := windows[i].tabs;
      var j := 0;
      assert AllTabs(windows[..i]) + windowTabs[..j] == AllTabs(windows[..i]);
      while j < |windowTabs|
        invariant 0 <= j <= |windowTabs|
        invariant !HasSessionTabs(AllTabs(windows[..i]) + windowTabs[..j])
      {
        var tab := windowTabs[j];
        AllTabsAt(windows, i, j);
        var before := AllTabs(windows[..i]) + windowTabs[..j];
        if SessionTitlePrefix <= tab.title {
          assert AllTabs(windows)[|before|] == tab;
          return true;
        }
        var w := 0;
        while w < |tab.windows|
          invariant 0 <= w <= |tab.windows|
          invariant forall v :: 0 <= v < w ==> SessionEnvVar !in tab.windows[v].env
        {
          if SessionEnvVar in tab.windows[w].env {
            assert AllTabs(windows)[|before|] == tab;
            return true;
          }
          w := w + 1;
        }
        HasSessionTabsStep(before, tab);
        assert AllTabs(windows[..i]) + windowTabs[..j + 1] == before + [tab];
        j := j + 1;
      }
      assert windowTabs[..j] == windowTabs;
      AllTabsStep(windows, i);
      i := i + 1;
    }
    assert windows[..i] == windows;
    return false;
  }

  /** The session variable's value in the first window that has it. */
  method FirstEnvSessionOf(windows: seq<KittyWindow>) returns (r: Option<string>)
    ensures r == FirstEnvSession(windows)
  {
    var w := 0;
    while w < |windows|
      invariant 0 <= w <= |windows|
      invariant FirstEnvSession(windows) == FirstEnvSession(windows[w..])
    {
      if SessionEnvVar in windows[w].env {
        return Some(windows[w].env[SessionEnvVar]);
      }
      assert windows[w..][1..] == windows[w + 1..];
      w := w + 1;
    }
    return None;
  }

  /** The session a tab belongs to: by title first, then by environment. */
  method ClassifyTab(tab: KittyTab, parseTitle: string -> Option<string>) returns (r: Option<string>)
    ensures r == Classify(tab, parseTitle)
  {
    if SessionTitlePrefix <= tab.title {
      var parsed := parseTitle(tab.title);
      if parsed.Some? {
        return parsed;
      }
    }
    r := FirstEnvSessionOf(tab.windows);
  }

  /** The inner loop of the lookup: the first tab of one OS window with
      the id. */
  method FindInWindow(tabs: seq<KittyTab>, tabId: nat) returns (r: Option<KittyTab>)
    ensures r == FirstWithId(tabs, tabId)
  {
    var j := 0;
    while j < |tabs|
      invariant 0 <= j <= |tabs|
      invariant FirstWithId(tabs, tabId) == FirstWithId(tabs[j..], tabId)
    {
      if tabs[j].id == tabId {
        return Some(tabs[j]);
      }
      assert tabs[j..][1..] == tabs[j + 1..];
      j := j + 1;
    }
    return None;
  }

  /** The session to record a focused tab under, looked up in a listing. */
  method SessionOfTab(windows: seq<KittyOsWindow>, tabId: nat, parseTitle: string -> Option<string>)
    returns (r: Option<string>)
    ensures r == TrackedSession(windows, tabId, parseTitle)
  {
    var i := 0;
    while i < |windows|
      invariant 0 <= i <= |windows|
      invariant FirstWithId(AllTabs(windows[..i]), tabId) == None
    {
      var found := FindInWindow(windows[i].tabs, tabId);
      AllTabsStep(windows, i);
      FirstWithIdAppend(AllTabs(windows[..i]), windows[i].tabs, tabId);
      if found.Some? {
        assert windows == windows[..i + 1] + windows[i + 1..];
        AllTabsAppend(windows[..i + 1], windows[i + 1..]);
        FirstWithIdAppend(AllTabs(windows[..i + 1]), AllTabs(windows[i + 1..]), tabId);
        r := ClassifyTab(found.value, parseTitle);
        return;
      }
      i := i + 1;
    }
    assert windows[..i] == windows;
    return None;
  }

  /** The running counts agree with the classification of the tabs seen. */
  ghost predicate Counted(counts: map<string, nat>, unnamed: nat, seen: seq<KittyTab>, parseTitle: string -> Option<string>) {
    unnamed == UnnamedCount(seen, parseTitle)
    && (forall name :: name in counts <==> NamedCount(seen, parseTitle, name) > 0)
    && (forall name :: name in counts ==> counts[name] == NamedCount(seen, parseTitle, name))
  }

  /** Counting one more tab: its session's count, or the unnamed count,
      goes up by one. */
  lemma CountedStep(counts: map<string, nat>, unnamed: nat, seen: seq<KittyTab>, tab: KittyTab, parseTitle: string -> Option<string>)
    requires Counted(counts, unnamed, seen, parseTitle)
    ensures var c := Classify(tab, parseTitle);
      Counted(if c.Some? then counts[c.value := (if c.value in counts then counts[c.value] else 0) + 1] else counts,
              if c.None? then unnamed + 1 else unnamed, seen + [tab], parseTitle)
  {
    CountsStep(seen, tab, parseTitle);
  }

  /** The per-session counts the loop builds: one more for each tab's
      session, in listing order. */
  function CountsOf(tabs: seq<KittyTab>, parseTitle: string -> Option<string>): map<string, nat> {
    if tabs == [] then map[]
    else
      var counts := CountsOf(tabs[..|tabs| - 1], parseTitle);
      match Classify(tabs[|tabs| - 1], parseTitle)
      case Some(name) => counts[name := (if name in counts then counts[name] else 0) + 1]
      case None => counts
  }

  lemma CountsOfSnoc(tabs: seq<KittyTab>, tab: KittyTab, parseTitle: string -> Option<string>)
    ensures var counts := CountsOf(tabs, parseTitle);
      CountsOf(tabs + [tab], parseTitle) ==
        match Classify(tab, parseTitle)
        case Some(name) => counts[name := (if name in counts then counts[name] else 0) + 1]
        case None => counts
    ensures UnnamedCount(tabs + [tab], parseTitle) == UnnamedCount(tabs, parseTitle) + (if Classify(tab, parseTitle).None? then 1 else 0)
  {
    assert (tabs + [tab])[..|tabs|] == tabs;
  }

  /** The built counts are each session's number of tabs, and list no
      session without tabs. */
  lemma {:induction false} CountsOfCounted(tabs: seq<KittyTab>, parseTitle: string -> Option<string>)
    ensures Counted(CountsOf(tabs, parseTitle), UnnamedCount(tabs, parseTitle), tabs, parseTitle)
  {
    if tabs != [] {
      var prefix, last := tabs[..|tabs| - 1], tabs[|tabs| - 1];
      CountsOfCounted(prefix, parseTitle);
      CountedStep(CountsOf(prefix, parseTitle), UnnamedCount(prefix, parseTitle), prefix, last, parseTitle);
      assert tabs == prefix + [last];
    }
  }

  /** The map's entries, in the order the map hands them out. */
  method CollectEntries(counts: map<string, nat>) returns (entries: seq<Entry>)
    ensures forall x :: x in entries <==> x.0 in counts && x.1 == counts[x.0]
    ensures DistinctNames(entries)
  {
    entries := [];
    var rest := counts.Keys;
    while rest != {}
      invariant rest <= counts.Keys
      invariant forall x :: x in entries <==> x.0 in counts && x.0 !in rest && x.1 == counts[x.0]
      invariant DistinctNames(entries)
      decreases |rest|
    {
      var name :| name in rest;
      entries := entries + [(name, counts[name])];
      rest := rest - {name};
    }
  }

  /** Inserts an entry with a new name into a strictly name-sorted list. */
  method InsertEntry(sorted: seq<Entry>, e: Entry) returns (r: seq<Entry>)
    requires StrictlySortedNames(sorted)
    requires forall k :: 0 <= k < |sorted| ==> sorted[k].0 != e.0
    ensures StrictlySortedNames(r)
    ensures forall x :: x in r <==> x in sorted || x == e
  {
    var j := |sorted|;
    while j > 0 && Strings.Less(e.0, sorted[j - 1].0)
      invariant 0 <= j <= |sorted|
      invariant forall k :: j <= k < |sorted| ==> Strings.Less(e.0, sorted[k].0)
    {
      j := j - 1;
    }
    if j > 0 {
      Strings.LessTotal(e.0, sorted[j - 1].0);
    }
    r := sorted[..j] + [e] + sorted[j..];
    forall a, b | 0 <= a < b < |r|
      ensures Strings.Less(r[a].0, r[b].0)
    {
      if a < j && b == j {
        if a < j - 1 {
          Strings.LessTransitive(sorted[a].0, sorted[j - 1].0, e.0);
        }
      } else if a < j && b > j {
        assert r[b] == sorted[b - 1];
      } else if a == j {
        assert r[b] == sorted[b - 1];
      } else if a > j {
        assert r[a] == sorted[a - 1] && r[b] == sorted[b - 1];
      }
    }
    assert forall x :: x in r <==> x in sorted[..j] || x == e || x in sorted[j..];
    assert sorted == sorted[..j] + sorted[j..];
  }

  /** Sorts entries with distinct names by name. */
  method SortEntries(entries: seq<Entry>) returns (sorted: seq<Entry>)
    requires DistinctNames(entries)
    ensures StrictlySortedNames(sorted)
    ensures forall x :: x in sorted <==> x in entries
  {
    sorted := [];
    var i := 0;
    while i < |entries|
      invariant 0 <= i <= |entries|
      invariant StrictlySortedNames(sorted)
      invariant forall x :: x in sorted <==> x in entries[..i]
    {
      forall k | 0 <= k < |sorted|
        ensures sorted[k].0 != entries[i].0
      {
        assert sorted[k] in entries[..i];
      }
      sorted := InsertEntry(sorted, entries[i]);
      assert entries[..i + 1] == entries[..i] + [entries[i]];
      i := i + 1;
    }
    assert entries[..i] == entries;
  }

  /** The inner counting loop: one OS window's tabs. */
  method CountWindowTabs(counts0: map<string, nat>, unnamed0: nat, ghost seen: seq<KittyTab>, tabs: seq<KittyTab>, parseTitle: string -> Option<string>)
    returns (counts: map<string, nat>, unnamed: nat)
    requires counts0 == CountsOf(seen, parseTitle) && unnamed0 == UnnamedCount(seen, parseTitle)
    ensures counts == CountsOf(seen + tabs, parseTitle) && unnamed == UnnamedCount(seen + tabs, parseTitle)
  {
    counts, unnamed := counts0, unnamed0;
    ghost var done := seen;
    var j := 0;
    while j < |tabs|
      invariant 0 <= j <= |tabs|
      invariant done == seen + tabs[..j]
      invariant counts == CountsOf(done, parseTitle)
      invariant unnamed == UnnamedCount(done, parseTitle)
    {
      var tab := tabs[j];
      var session := ClassifyTab(tab, parseTitle);
      CountsOfSnoc(done, tab, parseTitle);
      Seqs.PrefixStep(seen, tabs, j);
      match session {
        case Some(name) =>
          counts := counts[name := (if name in counts then counts[name] else 0) + 1];
        case None =>
          unnamed := unnamed + 1;
      }
      done := done + [tab];
      j := j + 1;
    }
    assert tabs[..j] == tabs;
  }

  /** The counting loop of `list_sessions`: one count per session name,
      and the number of tabs in no session. */
  method CountTabs(windows: seq<KittyOsWindow>, parseTitle: string -> Option<string>)
    returns (counts: map<string, nat>, unnamed: nat)
    ensures Counted(counts, unnamed, AllTabs(windows), parseTitle)
  {
    counts := map[];
    unnamed := 0;
    var i := 0;
    while i < |windows|
      invariant 0 <= i <= |windows|
      invariant counts == CountsOf(AllTabs(windows[..i]), parseTitle)
      invariant unnamed == UnnamedCount(AllTabs(windows[..i]), parseTitle)
    {
      counts, unnamed := CountWindowTabs(counts, unnamed, AllTabs(windows[..i]), windows[i].tabs, parseTitle);
      AllTabsStep(windows, i);
      i := i + 1;
    }
    assert windows[..i] == windows;
    CountsOfCounted(AllTabs(windows), parseTitle);
  }

  /** `list_sessions` over a listing: counts per session and of unnamed
      tabs, named sessions sorted by name, the unnamed session last when it
      has tabs. */
  method CountSessions(windows: seq<KittyOsWindow>, parseTitle: string -> Option<string>)
    returns (sessions: seq<Entry>)
    ensures IsListing(sessions, AllTabs(windows), parseTitle)
  {
    var counts, unnamed := CountTabs(windows, parseTitle);
    ghost var tabs := AllTabs(windows);
    var entries := CollectEntries(counts);
    var named := SortEntries(entries);
    forall name | NamedCount(tabs, parseTitle, name) > 0
      ensures name in Names(named)
    {
      assert (name, counts[name]) in named;
      var k :| 0 <= k < |named| && named[k] == (name, counts[name]);
      assert Names(named)[k] == name;
    }
    forall k | 0 <= k < |named|
      ensures named[k].1 == NamedCount(tabs, parseTitle, named[k].0) && named[k].1 > 0
    {
      assert named[k] in entries;
    }
    if unnamed > 0 {
      sessions := named + [(UnnamedSession, unnamed)];
      assert sessions[..|sessions| - 1] == named;
    } else {
      sessions := named;
    }
  }
}
