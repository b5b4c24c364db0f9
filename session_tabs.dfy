/** What the session layer computes from `ls` listings, stated as functions:
    which tabs belong to a session, how tabs are classified into sessions,
    and the id ordering it imposes.  The methods in `Kitty` are proved to
    compute exactly these. */
module SessionTabs {
  import opened Wrappers
  import opened KittyTypes
  import opened Session
  import Ls
  import Seqs

  /** Titles of tabs created for a session start with this. */
  const SessionTitlePrefix := "session:"

  /** Every tab of a listing, OS window by OS window. */
  function AllTabs(windows: seq<KittyOsWindow>): seq<KittyTab> {
    if windows == [] then [] else AllTabs(windows[..|windows| - 1]) + windows[|windows| - 1].tabs
  }

  lemma AllTabsStep(windows: seq<KittyOsWindow>, i: nat)
    requires i < |windows|
    ensures AllTabs(windows[..i + 1]) == AllTabs(windows[..i]) + windows[i].tabs
  {
    assert windows[..i + 1][..i] == windows[..i];
  }

  lemma {:induction false} AllTabsAppend(a: seq<KittyOsWindow>, b: seq<KittyOsWindow>)
    ensures AllTabs(a + b) == AllTabs(a) + AllTabs(b)
    decreases |b|
  {
    if b == [] {
      assert a + b == a;
    } else {
      var init := b[..|b| - 1];
      AllTabsAppend(a, init);
      assert (a + b)[..|a + b| - 1] == a + init;
      assert b[..|b| - 1] == init;
    }
  }

  lemma SplitMiddle<T>(a: seq<T>, b: seq<T>, c: seq<T>, d: seq<T>, e: seq<T>)
    ensures a + (b + c + d) + e == a + b + c + d + e
  {
  }

  /** The tab at position j of OS window i is listed, after every tab of the
      earlier OS windows and the earlier tabs of its own. */
  lemma AllTabsAt(windows: seq<KittyOsWindow>, i: nat, j: nat)
    requires i < |windows| && j < |windows[i].tabs|
    ensures AllTabs(windows) == AllTabs(windows[..i]) + windows[i].tabs[..j] + [windows[i].tabs[j]] + windows[i].tabs[j + 1..] + AllTabs(windows[i + 1..])
  {
    assert windows == windows[..i + 1] + windows[i + 1..];
    AllTabsAppend(windows[..i + 1], windows[i + 1..]);
    AllTabsStep(windows, i);
    var tabs := windows[i].tabs;
    var before, after := AllTabs(windows[..i]), AllTabs(windows[i + 1..]);
    assert AllTabs(windows) == before + tabs + after;
    assert tabs == tabs[..j] + [tabs[j]] + tabs[j + 1..];
    SplitMiddle(before, tabs[..j], [tabs[j]], tabs[j + 1..], after);
  }

  /** The first tab listed, if any: what `match_session_tab` takes from a
      reply. */
  function FirstListedTab(windows: seq<KittyOsWindow>): Option<KittyTab> {
    if AllTabs(windows) == [] then None else Some(AllTabs(windows)[0])
  }

  /** The tabs an `ls` reply lists; a failed `ls` lists none. */
  function ReplyTabs(reply: Result<KittyLsResponse>): seq<KittyTab> {
    if reply.Ok? then AllTabs(reply.value) else []
  }

  predicate HasId(tabs: seq<KittyTab>, id: nat) {
    exists k :: 0 <= k < |tabs| && tabs[k].id == id
  }

  predicate SortedById(tabs: seq<KittyTab>) {
    forall i, j :: 0 <= i < j < |tabs| ==> tabs[i].id <= tabs[j].id
  }

  predicate DistinctIds(tabs: seq<KittyTab>) {
    forall i, j :: 0 <= i < j < |tabs| ==> tabs[i].id != tabs[j].id
  }

  /** The title query an explicit context sends: "title:session:NAME". */
  function TitleQuery(name: string): Ls.KittenLsCommand {
    Ls.MatchTabTitle(Ls.New(), SessionTitlePrefix + name)
  }

  /** The environment query: "env:KITTY_SESSION_PROJECT=NAME". */
  function EnvQuery(name: string): Ls.KittenLsCommand {
    Ls.MatchTabEnv(Ls.New(), SessionEnvVar, name)
  }

  // ----- Merging the title-matched and env-matched tabs -----

  /** Appends, in order, each tab whose id is not present yet. */
  function AddMissing(acc: seq<KittyTab>, tabs: seq<KittyTab>): seq<KittyTab> {
    if tabs == [] then acc
    else
      var merged := AddMissing(acc, tabs[..|tabs| - 1]);
      var t := tabs[|tabs| - 1];
      if HasId(merged, t.id) then merged else merged + [t]
  }

  lemma AddMissingStep(acc: seq<KittyTab>, tabs: seq<KittyTab>, t: KittyTab)
    ensures AddMissing(acc, tabs + [t])
         == (var merged := AddMissing(acc, tabs); if HasId(merged, t.id) then merged else merged + [t])
  {
    assert (tabs + [t])[..|tabs|] == tabs;
  }

  /** The merge keeps everything already present, adds only tabs of the
      second list, and covers every id of the second list. */
  lemma {:induction false} AddMissingCovers(acc: seq<KittyTab>, tabs: seq<KittyTab>)
    ensures acc <= AddMissing(acc, tabs)
    ensures forall t :: t in AddMissing(acc, tabs) ==> t in acc || t in tabs
    ensures forall t :: t in tabs ==> HasId(AddMissing(acc, tabs), t.id)
  {
    if tabs != [] {
      var init := tabs[..|tabs| - 1];
      var t := tabs[|tabs| - 1];
      AddMissingCovers(acc, init);
      var merged := AddMissing(acc, init);
      Seqs.LastSplit(tabs);
      if !HasId(merged, t.id) {
        var r := merged + [t];
        assert r[|r| - 1].id == t.id;
        forall u | u in tabs
          ensures HasId(r, u.id)
        {
          if u in init {
            var m :| 0 <= m < |merged| && merged[m].id == u.id;
            assert r[m] == merged[m];
          }
        }
      } else {
        forall u | u in tabs
          ensures HasId(merged, u.id)
        {
          if u in init {
          } else {
            assert u == t;
          }
        }
      }
    }
  }

  /** What the merge appends has an id missing from the first list, and it
      never repeats an id that was not repeated already. */
  lemma {:induction false} AddMissingFresh(acc: seq<KittyTab>, tabs: seq<KittyTab>)
    ensures forall k :: |acc| <= k < |AddMissing(acc, tabs)| ==> !HasId(acc, AddMissing(acc, tabs)[k].id)
    ensures DistinctIds(acc) ==> DistinctIds(AddMissing(acc, tabs))
  {
    if tabs != [] {
      var init := tabs[..|tabs| - 1];
      var t := tabs[|tabs| - 1];
      AddMissingFresh(acc, init);
      AddMissingCovers(acc, init);
      var merged := AddMissing(acc, init);
      if !HasId(merged, t.id) {
        var r := merged + [t];
        assert AddMissing(acc, tabs) == r;
        forall m | 0 <= m < |acc|
          ensures acc[m].id != t.id
        {
          assert acc[m] == merged[m];
        }
        forall k | |acc| <= k < |r|
          ensures !HasId(acc, r[k].id)
        {
          if k < |merged| {
            assert r[k] == merged[k];
          }
        }
      } else {
        assert AddMissing(acc, tabs) == merged;
      }
    }
  }

  /** The merge keeps everything already present, adds only tabs of the
      second list whose id was missing, covers every id of the second list,
      and never repeats an id that was not repeated already. */
  lemma AddMissingProperties(acc: seq<KittyTab>, tabs: seq<KittyTab>)
    ensures acc <= AddMissing(acc, tabs)
    ensures forall t :: t in AddMissing(acc, tabs) ==> t in acc || t in tabs
    ensures forall t :: t in tabs ==> HasId(AddMissing(acc, tabs), t.id)
    ensures forall k :: |acc| <= k < |AddMissing(acc, tabs)| ==> !HasId(acc, AddMissing(acc, tabs)[k].id)
    ensures DistinctIds(acc) ==> DistinctIds(AddMissing(acc, tabs))
  {
    AddMissingCovers(acc, tabs);
    AddMissingFresh(acc, tabs);
  }

  // ----- Stable insertion sort by id -----

  /** Inserts t after every tab whose id is not larger (so equal ids keep
      their order). */
  function InsertById(sorted: seq<KittyTab>, t: KittyTab): (r: seq<KittyTab>)
    ensures |r| == |sorted| + 1
  {
    if sorted == [] then [t]
    else if sorted[|sorted| - 1].id <= t.id then sorted + [t]
    else InsertById(sorted[..|sorted| - 1], t) + [sorted[|sorted| - 1]]
  }

  /** `sort_by_key(|t| t.id)`, a stable sort (`SortByIdCorrect`,
      `SortByIdStable`). */
  function SortById(tabs: seq<KittyTab>): (r: seq<KittyTab>)
    ensures |r| == |tabs|
  {
    if tabs == [] then [] else InsertById(SortById(tabs[..|tabs| - 1]), tabs[|tabs| - 1])
  }

  /** A sorted list stays sorted when a tab no smaller than every element
      is appended. */
  lemma AppendAbove(s: seq<KittyTab>, t: KittyTab)
    requires SortedById(s)
    requires forall x :: x in s ==> x.id <= t.id
    ensures SortedById(s + [t])
  {
    var r := s + [t];
    forall i, j | 0 <= i < j < |r|
      ensures r[i].id <= r[j].id
    {
      if j == |s| {
        assert r[i] in s;
      } else {
        assert r[i] == s[i] && r[j] == s[j];
      }
    }
  }

  /** In a sorted list no tab has a larger id than the last one. */
  lemma BoundedByLast(sorted: seq<KittyTab>)
    requires SortedById(sorted) && sorted != []
    ensures forall x :: x in sorted ==> x.id <= sorted[|sorted| - 1].id
  {
    forall x | x in sorted
      ensures x.id <= sorted[|sorted| - 1].id
    {
      var k :| 0 <= k < |sorted| && sorted[k] == x;
      assert k == |sorted| - 1 || sorted[k].id <= sorted[|sorted| - 1].id;
    }
  }

  /** A bound on the ids of a list and of t bounds the list with t added. */
  lemma BoundedAfterInsert(ins: seq<KittyTab>, init: seq<KittyTab>, t: KittyTab, bound: nat)
    requires multiset(ins) == multiset(init) + multiset{t}
    requires forall x :: x in init ==> x.id <= bound
    requires t.id <= bound
    ensures forall x :: x in ins ==> x.id <= bound
  {
    forall x | x in ins
      ensures x.id <= bound
    {
      assert x in multiset(ins);
      assert x in multiset(init) || x == t;
    }
  }

  lemma {:induction false} InsertByIdCorrect(sorted: seq<KittyTab>, t: KittyTab)
    requires SortedById(sorted)
    ensures SortedById(InsertById(sorted, t))
    ensures multiset(InsertById(sorted, t)) == multiset(sorted) + multiset{t}
  {
    if sorted == [] {
    } else {
      var init := sorted[..|sorted| - 1];
      var last := sorted[|sorted| - 1];
      assert sorted == init + [last];
      BoundedByLast(sorted);
      if last.id <= t.id {
        AppendAbove(sorted, t);
      } else {
        InsertByIdCorrect(init, t);
        var ins := InsertById(init, t);
        BoundedAfterInsert(ins, init, t, last.id);
        AppendAbove(ins, last);
      }
    }
  }

  /** Sorting orders by id and neither loses nor adds a tab. */
  lemma {:induction false} SortByIdCorrect(tabs: seq<KittyTab>)
    ensures SortedById(SortById(tabs))
    ensures multiset(SortById(tabs)) == multiset(tabs)
  {
    if tabs != [] {
      var init, last := tabs[..|tabs| - 1], tabs[|tabs| - 1];
      SortByIdCorrect(init);
      var sortedInit := SortById(init);
      assert SortById(tabs) == InsertById(sortedInit, last);
      InsertByIdCorrect(sortedInit, last);
      Seqs.LastSplit(tabs);
    }
  }

  /** The tabs with id k, in list order. */
  function WithId(tabs: seq<KittyTab>, k: nat): seq<KittyTab> {
    if tabs == [] then []
    else WithId(tabs[..|tabs| - 1], k) + (if tabs[|tabs| - 1].id == k then [tabs[|tabs| - 1]] else [])
  }

  lemma WithIdSnoc(tabs: seq<KittyTab>, t: KittyTab, k: nat)
    ensures WithId(tabs + [t], k) == WithId(tabs, k) + (if t.id == k then [t] else [])
  {
    assert (tabs + [t])[..|tabs|] == tabs;
  }

  /** Insertion puts t after every tab with its id. */
  lemma {:induction false} InsertByIdStable(sorted: seq<KittyTab>, t: KittyTab, k: nat)
    ensures WithId(InsertById(sorted, t), k) == WithId(sorted, k) + (if t.id == k then [t] else [])
  {
    if sorted == [] {
      WithIdSnoc([], t, k);
    } else if sorted[|sorted| - 1].id <= t.id {
      WithIdSnoc(sorted, t, k);
    } else {
      var init, last := sorted[..|sorted| - 1], sorted[|sorted| - 1];
      var ins := InsertById(init, t);
      assert InsertById(sorted, t) == ins + [last];
      InsertByIdStable(init, t, k);
      WithIdSnoc(ins, last, k);
      assert WithId(sorted, k) == WithId(init, k) + (if last.id == k then [last] else []);
    }
  }

  /** The sort is stable: the tabs sharing an id keep their input order. */
  lemma {:induction false} SortByIdStable(tabs: seq<KittyTab>, k: nat)
    ensures WithId(SortById(tabs), k) == WithId(tabs, k)
  {
    if tabs != [] {
      var init, last := tabs[..|tabs| - 1], tabs[|tabs| - 1];
      SortByIdStable(init, k);
      InsertByIdStable(SortById(init), last, k);
    }
  }

  /** `get_session_tabs` for an explicit context, given the replies to the
      title query and to the environment query. */
  function ExplicitSessionTabs(titleReply: Result<KittyLsResponse>, envReply: Result<KittyLsResponse>): seq<KittyTab> {
    SortById(AddMissing(ReplyTabs(titleReply), ReplyTabs(envReply)))
  }

  /** The union of the title-matched and env-matched tabs, sorted by id,
      every title match kept, every env-matched id present, no id repeated
      unless the title matches themselves repeat one; a failed query simply
      contributes nothing. */
  lemma ExplicitSessionTabsUnion(titleReply: Result<KittyLsResponse>, envReply: Result<KittyLsResponse>)
    ensures SortedById(ExplicitSessionTabs(titleReply, envReply))
    ensures forall t :: t in ExplicitSessionTabs(titleReply, envReply) <==>
      t in ReplyTabs(titleReply) || t in AddMissing(ReplyTabs(titleReply), ReplyTabs(envReply))
    ensures forall t :: t in ExplicitSessionTabs(titleReply, envReply) ==> t in ReplyTabs(titleReply) || t in ReplyTabs(envReply)
    ensures forall t :: t in ReplyTabs(envReply) ==> HasId(ExplicitSessionTabs(titleReply, envReply), t.id)
    ensures DistinctIds(ReplyTabs(titleReply)) ==> DistinctIds(ExplicitSessionTabs(titleReply, envReply))
  {
    var titleTabs, envTabs := ReplyTabs(titleReply), ReplyTabs(envReply);
    var merged := AddMissing(titleTabs, envTabs);
    AddMissingProperties(titleTabs, envTabs);
    SortByIdCorrect(merged);
    var r := SortById(merged);
    SameMembers(r, merged);
    forall t | t in envTabs
      ensures HasId(r, t.id)
    {
      var m :| 0 <= m < |merged| && merged[m].id == t.id;
      MemberHasId(r, merged[m]);
    }
    if DistinctIds(titleTabs) {
      PermutationDistinct(merged, r);
    }
  }

  lemma SameMembers(a: seq<KittyTab>, b: seq<KittyTab>)
    requires multiset(a) == multiset(b)
    ensures forall t :: t in a <==> t in b
  {
    forall t ensures t in a <==> t in b {
      assert t in a <==> t in multiset(a);
      assert t in b <==> t in multiset(b);
    }
  }

  lemma MemberHasId(tabs: seq<KittyTab>, t: KittyTab)
    requires t in tabs
    ensures HasId(tabs, t.id)
  {
    var k :| 0 <= k < |tabs| && tabs[k] == t;
  }

  lemma PermutationDistinct(merged: seq<KittyTab>, r: seq<KittyTab>)
    requires DistinctIds(merged) && multiset(r) == multiset(merged)
    ensures DistinctIds(r)
  {
    forall i, j | 0 <= i < j < |r|
      ensures r[i].id != r[j].id
    {
      SortedDistinct(merged, r, i, j);
    }
  }

  /** A permutation of a list without repeated ids has none either. */
  lemma SortedDistinct(merged: seq<KittyTab>, r: seq<KittyTab>, i: nat, j: nat)
    requires DistinctIds(merged) && multiset(r) == multiset(merged)
    requires 0 <= i < j < |r|
    ensures r[i].id != r[j].id
  {
    if r[i].id == r[j].id {
      assert r[i] in multiset(merged) && r[j] in multiset(merged);
      var a :| 0 <= a < |merged| && merged[a] == r[i];
      var b :| 0 <= b < |merged| && merged[b] == r[j];
      if a == b {
        // The same tab twice in r means it occurs twice in merged.
        assert multiset(r)[r[i]] >= 2 by {
          assert r == r[..i] + [r[i]] + r[i + 1..j] + [r[j]] + r[j + 1..];
        }
        CountOnce(merged, a);
      }
    }
  }

  /** In a list without repeated ids, each tab occurs once. */
  lemma {:induction false} CountOnce(s: seq<KittyTab>, a: nat)
    requires DistinctIds(s) && a < |s|
    ensures multiset(s)[s[a]] == 1
  {
    if |s| == 1 {
    } else if a == |s| - 1 {
      var init := s[..|s| - 1];
      assert s == init + [s[a]];
      assert s[a] !in init;
    } else {
      var init := s[..|s| - 1];
      assert s == init + [s[|s| - 1]];
      CountOnce(init, a);
      assert s[|s| - 1] != s[a] by { assert s[|s| - 1].id != s[a].id; }
    }
  }

  // ----- The unnamed session -----

  predicate CarriesSessionEnv(t: KittyTab) {
    exists w :: w in t.windows && SessionEnvVar in w.env
  }

  predicate HasSessionTitle(t: KittyTab) {
    SessionTitlePrefix <= t.title
  }

  /** A tab of the unnamed session: no session title and no window carrying
      the session variable. */
  predicate IsUnnamedTab(t: KittyTab) {
    !CarriesSessionEnv(t) && !HasSessionTitle(t)
  }

  /** The unnamed session's tabs, in listing order. */
  function UnnamedTabs(tabs: seq<KittyTab>): seq<KittyTab> {
    if tabs == [] then []
    else
      var t := tabs[|tabs| - 1];
      UnnamedTabs(tabs[..|tabs| - 1]) + (if IsUnnamedTab(t) then [t] else [])
  }

  lemma UnnamedTabsStep(tabs: seq<KittyTab>, t: KittyTab)
    ensures UnnamedTabs(tabs + [t]) == UnnamedTabs(tabs) + (if IsUnnamedTab(t) then [t] else [])
  {
    assert (tabs + [t])[..|tabs|] == tabs;
  }

  /** Exactly the unnamed tabs are kept ... */
  lemma {:induction false} UnnamedTabsMembers(tabs: seq<KittyTab>)
    ensures forall t :: t in UnnamedTabs(tabs) <==> t in tabs && IsUnnamedTab(t)
  {
    if tabs != [] {
      UnnamedTabsMembers(tabs[..|tabs| - 1]);
      assert tabs == tabs[..|tabs| - 1] + [tabs[|tabs| - 1]];
    }
  }

  /** ... and in the order the listing gives them. */
  lemma {:induction false} UnnamedTabsOrder(a: seq<KittyTab>, b: seq<KittyTab>)
    ensures UnnamedTabs(a + b) == UnnamedTabs(a) + UnnamedTabs(b)
  {
    if b == [] {
      assert a + b == a;
    } else {
      var init := b[..|b| - 1];
      var t := b[|b| - 1];
      UnnamedTabsOrder(a, init);
      assert a + b == (a + init) + [t];
      UnnamedTabsStep(a + init, t);
      UnnamedTabsStep(init, t);
      assert b == init + [t];
      var tail := if IsUnnamedTab(t) then [t] else [];
      assert UnnamedTabs(a) + UnnamedTabs(init) + tail == UnnamedTabs(a) + (UnnamedTabs(init) + tail);
    }
  }

  /** `has_session_tabs`: some listed tab has a session title or a window
      carrying the session variable. */
  predicate HasSessionTabs(tabs: seq<KittyTab>) {
    exists k :: 0 <= k < |tabs| && (HasSessionTitle(tabs[k]) || CarriesSessionEnv(tabs[k]))
  }

  /** There are session tabs exactly when the unnamed session does not hold
      every tab. */
  lemma {:induction false} HasSessionTabsIffNotAllUnnamed(tabs: seq<KittyTab>)
    ensures HasSessionTabs(tabs) <==> |UnnamedTabs(tabs)| < |tabs|
  {
    if tabs != [] {
      var init := tabs[..|tabs| - 1];
      var t := tabs[|tabs| - 1];
      HasSessionTabsIffNotAllUnnamed(init);
      UnnamedLength(init);
      if HasSessionTabs(init) {
        var k :| 0 <= k < |init| && (HasSessionTitle(init[k]) || CarriesSessionEnv(init[k]));
        assert tabs[k] == init[k];
      }
      if HasSessionTabs(tabs) && !IsUnnamedTab(t) {
      } else if HasSessionTabs(tabs) {
        var k :| 0 <= k < |tabs| && (HasSessionTitle(tabs[k]) || CarriesSessionEnv(tabs[k]));
        assert k < |init|;
        assert init[k] == tabs[k];
      }
    }
  }

  lemma {:induction false} UnnamedLength(tabs: seq<KittyTab>)
    ensures |UnnamedTabs(tabs)| <= |tabs|
  {
    if tabs != [] {
      UnnamedLength(tabs[..|tabs| - 1]);
    }
  }

  // ----- Looking a tab up by id -----

  /** The first tab with the given id. */
  function FirstWithId(tabs: seq<KittyTab>, id: nat): (r: Option<KittyTab>)
    ensures r.Some? ==> r.value in tabs && r.value.id == id
    ensures r.None? <==> !HasId(tabs, id)
  {
    if tabs == [] then None
    else if tabs[0].id == id then Some(tabs[0])
    else
      var r := FirstWithId(tabs[1..], id);
      assert HasId(tabs, id) <==> HasId(tabs[1..], id) by {
        if HasId(tabs, id) {
          var k :| 0 <= k < |tabs| && tabs[k].id == id;
          assert tabs[1..][k - 1] == tabs[k];
        }
        if HasId(tabs[1..], id) {
          var k :| 0 <= k < |tabs[1..]| && tabs[1..][k].id == id;
          assert tabs[k + 1] == tabs[1..][k];
        }
      }
      r
  }

  lemma {:induction false} FirstWithIdAppend(a: seq<KittyTab>, b: seq<KittyTab>, id: nat)
    ensures FirstWithId(a + b, id) == if FirstWithId(a, id).Some? then FirstWithId(a, id) else FirstWithId(b, id)
  {
    if a == [] {
      assert a + b == b;
    } else {
      assert (a + b)[0] == a[0];
      assert (a + b)[1..] == a[1..] + b;
      FirstWithIdAppend(a[1..], b, id);
    }
  }

  // ----- Classifying tabs into sessions -----

  /** The value of the session variable in the first window that has it. */
  function FirstEnvSession(windows: seq<KittyWindow>): (r: Option<string>)
    ensures r.Some? ==> exists w :: w in windows && SessionEnvVar in w.env && w.env[SessionEnvVar] == r.value
    ensures r.None? ==> forall w :: w in windows ==> SessionEnvVar !in w.env
  {
    if windows == [] then None
    else if SessionEnvVar in windows[0].env then Some(windows[0].env[SessionEnvVar])
    else FirstEnvSession(windows[1..])
  }

  /** The session a tab belongs to: the one its title names, when the title
      has the session prefix and parses; otherwise the first window's session
      variable; otherwise none (the unnamed session). */
  function Classify(t: KittyTab, parseTitle: string -> Option<string>): Option<string> {
    if HasSessionTitle(t) && parseTitle(t.title).Some? then parseTitle(t.title)
    else FirstEnvSession(t.windows)
  }

  /** The session `focus_tab_with_tracking` records a focused tab under:
      that of the first listed tab with the id, if there is one. */
  function TrackedSession(windows: seq<KittyOsWindow>, tabId: nat, parseTitle: string -> Option<string>): Option<string> {
    match FirstWithId(AllTabs(windows), tabId)
    case None => None
    case Some(t) => Classify(t, parseTitle)
  }

  /** A recorded session is the session of a listed tab with that id. */
  lemma TrackedSessionOfListedTab(windows: seq<KittyOsWindow>, tabId: nat, parseTitle: string -> Option<string>)
    ensures TrackedSession(windows, tabId, parseTitle).Some? ==>
      exists t :: t in AllTabs(windows) && t.id == tabId && Classify(t, parseTitle) == TrackedSession(windows, tabId, parseTitle)
    ensures !HasId(AllTabs(windows), tabId) ==> TrackedSession(windows, tabId, parseTitle).None?
  {
  }

  /** How many tabs belong to the named session. */
  function NamedCount(tabs: seq<KittyTab>, parseTitle: string -> Option<string>, name: string): nat {
    if tabs == [] then 0
    else NamedCount(tabs[..|tabs| - 1], parseTitle, name)
         + (if Classify(tabs[|tabs| - 1], parseTitle) == Some(name) then 1 else 0)
  }

  /** How many tabs belong to no session. */
  function UnnamedCount(tabs: seq<KittyTab>, parseTitle: string -> Option<string>): nat {
    if tabs == [] then 0
    else UnnamedCount(tabs[..|tabs| - 1], parseTitle)
         + (if Classify(tabs[|tabs| - 1], parseTitle).None? then 1 else 0)
  }

  lemma CountsStep(tabs: seq<KittyTab>, t: KittyTab, parseTitle: string -> Option<string>)
    ensures forall name :: (NamedCount(tabs + [t], parseTitle, name)
      == NamedCount(tabs, parseTitle, name) + (if Classify(t, parseTitle) == Some(name) then 1 else 0))
    ensures UnnamedCount(tabs + [t], parseTitle)
      == UnnamedCount(tabs, parseTitle) + (if Classify(t, parseTitle).None? then 1 else 0)
  {
    assert (tabs + [t])[..|tabs|] == tabs;
  }

  /** The tabs whose session is in names. */
  function CountIn(tabs: seq<KittyTab>, parseTitle: string -> Option<string>, names: seq<string>): nat {
    if tabs == [] then 0
    else
      var c := Classify(tabs[|tabs| - 1], parseTitle);
      CountIn(tabs[..|tabs| - 1], parseTitle, names) + (if c.Some? && c.value in names then 1 else 0)
  }

  /** The counts listed for sessions. */
  function SumCounts(entries: seq<(string, nat)>): nat {
    if entries == [] then 0 else entries[0].1 + SumCounts(entries[1..])
  }

  function Names(entries: seq<(string, nat)>): (names: seq<string>)
    ensures |names| == |entries|
    ensures forall k :: 0 <= k < |entries| ==> names[k] == entries[k].0
  {
    if entries == [] then [] else [entries[0].0] + Names(entries[1..])
  }

  predicate DistinctNames(entries: seq<(string, nat)>) {
    forall i, j :: 0 <= i < j < |entries| ==> entries[i].0 != entries[j].0
  }

  /** A list of distinct sessions, each with its tab count, accounts for
      exactly the tabs of those sessions. */
  lemma {:induction false} SumCountsIsCountIn(tabs: seq<KittyTab>, parseTitle: string -> Option<string>, entries: seq<(string, nat)>)
    requires DistinctNames(entries)
    requires forall k :: 0 <= k < |entries| ==> entries[k].1 == NamedCount(tabs, parseTitle, entries[k].0)
    ensures SumCounts(entries) == CountIn(tabs, parseTitle, Names(entries))
    decreases |entries|
  {
    if entries == [] {
      CountInNone(tabs, parseTitle);
    } else {
      var rest := entries[1..];
      SumCountsIsCountIn(tabs, parseTitle, rest);
      CountInSplit(tabs, parseTitle, entries[0].0, Names(rest));
      assert Names(entries) == [entries[0].0] + Names(rest);
    }
  }

  lemma {:induction false} CountInNone(tabs: seq<KittyTab>, parseTitle: string -> Option<string>)
    ensures CountIn(tabs, parseTitle, []) == 0
  {
    if tabs != [] {
      CountInNone(tabs[..|tabs| - 1], parseTitle);
    }
  }

  lemma {:induction false} CountInSplit(tabs: seq<KittyTab>, parseTitle: string -> Option<string>, name: string, names: seq<string>)
    requires name !in names
    ensures CountIn(tabs, parseTitle, [name] + names) == NamedCount(tabs, parseTitle, name) + CountIn(tabs, parseTitle, names)
  {
    if tabs != [] {
      CountInSplit(tabs[..|tabs| - 1], parseTitle, name, names);
    }
  }

  /** Every tab is counted once: under its session, or as unnamed. */
  lemma {:induction false} CountsCoverTabs(tabs: seq<KittyTab>, parseTitle: string -> Option<string>, names: seq<string>)
    requires forall k :: 0 <= k < |tabs| && Classify(tabs[k], parseTitle).Some? ==> Classify(tabs[k], parseTitle).value in names
    ensures CountIn(tabs, parseTitle, names) + UnnamedCount(tabs, parseTitle) == |tabs|
  {
    if tabs != [] {
      var init := tabs[..|tabs| - 1];
      forall k | 0 <= k < |init| && Classify(init[k], parseTitle).Some?
        ensures Classify(init[k], parseTitle).value in names
      {
        assert init[k] == tabs[k];
      }
      CountsCoverTabs(init, parseTitle, names);
    }
  }

  /** A tab has a named session exactly when its count under that name is
      positive. */
  lemma NamedCountPositive(tabs: seq<KittyTab>, parseTitle: string -> Option<string>, name: string)
    ensures NamedCount(tabs, parseTitle, name) > 0 <==> exists k :: 0 <= k < |tabs| && Classify(tabs[k], parseTitle) == Some(name)
  {
    if exists k :: 0 <= k < |tabs| && Classify(tabs[k], parseTitle) == Some(name) {
      var k :| 0 <= k < |tabs| && Classify(tabs[k], parseTitle) == Some(name);
      NamedCountCounts(tabs, parseTitle, name, k);
    }
    if NamedCount(tabs, parseTitle, name) > 0 {
      var k := NamedCountFind(tabs, parseTitle, name);
    }
  }

  /** A tab of the session is counted. */
  lemma {:induction false} NamedCountCounts(tabs: seq<KittyTab>, parseTitle: string -> Option<string>, name: string, k: nat)
    requires k < |tabs| && Classify(tabs[k], parseTitle) == Some(name)
    ensures NamedCount(tabs, parseTitle, name) > 0
  {
    var init := tabs[..|tabs| - 1];
    if k < |init| {
      assert init[k] == tabs[k];
      NamedCountCounts(init, parseTitle, name, k);
    }
  }

  /** A positive count comes from a tab of the session. */
  lemma {:induction false} NamedCountFind(tabs: seq<KittyTab>, parseTitle: string -> Option<string>, name: string) returns (k: nat)
    requires NamedCount(tabs, parseTitle, name) > 0
    ensures k < |tabs| && Classify(tabs[k], parseTitle) == Some(name)
  {
    var init := tabs[..|tabs| - 1];
    if Classify(tabs[|init|], parseTitle) == Some(name) {
      k := |init|;
    } else {
      k := NamedCountFind(init, parseTitle, name);
      assert init[k] == tabs[k];
    }
  }

}
