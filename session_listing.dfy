/** The session list: every session with its tab count, named sessions
    sorted by name, the unnamed session last; and the cycling order over it. */
module SessionListing {
  import opened Wrappers
  import opened Session
  import opened SessionTabs
  import KittyTypes
  import Strings

  type Entry = (string, nat)

  predicate StrictlySortedNames(entries: seq<Entry>) {
    forall i, j :: 0 <= i < j < |entries| ==> Strings.Less(entries[i].0, entries[j].0)
  }

  /** The named part of a listing: all but the trailing unnamed entry, when
      there is one. */
  function NamedPart(sessions: seq<Entry>, tabs: seq<KittyTypes.KittyTab>, parseTitle: string -> Option<string>): seq<Entry> {
    if UnnamedCount(tabs, parseTitle) > 0 && |sessions| > 0 then sessions[..|sessions| - 1] else sessions
  }

  /** sessions is what `list_sessions` reports for tabs: one entry per named
      session, with its tab count, in strictly ascending name order; then
      ("unnamed", n) when n > 0 tabs belong to no session. */
  ghost predicate IsListing(sessions: seq<Entry>, tabs: seq<KittyTypes.KittyTab>, parseTitle: string -> Option<string>) {
    var named := NamedPart(sessions, tabs, parseTitle);
    (UnnamedCount(tabs, parseTitle) > 0 ==>
      |sessions| > 0 && sessions[|sessions| - 1] == (UnnamedSession, UnnamedCount(tabs, parseTitle)))
    && StrictlySortedNames(named)
    && (forall k :: 0 <= k < |named| ==> named[k].1 == NamedCount(tabs, parseTitle, named[k].0) && named[k].1 > 0)
    && (forall name :: NamedCount(tabs, parseTitle, name) > 0 ==> name in Names(named))
  }

  lemma SumCountsSnoc(entries: seq<Entry>, e: Entry)
    ensures SumCounts(entries + [e]) == SumCounts(entries) + e.1
  {
    if entries != [] {
      assert (entries + [e])[1..] == entries[1..] + [e];
      SumCountsSnoc(entries[1..], e);
    }
  }

  lemma StrictlySortedDistinct(entries: seq<Entry>)
    requires StrictlySortedNames(entries)
    ensures DistinctNames(entries)
  {
    forall i, j | 0 <= i < j < |entries|
      ensures entries[i].0 != entries[j].0
    {
      Strings.LessIrreflexive(entries[i].0);
    }
  }

  /** Every tab that belongs to a named session names an entry of the
      listing. */
  lemma ClassifiedTabsListed(sessions: seq<Entry>, tabs: seq<KittyTypes.KittyTab>, parseTitle: string -> Option<string>)
    requires IsListing(sessions, tabs, parseTitle)
    ensures forall k :: 0 <= k < |tabs| && Classify(tabs[k], parseTitle).Some? ==>
      Classify(tabs[k], parseTitle).value in Names(NamedPart(sessions, tabs, parseTitle))
  {
    forall k | 0 <= k < |tabs| && Classify(tabs[k], parseTitle).Some?
      ensures Classify(tabs[k], parseTitle).value in Names(NamedPart(sessions, tabs, parseTitle))
    {
      NamedCountPositive(tabs, parseTitle, Classify(tabs[k], parseTitle).value);
    }
  }

  /** The named entries' counts add up to the tabs of named sessions. */
  lemma NamedCountsSum(sessions: seq<Entry>, tabs: seq<KittyTypes.KittyTab>, parseTitle: string -> Option<string>)
    requires IsListing(sessions, tabs, parseTitle)
    ensures SumCounts(NamedPart(sessions, tabs, parseTitle)) + UnnamedCount(tabs, parseTitle) == |tabs|
  {
    var named := NamedPart(sessions, tabs, parseTitle);
    StrictlySortedDistinct(named);
    SumCountsIsCountIn(tabs, parseTitle, named);
    ClassifiedTabsListed(sessions, tabs, parseTitle);
    CountsCoverTabs(tabs, parseTitle, Names(named));
  }

  /** Every tab is counted exactly once: the counts of a listing add up to
      the number of tabs. */
  lemma ListingCountsSum(sessions: seq<Entry>, tabs: seq<KittyTypes.KittyTab>, parseTitle: string -> Option<string>)
    requires IsListing(sessions, tabs, parseTitle)
    ensures SumCounts(sessions) == |tabs|
  {
    NamedCountsSum(sessions, tabs, parseTitle);
    UnnamedEntrySum(sessions, tabs, parseTitle);
  }

  /** The trailing unnamed entry, when there is one, adds the unnamed count. */
  lemma UnnamedEntrySum(sessions: seq<Entry>, tabs: seq<KittyTypes.KittyTab>, parseTitle: string -> Option<string>)
    requires UnnamedCount(tabs, parseTitle) > 0 ==>
      |sessions| > 0 && sessions[|sessions| - 1].1 == UnnamedCount(tabs, parseTitle)
    ensures SumCounts(sessions) == SumCounts(NamedPart(sessions, tabs, parseTitle)) + UnnamedCount(tabs, parseTitle)
  {
    if UnnamedCount(tabs, parseTitle) > 0 {
      var named := NamedPart(sessions, tabs, parseTitle);
      assert sessions == named + [sessions[|sessions| - 1]];
      SumCountsSnoc(named, sessions[|sessions| - 1]);
    }
  }

  /** Two strictly name-sorted lists with the same entries are equal. */
  lemma {:induction false} SortedSameEntriesEqual(a: seq<Entry>, b: seq<Entry>)
    requires StrictlySortedNames(a) && StrictlySortedNames(b)
    requires forall x :: x in a <==> x in b
    ensures a == b
    decreases |a|
  {
    assert a != [] ==> a[0] in b;
    assert b != [] ==> b[0] in a;
    if a != [] && b != [] {
      assert a[0] in b && b[0] in a;
      var i :| 0 <= i < |a| && a[i] == b[0];
      var j :| 0 <= j < |b| && b[j] == a[0];
      assert i == 0 || Strings.Less(a[0].0, b[0].0);
      assert j == 0 || Strings.Less(b[0].0, a[0].0);
      Strings.LessAsymmetric(a[0].0, b[0].0);
      assert a[0] == b[0];
      forall x
        ensures x in a[1..] <==> x in b[1..]
      {
        Strings.LessIrreflexive(x.0);
        if x in a[1..] {
          var m :| 0 <= m < |a[1..]| && a[1..][m] == x;
          assert Strings.Less(a[0].0, x.0);
          assert x in b;
          var p :| 0 <= p < |b| && b[p] == x;
          assert p != 0;
          assert b[1..][p - 1] == x;
        }
        if x in b[1..] {
          var m :| 0 <= m < |b[1..]| && b[1..][m] == x;
          assert Strings.Less(b[0].0, x.0);
          assert x in a;
          var p :| 0 <= p < |a| && a[p] == x;
          assert p != 0;
          assert a[1..][p - 1] == x;
        }
      }
      SortedSameEntriesEqual(a[1..], b[1..]);
      assert a == [a[0]] + a[1..] && b == [b[0]] + b[1..];
    }
  }

  /** The named entries of a listing are exactly the sessions with tabs,
      each with its count. */
  lemma ListingEntry(sessions: seq<Entry>, tabs: seq<KittyTypes.KittyTab>, parseTitle: string -> Option<string>, x: Entry)
    requires IsListing(sessions, tabs, parseTitle)
    ensures x in NamedPart(sessions, tabs, parseTitle) <==>
      NamedCount(tabs, parseTitle, x.0) > 0 && x.1 == NamedCount(tabs, parseTitle, x.0)
  {
    var named := NamedPart(sessions, tabs, parseTitle);
    if NamedCount(tabs, parseTitle, x.0) > 0 && x.1 == NamedCount(tabs, parseTitle, x.0) {
      assert x.0 in Names(named);
      var m :| 0 <= m < |named| && Names(named)[m] == x.0;
      assert named[m] == x;
    }
  }

  /** The listing is determined by the tabs: there is only one. */
  lemma ListingUnique(s1: seq<Entry>, s2: seq<Entry>, tabs: seq<KittyTypes.KittyTab>, parseTitle: string -> Option<string>)
    requires IsListing(s1, tabs, parseTitle) && IsListing(s2, tabs, parseTitle)
    ensures s1 == s2
  {
    var n1, n2 := NamedPart(s1, tabs, parseTitle), NamedPart(s2, tabs, parseTitle);
    forall x
      ensures x in n1 <==> x in n2
    {
      ListingEntry(s1, tabs, parseTitle, x);
      ListingEntry(s2, tabs, parseTitle, x);
    }
    SortedSameEntriesEqual(n1, n2);
    if UnnamedCount(tabs, parseTitle) > 0 {
      assert s1 == n1 + [s1[|s1| - 1]] && s2 == n2 + [s2[|s2| - 1]];
    }
  }

  /** The first position of a session name in the list. */
  function Position(sessions: seq<Entry>, name: string): (r: Option<nat>)
    ensures r.Some? ==> r.value < |sessions| && sessions[r.value].0 == name
    ensures r.Some? ==> forall k :: 0 <= k < r.value ==> sessions[k].0 != name
    ensures r.None? ==> forall k :: 0 <= k < |sessions| ==> sessions[k].0 != name
  {
    if sessions == [] then None
    else if sessions[0].0 == name then Some(0)
    else match Position(sessions[1..], name)
      case Some(p) => Some(p + 1)
      case None => None
  }

  /** `next_session`: the one after the current session, cycling; the first
      when the current session is not listed. */
  function NextSessionIndex(sessions: seq<Entry>, current: string): (i: nat)
    requires |sessions| > 1
    ensures i < |sessions|
  {
    match Position(sessions, current)
    case Some(p) => (p + 1) % |sessions|
    case None => 0
  }

  /** `prev_session`: the one before the current session, cycling; the last
      when the current session is not listed. */
  function PrevSessionIndex(sessions: seq<Entry>, current: string): (i: nat)
    requires |sessions| > 1
    ensures i < |sessions|
  {
    match Position(sessions, current)
    case Some(p) => if p == 0 then |sessions| - 1 else p - 1
    case None => |sessions| - 1
  }

  /** With distinct names, stepping back undoes stepping forward ... */
  lemma NextThenPrev(sessions: seq<Entry>, k: nat)
    requires |sessions| > 1 && k < |sessions| && DistinctNames(sessions)
    ensures PrevSessionIndex(sessions, sessions[NextSessionIndex(sessions, sessions[k].0)].0) == k
  {
    PositionOfDistinct(sessions, k);
    SuccMod(k, |sessions|);
    var next := NextSessionIndex(sessions, sessions[k].0);
    assert next == if k + 1 == |sessions| then 0 else k + 1;
    PositionOfDistinct(sessions, next);
  }

  /** ... and stepping forward undoes stepping back. */
  lemma PrevThenNext(sessions: seq<Entry>, k: nat)
    requires |sessions| > 1 && k < |sessions| && DistinctNames(sessions)
    ensures NextSessionIndex(sessions, sessions[PrevSessionIndex(sessions, sessions[k].0)].0) == k
  {
    PositionOfDistinct(sessions, k);
    var prev := PrevSessionIndex(sessions, sessions[k].0);
    assert prev == if k == 0 then |sessions| - 1 else k - 1;
    PositionOfDistinct(sessions, prev);
    SuccMod(prev, |sessions|);
  }

  lemma SuccMod(p: nat, n: nat)
    requires p < n
    ensures (p + 1) % n == if p + 1 == n then 0 else p + 1
  {
  }

  lemma PositionOfDistinct(sessions: seq<Entry>, k: nat)
    requires k < |sessions| && DistinctNames(sessions)
    ensures Position(sessions, sessions[k].0) == Some(k)
  {
  }

  /** Moving always lands on a different entry when the current session is
      listed, and on an end of the list when it is not. */
  lemma CyclingMoves(sessions: seq<Entry>, current: string)
    requires |sessions| > 1
    ensures Position(sessions, current).Some? ==>
      NextSessionIndex(sessions, current) != Position(sessions, current).value &&
      PrevSessionIndex(sessions, current) != Position(sessions, current).value
    ensures Position(sessions, current).None? ==>
      NextSessionIndex(sessions, current) == 0 && PrevSessionIndex(sessions, current) == |sessions| - 1
  {
  }
}
