/** Small pure helpers of the command-line tool: tilde expansion, the
    "name (path)" selection line and its parser, and session tab titles.
    The older top-level copy of the tool has the same three selection-line
    helpers with the same logic; these members model both. */
module Utils {
  import opened Wrappers

  /** Reads HOME from the environment, empty when unset. */
  function Home(env: map<string, string>): string {
    if "HOME" in env then env["HOME"] else ""
  }

  /** A path starting with "~/" has its leading '~' replaced by HOME;
      every other path is returned unchanged. */
  function ExpandTilde(path: string, env: map<string, string>): (r: string)
    ensures "~/" <= path ==> r == Home(env) + path[1..]
    ensures !("~/" <= path) ==> r == path
  {
    if "~/" <= path then Home(env) + path[1..] else path
  }

  /** `format!("{} ({})", name, path)`. */
  function FormatProjectForSelection(name: string, path: string): string {
    name + " (" + path + ")"
  }

  const InvalidSelectionPrefix := "Invalid project selection format: "

  /** Scans backwards from position i (the characters before it) with the
      running parenthesis count, and yields the position of the space
      before the '(' that brings the count to zero, when that '(' is
      preceded by a space. */
  function Scan(s: string, i: nat, count: int): (r: Option<nat>)
    requires i <= |s|
    ensures r.Some? ==> r.value + 2 <= i && s[r.value] == ' ' && s[r.value + 1] == '('
    decreases i
  {
    if i == 0 then None
    else if s[i - 1] == ')' then Scan(s, i - 1, count + 1)
    else if s[i - 1] == '(' then
      if count - 1 == 0 && i - 1 > 0 && s[i - 2] == ' ' then Some(i - 2)
      else Scan(s, i - 1, count - 1)
    else Scan(s, i - 1, count)
  }

  /** What `parse_project_selection` returns. */
  function ParseSpec(s: string): Result<(string, string)> {
    if |s| == 0 || s[|s| - 1] != ')' then Err(InvalidSelectionPrefix + s)
    else match Scan(s, |s|, 0)
      case Some(p) =>
        // The final ')' is seen first, so the matching '(' lies before it.
        assert p + 2 <= |s| - 1 by { ScanPastClose(s); }
        Ok((s[..p], s[p + 2..|s| - 1]))
      case None => Err(InvalidSelectionPrefix + s)
  }

  /** The first character scanned is the final ')', so a match is found
      strictly before it. */
  lemma ScanPastClose(s: string)
    requires |s| > 0 && s[|s| - 1] == ')'
    ensures Scan(s, |s|, 0).Some? ==> Scan(s, |s|, 0).value + 2 <= |s| - 1
  {
    assert Scan(s, |s|, 0) == Scan(s, |s| - 1, 1);
  }

  /** The parser, scanning from the end with a counter as the source does. */
  method ParseProjectSelection(s: string) returns (r: Result<(string, string)>)
    ensures r == ParseSpec(s)
  {
    if |s| == 0 || s[|s| - 1] != ')' {
      return Err(InvalidSelectionPrefix + s);
    }
    var count := 0;
    var start: Option<nat> := None;
    var i := |s|;
    while i > 0
      invariant 0 <= i <= |s|
      invariant start.None? ==> Scan(s, |s|, 0) == Scan(s, i, count)
      invariant start.Some? ==> Scan(s, |s|, 0) == start
      decreases i, if start.None? then 1 else 0
    {
      var c := s[i - 1];
      if c == ')' {
        count := count + 1;
      } else if c == '(' {
        count := count - 1;
        if count == 0 && i - 1 > 0 && s[i - 2] == ' ' {
          start := Some(i - 2);
          break;
        }
      }
      i := i - 1;
    }
    match start {
      case Some(p) =>
        ScanPastClose(s);
        r := Ok((s[..p], s[p + 2..|s| - 1]));
      case None =>
        r := Err(InvalidSelectionPrefix + s);
    }
  }

  /** Every successful parse splits the text back into its format: the
      name, " (", the path and the final ')'. */
  lemma ParseIsFormatInverse(s: string)
    requires ParseSpec(s).Ok?
    ensures FormatProjectForSelection(ParseSpec(s).value.0, ParseSpec(s).value.1) == s
  {
    var p := Scan(s, |s|, 0).value;
    ScanPastClose(s);
    assert s == s[..p] + " (" + s[p + 2..|s| - 1] + ")";
  }

  /** Text that does not end with ')' is rejected with the text in the
      message. */
  lemma ParseRejectsUnclosed(s: string)
    requires |s| == 0 || s[|s| - 1] != ')'
    ensures ParseSpec(s) == Err(InvalidSelectionPrefix + s)
  {
  }

  /** #')' minus #'(' in t. */
  function Depth(t: string): int {
    if t == [] then 0
    else Depth(t[..|t| - 1]) + (if t[|t| - 1] == ')' then 1 else if t[|t| - 1] == '(' then -1 else 0)
  }

  /** Parentheses in t are well nested: as many of each, and read from the
      end no '(' is ever unmatched. */
  predicate WellNested(t: string) {
    Depth(t) == 0 && forall k :: 0 <= k <= |t| ==> Depth(t[k..]) >= 0
  }

  /** The depth of s[k..i]. */
  function Span(s: string, k: nat, i: nat): int
    requires k <= i <= |s|
  {
    Depth(s[k..i])
  }

  lemma SpanBack(s: string, k: nat, i: nat)
    requires k < i <= |s|
    ensures Span(s, k, i) == Span(s, k, i - 1) + (if s[i - 1] == ')' then 1 else if s[i - 1] == '(' then -1 else 0)
  {
    assert s[k..i][..|s[k..i]| - 1] == s[k..i - 1];
  }

  /** Scanning back over a stretch that never brings the count down to zero
      reaches its start with the stretch's depth added to the count. */
  lemma {:induction false} ScanOver(s: string, j: nat, i: nat, count: int)
    requires j <= i <= |s|
    requires forall k :: j <= k < i ==> count + Span(s, k, i) >= 1
    ensures Scan(s, i, count) == Scan(s, j, count + Span(s, j, i))
    decreases i - j
  {
    if i > j {
      var c := s[i - 1];
      var delta := if c == ')' then 1 else if c == '(' then -1 else 0;
      SpanBack(s, i - 1, i);
      assert Span(s, i - 1, i - 1) == 0 by { assert s[i - 1..i - 1] == []; }
      ScanStep(s, i, count, delta);
      var prev := i - 1;
      forall k | j <= k < prev
        ensures count + delta + Span(s, k, prev) >= 1
      {
        SpanBack(s, k, i);
      }
      ScanOver(s, j, i - 1, count + delta);
      SpanBack(s, j, i);
    } else {
      assert s[j..i] == [];
    }
  }

  lemma ScanStep(s: string, i: nat, count: int, delta: int)
    requires 0 < i <= |s|
    requires delta == if s[i - 1] == ')' then 1 else if s[i - 1] == '(' then -1 else 0
    requires count + delta >= 1
    ensures Scan(s, i, count) == Scan(s, i - 1, count + delta)
  {
  }

  /** Format then parse gives the pair back when the path's parentheses are
      well nested (the name may be anything). */
  lemma FormatParseRoundTrip(name: string, path: string)
    requires WellNested(path)
    ensures ParseSpec(FormatProjectForSelection(name, path)) == Ok((name, path))
  {
    var s := FormatProjectForSelection(name, path);
    var n := |name|;
    assert s[|s| - 1] == ')';
    assert Scan(s, |s|, 0) == Scan(s, |s| - 1, 1);
    assert s[n + 2..|s| - 1] == path;
    var close := |s| - 1;
    forall k | n + 2 <= k < close
      ensures 1 + Span(s, k, close) >= 1
    {
      assert s[k..close] == path[k - (n + 2)..];
    }
    ScanOver(s, n + 2, |s| - 1, 1);
    assert s[n + 1] == '(' && s[n] == ' ';
    assert Scan(s, n + 2, 1) == Some(n);
    assert s[..n] == name;
  }

  /** The title given to a tab created for a session: a folder emoji, a
      space, then the project name. */
  function FormatSessionTabTitle(projectName: string): (r: string)
    ensures |r| == |projectName| + 2 && r[..2] == "\U{1F4C1} " && r[2..] == projectName
  {
    "\U{1F4C1} " + projectName
  }

  datatype NavigationDirection = Next | Previous

  function ActionName(d: NavigationDirection): (r: string)
    ensures d.Next? <==> r == "next"
    ensures d.Previous? <==> r == "previous"
  {
    match d
    case Next => "next"
    case Previous => "previous"
  }
}
