/** The three forms of kitty's `--match` expression the program writes
    ("env:NAME=VALUE", "title:PATTERN", "id:N"), and a reference reader for
    just those three forms: the field before the first ':' picks the form,
    and an env query splits at the first '='.  kitty's own syntax also has
    `and`, `or`, `not` and parentheses, and treats title and env values as
    regular expressions; none of that is modelled, so a name containing
    such words or regular-expression characters is read here literally.
    The command builders are checked against this reader. */
module MatchQuery {
  import opened Wrappers
  import opened Strings

  datatype Query = EnvQuery(name: string, value: string) | TitleQuery(pattern: string) | IdQuery(id: nat)

  /** Position of the first occurrence of c in s. */
  function IndexOf(s: string, c: char): (r: Option<nat>)
    ensures r.Some? ==> r.value < |s| && s[r.value] == c && c !in s[..r.value]
    ensures r.None? ==> c !in s
  {
    if s == [] then None
    else if s[0] == c then Some(0)
    else match IndexOf(s[1..], c)
      case Some(i) => Some(i + 1)
      case None => None
  }

  predicate AllDigits(s: string) {
    forall k :: 0 <= k < |s| ==> '0' <= s[k] <= '9'
  }

  function ReadEnv(s: string): Option<Query> {
    match IndexOf(s, '=')
    case Some(i) => Some(EnvQuery(s[..i], s[i + 1..]))
    case None => None
  }

  /** The reference reading of a `--match` expression of one of the three forms. */
  function Read(s: string): Option<Query> {
    if "env:" <= s then ReadEnv(s[4..])
    else if "title:" <= s then Some(TitleQuery(s[6..]))
    else if "id:" <= s && |s| > 3 && AllDigits(s[3..]) then Some(IdQuery(DigitsValue(s[3..])))
    else None
  }

  /** "NAME=VALUE" splits back into NAME and VALUE when NAME has no '='
      (which environment variable names never have). */
  lemma {:induction false} ReadEnvAssignment(name: string, value: string)
    requires '=' !in name
    ensures IndexOf(name + "=" + value, '=') == Some(|name|)
    ensures ReadEnv(name + "=" + value) == Some(EnvQuery(name, value))
  {
    var s := name + "=" + value;
    if name != [] {
      assert s[1..] == name[1..] + "=" + value;
      ReadEnvAssignment(name[1..], value);
    }
    assert s[..|name|] == name && s[|name| + 1..] == value;
  }

  lemma ReadEnvQuery(name: string, value: string)
    requires '=' !in name
    ensures Read("env:" + name + "=" + value) == Some(EnvQuery(name, value))
  {
    var s := "env:" + name + "=" + value;
    assert "env:" <= s;
    assert s[4..] == name + "=" + value;
    ReadEnvAssignment(name, value);
  }

  lemma ReadTitleQuery(pattern: string)
    ensures Read("title:" + pattern) == Some(TitleQuery(pattern))
  {
    var s := "title:" + pattern;
    assert !("env:" <= s) by { assert s[0] == 't'; }
    assert s[6..] == pattern;
  }

  lemma ReadIdQuery(id: nat)
    ensures Read("id:" + NatToString(id)) == Some(IdQuery(id))
  {
    var s := "id:" + NatToString(id);
    assert !("env:" <= s) by { assert s[0] == 'i'; }
    assert !("title:" <= s) by { assert s[0] == 'i'; }
    assert s[3..] == NatToString(id);
    NatToStringRoundTrip(id);
  }
}
