/** Choosing a profile automatically: the first rule that matches the host
    wins.  The host name (absent when it cannot be read), the environment
    and regular-expression matching are inputs; `regexMatch(pattern, text)`
    is `Err` when the pattern does not compile. */
module AutoProfile {
  import opened Wrappers
  import opened ConfigTypes

  /** Whether the process runs over SSH. */
  predicate IsSsh(env: map<string, string>) {
    "SSH_CLIENT" in env || "SSH_TTY" in env
  }

  /** Some expected variable of the rule has its expected value. */
  predicate EnvMatches(expected: map<string, string>, env: map<string, string>) {
    exists key :: key in expected && key in env && env[key] == expected[key]
  }

  /** `rule_matches`: any configured condition holding is enough; they are
      tried in order, and a host-name pattern that does not compile is an
      error before the others are tried (when the host name is known). */
  function RuleMatches(rule: AutoProfileRule, hostname: Option<string>, env: map<string, string>,
                       regexMatch: (string, string) -> Result<bool>): (r: Result<bool>)
    ensures r.Err? <==> rule.hostnameRegex.Some? && hostname.Some? &&
                        regexMatch(rule.hostnameRegex.value, hostname.value).Err?
    ensures r.Err? ==> r.error == regexMatch(rule.hostnameRegex.value, hostname.value).error
    ensures r == Ok(true) <==>
      (rule.hostnameRegex.Some? && hostname.Some? && regexMatch(rule.hostnameRegex.value, hostname.value) == Ok(true)) ||
      (!(rule.hostnameRegex.Some? && hostname.Some? && regexMatch(rule.hostnameRegex.value, hostname.value).Err?) &&
       ((rule.env.Some? && EnvMatches(rule.env.value, env)) ||
        (rule.sshSession.Some? && rule.sshSession.value == IsSsh(env)) ||
        rule.isDefault == Some(true)))
  {
    if rule.hostnameRegex.Some? && hostname.Some? && regexMatch(rule.hostnameRegex.value, hostname.value).Err? then
      Err(regexMatch(rule.hostnameRegex.value, hostname.value).error)
    else if rule.hostnameRegex.Some? && hostname.Some? && regexMatch(rule.hostnameRegex.value, hostname.value).value then
      Ok(true)
    else if rule.env.Some? && EnvMatches(rule.env.value, env) then Ok(true)
    else if rule.sshSession.Some? && rule.sshSession.value == IsSsh(env) then Ok(true)
    else Ok(rule.isDefault.GetOr(false))
  }

  /** `select_auto_profile`: the profile of the first matching rule; an
      error from a rule stops the search. */
  function SelectAutoProfile(rules: seq<AutoProfileRule>, hostname: Option<string>, env: map<string, string>,
                             regexMatch: (string, string) -> Result<bool>): Result<Option<string>>
  {
    if rules == [] then Ok(None)
    else
      var first := RuleMatches(rules[0], hostname, env, regexMatch);
      if first.Err? then Err(first.error)
      else if first.value then Ok(Some(rules[0].profile))
      else SelectAutoProfile(rules[1..], hostname, env, regexMatch)
  }

  /** The result is decided by the first rule that does not answer "no":
      it names that rule's profile, or is that rule's error; when every
      rule answers "no" there is no profile. */
  lemma {:induction false} SelectAutoProfileFirstMatch(rules: seq<AutoProfileRule>, hostname: Option<string>,
                                                       env: map<string, string>, regexMatch: (string, string) -> Result<bool>)
    ensures var r := SelectAutoProfile(rules, hostname, env, regexMatch);
      (r == Ok(None) <==> forall i :: 0 <= i < |rules| ==> RuleMatches(rules[i], hostname, env, regexMatch) == Ok(false))
    ensures var r := SelectAutoProfile(rules, hostname, env, regexMatch);
      r != Ok(None) ==> exists i :: (0 <= i < |rules| &&
        (forall j :: 0 <= j < i ==> RuleMatches(rules[j], hostname, env, regexMatch) == Ok(false)) &&
        RuleMatches(rules[i], hostname, env, regexMatch) != Ok(false) &&
        r == (if RuleMatches(rules[i], hostname, env, regexMatch).Err?
              then Err(RuleMatches(rules[i], hostname, env, regexMatch).error)
              else Ok(Some(rules[i].profile))))
  {
    if rules != [] {
      var rest := rules[1..];
      SelectAutoProfileFirstMatch(rest, hostname, env, regexMatch);
      var first := RuleMatches(rules[0], hostname, env, regexMatch);
      forall i | 1 <= i < |rules|
        ensures RuleMatches(rules[i], hostname, env, regexMatch) == RuleMatches(rest[i - 1], hostname, env, regexMatch)
      {
      }
      if first == Ok(false) && SelectAutoProfile(rest, hostname, env, regexMatch) != Ok(None) {
        var k :| 0 <= k < |rest| &&
          (forall j :: 0 <= j < k ==> RuleMatches(rest[j], hostname, env, regexMatch) == Ok(false)) &&
          RuleMatches(rest[k], hostname, env, regexMatch) != Ok(false) &&
          SelectAutoProfile(rest, hostname, env, regexMatch) ==
            (if RuleMatches(rest[k], hostname, env, regexMatch).Err?
             then Err(RuleMatches(rest[k], hostname, env, regexMatch).error)
             else Ok(Some(rest[k].profile)));
        assert rest[k] == rules[k + 1];
        forall j | 0 <= j < k + 1
          ensures RuleMatches(rules[j], hostname, env, regexMatch) == Ok(false)
        {
          if j > 0 {
            assert rules[j] == rest[j - 1];
          }
        }
      }
    }
  }

  /** A matching rule shadows every later one. */
  lemma EarlierMatchShadows(rules: seq<AutoProfileRule>, i: nat, hostname: Option<string>, env: map<string, string>,
                            regexMatch: (string, string) -> Result<bool>)
    requires i < |rules|
    requires forall j :: 0 <= j < i ==> RuleMatches(rules[j], hostname, env, regexMatch) == Ok(false)
    requires RuleMatches(rules[i], hostname, env, regexMatch) == Ok(true)
    ensures SelectAutoProfile(rules, hostname, env, regexMatch) == Ok(Some(rules[i].profile))
  {
    SelectAutoProfileFirstMatch(rules, hostname, env, regexMatch);
    var r := SelectAutoProfile(rules, hostname, env, regexMatch);
    assert RuleMatches(rules[i], hostname, env, regexMatch) != Ok(false);
    assert r != Ok(None);
    var k :| 0 <= k < |rules| &&
        (forall j :: 0 <= j < k ==> RuleMatches(rules[j], hostname, env, regexMatch) == Ok(false)) &&
        RuleMatches(rules[k], hostname, env, regexMatch) != Ok(false) &&
        r == (if RuleMatches(rules[k], hostname, env, regexMatch).Err?
              then Err(RuleMatches(rules[k], hostname, env, regexMatch).error)
              else Ok(Some(rules[k].profile)));
    assert !(k < i) && !(i < k);
  }
}
