/** The loaded configuration and how profiles are layered over the base
    settings: the `extends` chain of a profile, the overlay of projects,
    keys and search settings in chain order, the key-to-project join and
    the choice of profiles. */
module Config {
  import Seqs
  import opened Wrappers
  import opened ConfigTypes
  import AutoProfile

  /** `Config`: the base settings, every profile, the auto-profile rules
      and the profiles in use. */
  datatype Config = Config(
    globalVersion: Option<string>,
    baseSearch: SearchConfig,
    baseProjects: map<string, ProjectDefinition>,
    baseKeys: map<string, string>,
    profiles: map<string, ProfileConfig>,
    autoProfileRules: seq<AutoProfileRule>,
    selectedProfiles: seq<string>)

  // ----- Choosing the profiles -----

  /** A manual list is used as given; otherwise the automatically chosen
      profile, if any; an error choosing it is an error loading. */
  function SelectProfiles(manual: Option<seq<string>>, auto: Result<Option<string>>): (r: Result<seq<string>>)
    ensures manual.Some? ==> r == Ok(manual.value)
    ensures manual.None? && auto.Err? ==> r == Err(auto.error)
    ensures manual.None? && auto.Ok? && auto.value.Some? ==> r == Ok([auto.value.value])
    ensures manual.None? && auto.Ok? && auto.value.None? ==> r == Ok([])
  {
    if manual.Some? then Ok(manual.value)
    else if auto.Err? then Err(auto.error)
    else if auto.value.Some? then Ok([auto.value.value])
    else Ok([])
  }

  /** `from_config_data`: missing sections are empty; the automatic
      choice is made only when no profile is given by hand. */
  function FromConfigData(data: SessionConfigData, manual: Option<seq<string>>, hostname: Option<string>,
                          env: map<string, string>, regexMatch: (string, string) -> Result<bool>): (r: Result<Config>)
    ensures var rules := data.autoProfile.GetOr([]);
      var selected := SelectProfiles(manual, if manual.Some? then Ok(None) else AutoProfile.SelectAutoProfile(rules, hostname, env, regexMatch));
      (r.Ok? <==> selected.Ok?) &&
      (r.Err? ==> r.error == selected.error) &&
      (r.Ok? ==> r.value == Config(data.global, data.search.GetOr(DefaultSearch()), data.projects.GetOr(map[]),
                                  data.keys.GetOr(map[]), data.profiles.GetOr(map[]), rules, selected.value))
  {
    var rules := data.autoProfile.GetOr([]);
    var auto := if manual.Some? then Ok(None) else AutoProfile.SelectAutoProfile(rules, hostname, env, regexMatch);
    var selected := SelectProfiles(manual, auto);
    if selected.Err? then Err(selected.error)
    else Ok(Config(data.global, data.search.GetOr(DefaultSearch()), data.projects.GetOr(map[]),
                   data.keys.GetOr(map[]), data.profiles.GetOr(map[]), rules, selected.value))
  }

  // ----- The `extends` chain -----

  /** The profile `name` extends, if it extends one. */
  function Parent(profiles: map<string, ProfileConfig>, name: string): Option<string>
    requires name in profiles
  {
    match profiles[name].extendsProfile
    case Some(Single(parent)) => Some(parent)
    case _ => None
  }

  /** The profiles met following `extends` from `current`, nearest first,
      stopping at an undefined name, at a name already met and after a
      profile that extends nothing (`extends = false`, `extends = true`
      or no `extends`). */
  function Walk(profiles: map<string, ProfileConfig>, current: string, visited: set<string>): seq<string>
    decreases profiles.Keys - visited
  {
    if current in visited || current !in profiles then []
    else match Parent(profiles, current)
      case Some(parent) => [current] + Walk(profiles, parent, visited + {current})
      case None => [current]
  }

  function Reversed<T>(s: seq<T>): (r: seq<T>)
    ensures |r| == |s|
    ensures forall i :: 0 <= i < |s| ==> r[i] == s[|s| - 1 - i]
  {
    if s == [] then [] else Reversed(s[1..]) + [s[0]]
  }

  /** `build_profile_chain`, base first. */
  function Chain(profiles: map<string, ProfileConfig>, name: string): seq<string> {
    Reversed(Walk(profiles, name, {}))
  }

  predicate Distinct(s: seq<string>) {
    forall i, j :: 0 <= i < j < |s| ==> s[i] != s[j]
  }

  /** Following `extends` from `last` leaves the defined profiles or meets
      one already in `met` or in `visited`. */
  predicate Stops(profiles: map<string, ProfileConfig>, last: string, visited: set<string>, met: seq<string>) {
    last in profiles &&
    (Parent(profiles, last).None? || Parent(profiles, last).value !in profiles ||
     Parent(profiles, last).value in visited || Parent(profiles, last).value in met)
  }

  /** A walk meets only defined, unvisited profiles, each once, each
      extending the next, and ends where following `extends` would leave
      the defined profiles or revisit one. */
  lemma {:induction false} WalkProperties(profiles: map<string, ProfileConfig>, current: string, visited: set<string>)
    ensures var w := Walk(profiles, current, visited);
      (w != [] <==> current !in visited && current in profiles) &&
      (w != [] ==> w[0] == current) &&
      (forall x :: x in w ==> x in profiles && x !in visited) &&
      Distinct(w) &&
      (forall i, j :: 0 <= i && j == i + 1 && j < |w| ==> w[i] in profiles && Parent(profiles, w[i]) == Some(w[j])) &&
      (w != [] ==> Stops(profiles, w[|w| - 1], visited, w))
    decreases profiles.Keys - visited
  {
    if current !in visited && current in profiles && Parent(profiles, current).Some? {
      var parent := Parent(profiles, current).value;
      var rest := Walk(profiles, parent, visited + {current});
      WalkProperties(profiles, parent, visited + {current});
      var w := [current] + rest;
      assert Walk(profiles, current, visited) == w;
      forall i, j | 0 <= i && j == i + 1 && j < |w|
        ensures w[i] in profiles && Parent(profiles, w[i]) == Some(w[j])
      {
        if i > 0 {
          assert w[i] == rest[i - 1] && w[j] == rest[j - 1];
        }
      }
      forall i, j | 0 <= i < j < |w|
        ensures w[i] != w[j]
      {
        assert w[j] == rest[j - 1];
        if i > 0 {
          assert w[i] == rest[i - 1];
        }
      }
      if rest != [] {
        assert w[|w| - 1] == rest[|rest| - 1];
      }
    }
  }

  /** The same names as the walk, in reverse. */
  lemma ChainMembers(profiles: map<string, ProfileConfig>, name: string)
    ensures forall x :: x in Chain(profiles, name) <==> x in Walk(profiles, name, {})
  {
    var w := Walk(profiles, name, {});
    var c := Chain(profiles, name);
    forall x | x in c ensures x in w {
      var i :| 0 <= i < |c| && c[i] == x;
      assert w[|w| - 1 - i] == x;
    }
    forall x | x in w ensures x in c {
      var i :| 0 <= i < |w| && w[i] == x;
      assert c[|w| - 1 - i] == x;
    }
  }

  /** The chain of a profile is empty exactly when the profile is
      undefined; otherwise it ends at the profile, holds only defined
      profiles and repeats none. */
  lemma ChainShape(profiles: map<string, ProfileConfig>, name: string)
    ensures Chain(profiles, name) != [] <==> name in profiles
    ensures Chain(profiles, name) != [] ==> Chain(profiles, name)[|Chain(profiles, name)| - 1] == name
    ensures forall x :: x in Chain(profiles, name) ==> x in profiles
    ensures Distinct(Chain(profiles, name))
  {
    var w := Walk(profiles, name, {});
    var c := Chain(profiles, name);
    WalkProperties(profiles, name, {});
    ChainMembers(profiles, name);
    ReversedDistinct(w);
    if c != [] {
      assert c[|c| - 1] == w[0];
    }
  }

  lemma ReversedDistinct(s: seq<string>)
    requires Distinct(s)
    ensures Distinct(Reversed(s))
  {
    var r := Reversed(s);
    forall i, j | 0 <= i < j < |r|
      ensures r[i] != r[j]
    {
      assert r[i] == s[|s| - 1 - i] && r[j] == s[|s| - 1 - j];
    }
  }

  /** Each profile of the chain after the first extends the one before
      it, and the first (the base) extends nothing, an undefined profile or
      a profile already in the chain. */
  lemma ChainLinks(profiles: map<string, ProfileConfig>, name: string)
    ensures var c := Chain(profiles, name);
      forall i, j :: 0 <= i && j == i + 1 && j < |c| ==> c[j] in profiles && Parent(profiles, c[j]) == Some(c[i])
    ensures Chain(profiles, name) != [] ==> Stops(profiles, Chain(profiles, name)[0], {}, Chain(profiles, name))
  {
    var w := Walk(profiles, name, {});
    var c := Chain(profiles, name);
    WalkProperties(profiles, name, {});
    ChainMembers(profiles, name);
    forall i, j | 0 <= i && j == i + 1 && j < |c|
      ensures c[j] in profiles && Parent(profiles, c[j]) == Some(c[i])
    {
      var k := |w| - 2 - i;
      assert 0 <= k && k + 1 < |w|;
      ReversedLink(profiles, w, k);
    }
    if c != [] {
      assert c[0] == w[|w| - 1];
    }
  }

  /** Reversing turns the link from `w[k]` to `w[k + 1]` into one from
      position `|w| - 1 - k` back to position `|w| - 2 - k`. */
  lemma ReversedLink(profiles: map<string, ProfileConfig>, w: seq<string>, k: nat)
    requires k + 1 < |w|
    requires w[k] in profiles && Parent(profiles, w[k]) == Some(w[k + 1])
    ensures var i := |w| - 2 - k;
      Reversed(w)[i + 1] in profiles && Parent(profiles, Reversed(w)[i + 1]) == Some(Reversed(w)[i])
  {
  }

  /** A profile that extends nothing is a chain of its own. */
  lemma ChainOfRoot(profiles: map<string, ProfileConfig>, name: string)
    requires name in profiles && Parent(profiles, name).None?
    ensures Chain(profiles, name) == [name]
  {
    assert Walk(profiles, name, {}) == [name];
  }

  /** `build_profile_chain`: follows `extends`, remembering the names met,
      then puts the chain base first. */
  method BuildProfileChain(profiles: map<string, ProfileConfig>, profileName: string) returns (chain: seq<string>)
    ensures chain == Chain(profiles, profileName)
  {
    chain := [];
    var currentProfileName := profileName;
    var visited: set<string> := {};
    while true
      invariant Walk(profiles, profileName, {}) == chain + Walk(profiles, currentProfileName, visited)
      decreases profiles.Keys - visited
    {
      if currentProfileName in visited {
        assert chain + [] == chain;
        break;
      }
      ghost var before := visited;
      visited := visited + {currentProfileName};
      if currentProfileName !in profiles {
        assert chain + [] == chain;
        break;
      }
      match profiles[currentProfileName].extendsProfile {
        case Some(Single(extendsName)) =>
          assert Walk(profiles, currentProfileName, before) == [currentProfileName] + Walk(profiles, extendsName, visited);
          chain := chain + [currentProfileName];
          currentProfileName := extendsName;
        case _ =>
          assert Walk(profiles, currentProfileName, before) == [currentProfileName];
          chain := chain + [currentProfileName];
          break;
      }
    }
    chain := Reversed(chain);
  }

  // ----- Layering profiles over the base -----

  /** The profiles layered over the base, in order: the chain of each
      selected profile that is defined. */
  function Layers(profiles: map<string, ProfileConfig>, selected: seq<string>): seq<string> {
    if selected == [] then []
    else
      var last := selected[|selected| - 1];
      Layers(profiles, selected[..|selected| - 1]) + (if last in profiles then Chain(profiles, last) else [])
  }

  lemma LayersStep(profiles: map<string, ProfileConfig>, selected: seq<string>, name: string)
    ensures Layers(profiles, selected + [name]) ==
      if name in profiles then Layers(profiles, selected) + Chain(profiles, name) else Layers(profiles, selected)
  {
    assert (selected + [name])[..|selected|] == selected;
    assert Layers(profiles, selected) + [] == Layers(profiles, selected);
  }

  /** Only defined profiles are layered, and nothing is layered exactly
      when no selected profile is defined. */
  lemma {:induction false} LayersDefined(profiles: map<string, ProfileConfig>, selected: seq<string>)
    ensures forall x :: x in Layers(profiles, selected) ==> x in profiles
    ensures Layers(profiles, selected) == [] <==> forall s :: s in selected ==> s !in profiles
  {
    if selected != [] {
      var prefix := selected[..|selected| - 1];
      var last := selected[|selected| - 1];
      LayersDefined(profiles, prefix);
      if last in profiles {
        ChainShape(profiles, last);
      }
      assert selected == prefix + [last];
    }
  }

  /** The two maps a profile can layer over the base. */
  function ProjectLayer(p: ProfileConfig): Option<map<string, ProjectDefinition>> { p.projects }
  function KeyLayer(p: ProfileConfig): Option<map<string, string>> { p.keys }

  /** The base map with each named, defined profile's map laid over it in
      order (`HashMap::extend`: the later entry wins). */
  function Overlay<V>(base: map<string, V>, profiles: map<string, ProfileConfig>,
                      field: ProfileConfig -> Option<map<string, V>>, names: seq<string>): map<string, V>
  {
    if names == [] then base
    else
      var prev := Overlay(base, profiles, field, names[..|names| - 1]);
      var last := names[|names| - 1];
      if last in profiles && field(profiles[last]).Some? then prev + field(profiles[last]).value else prev
  }

  /** Whether the profile `name` defines `key` in its layer. */
  predicate Defines<V>(profiles: map<string, ProfileConfig>, field: ProfileConfig -> Option<map<string, V>>, name: string, key: string) {
    name in profiles && field(profiles[name]).Some? && key in field(profiles[name]).value
  }

  /** A key is present when the base or any layer has it. */
  lemma {:induction false} OverlayKeys<V>(base: map<string, V>, profiles: map<string, ProfileConfig>,
                                         field: ProfileConfig -> Option<map<string, V>>, names: seq<string>, key: string)
    ensures key in Overlay(base, profiles, field, names) <==>
      key in base || exists i :: 0 <= i < |names| && Defines(profiles, field, names[i], key)
  {
    if names != [] {
      var prefix := names[..|names| - 1];
      OverlayKeys(base, profiles, field, prefix, key);
      assert forall i :: 0 <= i < |prefix| ==> names[i] == prefix[i];
    }
  }

  /** A key's value comes from the last layer that defines it. */
  lemma {:induction false} OverlayLaterWins<V>(base: map<string, V>, profiles: map<string, ProfileConfig>,
                                              field: ProfileConfig -> Option<map<string, V>>, names: seq<string>,
                                              key: string, i: nat)
    requires i < |names| && Defines(profiles, field, names[i], key)
    requires forall j :: i < j < |names| ==> !Defines(profiles, field, names[j], key)
    ensures key in Overlay(base, profiles, field, names)
    ensures Overlay(base, profiles, field, names)[key] == field(profiles[names[i]]).value[key]
  {
    var prefix := names[..|names| - 1];
    if i < |names| - 1 {
      OverlayLaterWins(base, profiles, field, prefix, key, i);
    }
  }

  /** A key no layer defines keeps its base value. */
  lemma {:induction false} OverlayKeepsBase<V>(base: map<string, V>, profiles: map<string, ProfileConfig>,
                                              field: ProfileConfig -> Option<map<string, V>>, names: seq<string>, key: string)
    requires key in base
    requires forall i :: 0 <= i < |names| ==> !Defines(profiles, field, names[i], key)
    ensures key in Overlay(base, profiles, field, names)
    ensures Overlay(base, profiles, field, names)[key] == base[key]
  {
    if names != [] {
      var prefix := names[..|names| - 1];
      OverlayKeepsBase(base, profiles, field, prefix, key);
    }
  }

  /** `resolved_projects` / `resolved_keys` as specified: the base with
      every layered profile's map over it. */
  function ResolvedProjectsSpec(config: Config): map<string, ProjectDefinition> {
    Overlay(config.baseProjects, config.profiles, ProjectLayer, Layers(config.profiles, config.selectedProfiles))
  }

  function ResolvedKeysSpec(config: Config): map<string, string> {
    Overlay(config.baseKeys, config.profiles, KeyLayer, Layers(config.profiles, config.selectedProfiles))
  }

  lemma OverlayStep<V>(base: map<string, V>, profiles: map<string, ProfileConfig>,
                       field: ProfileConfig -> Option<map<string, V>>, names: seq<string>, name: string)
    ensures Overlay(base, profiles, field, names + [name]) ==
      if name in profiles && field(profiles[name]).Some? then Overlay(base, profiles, field, names) + field(profiles[name]).value
      else Overlay(base, profiles, field, names)
  {
    assert (names + [name])[..|names|] == names;
  }

  /** Lays the maps of one chain over `acc`. */
  method OverlayChain<V>(profiles: map<string, ProfileConfig>, field: ProfileConfig -> Option<map<string, V>>,
                         ghost base: map<string, V>, ghost done: seq<string>, chain: seq<string>, acc: map<string, V>)
    returns (result: map<string, V>)
    requires acc == Overlay(base, profiles, field, done)
    ensures result == Overlay(base, profiles, field, done + chain)
  {
    result := acc;
    assert done + chain[..0] == done;
    for j := 0 to |chain|
      invariant result == Overlay(base, profiles, field, done + chain[..j])
    {
      var chainProfileName := chain[j];
      Seqs.PrefixStep(done, chain, j);
      OverlayStep(base, profiles, field, done + chain[..j], chainProfileName);
      if chainProfileName in profiles {
        var layer := field(profiles[chainProfileName]);
        if layer.Some? {
          result := result + layer.value;
        }
      }
    }
    assert chain[..|chain|] == chain;
  }

  /** The loop `resolved_projects` and `resolved_keys` share. */
  method ResolveMap<V>(config: Config, base: map<string, V>, field: ProfileConfig -> Option<map<string, V>>)
    returns (result: map<string, V>)
    ensures result == Overlay(base, config.profiles, field, Layers(config.profiles, config.selectedProfiles))
  {
    result := base;
    var selected := config.selectedProfiles;
    ghost var done: seq<string> := [];
    for i := 0 to |selected|
      invariant done == selected[..i]
      invariant result == Overlay(base, config.profiles, field, Layers(config.profiles, done))
    {
      var profileName := selected[i];
      assert selected[..i + 1] == done + [profileName];
      LayersStep(config.profiles, done, profileName);
      if profileName in config.profiles {
        var profileChain := BuildProfileChain(config.profiles, profileName);
        result := OverlayChain(config.profiles, field, base, Layers(config.profiles, done), profileChain, result);
      }
      done := done + [profileName];
    }
    assert selected[..|selected|] == selected;
  }

  method ResolvedProjects(config: Config) returns (result: map<string, ProjectDefinition>)
    ensures result == ResolvedProjectsSpec(config)
  {
    result := ResolveMap(config, config.baseProjects, ProjectLayer);
  }

  method ResolvedKeys(config: Config) returns (result: map<string, string>)
    ensures result == ResolvedKeysSpec(config)
  {
    result := ResolveMap(config, config.baseKeys, KeyLayer);
  }

  /** `keyed_projects`: a key whose project is not defined is dropped; the
      others map to their project's path. */
  function Join(keys: map<string, string>, projects: map<string, ProjectDefinition>): (r: map<string, string>)
    ensures forall key :: key in r <==> key in keys && keys[key] in projects
    ensures forall key :: key in r ==> r[key] == Path(projects[keys[key]])
  {
    map key | key in keys && keys[key] in projects :: Path(projects[keys[key]])
  }

  method KeyedProjects(config: Config) returns (r: map<string, string>)
    ensures r == Join(ResolvedKeysSpec(config), ResolvedProjectsSpec(config))
  {
    var resolvedKeys := ResolvedKeys(config);
    var resolvedProjects := ResolvedProjects(config);
    r := Join(resolvedKeys, resolvedProjects);
  }

  // ----- Search settings -----

  /** The list-valued search settings, which layers extend. */
  datatype ListField = Dirs | Vsc | Exclude

  function Get(s: SearchConfig, f: ListField): Option<seq<string>> {
    match f
    case Dirs => s.dirs
    case Vsc => s.vsc
    case Exclude => s.exclude
  }

  /** `get_or_insert_with(Vec::new).extend(..)` when the layer sets the list. */
  function Extend(acc: Option<seq<string>>, more: Option<seq<string>>): Option<seq<string>> {
    if more.Some? then Some(acc.GetOr([]) + more.value) else acc
  }

  /** One layer's search settings over `acc`: lists are extended, the depth
      is replaced when the layer sets it. */
  function ApplySearch(acc: SearchConfig, layer: SearchConfig): SearchConfig {
    SearchConfig(Extend(acc.dirs, layer.dirs), Extend(acc.vsc, layer.vsc),
                 if layer.maxDepth.Some? then layer.maxDepth else acc.maxDepth,
                 Extend(acc.exclude, layer.exclude))
  }

  function SearchOverlay(base: SearchConfig, profiles: map<string, ProfileConfig>, names: seq<string>): SearchConfig {
    if names == [] then base
    else
      var prev := SearchOverlay(base, profiles, names[..|names| - 1]);
      var last := names[|names| - 1];
      if last in profiles && profiles[last].search.Some? then ApplySearch(prev, profiles[last].search.value) else prev
  }

  function ResolvedSearchSpec(config: Config): SearchConfig {
    SearchOverlay(config.baseSearch, config.profiles, Layers(config.profiles, config.selectedProfiles))
  }

  /** The entries of one list setting over the layers, in layer order. */
  function Collected(profiles: map<string, ProfileConfig>, names: seq<string>, f: ListField): seq<string> {
    if names == [] then []
    else
      var last := names[|names| - 1];
      Collected(profiles, names[..|names| - 1], f) +
        (if last in profiles && profiles[last].search.Some? then Get(profiles[last].search.value, f).GetOr([]) else [])
  }

  predicate SetsDepth(profiles: map<string, ProfileConfig>, name: string) {
    name in profiles && profiles[name].search.Some? && profiles[name].search.value.maxDepth.Some?
  }

  /** Lists are the base's entries followed by each layer's, in order; the
      depth is the last layer's that sets one, else the base's. */
  lemma SearchOverlayFields(base: SearchConfig, profiles: map<string, ProfileConfig>, names: seq<string>, f: ListField)
    ensures Get(SearchOverlay(base, profiles, names), f).GetOr([]) == Get(base, f).GetOr([]) + Collected(profiles, names, f)
    ensures forall i :: 0 <= i < |names| && SetsDepth(profiles, names[i]) &&
                        (forall j :: i < j < |names| ==> !SetsDepth(profiles, names[j])) ==>
      SearchOverlay(base, profiles, names).maxDepth == profiles[names[i]].search.value.maxDepth
    ensures (forall i :: 0 <= i < |names| ==> !SetsDepth(profiles, names[i])) ==>
      SearchOverlay(base, profiles, names).maxDepth == base.maxDepth
  {
    SearchOverlayList(base, profiles, names, f);
    SearchOverlayDepth(base, profiles, names);
  }

  lemma {:induction false} SearchOverlayList(base: SearchConfig, profiles: map<string, ProfileConfig>, names: seq<string>, f: ListField)
    ensures Get(SearchOverlay(base, profiles, names), f).GetOr([]) == Get(base, f).GetOr([]) + Collected(profiles, names, f)
  {
    if names != [] {
      SearchOverlayList(base, profiles, names[..|names| - 1], f);
    }
  }

  lemma {:induction false} SearchOverlayDepth(base: SearchConfig, profiles: map<string, ProfileConfig>, names: seq<string>)
    ensures forall i :: 0 <= i < |names| && SetsDepth(profiles, names[i]) &&
                        (forall j :: i < j < |names| ==> !SetsDepth(profiles, names[j])) ==>
      SearchOverlay(base, profiles, names).maxDepth == profiles[names[i]].search.value.maxDepth
    ensures (forall i :: 0 <= i < |names| ==> !SetsDepth(profiles, names[i])) ==>
      SearchOverlay(base, profiles, names).maxDepth == base.maxDepth
  {
    if names != [] {
      var prefix := names[..|names| - 1];
      var n := |names| - 1;
      var now := SearchOverlay(base, profiles, names);
      SearchOverlayDepth(base, profiles, prefix);
      if SetsDepth(profiles, names[n]) {
        assert now.maxDepth == profiles[names[n]].search.value.maxDepth;
        forall i | 0 <= i < |names| && SetsDepth(profiles, names[i]) &&
                   (forall j :: i < j < |names| ==> !SetsDepth(profiles, names[j]))
          ensures i == n
        {
        }
      } else {
        assert now.maxDepth == SearchOverlay(base, profiles, prefix).maxDepth;
        forall i | 0 <= i < |names| && SetsDepth(profiles, names[i]) &&
                   (forall j :: i < j < |names| ==> !SetsDepth(profiles, names[j]))
          ensures now.maxDepth == profiles[names[i]].search.value.maxDepth
        {
          assert i < n && prefix[i] == names[i];
          assert forall j :: i < j < |prefix| ==> prefix[j] == names[j];
        }
        if forall i :: 0 <= i < |names| ==> !SetsDepth(profiles, names[i]) {
          assert forall i :: 0 <= i < |prefix| ==> prefix[i] == names[i];
        }
      }
    }
  }

  /** Lays the search settings of one chain over `acc`. */
  method SearchChain(profiles: map<string, ProfileConfig>, ghost base: SearchConfig, ghost done: seq<string>,
                     chain: seq<string>, acc: SearchConfig)
    returns (result: SearchConfig)
    requires acc == SearchOverlay(base, profiles, done)
    ensures result == SearchOverlay(base, profiles, done + chain)
  {
    result := acc;
    assert done + chain[..0] == done;
    for j := 0 to |chain|
      invariant result == SearchOverlay(base, profiles, done + chain[..j])
    {
      var chainProfileName := chain[j];
      var next := done + chain[..j + 1];
      assert next[..|next| - 1] == done + chain[..j] && next[|next| - 1] == chainProfileName;
      if chainProfileName in profiles && profiles[chainProfileName].search.Some? {
        var search := profiles[chainProfileName].search.value;
        var dirs := result.dirs;
        if search.dirs.Some? {
          dirs := Some(dirs.GetOr([]) + search.dirs.value);
        }
        var vsc := result.vsc;
        if search.vsc.Some? {
          vsc := Some(vsc.GetOr([]) + search.vsc.value);
        }
        var maxDepth := result.maxDepth;
        if search.maxDepth.Some? {
          maxDepth := search.maxDepth;
        }
        var exclude := result.exclude;
        if search.exclude.Some? {
          exclude := Some(exclude.GetOr([]) + search.exclude.value);
        }
        result := SearchConfig(dirs, vsc, maxDepth, exclude);
      }
    }
    assert chain[..|chain|] == chain;
  }

  /** `resolved_search` */
  method ResolvedSearch(config: Config) returns (result: SearchConfig)
    ensures result == ResolvedSearchSpec(config)
  {
    result := config.baseSearch;
    var selected := config.selectedProfiles;
    ghost var done: seq<string> := [];
    for i := 0 to |selected|
      invariant done == selected[..i]
      invariant result == SearchOverlay(config.baseSearch, config.profiles, Layers(config.profiles, done))
    {
      var profileName := selected[i];
      assert selected[..i + 1] == done + [profileName];
      LayersStep(config.profiles, done, profileName);
      if profileName in config.profiles {
        var profileChain := BuildProfileChain(config.profiles, profileName);
        result := SearchChain(config.profiles, config.baseSearch, Layers(config.profiles, done), profileChain, result);
      }
      done := done + [profileName];
    }
    assert selected[..|selected|] == selected;
  }
}
