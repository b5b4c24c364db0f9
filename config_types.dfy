/** The parsed configuration records (`sessions.toml` once read): project
    definitions, profiles, auto-profile rules and search settings. */
module ConfigTypes {
  import opened Wrappers

  /** A project: a bare path, or a path with an optional description. */
  datatype ProjectDefinition =
    | Simple(simplePath: string)
    | Detailed(detailedPath: string, detailedDescription: Option<string>)

  /** `ProjectDefinition::path`: the path, whichever form the entry has. */
  function Path(d: ProjectDefinition): (r: string)
    ensures d.Simple? ==> r == d.simplePath
    ensures d.Detailed? ==> r == d.detailedPath
  {
    match d
    case Simple(path) => path
    case Detailed(path, _) => path
  }

  /** `ProjectDefinition::description`: only a detailed entry has one. */
  function Description(d: ProjectDefinition): (r: Option<string>)
    ensures d.Simple? ==> r.None?
    ensures d.Detailed? ==> r == d.detailedDescription
  {
    match d
    case Simple(_) => None
    case Detailed(_, description) => description
  }

  /** `extends = "name"` or `extends = true|false`. */
  datatype ProfileExtends = Single(name: string) | Disabled(flag: bool)

  datatype SearchConfig = SearchConfig(
    dirs: Option<seq<string>>,
    vsc: Option<seq<string>>,
    maxDepth: Option<nat>,
    exclude: Option<seq<string>>)

  /** `SearchConfig::default()`: nothing set. */
  function DefaultSearch(): (r: SearchConfig)
    ensures r.dirs.None? && r.vsc.None? && r.maxDepth.None? && r.exclude.None?
  {
    SearchConfig(None, None, None, None)
  }

  datatype ProfileConfig = ProfileConfig(
    extendsProfile: Option<ProfileExtends>,
    search: Option<SearchConfig>,
    projects: Option<map<string, ProjectDefinition>>,
    keys: Option<map<string, string>>)

  /** One auto-profile rule; `isDefault` is the rule's `default` flag. */
  datatype AutoProfileRule = AutoProfileRule(
    hostnameRegex: Option<string>,
    env: Option<map<string, string>>,
    sshSession: Option<bool>,
    isDefault: Option<bool>,
    profile: string)

  /** The whole file; `global` is the version string of `[global]`. */
  datatype SessionConfigData = SessionConfigData(
    global: Option<string>,
    search: Option<SearchConfig>,
    projects: Option<map<string, ProjectDefinition>>,
    keys: Option<map<string, string>>,
    profiles: Option<map<string, ProfileConfig>>,
    autoProfile: Option<seq<AutoProfileRule>>)
}
