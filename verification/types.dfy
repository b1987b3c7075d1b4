/** The shared vocabulary of the library: pipeline positions, HTTP methods, route URLs and the
    shape of the `.origami` configuration file. */
module Types {
  import opened Wrappers
  import opened Json

  /** The eight pipeline stages a route handler can be registered at, in pipeline order. */
  datatype Position = Init | PreStore | Store | PostStore | PreRender | Render | PostRender | PreSend

  /** The HTTP methods a registration may record; `USE` stands for every method. */
  datatype Method = GET | HEAD | POST | PUT | DELETE | CONNECT | OPTIONS | PATCH | USE

  /** The stage names in the order the route constructor lists them. */
  const PositionNames: seq<string> :=
    ["init", "pre-store", "store", "post-store", "pre-render", "render", "post-render", "pre-send"]

  function PositionName(p: Position): string {
    match p
    case Init => "init"
    case PreStore => "pre-store"
    case Store => "store"
    case PostStore => "post-store"
    case PreRender => "pre-render"
    case Render => "render"
    case PostRender => "post-render"
    case PreSend => "pre-send"
  }

  /** The stage a name denotes, if the name is one of the eight stage names. */
  function ParsePosition(name: string): (r: Option<Position>)
    ensures r.Some? <==> name in PositionNames
  {
    if name == "init" then Some(Init)
    else if name == "pre-store" then Some(PreStore)
    else if name == "store" then Some(Store)
    else if name == "post-store" then Some(PostStore)
    else if name == "pre-render" then Some(PreRender)
    else if name == "render" then Some(Render)
    else if name == "post-render" then Some(PostRender)
    else if name == "pre-send" then Some(PreSend)
    else None
  }

  /** Parsing and naming are inverse: every stage's name parses back to it, and a name that parses
      is exactly that stage's name. */
  lemma PositionNameRoundTrip(p: Position, name: string)
    ensures ParsePosition(PositionName(p)) == Some(p)
    ensures PositionName(p) in PositionNames
    ensures ParsePosition(name) == Some(p) ==> PositionName(p) == name
  {
  }

  /** A JavaScript regular expression, kept as its source text and flags. */
  datatype Pattern = Pattern(source: string, flags: string)

  /** `RegExp.prototype.toString`, used when a pattern URL is spliced into a template string. */
  function PatternText(p: Pattern): string {
    "/" + p.source + "/" + p.flags
  }

  /** A route's own URL: a literal string, `null`, or a regular expression. */
  datatype Url = Lit(s: string) | NullUrl | Regex(p: Pattern)

  /** The URL a route resolves to: a string, or its own regular expression returned as is. */
  datatype Resolved = Text(s: string) | Matcher(p: Pattern)

  /** The text of a resolved URL inside a template literal. */
  function Stringify(r: Resolved): string {
    match r
    case Text(s) => s
    case Matcher(p) => PatternText(p)
  }

  // ---------------------------------------------------------------- configuration shape

  datatype ConfigApp = ConfigApp(name: string)

  datatype ConfigStore = ConfigStore(kind: string, host: string, port: int, database: string,
                                     username: string, password: string)

  datatype ConfigTheme = ConfigTheme(name: Option<string>, path: Option<string>)

  datatype StaticDirs = OneDir(dir: string) | ManyDirs(dirs: seq<string>)

  datatype ConfigServer = ConfigServer(secret: string, port: int, ln: string, staticDirs: Option<StaticDirs>)

  /** Per-verb authentication switches of a resource. */
  datatype AuthVerbs = AuthVerbs(get: bool, head: bool, post: bool, put: bool, delete: bool, list: bool)

  datatype Auth = AuthFlag(on: bool) | AuthPerVerb(verbs: AuthVerbs)

  /** A resource is either a path to its model module or an object naming the model and its auth. */
  datatype ResourceEntry = ResourcePath(path: string) | ResourceConfig(model: string, auth: Option<Auth>)

  /** A controller entry is either a prefix string or an object with an optional prefix. */
  datatype ControllerEntry = ControllerPrefix(prefix: string) | ControllerConfig(prefixField: Option<string>)

  /** A plugin or app entry: a switch, or an object of settings. */
  datatype Setting = SettingFlag(on: bool) | SettingObject(fields: Object)

  /** The own entries of a JavaScript object, in insertion order (`Object.entries`). */
  type Entries<V> = seq<(string, V)>

  datatype Config = Config(
    app: ConfigApp,
    store: ConfigStore,
    theme: Option<ConfigTheme>,
    server: ConfigServer,
    admin: string,
    resources: Option<Entries<ResourceEntry>>,
    plugins: Option<Entries<Setting>>,
    controllers: Option<Entries<ControllerEntry>>,
    apps: Option<Entries<Setting>>)
}
