# origami core-lib: routes, configuration overrides, renderer engines, key checks

A Dafny model of four small pieces of the Origami CMS core library:

- **The route registrar** (`src/Route.ts`). A route has eight ordered buckets of registrations, one
  per pipeline position. It also has a reported position, a separately stored active bucket, a
  parent and a list of nested routes. JavaScript object identity is kept by modelling every route
  as a node of a `Graph`, addressed by its index. A route's URL is computed through its parent
  chain at the moment it is asked for.
- **Environment overrides of the configuration** (`config.env` in `src/configFile.ts`).
  - Plugin keys of the form `path:alias` are rewritten to their path, and the alias is recorded.
  - `ORIGAMI_A_B` variables become writes at the dotted path `a.b`.
  - A write to `plugins.<alias>.…` is redirected into the entry stored under the alias's path.
  - Also modelled: the per-entry normalisation in `setupResources` (which `auth` a resource gets)
    and in `setupControllers` (the default prefix, and the route created for each controller).
- **Renderer engine resolution** (`Renderer.render` and `_getEngine` in `src/Renderer/index.ts`,
  with the table in `src/Renderer/engines.ts`). The steps are: a cache of compile functions, the
  extension table, an attempt to load the engine's package, and a wrapper chosen per extension.
- **`requireKeys` and `symbols`**, both in `src/utility.ts` and in the CommonJS entry point
  `index.js`.

Modules:
- `Wrappers` holds `Option` and `Result`.
- `Text` holds the JavaScript string operations used: ASCII `toLowerCase`, `replace`, `split`,
  `join` and `lastIndexOf`.
- `Json` holds the configuration tree and the set-at-dotted-path operation.
- `Types` holds positions, methods, URLs and the configuration shape.
- `Route` and `RouteFacts` hold the registrar.
- `ConfigEnv` and `ConfigSetup` hold the configuration.
- `Engines`, `Paths` and `Renderer` hold the renderer. `Paths` is Node's POSIX `path.extname`.
- `Utility` and `Legacy` hold the key helpers.

External effects are parameters:
- the process environment is a sequence of `(name, value)` pairs;
- `path.resolve(context, _)` for resources is a function `resolve`;
- whether `require` of a path or package succeeds is a predicate `loads`;
- `Object.entries` order of the plugins object is an explicit key list.

Some behaviour of the code differs from what its comments or names suggest; the model follows the
code:
- A fresh route reports `pre-render` but registers into `post-store` (`src/Route.ts:62-67`). The
  comment there says the default is `render`.
- The override redirect drops exactly two key segments (`src/configFile.ts:72`), although the
  alias match is unanchored (`src/configFile.ts:70`).
- Two places where the code does not do what its own comments and table promise are listed under
  "## Findings". In both, the rest of the model uses the corrected behaviour, and the code as
  written is kept next to it:
  - an aliased plugin whose options are `true` cannot take a redirected override, although the
    comment at `src/configFile.ts:76-78` promises a retry with an empty object;
  - `html`, `css` and `js` map to `true`, but the load step passes `true` to `path.resolve`, which
    throws on a non-string, so these files always fail as "'true' engine is not installed".
- `symbols` assigns through an ordinary property write. A name `__proto__` therefore creates no own
  key, because the prototype setter ignores a symbol value.

## Model

| member | source | states |
|---|---|---|
| Types.ParsePosition | src/types/index.ts:105-106 | a name denotes a position exactly when it is one of the eight position names |
| Types.PositionNameRoundTrip | src/Route.ts:32-44 | naming a position and parsing the name are inverse, both ways |
| Route.SetPosition | src/Route.ts:72-76 | a known name moves the active bucket and the reported position to it, with buckets, nested list and other nodes unchanged; an unknown name throws `No position <name>` and leaves everything unchanged |
| Route.New | src/Route.ts:27-68 | a new route has empty buckets and no children, reports `pre-render`, and has `post-store` as its active bucket |
| Route.ResolvedUrl | src/Route.ts:82-85 | a route's URL is a pattern exactly when its own URL is a pattern, and is then that pattern; a text URL ends with the route's own text (null as empty), and is exactly that text for a route without a parent |
| Route.Register | src/Route.ts:158-169 | one entry carrying the URL at call time, the handlers and the method is appended to the end of the active bucket; other buckets, the position, the nested list and other nodes are unchanged; the total grows by one |
| Route.RegisterGet | src/Route.ts:89-91 | `get` appends one GET entry, carrying the URL at call time, to the end of the active bucket; nothing else changes |
| Route.RegisterPost | src/Route.ts:92-94 | `post` appends one POST entry, carrying the URL at call time, to the end of the active bucket; nothing else changes |
| Route.RegisterPut | src/Route.ts:95-97 | `put` appends one PUT entry, carrying the URL at call time, to the end of the active bucket; nothing else changes |
| Route.RegisterDelete | src/Route.ts:98-100 | `delete` appends one DELETE entry, carrying the URL at call time, to the end of the active bucket; nothing else changes |
| Route.RegisterAll | src/Route.ts:101-103 | `all` appends one USE entry, carrying the URL at call time, to the end of the active bucket; nothing else changes |
| Route.RegisterUse | src/Route.ts:104-106 | `use` appends one USE entry, carrying the URL at call time, to the end of the active bucket; nothing else changes |
| Route.AllIsUse | src/Route.ts:101-106 | `all` and `use` make the same registration |
| Route.Nest | src/Route.ts:117-123 | `route(url)` appends exactly one child to `nested`; the child's parent is this route, it has no entries, and its active bucket and reported position are this route's reported position; this route's buckets are unchanged |
| RouteFacts.FreshRegistrationLandsInPostStore | src/Route.ts:62-67 | on a fresh route that reports `pre-render`, a registration made before any `position` call lands in `post-store`, and `pre-render` stays empty |
| RouteFacts.FreshParentChildStartsOnReportedPosition | src/Route.ts:117-123 | a child of a fresh route is active on `pre-render`, not on the parent's active `post-store` |
| RouteFacts.UrlFrame | src/Route.ts:82-85 | a URL depends only on the own URLs and parent links of the route and its ancestors |
| RouteFacts.RegisterKeepsUrls | src/Route.ts:158-169 | registration changes no route's URL |
| RouteFacts.NestedUrl | src/Route.ts:82-85 | a child's URL is its own pattern if it has one, else the text of the parent's URL followed by its own text, with null as empty |
| RouteFacts.UrlIsChainUrl | src/Route.ts:82-85 | the recursive `url` getter equals a closed form over the ancestor chain: the concatenated own texts, or the nearest pattern, kept as is when it is the route's own and stringified with the texts below it otherwise |
| RouteFacts.RegisterEachAppends | src/Route.ts:89-106 | a run of registrations appends its entries in call order to the active bucket only, and changes nothing else |
| RouteFacts.RegistrationsFollowPosition | src/Route.ts:109-113 | after `position(p)` with a known `p`, later registrations append only to bucket `p`, and every other bucket keeps its contents |
| RouteFacts.RunCountsRegistrations | src/Route.ts:158-169 | over any script of calls naming only known positions, nothing throws and the entry total grows by exactly the number of registration calls |
| RouteFacts.RunNeverLosesEntries | src/Route.ts:72-76 | whatever a script of calls does, including a throw, every bucket before it is a prefix of the same bucket after it |
| Json.SetPath | src/configFile.ts:79 | after a successful set at a dotted path, reading that path gives the value written, the top-level keys gain at most the first segment, every other top-level key keeps its value, and every path that parts ways with the written one reads as before; a one-segment path never fails |
| Json.SetPathKeepsSiblings | src/configFile.ts:79 | a set at `a.b` keeps every other field of the object under `a`: an override of `store.port` keeps `store.host` |
| Json.SetPathFailsIffBlocked | src/configFile.ts:76-79 | a set at a path fails exactly when a strict prefix of the path reaches a value that is not an object |
| Text.JoinSplit | src/configFile.ts:61 | joining the parts of a split with the separator gives back the string |
| Text.SplitJoin | src/configFile.ts:61 | splitting a join of separator-free parts gives back the parts |
| ConfigEnv.ParseAliasedKey | src/configFile.ts:41 | a match splits the key into a path and an alias whose join with `:` is the key, the path a local path and the alias a non-empty run of word characters and hyphens; a key without `:` never matches |
| ConfigEnv.AliasedKeyDecomposition | src/configFile.ts:41 | a key matches the aliased-key pattern with path `p` and alias `a` exactly when it is `p:a`, `p` begins with `/`, `./` or `../` and has no line terminator, and `a` is a non-empty run of word characters and hyphens; the split is at the last colon |
| ConfigEnv.AliasedKeyStart | src/configFile.ts:41 | every aliased key and its path start with `/` or `.` |
| ConfigEnv.NormalisePlugins | src/configFile.ts:38-47 | every resulting entry is an original key with its original options, or a path carrying the options of an aliased key with that path; every recorded alias is declared, lower-cased, by an aliased key whose path it maps to |
| ConfigEnv.Normalise | src/configFile.ts:38-47 | rewriting changes only the `plugins` key of the configuration, and records no alias when there is no plugins object |
| ConfigEnv.KeyNotAliasedIsUntouched | src/configFile.ts:38-47 | a plugin key that is not aliased, and is no aliased key's path, keeps its options |
| ConfigEnv.ModuleKeyIsUntouched | src/configFile.ts:38-47 | a plugin key not starting with `/` or `.`, such as a module name, keeps its options |
| ConfigEnv.AliasedKeyIsRewritten | src/configFile.ts:38-47 | an aliased key that no other aliased key interferes with (none deletes or writes its key or its path, none records the same alias) is removed, its path carries the same options, and the lower-cased alias maps to the path; when aliased keys collide, the outcome follows the enumeration order and is not stated |
| ConfigEnv.OverrideKey | src/configFile.ts:56-63 | for an override variable, the key computed by replace, split, slice and join equals the lower-cased name after `origami_` with every `_` turned into `.` |
| ConfigEnv.OverrideKeyHasNoUnderscore | src/configFile.ts:59 | an override key contains no `_` |
| ConfigEnv.AliasRun | src/configFile.ts:70 | the captured alias is the longest run of word characters and hyphens at its position |
| ConfigEnv.AliasRefFromIsAliasRun | src/configFile.ts:70 | the search from position `i` captures something exactly when a `plugins.` followed by an alias character lies at or after `i`; the capture is then non-empty and is the maximal alias run after the leftmost such `plugins.` |
| ConfigEnv.AliasRef | src/configFile.ts:70 | the capture exists exactly when the key contains `plugins.` followed by an alias character; it is then a non-empty alias, the maximal run after the leftmost such `plugins.` |
| ConfigEnv.AliasRefOfPluginsKey | src/configFile.ts:70 | for a key `plugins.<alias><rest>` where `rest` does not continue the alias, the capture is exactly `alias` |
| ConfigEnv.Redirect | src/configFile.ts:70-73 | an override key is redirected exactly when its captured alias is a recorded one, and then to the path recorded for that alias; a key without a match is never redirected |
| ConfigEnv.UnderscoreAliasUnreachable | src/configFile.ts:59-71 | an alias containing `_` is never the target of a redirect from an environment variable |
| ConfigEnv.WriteAt | src/configFile.ts:79 | the write fails exactly when an intermediate value on the dotted key is present but not an object; on success the key reads back the string value, only the first segment's key can change at the top level, and every path that parts ways with the key reads as before |
| ConfigEnv.ApplyOverride | src/configFile.ts:65-79 | an unredirected override fails exactly when its path is blocked, and otherwise sets the path from the root, every path that parts ways with it reading as before; a redirected one fails with `TargetNotObject` exactly when there is no plugins object, otherwise fails exactly when blocked inside the entry (an entry that is not an object counts as `{}`), and on success leaves the entry an object holding the value at the key without its first two segments, every other path inside the entry, the other entries and the other top-level keys unchanged |
| ConfigEnv.ApplyOverrideAsWritten | src/configFile.ts:70-79 | the code as written, without the retry: it agrees with `ApplyOverride` except when the redirected entry is not an object, where it fails with `TargetNotObject` |
| ConfigEnv.ApplyEnvironment | src/configFile.ts:50-80 | with no override variable the configuration comes back unchanged; a failure needs an override variable |
| ConfigEnv.ApplyEnvironmentAsWritten | src/configFile.ts:50-80 | the same run with each override as the code is written: with no override variable the configuration comes back unchanged; a failure needs an override variable |
| ConfigEnv.Env | src/configFile.ts:25-83 | without override variables the result is the rewritten configuration, and the input itself when it has no plugins object; a failure needs an override variable |
| ConfigEnv.EnvAsWritten | src/configFile.ts:25-83 | `config.env` as the code is written: without override variables the result is the rewritten configuration; a failure needs an override variable |
| ConfigEnv.OnlyOverrideNamesApply | src/configFile.ts:51-53 | variables whose lower-cased name does not start with `origami_` have no effect |
| ConfigEnv.ApplyEnvironmentAppend | src/configFile.ts:65-80 | variables apply one after another, and the first write that throws ends the run |
| ConfigEnv.LastOverrideWins | src/configFile.ts:65-80 | an override naming no recorded alias sets its dotted path from the root to the raw string, so the last variable for a path wins |
| ConfigEnv.StorePortKey | src/configFile.ts:53-63 | `ORIGAMI_STORE_PORT` is an override variable with key `store.port` |
| ConfigEnv.StorePortOverride | src/configFile.ts:25-83 | on any configuration without a plugins object whose `store` is an object, `ORIGAMI_STORE_PORT=5432` replaces `store.port` with the string "5432" and keeps every other field of `store` and every other top-level key |
| ConfigEnv.SingleOverride | src/configFile.ts:65-80 | a single override variable performs exactly one override write |
| ConfigEnv.TwoSegmentOverride | src/configFile.ts:65-80 | on any configuration without a plugins object, an override of `a.b` replaces only the field `b` of the object under `a` (absent counts as `{}`) with the raw string, and fails at `a` when `a` holds anything else |
| ConfigEnv.WriteTwoSegments | src/configFile.ts:79 | a write at `a.b` replaces only the field `b` of the object under `a`, or fails at `a` when `a` holds something that is not an object |
| ConfigEnv.NormaliseAliasedSingle | src/configFile.ts:38-47 | a plugins object holding one aliased key `path:alias` becomes one keyed by `path`, and the alias table maps the lower-cased alias to `path` |
| ConfigEnv.AliasedOverrideKey | src/configFile.ts:70-72 | the key `plugins.<alias>.<field>` splits into three segments and is redirected to the alias's recorded path |
| ConfigEnv.AliasedPluginOverride | src/configFile.ts:25-83 | for an aliased plugin with object options, an override of `plugins.<alias>.<field>` leaves the plugins object keyed by the path alone, with the field set in that entry |
| ConfigEnv.AliasedPluginSwitchCannotTakeOverride | src/configFile.ts:70-79 | as written: for an aliased plugin whose options are `true`, the rewritten configuration holds `true` under the path, the redirected override fails with `TargetNotObject`, and so the whole `config.env` run fails |
| ConfigEnv.AliasedPluginSwitchTakesOverride | src/configFile.ts:73-79 | with the retry the comment describes: for an aliased plugin whose options are `true`, the override of `plugins.<alias>.<field>` leaves `{field: value}` under the path |
| ConfigEnv.FooAliasSwitchExample | src/configFile.ts:25-83 | concretely: plugins `{'./plugins/foo.js:fooAlias': true}` with `ORIGAMI_PLUGINS_FOOALIAS_ENABLED=false` yields plugins `{'./plugins/foo.js': {enabled: 'false'}}` |
| ConfigSetup.Resource | src/configFile.ts:206-230 | a resource is registered exactly when its resolved model path loads, under the entry's name, with `auth = true` for a string entry and the entry's own `auth` for an object entry; otherwise the error `Could not load resource <name> at <path>` is produced |
| ConfigSetup.PathIsConfigWithAuth | src/configFile.ts:210-229 | a string entry registers the same as an object entry with that model and `auth: true` |
| ConfigSetup.SetupResources | src/configFile.ts:201-231 | a missing resources section throws; otherwise there is one outcome per entry |
| ConfigSetup.ResourcesPointwise | src/configFile.ts:206-231 | each entry's outcome is its own, so a failed load neither stops nor changes the others |
| ConfigSetup.SetupResourcesRegistersLoadable | src/configFile.ts:206-231 | the `i`-th entry is registered, under its own name, exactly when its model loads |
| ConfigSetup.ControllerPrefixOf | src/configFile.ts:241-252 | a string entry is the prefix; an object entry's prefix is the `prefix` of its own fields spread over the defaults `{prefix: ''}` |
| ConfigSetup.ControllerRoute | src/configFile.ts:254 | a controller's route is a new parentless route, with no entries, whose URL is the prefix |
| ConfigSetup.SetupControllers | src/configFile.ts:235-259 | a missing controllers section throws; otherwise one route is created per entry |
| ConfigSetup.ControllersFromUrl | src/configFile.ts:240-254 | the route made for the `i`-th entry is a root whose URL is that entry's prefix |
| ConfigSetup.PrefixUrlKept | src/configFile.ts:240-254 | creating later controllers' routes leaves an earlier route, and so its URL, unchanged |
| ConfigSetup.SetupControllersUrls | src/configFile.ts:235-259 | the `i`-th created route's URL is the `i`-th entry's prefix |
| Engines.UnconfiguredAreOff | src/Renderer/engines.ts:8-24 | vue through mustache are in the table with `false` |
| Engines.VerbatimAreOn | src/Renderer/engines.ts:31-34 | html, css and js are in the table with `true` |
| Engines.PackagedArePackages | src/Renderer/engines.ts:2-7 | pug, jade, hbs, ejs, scss and sass name a (non-empty) package |
| Engines.TableKeys | src/Renderer/engines.ts:1-36 | the table has exactly these three groups of keys |
| Engines.FalsyIsUnconfigured | src/Renderer/engines.ts:1-36 | a table entry is falsy exactly when it is one of the switched-off engines |
| Engines.SharedPackages | src/Renderer/engines.ts:2-28 | the only pairs of extensions naming the same package are pug with jade, and scss with sass |
| Paths.Extname | src/Renderer/index.ts:31 | the extension is empty, or a dot followed by characters that are neither dots nor slashes |
| Paths.ExtensionOfName | src/Renderer/index.ts:31 | for `dir/stem.ext`, the extension without its dot is `ext` |
| Paths.NoDotNoExtension | src/Renderer/index.ts:31 | a file whose last segment has no dot has the empty extension |
| Renderer.Load | src/Renderer/index.ts:55-64 | the load step as the table intends it: a truthy value fails exactly when it is a package that does not load, with `'<value>' engine is not installed`; `true` needs nothing loaded; a falsy value becomes `false` |
| Renderer.LoadAsWritten | src/Renderer/index.ts:55-64 | the load step as written: `true` goes through `path.resolve` and always fails as not installed; packages and falsy values are as in `Load` |
| Renderer.GetEngine | src/Renderer/index.ts:38-108 | a failure leaves the cache unchanged; at most the looked-up extension is added to the cache, and no other entry changes |
| Renderer.GetEngineKeepsCacheSound | src/Renderer/index.ts:68-102 | the cache only ever holds, for each extension, the compile function that extension is given |
| Renderer.GetEngineOutcome | src/Renderer/index.ts:38-108 | the full decision: a cached extension returns its stored function with no load; an absent or false entry is unconfigured; a failed load is not installed; a loaded caching extension returns its own function and stores it; any other loaded extension gets an unstored file stream |
| Renderer.LoadNeverFalse | src/Renderer/index.ts:44-58 | the `: false` alternative is never taken: every wrapper returned holds the module loaded from the table entry |
| Renderer.SecondLookupHits | src/Renderer/index.ts:40 | after a successful lookup of pug, hbs, ejs, scss or sass, the next lookup returns the same function whatever the loader does |
| Renderer.PassThroughRepeatsLoad | src/Renderer/index.ts:104-105 | a configured extension without a case in the switch is never cached, and every lookup repeats the load |
| Renderer.JadeIsPassThrough | src/Renderer/index.ts:68-105 | jade loads the pug package but gets a plain file stream, never the pug compiler, and is never cached |
| Renderer.VerbatimServedAsFile | src/Renderer/index.ts:55-105 | with the corrected load, html, css and js are always served as an unstored file stream |
| Renderer.VerbatimNeverServedAsWritten | src/Renderer/index.ts:55-64 | as written, html, css and js always fail with `'true' engine is not installed`, whatever loads, and the cache is unchanged |
| Renderer.UnconfiguredRejected | src/Renderer/index.ts:44-49 | a switched-off engine fails as unconfigured, and the cache is unchanged |
| Renderer.StylesheetSlotsSeparate | src/Renderer/index.ts:98-102 | scss and sass share a package, but storing scss leaves sass's cache slot as it was |
| Renderer.NoExtensionRejected | src/Renderer/index.ts:30-49 | a file without an extension skips the cache and fails as unconfigured for "" |
| Renderer.Render | src/Renderer/index.ts:30-32 | a file without an extension fails as unconfigured for ""; a failure leaves the cache unchanged, and at most the file's extension is added to it |
| Renderer.RenderUsesExtension | src/Renderer/index.ts:30-32 | rendering `dir/name.ext` looks up `ext` |
| Renderer.GetEngineAsWritten | src/Renderer/index.ts:40-64 | the lookup as written, where an inherited member name is a cache hit and `true` fails to load; it agrees with the corrected lookup on every other name, and a failure leaves the cache unchanged |
| Renderer.ConstructorExtensionCounterexample | src/Renderer/index.ts:40 | for `constructor`, the code as written returns the inherited member; the corrected lookup reports no engine |
| Renderer.GetEngineOnlyConfigured | src/Renderer/index.ts:38-64 | a lookup succeeds exactly for a cached extension, or a configured one whose package loads, and never returns an inherited member |
| Utility.RequireKeys | src/utility.ts:19-27 | nothing is thrown exactly when every listed key is an own key of the object; otherwise the error names the first missing key in list order, with message `Missing key <key>` |
| Utility.Symbols | src/utility.ts:5-10 | the keys are exactly the listed names other than `__proto__`, each holding a symbol described by the name and made for its last occurrence |
| Legacy.RequireKeys | index.js:10-18 | nothing is thrown exactly when every listed key is an own key of the object; otherwise the error names the first missing key in list order, with message `Missing key <key>` |
| Legacy.EmptyListPasses | index.js:10-18 | an empty key list always passes |
| Legacy.UndefinedValueIsPresent | index.js:12 | a key holding `undefined` counts as present |
| Legacy.OutcomeDependsOnKeysOnly | index.js:10-18 | the outcome depends only on the object's key set, never on its values |
| Legacy.Symbols | index.js:2-7 | the keys are exactly the listed names other than `__proto__`, each holding a symbol described by the name and made for its last occurrence |
| Legacy.AppendOverwrites | index.js:3-6 | a later occurrence of a name overwrites its earlier symbol |
| Legacy.ProtoKeyIgnored | index.js:3-6 | naming `__proto__` adds no key and changes no entry |

## Left out

- `config.read`, `config.write`, `dotenv.config`, `process.chdir`, `JSON.parse` and
  `JSON.stringify`: these are file input/output and process state. The environment is an explicit
  sequence of pairs, and the configuration is a value.
- `setupPlugins`, `setupApps`, `validate` and `loadDirectory`: they only forward to the server
  object, or are empty.
- `Route.include` (filesystem traversal and `require`), and the `server.resource`,
  `server.useRouter` and `route.include` calls in the setup routines. The model returns the
  registration or the route instead of calling the server.
- `String.prototype.toLowerCase` is modelled for ASCII letters only. Other characters are
  unchanged, where JavaScript would also lower-case non-ASCII letters.
- `dot.str` is modelled as a set at a dotted path:
  - a missing intermediate becomes an empty object, and an object is descended into;
  - any other intermediate value is an error (`PathBlocked`);
  - the library's bracket and array syntax, and its handling of primitive intermediates, are not
    modelled.
- Numbers in the configuration are integers. Floating point does not arise in the modelled logic.
- Json.SetPath: the `Blocked` failure stands in for what `dot.str` does with a present
  intermediate that is not an object. The library's own behaviour there is not modelled; the
  comment at `src/configFile.ts:76-78` expects the write to throw on a boolean.
- Json.SetPathFailsIffBlocked: states when the stand-in failure above happens, not what the
  library does in that case.
- ConfigEnv.ApplyOverride: the retry with `{}` covers only a redirected plugin entry that is not
  an object. A blocked intermediate deeper on the path still fails, because the comment does not
  say which value would be replaced.
- `Object.entries` order of the plugins object is a parameter that must list every key once.
  Insertion order itself is not modelled.
- ConfigEnv.Redirect: the alias table is consulted by its own keys. As written, the plain-object
  lookup `aliases.plugins[res[1]]` also matches inherited member names such as `constructor`.
  The write would then target a plugin entry that does not exist. That path is not modelled.
- Resource and controller entries outside their declared types (a number, `null`, an array) are
  not modelled.
- Template compilation, markdown, streams and calling the returned compile function are not
  modelled. Compile functions are tags (`PugMarkdown`, `StringTemplate`, `StylesheetStream`,
  `FileStream`).
- `require` and `path.resolve` are modelled as predicates. For a package this is `loads`, which
  folds in `path.resolve(packageDir, name)`; for a resource it is `resolve` together with `loads`.
- Symbols are modelled as a description and a creation serial. Distinct `Symbol()` calls give
  distinct symbols.

## Findings

| source | as written | input that shows it | evidently intended | confidence | as-written member | corrected member |
|---|---|---|---|---|---|---|
| src/Renderer/index.ts:40 | the cache is read with `this._engineCache[ext]`, a plain property read; names every object inherits (`constructor`, `toString`, `__proto__`, …) are truthy hits | `render('page.constructor')` returns `Object` as the compile function, instead of failing with "No engine is configured for constructor filetype." | only compile functions stored by the renderer are cache hits | medium, not executed | Renderer.GetEngineAsWritten, Renderer.ConstructorExtensionCounterexample | Renderer.GetEngine, Renderer.GetEngineOnlyConfigured |
| src/configFile.ts:70-79 | a redirected override writes straight into `obj.plugins[path]`; when that entry is `true`, `dot.str` has no object to write into, and no retry follows | plugins `{'./plugins/foo.js:fooAlias': true}` with `ORIGAMI_PLUGINS_FOOALIAS_ENABLED=false` fails instead of giving `{'./plugins/foo.js': {enabled: 'false'}}` | the entry is replaced by `{}` and the write retried, as the comment at lines 76-78 says | medium, not executed | ConfigEnv.ApplyOverrideAsWritten, ConfigEnv.EnvAsWritten, ConfigEnv.AliasedPluginSwitchCannotTakeOverride | ConfigEnv.ApplyOverride, ConfigEnv.AliasedPluginSwitchTakesOverride, ConfigEnv.FooAliasSwitchExample |
| src/Renderer/index.ts:55-58 | every truthy table value goes through `require(path.resolve(this.packageDir, enginePkgName))`; for the `true` of html, css and js, `path.resolve` throws on the non-string | `render('page.html')` fails with "'true' engine is not installed." | html, css and js are served as is, as a file stream, which is what their `true` in the table and the switch's default case provide | medium, not executed | Renderer.LoadAsWritten, Renderer.GetEngineAsWritten, Renderer.VerbatimNeverServedAsWritten | Renderer.Load, Renderer.GetEngine, Renderer.VerbatimServedAsFile |
