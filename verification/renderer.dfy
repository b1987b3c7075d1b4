/** The renderer's choice of a compile function for a file: cached functions first, then the engine
    table, then an attempt to load the engine's package, then a wrapper chosen by the extension.
    Whether a package loads is a parameter; compiling and streaming are not modelled. */
module Renderer {
  import opened Wrappers
  import opened Engines
  import opened Paths

  /** The value bound to `engine` after the load step: the loaded module of a table value, or `false`. */
  datatype Module = ModuleOf(value: TableValue) | NoModule

  /** The compile functions `_getEngine` returns, by what they do when called. */
  datatype CompileFn =
    | PugMarkdown(engine: Module)        // compile with the markdown filter, resolve to a string
    | StringTemplate(engine: Module)     // compile the template text, resolve to a string
    | StylesheetStream(engine: Module)   // pipe a read stream of the file through the engine
    | FileStream                         // a read stream of the file, untouched
    | PrototypeMember(name: string)      // a member every plain object inherits

  datatype RenderError = NoEngine(ext: string) | NotInstalled(value: TableValue)

  function Message(e: RenderError): string {
    match e
    case NoEngine(ext) => "Origami.Renderer: No engine is configured for " + ext + " filetype."
    case NotInstalled(v) => "Origami.Renderer: '" + ValueText(v) + "' engine is not installed."
  }

  /** The renderer's cache of compile functions, by extension. */
  type Cache = map<string, CompileFn>

  /** The outcome of one lookup and the cache after it. */
  datatype Resolution = Resolution(result: Result<CompileFn, RenderError>, cache: Cache)

  /** The extensions whose compile function is stored in the cache. */
  const CachedExts: set<string> := {"pug", "hbs", "ejs", "scss", "sass"}

  /** The compile function each caching extension is given, from its table entry. */
  function Compiled(ext: string): CompileFn
    requires ext in CachedExts
  {
    if ext == "pug" then PugMarkdown(ModuleOf(Table[ext]))
    else if ext == "hbs" || ext == "ejs" then StringTemplate(ModuleOf(Table[ext]))
    else StylesheetStream(ModuleOf(Table[ext]))
  }

  /** Every cached function is the one its extension is given. */
  ghost predicate CacheSound(c: Cache) {
    forall e :: e in c ==> e in CachedExts && c[e] == Compiled(e)
  }

  /** Whether the engine a table value names can be used: a package name when `require` of it
      succeeds, and `true` (render as is) always, since there is nothing to load. */
  predicate Available(v: TableValue, loads: string -> bool) {
    match v
    case Package(name) => loads(name)
    case Flag(b) => b
  }

  /** The `try` block as the table's "render as is" entries intend it: a package name is loaded, a
      `true` entry needs no package, and a falsy value becomes `false`. */
  function Load(v: TableValue, loads: string -> bool): (r: Result<Module, RenderError>)
    ensures r.Failure? <==> v.Package? && v.name != "" && !loads(v.name)
    ensures r.Failure? ==> r.error == NotInstalled(v)
    ensures r == Success(NoModule) <==> !Truthy(v)
    ensures r.Success? && Truthy(v) ==> r.value == ModuleOf(v)
  {
    if !Truthy(v) then Success(NoModule)
    else if Available(v, loads) then Success(ModuleOf(v))
    else Failure(NotInstalled(v))
  }

  /** The `try` block as written: every truthy value goes through `path.resolve`, which throws on a
      value that is not a string, so `true` always ends in the "not installed" error. */
  function LoadAsWritten(v: TableValue, loads: string -> bool): (r: Result<Module, RenderError>)
    ensures v.Package? || !Truthy(v) ==> r == Load(v, loads)
    ensures v.Flag? && Truthy(v) ==> r == Failure(NotInstalled(v))
  {
    if !Truthy(v) then Success(NoModule)
    else match v
      case Package(name) => if loads(name) then Success(ModuleOf(v)) else Failure(NotInstalled(v))
      case Flag(_) => Failure(NotInstalled(v))
  }

  /** The `switch`: the caching extensions store their wrapper under the extension; every other
      extension gets a plain file stream that is not stored. */
  function Wrap(ext: string, engine: Module, cache: Cache): Resolution {
    match ext
    case "pug" => var f := PugMarkdown(engine); Resolution(Success(f), cache[ext := f])
    case "hbs" => var f := StringTemplate(engine); Resolution(Success(f), cache[ext := f])
    case "ejs" => var f := StringTemplate(engine); Resolution(Success(f), cache[ext := f])
    case "scss" => var f := StylesheetStream(engine); Resolution(Success(f), cache[ext := f])
    case "sass" => var f := StylesheetStream(engine); Resolution(Success(f), cache[ext := f])
    case _ => Resolution(Success(FileStream), cache)
  }

  /** `_getEngine(ext)` with the cache consulted by own keys only. */
  function GetEngine(ext: string, cache: Cache, loads: string -> bool): (r: Resolution)
    ensures r.result.Failure? ==> r.cache == cache
    ensures r.cache.Keys <= cache.Keys + {ext}
    ensures forall e :: e in cache && e != ext ==> e in r.cache && r.cache[e] == cache[e]
  {
    if ext != "" && ext in cache then Resolution(Success(cache[ext]), cache)
    else if ext !in Table || !Truthy(Table[ext]) then Resolution(Failure(NoEngine(ext)), cache)
    else
      match Load(Table[ext], loads)
      case Failure(e) => Resolution(Failure(e), cache)
      case Success(m) => Wrap(ext, m, cache)
  }

  /** `render(file)`: the engine for the file's extension without its dot. Calling the returned
      function on the file is not modelled. */
  function Render(file: string, cache: Cache, loads: string -> bool): (r: Resolution)
    ensures ExtensionOf(file) == "" ==> r == Resolution(Failure(NoEngine("")), cache)
    ensures r.result.Failure? ==> r.cache == cache
    ensures r.cache.Keys <= cache.Keys + {ExtensionOf(file)}
  {
    assert "" !in Table;
    GetEngine(ExtensionOf(file), cache, loads)
  }

  // ------------------------------------------------------------------ properties

  /** The cache only ever holds the function its extension is given. */
  lemma GetEngineKeepsCacheSound(ext: string, cache: Cache, loads: string -> bool)
    requires CacheSound(cache)
    ensures CacheSound(GetEngine(ext, cache, loads).cache)
  {
    if !(ext != "" && ext in cache) && ext in Table && Truthy(Table[ext]) && Load(Table[ext], loads).Success? {
      var m := Load(Table[ext], loads).value;
      if ext in CachedExts {
        PackagedTruthy(ext);
        WrapStoresCompiled(ext, cache);
        assert m == ModuleOf(Table[ext]);
      } else {
        WrapOtherKeepsCache(ext, m, cache);
      }
    }
  }

  /** A caching extension's wrapper, built on its table entry's module, is `Compiled(ext)`. */
  lemma WrapStoresCompiled(ext: string, cache: Cache)
    requires ext in CachedExts && CacheSound(cache)
    ensures Wrap(ext, ModuleOf(Table[ext]), cache) == Resolution(Success(Compiled(ext)), cache[ext := Compiled(ext)])
    ensures CacheSound(cache[ext := Compiled(ext)])
  {
  }

  lemma WrapOtherKeepsCache(ext: string, m: Module, cache: Cache)
    requires ext !in CachedExts
    ensures Wrap(ext, m, cache) == Resolution(Success(FileStream), cache)
  {
  }

  lemma PackagedTruthy(ext: string)
    requires ext in CachedExts
    ensures ext in Table && Truthy(Table[ext]) && Table[ext].Package?
  {
    PackagedArePackages();
  }

  /** What a lookup yields, against an independent statement of the decision: a cached extension
      returns its stored function; otherwise an absent or falsy entry is unconfigured, a package
      that does not load is not installed, and a loaded one gives the extension's own function
      (stored) or a plain file stream (not stored). */
  lemma GetEngineOutcome(ext: string, cache: Cache, loads: string -> bool)
    requires CacheSound(cache)
    ensures var r := GetEngine(ext, cache, loads);
      && (ext != "" && ext in cache ==> r == Resolution(Success(Compiled(ext)), cache))
      && (ext !in cache && (ext !in Table || ext in Unconfigured) ==> r == Resolution(Failure(NoEngine(ext)), cache))
      && (ext !in cache && ext in Table && ext !in Unconfigured && !Available(Table[ext], loads) ==>
            r == Resolution(Failure(NotInstalled(Table[ext])), cache))
      && (ext !in cache && ext in CachedExts && Available(Table[ext], loads) ==>
            r == Resolution(Success(Compiled(ext)), cache[ext := Compiled(ext)]))
      && (ext !in cache && ext in Table && ext !in Unconfigured && ext !in CachedExts && Available(Table[ext], loads) ==>
            r == Resolution(Success(FileStream), cache))
  {
    if ext in Table {
      FalsyIsUnconfigured(ext);
    }
    if ext in CachedExts {
      PackagedTruthy(ext);
    }
  }

  /** The `: false` alternative of the load step is never taken: whatever passed the table check is
      truthy, so a returned wrapper always holds a loaded module. */
  lemma LoadNeverFalse(ext: string, cache: Cache, loads: string -> bool)
    requires CacheSound(cache)
    requires GetEngine(ext, cache, loads).result.Success?
    ensures var f := GetEngine(ext, cache, loads).result.value;
      (f.PugMarkdown? || f.StringTemplate? || f.StylesheetStream?) ==> f.engine == ModuleOf(Table[ext])
  {
    if ext in CachedExts {
      PackagedTruthy(ext);
    }
  }

  /** After a successful lookup of a caching extension, the next lookup is a hit: it returns the
      same function and consults neither the table nor the package loader. */
  lemma SecondLookupHits(ext: string, cache: Cache, loads: string -> bool, loads': string -> bool)
    requires ext in CachedExts
    requires GetEngine(ext, cache, loads).result.Success?
    ensures var r := GetEngine(ext, cache, loads);
      GetEngine(ext, r.cache, loads') == r
  {
  }

  /** An extension that passes the table check but has no case in the switch is never stored, so
      every lookup repeats the load attempt. */
  lemma PassThroughRepeatsLoad(ext: string, cache: Cache, loads: string -> bool)
    requires CacheSound(cache)
    requires ext in Table && ext !in Unconfigured && ext !in CachedExts
    ensures var r := GetEngine(ext, cache, loads);
      && r.cache == cache
      && r.result == (if Available(Table[ext], loads) then Success(FileStream) else Failure(NotInstalled(Table[ext])))
  {
    FalsyIsUnconfigured(ext);
  }

  /** `jade` names the pug package but has no case in the switch: it gets a plain file stream,
      never the pug compiler, and is never stored. */
  lemma JadeIsPassThrough(cache: Cache, loads: string -> bool)
    requires CacheSound(cache)
    ensures var r := GetEngine("jade", cache, loads);
      && r.cache == cache
      && r.result == (if loads("pug") then Success(FileStream) else Failure(NotInstalled(Package("pug"))))
  {
    assert Table["jade"] == Package("pug");
    assert "jade" !in CachedExts;
    PassThroughRepeatsLoad("jade", cache, loads);
  }

  /** `html`, `css` and `js` are `true` in the table ("render as is"): they are served as a plain
      file stream whatever packages are installed, and are never stored. */
  lemma VerbatimServedAsFile(ext: string, cache: Cache, loads: string -> bool)
    requires CacheSound(cache)
    requires ext in Verbatim
    ensures GetEngine(ext, cache, loads) == Resolution(Success(FileStream), cache)
  {
    VerbatimAreOn();
    assert ext !in CachedExts;
    UnconfiguredAreOff();
    assert ext !in Unconfigured;
    PassThroughRepeatsLoad(ext, cache, loads);
  }

  /** A switched-off engine is rejected as unconfigured and the cache is unchanged. */
  lemma UnconfiguredRejected(ext: string, cache: Cache, loads: string -> bool)
    requires CacheSound(cache)
    requires ext in Unconfigured
    ensures GetEngine(ext, cache, loads) == Resolution(Failure(NoEngine(ext)), cache)
  {
    UnconfiguredAreOff();
    if ext in cache {
      PackagedTruthy(ext);
    }
  }

  /** `scss` and `sass` load the same package but are stored under separate keys: storing one
      leaves the other's slot as it was. */
  lemma StylesheetSlotsSeparate(cache: Cache, loads: string -> bool)
    requires CacheSound(cache) && "scss" !in cache
    ensures var r := GetEngine("scss", cache, loads);
      && ("sass" in r.cache <==> "sass" in cache)
      && ("sass" in cache ==> r.cache["sass"] == cache["sass"])
      && Table["scss"] == Table["sass"]
  {
  }

  /** A file without an extension is rejected as unconfigured, whatever the cache holds. */
  lemma NoExtensionRejected(file: string, cache: Cache, loads: string -> bool)
    requires '.' !in Basename(file)
    ensures Render(file, cache, loads) == Resolution(Failure(NoEngine("")), cache)
  {
    NoDotNoExtension(file);
    assert "" !in Table;
  }

  /** Rendering `dir/name.ext` looks up the extension `ext`. */
  lemma RenderUsesExtension(p: string, ext: string, cache: Cache, loads: string -> bool)
    requires |p| > 0 && p[|p| - 1] != '/'
    requires |ext| > 0 && '.' !in ext && '/' !in ext
    ensures Render(p + "." + ext, cache, loads) == GetEngine(ext, cache, loads)
  {
    ExtensionOfName(p, ext);
  }

  // ------------------------------------------------------------------ as written

  /** The members every plain object inherits from `Object.prototype`; indexing the cache object
      with one of these names yields that member, which is truthy. */
  const ObjectPrototypeMembers: set<string> := {
    "constructor", "__proto__", "toString", "toLocaleString", "valueOf", "hasOwnProperty",
    "isPrototypeOf", "propertyIsEnumerable", "__defineGetter__", "__defineSetter__",
    "__lookupGetter__", "__lookupSetter__"
  }

  /** `_getEngine` as written. `this._engineCache[ext]` is an ordinary property read, so an
      extension naming an inherited member is a cache hit that returns the member itself; and the
      load step resolves every truthy table value as a path, so `true` is never served. */
  function GetEngineAsWritten(ext: string, cache: Cache, loads: string -> bool): (r: Resolution)
    ensures ext !in ObjectPrototypeMembers && (ext !in Table || Table[ext] != Flag(true)) ==> r == GetEngine(ext, cache, loads)
    ensures r.result.Failure? ==> r.cache == cache
  {
    if ext != "" && ext in cache then Resolution(Success(cache[ext]), cache)
    else if ext in ObjectPrototypeMembers then Resolution(Success(PrototypeMember(ext)), cache)
    else if ext !in Table || !Truthy(Table[ext]) then Resolution(Failure(NoEngine(ext)), cache)
    else
      match LoadAsWritten(Table[ext], loads)
      case Failure(e) => Resolution(Failure(e), cache)
      case Success(m) => Wrap(ext, m, cache)
  }

  /** As written, a file named `index.html`, `site.css` or `app.js` is never served: the lookup
      fails with "'true' engine is not installed" whatever packages are installed. */
  lemma VerbatimNeverServedAsWritten(ext: string, cache: Cache, loads: string -> bool)
    requires CacheSound(cache)
    requires ext in Verbatim
    ensures GetEngineAsWritten(ext, cache, loads) == Resolution(Failure(NotInstalled(Flag(true))), cache)
  {
    VerbatimAreOn();
    assert ext !in CachedExts;
    assert ext !in ObjectPrototypeMembers;
  }

  /** A file named `x.constructor`: as written the renderer hands back `Object` as the compile
      function; with own-key lookups it is rejected as unconfigured. */
  lemma ConstructorExtensionCounterexample(loads: string -> bool)
    ensures GetEngineAsWritten("constructor", map[], loads).result == Success(PrototypeMember("constructor"))
    ensures GetEngine("constructor", map[], loads).result == Failure(NoEngine("constructor"))
  {
    assert "constructor" !in Table;
  }

  /** With own-key lookups, a lookup succeeds only for a stored extension or a configured one
      whose package loads, and never returns an inherited member. */
  lemma GetEngineOnlyConfigured(ext: string, cache: Cache, loads: string -> bool)
    requires CacheSound(cache)
    ensures var r := GetEngine(ext, cache, loads);
      && (r.result.Success? <==>
            (ext != "" && ext in cache) || (ext in Table && ext !in Unconfigured && Available(Table[ext], loads)))
      && (r.result.Success? ==> !r.result.value.PrototypeMember?)
  {
    if ext in Table {
      FalsyIsUnconfigured(ext);
    }
  }
}
