/** The per-entry normalisation done while wiring a configuration into a server: each resource
    entry becomes a registration with a chosen `auth`, and each controller entry becomes a route
    whose URL is the entry's prefix. Path resolution and module loading are parameters. */
module ConfigSetup {
  import opened Wrappers
  import opened Types
  import opened Route
  import opened RouteFacts

  /** `Object.entries` of a missing section throws a `TypeError`. */
  datatype SetupError = MissingSection

  // ------------------------------------------------------------------ resources

  /** The outcome of one resource entry: a call `server.resource(name, {model, auth})`, where the
      model is the module loaded from `modelPath`, or an error that is logged; the error is not
      thrown, so the remaining entries are still processed. */
  datatype ResourceOutcome =
    | Registered(name: string, modelPath: string, auth: Option<Auth>)
    | LoadFailed(message: string)

  /** The module path named by an entry, before resolution against the context directory. */
  function ModelOf(entry: ResourceEntry): string {
    match entry
    case ResourcePath(p) => p
    case ResourceConfig(m, _) => m
  }

  /** One resource entry. `resolve` is `path.resolve(context, _)`; `loads` says whether `require`
      of a resolved path succeeds. A path entry is registered with `auth = true`, an object entry
      with its own `auth` (absent when the object has none). */
  function Resource(name: string, entry: ResourceEntry, resolve: string -> string, loads: string -> bool): (r: ResourceOutcome)
    ensures r.Registered? <==> loads(resolve(ModelOf(entry)))
    ensures r.Registered? ==> r.name == name && r.modelPath == resolve(ModelOf(entry))
    ensures r.Registered? && entry.ResourcePath? ==> r.auth == Some(AuthFlag(true))
    ensures r.Registered? && entry.ResourceConfig? ==> r.auth == entry.auth
    ensures r.LoadFailed? ==> r.message == "Could not load resource " + name + " at " + resolve(ModelOf(entry))
  {
    var mPath := resolve(ModelOf(entry));
    if !loads(mPath) then LoadFailed("Could not load resource " + name + " at " + mPath)
    else match entry
      case ResourcePath(_) => Registered(name, mPath, Some(AuthFlag(true)))
      case ResourceConfig(_, auth) => Registered(name, mPath, auth)
  }

  /** Both spellings of the same model with `auth: true` register identically. */
  lemma PathIsConfigWithAuth(name: string, p: string, resolve: string -> string, loads: string -> bool)
    ensures Resource(name, ResourcePath(p), resolve, loads)
      == Resource(name, ResourceConfig(p, Some(AuthFlag(true))), resolve, loads)
  {
  }

  function ResourcesFrom(es: Entries<ResourceEntry>, resolve: string -> string, loads: string -> bool): (r: seq<ResourceOutcome>)
    ensures |r| == |es|
  {
    if |es| == 0 then []
    else [Resource(es[0].0, es[0].1, resolve, loads)] + ResourcesFrom(es[1..], resolve, loads)
  }

  /** `setupResources`: one outcome per entry, in entry order; a configuration without a
      resources section throws. */
  function SetupResources(resources: Option<Entries<ResourceEntry>>, resolve: string -> string, loads: string -> bool): (r: Result<seq<ResourceOutcome>, SetupError>)
    ensures r.Failure? <==> resources.None?
    ensures r.Success? ==> |r.value| == |resources.value|
  {
    match resources
    case None => Failure(MissingSection)
    case Some(es) => Success(ResourcesFrom(es, resolve, loads))
  }

  /** The outcome at each position is that entry's own outcome: a failing entry neither stops
      nor changes the others. */
  lemma {:induction false} ResourcesPointwise(es: Entries<ResourceEntry>, resolve: string -> string, loads: string -> bool, i: nat)
    requires i < |es|
    ensures ResourcesFrom(es, resolve, loads)[i] == Resource(es[i].0, es[i].1, resolve, loads)
    decreases i
  {
    if i > 0 {
      ResourcesPointwise(es[1..], resolve, loads, i - 1);
    }
  }

  /** Every registered resource is named after its entry, and every entry whose model loads is
      registered. */
  lemma SetupResourcesRegistersLoadable(es: Entries<ResourceEntry>, resolve: string -> string, loads: string -> bool, i: nat)
    requires i < |es|
    ensures var r := SetupResources(Some(es), resolve, loads).value[i];
      && (r.Registered? <==> loads(resolve(ModelOf(es[i].1))))
      && (r.Registered? ==> r.name == es[i].0)
  {
    ResourcesPointwise(es, resolve, loads, i);
  }

  // ------------------------------------------------------------------ controllers

  /** The fields an object entry spreads over the defaults: `prefix` when it has one. */
  function OwnFields(c: ControllerEntry): map<string, string>
    requires c.ControllerConfig?
  {
    if c.prefixField.Some? then map["prefix" := c.prefixField.value] else map[]
  }

  /** The defaults `{prefix: ''}` every entry starts from. */
  const ControllerDefaults: map<string, string> := map["prefix" := ""]

  /** The prefix of a controller entry: a string entry is the prefix; an object entry's fields are
      spread over the defaults, so its own `prefix` wins and its absence leaves `''`. */
  function ControllerPrefixOf(c: ControllerEntry): (prefix: string)
    ensures c.ControllerPrefix? ==> prefix == c.prefix
    ensures c.ControllerConfig? ==> prefix == (ControllerDefaults + OwnFields(c))["prefix"]
  {
    match c
    case ControllerPrefix(s) => s
    case ControllerConfig(p) => if p.Some? then p.value else ""
  }

  /** One controller entry: a new root route whose URL is the prefix. */
  function ControllerRoute(g: Graph, c: ControllerEntry): (r: (Graph, nat))
    requires Valid(g)
    ensures Valid(r.0) && r.1 == |g.nodes| && |r.0.nodes| == |g.nodes| + 1
    ensures r.0.nodes[..|g.nodes|] == g.nodes
    ensures ResolvedUrl(r.0, r.1) == Text(ControllerPrefixOf(c))
    ensures r.0.nodes[r.1].parent.None? && r.0.nodes[r.1].routers.Total() == 0
  {
    var prefix := ControllerPrefixOf(c);
    var r := New(g, Lit(prefix), None);
    assert ResolvedUrl(r.0, r.1) == Text("" + prefix);
    assert "" + prefix == prefix;
    r
  }

  function ControllersFrom(g: Graph, es: Entries<ControllerEntry>): (r: Graph)
    requires Valid(g)
    ensures Valid(r) && |r.nodes| == |g.nodes| + |es|
    ensures r.nodes[..|g.nodes|] == g.nodes
    decreases |es|
  {
    if |es| == 0 then g
    else ControllersFrom(ControllerRoute(g, es[0].1).0, es[1..])
  }

  /** `setupControllers`: one new root route per entry, created in entry order (each is built
      before the callback's first `await`); a configuration without a controllers section throws. */
  function SetupControllers(g: Graph, controllers: Option<Entries<ControllerEntry>>): (r: Result<Graph, SetupError>)
    requires Valid(g)
    ensures r.Failure? <==> controllers.None?
    ensures r.Success? ==> Valid(r.value) && |r.value.nodes| == |g.nodes| + |controllers.value|
  {
    match controllers
    case None => Failure(MissingSection)
    case Some(es) => Success(ControllersFrom(g, es))
  }

  /** The route created for the `i`-th entry is a root whose URL is that entry's prefix. */
  lemma {:induction false} ControllersFromUrl(g: Graph, es: Entries<ControllerEntry>, i: nat)
    requires Valid(g) && i < |es|
    ensures var r := ControllersFrom(g, es);
      && r.nodes[|g.nodes| + i].parent.None?
      && ResolvedUrl(r, |g.nodes| + i) == Text(ControllerPrefixOf(es[i].1))
    decreases |es|
  {
    var (g1, id) := ControllerRoute(g, es[0].1);
    var r := ControllersFrom(g, es);
    assert r == ControllersFrom(g1, es[1..]);
    if i == 0 {
      FirstControllerUrl(g, es);
    } else {
      ControllersFromUrl(g1, es[1..], i - 1);
      assert |g1.nodes| + (i - 1) == |g.nodes| + i;
      assert es[1..][i - 1] == es[i];
    }
  }

  lemma FirstControllerUrl(g: Graph, es: Entries<ControllerEntry>)
    requires Valid(g) && 0 < |es|
    ensures var r := ControllersFrom(g, es);
      && r.nodes[|g.nodes|].parent.None?
      && ResolvedUrl(r, |g.nodes|) == Text(ControllerPrefixOf(es[0].1))
  {
    var (g1, id) := ControllerRoute(g, es[0].1);
    PrefixUrlKept(g1, es[1..], id);
  }

  /** Later controllers leave the routes already created untouched, so their URLs stay. */
  lemma {:induction false} PrefixUrlKept(g: Graph, es: Entries<ControllerEntry>, id: nat)
    requires Valid(g) && id < |g.nodes|
    ensures ControllersFrom(g, es).nodes[id] == g.nodes[id]
    ensures ResolvedUrl(ControllersFrom(g, es), id) == ResolvedUrl(g, id)
    decreases |es|
  {
    var r := ControllersFrom(g, es);
    forall i | 0 <= i <= id ensures r.nodes[i] == g.nodes[i] {
      assert r.nodes[i] == r.nodes[..|g.nodes|][i];
    }
    UrlFrame(g, r, id);
  }

  /** The controllers section's prefixes, one per created route, in order. */
  lemma SetupControllersUrls(g: Graph, es: Entries<ControllerEntry>, i: nat)
    requires Valid(g) && i < |es|
    ensures var r := SetupControllers(g, Some(es)).value;
      ResolvedUrl(r, |g.nodes| + i) == Text(ControllerPrefixOf(es[i].1))
  {
    ControllersFromUrl(g, es, i);
  }
}
