/** The route registrar: route nodes with eight ordered handler buckets, a current position, an
    active bucket and nested child routes.

    JavaScript route objects are shared by reference: a child returned by `route` is also listed in
    its parent's `nested`, and its URL is recomputed through its parent on every read. The model
    keeps that sharing by storing every node of a program in one `Graph` and referring to nodes by
    their index in it. */
module Route {
  import opened Wrappers
  import opened Types
  import opened Text

  /** A handler given to a registration: a middleware function (named by an identity) or a string
      naming a registered middleware. */
  datatype Handler = Middleware(id: nat) | NamedMiddleware(name: string)

  /** One registration: the URL at the time of the call, the handlers and the method. */
  datatype Entry = Entry(path: Resolved, handlers: seq<Handler>, verb: Method)

  /** The eight buckets of a node, one ordered list of entries per position. */
  datatype Routers = Routers(
    init: seq<Entry>, preStore: seq<Entry>, store: seq<Entry>, postStore: seq<Entry>,
    preRender: seq<Entry>, render: seq<Entry>, postRender: seq<Entry>, preSend: seq<Entry>)
  {
    function At(p: Position): seq<Entry> {
      match p
      case Init => init
      case PreStore => preStore
      case Store => store
      case PostStore => postStore
      case PreRender => preRender
      case Render => render
      case PostRender => postRender
      case PreSend => preSend
    }

    /** The buckets with bucket `p` replaced and every other bucket kept. */
    function With(p: Position, s: seq<Entry>): (r: Routers)
      ensures r.At(p) == s
      ensures forall q :: q != p ==> r.At(q) == At(q)
    {
      match p
      case Init => this.(init := s)
      case PreStore => this.(preStore := s)
      case Store => this.(store := s)
      case PostStore => this.(postStore := s)
      case PreRender => this.(preRender := s)
      case Render => this.(render := s)
      case PostRender => this.(postRender := s)
      case PreSend => this.(preSend := s)
    }

    /** The number of entries over all buckets. */
    function Total(): nat {
      |init| + |preStore| + |store| + |postStore| + |preRender| + |render| + |postRender| + |preSend|
    }
  }

  const NoRouters := Routers([], [], [], [], [], [], [], [])

  /** A route object. `current` is the reported position, `active` the bucket registrations go to. */
  datatype Node = Node(own: Url, parent: Option<nat>, routers: Routers, current: Position,
                       active: Position, nested: seq<nat>)

  /** Every route object of a program; a node is referred to by its index. */
  datatype Graph = Graph(nodes: seq<Node>)

  /** An operation's resulting objects and the error it threw, if any. */
  datatype Step = Step(graph: Graph, thrown: Option<RouteError>)

  datatype RouteError = UnknownPosition(name: string)

  function ErrorMessage(e: RouteError): string {
    "Origami.Route: No position " + e.name
  }

  /** Parents were created before their children, and nested lists refer to existing nodes. */
  predicate Valid(g: Graph) {
    && (forall i :: 0 <= i < |g.nodes| && g.nodes[i].parent.Some? ==> g.nodes[i].parent.value < i)
    && (forall i, j :: 0 <= i < |g.nodes| && 0 <= j < |g.nodes[i].nested| ==> g.nodes[i].nested[j] < |g.nodes|)
  }

  /** `this._url || ''`: the own URL's text, with `null` and the empty string both giving "". */
  function OwnText(u: Url): string {
    match u
    case Lit(s) => s
    case _ => ""
  }

  /** The `url` getter: a node whose own URL is a pattern returns that pattern; any other node
      returns the text of its parent's URL (or "") followed by its own text. */
  function ResolvedUrl(g: Graph, id: nat): (r: Resolved)
    requires Valid(g) && id < |g.nodes|
    ensures r.Matcher? <==> g.nodes[id].own.Regex?
    ensures r.Matcher? ==> r.p == g.nodes[id].own.p
    ensures r.Text? ==> EndsWith(r.s, OwnText(g.nodes[id].own))
    ensures r.Text? && g.nodes[id].parent.None? ==> r.s == OwnText(g.nodes[id].own)
    decreases id
  {
    var n := g.nodes[id];
    match n.own
    case Regex(p) => Matcher(p)
    case _ =>
      var prefix := if n.parent.Some? then Stringify(ResolvedUrl(g, n.parent.value)) else "";
      Text(prefix + OwnText(n.own))
  }

  // ------------------------------------------------------------------ position

  /** The setter of `_position` for a name that is one of the eight positions. */
  function SelectPosition(n: Node, p: Position): Node {
    n.(active := p, current := p)
  }

  /** `position(name)`: a known name selects both the active bucket and the reported position; an
      unknown name throws before anything is assigned. */
  function SetPosition(g: Graph, id: nat, name: string): (r: Step)
    requires Valid(g) && id < |g.nodes|
    ensures Valid(r.graph) && |r.graph.nodes| == |g.nodes|
    ensures r.thrown.None? <==> name in PositionNames
    ensures r.thrown.Some? ==> r.thrown.value == UnknownPosition(name) && r.graph == g
    ensures r.thrown.None? ==>
      && PositionName(r.graph.nodes[id].active) == name
      && r.graph.nodes[id].current == r.graph.nodes[id].active
      && r.graph.nodes[id].routers == g.nodes[id].routers
      && r.graph.nodes[id].nested == g.nodes[id].nested
      && (forall i :: 0 <= i < |g.nodes| && i != id ==> r.graph.nodes[i] == g.nodes[i])
  {
    match ParsePosition(name)
    case None => Step(g, Some(UnknownPosition(name)))
    case Some(p) =>
      PositionNameRoundTrip(p, name);
      Step(g.(nodes := g.nodes[id := SelectPosition(g.nodes[id], p)]), None)
  }

  // ------------------------------------------------------------------ construction

  /** `new Route(url, parent)`: all buckets empty; the constructor calls `position('pre-render')`
      and afterwards points the active bucket at `post-store`. */
  function New(g: Graph, url: Url, parent: Option<nat>): (r: (Graph, nat))
    requires Valid(g)
    requires parent.Some? ==> parent.value < |g.nodes|
    ensures Valid(r.0)
    ensures r.1 == |g.nodes| && |r.0.nodes| == |g.nodes| + 1 && r.0.nodes[..|g.nodes|] == g.nodes
    ensures r.0.nodes[r.1].own == url && r.0.nodes[r.1].parent == parent
    ensures r.0.nodes[r.1].current == PreRender && r.0.nodes[r.1].active == PostStore
    ensures r.0.nodes[r.1].routers.Total() == 0 && r.0.nodes[r.1].nested == []
  {
    // `_curposition` starts as 'init'; the active bucket is set by the position call below.
    var blank := Node(url, parent, NoRouters, Init, Init, []);
    var positioned := SelectPosition(blank, PreRender);
    var node := positioned.(nested := [], active := PostStore);
    (Graph(g.nodes + [node]), |g.nodes|)
  }

  // ------------------------------------------------------------------ registration

  /** `r` is `g` with `es` appended, in order, to the end of node `id`'s active bucket: the node's
      other buckets, positions, URL, parent and nested list, and every other node, are unchanged. */
  predicate AppendedRunToActive(g: Graph, r: Graph, id: nat, es: seq<Entry>)
    requires id < |g.nodes|
  {
    && |r.nodes| == |g.nodes|
    && (forall i :: 0 <= i < |g.nodes| && i != id ==> r.nodes[i] == g.nodes[i])
    && var n, n' := g.nodes[id], r.nodes[id];
      && n'.routers.At(n.active) == n.routers.At(n.active) + es
      && (forall q :: q != n.active ==> n'.routers.At(q) == n.routers.At(q))
      && n'.routers.Total() == n.routers.Total() + |es|
      && n' == n.(routers := n'.routers)
  }

  /** `r` is `g` with the single entry `e` appended to node `id`'s active bucket. */
  predicate AppendedToActive(g: Graph, r: Graph, id: nat, e: Entry)
    requires id < |g.nodes|
  {
    AppendedRunToActive(g, r, id, [e])
  }

  /** `_route(method, ...handlers)`: appends one entry, carrying the node's URL at call time, to
      the end of the active bucket. Nothing else changes; the call returns the same node. */
  function Register(g: Graph, id: nat, verb: Method, handlers: seq<Handler>): (r: Graph)
    requires Valid(g) && id < |g.nodes|
    ensures Valid(r)
    ensures AppendedToActive(g, r, id, Entry(ResolvedUrl(g, id), handlers, verb))
  {
    var n := g.nodes[id];
    var bucket := n.routers.At(n.active);
    var routers := n.routers.With(n.active, bucket + [Entry(ResolvedUrl(g, id), handlers, verb)]);
    RoutersWithTotal(n.routers, n.active, bucket + [Entry(ResolvedUrl(g, id), handlers, verb)]);
    g.(nodes := g.nodes[id := n.(routers := routers)])
  }

  lemma RoutersWithTotal(rs: Routers, p: Position, s: seq<Entry>)
    ensures rs.With(p, s).Total() == rs.Total() - |rs.At(p)| + |s|
  {
  }

  /** `get(...handlers)` records a GET entry in the active bucket. */
  function RegisterGet(g: Graph, id: nat, handlers: seq<Handler>): (r: Graph)
    requires Valid(g) && id < |g.nodes|
    ensures Valid(r)
    ensures AppendedToActive(g, r, id, Entry(ResolvedUrl(g, id), handlers, GET))
  {
    Register(g, id, GET, handlers)
  }

  /** `post(...handlers)` records a POST entry in the active bucket. */
  function RegisterPost(g: Graph, id: nat, handlers: seq<Handler>): (r: Graph)
    requires Valid(g) && id < |g.nodes|
    ensures Valid(r)
    ensures AppendedToActive(g, r, id, Entry(ResolvedUrl(g, id), handlers, POST))
  {
    Register(g, id, POST, handlers)
  }

  /** `put(...handlers)` records a PUT entry in the active bucket. */
  function RegisterPut(g: Graph, id: nat, handlers: seq<Handler>): (r: Graph)
    requires Valid(g) && id < |g.nodes|
    ensures Valid(r)
    ensures AppendedToActive(g, r, id, Entry(ResolvedUrl(g, id), handlers, PUT))
  {
    Register(g, id, PUT, handlers)
  }

  /** `delete(...handlers)` records a DELETE entry in the active bucket. */
  function RegisterDelete(g: Graph, id: nat, handlers: seq<Handler>): (r: Graph)
    requires Valid(g) && id < |g.nodes|
    ensures Valid(r)
    ensures AppendedToActive(g, r, id, Entry(ResolvedUrl(g, id), handlers, DELETE))
  {
    Register(g, id, DELETE, handlers)
  }

  /** `all(...handlers)` records a USE entry, exactly like `use`. */
  function RegisterAll(g: Graph, id: nat, handlers: seq<Handler>): (r: Graph)
    requires Valid(g) && id < |g.nodes|
    ensures Valid(r)
    ensures AppendedToActive(g, r, id, Entry(ResolvedUrl(g, id), handlers, USE))
  {
    Register(g, id, USE, handlers)
  }

  /** `use(...handlers)` records a USE entry in the active bucket. */
  function RegisterUse(g: Graph, id: nat, handlers: seq<Handler>): (r: Graph)
    requires Valid(g) && id < |g.nodes|
    ensures Valid(r)
    ensures AppendedToActive(g, r, id, Entry(ResolvedUrl(g, id), handlers, USE))
  {
    Register(g, id, USE, handlers)
  }

  /** `all` and `use` are the same registration. */
  lemma AllIsUse(g: Graph, id: nat, handlers: seq<Handler>)
    requires Valid(g) && id < |g.nodes|
    ensures RegisterAll(g, id, handlers) == RegisterUse(g, id, handlers)
  {
  }

  // ------------------------------------------------------------------ nesting

  /** `route(url)`: creates a child whose parent is this node, moves the child to this node's
      reported position, and appends it to this node's `nested` list. */
  function Nest(g: Graph, id: nat, url: Url): (r: (Graph, nat))
    requires Valid(g) && id < |g.nodes|
    ensures Valid(r.0)
    ensures r.1 == |g.nodes| && |r.0.nodes| == |g.nodes| + 1
    ensures forall i :: 0 <= i < |g.nodes| && i != id ==> r.0.nodes[i] == g.nodes[i]
    ensures var n, n', c := g.nodes[id], r.0.nodes[id], r.0.nodes[r.1];
      && n'.nested == n.nested + [r.1]
      && n' == n.(nested := n'.nested)
      && c.own == url && c.parent == Some(id) && c.nested == []
      && c.current == n.current && c.active == n.current
      && c.routers.Total() == 0
  {
    var (g1, child) := New(g, url, Some(id));
    var c := SelectPosition(g1.nodes[child], g.nodes[id].current);
    var g2 := g1.(nodes := g1.nodes[child := c]);
    var p := g2.nodes[id];
    (g2.(nodes := g2.nodes[id := p.(nested := p.nested + [child])]), child)
  }
}
