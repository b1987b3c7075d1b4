/** Properties of the route registrar that relate several operations. */
module RouteFacts {
  import opened Wrappers
  import opened Types
  import opened Route

  // ------------------------------------------------------------------ the constructor quirk

  /** A fresh node reports `pre-render`, yet a registration made before any `position` call lands
      in the `post-store` bucket and the `pre-render` bucket stays empty. */
  lemma FreshRegistrationLandsInPostStore(g: Graph, url: Url, parent: Option<nat>, verb: Method, handlers: seq<Handler>)
    requires Valid(g)
    requires parent.Some? ==> parent.value < |g.nodes|
    ensures var (g1, id) := New(g, url, parent);
      var n := Register(g1, id, verb, handlers).nodes[id];
      && n.current == PreRender
      && n.routers.At(PostStore) == [Entry(ResolvedUrl(g1, id), handlers, verb)]
      && n.routers.At(PreRender) == []
  {
    var (g1, id) := New(g, url, parent);
    var n0 := g1.nodes[id];
    assert n0.routers.At(PreRender) == [];
    assert n0.routers.At(PostStore) == [];
  }

  /** A child created under a fresh parent starts on the parent's reported position `pre-render`,
      not on the parent's active bucket `post-store`. */
  lemma FreshParentChildStartsOnReportedPosition(g: Graph, url: Url, parent: Option<nat>, childUrl: Url)
    requires Valid(g)
    requires parent.Some? ==> parent.value < |g.nodes|
    ensures var (g1, id) := New(g, url, parent);
      var (g2, c) := Nest(g1, id, childUrl);
      && g2.nodes[id].active == PostStore
      && g2.nodes[c].active == PreRender
      && g2.nodes[c].current == PreRender
  {
  }

  // ------------------------------------------------------------------ URLs

  /** A node's URL depends only on the own URLs and parent links of it and its ancestors. */
  lemma {:induction false} UrlFrame(g: Graph, g': Graph, id: nat)
    requires Valid(g) && Valid(g') && id < |g.nodes| && id < |g'.nodes|
    requires forall i :: 0 <= i <= id ==> g'.nodes[i].own == g.nodes[i].own && g'.nodes[i].parent == g.nodes[i].parent
    ensures ResolvedUrl(g', id) == ResolvedUrl(g, id)
    decreases id
  {
    var n := g.nodes[id];
    if n.parent.Some? {
      UrlFrame(g, g', n.parent.value);
    }
  }

  /** Registration changes no node's URL. */
  lemma RegisterKeepsUrls(g: Graph, id: nat, verb: Method, handlers: seq<Handler>, k: nat)
    requires Valid(g) && id < |g.nodes| && k < |g.nodes|
    ensures ResolvedUrl(Register(g, id, verb, handlers), k) == ResolvedUrl(g, k)
  {
    UrlFrame(g, Register(g, id, verb, handlers), k);
  }

  /** The URL of a child made by `route(url)`: its own pattern if it has one, else the text of the
      parent's URL followed by the child's own text. */
  lemma NestedUrl(g: Graph, id: nat, url: Url)
    requires Valid(g) && id < |g.nodes|
    ensures var (g', c) := Nest(g, id, url);
      ResolvedUrl(g', c) == (if url.Regex? then Matcher(url.p) else Text(Stringify(ResolvedUrl(g, id)) + OwnText(url)))
  {
    var (g', c) := Nest(g, id, url);
    UrlFrame(g, g', id);
  }

  /** The own URLs of a node and its ancestors, root first. */
  function Lineage(g: Graph, id: nat): (chain: seq<Url>)
    requires Valid(g) && id < |g.nodes|
    ensures |chain| >= 1 && chain[|chain| - 1] == g.nodes[id].own
    decreases id
  {
    var n := g.nodes[id];
    (if n.parent.Some? then Lineage(g, n.parent.value) else []) + [n.own]
  }

  /** The concatenated own texts of a chain of URLs. */
  function Texts(chain: seq<Url>): string {
    if |chain| == 0 then "" else Texts(chain[..|chain| - 1]) + OwnText(chain[|chain| - 1])
  }

  /** The index of the last pattern in a chain, if any. */
  function LastPattern(chain: seq<Url>): (r: Option<nat>)
    ensures r.Some? ==> r.value < |chain| && chain[r.value].Regex?
  {
    if |chain| == 0 then None
    else if chain[|chain| - 1].Regex? then Some(|chain| - 1)
    else LastPattern(chain[..|chain| - 1])
  }

  /** The URL of a chain, stated without recursion through parents: with no pattern it is the
      concatenation of every own text; otherwise the nearest pattern is returned unchanged when it
      is the node's own, or else stringified and followed by the texts of the nodes below it. */
  function ChainUrl(chain: seq<Url>): Resolved
    requires |chain| >= 1
  {
    match LastPattern(chain)
    case None => Text(Texts(chain))
    case Some(i) =>
      if i == |chain| - 1 then Matcher(chain[i].p)
      else Text(PatternText(chain[i].p) + Texts(chain[i + 1..]))
  }

  lemma TextsSnoc(chain: seq<Url>, u: Url)
    ensures Texts(chain + [u]) == Texts(chain) + OwnText(u)
  {
    assert (chain + [u])[..|chain + [u]| - 1] == chain;
  }

  lemma LastPatternSnoc(chain: seq<Url>, u: Url)
    requires !u.Regex?
    ensures LastPattern(chain + [u]) == LastPattern(chain)
  {
    assert (chain + [u])[..|chain + [u]| - 1] == chain;
  }

  /** Extending a chain with a non-pattern URL appends its text to the chain's stringified URL. */
  lemma {:induction false} ChainUrlAppend(pc: seq<Url>, u: Url)
    requires |pc| >= 1 && !u.Regex?
    ensures ChainUrl(pc + [u]) == Text(Stringify(ChainUrl(pc)) + OwnText(u))
  {
    LastPatternSnoc(pc, u);
    match LastPattern(pc)
    case None => ChainUrlAppendPlain(pc, u);
    case Some(i) =>
      if i == |pc| - 1 {
        ChainUrlAppendOwnPattern(pc, u);
      } else {
        ChainUrlAppendInnerPattern(pc, u, i);
      }
  }

  lemma {:induction false} ChainUrlAppendPlain(pc: seq<Url>, u: Url)
    requires |pc| >= 1 && !u.Regex?
    requires LastPattern(pc).None? && LastPattern(pc + [u]).None?
    ensures ChainUrl(pc + [u]) == Text(Texts(pc) + OwnText(u))
    ensures ChainUrl(pc) == Text(Texts(pc))
  {
    TextsSnoc(pc, u);
  }

  lemma {:induction false} ChainUrlAppendOwnPattern(pc: seq<Url>, u: Url)
    requires |pc| >= 1 && !u.Regex?
    requires LastPattern(pc) == Some(|pc| - 1) && LastPattern(pc + [u]) == Some(|pc| - 1)
    ensures ChainUrl(pc) == Matcher(pc[|pc| - 1].p)
    ensures ChainUrl(pc + [u]) == Text(PatternText(pc[|pc| - 1].p) + OwnText(u))
  {
    var chain := pc + [u];
    var i := |pc| - 1;
    assert chain[i + 1..] == [] + [u];
    TextsSnoc([], u);
  }

  lemma {:induction false} ChainUrlAppendInnerPattern(pc: seq<Url>, u: Url, i: nat)
    requires |pc| >= 1 && !u.Regex? && i < |pc| - 1
    requires LastPattern(pc) == Some(i) && LastPattern(pc + [u]) == Some(i)
    ensures ChainUrl(pc) == Text(PatternText(pc[i].p) + Texts(pc[i + 1..]))
    ensures ChainUrl(pc + [u]) == Text(PatternText(pc[i].p) + Texts(pc[i + 1..]) + OwnText(u))
  {
    var chain := pc + [u];
    assert chain[i] == pc[i];
    assert chain[i + 1..] == pc[i + 1..] + [u];
    TextsSnoc(pc[i + 1..], u);
  }

  /** The recursive `url` getter agrees with the chain description. */
  lemma {:induction false} UrlIsChainUrl(g: Graph, id: nat)
    requires Valid(g) && id < |g.nodes|
    ensures ResolvedUrl(g, id) == ChainUrl(Lineage(g, id))
    decreases id
  {
    var n := g.nodes[id];
    var chain := Lineage(g, id);
    if n.own.Regex? {
      assert LastPattern(chain) == Some(|chain| - 1);
    } else if n.parent.None? {
      assert chain == [n.own];
      assert LastPattern(chain) == None;
      assert Texts(chain) == Texts([]) + OwnText(n.own);
    } else {
      var pid := n.parent.value;
      UrlIsChainUrl(g, pid);
      ChainUrlAppend(Lineage(g, pid), n.own);
    }
  }

  // ------------------------------------------------------------------ sequences of registrations

  /** The entries a run of registrations appends when the node's URL is `u`. */
  function EntriesFor(u: Resolved, regs: seq<(Method, seq<Handler>)>): (es: seq<Entry>)
    ensures |es| == |regs|
  {
    seq(|regs|, i requires 0 <= i < |regs| => Entry(u, regs[i].1, regs[i].0))
  }

  /** Registrations made one after another on one node. */
  function RegisterEach(g: Graph, id: nat, regs: seq<(Method, seq<Handler>)>): (r: Graph)
    requires Valid(g) && id < |g.nodes|
    ensures Valid(r) && |r.nodes| == |g.nodes|
    decreases |regs|
  {
    if |regs| == 0 then g
    else RegisterEach(Register(g, id, regs[0].0, regs[0].1), id, regs[1..])
  }

  /** Two appends to the same node in a row are one append of both runs. */
  lemma AppendedRunChain(g: Graph, g1: Graph, g2: Graph, id: nat, es1: seq<Entry>, es2: seq<Entry>)
    requires id < |g.nodes|
    requires AppendedRunToActive(g, g1, id, es1) && AppendedRunToActive(g1, g2, id, es2)
    ensures AppendedRunToActive(g, g2, id, es1 + es2)
  {
    var n, n1, n2 := g.nodes[id], g1.nodes[id], g2.nodes[id];
    assert n1.active == n.active;
    assert n2.routers.At(n.active) == n.routers.At(n.active) + es1 + es2;
    assert n2.routers.At(n.active) == n.routers.At(n.active) + (es1 + es2);
  }

  /** A run of registrations appends its entries, in call order, to the active bucket only; the
      node's URL, position, nested list and every other node are unchanged. */
  lemma {:induction false} RegisterEachAppends(g: Graph, id: nat, regs: seq<(Method, seq<Handler>)>)
    requires Valid(g) && id < |g.nodes|
    ensures AppendedRunToActive(g, RegisterEach(g, id, regs), id, EntriesFor(ResolvedUrl(g, id), regs))
    ensures ResolvedUrl(RegisterEach(g, id, regs), id) == ResolvedUrl(g, id)
    decreases |regs|
  {
    var u := ResolvedUrl(g, id);
    if |regs| == 0 {
      AppendedNothing(g, id);
    } else {
      var g1 := Register(g, id, regs[0].0, regs[0].1);
      RegisterKeepsUrls(g, id, regs[0].0, regs[0].1, id);
      RegisterEachAppends(g1, id, regs[1..]);
      EntriesForCons(u, regs);
      AppendedRunChain(g, g1, RegisterEach(g1, id, regs[1..]), id, [Entry(u, regs[0].1, regs[0].0)], EntriesFor(u, regs[1..]));
    }
  }

  lemma AppendedNothing(g: Graph, id: nat)
    requires id < |g.nodes|
    ensures AppendedRunToActive(g, g, id, [])
  {
    assert g.nodes[id].routers.At(g.nodes[id].active) + [] == g.nodes[id].routers.At(g.nodes[id].active);
  }

  lemma EntriesForCons(u: Resolved, regs: seq<(Method, seq<Handler>)>)
    requires |regs| > 0
    ensures EntriesFor(u, regs) == [Entry(u, regs[0].1, regs[0].0)] + EntriesFor(u, regs[1..])
  {
  }

  /** After a successful `position(name)`, later registrations append only to the bucket `name`
      denotes, in order, and every other bucket keeps the contents it had before. */
  lemma RegistrationsFollowPosition(g: Graph, id: nat, name: string, regs: seq<(Method, seq<Handler>)>)
    requires Valid(g) && id < |g.nodes|
    requires name in PositionNames
    ensures var s := SetPosition(g, id, name);
      var p := ParsePosition(name).value;
      var r := RegisterEach(s.graph, id, regs);
      && s.thrown.None?
      && r.nodes[id].routers.At(p) == g.nodes[id].routers.At(p) + EntriesFor(ResolvedUrl(g, id), regs)
      && (forall q :: q != p ==> r.nodes[id].routers.At(q) == g.nodes[id].routers.At(q))
      && r.nodes[id].nested == g.nodes[id].nested
  {
    var s := SetPosition(g, id, name);
    var p := ParsePosition(name).value;
    PositionNameRoundTrip(p, name);
    assert s.graph.nodes[id].active == p;
    assert s.graph.nodes[id].routers == g.nodes[id].routers;
    RegisterEachAppends(s.graph, id, regs);
    UrlFrame(g, s.graph, id);
    assert ResolvedUrl(s.graph, id) == ResolvedUrl(g, id);
  }

  // ------------------------------------------------------------------ scripts of calls

  /** A call on one node: a registration or a `position` change. */
  datatype Call = Registration(verb: Method, handlers: seq<Handler>) | Reposition(name: string)

  function Registrations(calls: seq<Call>): nat {
    if |calls| == 0 then 0
    else (if calls[0].Registration? then 1 else 0) + Registrations(calls[1..])
  }

  /** Runs the calls in order; the first unknown position throws and ends the run. */
  function Run(g: Graph, id: nat, calls: seq<Call>): (r: Step)
    requires Valid(g) && id < |g.nodes|
    ensures Valid(r.graph) && |r.graph.nodes| == |g.nodes|
    decreases |calls|
  {
    if |calls| == 0 then Step(g, None)
    else match calls[0]
      case Registration(v, hs) => Run(Register(g, id, v, hs), id, calls[1..])
      case Reposition(name) =>
        var s := SetPosition(g, id, name);
        if s.thrown.Some? then s else Run(s.graph, id, calls[1..])
  }

  /** When every position named is known, the run throws nothing and the node holds exactly one
      more entry per registration call. */
  lemma {:induction false} RunCountsRegistrations(g: Graph, id: nat, calls: seq<Call>)
    requires Valid(g) && id < |g.nodes|
    requires forall k :: 0 <= k < |calls| && calls[k].Reposition? ==> calls[k].name in PositionNames
    ensures Run(g, id, calls).thrown.None?
    ensures Run(g, id, calls).graph.nodes[id].routers.Total() == g.nodes[id].routers.Total() + Registrations(calls)
    decreases |calls|
  {
    if |calls| > 0 {
      assert forall k :: 0 <= k < |calls[1..]| ==> calls[1..][k] == calls[k + 1];
      match calls[0]
      case Registration(v, hs) =>
        RunCountsRegistrations(Register(g, id, v, hs), id, calls[1..]);
      case Reposition(name) =>
        RunCountsRegistrations(SetPosition(g, id, name).graph, id, calls[1..]);
    }
  }

  /** No run of calls loses an entry: every bucket of every node before the run is a prefix of
      the same bucket after it, whatever positions are switched to and even if a call throws. */
  lemma {:induction false} RunNeverLosesEntries(g: Graph, id: nat, calls: seq<Call>)
    requires Valid(g) && id < |g.nodes|
    ensures forall i, q :: 0 <= i < |g.nodes| ==>
      g.nodes[i].routers.At(q) <= Run(g, id, calls).graph.nodes[i].routers.At(q)
    decreases |calls|
  {
    if |calls| > 0 {
      match calls[0]
      case Registration(v, hs) =>
        var g1 := Register(g, id, v, hs);
        RunNeverLosesEntries(g1, id, calls[1..]);
        forall i, q | 0 <= i < |g.nodes|
          ensures g.nodes[i].routers.At(q) <= Run(g, id, calls).graph.nodes[i].routers.At(q)
        {
          assert g.nodes[i].routers.At(q) <= g1.nodes[i].routers.At(q);
        }
      case Reposition(name) =>
        var s := SetPosition(g, id, name);
        if s.thrown.None? {
          RunNeverLosesEntries(s.graph, id, calls[1..]);
        }
    }
  }
}
