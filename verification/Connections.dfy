/** Connections in a validated profile: what the expansion wires up is what the assemblies found by their paths declare. */
module Connections {
  import opened Common
  import opened HardwareProfile
  import opened DefinitionCycles
  import opened Expansion
  import opened HardwareValidation
  import opened Addressing
  import Endpoints

  /** One of these connections, its endpoints addressed from `base`, is this link. */
  predicate Listed(base: string, connections: seq<Connection>, l: Link) {
    exists w :: w in connections && LinkOf(base, w) == l
  }

  /** The link is a connection of this assembly, its own or its definition's. */
  predicate Wires(v: View, path: string, l: Link) {
    (v.definition.Some? && Listed(path, v.definition.value.members.connections, l))
    || Listed(path, v.instance.members.connections, l)
  }

  lemma {:induction false} OneMoreListed(base: string, connections: seq<Connection>, n: nat, l: Link)
    requires 0 < n <= |connections|
    ensures Listed(base, connections[..n], l) <==>
            Listed(base, connections[..n - 1], l) || LinkOf(base, connections[n - 1]) == l
  {
    assert connections[..n] == connections[..n - 1] + [connections[n - 1]];
  }

  lemma {:induction false} ConnectionsAdded(s: Wiring, base: string, connections: seq<Connection>, n: nat, l: Link)
    requires n <= |connections|
    ensures l in WithConnections(s, base, connections, n).links <==> l in s.links || Listed(base, connections[..n], l)
  {
    if n > 0 {
      ConnectionsAdded(s, base, connections, n - 1, l);
      OneMoreListed(base, connections, n, l);
    }
  }

  lemma {:induction false} AllConnectionsAdded(s: Wiring, base: string, connections: seq<Connection>, l: Link)
    ensures l in WithConnections(s, base, connections, |connections|).links <==>
            l in s.links || Listed(base, connections, l)
  {
    ConnectionsAdded(s, base, connections, |connections|, l);
    assert connections[..|connections|] == connections;
  }

  lemma {:induction false} OwnConnectionsAdded(s: Wiring, path: string, v: View, l: Link)
    ensures l in WithOwnConnections(s, path, v).links <==> l in s.links || Wires(v, path, l)
  {
    var defined := s;
    if v.definition.Some? {
      var connections := v.definition.value.members.connections;
      AllConnectionsAdded(s, path, connections, l);
      defined := WithConnections(s, path, connections, |connections|);
    }
    AllConnectionsAdded(defined, path, v.instance.members.connections, l);
  }

  // ----- what wiring an assembly adds

  function Declaring(l: Link): Property {
    (v, path) => Wires(v, path, l)
  }

  lemma {:induction false} WiredUpAdds(c: Profile, v: View, path: string, depth: nat, s: Wiring, l: Link)
    ensures l in WiredUp(c, v, path, depth, s).links <==> l in s.links || Somewhere(c, v, path, depth, Declaring(l))
    decreases MAX_GRAPH_ENDPOINTS + 1 - depth, ChildCount(v) + 1
  {
    if depth <= MAX_GRAPH_ENDPOINTS {
      OwnConnectionsAdded(s, path, v, l);
      ChildrenAdd(c, v, path, depth, WithOwnConnections(s, path, v), ChildCount(v), l);
    }
  }

  lemma {:induction false} ChildrenAdd(c: Profile, v: View, path: string, depth: nat, s: Wiring, n: nat, l: Link)
    requires n <= ChildCount(v) && depth <= MAX_GRAPH_ENDPOINTS
    ensures l in ChildrenWiredUp(c, v, path, depth, s, n).links <==>
            l in s.links || AmongChildren(c, v, path, depth, n, Declaring(l))
    decreases MAX_GRAPH_ENDPOINTS + 1 - depth, n
  {
    if n > 0 {
      ChildrenAdd(c, v, path, depth, s, n - 1, l);
      ChildAdds(c, v, path, depth, ChildrenWiredUp(c, v, path, depth, s, n - 1), n - 1, l);
    }
  }

  lemma {:induction false} ChildAdds(c: Profile, v: View, path: string, depth: nat, s: Wiring, k: nat, l: Link)
    requires k < ChildCount(v) && depth <= MAX_GRAPH_ENDPOINTS
    ensures var child := ChildAt(c, v, k);
            l in WiredUp(c, child, JoinedPath(path, child.instance.id), depth + 1, s).links <==>
            l in s.links || InChild(c, v, path, depth, k, Declaring(l))
    decreases MAX_GRAPH_ENDPOINTS + 1 - depth, 0
  {
    var child := ChildAt(c, v, k);
    WiredUpAdds(c, child, JoinedPath(path, child.instance.id), depth + 1, s, l);
  }

  /** Wiring up root i adds the link to any wiring, or to none. */
  ghost predicate RootAdds(c: Profile, i: nat, l: Link, adds: bool)
    requires i < |c.roots|
  {
    forall s: Wiring {:trigger WiredUp(c, Seen(c, c.roots[i]), Text(c.roots[i].id), 0, s)} ::
      l in WiredUp(c, Seen(c, c.roots[i]), Text(c.roots[i].id), 0, s).links <==> l in s.links || adds
  }

  lemma {:induction false} RootsAdd(c: Profile, n: nat, l: Link, adds: seq<bool>)
    requires n <= |c.roots| == |adds| && forall i :: 0 <= i < |adds| ==> RootAdds(c, i, l, adds[i])
    ensures l in RootsWiredUp(c, n).links <==> exists i :: 0 <= i < n && adds[i]
  {
    if n > 0 {
      RootsAdd(c, n - 1, l, adds);
      assert RootAdds(c, n - 1, l, adds[n - 1]);
    }
  }

  lemma {:induction false} WiredIsInRoot(c: Profile, l: Link)
    ensures l in RootsWiredUp(c, |c.roots|).links <==> exists i :: 0 <= i < |c.roots| && InRoot(c, i, Declaring(l))
  {
    var adds := seq(|c.roots|, i requires 0 <= i < |c.roots| => InRoot(c, i, Declaring(l)));
    forall i | 0 <= i < |adds| ensures RootAdds(c, i, l, adds[i]) {
      forall s: Wiring
        ensures l in WiredUp(c, Seen(c, c.roots[i]), Text(c.roots[i].id), 0, s).links <==> l in s.links || adds[i]
      {
        WiredUpAdds(c, Seen(c, c.roots[i]), Text(c.roots[i].id), 0, s, l);
      }
    }
    RootsAdd(c, |c.roots|, l, adds);
    assert forall i :: 0 <= i < |c.roots| ==> adds[i] == InRoot(c, i, Declaring(l));
  }

  // ----- the profile's connections

  /** The assembly found at this path declares the link. */
  predicate DeclaredAt(c: Profile, path: string, l: Link) {
    FindAssembly(c, path).Some? && Wires(FindAssembly(c, path).value, path, l)
  }

  /** The profile itself declares the link, or some assembly that a path leads to. */
  ghost predicate Declared(c: Profile, l: Link) {
    Listed("", c.connections, l) || exists path :: DeclaredAt(c, path, l)
  }

  /** The expansion wires up exactly what the profile and the assemblies found by their paths declare. */
  lemma {:induction false} WiredIffDeclared(c: Profile, l: Link)
    requires Validated(c)
    ensures l in WiringOf(c).links <==> Declared(c, l)
  {
    AllConnectionsAdded(RootsWiredUp(c, |c.roots|), "", c.connections, l);
    WiredIsInRoot(c, l);
    SomewhereIffFound(c, Declaring(l));
    if path :| FoundWith(c, path, Declaring(l)) {
      assert DeclaredAt(c, path, l);
    }
    if path :| DeclaredAt(c, path, l) {
      assert FoundWith(c, path, Declaring(l));
    }
  }

  // ----- which profiles have a graph

  /** The assembly found at the key's path has an endpoint of this kind, owner and id. */
  ghost predicate OfferedAt(c: Profile, k: Key) {
    FindAssembly(c, k.path).Some? && exists net: uint8 :: Offers(FindAssembly(c, k.path).value, Endpoint(k, net))
  }

  /** Both ends are there and differ; terminals are wired within their assembly, contacts anywhere. */
  ghost predicate MayBeWired(c: Profile, l: Link) {
    && OfferedAt(c, l.a) && OfferedAt(c, l.b) && l.a != l.b
    && (l.a.path == l.b.path || (l.a.kind == CONNECTOR_CONTACT && l.b.kind == CONNECTOR_CONTACT))
  }

  lemma {:induction false} ResolvesIffOffered(c: Profile, k: Key)
    requires Validated(c)
    ensures Resolves(LayoutOf(c).endpoints, k) <==> OfferedAt(c, k)
  {
    var endpoints := LayoutOf(c).endpoints;
    if Resolves(endpoints, k) {
      var i :| 0 <= i < |endpoints| && endpoints[i].key == k;
      ShownIffFound(c, EndpointItem(endpoints[i]));
      assert endpoints[i] == Endpoint(k, endpoints[i].net);
    }
    if OfferedAt(c, k) {
      var net: uint8 :| Offers(FindAssembly(c, k.path).value, Endpoint(k, net));
      ShownIffFound(c, EndpointItem(Endpoint(k, net)));
      EndpointsAreComplete(c, Endpoint(k, net));
      var i :| 0 <= i < |endpoints| && endpoints[i] == Endpoint(k, net);
    }
  }

  lemma {:induction false} JoinsIffMayBeWired(c: Profile, l: Link)
    requires Validated(c)
    ensures Joins(LayoutOf(c).endpoints, l) <==> MayBeWired(c, l)
  {
    ResolvesIffOffered(c, l.a);
    ResolvesIffOffered(c, l.b);
  }

  lemma {:induction false} WiredUpShallow(c: Profile, place: seq<nat>, v: View, s: Wiring)
    requires Shallow(c) && At(c, place) == Some(v)
    ensures WiredUp(c, v, PathAt(c, place), |place| - 1, s).shallow == s.shallow
    decreases MAX_GRAPH_ENDPOINTS + 2 - |place|, ChildCount(v) + 1
  {
    OwnConnectionsShallow(s, PathAt(c, place), v);
    ChildrenWiredShallow(c, place, v, WithOwnConnections(s, PathAt(c, place), v), ChildCount(v));
  }

  lemma {:induction false} ChildrenWiredShallow(c: Profile, place: seq<nat>, v: View, s: Wiring, n: nat)
    requires Shallow(c) && At(c, place) == Some(v) && n <= ChildCount(v)
    ensures ChildrenWiredUp(c, v, PathAt(c, place), |place| - 1, s, n).shallow == s.shallow
    decreases MAX_GRAPH_ENDPOINTS + 2 - |place|, n
  {
    if n > 0 {
      ChildrenWiredShallow(c, place, v, s, n - 1);
      PlaceBelow(c, place, n - 1);
      WiredUpShallow(c, Below(place, n - 1), ChildAt(c, v, n - 1),
                     ChildrenWiredUp(c, v, PathAt(c, place), |place| - 1, s, n - 1));
    }
  }

  lemma {:induction false} ConnectionsShallow(s: Wiring, base: string, connections: seq<Connection>, n: nat)
    requires n <= |connections|
    ensures WithConnections(s, base, connections, n).shallow == s.shallow
  {
    if n > 0 {
      ConnectionsShallow(s, base, connections, n - 1);
    }
  }

  lemma {:induction false} OwnConnectionsShallow(s: Wiring, path: string, v: View)
    ensures WithOwnConnections(s, path, v).shallow == s.shallow
  {
    var defined := s;
    if v.definition.Some? {
      var connections := v.definition.value.members.connections;
      ConnectionsShallow(s, path, connections, |connections|);
      defined := WithConnections(s, path, connections, |connections|);
    }
    ConnectionsShallow(defined, path, v.instance.members.connections, |v.instance.members.connections|);
  }

  lemma {:induction false} RootsWiredShallow(c: Profile, n: nat)
    requires Shallow(c) && n <= |c.roots|
    ensures RootsWiredUp(c, n).shallow
  {
    if n > 0 {
      RootsWiredShallow(c, n - 1);
      WiredUpShallow(c, [n - 1], Seen(c, c.roots[n - 1]), RootsWiredUp(c, n - 1));
    }
  }

  /** Assemblies, endpoints and connections fit the graph. */
  predicate SmallEnough(c: Profile) {
    && |LayoutOf(c).paths| <= MAX_GRAPH_ASSEMBLIES && |LayoutOf(c).endpoints| <= MAX_GRAPH_ENDPOINTS
    && |WiringOf(c).links| <= MAX_GRAPH_EDGES
  }

  /** No two connections join the same two endpoints. */
  ghost predicate NoneRepeated(links: seq<Link>) {
    forall i, j :: 0 <= i < j < |links| ==> !SameEnds(links[i], links[j])
  }

  /** A validated profile has a graph exactly when it is small enough, repeats no connection, and every connection declared
      anywhere may be wired. */
  lemma {:induction false} BuildableIff(c: Profile)
    requires Validated(c)
    ensures Buildable(c) <==>
            SmallEnough(c) && NoneRepeated(WiringOf(c).links) && forall l :: Declared(c, l) ==> MayBeWired(c, l)
  {
    Endpoints.ValidatedFitsIff(c);
    ValidatedIsShallow(c);
    RootsWiredShallow(c, |c.roots|);
    ConnectionsShallow(RootsWiredUp(c, |c.roots|), "", c.connections, |c.connections|);
    AllMayBeWiredIff(c);
  }

  lemma {:induction false} AllMayBeWiredIff(c: Profile)
    requires Validated(c)
    ensures var links := WiringOf(c).links;
            (forall i :: 0 <= i < |links| ==> Joins(LayoutOf(c).endpoints, links[i])) <==>
            forall l :: Declared(c, l) ==> MayBeWired(c, l)
  {
    var links := WiringOf(c).links;
    forall l: Link ensures l in links <==> Declared(c, l) {
      WiredIffDeclared(c, l);
    }
    forall l: Link ensures Joins(LayoutOf(c).endpoints, l) <==> MayBeWired(c, l) {
      JoinsIffMayBeWired(c, l);
    }
    assert (forall l :: l in links ==> MayBeWired(c, l)) <==> forall i :: 0 <= i < |links| ==> MayBeWired(c, links[i]);
  }

  // ----- the edges of a clean profile's graph

  /** Node i is where this endpoint is. */
  ghost predicate IsNodeOf(graph: TopologyGraph, i: nat, k: Key)
    reads graph
  {
    && i < |graph.nodes| && graph.nodes[i].assembly < |graph.assemblies|
    && graph.nodes[i].kind == k.kind && graph.assemblies[graph.nodes[i].assembly] == k.path
    && graph.nodes[i].owner == k.owner && graph.nodes[i].endpoint == k.id
  }

  ghost predicate JoinsNodesOf(graph: TopologyGraph, e: GraphEdge, l: Link)
    reads graph
  {
    IsNodeOf(graph, e.a, l.a) && IsNodeOf(graph, e.b, l.b)
  }

  lemma {:induction false} EdgeIsLink(c: Profile, graph: TopologyGraph, e: nat, l: Link)
    requires graph.Valid() && Faithful(c, graph) && e < |graph.edges|
    ensures JoinsNodesOf(graph, graph.edges[e], l) <==> WiringOf(c).links[e] == l
  {
    var s, edge := LayoutOf(c), graph.edges[e];
    assert Shows(graph.nodes[edge.a], s.endpoints[edge.a], s.paths);
    assert Shows(graph.nodes[edge.b], s.endpoints[edge.b], s.paths);
  }

  /** In the graph of a profile without findings two nodes are joined exactly by the connections declared. */
  lemma {:induction false} CleanGraphIsWired(c: Profile, graph: TopologyGraph, l: Link)
    requires WellFormed(c) && graph.Valid() && Faithful(c, graph)
    ensures (exists e :: e in graph.edges && JoinsNodesOf(graph, e, l)) <==> Declared(c, l)
  {
    WiredIffDeclared(c, l);
    forall e | 0 <= e < |graph.edges| ensures JoinsNodesOf(graph, graph.edges[e], l) <==> WiringOf(c).links[e] == l {
      EdgeIsLink(c, graph, e, l);
    }
    if l in WiringOf(c).links {
      var e :| 0 <= e < |graph.edges| && WiringOf(c).links[e] == l;
      assert graph.edges[e] in graph.edges;
    }
  }
}
