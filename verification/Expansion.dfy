/** What a hardware profile describes once definitions are expanded: its assemblies, endpoints and connections. */
module Expansion {
  import opened Common
  import opened HardwareProfile
  import opened DefinitionCycles

  /** An assembly seen together with the definition it refers to. */
  datatype View = View(instance: Assembly, definition: Option<HardwareDefinition>)

  function Seen(c: Profile, a: Assembly): View {
    View(a, FindDefinition(c, a.definition))
  }

  function DefinedChildren(v: View): seq<Assembly> {
    if v.definition.Some? then v.definition.value.members.assemblies else []
  }

  function ChildCount(v: View): nat {
    |v.instance.members.assemblies| + |DefinedChildren(v)|
  }

  /** The definition's children come first. */
  function ChildAt(c: Profile, v: View, index: nat): View
    requires index < ChildCount(v)
  {
    var defined := DefinedChildren(v);
    Seen(c, if index < |defined| then defined[index] else v.instance.members.assemblies[index - |defined|])
  }

  function JoinedPath(base: string, relative: CStr): string {
    if !Present(relative) then base else if base == "" then relative.value else base + "/" + relative.value
  }

  // ----- following a path

  /** The first of the roots, or of a view's children, with this id. */
  function FindRoot(c: Profile, id: string, i: nat): Option<View>
    requires i <= |c.roots|
    decreases |c.roots| - i
  {
    if i == |c.roots| then None
    else if c.roots[i].id == Some(id) then Some(Seen(c, c.roots[i])) else FindRoot(c, id, i + 1)
  }

  function FindChild(c: Profile, v: View, id: string, i: nat): Option<View>
    requires i <= ChildCount(v)
    decreases ChildCount(v) - i
  {
    if i == ChildCount(v) then None
    else
      var child := ChildAt(c, v, i);
      if child.instance.id == Some(id) then Some(child) else FindChild(c, v, id, i + 1)
  }

  /** One level of a path, and what remains of it if there is more. */
  function FirstLevel(path: string): (string, Option<string>) {
    var slash := IndexFrom(path, '/', 0);
    if slash == |path| then (path, None) else (path[..slash], Some(path[slash + 1..]))
  }

  function FindBelow(c: Profile, v: View, rest: Option<string>): Option<View>
    decreases if rest.Some? then |rest.value| + 1 else 0
  {
    if rest.None? then Some(v)
    else
      var (id, deeper) := FirstLevel(rest.value);
      var child := FindChild(c, v, id, 0);
      if child.None? then None else FindBelow(c, child.value, deeper)
  }

  function FindAssembly(c: Profile, path: string): Option<View> {
    if path == "" then None
    else
      var (id, deeper) := FirstLevel(path);
      var root := FindRoot(c, id, 0);
      if root.None? then None else FindBelow(c, root.value, deeper)
  }

  /** Where an endpoint is, and what it is called there. */
  datatype Key = Key(path: string, kind: uint8, owner: CStr, id: CStr)

  datatype Endpoint = Endpoint(key: Key, net: uint8)

  // ----- assemblies and endpoints, in the order they are met

  /** Every assembly path once, every endpoint, and whether no assembly lies too deep. */
  datatype Layout = Layout(paths: seq<string>, endpoints: seq<Endpoint>, shallow: bool)

  ghost predicate Grows(s: Layout, t: Layout) {
    s.paths <= t.paths && s.endpoints <= t.endpoints && (t.shallow ==> s.shallow)
  }

  function WithPath(s: Layout, path: string): (t: Layout)
  {
    if path in s.paths then s else s.(paths := s.paths + [path])
  }

  function WithEndpoint(s: Layout, e: Endpoint): (t: Layout)
  {
    s.(endpoints := s.endpoints + [e])
  }

  function WithPins(s: Layout, path: string, kind: uint8, owner: CStr, pins: seq<Pin>, n: nat): (t: Layout)
    requires n <= |pins|
    ensures t.paths == s.paths
  {
    if n == 0 then s
    else
      var p := pins[n - 1];
      WithEndpoint(WithPins(s, path, kind, owner, pins, n - 1), Endpoint(Key(path, kind, owner, p.id), p.canonicalNet))
  }

  function WithDevices(s: Layout, path: string, devices: seq<Device>, n: nat): (t: Layout)
    requires n <= |devices|
    ensures t.paths == s.paths
  {
    if n == 0 then s
    else
      var d := devices[n - 1];
      WithPins(WithDevices(s, path, devices, n - 1), path, DEVICE_TERMINAL, d.id, d.terminals, |d.terminals|)
  }

  function WithConnectors(s: Layout, path: string, connectors: seq<Connector>, n: nat): (t: Layout)
    requires n <= |connectors|
    ensures t.paths == s.paths
  {
    if n == 0 then s
    else
      var k := connectors[n - 1];
      WithPins(WithConnectors(s, path, connectors, n - 1), path, CONNECTOR_CONTACT, k.id, k.contacts, |k.contacts|)
  }

  function WithMembers(s: Layout, path: string, m: Members): (t: Layout)
    ensures t.paths == s.paths
  {
    WithConnectors(WithDevices(s, path, m.devices, |m.devices|), path, m.connectors, |m.connectors|)
  }

  function WithDefinition(s: Layout, path: string, v: View): (t: Layout)
    ensures t.paths == s.paths
  {
    if v.definition.Some? then WithMembers(s, path, v.definition.value.members) else s
  }

  /** One assembly: its path, then the endpoints of its definition, then its own. */
  function WithAssembly(s: Layout, path: string, v: View): (t: Layout)
    ensures t.paths == WithPath(s, path).paths
  {
    WithMembers(WithDefinition(WithPath(s, path), path, v), path, v.instance.members)
  }

  /** An assembly and everything below it. */
  function LaidOut(c: Profile, v: View, path: string, depth: nat, s: Layout): (t: Layout)
    decreases MAX_GRAPH_ENDPOINTS + 1 - depth, ChildCount(v) + 1
  {
    if depth > MAX_GRAPH_ENDPOINTS then s.(shallow := false)
    else WithChildren(c, v, path, depth, WithAssembly(s, path, v), ChildCount(v))
  }

  function WithChildren(c: Profile, v: View, path: string, depth: nat, s: Layout, n: nat): (t: Layout)
    requires n <= ChildCount(v) && depth <= MAX_GRAPH_ENDPOINTS
    decreases MAX_GRAPH_ENDPOINTS + 1 - depth, n
  {
    if n == 0 then s
    else
      var child := ChildAt(c, v, n - 1);
      LaidOut(c, child, JoinedPath(path, child.instance.id), depth + 1, WithChildren(c, v, path, depth, s, n - 1))
  }

  function RootsLaidOut(c: Profile, n: nat): Layout
    requires n <= |c.roots|
  {
    if n == 0 then Layout([], [], true)
    else LaidOut(c, Seen(c, c.roots[n - 1]), Text(c.roots[n - 1].id), 0, RootsLaidOut(c, n - 1))
  }

  function LayoutOf(c: Profile): Layout {
    RootsLaidOut(c, |c.roots|)
  }

  // ----- a layout only ever grows

  lemma {:induction false} PinsGrow(s: Layout, path: string, kind: uint8, owner: CStr, pins: seq<Pin>, n: nat)
    requires n <= |pins|
    ensures Grows(s, WithPins(s, path, kind, owner, pins, n))
  {
    if n > 0 {
      PinsGrow(s, path, kind, owner, pins, n - 1);
    }
  }

  lemma {:induction false} DevicesGrow(s: Layout, path: string, devices: seq<Device>, n: nat)
    requires n <= |devices|
    ensures Grows(s, WithDevices(s, path, devices, n))
  {
    if n > 0 {
      var d := devices[n - 1];
      DevicesGrow(s, path, devices, n - 1);
      PinsGrow(WithDevices(s, path, devices, n - 1), path, DEVICE_TERMINAL, d.id, d.terminals, |d.terminals|);
    }
  }

  lemma {:induction false} ConnectorsGrow(s: Layout, path: string, connectors: seq<Connector>, n: nat)
    requires n <= |connectors|
    ensures Grows(s, WithConnectors(s, path, connectors, n))
  {
    if n > 0 {
      var k := connectors[n - 1];
      ConnectorsGrow(s, path, connectors, n - 1);
      PinsGrow(WithConnectors(s, path, connectors, n - 1), path, CONNECTOR_CONTACT, k.id, k.contacts, |k.contacts|);
    }
  }

  lemma {:induction false} MembersGrow(s: Layout, path: string, m: Members)
    ensures Grows(s, WithMembers(s, path, m))
  {
    DevicesGrow(s, path, m.devices, |m.devices|);
    ConnectorsGrow(WithDevices(s, path, m.devices, |m.devices|), path, m.connectors, |m.connectors|);
  }

  lemma {:induction false} AssemblyGrows(s: Layout, path: string, v: View)
    ensures Grows(s, WithAssembly(s, path, v))
  {
    var t := WithPath(s, path);
    if v.definition.Some? {
      MembersGrow(t, path, v.definition.value.members);
    }
    MembersGrow(WithDefinition(t, path, v), path, v.instance.members);
  }

  lemma {:induction false} LaidOutGrows(c: Profile, v: View, path: string, depth: nat, s: Layout)
    ensures Grows(s, LaidOut(c, v, path, depth, s))
    decreases MAX_GRAPH_ENDPOINTS + 1 - depth, ChildCount(v) + 1
  {
    if depth <= MAX_GRAPH_ENDPOINTS {
      AssemblyGrows(s, path, v);
      ChildrenGrow(c, v, path, depth, WithAssembly(s, path, v), ChildCount(v));
    }
  }

  lemma {:induction false} ChildrenGrow(c: Profile, v: View, path: string, depth: nat, s: Layout, n: nat)
    requires n <= ChildCount(v) && depth <= MAX_GRAPH_ENDPOINTS
    ensures Grows(s, WithChildren(c, v, path, depth, s, n))
    decreases MAX_GRAPH_ENDPOINTS + 1 - depth, n
  {
    if n > 0 {
      var child := ChildAt(c, v, n - 1);
      ChildrenGrow(c, v, path, depth, s, n - 1);
      LaidOutGrows(c, child, JoinedPath(path, child.instance.id), depth + 1, WithChildren(c, v, path, depth, s, n - 1));
    }
  }

  /** Complete keys are never shared. */
  ghost predicate Distinct(endpoints: seq<Endpoint>) {
    forall i, j :: 0 <= i < j < |endpoints| && Complete(endpoints[j].key) ==> endpoints[i].key != endpoints[j].key
  }

  predicate Complete(k: Key) {
    Present(k.owner) && Present(k.id)
  }

  /** The assemblies and endpoints fit the graph, and each complete endpoint occurs once. */
  ghost predicate Fits(s: Layout) {
    && s.shallow && |s.paths| <= MAX_GRAPH_ASSEMBLIES && |s.endpoints| <= MAX_GRAPH_ENDPOINTS
    && Distinct(s.endpoints)
  }

  lemma {:induction false} SmallerFits(s: Layout, t: Layout)
    requires Grows(s, t) && Fits(t)
    ensures Fits(s)
  {
    assert forall i :: 0 <= i < |s.endpoints| ==> s.endpoints[i] == t.endpoints[i];
  }

  // ----- connections, in the order they are met

  datatype Link = Link(a: Key, b: Key)

  /** Every connection between the endpoints it names, and whether no assembly lies too deep. */
  datatype Wiring = Wiring(links: seq<Link>, shallow: bool)

  ghost predicate Extends(s: Wiring, t: Wiring) {
    s.links <= t.links && (t.shallow ==> s.shallow)
  }

  function KeyOf(base: string, e: EndpointRef): Key {
    Key(JoinedPath(base, e.assembly), e.kind, e.owner, e.endpoint)
  }

  function LinkOf(base: string, w: Connection): Link {
    Link(KeyOf(base, w.a), KeyOf(base, w.b))
  }

  function WithConnections(s: Wiring, base: string, connections: seq<Connection>, n: nat): (t: Wiring)
    requires n <= |connections|
    ensures Extends(s, t)
  {
    if n == 0 then s
    else
      var before := WithConnections(s, base, connections, n - 1);
      before.(links := before.links + [LinkOf(base, connections[n - 1])])
  }

  /** One assembly: the connections of its definition, then its own. */
  function WithOwnConnections(s: Wiring, path: string, v: View): (t: Wiring)
    ensures Extends(s, t)
  {
    var defined := if v.definition.Some?
                   then WithConnections(s, path, v.definition.value.members.connections,
                                        |v.definition.value.members.connections|)
                   else s;
    WithConnections(defined, path, v.instance.members.connections, |v.instance.members.connections|)
  }

  function WiredUp(c: Profile, v: View, path: string, depth: nat, s: Wiring): (t: Wiring)
    ensures Extends(s, t)
    decreases MAX_GRAPH_ENDPOINTS + 1 - depth, ChildCount(v) + 1
  {
    if depth > MAX_GRAPH_ENDPOINTS then s.(shallow := false)
    else ChildrenWiredUp(c, v, path, depth, WithOwnConnections(s, path, v), ChildCount(v))
  }

  function ChildrenWiredUp(c: Profile, v: View, path: string, depth: nat, s: Wiring, n: nat): (t: Wiring)
    requires n <= ChildCount(v) && depth <= MAX_GRAPH_ENDPOINTS
    ensures Extends(s, t)
    decreases MAX_GRAPH_ENDPOINTS + 1 - depth, n
  {
    if n == 0 then s
    else
      var child := ChildAt(c, v, n - 1);
      WiredUp(c, child, JoinedPath(path, child.instance.id), depth + 1, ChildrenWiredUp(c, v, path, depth, s, n - 1))
  }

  function RootsWiredUp(c: Profile, n: nat): Wiring
    requires n <= |c.roots|
  {
    if n == 0 then Wiring([], true)
    else WiredUp(c, Seen(c, c.roots[n - 1]), Text(c.roots[n - 1].id), 0, RootsWiredUp(c, n - 1))
  }

  /** Connections of the profile itself are addressed from the top. */
  function WiringOf(c: Profile): Wiring {
    WithConnections(RootsWiredUp(c, |c.roots|), "", c.connections, |c.connections|)
  }

  predicate Resolves(endpoints: seq<Endpoint>, k: Key) {
    Complete(k) && exists i :: 0 <= i < |endpoints| && endpoints[i].key == k
  }

  /** A connection joins two different existing endpoints, and only contacts across assemblies. */
  predicate Joins(endpoints: seq<Endpoint>, l: Link) {
    && Resolves(endpoints, l.a) && Resolves(endpoints, l.b) && l.a != l.b
    && (l.a.path != l.b.path ==> l.a.kind == CONNECTOR_CONTACT && l.b.kind == CONNECTOR_CONTACT)
  }

  predicate SameEnds(l: Link, m: Link) {
    (l.a == m.a && l.b == m.b) || (l.a == m.b && l.b == m.a)
  }

  ghost predicate Joinable(endpoints: seq<Endpoint>, s: Wiring) {
    && s.shallow && |s.links| <= MAX_GRAPH_EDGES
    && (forall i :: 0 <= i < |s.links| ==> Joins(endpoints, s.links[i]))
    && (forall i, j :: 0 <= i < j < |s.links| ==> !SameEnds(s.links[i], s.links[j]))
  }

  lemma {:induction false} SmallerJoinable(endpoints: seq<Endpoint>, s: Wiring, t: Wiring)
    requires Extends(s, t) && Joinable(endpoints, t)
    ensures Joinable(endpoints, s)
  {
    assert forall i :: 0 <= i < |s.links| ==> s.links[i] == t.links[i];
  }

  /** The profile has a graph. */
  ghost predicate Buildable(c: Profile) {
    Fits(LayoutOf(c)) && Joinable(LayoutOf(c).endpoints, WiringOf(c))
  }

  // ----- a graph that shows all of it

  predicate Shows(n: GraphNode, e: Endpoint, paths: seq<string>) {
    && n.assembly < |paths| && paths[n.assembly] == e.key.path && n.kind == e.key.kind
    && n.owner == e.key.owner && n.endpoint == e.key.id && n.canonicalNet == e.net
  }

  /** One assembly per path and one node per endpoint, in order. */
  ghost predicate ShowsLayout(assemblies: seq<string>, nodes: seq<GraphNode>, s: Layout) {
    && assemblies == s.paths && |nodes| == |s.endpoints|
    && forall k :: 0 <= k < |nodes| ==> Shows(nodes[k], s.endpoints[k], s.paths)
  }

  /** One edge per connection, between the nodes of the endpoints it names. */
  ghost predicate ShowsWiring(edges: seq<GraphEdge>, endpoints: seq<Endpoint>, links: seq<Link>) {
    && |edges| == |links|
    && forall k :: 0 <= k < |edges| ==>
         && edges[k].a < |endpoints| && edges[k].b < |endpoints|
         && endpoints[edges[k].a].key == links[k].a && endpoints[edges[k].b].key == links[k].b
  }

  ghost predicate Faithful(c: Profile, graph: TopologyGraph)
    reads graph
  {
    && ShowsLayout(graph.assemblies, graph.nodes, LayoutOf(c))
    && ShowsWiring(graph.edges, LayoutOf(c).endpoints, WiringOf(c).links)
  }

  /** Every complete endpoint is exactly one node. */
  ghost predicate OneNodeEach(graph: TopologyGraph, s: Layout)
    reads graph
  {
    |graph.nodes| == |s.endpoints|
    && forall k, i :: 0 <= k < |s.endpoints| && 0 <= i < |graph.nodes| && Complete(s.endpoints[k].key) ==>
         (Shows(graph.nodes[i], s.endpoints[k], graph.assemblies) <==> i == k)
  }

  ghost predicate Proper(graph: TopologyGraph, e: GraphEdge)
    requires graph.Valid() && e in graph.edges
    reads graph
  {
    var a, b := graph.nodes[e.a], graph.nodes[e.b];
    e.a != e.b && (a.assembly != b.assembly ==> a.kind == CONNECTOR_CONTACT && b.kind == CONNECTOR_CONTACT)
  }

  /** No edge is a loop, none is there twice either way round, and one that leaves its assembly joins two contacts. */
  ghost predicate IsSimple(graph: TopologyGraph)
    requires graph.Valid()
    reads graph
  {
    && (forall e :: e in graph.edges ==> Proper(graph, e))
    && (forall e, f :: 0 <= e < f < |graph.edges| ==>
          graph.edges[e] != graph.edges[f] && graph.edges[e] != GraphEdge(graph.edges[f].b, graph.edges[f].a))
  }

  lemma {:induction false} EndpointIsOneNode(s: Layout, graph: TopologyGraph, k: nat, i: nat)
    requires Fits(s) && ShowsLayout(graph.assemblies, graph.nodes, s) && k < |s.endpoints| && i < |graph.nodes|
    requires Complete(s.endpoints[k].key)
    ensures Shows(graph.nodes[i], s.endpoints[k], graph.assemblies) <==> i == k
  {
    assert Shows(graph.nodes[i], s.endpoints[i], s.paths);
    assert i != k ==> s.endpoints[i].key != s.endpoints[k].key;
  }

  lemma {:induction false} EdgesAreProper(c: Profile, graph: TopologyGraph, e: nat)
    requires graph.Valid() && Buildable(c) && Faithful(c, graph) && e < |graph.edges|
    ensures Proper(graph, graph.edges[e])
  {
    var s, edge := LayoutOf(c), graph.edges[e];
    assert Joins(s.endpoints, WiringOf(c).links[e]);
    assert Shows(graph.nodes[edge.a], s.endpoints[edge.a], s.paths);
    assert Shows(graph.nodes[edge.b], s.endpoints[edge.b], s.paths);
  }

  lemma {:induction false} EdgesAreDistinct(c: Profile, graph: TopologyGraph, e: nat, f: nat)
    requires Buildable(c) && Faithful(c, graph) && e < f < |graph.edges|
    ensures graph.edges[e] != graph.edges[f]
    ensures graph.edges[e] != GraphEdge(graph.edges[f].b, graph.edges[f].a)
  {
    var links := WiringOf(c).links;
    assert !SameEnds(links[e], links[f]);
  }

  /** What a faithful graph looks like. */
  lemma {:induction false} FaithfulGraphIsSimple(c: Profile, graph: TopologyGraph)
    requires graph.Valid() && Buildable(c) && Faithful(c, graph)
    ensures OneNodeEach(graph, LayoutOf(c)) && IsSimple(graph)
  {
    var s := LayoutOf(c);
    forall k, i | 0 <= k < |s.endpoints| && 0 <= i < |graph.nodes| && Complete(s.endpoints[k].key)
      ensures Shows(graph.nodes[i], s.endpoints[k], graph.assemblies) <==> i == k
    {
      EndpointIsOneNode(s, graph, k, i);
    }
    forall edge | edge in graph.edges ensures Proper(graph, edge) {
      var e :| 0 <= e < |graph.edges| && graph.edges[e] == edge;
      EdgesAreProper(c, graph, e);
    }
    forall e, f | 0 <= e < f < |graph.edges|
      ensures graph.edges[e] != graph.edges[f] && graph.edges[e] != GraphEdge(graph.edges[f].b, graph.edges[f].a)
    {
      EdgesAreDistinct(c, graph, e, f);
    }
  }
}
