/** Expanding a profile into its bounded node and edge graph. */
module Topology {
  import opened Common
  import opened HardwareProfile
  import opened DefinitionCycles
  import opened Diagnostics
  import opened Expansion

  // ----- what is known of a graph under construction

  /** Findings, where they are asked for, tell a failure from a success. */
  ghost predicate Reported(result: ValidationResult?, clean: bool, ok: bool)
    reads result
  {
    result != null ==> result.Valid() && (result.Clean() <==> clean && ok)
  }

  /** If the graph showed a layout that fits to begin with, it goes on to show `s` exactly as long as `s` fits. */
  ghost predicate Tracks(graph: TopologyGraph, started: bool, ok: bool, s: Layout)
    reads graph
  {
    && graph.Valid() && graph.edges == []
    && (started ==> (ok <==> Fits(s)) && (ok ==> ShowsLayout(graph.assemblies, graph.nodes, s)))
  }

  ghost predicate Holds(graph: TopologyGraph, s: Layout)
    reads graph
  {
    Fits(s) && ShowsLayout(graph.assemblies, graph.nodes, s)
  }

  method Report(result: ValidationResult?, code: Code, path: string, message: string)
    requires result == null || result.Valid()
    modifies result
    ensures result != null ==> result.Valid() && !result.Clean()
  {
    if result != null {
      result.AddDiagnostic(code, path, message);
    }
  }

  // ----- lookups

  method FindAssemblyIndex(graph: TopologyGraph, path: string) returns (index: Option<nat>)
    ensures match index case Some(i) => i < |graph.assemblies| && graph.assemblies[i] == path
                        case None => path !in graph.assemblies
  {
    for i := 0 to |graph.assemblies|
      invariant forall k :: 0 <= k < i ==> graph.assemblies[k] != path
    {
      if graph.assemblies[i] == path {
        return Some(i);
      }
    }
    index := None;
  }

  predicate IsAt(n: GraphNode, assembly: nat, kind: uint8, owner: CStr, endpoint: CStr) {
    n.assembly == assembly && n.kind == kind && n.owner == owner && n.endpoint == endpoint
  }

  method FindNode(graph: TopologyGraph, assembly: nat, kind: uint8, owner: CStr, endpoint: CStr) returns (index: Option<nat>)
    ensures match index
            case Some(i) => Present(owner) && Present(endpoint) && i < |graph.nodes|
                            && IsAt(graph.nodes[i], assembly, kind, owner, endpoint)
            case None => Present(owner) && Present(endpoint) ==>
                           forall i :: 0 <= i < |graph.nodes| ==> !IsAt(graph.nodes[i], assembly, kind, owner, endpoint)
  {
    index := None;
    if !Present(owner) || !Present(endpoint) {
      return;
    }
    for i := 0 to |graph.nodes|
      invariant forall k :: 0 <= k < i ==> !IsAt(graph.nodes[k], assembly, kind, owner, endpoint)
    {
      if IsAt(graph.nodes[i], assembly, kind, owner, endpoint) {
        return Some(i);
      }
    }
  }

  /** A node of a graph that shows a layout is where the endpoint with its key is. */
  lemma {:induction false} NodeIsEndpoint(graph: TopologyGraph, s: Layout, i: nat, assembly: nat, k: Key)
    requires graph.Valid() && ShowsLayout(graph.assemblies, graph.nodes, s) && i < |graph.nodes|
    requires assembly < |s.paths| && s.paths[assembly] == k.path
    ensures IsAt(graph.nodes[i], assembly, k.kind, k.owner, k.id) <==> s.endpoints[i].key == k
  {
    assert Shows(graph.nodes[i], s.endpoints[i], s.paths);
  }

  // ----- assemblies and nodes

  method AddAssembly(graph: TopologyGraph, path: string, result: ValidationResult?) returns (index: Option<nat>)
    requires graph.Valid() && graph.edges == [] && (result == null || result.Valid())
    modifies graph`assemblies, result
    ensures graph.Valid()
    ensures Reported(result, old(result != null && result.Clean()), index.Some?)
    ensures index.None? <==> path !in old(graph.assemblies) && |old(graph.assemblies)| >= MAX_GRAPH_ASSEMBLIES
    ensures index.Some? ==> index.value < |graph.assemblies| && graph.assemblies[index.value] == path
    ensures graph.assemblies == if index.None? || path in old(graph.assemblies) then old(graph.assemblies)
                                else old(graph.assemblies) + [path]
  {
    index := FindAssemblyIndex(graph, path);
    if index.Some? {
      return;
    }
    if |graph.assemblies| >= MAX_GRAPH_ASSEMBLIES {
      Report(result, CapacityExceeded, path, "Topology assembly capacity exceeded.");
      return None;
    }
    graph.assemblies := graph.assemblies + [path];
    index := Some(|graph.assemblies| - 1);
  }

  /** What one more endpoint does to a layout that fits. */
  lemma {:induction false} OneMoreFits(s: Layout, e: Endpoint)
    requires Fits(s)
    ensures Fits(WithEndpoint(s, e)) <==>
            |s.endpoints| < MAX_GRAPH_ENDPOINTS
            && (Complete(e.key) ==> forall i :: 0 <= i < |s.endpoints| ==> s.endpoints[i].key != e.key)
  {
    var t := WithEndpoint(s, e);
    var n := |s.endpoints|;
    assert t.endpoints[n] == e;
    assert forall i :: 0 <= i < n ==> t.endpoints[i] == s.endpoints[i];
  }

  method AddNode(graph: TopologyGraph, assembly: nat, path: string, kind: uint8, owner: CStr, endpoint: CStr,
                 canonical: uint8, result: ValidationResult?, ghost s: Layout)
    returns (ok: bool)
    requires graph.Valid() && graph.edges == [] && (result == null || result.Valid())
    requires assembly < |graph.assemblies| && graph.assemblies[assembly] == path
    modifies graph`nodes, result
    ensures Reported(result, old(result != null && result.Clean()), ok)
    ensures Tracks(graph, old(Holds(graph, s)), ok, WithEndpoint(s, Endpoint(Key(path, kind, owner, endpoint), canonical)))
  {
    ghost var e := Endpoint(Key(path, kind, owner, endpoint), canonical);
    ok := MayAddNode(graph, assembly, path, kind, owner, endpoint, result, s, e);
    if ok {
      ghost var nodes, node := graph.nodes, GraphNode(assembly, kind, owner, endpoint, canonical);
      graph.nodes := graph.nodes + [GraphNode(assembly, kind, owner, endpoint, canonical)];
      if ShowsLayout(graph.assemblies, nodes, s) {
        OneMoreShown(graph.assemblies, nodes, s, node, e);
      }
    }
  }

  method MayAddNode(graph: TopologyGraph, assembly: nat, path: string, kind: uint8, owner: CStr, endpoint: CStr,
                    result: ValidationResult?, ghost s: Layout, ghost e: Endpoint)
    returns (ok: bool)
    requires graph.Valid() && (result == null || result.Valid()) && e.key == Key(path, kind, owner, endpoint)
    requires assembly < |graph.assemblies| && graph.assemblies[assembly] == path
    modifies result
    ensures Reported(result, old(result != null && result.Clean()), ok)
    ensures ok ==> |graph.nodes| < MAX_GRAPH_ENDPOINTS
    ensures Holds(graph, s) ==> (ok <==> Fits(WithEndpoint(s, e)))
  {
    if Holds(graph, s) {
      RoomForOneMore(graph, s, assembly, e);
    }
    var existing := FindNode(graph, assembly, kind, owner, endpoint);
    assert existing.Some? <==> Occupied(graph.nodes, assembly, e.key);
    if existing.Some? {
      Report(result, DuplicateMember, path, "Effective endpoint is duplicated by an instance and definition.");
      return false;
    }
    if |graph.nodes| >= MAX_GRAPH_ENDPOINTS {
      Report(result, CapacityExceeded, path, "Topology endpoint capacity exceeded.");
      return false;
    }
    ok := true;
  }

  lemma {:induction false} OneMoreShown(assemblies: seq<string>, nodes: seq<GraphNode>, s: Layout, n: GraphNode, e: Endpoint)
    requires ShowsLayout(assemblies, nodes, s) && Shows(n, e, s.paths)
    ensures ShowsLayout(assemblies, nodes + [n], WithEndpoint(s, e))
  {
  }

  /** Looking for a node is looking for an endpoint. */
  lemma {:induction false} KeyIsKnown(graph: TopologyGraph, s: Layout, assembly: nat, k: Key)
    requires graph.Valid() && ShowsLayout(graph.assemblies, graph.nodes, s)
    requires assembly < |s.paths| && s.paths[assembly] == k.path
    ensures forall i :: 0 <= i < |graph.nodes| ==>
              (IsAt(graph.nodes[i], assembly, k.kind, k.owner, k.id) <==> s.endpoints[i].key == k)
  {
    forall i | 0 <= i < |graph.nodes|
      ensures IsAt(graph.nodes[i], assembly, k.kind, k.owner, k.id) <==> s.endpoints[i].key == k
    {
      NodeIsEndpoint(graph, s, i, assembly, k);
    }
  }

  ghost predicate Occupied(nodes: seq<GraphNode>, assembly: nat, k: Key) {
    Complete(k) && exists i :: 0 <= i < |nodes| && IsAt(nodes[i], assembly, k.kind, k.owner, k.id)
  }

  lemma {:induction false} RoomForOneMore(graph: TopologyGraph, s: Layout, assembly: nat, e: Endpoint)
    requires graph.Valid() && Holds(graph, s)
    requires assembly < |graph.assemblies| && graph.assemblies[assembly] == e.key.path
    ensures Fits(WithEndpoint(s, e)) <==>
            |graph.nodes| < MAX_GRAPH_ENDPOINTS && !Occupied(graph.nodes, assembly, e.key)
  {
    OneMoreFits(s, e);
    KeyIsKnown(graph, s, assembly, e.key);
  }

  /** A step taken while everything fits so far, or after something did not. */
  lemma {:induction false} Onward(graph: TopologyGraph, started: bool, before: bool, s: Layout, held: bool, step: bool, t: Layout)
    requires Grows(s, t) && (started ==> (before <==> Fits(s)))
    requires started && before ==> held
    requires Tracks(graph, held, step, t)
    ensures Tracks(graph, started, step && before, t)
  {
    if started && !before && Fits(t) {
      SmallerFits(s, t);
    }
  }

  method AddPins(graph: TopologyGraph, assembly: nat, path: string, kind: uint8, owner: CStr, pins: seq<Pin>,
                 result: ValidationResult?, before: bool, ghost started: bool, ghost clean: bool, ghost s: Layout)
    returns (ok: bool)
    requires Tracks(graph, started, before, s) && Reported(result, clean, before)
    requires assembly < |graph.assemblies| && graph.assemblies[assembly] == path
    modifies graph`nodes, result
    ensures Tracks(graph, started, ok, WithPins(s, path, kind, owner, pins, |pins|)) && Reported(result, clean, ok)
  {
    ok := before;
    for i := 0 to |pins|
      invariant Tracks(graph, started, ok, WithPins(s, path, kind, owner, pins, i)) && Reported(result, clean, ok)
    {
      ghost var now := WithPins(s, path, kind, owner, pins, i);
      ghost var held := Holds(graph, now);
      var added := AddNode(graph, assembly, path, kind, owner, pins[i].id, pins[i].canonicalNet, result, now);
      Onward(graph, started, ok, now, held, added, WithPins(s, path, kind, owner, pins, i + 1));
      ok := added && ok;
    }
  }

  method AddMembers(graph: TopologyGraph, assembly: nat, path: string, m: Members, result: ValidationResult?,
                    before: bool, ghost started: bool, ghost clean: bool, ghost s: Layout)
    returns (ok: bool)
    requires Tracks(graph, started, before, s) && Reported(result, clean, before)
    requires assembly < |graph.assemblies| && graph.assemblies[assembly] == path
    modifies graph`nodes, result
    ensures Tracks(graph, started, ok, WithMembers(s, path, m)) && Reported(result, clean, ok)
  {
    ok := before;
    for i := 0 to |m.devices|
      invariant Tracks(graph, started, ok, WithDevices(s, path, m.devices, i)) && Reported(result, clean, ok)
    {
      var d := m.devices[i];
      ok := AddPins(graph, assembly, path, DEVICE_TERMINAL, d.id, d.terminals, result, ok, started, clean,
                    WithDevices(s, path, m.devices, i));
    }
    ghost var devices := WithDevices(s, path, m.devices, |m.devices|);
    for i := 0 to |m.connectors|
      invariant Tracks(graph, started, ok, WithConnectors(devices, path, m.connectors, i)) && Reported(result, clean, ok)
    {
      var k := m.connectors[i];
      ok := AddPins(graph, assembly, path, CONNECTOR_CONTACT, k.id, k.contacts, result, ok, started, clean,
                    WithConnectors(devices, path, m.connectors, i));
    }
  }

  /** The assembly itself, without those below it. */
  method AddView(graph: TopologyGraph, v: View, path: string, result: ValidationResult?, ghost s: Layout)
    returns (ok: bool, full: bool)
    requires graph.Valid() && graph.edges == [] && (result == null || result.Valid())
    modifies graph`assemblies, graph`nodes, result
    ensures Tracks(graph, old(Holds(graph, s)), ok, WithAssembly(s, path, v))
    ensures Reported(result, old(result != null && result.Clean()), ok)
    ensures full ==> !ok
  {
    ghost var started, clean := Holds(graph, s), result != null && result.Clean();
    var index := AddAssembly(graph, path, result);
    if index.None? {
      return false, true;
    }
    full := false;
    ghost var t := WithPath(s, path);
    assert Tracks(graph, started, true, t);
    if v.definition.Some? {
      ok := AddMembers(graph, index.value, path, v.definition.value.members, result, true, started, clean, t);
    } else {
      ok := true;
    }
    ok := AddMembers(graph, index.value, path, v.instance.members, result, ok, started, clean, WithDefinition(t, path, v));
  }

  method CollectNodes(c: Profile, v: View, path: string, graph: TopologyGraph, result: ValidationResult?, depth: nat,
                      ghost s: Layout)
    returns (ok: bool)
    requires graph.Valid() && graph.edges == [] && (result == null || result.Valid())
    modifies graph`assemblies, graph`nodes, result
    ensures Tracks(graph, old(Holds(graph, s)), ok, LaidOut(c, v, path, depth, s))
    ensures Reported(result, old(result != null && result.Clean()), ok)
    decreases MAX_GRAPH_ENDPOINTS + 1 - depth
  {
    ghost var started, clean := Holds(graph, s), result != null && result.Clean();
    if depth > MAX_GRAPH_ENDPOINTS {
      Report(result, CapacityExceeded, path, "Assembly hierarchy depth exceeded.");
      return false;
    }
    ghost var own := WithAssembly(s, path, v);
    var full;
    ok, full := AddView(graph, v, path, result, s);
    if full {
      assert started && Fits(LaidOut(c, v, path, depth, s)) ==> Fits(own) by {
        if started && Fits(LaidOut(c, v, path, depth, s)) {
          ChildrenGrow(c, v, path, depth, own, ChildCount(v));
          SmallerFits(own, LaidOut(c, v, path, depth, s));
        }
      }
      return false;
    }
    for i := 0 to ChildCount(v)
      invariant Tracks(graph, started, ok, WithChildren(c, v, path, depth, own, i)) && Reported(result, clean, ok)
    {
      ghost var now := WithChildren(c, v, path, depth, own, i);
      ghost var held := Holds(graph, now);
      var child := ChildAt(c, v, i);
      var placed := CollectNodes(c, child, JoinedPath(path, child.instance.id), graph, result, depth + 1, now);
      LaidOutGrows(c, child, JoinedPath(path, child.instance.id), depth + 1, now);
      Onward(graph, started, ok, now, held, placed, WithChildren(c, v, path, depth, own, i + 1));
      ok := placed && ok;
    }
  }

  // ----- connections

  predicate HasDevice(v: View, id: CStr) {
    Present(id)
    && ((v.definition.Some? && exists d :: d in v.definition.value.members.devices && d.id == id)
        || exists d :: d in v.instance.members.devices && d.id == id)
  }

  predicate HasConnector(v: View, id: CStr) {
    Present(id)
    && ((v.definition.Some? && exists k :: k in v.definition.value.members.connectors && k.id == id)
        || exists k :: k in v.instance.members.connectors && k.id == id)
  }

  /** Which part of an endpoint's address fails to resolve. */
  function MissingEndpointCode(c: Profile, path: string, e: EndpointRef): Code {
    var v := FindAssembly(c, path);
    if v.None? then AssemblyNotFound
    else if e.kind == DEVICE_TERMINAL then if HasDevice(v.value, e.owner) then TerminalNotFound else DeviceNotFound
    else if HasConnector(v.value, e.owner) then ContactNotFound else ConnectorNotFound
  }

  /** Once the nodes are all there, the graph shows the connections exactly as long as they can be joined. */
  ghost predicate Joined(graph: TopologyGraph, s: Layout, started: bool, ok: bool, w: Wiring)
    reads graph
  {
    && graph.Valid()
    && (started ==> Holds(graph, s) && (ok <==> Joinable(s.endpoints, w)) && (ok ==> ShowsWiring(graph.edges, s.endpoints, w.links)))
  }

  ghost predicate HoldsWiring(graph: TopologyGraph, s: Layout, w: Wiring)
    reads graph
  {
    Holds(graph, s) && Joinable(s.endpoints, w) && ShowsWiring(graph.edges, s.endpoints, w.links)
  }

  method FindEndpoint(graph: TopologyGraph, path: string, e: EndpointRef, ghost s: Layout)
    returns (assembly: Option<nat>, index: Option<nat>)
    requires graph.Valid()
    ensures assembly.Some? ==> assembly.value < |graph.assemblies| && graph.assemblies[assembly.value] == path
    ensures index.Some? ==> assembly.Some? && index.value < |graph.nodes|
    ensures Holds(graph, s) ==>
              var k := Key(path, e.kind, e.owner, e.endpoint);
              && (index.Some? <==> Resolves(s.endpoints, k))
              && (index.Some? ==> s.endpoints[index.value].key == k)
  {
    index := None;
    assembly := FindAssemblyIndex(graph, path);
    ghost var k := Key(path, e.kind, e.owner, e.endpoint);
    if assembly.None? {
      if Holds(graph, s) {
        forall i | 0 <= i < |s.endpoints| ensures s.endpoints[i].key != k {
          assert Shows(graph.nodes[i], s.endpoints[i], s.paths);
        }
      }
      return;
    }
    if Holds(graph, s) {
      KeyIsKnown(graph, s, assembly.value, k);
    }
    index := FindNode(graph, assembly.value, e.kind, e.owner, e.endpoint);
  }

  predicate SameEdge(e: GraphEdge, a: nat, b: nat) {
    (e.a == a && e.b == b) || (e.a == b && e.b == a)
  }

  method HasEdge(graph: TopologyGraph, a: nat, b: nat) returns (duplicate: bool)
    ensures duplicate <==> exists i :: 0 <= i < |graph.edges| && SameEdge(graph.edges[i], a, b)
  {
    duplicate := false;
    for i := 0 to |graph.edges|
      invariant duplicate <==> exists k :: 0 <= k < i && SameEdge(graph.edges[k], a, b)
    {
      if SameEdge(graph.edges[i], a, b) {
        duplicate := true;
      }
    }
  }

  /** Nodes are the same exactly when their keys are. */
  lemma {:induction false} KeysAreNodes(endpoints: seq<Endpoint>, i: nat, j: nat)
    requires Distinct(endpoints) && i < |endpoints| && j < |endpoints| && Complete(endpoints[i].key)
    ensures endpoints[i].key == endpoints[j].key <==> i == j
  {
  }

  lemma {:induction false} EdgesAreLinks(endpoints: seq<Endpoint>, edges: seq<GraphEdge>, w: Wiring, a: nat, b: nat, i: nat)
    requires Distinct(endpoints) && Joinable(endpoints, w) && ShowsWiring(edges, endpoints, w.links)
    requires a < |endpoints| && b < |endpoints| && i < |edges|
    ensures SameEdge(edges[i], a, b) <==> SameEnds(w.links[i], Link(endpoints[a].key, endpoints[b].key))
  {
    assert Joins(endpoints, w.links[i]);
    KeysAreNodes(endpoints, edges[i].a, a);
    KeysAreNodes(endpoints, edges[i].a, b);
    KeysAreNodes(endpoints, edges[i].b, a);
    KeysAreNodes(endpoints, edges[i].b, b);
  }

  function WithLink(w: Wiring, l: Link): Wiring {
    w.(links := w.links + [l])
  }

  /** What one more connection does to a wiring that can be joined. */
  lemma {:induction false} OneMoreJoins(endpoints: seq<Endpoint>, w: Wiring, l: Link)
    requires Joinable(endpoints, w)
    ensures Joinable(endpoints, WithLink(w, l)) <==>
            |w.links| < MAX_GRAPH_EDGES && Joins(endpoints, l)
            && forall i :: 0 <= i < |w.links| ==> !SameEnds(w.links[i], l)
  {
    var t, n := WithLink(w, l), |w.links|;
    assert t.links[n] == l;
    assert forall i :: 0 <= i < n ==> t.links[i] == w.links[i];
  }

  /** Everything a connection may be refused for, but for room and repetition. */
  method MayJoin(c: Profile, graph: TopologyGraph, base: string, w: Connection, result: ValidationResult?, path: string,
                 ghost s: Layout)
    returns (ok: bool, a: nat, b: nat)
    requires graph.Valid() && (result == null || result.Valid())
    modifies result
    ensures Reported(result, old(result != null && result.Clean()), ok)
    ensures ok ==> a < |graph.nodes| && b < |graph.nodes|
    ensures Holds(graph, s) ==>
              var l := LinkOf(base, w);
              && (ok <==> Joins(s.endpoints, l))
              && (ok ==> s.endpoints[a].key == l.a && s.endpoints[b].key == l.b)
  {
    a, b := 0, 0;
    var aPath, bPath := JoinedPath(base, w.a.assembly), JoinedPath(base, w.b.assembly);
    var aAssembly, aIndex := FindEndpoint(graph, aPath, w.a, s);
    var bAssembly, bIndex := FindEndpoint(graph, bPath, w.b, s);
    if aIndex.None? || bIndex.None? {
      var code := if aIndex.None? then MissingEndpointCode(c, aPath, w.a) else MissingEndpointCode(c, bPath, w.b);
      Report(result, code, path, "Connection endpoint does not resolve.");
      return false, a, b;
    }
    a, b := aIndex.value, bIndex.value;
    if Holds(graph, s) {
      KeysAreNodes(s.endpoints, a, b);
    }
    assert aAssembly == bAssembly <==> aPath == bPath;
    ok := DifferentAndAllowed(a == b, aAssembly != bAssembly, w, result, path);
  }

  method DifferentAndAllowed(same: bool, crossing: bool, w: Connection, result: ValidationResult?, path: string)
    returns (ok: bool)
    requires result == null || result.Valid()
    modifies result
    ensures Reported(result, old(result != null && result.Clean()), ok)
    ensures ok <==> !same && (crossing ==> w.a.kind == CONNECTOR_CONTACT && w.b.kind == CONNECTOR_CONTACT)
  {
    if same {
      Report(result, SelfConnection, path, "A connection must join two distinct endpoints.");
      return false;
    }
    if crossing && (w.a.kind != CONNECTOR_CONTACT || w.b.kind != CONNECTOR_CONTACT) {
      Report(result, CrossAssemblyDeviceConnection, path, "Assembly crossings must connect two connector contacts.");
      return false;
    }
    ok := true;
  }

  /** One connection; `full` when there is no room for another. */
  method AddConnection(c: Profile, graph: TopologyGraph, base: string, w: Connection, result: ValidationResult?,
                       path: string, ghost s: Layout, ghost before: Wiring)
    returns (ok: bool, full: bool)
    requires graph.Valid() && (result == null || result.Valid())
    modifies graph`edges, result
    ensures Reported(result, old(result != null && result.Clean()), ok) && (full ==> !ok)
    ensures Joined(graph, s, old(HoldsWiring(graph, s, before)), ok, WithLink(before, LinkOf(base, w)))
  {
    ghost var l, started := LinkOf(base, w), HoldsWiring(graph, s, before);
    if started {
      OneMoreJoins(s.endpoints, before, l);
    }
    var proper, a, b := MayJoin(c, graph, base, w, result, path, s);
    if !proper {
      return false, false;
    }
    var duplicate := HasEdge(graph, a, b);
    if started {
      forall i | 0 <= i < |graph.edges| ensures SameEdge(graph.edges[i], a, b) <==> SameEnds(before.links[i], l) {
        EdgesAreLinks(s.endpoints, graph.edges, before, a, b, i);
      }
    }
    if duplicate {
      Report(result, DuplicateConnection, path, "Physical connection is duplicated.");
      return false, false;
    }
    if |graph.edges| >= MAX_GRAPH_EDGES {
      Report(result, CapacityExceeded, path, "Topology connection capacity exceeded.");
      return false, true;
    }
    graph.edges := graph.edges + [GraphEdge(a, b)];
    return true, false;
  }

  lemma {:induction false} OnwardJoined(graph: TopologyGraph, s: Layout, started: bool, before: bool, w: Wiring,
                                        held: bool, step: bool, t: Wiring)
    requires Extends(w, t) && (started ==> Holds(graph, s) && (before <==> Joinable(s.endpoints, w)))
    requires started && before ==> held
    requires Joined(graph, s, held, step, t)
    ensures Joined(graph, s, started, step && before, t)
  {
    if started && !before && Joinable(s.endpoints, t) {
      SmallerJoinable(s.endpoints, w, t);
    }
  }

  method AddConnections(c: Profile, connections: seq<Connection>, base: string, graph: TopologyGraph,
                        result: ValidationResult?, sourcePath: string, before: bool, ghost s: Layout, ghost started: bool,
                        ghost clean: bool, ghost w: Wiring)
    returns (ok: bool)
    requires Joined(graph, s, started, before, w) && Reported(result, clean, before)
    modifies graph`edges, result
    ensures Joined(graph, s, started, ok, WithConnections(w, base, connections, |connections|))
    ensures Reported(result, clean, ok)
  {
    ok := before;
    for i := 0 to |connections|
      invariant Joined(graph, s, started, ok, WithConnections(w, base, connections, i)) && Reported(result, clean, ok)
    {
      ghost var now := WithConnections(w, base, connections, i);
      ghost var held := HoldsWiring(graph, s, now);
      var path := sourcePath + "[" + Decimal(i) + "]";
      var added, full := AddConnection(c, graph, base, connections[i], result, path, s, now);
      OnwardJoined(graph, s, started, ok, now, held, added, WithConnections(w, base, connections, i + 1));
      ok := added && ok;
      if full {
        MoreDoNotJoin(s.endpoints, WithConnections(w, base, connections, i + 1), w, base, connections, i + 1);
        return;
      }
    }
  }

  lemma {:induction false} ConnectionsExtend(w: Wiring, base: string, connections: seq<Connection>, n: nat, m: nat)
    requires n <= m <= |connections|
    ensures Extends(WithConnections(w, base, connections, n), WithConnections(w, base, connections, m))
    decreases m
  {
    if n < m {
      ConnectionsExtend(w, base, connections, n, m - 1);
    }
  }

  /** Connections left untried cannot mend what already failed. */
  lemma {:induction false} MoreDoNotJoin(endpoints: seq<Endpoint>, now: Wiring, w: Wiring, base: string,
                                         connections: seq<Connection>, n: nat)
    requires n <= |connections| && now == WithConnections(w, base, connections, n)
    ensures Joinable(endpoints, WithConnections(w, base, connections, |connections|)) ==> Joinable(endpoints, now)
  {
    ConnectionsExtend(w, base, connections, n, |connections|);
    if Joinable(endpoints, WithConnections(w, base, connections, |connections|)) {
      SmallerJoinable(endpoints, now, WithConnections(w, base, connections, |connections|));
    }
  }

  /** The connections of one assembly, without those below it. */
  method ConnectView(c: Profile, v: View, path: string, graph: TopologyGraph, result: ValidationResult?,
                     ghost s: Layout, ghost started: bool, ghost clean: bool, ghost w: Wiring)
    returns (ok: bool)
    requires Joined(graph, s, started, true, w) && Reported(result, clean, true)
    modifies graph`edges, result
    ensures Joined(graph, s, started, ok, WithOwnConnections(w, path, v)) && Reported(result, clean, ok)
  {
    ok := true;
    if v.definition.Some? {
      var d := v.definition.value;
      ok := AddConnections(c, d.members.connections, path, graph, result, "definition:" + Text(d.id) + ".connections",
                           ok, s, started, clean, w);
    }
    ghost var defined := if v.definition.Some?
                         then WithConnections(w, path, v.definition.value.members.connections,
                                              |v.definition.value.members.connections|) else w;
    ok := AddConnections(c, v.instance.members.connections, path, graph, result, path + ".connections", ok, s, started,
                         clean, defined);
  }

  method CollectConnections(c: Profile, v: View, path: string, graph: TopologyGraph, result: ValidationResult?,
                            depth: nat, ghost s: Layout, ghost w: Wiring)
    returns (ok: bool)
    requires graph.Valid() && (result == null || result.Valid())
    modifies graph`edges, result
    ensures Joined(graph, s, old(HoldsWiring(graph, s, w)), ok, WiredUp(c, v, path, depth, w))
    ensures Reported(result, old(result != null && result.Clean()), ok)
    decreases MAX_GRAPH_ENDPOINTS + 1 - depth
  {
    ghost var started, clean := HoldsWiring(graph, s, w), result != null && result.Clean();
    if depth > MAX_GRAPH_ENDPOINTS {
      Report(result, CapacityExceeded, path, "Assembly hierarchy depth exceeded.");
      return false;
    }
    ok := ConnectView(c, v, path, graph, result, s, started, clean, w);
    ghost var own := WithOwnConnections(w, path, v);
    for i := 0 to ChildCount(v)
      invariant Joined(graph, s, started, ok, ChildrenWiredUp(c, v, path, depth, own, i)) && Reported(result, clean, ok)
    {
      ghost var now := ChildrenWiredUp(c, v, path, depth, own, i);
      ghost var held := HoldsWiring(graph, s, now);
      var child := ChildAt(c, v, i);
      var joined := CollectConnections(c, child, JoinedPath(path, child.instance.id), graph, result, depth + 1, s, now);
      OnwardJoined(graph, s, started, ok, now, held, joined, ChildrenWiredUp(c, v, path, depth, own, i + 1));
      ok := joined && ok;
    }
  }

  // ----- the whole graph

  method CollectRoots(c: Profile, graph: TopologyGraph, result: ValidationResult?) returns (ok: bool)
    requires graph.Valid() && graph.assemblies == [] && graph.nodes == [] && graph.edges == []
    requires result == null || result.Valid()
    modifies graph`assemblies, graph`nodes, result
    ensures Tracks(graph, true, ok, LayoutOf(c)) && Reported(result, old(result != null && result.Clean()), ok)
  {
    ghost var clean := result != null && result.Clean();
    ok := true;
    for i := 0 to |c.roots|
      invariant Tracks(graph, true, ok, RootsLaidOut(c, i)) && Reported(result, clean, ok)
    {
      ok := CollectRoot(c, i, graph, result, ok, clean);
    }
  }

  method CollectRoot(c: Profile, i: nat, graph: TopologyGraph, result: ValidationResult?, before: bool, ghost clean: bool)
    returns (ok: bool)
    requires i < |c.roots| && Tracks(graph, true, before, RootsLaidOut(c, i)) && Reported(result, clean, before)
    modifies graph`assemblies, graph`nodes, result
    ensures Tracks(graph, true, ok, RootsLaidOut(c, i + 1)) && Reported(result, clean, ok)
  {
    ghost var now := RootsLaidOut(c, i);
    ghost var held := Holds(graph, now);
    var root := c.roots[i];
    var placed := CollectNodes(c, Seen(c, root), Text(root.id), graph, result, 0, now);
    ghost var next := LaidOut(c, Seen(c, root), Text(root.id), 0, now);
    LaidOutGrows(c, Seen(c, root), Text(root.id), 0, now);
    Onward(graph, true, before, now, held, placed, next);
    assert next == RootsLaidOut(c, i + 1);
    ok := placed && before;
  }

  method ConnectRoots(c: Profile, graph: TopologyGraph, result: ValidationResult?, ghost s: Layout) returns (ok: bool)
    requires graph.Valid() && graph.edges == [] && Holds(graph, s)
    requires result == null || result.Valid()
    modifies graph`edges, result
    ensures Joined(graph, s, true, ok, RootsWiredUp(c, |c.roots|))
    ensures Reported(result, old(result != null && result.Clean()), ok)
  {
    ghost var clean := result != null && result.Clean();
    ok := true;
    assert Joined(graph, s, true, ok, Wiring([], true));
    for i := 0 to |c.roots|
      invariant Joined(graph, s, true, ok, RootsWiredUp(c, i)) && Reported(result, clean, ok)
    {
      ok := ConnectRoot(c, i, graph, result, ok, s, clean);
    }
  }

  method ConnectRoot(c: Profile, i: nat, graph: TopologyGraph, result: ValidationResult?, before: bool, ghost s: Layout,
                     ghost clean: bool)
    returns (ok: bool)
    requires i < |c.roots| && Joined(graph, s, true, before, RootsWiredUp(c, i)) && Reported(result, clean, before)
    modifies graph`edges, result
    ensures Joined(graph, s, true, ok, RootsWiredUp(c, i + 1)) && Reported(result, clean, ok)
  {
    ghost var now := RootsWiredUp(c, i);
    ghost var held := HoldsWiring(graph, s, now);
    var root := c.roots[i];
    var joined := CollectConnections(c, Seen(c, root), Text(root.id), graph, result, 0, s, now);
    ghost var next := WiredUp(c, Seen(c, root), Text(root.id), 0, now);
    OnwardJoined(graph, s, true, before, now, held, joined, next);
    assert next == RootsWiredUp(c, i + 1);
    ok := joined && before;
  }

  /** Succeeds exactly for the profiles that have a graph, and then shows all of it; anything else is reported. */
  method BuildTopologyGraph(c: Profile, graph: TopologyGraph, result: ValidationResult?) returns (ok: bool)
    requires graph.Valid() && (result == null || result.Valid())
    modifies graph, result
    ensures graph.Valid() && (ok <==> Buildable(c)) && (ok ==> Faithful(c, graph))
    ensures Reported(result, old(result != null && result.Clean()), ok)
  {
    ghost var clean := result != null && result.Clean();
    graph.assemblies, graph.nodes, graph.edges := [], [], [];
    ok := CollectRoots(c, graph, result);
    if !ok {
      return;
    }
    ok := ConnectRoots(c, graph, result, LayoutOf(c));
    if !ok {
      MoreDoNotJoin(LayoutOf(c).endpoints, RootsWiredUp(c, |c.roots|), RootsWiredUp(c, |c.roots|), "", c.connections, 0);
      return;
    }
    ok := AddConnections(c, c.connections, "", graph, result, "connections", true, LayoutOf(c), true, clean,
                         RootsWiredUp(c, |c.roots|));
  }
}
