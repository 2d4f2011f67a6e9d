/** Validating a hardware profile: a profile is reported clean exactly when it is well formed. */
module HardwareValidation {
  import opened Common
  import opened HardwareProfile
  import opened DefinitionCycles
  import opened Diagnostics
  import opened Expansion
  import Topology
  import NetInference

  // ----- ids and paths

  predicate IdChar(c: char) {
    'a' <= c <= 'z' || 'A' <= c <= 'Z' || '0' <= c <= '9' || c == '.' || c == '_' || c == '-'
  }

  predicate ValidIdText(id: string) {
    id != "" && forall i :: 0 <= i < |id| ==> IdChar(id[i])
  }

  predicate ValidId(id: CStr) {
    Present(id) && ValidIdText(id.value)
  }

  predicate ValidLevels(path: string)
    decreases |path|
  {
    path != "" &&
    var (id, deeper) := FirstLevel(path);
    ValidIdText(id) && (deeper.Some? ==> ValidLevels(deeper.value))
  }

  predicate ValidPath(path: CStr, emptyAllowed: bool) {
    if !Present(path) then emptyAllowed else ValidLevels(path.value)
  }

  // ----- what each check asks for

  /** Valid ids, each used once. */
  predicate IdsOk(ids: seq<CStr>) {
    forall i :: 0 <= i < |ids| ==> IdOk(ids, i)
  }

  predicate IdOk(ids: seq<CStr>, i: nat)
    requires i < |ids|
  {
    ValidId(ids[i]) && forall j :: 0 <= j < i ==> !Repeats(ids[j], ids[i])
  }

  predicate Repeats(a: CStr, b: CStr) {
    Present(a) && a == b
  }

  function AssemblyIds(items: seq<Assembly>): seq<CStr> { seq(|items|, i requires 0 <= i < |items| => items[i].id) }

  function DeviceIds(items: seq<Device>): seq<CStr> { seq(|items|, i requires 0 <= i < |items| => items[i].id) }

  function ConnectorIds(items: seq<Connector>): seq<CStr> { seq(|items|, i requires 0 <= i < |items| => items[i].id) }

  function DefinitionIds(items: seq<HardwareDefinition>): seq<CStr> {
    seq(|items|, i requires 0 <= i < |items| => items[i].id)
  }

  function PinIds(items: seq<Pin>): seq<CStr> { seq(|items|, i requires 0 <= i < |items| => items[i].id) }

  predicate EndpointOk(e: EndpointRef, emptyAllowed: bool) {
    ValidPath(e.assembly, emptyAllowed) && ValidId(e.owner) && ValidId(e.endpoint) && e.kind <= CONNECTOR_CONTACT
  }

  predicate ConnectionOk(w: Connection, emptyAllowed: bool) {
    EndpointOk(w.a, emptyAllowed) && EndpointOk(w.b, emptyAllowed)
  }

  predicate PinsOk(pins: seq<Pin>) {
    IdsOk(PinIds(pins)) && forall i :: 0 <= i < |pins| ==> pins[i].canonicalNet <= NET_LAST
  }

  predicate ConnectorOk(k: Connector) {
    PinsOk(k.contacts) && k.kind <= CONNECTOR_LAST
  }

  predicate OwnShapeOk(m: Members) {
    && IdsOk(AssemblyIds(m.assemblies)) && IdsOk(DeviceIds(m.devices)) && IdsOk(ConnectorIds(m.connectors))
    && (forall i :: 0 <= i < |m.devices| ==> PinsOk(m.devices[i].terminals))
    && (forall i :: 0 <= i < |m.connectors| ==> ConnectorOk(m.connectors[i]))
    && (forall i :: 0 <= i < |m.connections| ==> ConnectionOk(m.connections[i], true))
  }

  /** Shapes and values, at every depth of inline nesting. */
  predicate ShapeOk(m: Members, depth: nat)
    decreases m, 1
  {
    depth <= MAX_GRAPH_ENDPOINTS && OwnShapeOk(m)
    && forall i :: 0 <= i < |m.assemblies| ==> ChildShapeOk(m.assemblies[i], depth)
  }

  predicate ChildShapeOk(a: Assembly, depth: nat)
    decreases a, 0
  {
    a.kind <= ASSEMBLY_GENERIC && ShapeOk(a.members, depth + 1)
  }

  predicate WellShaped(c: Profile) {
    && IdsOk(DefinitionIds(c.definitions)) && IdsOk(AssemblyIds(c.roots)) && c.roots != []
    && (forall i :: 0 <= i < |c.definitions| ==> c.definitions[i].kind <= ASSEMBLY_GENERIC && ShapeOk(c.definitions[i].members, 0))
    && (forall i :: 0 <= i < |c.roots| ==> c.roots[i].kind <= ASSEMBLY_GENERIC && ShapeOk(c.roots[i].members, 0))
    && ValidPath(c.hostAssembly, false)
    && (forall i :: 0 <= i < |c.connections| ==> ConnectionOk(c.connections[i], false))
  }

  predicate Acyclic(c: Profile) {
    forall i :: 0 <= i < |c.definitions| ==> !CycleFrom(c, c.definitions[i], c.definitions[i].members, 0)
  }

  predicate NoOverlap(inner: seq<CStr>, defined: seq<CStr>) {
    forall i :: 0 <= i < |inner| ==> inner[i] !in defined
  }

  /** An assembly may not redeclare what its definition already provides. */
  predicate AddsTo(m: Members, d: Members) {
    && NoOverlap(AssemblyIds(m.assemblies), AssemblyIds(d.assemblies))
    && NoOverlap(DeviceIds(m.devices), DeviceIds(d.devices))
    && NoOverlap(ConnectorIds(m.connectors), ConnectorIds(d.connectors))
  }

  /** Every reference below this assembly resolves, and nothing is declared twice. */
  predicate InstanceOk(c: Profile, a: Assembly, depth: nat)
    decreases MAX_GRAPH_ENDPOINTS + 1 - depth, 1
  {
    depth <= MAX_GRAPH_ENDPOINTS
    && var d := FindDefinition(c, a.definition);
       && (Present(a.definition) ==> d.Some?)
       && (d.Some? ==> AddsTo(a.members, d.value.members) && InstancesOk(c, d.value.members.assemblies, depth))
       && InstancesOk(c, a.members.assemblies, depth)
  }

  predicate InstancesOk(c: Profile, assemblies: seq<Assembly>, depth: nat)
    requires depth <= MAX_GRAPH_ENDPOINTS
    decreases MAX_GRAPH_ENDPOINTS + 1 - depth, 0
  {
    forall i :: 0 <= i < |assemblies| ==> InstanceOk(c, assemblies[i], depth + 1)
  }

  /** A stand-in that instantiates one definition. */
  function SyntheticRoot(d: HardwareDefinition): Assembly {
    Assembly(Some("definition_root"), d.id, None, ASSEMBLY_GENERIC, None, None, None, None, Members([], [], [], []))
  }

  function SyntheticProfile(c: Profile, d: HardwareDefinition): Profile {
    Profile(Some("definition_root"), c.definitions, [SyntheticRoot(d)], [])
  }

  predicate InstancesResolve(c: Profile) {
    && (forall i :: 0 <= i < |c.roots| ==> InstanceOk(c, c.roots[i], 0))
    && (forall i :: 0 <= i < |c.definitions| ==> InstanceOk(c, SyntheticRoot(c.definitions[i]), 0))
  }

  // ----- electrical conflicts, said of the profile

  ghost function IndexOf(endpoints: seq<Endpoint>, k: Key): (i: nat)
    requires Resolves(endpoints, k)
    ensures i < |endpoints| && endpoints[i].key == k
  {
    var i :| 0 <= i < |endpoints| && endpoints[i].key == k;
    i
  }

  ghost function EdgesOf(c: Profile): (edges: seq<GraphEdge>)
    requires Buildable(c)
    ensures |edges| == |WiringOf(c).links|
  {
    var endpoints, links := LayoutOf(c).endpoints, WiringOf(c).links;
    seq(|links|, k requires 0 <= k < |links| => EdgeOf(endpoints, links[k]))
  }

  ghost function EdgeOf(endpoints: seq<Endpoint>, l: Link): GraphEdge {
    if Joins(endpoints, l) then GraphEdge(IndexOf(endpoints, l.a), IndexOf(endpoints, l.b)) else GraphEdge(0, 0)
  }

  /** Two connected endpoints carry different canonical nets. */
  ghost predicate Conflicted(c: Profile)
    requires Buildable(c)
  {
    var endpoints := LayoutOf(c).endpoints;
    exists i: nat, j: nat :: i < |endpoints| && j < |endpoints| && NetInference.Clash(endpoints[i].net, endpoints[j].net)
                             && NetInference.Connected(EdgesOf(c), i, j)
  }

  /** The profile has a graph, and no net of it is in conflict. */
  ghost predicate Sound(c: Profile) {
    Buildable(c) && !Conflicted(c)
  }

  predicate HostFound(c: Profile) {
    Present(c.hostAssembly) ==> FindAssembly(c, c.hostAssembly.value).Some?
  }

  ghost predicate DefinitionsAreSound(c: Profile, n: nat)
    requires n <= |c.definitions|
  {
    n == 0 || (DefinitionsAreSound(c, n - 1) && DefinitionIsSound(c, n - 1))
  }

  /** A reusable definition has a sound graph of its own, whether or not it is used. */
  ghost predicate DefinitionIsSound(c: Profile, i: nat)
    requires i < |c.definitions|
  {
    Sound(SyntheticProfile(c, c.definitions[i]))
  }

  /** All that validation asks of a profile. */
  ghost predicate WellFormed(c: Profile) {
    WellShaped(c) && Acyclic(c) && InstancesResolve(c) && DefinitionsAreSound(c, |c.definitions|)
    && Sound(c) && HostFound(c)
  }

  lemma {:induction false} EveryDefinitionIsSound(c: Profile, n: nat, i: nat)
    requires i < n <= |c.definitions| && DefinitionsAreSound(c, n)
    ensures Sound(SyntheticProfile(c, c.definitions[i]))
  {
    if i < n - 1 {
      EveryDefinitionIsSound(c, n - 1, i);
    }
  }

  /** A faithful graph is the only one. */
  lemma {:induction false} FaithfulEdges(c: Profile, graph: TopologyGraph)
    requires Buildable(c) && Faithful(c, graph)
    ensures graph.edges == EdgesOf(c)
  {
    var endpoints, links := LayoutOf(c).endpoints, WiringOf(c).links;
    forall k | 0 <= k < |links| ensures graph.edges[k] == EdgeOf(endpoints, links[k]) {
      assert Joins(endpoints, links[k]);
      Topology.KeysAreNodes(endpoints, IndexOf(endpoints, links[k].a), graph.edges[k].a);
      Topology.KeysAreNodes(endpoints, IndexOf(endpoints, links[k].b), graph.edges[k].b);
    }
  }

  /** Conflicts of a faithful graph are conflicts of its profile. */
  lemma {:induction false} ConflictsAreShown(c: Profile, graph: TopologyGraph)
    requires Buildable(c) && Faithful(c, graph)
    ensures Conflicted(c) <==> NetInference.HasConflict(graph.nodes, graph.edges)
  {
    FaithfulEdges(c, graph);
    forall i | 0 <= i < |graph.nodes| ensures graph.nodes[i].canonicalNet == LayoutOf(c).endpoints[i].net {
      assert Shows(graph.nodes[i], LayoutOf(c).endpoints[i], LayoutOf(c).paths);
    }
  }

  // ----- what a clean profile promises

  /** A profile without findings has exactly one graph: one node per endpoint, one edge per connection, no loop, no
      repetition, only contacts joined across assemblies, and no net in conflict. */
  lemma {:induction false} CleanProfileHasFaithfulGraph(c: Profile, graph: TopologyGraph)
    requires WellFormed(c) && graph.Valid() && Faithful(c, graph)
    ensures OneNodeEach(graph, LayoutOf(c)) && IsSimple(graph)
    ensures graph.edges == EdgesOf(c) && !NetInference.HasConflict(graph.nodes, graph.edges)
  {
    FaithfulGraphIsSimple(c, graph);
    FaithfulEdges(c, graph);
    ConflictsAreShown(c, graph);
  }

  // ----- the checks themselves

  /** The result was clean to begin with and every check so far held, or else it is not clean now. */
  ghost predicate Stands(result: ValidationResult, clean: bool, holds: bool)
    reads result
  {
    result.Valid() && (result.Clean() <==> clean && holds)
  }

  method CheckId(ids: seq<CStr>, i: nat, path: string, result: ValidationResult)
    requires result.Valid() && i < |ids|
    modifies result
    ensures Stands(result, old(result.Clean()), IdOk(ids, i))
  {
    ghost var clean := result.Clean();
    if !ValidId(ids[i]) {
      result.AddDiagnostic(InvalidId, path + "[" + Decimal(i) + "].id", "ID is empty or contains a reserved character.");
    }
    for previous := 0 to i
      invariant Stands(result, clean, ValidId(ids[i]) && forall j :: 0 <= j < previous ==> !Repeats(ids[j], ids[i]))
    {
      if Repeats(ids[previous], ids[i]) {
        result.AddDiagnostic(DuplicateId, path + "[" + Decimal(i) + "].id", "ID is duplicated in this scope.");
      }
    }
  }

  method ValidateIds(ids: seq<CStr>, path: string, result: ValidationResult)
    requires result.Valid()
    modifies result
    ensures Stands(result, old(result.Clean()), IdsOk(ids))
  {
    ghost var clean := result.Clean();
    for i := 0 to |ids|
      invariant Stands(result, clean, forall k :: 0 <= k < i ==> IdOk(ids, k))
    {
      CheckId(ids, i, path, result);
    }
  }

  method ValidatePins(pins: seq<Pin>, path: string, result: ValidationResult)
    requires result.Valid()
    modifies result
    ensures Stands(result, old(result.Clean()), PinsOk(pins))
  {
    ghost var clean := result.Clean();
    ValidateIds(PinIds(pins), path, result);
    for i := 0 to |pins|
      invariant Stands(result, clean, IdsOk(PinIds(pins)) && forall k :: 0 <= k < i ==> pins[k].canonicalNet <= NET_LAST)
    {
      if pins[i].canonicalNet > NET_LAST {
        result.AddDiagnostic(InvalidValue, path + "[" + Decimal(i) + "].canonical_net", "Canonical net enum is invalid.");
      }
    }
  }

  method ValidateDevices(devices: seq<Device>, path: string, result: ValidationResult)
    requires result.Valid()
    modifies result
    ensures Stands(result, old(result.Clean()), forall i :: 0 <= i < |devices| ==> PinsOk(devices[i].terminals))
  {
    ghost var clean := result.Clean();
    for i := 0 to |devices|
      invariant Stands(result, clean, forall k :: 0 <= k < i ==> PinsOk(devices[k].terminals))
    {
      ValidatePins(devices[i].terminals, path + ".devices[" + Decimal(i) + "].terminals", result);
    }
  }

  method ValidateConnectors(connectors: seq<Connector>, path: string, result: ValidationResult)
    requires result.Valid()
    modifies result
    ensures Stands(result, old(result.Clean()), forall i :: 0 <= i < |connectors| ==> ConnectorOk(connectors[i]))
  {
    ghost var clean := result.Clean();
    for i := 0 to |connectors|
      invariant Stands(result, clean, forall k :: 0 <= k < i ==> ConnectorOk(connectors[k]))
    {
      ValidatePins(connectors[i].contacts, path + ".connectors[" + Decimal(i) + "].contacts", result);
      if connectors[i].kind > CONNECTOR_LAST {
        result.AddDiagnostic(InvalidValue, path + ".connectors[" + Decimal(i) + "].kind", "Connector kind enum is invalid.");
      }
    }
  }

  method ValidateConnections(connections: seq<Connection>, emptyAllowed: bool, path: string, result: ValidationResult)
    requires result.Valid()
    modifies result
    ensures Stands(result, old(result.Clean()), forall i :: 0 <= i < |connections| ==> ConnectionOk(connections[i], emptyAllowed))
  {
    ghost var clean := result.Clean();
    for i := 0 to |connections|
      invariant Stands(result, clean, forall k :: 0 <= k < i ==> ConnectionOk(connections[k], emptyAllowed))
    {
      if !EndpointOk(connections[i].a, emptyAllowed) {
        result.AddDiagnostic(InvalidValue, path + "[" + Decimal(i) + "]", "Connection endpoint is malformed.");
      }
      if !EndpointOk(connections[i].b, emptyAllowed) {
        result.AddDiagnostic(InvalidValue, path + "[" + Decimal(i) + "]", "Connection endpoint is malformed.");
      }
    }
  }

  method ValidateOwnShape(m: Members, path: string, result: ValidationResult)
    requires result.Valid()
    modifies result
    ensures Stands(result, old(result.Clean()), OwnShapeOk(m))
  {
    ValidateIds(AssemblyIds(m.assemblies), path + ".assemblies", result);
    ValidateIds(DeviceIds(m.devices), path + ".devices", result);
    ValidateIds(ConnectorIds(m.connectors), path + ".connectors", result);
    ValidateDevices(m.devices, path, result);
    ValidateConnectors(m.connectors, path, result);
    ValidateConnections(m.connections, true, path + ".connections", result);
  }

  method ValidateMemberShape(m: Members, path: string, result: ValidationResult, depth: nat)
    requires result.Valid()
    modifies result
    ensures Stands(result, old(result.Clean()), ShapeOk(m, depth))
    decreases m
  {
    ghost var clean := result.Clean();
    if depth > MAX_GRAPH_ENDPOINTS {
      result.AddDiagnostic(CapacityExceeded, path, "Assembly hierarchy depth exceeded.");
      return;
    }
    ValidateOwnShape(m, path, result);
    for i := 0 to |m.assemblies|
      invariant Stands(result, clean, OwnShapeOk(m) && forall k :: 0 <= k < i ==> ChildShapeOk(m.assemblies[k], depth))
    {
      if m.assemblies[i].kind > ASSEMBLY_GENERIC {
        result.AddDiagnostic(InvalidValue, path + ".assemblies[" + Decimal(i) + "].kind", "Assembly kind enum is invalid.");
      }
      ValidateMemberShape(m.assemblies[i].members, path + ".assemblies[" + Decimal(i) + "]", result, depth + 1);
    }
  }

  method ValidateOverlap(inner: seq<CStr>, defined: seq<CStr>, path: string, message: string, result: ValidationResult)
    requires result.Valid()
    modifies result
    ensures Stands(result, old(result.Clean()), NoOverlap(inner, defined))
  {
    ghost var clean := result.Clean();
    for i := 0 to |inner|
      invariant Stands(result, clean, forall k :: 0 <= k < i ==> inner[k] !in defined)
    {
      CheckAbsent(inner[i], defined, path, message, result);
    }
  }

  method CheckAbsent(id: CStr, defined: seq<CStr>, path: string, message: string, result: ValidationResult)
    requires result.Valid()
    modifies result
    ensures Stands(result, old(result.Clean()), id !in defined)
  {
    ghost var clean := result.Clean();
    for d := 0 to |defined|
      invariant Stands(result, clean, forall j :: 0 <= j < d ==> id != defined[j])
    {
      if id == defined[d] {
        result.AddDiagnostic(DuplicateMember, path, message);
      }
    }
  }

  method ValidateAdditions(m: Members, d: Members, path: string, result: ValidationResult)
    requires result.Valid()
    modifies result
    ensures Stands(result, old(result.Clean()), AddsTo(m, d))
  {
    ValidateOverlap(AssemblyIds(m.assemblies), AssemblyIds(d.assemblies), path,
                    "Inline assembly duplicates a definition member.", result);
    ValidateOverlap(DeviceIds(m.devices), DeviceIds(d.devices), path,
                    "Inline device duplicates a definition member.", result);
    ValidateOverlap(ConnectorIds(m.connectors), ConnectorIds(d.connectors), path,
                    "Inline connector duplicates a definition member.", result);
  }

  method ValidateInstanceDefinitions(c: Profile, a: Assembly, path: string, depth: nat, result: ValidationResult)
    requires result.Valid()
    modifies result
    ensures Stands(result, old(result.Clean()), InstanceOk(c, a, depth))
    decreases MAX_GRAPH_ENDPOINTS + 1 - depth, 1
  {
    if depth > MAX_GRAPH_ENDPOINTS {
      result.AddDiagnostic(CapacityExceeded, path, "Assembly traversal depth exceeded.");
      return;
    }
    var definition := FindDefinition(c, a.definition);
    if Present(a.definition) && definition.None? {
      result.AddDiagnostic(UnknownDefinition, path, "Unknown definition '" + a.definition.value + "'.");
    }
    if definition.Some? {
      ValidateAdditions(a.members, definition.value.members, path, result);
      ValidateInstances(c, definition.value.members.assemblies, path, depth, result);
    }
    ValidateInstances(c, a.members.assemblies, path, depth, result);
  }

  method ValidateInstances(c: Profile, assemblies: seq<Assembly>, path: string, depth: nat, result: ValidationResult)
    requires result.Valid() && depth <= MAX_GRAPH_ENDPOINTS
    modifies result
    ensures Stands(result, old(result.Clean()), InstancesOk(c, assemblies, depth))
    decreases MAX_GRAPH_ENDPOINTS + 1 - depth, 0
  {
    ghost var clean := result.Clean();
    for i := 0 to |assemblies|
      invariant Stands(result, clean, forall k :: 0 <= k < i ==> InstanceOk(c, assemblies[k], depth + 1))
    {
      ValidateInstanceDefinitions(c, assemblies[i], JoinedPath(path, assemblies[i].id), depth + 1, result);
    }
  }

  // ----- the phases

  method ValidateShapes(c: Profile, result: ValidationResult)
    requires result.Valid()
    modifies result
    ensures Stands(result, old(result.Clean()), WellShaped(c))
  {
    ValidateIds(DefinitionIds(c.definitions), "definitions", result);
    ValidateIds(AssemblyIds(c.roots), "roots", result);
    if c.roots == [] {
      result.AddDiagnostic(InvalidProfile, "", "At least one root and valid counted arrays are required.");
    }
    ValidateDefinitionShapes(c.definitions, result);
    ValidateRootShapes(c.roots, result);
    if !ValidPath(c.hostAssembly, false) {
      result.AddDiagnostic(InvalidValue, "host_assembly", "Host assembly path is malformed.");
    }
    ValidateConnections(c.connections, false, "connections", result);
  }

  method ValidateDefinitionShapes(definitions: seq<HardwareDefinition>, result: ValidationResult)
    requires result.Valid()
    modifies result
    ensures Stands(result, old(result.Clean()), forall i :: 0 <= i < |definitions| ==>
                     definitions[i].kind <= ASSEMBLY_GENERIC && ShapeOk(definitions[i].members, 0))
  {
    ghost var clean := result.Clean();
    for i := 0 to |definitions|
      invariant Stands(result, clean, forall k :: 0 <= k < i ==>
                         definitions[k].kind <= ASSEMBLY_GENERIC && ShapeOk(definitions[k].members, 0))
    {
      if definitions[i].kind > ASSEMBLY_GENERIC {
        result.AddDiagnostic(InvalidValue, "definitions[" + Decimal(i) + "].kind", "Assembly kind enum is invalid.");
      }
      ValidateMemberShape(definitions[i].members, "definitions[" + Decimal(i) + "]", result, 0);
    }
  }

  method ValidateRootShapes(roots: seq<Assembly>, result: ValidationResult)
    requires result.Valid()
    modifies result
    ensures Stands(result, old(result.Clean()), forall i :: 0 <= i < |roots| ==>
                     roots[i].kind <= ASSEMBLY_GENERIC && ShapeOk(roots[i].members, 0))
  {
    ghost var clean := result.Clean();
    for i := 0 to |roots|
      invariant Stands(result, clean, forall k :: 0 <= k < i ==>
                         roots[k].kind <= ASSEMBLY_GENERIC && ShapeOk(roots[k].members, 0))
    {
      if roots[i].kind > ASSEMBLY_GENERIC {
        result.AddDiagnostic(InvalidValue, "roots[" + Decimal(i) + "].kind", "Assembly kind enum is invalid.");
      }
      ValidateMemberShape(roots[i].members, "roots[" + Decimal(i) + "]", result, 0);
    }
  }

  method ValidateCycles(c: Profile, result: ValidationResult)
    requires result.Valid()
    modifies result
    ensures Stands(result, old(result.Clean()), Acyclic(c))
  {
    ghost var clean := result.Clean();
    for i := 0 to |c.definitions|
      invariant Stands(result, clean, forall k :: 0 <= k < i ==>
                         !CycleFrom(c, c.definitions[k], c.definitions[k].members, 0))
    {
      var cycle := DefinitionCycleFrom(c, c.definitions[i], c.definitions[i].members, 0);
      if cycle {
        result.AddDiagnostic(DefinitionCycle, "definitions[" + Decimal(i) + "]", "Definition references form a cycle.");
      }
    }
  }

  method ValidateReferences(c: Profile, result: ValidationResult)
    requires result.Valid()
    modifies result
    ensures Stands(result, old(result.Clean()), InstancesResolve(c))
  {
    ghost var clean := result.Clean();
    for i := 0 to |c.roots|
      invariant Stands(result, clean, forall k :: 0 <= k < i ==> InstanceOk(c, c.roots[k], 0))
    {
      ValidateInstanceDefinitions(c, c.roots[i], Text(c.roots[i].id), 0, result);
    }
    ghost var roots := result.Clean();
    for i := 0 to |c.definitions|
      invariant Stands(result, roots, forall k :: 0 <= k < i ==> InstanceOk(c, SyntheticRoot(c.definitions[k]), 0))
    {
      ValidateInstanceDefinitions(c, SyntheticRoot(c.definitions[i]), "definition:" + Text(c.definitions[i].id), 0, result);
    }
  }

  method ReportConflicts(nets: InferredNets, prefix: string, result: ValidationResult)
    requires result.Valid() && nets.netCount <= nets.conflictByNet.Length
    modifies result
    ensures Stands(result, old(result.Clean()), forall k :: 0 <= k < nets.netCount ==> !nets.conflictByNet[k])
  {
    ghost var clean := result.Clean();
    for net := 0 to nets.netCount
      invariant nets.netCount <= nets.conflictByNet.Length
      invariant Stands(result, clean, forall k :: 0 <= k < net ==> !nets.conflictByNet[k])
    {
      if nets.conflictByNet[net] {
        result.AddDiagnostic(CanonicalNetConflict, prefix + "inferred_nets[" + Decimal(net) + "]",
                             "Connected endpoints declare different canonical net identities.");
      }
    }
  }

  method FlagConflicts(graph: TopologyGraph, nets: InferredNets)
    requires graph.Valid()
    modifies nets
    ensures nets.netCount <= nets.conflictByNet.Length
    ensures NetInference.HasConflict(graph.nodes, graph.edges) <==>
            exists k :: 0 <= k < nets.netCount && nets.conflictByNet[..][k]
  {
    var inferred := NetInference.InferNets(graph, nets);
    NetInference.LeadersBounded(graph.edges, |graph.nodes|);
    NetInference.FlagsSayConflict(graph.nodes, graph.edges, nets.netByNode[..], nets.canonicalByNet[..],
                                  nets.conflictByNet[..], nets.netCount);
  }

  method InferAndReport(graph: TopologyGraph, nets: InferredNets, prefix: string, result: ValidationResult)
    requires graph.Valid() && result.Valid()
    modifies nets, result
    ensures Stands(result, old(result.Clean()), !NetInference.HasConflict(graph.nodes, graph.edges))
  {
    FlagConflicts(graph, nets);
    assert forall k :: 0 <= k < nets.netCount ==> nets.conflictByNet[..][k] == nets.conflictByNet[k];
    ReportConflicts(nets, prefix, result);
  }

  /** Builds the graph of a profile and looks for conflicts on its nets. */
  method ValidateGraph(c: Profile, prefix: string, graph: TopologyGraph, nets: InferredNets, result: ValidationResult)
    requires graph.Valid() && result.Valid()
    modifies graph, nets, result
    ensures graph.Valid() && Stands(result, old(result.Clean()), Sound(c))
  {
    ghost var clean := result.Clean();
    var ok := Topology.BuildTopologyGraph(c, graph, result);
    if ok {
      ConflictsAreShown(c, graph);
    }
    InferAndReport(graph, nets, prefix, result);
    assert ok ==> (Sound(c) <==> !NetInference.HasConflict(graph.nodes, graph.edges));
  }

  method ValidateDefinitionGraph(c: Profile, i: nat, graph: TopologyGraph, nets: InferredNets, result: ValidationResult,
                                 ghost clean: bool)
    requires i < |c.definitions| && graph.Valid() && Stands(result, clean, DefinitionsAreSound(c, i))
    modifies graph, nets, result
    ensures graph.Valid() && Stands(result, clean, DefinitionsAreSound(c, i + 1))
  {
    var d := c.definitions[i];
    ValidateGraph(SyntheticProfile(c, d), "definition:" + Text(d.id) + ".", graph, nets, result);
  }

  method ValidateDefinitionGraphs(c: Profile, graph: TopologyGraph, nets: InferredNets, result: ValidationResult)
    requires graph.Valid() && result.Valid()
    modifies graph, nets, result
    ensures graph.Valid() && Stands(result, old(result.Clean()), DefinitionsAreSound(c, |c.definitions|))
  {
    ghost var clean := result.Clean();
    for i := 0 to |c.definitions|
      invariant graph.Valid() && Stands(result, clean, DefinitionsAreSound(c, i))
    {
      ValidateDefinitionGraph(c, i, graph, nets, result, clean);
    }
  }

  /**
   * Each phase runs only if the ones before it found nothing, and the last needs room for its tables. Nothing is found
   * exactly in a well-formed profile for which there was room.
   */
  method ValidateHwConfig(c: Profile, room: bool) returns (result: ValidationResult)
    ensures fresh(result) && result.Valid()
    ensures result.Clean() <==> WellFormed(c) && room
  {
    result := new ValidationResult();
    ValidateShapes(c, result);
    if !result.Clean() {
      return;
    }
    ValidateCycles(c, result);
    if !result.Clean() {
      return;
    }
    ValidateReferences(c, result);
    if !result.Clean() {
      return;
    }
    if !room {
      result.AddDiagnostic(CapacityExceeded, "", "Could not allocate topology validation workspace.");
      return;
    }
    ValidateExpansion(c, result);
    if Present(c.hostAssembly) {
      var host := FindAssembly(c, c.hostAssembly.value);
      if host.None? {
        result.AddDiagnostic(AssemblyNotFound, "host_assembly", "Host assembly does not resolve.");
      }
    }
  }

  /** Expands every definition and then the profile itself, in the same tables. */
  method ValidateExpansion(c: Profile, result: ValidationResult)
    requires result.Valid()
    modifies result
    ensures Stands(result, old(result.Clean()), DefinitionsAreSound(c, |c.definitions|) && Sound(c))
  {
    var graph := new TopologyGraph();
    var nets := new InferredNets();
    ValidateDefinitionGraphs(c, graph, nets, result);
    ValidateGraph(c, "", graph, nets, result);
  }
}
