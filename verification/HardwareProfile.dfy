/** The hardware description language: profiles, assemblies, and the flat graph they expand to. */
module HardwareProfile {
  import opened Common

  // Enumerations travel as raw bytes, so a value outside the named range is expressible.
  const NET_NONE: uint8 := 0
  const NET_LAST: uint8 := 7         // ProtectiveEarth
  const CONNECTOR_LAST: uint8 := 7   // ConnectorKind::Generic
  const ASSEMBLY_GENERIC: uint8 := 7 // AssemblyKind::Generic, the last one
  const DEVICE_TERMINAL: uint8 := 0
  const CONNECTOR_CONTACT: uint8 := 1

  const MAX_DIAGNOSTICS := 24
  const MAX_GRAPH_ASSEMBLIES := 96
  const MAX_GRAPH_ENDPOINTS := 192
  const MAX_GRAPH_EDGES := 192

  /** A device terminal or a connector contact: both have the same three fields. */
  datatype Pin = Pin(id: CStr, canonicalNet: uint8, name: CStr)

  datatype Device = Device(id: CStr, terminals: seq<Pin>, name: CStr, kind: CStr, model: CStr, manufacturer: CStr)

  datatype Connector = Connector(id: CStr, contacts: seq<Pin>, name: CStr, kind: uint8, model: CStr, manufacturer: CStr)

  datatype EndpointRef = EndpointRef(assembly: CStr, kind: uint8, owner: CStr, endpoint: CStr)

  datatype WireMetadata = WireMetadata(color: CStr, gauge: CStr, wireLabel: CStr, lengthMm: uint32)

  datatype Connection = Connection(a: EndpointRef, b: EndpointRef, wire: WireMetadata)

  datatype Members = Members(assemblies: seq<Assembly>, devices: seq<Device>,
                             connectors: seq<Connector>, connections: seq<Connection>)

  datatype Assembly = Assembly(id: CStr, definition: CStr, name: CStr, kind: uint8, model: CStr,
                               manufacturer: CStr, serialNumber: CStr, location: CStr, members: Members)

  datatype HardwareDefinition = HardwareDefinition(id: CStr, kind: uint8, name: CStr, model: CStr,
                                                   manufacturer: CStr, members: Members)

  datatype Profile = Profile(hostAssembly: CStr, definitions: seq<HardwareDefinition>,
                             roots: seq<Assembly>, connections: seq<Connection>)

  datatype GraphNode = GraphNode(assembly: nat, kind: uint8, owner: CStr, endpoint: CStr, canonicalNet: uint8)

  datatype GraphEdge = GraphEdge(a: nat, b: nat)

  /** The bounded graph a profile expands to. Each list is a fixed buffer with a count in the source. */
  class TopologyGraph {
    var assemblies: seq<string>
    var nodes: seq<GraphNode>
    var edges: seq<GraphEdge>

    /** The nodes fit the tables of net inference, and edges join nodes there are. */
    ghost predicate Bounded()
      reads this
    {
      && |nodes| <= MAX_GRAPH_ENDPOINTS
      && (forall e :: 0 <= e < |edges| ==> edges[e].a < |nodes| && edges[e].b < |nodes|)
    }

    ghost predicate Valid()
      reads this
    {
      && Bounded()
      && |assemblies| <= MAX_GRAPH_ASSEMBLIES
      && |edges| <= MAX_GRAPH_EDGES
      && (forall i, j :: 0 <= i < j < |assemblies| ==> assemblies[i] != assemblies[j])
      && (forall i :: 0 <= i < |nodes| ==> nodes[i].assembly < |assemblies|)
    }

    constructor ()
      ensures Valid() && assemblies == [] && nodes == [] && edges == []
    {
      assemblies, nodes, edges := [], [], [];
    }
  }

  class InferredNets {
    var netByNode: array<nat>
    var canonicalByNet: array<uint8>
    var conflictByNet: array<bool>
    var netCount: nat

    constructor ()
      ensures fresh(netByNode) && fresh(canonicalByNet) && fresh(conflictByNet)
    {
      netByNode := new nat[MAX_GRAPH_ENDPOINTS](_ => 0);
      canonicalByNet := new uint8[MAX_GRAPH_ENDPOINTS](_ => NET_NONE);
      conflictByNet := new bool[MAX_GRAPH_ENDPOINTS](_ => false);
      netCount := 0;
    }
  }
}
