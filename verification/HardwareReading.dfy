/** What the hardware document says: the profile can be read back from it, field by field. */
module HardwareReading {
  import opened Common
  import opened Documents
  import opened HardwareProfile
  import opened HardwareCodec
  import HardwareRoundTrip

  // ----- what a reader makes of the values

  /** A missing text, a null and an empty one read alike. */
  function ReadText(j: Json): CStr {
    if j.Str? && j.text != "" then Some(j.text) else None
  }

  function ReadLength(j: Json): uint32 {
    if j.Num? && 0 <= j.n < 0x1_0000_0000 then j.n else 0
  }

  function ReadNet(j: Json): uint8 {
    if j == Str("GND") then 1 else if j == Str("VCC") then 2 else if j == Str("+3V3") then 3
    else if j == Str("+5V") then 4 else if j == Str("AC_PHASE") then 5 else if j == Str("AC_NEUTRAL") then 6
    else if j == Str("PE") then 7 else NET_NONE
  }

  function ReadAssemblyKind(j: Json): uint8 {
    if j == Str("custom_board") then 0 else if j == Str("market_board") then 1 else if j == Str("module") then 2
    else if j == Str("sensor_probe") then 3 else if j == Str("panel") then 4 else if j == Str("enclosure") then 5
    else if j == Str("external") then 6 else ASSEMBLY_GENERIC
  }

  function ReadConnectorKind(j: Json): uint8 {
    if j == Str("header") then 0 else if j == Str("screw_terminal") then 1 else if j == Str("jst") then 2
    else if j == Str("usb") then 3 else if j == Str("terminal") then 4 else if j == Str("direct_pin") then 5
    else if j == Str("direct_wire") then 6 else CONNECTOR_LAST
  }

  function ReadEndpointKind(j: Json): uint8 {
    if j == Str("device_terminal") then DEVICE_TERMINAL else CONNECTOR_CONTACT
  }

  // ----- and of the records

  function ReadEndpoint(j: Json): EndpointRef {
    EndpointRef(ReadText(Field(j, "assembly")), ReadEndpointKind(Field(j, "kind")), ReadText(Field(j, "owner")), ReadText(Field(j, "endpoint")))
  }

  function ReadWire(j: Json): WireMetadata {
    WireMetadata(ReadText(Field(j, "color")), ReadText(Field(j, "gauge")), ReadText(Field(j, "label")), ReadLength(Field(j, "length_mm")))
  }

  function ReadConnection(j: Json): Connection {
    Connection(ReadEndpoint(Field(j, "a")), ReadEndpoint(Field(j, "b")), ReadWire(Field(j, "wire")))
  }

  function ReadPin(j: Json): Pin {
    Pin(ReadText(Field(j, "id")), ReadNet(Field(j, "canonical_net")), ReadText(Field(j, "name")))
  }

  function ReadDevice(j: Json): Device {
    Device(ReadText(Field(j, "id")), ReadEach(Items(Field(j, "terminals")), ReadPin), ReadText(Field(j, "name")),
           ReadText(Field(j, "kind")), ReadText(Field(j, "model")), ReadText(Field(j, "manufacturer")))
  }

  function ReadConnector(j: Json): Connector {
    Connector(ReadText(Field(j, "id")), ReadEach(Items(Field(j, "contacts")), ReadPin), ReadText(Field(j, "name")),
              ReadConnectorKind(Field(j, "kind")), ReadText(Field(j, "model")), ReadText(Field(j, "manufacturer")))
  }

  function ReadMembers(j: Json): Members
    decreases j, 1
  {
    Members(if Field(j, "assemblies").Arr? then ReadAssemblies(j.fields["assemblies"].items) else [],
            ReadEach(Items(Field(j, "devices")), ReadDevice), ReadEach(Items(Field(j, "connectors")), ReadConnector),
            ReadEach(Items(Field(j, "connections")), ReadConnection))
  }

  function ReadAssemblies(items: seq<Json>): (r: seq<Assembly>)
    decreases items, 0
  {
    if items == [] then [] else [ReadAssembly(items[0])] + ReadAssemblies(items[1..])
  }

  function ReadAssembly(j: Json): Assembly
    decreases j, 2
  {
    Assembly(ReadText(Field(j, "id")), ReadText(Field(j, "definition")), ReadText(Field(j, "name")), ReadAssemblyKind(Field(j, "kind")),
             ReadText(Field(j, "model")), ReadText(Field(j, "manufacturer")), ReadText(Field(j, "serial_number")),
             ReadText(Field(j, "location")), ReadMembers(j))
  }

  function ReadDefinition(j: Json): HardwareDefinition {
    HardwareDefinition(ReadText(Field(j, "id")), ReadAssemblyKind(Field(j, "kind")), ReadText(Field(j, "name")),
                       ReadText(Field(j, "model")), ReadText(Field(j, "manufacturer")), ReadMembers(j))
  }

  function ReadHardware(j: Json): Profile {
    Profile(ReadText(Field(j, "host_assembly")), ReadEach(Items(Field(j, "definitions")), ReadDefinition),
            ReadAssemblies(Items(Field(j, "roots"))), ReadEach(Items(Field(j, "connections")), ReadConnection))
  }

  // ----- a profile up to what no document tells apart

  /** Null and empty texts are one. */
  function Plain(c: CStr): CStr {
    if Present(c) then c else None
  }

  /** A value outside its enumeration is the generic one. */
  function PlainKind(kind: uint8, last: uint8): uint8 {
    if kind <= last then kind else last
  }

  function PlainEndpoint(e: EndpointRef): EndpointRef {
    EndpointRef(Plain(e.assembly), PlainKind(e.kind, CONNECTOR_CONTACT), Plain(e.owner), Plain(e.endpoint))
  }

  function PlainWire(w: WireMetadata): WireMetadata {
    WireMetadata(Plain(w.color), Plain(w.gauge), Plain(w.wireLabel), w.lengthMm)
  }

  function PlainConnection(c: Connection): Connection {
    Connection(PlainEndpoint(c.a), PlainEndpoint(c.b), PlainWire(c.wire))
  }

  function PlainPin(p: Pin): Pin {
    Pin(Plain(p.id), if p.canonicalNet <= NET_LAST then p.canonicalNet else NET_NONE, Plain(p.name))
  }

  function PlainDevice(d: Device): Device {
    Device(Plain(d.id), PlainEach(d.terminals, PlainPin), Plain(d.name), Plain(d.kind), Plain(d.model), Plain(d.manufacturer))
  }

  function PlainConnector(c: Connector): Connector {
    Connector(Plain(c.id), PlainEach(c.contacts, PlainPin), Plain(c.name), PlainKind(c.kind, CONNECTOR_LAST),
              Plain(c.model), Plain(c.manufacturer))
  }

  function PlainMembers(m: Members): Members
    decreases m, 0
  {
    Members(PlainAssemblies(m.assemblies), PlainEach(m.devices, PlainDevice), PlainEach(m.connectors, PlainConnector),
            PlainEach(m.connections, PlainConnection))
  }

  function PlainAssemblies(assemblies: seq<Assembly>): (r: seq<Assembly>)
    decreases assemblies
  {
    if assemblies == [] then [] else [PlainAssembly(assemblies[0])] + PlainAssemblies(assemblies[1..])
  }

  function PlainAssembly(a: Assembly): Assembly
    decreases a
  {
    Assembly(Plain(a.id), Plain(a.definition), Plain(a.name), PlainKind(a.kind, ASSEMBLY_GENERIC), Plain(a.model),
             Plain(a.manufacturer), Plain(a.serialNumber), Plain(a.location), PlainMembers(a.members))
  }

  function PlainDefinition(d: HardwareDefinition): HardwareDefinition {
    HardwareDefinition(Plain(d.id), PlainKind(d.kind, ASSEMBLY_GENERIC), Plain(d.name), Plain(d.model),
                       Plain(d.manufacturer), PlainMembers(d.members))
  }

  function PlainProfile(p: Profile): Profile {
    Profile(Plain(p.hostAssembly), PlainEach(p.definitions, PlainDefinition), PlainAssemblies(p.roots),
            PlainEach(p.connections, PlainConnection))
  }

  // ----- reading gives the plain profile back

  lemma {:induction false} NetBack(net: uint8)
    ensures ReadNet(Str(CanonicalNetName(net))) == if net <= NET_LAST then net else NET_NONE
  {
  }

  lemma {:induction false} KindsBack(kind: uint8)
    ensures ReadAssemblyKind(Str(AssemblyKindName(kind))) == PlainKind(kind, ASSEMBLY_GENERIC)
    ensures ReadConnectorKind(Str(ConnectorKindName(kind))) == PlainKind(kind, CONNECTOR_LAST)
    ensures ReadEndpointKind(Str(EndpointKindName(kind))) == PlainKind(kind, CONNECTOR_CONTACT)
  {
  }

  lemma {:induction false} EndpointBack(e: EndpointRef)
    ensures ReadEndpoint(NamedEndpoint(e)) == PlainEndpoint(e)
  {
    KindsBack(e.kind);
  }

  lemma {:induction false} ConnectionBack(c: Connection)
    ensures ReadConnection(NamedConnection(c)) == PlainConnection(c)
  {
    EndpointBack(c.a);
    EndpointBack(c.b);
    WireBack(c);
    assert Field(NamedConnection(c), "a") == NamedEndpoint(c.a) && Field(NamedConnection(c), "b") == NamedEndpoint(c.b);
  }

  lemma {:induction false} WireBack(c: Connection)
    ensures ReadWire(Field(NamedConnection(c), "wire")) == PlainWire(c.wire)
  {
  }

  lemma {:induction false} PinBack(p: Pin, absent: Json)
    requires absent in {Null, Str("")}
    ensures ReadPin(NamedPin(p, absent)) == PlainPin(p)
  {
    NetBack(p.canonicalNet);
  }

  lemma {:induction false} PinsBack(pins: seq<Pin>, absent: Json)
    requires absent in {Null, Str("")}
    ensures ReadEach(Each(pins, PinNamer(absent)), ReadPin) == PlainEach(pins, PlainPin)
  {
    forall p | p in pins ensures ReadPin(PinNamer(absent)(p)) == PlainPin(p) {
      PinBack(p, absent);
    }
    EachBack(pins, PinNamer(absent), ReadPin, PlainPin);
  }

  lemma {:induction false} DeviceFields(d: Device, absent: Json)
    ensures var j := NamedDevice(d, absent);
            && Field(j, "terminals") == Arr(Each(d.terminals, PinNamer(absent)))
            && ReadText(Field(j, "id")) == Plain(d.id) && ReadText(Field(j, "name")) == Plain(d.name)
            && ReadText(Field(j, "kind")) == Plain(d.kind) && ReadText(Field(j, "model")) == Plain(d.model)
            && ReadText(Field(j, "manufacturer")) == Plain(d.manufacturer)
  {
  }

  lemma {:induction false} DeviceBack(d: Device, absent: Json)
    requires absent in {Null, Str("")}
    ensures ReadDevice(NamedDevice(d, absent)) == PlainDevice(d)
  {
    PinsBack(d.terminals, absent);
    DeviceFields(d, absent);
  }

  lemma {:induction false} ConnectorFields(c: Connector, absent: Json)
    ensures var j := NamedConnector(c, absent);
            && Field(j, "kind") == Str(ConnectorKindName(c.kind)) && Field(j, "contacts") == Arr(Each(c.contacts, PinNamer(absent)))
            && ReadText(Field(j, "id")) == Plain(c.id) && ReadText(Field(j, "name")) == Plain(c.name)
            && ReadText(Field(j, "model")) == Plain(c.model) && ReadText(Field(j, "manufacturer")) == Plain(c.manufacturer)
  {
  }

  lemma {:induction false} ConnectorBack(c: Connector, absent: Json)
    requires absent in {Null, Str("")}
    ensures ReadConnector(NamedConnector(c, absent)) == PlainConnector(c)
  {
    KindsBack(c.kind);
    PinsBack(c.contacts, absent);
    ConnectorFields(c, absent);
  }

  // ----- at every depth

  lemma {:induction false} MembersBack(fields: Fields, m: Members, absent: Json)
    requires absent in {Null, Str("")}
    ensures ReadMembers(Obj(WithMembers(fields, m, absent))) == PlainMembers(m)
    decreases m, 1
  {
    var j := Obj(WithMembers(fields, m, absent));
    assert Field(j, "assemblies") == Arr(NamedAssemblies(m.assemblies, absent));
    assert Field(j, "devices") == Arr(Each(m.devices, DeviceNamer(absent)));
    assert Field(j, "connectors") == Arr(Each(m.connectors, ConnectorNamer(absent)));
    assert Field(j, "connections") == Arr(Each(m.connections, NamedConnection));
    AssembliesBack(m.assemblies, absent);
    DevicesBack(m.devices, absent);
    ConnectorsBack(m.connectors, absent);
    ConnectionsBack(m.connections);
  }

  lemma {:induction false} DevicesBack(devices: seq<Device>, absent: Json)
    requires absent in {Null, Str("")}
    ensures ReadEach(Each(devices, DeviceNamer(absent)), ReadDevice) == PlainEach(devices, PlainDevice)
  {
    forall d | d in devices ensures ReadDevice(DeviceNamer(absent)(d)) == PlainDevice(d) {
      DeviceBack(d, absent);
    }
    EachBack(devices, DeviceNamer(absent), ReadDevice, PlainDevice);
  }

  lemma {:induction false} ConnectorsBack(connectors: seq<Connector>, absent: Json)
    requires absent in {Null, Str("")}
    ensures ReadEach(Each(connectors, ConnectorNamer(absent)), ReadConnector) == PlainEach(connectors, PlainConnector)
  {
    forall c | c in connectors ensures ReadConnector(ConnectorNamer(absent)(c)) == PlainConnector(c) {
      ConnectorBack(c, absent);
    }
    EachBack(connectors, ConnectorNamer(absent), ReadConnector, PlainConnector);
  }

  lemma {:induction false} ConnectionsBack(connections: seq<Connection>)
    ensures ReadEach(Each(connections, NamedConnection), ReadConnection) == PlainEach(connections, PlainConnection)
  {
    forall c | c in connections ensures ReadConnection(NamedConnection(c)) == PlainConnection(c) {
      ConnectionBack(c);
    }
    EachBack(connections, NamedConnection, ReadConnection, PlainConnection);
  }

  lemma {:induction false} AssembliesBack(assemblies: seq<Assembly>, absent: Json)
    requires absent in {Null, Str("")}
    ensures ReadAssemblies(NamedAssemblies(assemblies, absent)) == PlainAssemblies(assemblies)
    decreases assemblies, 0
  {
    if assemblies != [] {
      AssemblyBack(assemblies[0], absent);
      AssembliesBack(assemblies[1..], absent);
      var named := NamedAssemblies(assemblies, absent);
      assert named[0] == NamedAssembly(assemblies[0], absent) && named[1..] == NamedAssemblies(assemblies[1..], absent);
    }
  }

  /** The lists of an object say nothing of its other fields. */
  lemma {:induction false} OtherFields(fields: Fields, m: Members, absent: Json)
    ensures var j, own := Obj(WithMembers(fields, m, absent)), Obj(fields);
            && Field(j, "id") == Field(own, "id") && Field(j, "definition") == Field(own, "definition")
            && Field(j, "name") == Field(own, "name") && Field(j, "kind") == Field(own, "kind") && Field(j, "model") == Field(own, "model")
            && Field(j, "manufacturer") == Field(own, "manufacturer") && Field(j, "serial_number") == Field(own, "serial_number")
            && Field(j, "location") == Field(own, "location")
  {
  }

  /** The fields of an assembly's own object before its lists. */
  function OwnFields(a: Assembly): Fields {
    WithDetails(WithKind(AssemblyHead(a), !Present(a.definition), a.kind), a)
  }

  lemma {:induction false} HeadBack(a: Assembly)
    ensures ReadText(Field(Obj(OwnFields(a)), "id")) == Plain(a.id)
    ensures ReadText(Field(Obj(OwnFields(a)), "definition")) == Plain(a.definition)
    ensures ReadText(Field(Obj(OwnFields(a)), "name")) == Plain(a.name)
  {
  }

  lemma {:induction false} DetailsBack(a: Assembly)
    ensures ReadText(Field(Obj(OwnFields(a)), "model")) == Plain(a.model)
    ensures ReadText(Field(Obj(OwnFields(a)), "manufacturer")) == Plain(a.manufacturer)
    ensures ReadText(Field(Obj(OwnFields(a)), "serial_number")) == Plain(a.serialNumber)
    ensures ReadText(Field(Obj(OwnFields(a)), "location")) == Plain(a.location)
  {
  }

  /** The kind is left out only where it is generic. */
  lemma {:induction false} KindBack(a: Assembly)
    ensures ReadAssemblyKind(Field(Obj(OwnFields(a)), "kind")) == PlainKind(a.kind, ASSEMBLY_GENERIC)
  {
    KindsBack(a.kind);
  }

  lemma {:induction false} AssemblyBack(a: Assembly, absent: Json)
    requires absent in {Null, Str("")}
    ensures ReadAssembly(NamedAssembly(a, absent)) == PlainAssembly(a)
    decreases a
  {
    var fields := OwnFields(a);
    MembersBack(fields, a.members, absent);
    OtherFields(fields, a.members, absent);
    HeadBack(a);
    DetailsBack(a);
    KindBack(a);
  }

  lemma {:induction false} DefinitionHeadBack(d: HardwareDefinition)
    ensures ReadText(Field(Obj(DefinitionHead(d)), "id")) == Plain(d.id)
    ensures Field(Obj(DefinitionHead(d)), "kind") == Str(AssemblyKindName(d.kind))
    ensures ReadText(Field(Obj(DefinitionHead(d)), "name")) == Plain(d.name)
    ensures ReadText(Field(Obj(DefinitionHead(d)), "model")) == Plain(d.model)
    ensures ReadText(Field(Obj(DefinitionHead(d)), "manufacturer")) == Plain(d.manufacturer)
  {
  }

  lemma {:induction false} DefinitionBack(d: HardwareDefinition, absent: Json)
    requires absent in {Null, Str("")}
    ensures ReadDefinition(NamedDefinition(d, absent)) == PlainDefinition(d)
  {
    MembersBack(DefinitionHead(d), d.members, absent);
    OtherFields(DefinitionHead(d), d.members, absent);
    DefinitionHeadBack(d);
    KindsBack(d.kind);
  }

  /** For every profile the named document can be read back to the profile, up to what no document tells apart. */
  lemma {:induction false} HardwareBack(p: Profile, absent: Json)
    requires absent in {Null, Str("")}
    ensures ReadHardware(NamedHardware(p, absent)) == PlainProfile(p)
    ensures Field(NamedHardware(p, absent), "version") == Num(HW_CONFIG_VERSION)
  {
    var j := NamedHardware(p, absent);
    forall d | d in p.definitions ensures ReadDefinition(DefinitionNamer(absent)(d)) == PlainDefinition(d) {
      DefinitionBack(d, absent);
    }
    EachBack(p.definitions, DefinitionNamer(absent), ReadDefinition, PlainDefinition);
    AssembliesBack(p.roots, absent);
    ConnectionsBack(p.connections);
    assert Field(j, "definitions") == Arr(Each(p.definitions, DefinitionNamer(absent)));
    assert Field(j, "roots") == Arr(NamedAssemblies(p.roots, absent));
    assert Field(j, "connections") == Arr(Each(p.connections, NamedConnection));
  }

  /** Profiles with the same named document agree in every text, enumeration, wire and list, in order. */
  lemma {:induction false} SameDocumentSameProfile(p: Profile, q: Profile)
    requires NamedHardware(p, Null) == NamedHardware(q, Null)
    ensures PlainProfile(p) == PlainProfile(q)
  {
    HardwareBack(p, Null);
    HardwareBack(q, Null);
  }

  /** So do profiles within their enumerations with the same positional one. */
  lemma {:induction false} SamePositionsSameProfile(p: Profile, q: Profile)
    requires HardwareRoundTrip.InRange(p) && HardwareRoundTrip.InRange(q) && PackedHardware(p) == PackedHardware(q)
    ensures PlainProfile(p) == PlainProfile(q)
  {
    HardwareRoundTrip.DecodePackedHardware(p);
    HardwareRoundTrip.DecodePackedHardware(q);
    HardwareBack(p, Str(""));
    HardwareBack(q, Str(""));
  }

  // ----- wires, outright

  /** A wire is written exactly when one of its texts is present or it has a length, and each of the four exactly when it
      is there. */
  lemma {:induction false} WireIsWritten(c: Connection)
    ensures var w, j := c.wire, NamedConnection(c);
            && ("wire" in j.fields <==> Present(w.color) || Present(w.gauge) || Present(w.wireLabel) || w.lengthMm != 0)
            && ("wire" in j.fields ==>
                  && j.fields["wire"].Obj?
                  && var fields := j.fields["wire"].fields;
                     && ("color" in fields <==> Present(w.color)) && (Present(w.color) ==> fields["color"] == Str(w.color.value))
                     && ("gauge" in fields <==> Present(w.gauge)) && (Present(w.gauge) ==> fields["gauge"] == Str(w.gauge.value))
                     && ("label" in fields <==> Present(w.wireLabel))
                     && (Present(w.wireLabel) ==> fields["label"] == Str(w.wireLabel.value))
                     && ("length_mm" in fields <==> w.lengthMm != 0)
                     && (w.lengthMm != 0 ==> fields["length_mm"] == Num(w.lengthMm)))
            && (PackedWire(w) == Null <==> "wire" !in j.fields)
  {
  }
}
