/** What decoding makes of the positional hardware document: when it is the named one, and what it ignores. */
module HardwareRoundTrip {
  import opened Common
  import opened Documents
  import opened HardwareProfile
  import opened HardwareCodec

  // ----- what decoding makes of every encoding

  predicate PinInRange(p: Pin) { p.canonicalNet <= NET_LAST }

  predicate DeviceInRange(d: Device) { forall p :: p in d.terminals ==> PinInRange(p) }

  predicate ConnectorInRange(c: Connector) { c.kind <= CONNECTOR_LAST && forall p :: p in c.contacts ==> PinInRange(p) }

  predicate ConnectionInRange(c: Connection) { c.a.kind <= CONNECTOR_CONTACT && c.b.kind <= CONNECTOR_CONTACT }

  predicate MembersInRange(m: Members)
    decreases m, 0
  {
    && AssembliesInRange(m.assemblies)
    && (forall d :: d in m.devices ==> DeviceInRange(d))
    && (forall c :: c in m.connectors ==> ConnectorInRange(c))
    && (forall c :: c in m.connections ==> ConnectionInRange(c))
  }

  predicate AssembliesInRange(assemblies: seq<Assembly>)
    decreases assemblies
  {
    assemblies == [] || (AssemblyInRange(assemblies[0]) && AssembliesInRange(assemblies[1..]))
  }

  predicate AssemblyInRange(a: Assembly)
    decreases a
  {
    a.kind <= ASSEMBLY_GENERIC && MembersInRange(a.members)
  }

  predicate DefinitionInRange(d: HardwareDefinition) { d.kind <= ASSEMBLY_GENERIC && MembersInRange(d.members) }

  /** Every enumeration of the profile, at every depth, holds one of its named values. */
  predicate InRange(p: Profile) {
    && (forall d :: d in p.definitions ==> DefinitionInRange(d))
    && AssembliesInRange(p.roots)
    && (forall c :: c in p.connections ==> ConnectionInRange(c))
  }

  lemma {:induction false} CopyPacked(fields: Fields, key: string, c: CStr)
    ensures CopyText(Some(fields), key, TextOrNull(c)) == Some(WithText(fields, key, c))
  {
  }

  lemma {:induction false} WithTextCommutes(fields: Fields, key: string, c: CStr, other: string, j: Json)
    requires key != other
    ensures WithText(fields, key, c)[other := j] == WithText(fields[other := j], key, c)
  {
  }

  lemma {:induction false} DecodePackedPin(p: Pin)
    ensures DecodePin(PackedPin(p)) == When(PinInRange(p), NamedPin(p, Str("")))
  {
  }

  lemma {:induction false} DecodePackedConnection(c: Connection)
    ensures DecodeConnection(PackedConnection(c)) == When(ConnectionInRange(c), NamedConnection(c))
  {
    assert DecodeEndpoint(PackedEndpoint(c.a)) == When(c.a.kind <= CONNECTOR_CONTACT, NamedEndpoint(c.a));
    assert DecodeEndpoint(PackedEndpoint(c.b)) == When(c.b.kind <= CONNECTOR_CONTACT, NamedEndpoint(c.b));
    if HasWire(c.wire) {
      assert DecodeWire(PackedWire(c.wire).items) == Some(NamedWire(c.wire));
    }
  }

  lemma {:induction false} DecodePackedPins(pins: seq<Pin>)
    ensures DecodeAll(Each(pins, PackedPin), DecodePin) ==
            When(forall p :: p in pins ==> PinInRange(p), Each(pins, PinNamer(Str(""))))
  {
    forall p | p in pins ensures DecodePin(PackedPin(p)) == When(PinInRange(p), PinNamer(Str(""))(p)) {
      DecodePackedPin(p);
    }
    DecodeEach(pins, PackedPin, DecodePin, PinInRange, PinNamer(Str("")));
  }

  lemma {:induction false} DecodePackedDevice(d: Device)
    ensures DecodeDevice(PackedDevice(d)) == When(DeviceInRange(d), NamedDevice(d, Str("")))
  {
    DecodePackedPins(d.terminals);
  }

  lemma {:induction false} DecodePackedConnector(c: Connector)
    ensures DecodeConnector(PackedConnector(c)) == When(ConnectorInRange(c), NamedConnector(c, Str("")))
  {
    DecodePackedPins(c.contacts);
    var kind := Str(ConnectorKindName(c.kind));
    var named := WithText(map["id" := Str(Text(c.id))], "name", c.name);
    WithTextCommutes(WithText(named, "model", c.model), "manufacturer", c.manufacturer, "kind", kind);
    WithTextCommutes(named, "model", c.model, "kind", kind);
  }

  lemma {:induction false} DecodePackedMembers(m: Members, fields: Fields)
    ensures DecodeMembers(PackedMembers(m), fields) == When(MembersInRange(m), WithMembers(fields, m, Str("")))
    decreases m, 1
  {
    DecodePackedAssemblies(m.assemblies);
    DecodePackedDevices(m.devices);
    DecodePackedConnectors(m.connectors);
    DecodePackedConnections(m.connections);
  }

  lemma {:induction false} DecodePackedDevices(devices: seq<Device>)
    ensures DecodeAll(Each(devices, PackedDevice), DecodeDevice) ==
            When(forall d :: d in devices ==> DeviceInRange(d), Each(devices, DeviceNamer(Str(""))))
  {
    forall d | d in devices ensures DecodeDevice(PackedDevice(d)) == When(DeviceInRange(d), DeviceNamer(Str(""))(d)) {
      DecodePackedDevice(d);
    }
    DecodeEach(devices, PackedDevice, DecodeDevice, DeviceInRange, DeviceNamer(Str("")));
  }

  lemma {:induction false} DecodePackedConnectors(connectors: seq<Connector>)
    ensures DecodeAll(Each(connectors, PackedConnector), DecodeConnector) ==
            When(forall c :: c in connectors ==> ConnectorInRange(c), Each(connectors, ConnectorNamer(Str(""))))
  {
    forall c | c in connectors
      ensures DecodeConnector(PackedConnector(c)) == When(ConnectorInRange(c), ConnectorNamer(Str(""))(c))
    {
      DecodePackedConnector(c);
    }
    DecodeEach(connectors, PackedConnector, DecodeConnector, ConnectorInRange, ConnectorNamer(Str("")));
  }

  lemma {:induction false} DecodePackedConnections(connections: seq<Connection>)
    ensures DecodeAll(Each(connections, PackedConnection), DecodeConnection) ==
            When(forall c :: c in connections ==> ConnectionInRange(c), Each(connections, NamedConnection))
  {
    forall c | c in connections ensures DecodeConnection(PackedConnection(c)) == When(ConnectionInRange(c), NamedConnection(c)) {
      DecodePackedConnection(c);
    }
    DecodeEach(connections, PackedConnection, DecodeConnection, ConnectionInRange, NamedConnection);
  }

  lemma {:induction false} DecodePackedAssemblies(assemblies: seq<Assembly>)
    ensures DecodeAssemblies(PackedAssemblies(assemblies)) ==
            When(AssembliesInRange(assemblies), NamedAssemblies(assemblies, Str("")))
    decreases assemblies
  {
    if assemblies != [] {
      DecodePackedAssembly(assemblies[0]);
      DecodePackedAssemblies(assemblies[1..]);
      assert PackedAssemblies(assemblies)[1..] == PackedAssemblies(assemblies[1..]);
    }
  }

  lemma {:induction false} CopyPackedDetails(fields: Fields, a: Assembly)
    ensures CopyHead(PackedAssembly(a).items) == Some(AssemblyHead(a))
    ensures CopyDetails(Some(fields), PackedAssembly(a).items) == Some(WithDetails(fields, a))
  {
    var one := WithText(fields, "model", a.model);
    var two := WithText(one, "manufacturer", a.manufacturer);
    CopyPacked(fields, "model", a.model);
    CopyPacked(one, "manufacturer", a.manufacturer);
    CopyPacked(two, "serial_number", a.serialNumber);
    CopyPacked(WithText(two, "serial_number", a.serialNumber), "location", a.location);
  }

  /** The named form writes the kind before those texts, the decoder after them. */
  lemma {:induction false} DetailsCommute(fields: Fields, a: Assembly, plain: bool)
    ensures WithKind(WithDetails(fields, a), plain, a.kind) == WithDetails(WithKind(fields, plain, a.kind), a)
  {
    var kind := Str(AssemblyKindName(a.kind));
    var one := WithText(fields, "model", a.model);
    var two := WithText(one, "manufacturer", a.manufacturer);
    WithTextCommutes(WithText(two, "serial_number", a.serialNumber), "location", a.location, "kind", kind);
    WithTextCommutes(two, "serial_number", a.serialNumber, "kind", kind);
    WithTextCommutes(one, "manufacturer", a.manufacturer, "kind", kind);
    WithTextCommutes(fields, "model", a.model, "kind", kind);
  }

  lemma {:induction false} DecodePackedAssembly(a: Assembly)
    ensures DecodeAssembly(PackedAssembly(a)) == When(AssemblyInRange(a), NamedAssembly(a, Str("")))
    decreases a
  {
    var plain := !Present(a.definition);
    CopyPackedDetails(AssemblyHead(a), a);
    DetailsCommute(AssemblyHead(a), a, plain);
    DecodePackedMembers(a.members, WithDetails(WithKind(AssemblyHead(a), plain, a.kind), a));
  }

  lemma {:induction false} DecodePackedDefinition(d: HardwareDefinition)
    ensures DecodeDefinition(PackedDefinition(d)) == When(DefinitionInRange(d), NamedDefinition(d, Str("")))
  {
    DecodePackedMembers(d.members, DefinitionHead(d));
  }

  lemma {:induction false} DecodePackedDefinitions(definitions: seq<HardwareDefinition>)
    ensures DecodeAll(Each(definitions, PackedDefinition), DecodeDefinition) ==
            When(forall d :: d in definitions ==> DefinitionInRange(d), Each(definitions, DefinitionNamer(Str(""))))
  {
    forall d | d in definitions
      ensures DecodeDefinition(PackedDefinition(d)) == When(DefinitionInRange(d), DefinitionNamer(Str(""))(d))
    {
      DecodePackedDefinition(d);
    }
    DecodeEach(definitions, PackedDefinition, DecodeDefinition, DefinitionInRange, DefinitionNamer(Str("")));
  }

  /** The positional document decodes exactly when every enumeration is in range, and then to the named document
      with null pin ids read as empty. */
  lemma {:induction false} DecodePackedHardware(p: Profile)
    ensures DecodeHardware(PackedHardware(p)) == When(InRange(p), NamedHardware(p, Str("")))
  {
    DecodePackedDefinitions(p.definitions);
    DecodePackedAssemblies(p.roots);
    DecodePackedConnections(p.connections);
  }

  // ----- exactly when the decoded document is the named one

  predicate PinsHaveIds(pins: seq<Pin>) { forall p :: p in pins ==> p.id.Some? }

  predicate DeviceHasIds(d: Device) { PinsHaveIds(d.terminals) }

  predicate ConnectorHasIds(c: Connector) { PinsHaveIds(c.contacts) }

  predicate MembersHaveIds(m: Members)
    decreases m, 0
  {
    && AssembliesHaveIds(m.assemblies)
    && (forall d :: d in m.devices ==> DeviceHasIds(d))
    && (forall c :: c in m.connectors ==> ConnectorHasIds(c))
  }

  predicate AssembliesHaveIds(assemblies: seq<Assembly>)
    decreases assemblies
  {
    assemblies == [] || (AssemblyHasIds(assemblies[0]) && AssembliesHaveIds(assemblies[1..]))
  }

  predicate AssemblyHasIds(a: Assembly)
    decreases a
  {
    MembersHaveIds(a.members)
  }

  predicate DefinitionHasIds(d: HardwareDefinition) { MembersHaveIds(d.members) }

  /** No terminal or contact, at any depth, has a null id. */
  predicate HasPinIds(p: Profile) {
    (forall d :: d in p.definitions ==> DefinitionHasIds(d)) && AssembliesHaveIds(p.roots)
  }

  lemma {:induction false} EachAgrees<A>(items: seq<A>, f: A -> Json, g: A -> Json, ok: A -> bool)
    requires forall a :: a in items ==> (f(a) == g(a) <==> ok(a))
    ensures Each(items, f) == Each(items, g) <==> forall a :: a in items ==> ok(a)
  {
    if Each(items, f) == Each(items, g) {
      forall a | a in items ensures ok(a) {
        var i :| 0 <= i < |items| && items[i] == a;
        assert Each(items, f)[i] == Each(items, g)[i];
      }
    }
  }

  predicate HasId(p: Pin) { p.id.Some? }

  lemma {:induction false} PinAgrees(p: Pin)
    ensures NamedPin(p, Null) == NamedPin(p, Str("")) <==> HasId(p)
  {
    assert p.id.None? ==> NamedPin(p, Null).fields["id"] == Null;
    assert p.id.None? ==> NamedPin(p, Str("")).fields["id"] == Str("");
  }

  lemma {:induction false} PinsAgree(pins: seq<Pin>)
    ensures Each(pins, PinNamer(Null)) == Each(pins, PinNamer(Str(""))) <==> PinsHaveIds(pins)
  {
    forall p | p in pins ensures PinNamer(Null)(p) == PinNamer(Str(""))(p) <==> HasId(p) {
      PinAgrees(p);
    }
    EachAgrees(pins, PinNamer(Null), PinNamer(Str("")), HasId);
    assert PinsHaveIds(pins) <==> forall p :: p in pins ==> HasId(p);
  }

  lemma {:induction false} DeviceAgrees(d: Device)
    ensures NamedDevice(d, Null) == NamedDevice(d, Str("")) <==> DeviceHasIds(d)
  {
    PinsAgree(d.terminals);
    assert NamedDevice(d, Null).fields["terminals"] == Arr(Each(d.terminals, PinNamer(Null)));
    assert NamedDevice(d, Str("")).fields["terminals"] == Arr(Each(d.terminals, PinNamer(Str(""))));
  }

  lemma {:induction false} ConnectorAgrees(c: Connector)
    ensures NamedConnector(c, Null) == NamedConnector(c, Str("")) <==> ConnectorHasIds(c)
  {
    PinsAgree(c.contacts);
    assert NamedConnector(c, Null).fields["contacts"] == Arr(Each(c.contacts, PinNamer(Null)));
    assert NamedConnector(c, Str("")).fields["contacts"] == Arr(Each(c.contacts, PinNamer(Str(""))));
  }

  lemma {:induction false} ListsAgree(fields: Fields, a: seq<Json>, d: seq<Json>, c: seq<Json>, w: seq<Json>,
                                      a': seq<Json>, d': seq<Json>,
                                      c': seq<Json>)
    ensures WithLists(fields, a, d, c, w) == WithLists(fields, a', d', c', w) <==> a == a' && d == d' && c == c'
  {
    var one, two := WithLists(fields, a, d, c, w), WithLists(fields, a', d', c', w);
    assert one["assemblies"] == Arr(a) && two["assemblies"] == Arr(a');
    assert one["devices"] == Arr(d) && two["devices"] == Arr(d');
    assert one["connectors"] == Arr(c) && two["connectors"] == Arr(c');
  }

  lemma {:induction false} MembersAgree(fields: Fields, m: Members)
    ensures WithMembers(fields, m, Null) == WithMembers(fields, m, Str("")) <==> MembersHaveIds(m)
    decreases m, 0
  {
    AssembliesAgree(m.assemblies);
    DevicesAgree(m.devices);
    ConnectorsAgree(m.connectors);
    ListsAgree(fields, NamedAssemblies(m.assemblies, Null), Each(m.devices, DeviceNamer(Null)),
               Each(m.connectors, ConnectorNamer(Null)), Each(m.connections, NamedConnection),
               NamedAssemblies(m.assemblies, Str("")), Each(m.devices, DeviceNamer(Str(""))),
               Each(m.connectors, ConnectorNamer(Str(""))));
  }

  lemma {:induction false} DevicesAgree(devices: seq<Device>)
    ensures Each(devices, DeviceNamer(Null)) == Each(devices, DeviceNamer(Str(""))) <==>
            forall d :: d in devices ==> DeviceHasIds(d)
  {
    forall d | d in devices ensures DeviceNamer(Null)(d) == DeviceNamer(Str(""))(d) <==> DeviceHasIds(d) {
      DeviceAgrees(d);
    }
    EachAgrees(devices, DeviceNamer(Null), DeviceNamer(Str("")), DeviceHasIds);
  }

  lemma {:induction false} ConnectorsAgree(connectors: seq<Connector>)
    ensures Each(connectors, ConnectorNamer(Null)) == Each(connectors, ConnectorNamer(Str(""))) <==>
            forall c :: c in connectors ==> ConnectorHasIds(c)
  {
    forall c | c in connectors ensures ConnectorNamer(Null)(c) == ConnectorNamer(Str(""))(c) <==> ConnectorHasIds(c) {
      ConnectorAgrees(c);
    }
    EachAgrees(connectors, ConnectorNamer(Null), ConnectorNamer(Str("")), ConnectorHasIds);
  }

  lemma {:induction false} AssembliesAgree(assemblies: seq<Assembly>)
    ensures NamedAssemblies(assemblies, Null) == NamedAssemblies(assemblies, Str("")) <==> AssembliesHaveIds(assemblies)
    decreases assemblies
  {
    if assemblies != [] {
      var a := assemblies[0];
      AssemblyAgrees(a);
      AssembliesAgree(assemblies[1..]);
      assert NamedAssemblies(assemblies, Null)[1..] == NamedAssemblies(assemblies[1..], Null);
      assert NamedAssemblies(assemblies, Str(""))[1..] == NamedAssemblies(assemblies[1..], Str(""));
      assert NamedAssemblies(assemblies, Null)[0] == NamedAssembly(a, Null);
      assert NamedAssemblies(assemblies, Str(""))[0] == NamedAssembly(a, Str(""));
    }
  }

  lemma {:induction false} AssemblyAgrees(a: Assembly)
    ensures NamedAssembly(a, Null) == NamedAssembly(a, Str("")) <==> AssemblyHasIds(a)
    decreases a
  {
    MembersAgree(WithDetails(WithKind(AssemblyHead(a), !Present(a.definition), a.kind), a), a.members);
  }

  lemma {:induction false} DefinitionsAgree(definitions: seq<HardwareDefinition>)
    ensures Each(definitions, DefinitionNamer(Null)) == Each(definitions, DefinitionNamer(Str(""))) <==>
            forall d :: d in definitions ==> DefinitionHasIds(d)
  {
    forall d | d in definitions ensures DefinitionNamer(Null)(d) == DefinitionNamer(Str(""))(d) <==> DefinitionHasIds(d) {
      MembersAgree(DefinitionHead(d), d.members);
    }
    EachAgrees(definitions, DefinitionNamer(Null), DefinitionNamer(Str("")), DefinitionHasIds);
  }

  lemma {:induction false} DocumentsAgree(p: Profile)
    ensures NamedHardware(p, Null) == NamedHardware(p, Str("")) <==> HasPinIds(p)
  {
    DefinitionsAgree(p.definitions);
    AssembliesAgree(p.roots);
    var one, two := NamedHardware(p, Null).fields, NamedHardware(p, Str("")).fields;
    assert one["definitions"].items == Each(p.definitions, DefinitionNamer(Null));
    assert two["definitions"].items == Each(p.definitions, DefinitionNamer(Str("")));
    assert one["roots"].items == NamedAssemblies(p.roots, Null) && two["roots"].items == NamedAssemblies(p.roots, Str(""));
  }

  /** The decoder turns the positional document into the named one exactly for the profiles whose enumerations are in
      range and whose terminals and contacts all have an id; a null id is written as null in one form and as the
      empty text in the other. */
  lemma {:induction false} PositionalFormIsTheNamedForm(p: Profile)
    ensures DecodeHardware(PackedHardware(p)) == Some(NamedHardware(p, Null)) <==> InRange(p) && HasPinIds(p)
  {
    DecodePackedHardware(p);
    DocumentsAgree(p);
  }

  /** One terminal without an id already tells the two forms apart. */
  lemma {:induction false} NullPinIdBreaksTheForms(p: Profile)
    requires p.definitions == [] && p.connections == [] && |p.roots| == 1
    requires p.roots[0].kind <= ASSEMBLY_GENERIC
    requires p.roots[0].members == Members([], [Device(Some("d"), [Pin(None, NET_NONE, None)], None, None, None, None)], [], [])
    ensures DecodeHardware(PackedHardware(p)).Some? && DecodeHardware(PackedHardware(p)) != Some(NamedHardware(p, Null))
  {
    PositionalFormIsTheNamedForm(p);
    DecodePackedHardware(p);
    var a := p.roots[0];
    var d := a.members.devices[0];
    assert d in a.members.devices && d.terminals[0] in d.terminals;
    assert !AssemblyHasIds(a);
    assert forall e :: e in a.members.devices ==> e == d;
    assert forall q :: q in d.terminals ==> q == Pin(None, NET_NONE, None);
    assert AssembliesInRange([]);
    assert AssemblyInRange(a);
    assert p.roots[1..] == [];
  }

  // ----- what follows the fixed positions of a record does not matter

  predicate SameOrStart(j: Json, k: Json, n: nat) {
    j == k || SameStart(j, k, n)
  }

  predicate PaddedPin(j: Json, k: Json) { SameOrStart(j, k, 3) }

  predicate PaddedConnection(j: Json, k: Json) {
    j == k || (j.Arr? && k.Arr? && |j.items| >= 3 && |k.items| >= 3 &&
               forall i :: 0 <= i < 3 ==> SameOrStart(j.items[i], k.items[i], 4))
  }

  /** A device or connector: five plain positions and a list of pins. */
  predicate PaddedPart(j: Json, k: Json) {
    j == k || (SameStart(j, k, 5) && |j.items| >= 6 && |k.items| >= 6 && PaddedList(j.items[5], k.items[5], PaddedPin))
  }

  predicate PaddedMembers(j: Json, k: Json)
    decreases j, 1
  {
    j == k || (j.Arr? && k.Arr? && |j.items| >= 4 && |k.items| >= 4
               && j.items[0].Arr? && k.items[0].Arr? && PaddedAssemblies(j.items[0].items, k.items[0].items)
               && PaddedList(j.items[1], k.items[1], PaddedPart) && PaddedList(j.items[2], k.items[2], PaddedPart)
               && PaddedList(j.items[3], k.items[3], PaddedConnection))
  }

  predicate PaddedAssemblies(js: seq<Json>, ks: seq<Json>)
    decreases js, 0
  {
    |js| == |ks| && (js == [] || (PaddedAssembly(js[0], ks[0]) && PaddedAssemblies(js[1..], ks[1..])))
  }

  predicate PaddedAssembly(j: Json, k: Json)
    decreases j, 2
  {
    j == k || (SameStart(j, k, 8) && |j.items| >= 9 && |k.items| >= 9 && PaddedMembers(j.items[8], k.items[8]))
  }

  predicate PaddedDefinition(j: Json, k: Json) {
    j == k || (SameStart(j, k, 5) && |j.items| >= 6 && |k.items| >= 6 && PaddedMembers(j.items[5], k.items[5]))
  }

  /** The same document but for elements after the fixed positions of any of its records. */
  predicate PaddedHardware(j: Json, k: Json) {
    SameStart(j, k, 3) && |j.items| >= 6 && |k.items| >= 6 && PaddedList(j.items[3], k.items[3], PaddedDefinition)
    && j.items[4].Arr? && k.items[4].Arr? && PaddedAssemblies(j.items[4].items, k.items[4].items)
    && PaddedList(j.items[5], k.items[5], PaddedConnection)
  }

  lemma {:induction false} PaddingKeepsPin(j: Json, k: Json)
    requires PaddedPin(j, k)
    ensures DecodePin(j) == DecodePin(k)
  {
    if j != k {
      SameStartAt(j, k, 3, 0); SameStartAt(j, k, 3, 1); SameStartAt(j, k, 3, 2);
    }
  }

  lemma {:induction false} PaddingKeepsPins(j: Json, k: Json)
    requires PaddedList(j, k, PaddedPin)
    ensures j.Arr? <==> k.Arr?
    ensures j.Arr? ==> DecodeAll(j.items, DecodePin) == DecodeAll(k.items, DecodePin)
  {
    if j != k {
      forall a, b | PaddedPin(a, b) ensures DecodePin(a) == DecodePin(b) { PaddingKeepsPin(a, b); }
      PaddingKeepsList(j.items, k.items, PaddedPin, DecodePin);
    }
  }

  lemma {:induction false} PaddingKeepsFour(j: Json, k: Json)
    requires SameOrStart(j, k, 4)
    ensures DecodeEndpoint(j) == DecodeEndpoint(k)
    ensures (j.Arr? <==> k.Arr?) && (j.Null? <==> k.Null?)
    ensures j.Arr? ==> DecodeWire(j.items) == DecodeWire(k.items)
  {
    if j != k {
      SameStartAt(j, k, 4, 0); SameStartAt(j, k, 4, 1); SameStartAt(j, k, 4, 2); SameStartAt(j, k, 4, 3);
    }
  }

  lemma {:induction false} PaddingKeepsConnection(j: Json, k: Json)
    requires PaddedConnection(j, k)
    ensures DecodeConnection(j) == DecodeConnection(k)
  {
    if j != k {
      PaddingKeepsFour(j.items[0], k.items[0]);
      PaddingKeepsFour(j.items[1], k.items[1]);
      PaddingKeepsFour(j.items[2], k.items[2]);
    }
  }

  lemma {:induction false} PaddingKeepsPart(j: Json, k: Json)
    requires PaddedPart(j, k)
    ensures DecodeDevice(j) == DecodeDevice(k) && DecodeConnector(j) == DecodeConnector(k)
  {
    if j != k {
      SameStartAt(j, k, 5, 0); SameStartAt(j, k, 5, 1); SameStartAt(j, k, 5, 2); SameStartAt(j, k, 5, 3);
      SameStartAt(j, k, 5, 4);
      PaddingKeepsPins(j.items[5], k.items[5]);
    }
  }

  lemma {:induction false} PaddingKeepsParts(j: Json, k: Json)
    requires PaddedList(j, k, PaddedPart)
    ensures j.Arr? <==> k.Arr?
    ensures j.Arr? ==> DecodeAll(j.items, DecodeDevice) == DecodeAll(k.items, DecodeDevice)
    ensures j.Arr? ==> DecodeAll(j.items, DecodeConnector) == DecodeAll(k.items, DecodeConnector)
  {
    if j != k {
      forall a, b | PaddedPart(a, b) ensures DecodeDevice(a) == DecodeDevice(b) { PaddingKeepsPart(a, b); }
      PaddingKeepsList(j.items, k.items, PaddedPart, DecodeDevice);
      forall a, b | PaddedPart(a, b) ensures DecodeConnector(a) == DecodeConnector(b) { PaddingKeepsPart(a, b); }
      PaddingKeepsList(j.items, k.items, PaddedPart, DecodeConnector);
    }
  }

  lemma {:induction false} PaddingKeepsConnections(j: Json, k: Json)
    requires PaddedList(j, k, PaddedConnection)
    ensures j.Arr? <==> k.Arr?
    ensures j.Arr? ==> DecodeAll(j.items, DecodeConnection) == DecodeAll(k.items, DecodeConnection)
  {
    if j != k {
      forall a, b | PaddedConnection(a, b) ensures DecodeConnection(a) == DecodeConnection(b) {
        PaddingKeepsConnection(a, b);
      }
      PaddingKeepsList(j.items, k.items, PaddedConnection, DecodeConnection);
    }
  }

  lemma {:induction false} PaddingKeepsMembers(j: Json, k: Json, fields: Fields)
    requires PaddedMembers(j, k)
    ensures DecodeMembers(j, fields) == DecodeMembers(k, fields)
    decreases j, 1
  {
    if j != k {
      PaddingKeepsAssemblies(j.items[0].items, k.items[0].items);
      PaddingKeepsParts(j.items[1], k.items[1]);
      PaddingKeepsParts(j.items[2], k.items[2]);
      PaddingKeepsConnections(j.items[3], k.items[3]);
    }
  }

  lemma {:induction false} PaddingKeepsAssemblies(js: seq<Json>, ks: seq<Json>)
    requires PaddedAssemblies(js, ks)
    ensures DecodeAssemblies(js) == DecodeAssemblies(ks)
    decreases js, 0
  {
    if js != [] {
      PaddingKeepsAssembly(js[0], ks[0]);
      PaddingKeepsAssemblies(js[1..], ks[1..]);
    }
  }

  lemma {:induction false} PaddingKeepsAssembly(j: Json, k: Json)
    requires PaddedAssembly(j, k)
    ensures DecodeAssembly(j) == DecodeAssembly(k)
    decreases j, 2
  {
    if j != k {
      forall i | 0 <= i < 8 ensures j.items[i] == k.items[i] { SameStartAt(j, k, 8, i); }
      assert CopyDetails(CopyHead(j.items), j.items) == CopyDetails(CopyHead(k.items), k.items);
      var texts := CopyDetails(CopyHead(j.items), j.items);
      assert j.items[8].Arr? <==> k.items[8].Arr?;
      if texts.Some? && IsEnum(j.items[3], ASSEMBLY_GENERIC) {
        PaddingKeepsMembers(j.items[8], k.items[8], WithKind(texts.value, j.items[1].Null?, j.items[3].n));
      }
    }
  }

  lemma {:induction false} PaddingKeepsDefinition(j: Json, k: Json)
    requires PaddedDefinition(j, k)
    ensures DecodeDefinition(j) == DecodeDefinition(k)
  {
    if j != k {
      forall i | 0 <= i < 5 ensures j.items[i] == k.items[i] { SameStartAt(j, k, 5, i); }
      assert j.items[5].Arr? <==> k.items[5].Arr?;
      forall fields: Fields ensures DecodeMembers(j.items[5], fields) == DecodeMembers(k.items[5], fields) {
        PaddingKeepsMembers(j.items[5], k.items[5], fields);
      }
    }
  }

  /** A reader of this version accepts what a later writer appends to any record, and reads the same document. */
  lemma {:induction false} AppendedElementsAreIgnored(j: Json, k: Json)
    requires PaddedHardware(j, k)
    ensures DecodeHardware(j) == DecodeHardware(k)
  {
    SameStartAt(j, k, 3, 0); SameStartAt(j, k, 3, 1); SameStartAt(j, k, 3, 2);
    PaddingKeepsAssemblies(j.items[4].items, k.items[4].items);
    PaddingKeepsConnections(j.items[5], k.items[5]);
    if j.items[3] != k.items[3] {
      forall a, b | PaddedDefinition(a, b) ensures DecodeDefinition(a) == DecodeDefinition(b) {
        PaddingKeepsDefinition(a, b);
      }
      PaddingKeepsList(j.items[3].items, k.items[3].items, PaddedDefinition, DecodeDefinition);
    }
  }
}
