/** The loops that write and read the hardware documents, each one proved to be its form in HardwareCodec. */
module HardwareWriter {
  import opened Common
  import opened Documents
  import opened HardwareProfile
  import opened HardwareCodec

  // ----- writing the named document

  method AppendPins(pins: seq<Pin>) returns (dst: seq<Json>)
    ensures dst == Each(pins, PinNamer(Null))
  {
    dst := [];
    for i := 0 to |pins|
      invariant |dst| == i && forall k :: 0 <= k < i ==> dst[k] == NamedPin(pins[k], Null)
    {
      var p := pins[i];
      var item: Fields := map["id" := if p.id.Some? then Str(p.id.value) else Null];
      item := WithText(item, "name", p.name);
      if p.canonicalNet != NET_NONE {
        item := item["canonical_net" := Str(CanonicalNetName(p.canonicalNet))];
      }
      dst := dst + [Obj(item)];
    }
  }

  method AppendDevices(devices: seq<Device>) returns (dst: seq<Json>)
    ensures dst == Each(devices, DeviceNamer(Null))
  {
    dst := [];
    for i := 0 to |devices|
      invariant |dst| == i && forall k :: 0 <= k < i ==> dst[k] == NamedDevice(devices[k], Null)
    {
      var d := devices[i];
      var item: Fields := map["id" := Str(Text(d.id))];
      item := WithText(item, "name", d.name);
      item := WithText(item, "kind", d.kind);
      item := WithText(item, "model", d.model);
      item := WithText(item, "manufacturer", d.manufacturer);
      var terminals := AppendPins(d.terminals);
      dst := dst + [Obj(item["terminals" := Arr(terminals)])];
    }
  }

  method AppendConnectors(connectors: seq<Connector>) returns (dst: seq<Json>)
    ensures dst == Each(connectors, ConnectorNamer(Null))
  {
    dst := [];
    for i := 0 to |connectors|
      invariant |dst| == i && forall k :: 0 <= k < i ==> dst[k] == NamedConnector(connectors[k], Null)
    {
      var c := connectors[i];
      var item: Fields := map["id" := Str(Text(c.id))];
      item := WithText(item, "name", c.name);
      item := item["kind" := Str(ConnectorKindName(c.kind))];
      item := WithText(item, "model", c.model);
      item := WithText(item, "manufacturer", c.manufacturer);
      var contacts := AppendPins(c.contacts);
      dst := dst + [Obj(item["contacts" := Arr(contacts)])];
    }
  }

  method AppendConnections(connections: seq<Connection>) returns (dst: seq<Json>)
    ensures dst == Each(connections, NamedConnection)
  {
    dst := [];
    for i := 0 to |connections|
      invariant |dst| == i && forall k :: 0 <= k < i ==> dst[k] == NamedConnection(connections[k])
    {
      dst := dst + [NamedConnection(connections[i])];
    }
  }

  lemma {:induction false} NamedAssembliesAt(assemblies: seq<Assembly>, k: nat)
    requires k < |assemblies|
    ensures NamedAssemblies(assemblies, Null)[k] == NamedAssembly(assemblies[k], Null)
  {
    if k > 0 {
      NamedAssembliesAt(assemblies[1..], k - 1);
    }
  }

  lemma {:induction false} NamedAssembliesAre(assemblies: seq<Assembly>, dst: seq<Json>)
    requires |dst| == |assemblies| && forall k :: 0 <= k < |dst| ==> dst[k] == NamedAssembly(assemblies[k], Null)
    ensures dst == NamedAssemblies(assemblies, Null)
  {
    forall k | 0 <= k < |dst| ensures dst[k] == NamedAssemblies(assemblies, Null)[k] {
      NamedAssembliesAt(assemblies, k);
    }
  }

  method AppendAssembly(a: Assembly) returns (item: Json)
    ensures item == NamedAssembly(a, Null)
    decreases a
  {
    var dst: Fields := map["id" := Str(Text(a.id))];
    dst := WithText(dst, "definition", a.definition);
    dst := WithText(dst, "name", a.name);
    if !Present(a.definition) || a.kind != ASSEMBLY_GENERIC {
      dst := dst["kind" := Str(AssemblyKindName(a.kind))];
    }
    dst := WithText(dst, "model", a.model);
    dst := WithText(dst, "manufacturer", a.manufacturer);
    dst := WithText(dst, "serial_number", a.serialNumber);
    dst := WithText(dst, "location", a.location);
    var fields := AppendMembers(dst, a.members);
    item := Obj(fields);
  }

  method AppendMembers(dst: Fields, m: Members) returns (fields: Fields)
    ensures fields == WithMembers(dst, m, Null)
    decreases m
  {
    var assemblies := [];
    for i := 0 to |m.assemblies|
      invariant |assemblies| == i && forall k :: 0 <= k < i ==> assemblies[k] == NamedAssembly(m.assemblies[k], Null)
    {
      var item := AppendAssembly(m.assemblies[i]);
      assemblies := assemblies + [item];
    }
    NamedAssembliesAre(m.assemblies, assemblies);
    fields := dst["assemblies" := Arr(assemblies)];
    var devices := AppendDevices(m.devices);
    fields := fields["devices" := Arr(devices)];
    var connectors := AppendConnectors(m.connectors);
    fields := fields["connectors" := Arr(connectors)];
    var connections := AppendConnections(m.connections);
    fields := fields["connections" := Arr(connections)];
  }

  method AppendDefinitions(definitions: seq<HardwareDefinition>) returns (dst: seq<Json>)
    ensures dst == Each(definitions, DefinitionNamer(Null))
  {
    dst := [];
    for i := 0 to |definitions|
      invariant |dst| == i && forall k :: 0 <= k < i ==> dst[k] == NamedDefinition(definitions[k], Null)
    {
      var d := definitions[i];
      var item: Fields := map["id" := Str(Text(d.id)), "kind" := Str(AssemblyKindName(d.kind))];
      item := WithText(item, "name", d.name);
      item := WithText(item, "model", d.model);
      item := WithText(item, "manufacturer", d.manufacturer);
      item := AppendMembers(item, d.members);
      dst := dst + [Obj(item)];
    }
  }

  method BuildNamedHardware(p: Profile) returns (doc: Json)
    ensures doc == NamedHardware(p, Null)
  {
    var definitions := AppendDefinitions(p.definitions);
    var roots := [];
    for i := 0 to |p.roots|
      invariant |roots| == i && forall k :: 0 <= k < i ==> roots[k] == NamedAssembly(p.roots[k], Null)
    {
      var item := AppendAssembly(p.roots[i]);
      roots := roots + [item];
    }
    NamedAssembliesAre(p.roots, roots);
    var connections := AppendConnections(p.connections);
    doc := HardwareDocument(Num(HW_CONFIG_VERSION), Str(Text(p.hostAssembly)), definitions, roots, connections);
  }

  // ----- writing the positional document

  method AppendPackedPins(pins: seq<Pin>) returns (dst: seq<Json>)
    ensures dst == Each(pins, PackedPin)
  {
    dst := [];
    for i := 0 to |pins|
      invariant |dst| == i && forall k :: 0 <= k < i ==> dst[k] == PackedPin(pins[k])
    {
      dst := dst + [Arr([Str(Text(pins[i].id)), Num(pins[i].canonicalNet), TextOrNull(pins[i].name)])];
    }
  }

  method AppendPackedDevices(devices: seq<Device>) returns (dst: seq<Json>)
    ensures dst == Each(devices, PackedDevice)
  {
    dst := [];
    for i := 0 to |devices|
      invariant |dst| == i && forall k :: 0 <= k < i ==> dst[k] == PackedDevice(devices[k])
    {
      var d := devices[i];
      var terminals := AppendPackedPins(d.terminals);
      dst := dst + [Arr([Str(Text(d.id)), TextOrNull(d.name), TextOrNull(d.kind), TextOrNull(d.model),
                         TextOrNull(d.manufacturer), Arr(terminals)])];
    }
  }

  method AppendPackedConnectors(connectors: seq<Connector>) returns (dst: seq<Json>)
    ensures dst == Each(connectors, PackedConnector)
  {
    dst := [];
    for i := 0 to |connectors|
      invariant |dst| == i && forall k :: 0 <= k < i ==> dst[k] == PackedConnector(connectors[k])
    {
      var c := connectors[i];
      var contacts := AppendPackedPins(c.contacts);
      dst := dst + [Arr([Str(Text(c.id)), TextOrNull(c.name), Num(c.kind), TextOrNull(c.model),
                         TextOrNull(c.manufacturer), Arr(contacts)])];
    }
  }

  method AppendPackedConnections(connections: seq<Connection>) returns (dst: seq<Json>)
    ensures dst == Each(connections, PackedConnection)
  {
    dst := [];
    for i := 0 to |connections|
      invariant |dst| == i && forall k :: 0 <= k < i ==> dst[k] == PackedConnection(connections[k])
    {
      dst := dst + [PackedConnection(connections[i])];
    }
  }

  lemma {:induction false} PackedAssembliesAt(assemblies: seq<Assembly>, k: nat)
    requires k < |assemblies|
    ensures PackedAssemblies(assemblies)[k] == PackedAssembly(assemblies[k])
  {
    if k > 0 {
      PackedAssembliesAt(assemblies[1..], k - 1);
    }
  }

  lemma {:induction false} PackedAssembliesAre(assemblies: seq<Assembly>, dst: seq<Json>)
    requires |dst| == |assemblies| && forall k :: 0 <= k < |dst| ==> dst[k] == PackedAssembly(assemblies[k])
    ensures dst == PackedAssemblies(assemblies)
  {
    forall k | 0 <= k < |dst| ensures dst[k] == PackedAssemblies(assemblies)[k] {
      PackedAssembliesAt(assemblies, k);
    }
  }

  method AppendPackedAssembly(a: Assembly) returns (dst: seq<Json>)
    ensures Arr(dst) == PackedAssembly(a)
    decreases a
  {
    var members := AppendPackedMembers(a.members);
    dst := [Str(Text(a.id)), TextOrNull(a.definition), TextOrNull(a.name), Num(a.kind), TextOrNull(a.model),
            TextOrNull(a.manufacturer), TextOrNull(a.serialNumber), TextOrNull(a.location), Arr(members)];
  }

  method AppendPackedMembers(m: Members) returns (dst: seq<Json>)
    ensures Arr(dst) == PackedMembers(m)
    decreases m
  {
    var assemblies := [];
    for i := 0 to |m.assemblies|
      invariant |assemblies| == i && forall k :: 0 <= k < i ==> assemblies[k] == PackedAssembly(m.assemblies[k])
    {
      var item := AppendPackedAssembly(m.assemblies[i]);
      assemblies := assemblies + [Arr(item)];
    }
    PackedAssembliesAre(m.assemblies, assemblies);
    var devices := AppendPackedDevices(m.devices);
    var connectors := AppendPackedConnectors(m.connectors);
    var connections := AppendPackedConnections(m.connections);
    dst := [Arr(assemblies), Arr(devices), Arr(connectors), Arr(connections)];
  }

  method AppendPackedDefinitions(definitions: seq<HardwareDefinition>) returns (dst: seq<Json>)
    ensures dst == Each(definitions, PackedDefinition)
  {
    dst := [];
    for i := 0 to |definitions|
      invariant |dst| == i && forall k :: 0 <= k < i ==> dst[k] == PackedDefinition(definitions[k])
    {
      var d := definitions[i];
      var members := AppendPackedMembers(d.members);
      dst := dst + [Arr([Str(Text(d.id)), Num(d.kind), TextOrNull(d.name), TextOrNull(d.model),
                         TextOrNull(d.manufacturer), Arr(members)])];
    }
  }

  method BuildPositionalHardware(p: Profile) returns (doc: Json)
    ensures doc == PackedHardware(p)
  {
    var definitions := AppendPackedDefinitions(p.definitions);
    var roots := [];
    for i := 0 to |p.roots|
      invariant |roots| == i && forall k :: 0 <= k < i ==> roots[k] == PackedAssembly(p.roots[k])
    {
      var item := AppendPackedAssembly(p.roots[i]);
      roots := roots + [Arr(item)];
    }
    PackedAssembliesAre(p.roots, roots);
    var connections := AppendPackedConnections(p.connections);
    doc := Arr([Num(HARDWARE_ENCODING_VERSION), Num(HW_CONFIG_VERSION), Str(Text(p.hostAssembly)), Arr(definitions),
                Arr(roots), Arr(connections)]);
  }

  // ----- reading

  lemma {:induction false} AssembliesDecodeAsAList(items: seq<Json>)
    ensures DecodeAssemblies(items) == DecodeAll(items, DecodeAssembly)
  {
    if items != [] {
      AssembliesDecodeAsAList(items[1..]);
    }
  }

  method DecodePackedPins(src: seq<Json>) returns (ok: bool, dst: seq<Json>)
    ensures DecodeAll(src, DecodePin) == When(ok, dst)
  {
    dst := [];
    for i := 0 to |src|
      invariant |dst| == i && forall k :: 0 <= k < i ==> DecodePin(src[k]) == Some(dst[k])
    {
      DecodeAllIs(src, DecodePin, dst);
      var pin := DecodePin(src[i]);
      if pin.None? {
        return false, dst;
      }
      dst := dst + [pin.value];
    }
    DecodeAllIs(src, DecodePin, dst);
    ok := true;
  }

  method DecodePackedDevice(j: Json) returns (ok: bool, dst: Json)
    ensures DecodeDevice(j) == When(ok, dst)
  {
    if !j.Arr? {
      return false, Null;
    }
    var i := j.items;
    if |i| < 6 || !i[0].Str? || !i[5].Arr? {
      return false, Null;
    }
    var texts := CopyText(CopyText(CopyText(CopyText(Some(map["id" := i[0]]), "name", i[1]), "kind", i[2]),
                                   "model", i[3]), "manufacturer", i[4]);
    if texts.None? {
      return false, Null;
    }
    var pinsOk, terminals := DecodePackedPins(i[5].items);
    return pinsOk, Obj(texts.value["terminals" := Arr(terminals)]);
  }

  method DecodePackedDevices(src: seq<Json>) returns (ok: bool, dst: seq<Json>)
    ensures DecodeAll(src, DecodeDevice) == When(ok, dst)
  {
    dst := [];
    for i := 0 to |src|
      invariant |dst| == i && forall k :: 0 <= k < i ==> DecodeDevice(src[k]) == Some(dst[k])
    {
      DecodeAllIs(src, DecodeDevice, dst);
      var good, item := DecodePackedDevice(src[i]);
      if !good {
        return false, dst;
      }
      dst := dst + [item];
    }
    DecodeAllIs(src, DecodeDevice, dst);
    ok := true;
  }

  method DecodePackedConnector(j: Json) returns (ok: bool, dst: Json)
    ensures DecodeConnector(j) == When(ok, dst)
  {
    if !j.Arr? {
      return false, Null;
    }
    var i := j.items;
    if |i| < 6 || !i[0].Str? || !IsEnum(i[2], CONNECTOR_LAST) || !i[5].Arr? {
      return false, Null;
    }
    var texts := CopyText(CopyText(CopyText(Some(map["id" := i[0]]), "name", i[1]), "model", i[3]),
                          "manufacturer", i[4]);
    if texts.None? {
      return false, Null;
    }
    var kind := texts.value["kind" := Str(ConnectorKindName(i[2].n))];
    var pinsOk, contacts := DecodePackedPins(i[5].items);
    return pinsOk, Obj(kind["contacts" := Arr(contacts)]);
  }

  method DecodePackedConnectors(src: seq<Json>) returns (ok: bool, dst: seq<Json>)
    ensures DecodeAll(src, DecodeConnector) == When(ok, dst)
  {
    dst := [];
    for i := 0 to |src|
      invariant |dst| == i && forall k :: 0 <= k < i ==> DecodeConnector(src[k]) == Some(dst[k])
    {
      DecodeAllIs(src, DecodeConnector, dst);
      var good, item := DecodePackedConnector(src[i]);
      if !good {
        return false, dst;
      }
      dst := dst + [item];
    }
    DecodeAllIs(src, DecodeConnector, dst);
    ok := true;
  }

  method DecodePackedConnections(src: seq<Json>) returns (ok: bool, dst: seq<Json>)
    ensures DecodeAll(src, DecodeConnection) == When(ok, dst)
  {
    dst := [];
    for i := 0 to |src|
      invariant |dst| == i && forall k :: 0 <= k < i ==> DecodeConnection(src[k]) == Some(dst[k])
    {
      DecodeAllIs(src, DecodeConnection, dst);
      var item := DecodeConnection(src[i]);
      if item.None? {
        return false, dst;
      }
      dst := dst + [item.value];
    }
    DecodeAllIs(src, DecodeConnection, dst);
    ok := true;
  }

  method DecodePackedAssembly(j: Json) returns (ok: bool, dst: Json)
    ensures DecodeAssembly(j) == When(ok, dst)
    decreases j, 2
  {
    if !j.Arr? {
      return false, Null;
    }
    var i := j.items;
    if |i| < 9 || !i[0].Str? || !IsEnum(i[3], ASSEMBLY_GENERIC) || !i[8].Arr? {
      return false, Null;
    }
    var texts := CopyDetails(CopyHead(i), i);
    if texts.None? {
      return false, Null;
    }
    var good, fields := DecodePackedMembers(i[8], WithKind(texts.value, i[1].Null?, i[3].n));
    return good, Obj(fields);
  }

  method DecodePackedAssemblies(src: seq<Json>) returns (ok: bool, dst: seq<Json>)
    ensures DecodeAssemblies(src) == When(ok, dst)
    decreases src, 0
  {
    AssembliesDecodeAsAList(src);
    dst := [];
    for i := 0 to |src|
      invariant |dst| == i && forall k :: 0 <= k < i ==> DecodeAssembly(src[k]) == Some(dst[k])
    {
      DecodeAllIs(src, DecodeAssembly, dst);
      var good, item := DecodePackedAssembly(src[i]);
      if !good {
        return false, dst;
      }
      dst := dst + [item];
    }
    DecodeAllIs(src, DecodeAssembly, dst);
    ok := true;
  }

  method DecodePackedMembers(src: Json, dst: Fields) returns (ok: bool, out: Fields)
    ensures DecodeMembers(src, dst) == When(ok, out)
    decreases src, 1
  {
    if !(src.Arr? && |src.items| >= 4 && src.items[0].Arr? && src.items[1].Arr? && src.items[2].Arr? && src.items[3].Arr?) {
      return false, dst;
    }
    var good, assemblies := DecodePackedAssemblies(src.items[0].items);
    if !good {
      return false, dst;
    }
    var devicesOk, devices := DecodePackedDevices(src.items[1].items);
    if !devicesOk {
      return false, dst;
    }
    var connectorsOk, connectors := DecodePackedConnectors(src.items[2].items);
    if !connectorsOk {
      return false, dst;
    }
    var connectionsOk, connections := DecodePackedConnections(src.items[3].items);
    return connectionsOk, WithLists(dst, assemblies, devices, connectors, connections);
  }

  method DecodePackedDefinition(j: Json) returns (ok: bool, dst: Json)
    ensures DecodeDefinition(j) == When(ok, dst)
  {
    if !j.Arr? {
      return false, Null;
    }
    var i := j.items;
    if |i| < 6 || !i[0].Str? || !IsEnum(i[1], ASSEMBLY_GENERIC) || !i[5].Arr? {
      return false, Null;
    }
    var kind: Fields := map["id" := i[0], "kind" := Str(AssemblyKindName(i[1].n))];
    var texts := CopyText(CopyText(CopyText(Some(kind), "name", i[2]), "model", i[3]), "manufacturer", i[4]);
    if texts.None? {
      return false, Null;
    }
    var good, fields := DecodePackedMembers(i[5], texts.value);
    return good, Obj(fields);
  }

  method DecodePackedDefinitions(src: seq<Json>) returns (ok: bool, dst: seq<Json>)
    ensures DecodeAll(src, DecodeDefinition) == When(ok, dst)
  {
    dst := [];
    for i := 0 to |src|
      invariant |dst| == i && forall k :: 0 <= k < i ==> DecodeDefinition(src[k]) == Some(dst[k])
    {
      DecodeAllIs(src, DecodeDefinition, dst);
      var good, item := DecodePackedDefinition(src[i]);
      if !good {
        return false, dst;
      }
      dst := dst + [item];
    }
    DecodeAllIs(src, DecodeDefinition, dst);
    ok := true;
  }

  /** The caller's document is replaced only by one that decoded whole. */
  method DecodeHardwareInto(encoded: Json, into: Json) returns (ok: bool, result: Json)
    ensures ok <==> DecodeHardware(encoded).Some?
    ensures result == if ok then DecodeHardware(encoded).value else into
  {
    result := into;
    if !(encoded.Arr? && |encoded.items| >= 6 && IsByte(encoded.items[0])
         && encoded.items[0].n == HARDWARE_ENCODING_VERSION && IsByte(encoded.items[1])
         && encoded.items[1].n == HW_CONFIG_VERSION && encoded.items[2].Str?
         && encoded.items[3].Arr? && encoded.items[4].Arr? && encoded.items[5].Arr?) {
      return false, into;
    }
    var definitionsOk, definitions := DecodePackedDefinitions(encoded.items[3].items);
    if !definitionsOk {
      return false, into;
    }
    var rootsOk, roots := DecodePackedAssemblies(encoded.items[4].items);
    if !rootsOk {
      return false, into;
    }
    var connectionsOk, connections := DecodePackedConnections(encoded.items[5].items);
    if !connectionsOk {
      return false, into;
    }
    return true, HardwareDocument(encoded.items[1], encoded.items[2], definitions, roots, connections);
  }
}
