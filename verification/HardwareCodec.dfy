/** The three forms of the hardware document: named, positional, and the positional form expanded again. */
module HardwareCodec {
  import opened Common
  import opened Documents
  import opened HardwareProfile

  const HARDWARE_ENCODING_VERSION := 1
  const HW_CONFIG_VERSION := 2

  // ----- names of enumerated values

  function NameAt(names: seq<string>, index: nat, fallback: string): string {
    if index < |names| then names[index] else fallback
  }

  function AssemblyKindName(kind: uint8): string {
    NameAt(["custom_board", "market_board", "module", "sensor_probe", "panel", "enclosure", "external", "generic"],
           kind, "generic")
  }

  function ConnectorKindName(kind: uint8): string {
    NameAt(["header", "screw_terminal", "jst", "usb", "terminal", "direct_pin", "direct_wire", "generic"], kind, "generic")
  }

  function EndpointKindName(kind: uint8): string {
    if kind == DEVICE_TERMINAL then "device_terminal" else "connector_contact"
  }

  function CanonicalNetName(net: uint8): string {
    NameAt(["", "GND", "VCC", "+3V3", "+5V", "AC_PHASE", "AC_NEUTRAL", "PE"], net, "")
  }

  // ----- small pieces both forms are made of

  /** A field written only when the text is present. */
  function WithText(fields: Fields, key: string, c: CStr): Fields {
    if Present(c) then fields[key := Str(c.value)] else fields
  }

  function TextOrNull(c: CStr): Json {
    if Present(c) then Str(c.value) else Null
  }

  // ----- the named form; `absent` is what stands for a pin id that is a null pointer

  function NamedEndpoint(e: EndpointRef): Json {
    Obj(map["assembly" := Str(Text(e.assembly)), "kind" := Str(EndpointKindName(e.kind)),
            "owner" := Str(Text(e.owner)), "endpoint" := Str(Text(e.endpoint))])
  }

  predicate HasWire(w: WireMetadata) {
    Present(w.color) || Present(w.gauge) || Present(w.wireLabel) || w.lengthMm != 0
  }

  function NamedWire(w: WireMetadata): Json {
    var texts := WithText(WithText(WithText(map[], "color", w.color), "gauge", w.gauge), "label", w.wireLabel);
    Obj(if w.lengthMm != 0 then texts["length_mm" := Num(w.lengthMm)] else texts)
  }

  function NamedConnection(c: Connection): Json {
    var ends: Fields := map["a" := NamedEndpoint(c.a), "b" := NamedEndpoint(c.b)];
    Obj(if HasWire(c.wire) then ends["wire" := NamedWire(c.wire)] else ends)
  }

  function NamedPin(p: Pin, absent: Json): Json {
    var id: Fields := map["id" := if p.id.Some? then Str(p.id.value) else absent];
    var named := WithText(id, "name", p.name);
    Obj(if p.canonicalNet != NET_NONE then named["canonical_net" := Str(CanonicalNetName(p.canonicalNet))] else named)
  }

  function PinNamer(absent: Json): Pin -> Json {
    p => NamedPin(p, absent)
  }

  function NamedDevice(d: Device, absent: Json): Json {
    var id: Fields := map["id" := Str(Text(d.id))];
    var texts := WithText(WithText(WithText(WithText(id, "name", d.name), "kind", d.kind), "model", d.model),
                          "manufacturer", d.manufacturer);
    Obj(texts["terminals" := Arr(Each(d.terminals, PinNamer(absent)))])
  }

  function DeviceNamer(absent: Json): Device -> Json {
    d => NamedDevice(d, absent)
  }

  function NamedConnector(c: Connector, absent: Json): Json {
    var id: Fields := map["id" := Str(Text(c.id))];
    var kind := WithText(id, "name", c.name)["kind" := Str(ConnectorKindName(c.kind))];
    var texts := WithText(WithText(kind, "model", c.model), "manufacturer", c.manufacturer);
    Obj(texts["contacts" := Arr(Each(c.contacts, PinNamer(absent)))])
  }

  function ConnectorNamer(absent: Json): Connector -> Json {
    c => NamedConnector(c, absent)
  }

  function WithLists(fields: Fields, assemblies: seq<Json>, devices: seq<Json>, connectors: seq<Json>,
                     connections: seq<Json>): Fields
  {
    fields["assemblies" := Arr(assemblies)]["devices" := Arr(devices)]["connectors" := Arr(connectors)]
          ["connections" := Arr(connections)]
  }

  /** The members of an assembly or definition, as fields of its own object. */
  function WithMembers(fields: Fields, m: Members, absent: Json): Fields
    decreases m, 0
  {
    WithLists(fields, NamedAssemblies(m.assemblies, absent), Each(m.devices, DeviceNamer(absent)),
              Each(m.connectors, ConnectorNamer(absent)), Each(m.connections, NamedConnection))
  }

  function NamedAssemblies(assemblies: seq<Assembly>, absent: Json): (r: seq<Json>)
    ensures |r| == |assemblies|
    decreases assemblies
  {
    if assemblies == [] then []
    else [NamedAssembly(assemblies[0], absent)] + NamedAssemblies(assemblies[1..], absent)
  }

  function NamedAssembly(a: Assembly, absent: Json): Json
    decreases a
  {
    Obj(WithMembers(WithDetails(WithKind(AssemblyHead(a), !Present(a.definition), a.kind), a), a.members, absent))
  }

  /** A reference to a definition leaves the generic kind out. */
  function WithKind(fields: Fields, plain: bool, kind: uint8): Fields {
    if plain || kind != ASSEMBLY_GENERIC then fields["kind" := Str(AssemblyKindName(kind))] else fields
  }

  function AssemblyHead(a: Assembly): Fields {
    WithText(WithText(map["id" := Str(Text(a.id))], "definition", a.definition), "name", a.name)
  }

  /** The texts an assembly may carry after its kind. */
  function WithDetails(fields: Fields, a: Assembly): Fields {
    WithText(WithText(WithText(WithText(fields, "model", a.model), "manufacturer", a.manufacturer),
                      "serial_number", a.serialNumber), "location", a.location)
  }

  function NamedDefinition(d: HardwareDefinition, absent: Json): Json {
    Obj(WithMembers(DefinitionHead(d), d.members, absent))
  }

  function DefinitionHead(d: HardwareDefinition): Fields {
    var kind: Fields := map["id" := Str(Text(d.id)), "kind" := Str(AssemblyKindName(d.kind))];
    WithText(WithText(WithText(kind, "name", d.name), "model", d.model), "manufacturer", d.manufacturer)
  }

  function DefinitionNamer(absent: Json): HardwareDefinition -> Json {
    d => NamedDefinition(d, absent)
  }

  function NamedHardware(p: Profile, absent: Json): Json {
    HardwareDocument(Num(HW_CONFIG_VERSION), Str(Text(p.hostAssembly)), Each(p.definitions, DefinitionNamer(absent)),
                     NamedAssemblies(p.roots, absent), Each(p.connections, NamedConnection))
  }

  function HardwareDocument(version: Json, host: Json, definitions: seq<Json>, roots: seq<Json>, connections: seq<Json>): Json {
    Obj(map["version" := version, "host_assembly" := host, "definitions" := Arr(definitions),
            "roots" := Arr(roots), "connections" := Arr(connections)])
  }

  // ----- the positional form

  function PackedEndpoint(e: EndpointRef): Json {
    Arr([Str(Text(e.assembly)), Num(e.kind), Str(Text(e.owner)), Str(Text(e.endpoint))])
  }

  function PackedWire(w: WireMetadata): Json {
    if HasWire(w) then Arr([TextOrNull(w.color), TextOrNull(w.gauge), TextOrNull(w.wireLabel), Num(w.lengthMm)]) else Null
  }

  function PackedConnection(c: Connection): Json {
    Arr([PackedEndpoint(c.a), PackedEndpoint(c.b), PackedWire(c.wire)])
  }

  function PackedPin(p: Pin): Json {
    Arr([Str(Text(p.id)), Num(p.canonicalNet), TextOrNull(p.name)])
  }

  function PackedDevice(d: Device): Json {
    Arr([Str(Text(d.id)), TextOrNull(d.name), TextOrNull(d.kind), TextOrNull(d.model), TextOrNull(d.manufacturer),
         Arr(Each(d.terminals, PackedPin))])
  }

  function PackedConnector(c: Connector): Json {
    Arr([Str(Text(c.id)), TextOrNull(c.name), Num(c.kind), TextOrNull(c.model), TextOrNull(c.manufacturer),
         Arr(Each(c.contacts, PackedPin))])
  }

  function PackedMembers(m: Members): Json
    decreases m, 0
  {
    Arr([Arr(PackedAssemblies(m.assemblies)), Arr(Each(m.devices, PackedDevice)),
         Arr(Each(m.connectors, PackedConnector)), Arr(Each(m.connections, PackedConnection))])
  }

  function PackedAssemblies(assemblies: seq<Assembly>): (r: seq<Json>)
    ensures |r| == |assemblies|
    decreases assemblies
  {
    if assemblies == [] then [] else [PackedAssembly(assemblies[0])] + PackedAssemblies(assemblies[1..])
  }

  function PackedAssembly(a: Assembly): Json
    decreases a
  {
    Arr([Str(Text(a.id)), TextOrNull(a.definition), TextOrNull(a.name), Num(a.kind), TextOrNull(a.model),
         TextOrNull(a.manufacturer), TextOrNull(a.serialNumber), TextOrNull(a.location), PackedMembers(a.members)])
  }

  function PackedDefinition(d: HardwareDefinition): Json {
    Arr([Str(Text(d.id)), Num(d.kind), TextOrNull(d.name), TextOrNull(d.model), TextOrNull(d.manufacturer),
         PackedMembers(d.members)])
  }

  function PackedHardware(p: Profile): Json {
    Arr([Num(HARDWARE_ENCODING_VERSION), Num(HW_CONFIG_VERSION), Str(Text(p.hostAssembly)),
         Arr(Each(p.definitions, PackedDefinition)), Arr(PackedAssemblies(p.roots)),
         Arr(Each(p.connections, PackedConnection))])
  }

  // ----- the decoder

  /** A byte no greater than the last value of its enumeration. */
  predicate IsEnum(j: Json, last: uint8) {
    IsByte(j) && j.n <= last
  }

  /** Null is skipped, a text is copied, anything else refuses the document. */
  function CopyText(fields: Option<Fields>, key: string, j: Json): Option<Fields> {
    if fields.None? || j.Null? then fields
    else if j.Str? then Some(fields.value[key := j]) else None
  }

  function Packed(fields: Option<Fields>): Option<Json> {
    if fields.Some? then Some(Obj(fields.value)) else None
  }

  function DecodeEndpoint(j: Json): Option<Json> {
    if !(j.Arr? && |j.items| >= 4 && j.items[0].Str? && IsEnum(j.items[1], CONNECTOR_CONTACT) && j.items[2].Str?
         && j.items[3].Str?) then None
    else Some(Obj(map["assembly" := j.items[0], "kind" := Str(EndpointKindName(j.items[1].n)),
                      "owner" := j.items[2], "endpoint" := j.items[3]]))
  }

  function DecodeWire(w: seq<Json>): Option<Json> {
    if |w| < 4 || !(w[3].Num? && 0 <= w[3].n < 0x1_0000_0000) then None
    else
      var texts := CopyText(CopyText(CopyText(Some(map[]), "color", w[0]), "gauge", w[1]), "label", w[2]);
      if texts.None? then None
      else Some(Obj(if w[3].n != 0 then texts.value["length_mm" := w[3]] else texts.value))
  }

  function DecodeConnection(j: Json): Option<Json> {
    if !(j.Arr? && |j.items| >= 3 && j.items[0].Arr? && j.items[1].Arr? && (j.items[2].Null? || j.items[2].Arr?)) then None
    else
      var a, b := DecodeEndpoint(j.items[0]), DecodeEndpoint(j.items[1]);
      if a.None? || b.None? then None
      else
        var ends: Fields := map["a" := a.value, "b" := b.value];
        if j.items[2].Null? then Some(Obj(ends))
        else
          var wire := DecodeWire(j.items[2].items);
          if wire.None? then None else Some(Obj(ends["wire" := wire.value]))
  }

  function DecodePin(j: Json): Option<Json> {
    if !(j.Arr? && |j.items| >= 3 && j.items[0].Str? && IsEnum(j.items[1], NET_LAST)) then None
    else
      var named := CopyText(Some(map["id" := j.items[0]]), "name", j.items[2]);
      if named.None? then None
      else Some(Obj(if j.items[1].n != NET_NONE
                    then named.value["canonical_net" := Str(CanonicalNetName(j.items[1].n))] else named.value))
  }

  function DecodeDevice(j: Json): Option<Json> {
    if !(j.Arr? && |j.items| >= 6 && j.items[0].Str? && j.items[5].Arr?) then None
    else
      var i := j.items;
      var texts := CopyText(CopyText(CopyText(CopyText(Some(map["id" := i[0]]), "name", i[1]), "kind", i[2]),
                                     "model", i[3]), "manufacturer", i[4]);
      var pins := DecodeAll(i[5].items, DecodePin);
      if texts.None? || pins.None? then None else Some(Obj(texts.value["terminals" := Arr(pins.value)]))
  }

  function DecodeConnector(j: Json): Option<Json> {
    if !(j.Arr? && |j.items| >= 6 && j.items[0].Str? && IsEnum(j.items[2], CONNECTOR_LAST) && j.items[5].Arr?) then None
    else
      var i := j.items;
      var texts := CopyText(CopyText(CopyText(Some(map["id" := i[0]]), "name", i[1]), "model", i[3]),
                            "manufacturer", i[4]);
      var pins := DecodeAll(i[5].items, DecodePin);
      if texts.None? || pins.None? then None
      else Some(Obj(texts.value["kind" := Str(ConnectorKindName(i[2].n))]["contacts" := Arr(pins.value)]))
  }

  function DecodeMembers(j: Json, fields: Fields): Option<Fields>
    decreases j, 1
  {
    if !(j.Arr? && |j.items| >= 4 && j.items[0].Arr? && j.items[1].Arr? && j.items[2].Arr? && j.items[3].Arr?) then None
    else
      var assemblies := DecodeAssemblies(j.items[0].items);
      var devices := DecodeAll(j.items[1].items, DecodeDevice);
      var connectors := DecodeAll(j.items[2].items, DecodeConnector);
      var connections := DecodeAll(j.items[3].items, DecodeConnection);
      if assemblies.None? || devices.None? || connectors.None? || connections.None? then None
      else Some(WithLists(fields, assemblies.value, devices.value, connectors.value, connections.value))
  }

  function DecodeAssemblies(items: seq<Json>): Option<seq<Json>>
    decreases items, 0
  {
    if items == [] then Some([])
    else
      var head, tail := DecodeAssembly(items[0]), DecodeAssemblies(items[1..]);
      if head.Some? && tail.Some? then Some([head.value] + tail.value) else None
  }

  function DecodeAssembly(j: Json): Option<Json>
    decreases j, 2
  {
    if !(j.Arr? && |j.items| >= 9 && j.items[0].Str? && IsEnum(j.items[3], ASSEMBLY_GENERIC) && j.items[8].Arr?) then None
    else
      var i := j.items;
      var texts := CopyDetails(CopyHead(i), i);
      if texts.None? then None else Packed(DecodeMembers(i[8], WithKind(texts.value, i[1].Null?, i[3].n)))
  }

  function CopyHead(i: seq<Json>): Option<Fields>
    requires |i| >= 9
  {
    CopyText(CopyText(Some(map["id" := i[0]]), "definition", i[1]), "name", i[2])
  }

  function CopyDetails(fields: Option<Fields>, i: seq<Json>): Option<Fields>
    requires |i| >= 9
  {
    CopyText(CopyText(CopyText(CopyText(fields, "model", i[4]), "manufacturer", i[5]), "serial_number", i[6]),
             "location", i[7])
  }

  function DecodeDefinition(j: Json): Option<Json> {
    if !(j.Arr? && |j.items| >= 6 && j.items[0].Str? && IsEnum(j.items[1], ASSEMBLY_GENERIC) && j.items[5].Arr?) then None
    else
      var i := j.items;
      var kind: Fields := map["id" := i[0], "kind" := Str(AssemblyKindName(i[1].n))];
      var texts := CopyText(CopyText(CopyText(Some(kind), "name", i[2]), "model", i[3]), "manufacturer", i[4]);
      if texts.None? then None else Packed(DecodeMembers(i[5], texts.value))
  }

  function DecodeHardware(j: Json): Option<Json> {
    if !(j.Arr? && |j.items| >= 6 && IsByte(j.items[0]) && j.items[0].n == HARDWARE_ENCODING_VERSION
         && IsByte(j.items[1]) && j.items[1].n == HW_CONFIG_VERSION && j.items[2].Str?
         && j.items[3].Arr? && j.items[4].Arr? && j.items[5].Arr?) then None
    else
      var definitions := DecodeAll(j.items[3].items, DecodeDefinition);
      var roots := DecodeAssemblies(j.items[4].items);
      var connections := DecodeAll(j.items[5].items, DecodeConnection);
      if definitions.None? || roots.None? || connections.None? then None
      else Some(HardwareDocument(j.items[1], j.items[2], definitions.value, roots.value, connections.value))
  }
}
