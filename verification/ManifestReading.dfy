/** What the manifests say: the declarations can be read back from them, resource by resource, in binding order. */
module ManifestReading {
  import opened Common
  import opened Documents
  import opened Resources
  import opened Registry
  import opened ManifestCodec

  // ----- what a reader makes of the values

  function ReadName(j: Json): CStr {
    if j.Str? then Some(j.text) else None
  }

  function ReadString(j: Json): string {
    if j.Str? then j.text else ""
  }

  function ReadFlag(j: Json): bool {
    j == Bool(true)
  }

  function ReadInt32(j: Json): int32 {
    if IsInt32(j) then j.n else 0
  }

  function ReadFlags(j: Json): uint8 {
    if IsByte(j) then j.n else 0
  }

  /** What is not one of the six named types is a string. */
  function ReadType(j: Json): uint8 {
    if j == Str("boolean") then 1 else if j == Str("integer") then 2 else if j == Str("float") then 3
    else if j == Str("struct") then 4 else if j == Str("time") then 5 else if j == Str("colour") then 6 else 0
  }

  function ReadAccess(j: Json): uint8 {
    if j == Str("read_write") then READ_WRITE else 0
  }

  // ----- and of the records

  function ReadArgument(j: Json): Argument {
    Argument(ReadName(Field(j, "name")), ReadType(Field(j, "type")), ReadFlag(Field(j, "required")))
  }

  function ReadHardware(j: Json): Option<Hardware> {
    if !j.Obj? then None
    else Some(Hardware(ReadInt32(Field(j, "poll_ms")), ReadFlags(Field(j, "flags")), ReadFlag(Field(j, "connected")),
                       ReadString(Field(j, "note"))))
  }

  function ReadShape(j: Json): Shape {
    if Field(j, "kind") == Str("value") then
      Value(ReadAccess(Field(j, "access")), ReadType(Field(j, "type")), ReadName(Field(j, "depends_on")),
            ReadInt32(Field(j, "advertise_ms")), ReadHardware(Field(j, "hardware")))
    else if Field(j, "kind") == Str("event") then Event(ReadType(Field(j, "type")))
    else Action(ReadEach(Items(Field(j, "arguments")), ReadArgument))
  }

  /** A resource of the device itself. */
  function ReadResource(j: Json): Entry {
    Entry(ReadString(Field(j, "name")), true, ReadShape(j), "", "")
  }

  /** A resource of another device, and where it is looked for. */
  function ReadRemote(j: Json): Entry {
    Entry(ReadString(Field(j, "name")), false, ReadShape(j), ReadString(Field(j, "device")), ReadString(Field(j, "resource")))
  }

  function ReadManifest(j: Json): seq<Entry> {
    ReadEach(Items(Field(j, "resources")), ReadResource)
  }

  function ReadConsumeManifest(j: Json): seq<Entry> {
    ReadEach(Items(Field(j, "remotes")), ReadRemote)
  }

  /** Which of the remote resources have a usable source. */
  function ReadBound(j: Json): seq<bool> {
    var remotes := Items(Field(j, "remotes"));
    seq(|remotes|, i requires 0 <= i < |remotes| => ReadFlag(Field(remotes[i], "bound")))
  }

  // ----- a declaration up to what no manifest tells apart

  function PlainType(t: uint8): uint8 {
    if 1 <= t <= 6 then t else 0
  }

  function PlainAccess(access: uint8): uint8 {
    if access == READ_WRITE then READ_WRITE else 0
  }

  function PlainArgument(a: Argument): Argument {
    a.(argumentType := PlainType(a.argumentType))
  }

  /** A connection that is not reported is not told. */
  function PlainHardware(h: Hardware): Hardware {
    h.(connected := ReportsConnection(h.flags) && h.connected)
  }

  function PlainShape(s: Shape): Shape {
    match s
    case Value(access, valueType, dependsOn, advertiseMs, hardware) =>
      Value(PlainAccess(access), PlainType(valueType), dependsOn, advertiseMs,
            if hardware.Some? then Some(PlainHardware(hardware.value)) else None)
    case Event(payloadType) => Event(PlainType(payloadType))
    case Action(arguments) => Action(PlainEach(arguments, PlainArgument))
  }

  function PlainEntry(e: Entry): Entry {
    e.(shape := PlainShape(e.shape))
  }

  /** Of a followed value only access and type are told. */
  function FollowedShape(s: Shape): Shape {
    match s
    case Value(access, valueType, _, _, _) => Value(PlainAccess(access), PlainType(valueType), None, 0, None)
    case _ => PlainShape(s)
  }

  function FollowedEntry(e: Entry): Entry {
    e.(shape := FollowedShape(e.shape))
  }

  // ----- reading gives the declarations back

  lemma {:induction false} TypeBack(t: uint8)
    ensures ReadType(Str(ValueTypeName(t))) == PlainType(t)
  {
  }

  lemma {:induction false} ArgumentsBack(arguments: seq<Argument>)
    ensures ReadEach(Each(arguments, NamedArgument), ReadArgument) == PlainEach(arguments, PlainArgument)
  {
    forall a | a in arguments ensures ReadArgument(NamedArgument(a)) == PlainArgument(a) {
      TypeBack(a.argumentType);
    }
    EachBack(arguments, NamedArgument, ReadArgument, PlainArgument);
  }

  lemma {:induction false} HardwareBack(h: Hardware)
    ensures ReadHardware(NamedHardware(h)) == Some(PlainHardware(h))
  {
  }

  /** What an object holds under the keys of a value. */
  lemma {:induction false} ValueFields(e: Entry)
    requires e.shape.Value?
    ensures var s, j := e.shape, NamedResource(e);
            && Field(j, "kind") == Str("value") && Field(j, "access") == Str(AccessName(s.access))
            && Field(j, "type") == Str(ValueTypeName(s.valueType)) && Field(j, "advertise_ms") == Num(s.advertiseMs)
            && Field(j, "depends_on") == (if s.dependsOn.Some? then Str(s.dependsOn.value) else Null)
            && Field(j, "hardware") == (if s.hardware.Some? then NamedHardware(s.hardware.value) else Null)
  {
  }

  lemma {:induction false} ValueBack(e: Entry)
    requires e.shape.Value?
    ensures ReadShape(NamedResource(e)) == PlainShape(e.shape)
  {
    ValueFields(e);
    TypeBack(e.shape.valueType);
    if e.shape.hardware.Some? {
      HardwareBack(e.shape.hardware.value);
    }
  }

  lemma {:induction false} EventBack(e: Entry)
    requires e.shape.Event?
    ensures ReadShape(NamedResource(e)) == PlainShape(e.shape)
  {
    TypeBack(e.shape.payloadType);
  }

  lemma {:induction false} ActionBack(e: Entry)
    requires e.shape.Action?
    ensures ReadShape(NamedResource(e)) == PlainShape(e.shape)
  {
    ArgumentsBack(e.shape.arguments);
    assert Field(NamedResource(e), "arguments") == Arr(Each(e.shape.arguments, NamedArgument));
  }

  lemma {:induction false} NameBack(e: Entry)
    ensures ReadString(Field(NamedResource(e), "name")) == e.name
  {
  }

  lemma {:induction false} ResourceBack(e: Entry)
    requires e.managed && Declared(e)
    ensures ReadResource(NamedResource(e)) == PlainEntry(e)
  {
    NameBack(e);
    match e.shape
    case Value(_, _, _, _, _) => ValueBack(e);
    case Event(_) => EventBack(e);
    case Action(_) => ActionBack(e);
  }

  lemma {:induction false} RemoteHeadBack(e: Entry, device: string)
    ensures var j := NamedRemote(e, device);
            && Field(j, "name") == Str(e.name) && Field(j, "device") == Str(e.owner) && Field(j, "resource") == Str(e.source)
            && Field(j, "bound") == Bool(Resolved(e, device))
  {
  }

  lemma {:induction false} RemoteShapeBack(e: Entry, device: string)
    ensures ReadShape(NamedRemote(e, device)) == FollowedShape(e.shape)
  {
    match e.shape
    case Value(access, valueType, _, _, _) => TypeBack(valueType);
    case Event(payloadType) => TypeBack(payloadType);
    case Action(arguments) =>
      ArgumentsBack(arguments);
      assert Field(NamedRemote(e, device), "arguments") == Arr(Each(arguments, NamedArgument));
  }

  lemma {:induction false} RemoteBack(e: Entry, device: string)
    requires !e.managed
    ensures ReadRemote(NamedRemote(e, device)) == FollowedEntry(e)
  {
    RemoteHeadBack(e, device);
    RemoteShapeBack(e, device);
  }

  /** The readable manifest can be read back to the declarations of the device's own resources, in binding order. */
  lemma {:induction false} ManifestBack(entries: seq<Entry>)
    requires forall e :: e in entries ==> Declared(e)
    ensures ReadManifest(NamedManifest(entries)) == PlainEach(OfRole(entries, true), PlainEntry)
    ensures Field(NamedManifest(entries), "version") == Num(RESOURCE_MANIFEST_VERSION)
  {
    var mine := OfRole(entries, true);
    forall e | e in mine ensures ReadResource(NamedResource(e)) == PlainEntry(e) {
      ResourceBack(e);
    }
    EachBack(mine, NamedResource, ReadResource, PlainEntry);
    assert Field(NamedManifest(entries), "resources") == Arr(Each(mine, NamedResource));
  }

  /** The readable consume manifest can be read back to what is followed, and where. */
  lemma {:induction false} ConsumeManifestBack(t: Table)
    ensures ReadConsumeManifest(NamedConsumeManifest(t)) == PlainEach(OfRole(t.entries, false), FollowedEntry)
    ensures Field(NamedConsumeManifest(t), "version") == Num(CONSUME_MANIFEST_VERSION)
  {
    var others := OfRole(t.entries, false);
    forall e | e in others ensures ReadRemote(RemoteNamer(t.device)(e)) == FollowedEntry(e) {
      RemoteBack(e, t.device);
    }
    EachBack(others, RemoteNamer(t.device), ReadRemote, FollowedEntry);
    assert Field(NamedConsumeManifest(t), "remotes") == Arr(Each(others, RemoteNamer(t.device)));
  }

  /** And to which of it has a usable source. */
  lemma {:induction false} BoundBack(t: Table, i: nat)
    requires i < |OfRole(t.entries, false)|
    ensures |ReadBound(NamedConsumeManifest(t))| == |OfRole(t.entries, false)|
    ensures ReadBound(NamedConsumeManifest(t))[i] == Resolved(OfRole(t.entries, false)[i], t.device)
  {
    var others := OfRole(t.entries, false);
    RemoteHeadBack(others[i], t.device);
    var remotes := Each(others, RemoteNamer(t.device));
    assert Field(NamedConsumeManifest(t), "remotes") == Arr(remotes) && remotes[i] == NamedRemote(others[i], t.device);
  }

  /** Registries with the same manifests declare the same resources of their own, and follow the same ones. */
  lemma {:induction false} SameManifestsSameDeclarations(t: Table, u: Table)
    requires Registry.Valid(t) && Registry.Valid(u)
    requires PackedManifest(t.entries) == PackedManifest(u.entries) && PackedConsumeManifest(t) == PackedConsumeManifest(u)
    ensures PlainEach(OfRole(t.entries, true), PlainEntry) == PlainEach(OfRole(u.entries, true), PlainEntry)
    ensures PlainEach(OfRole(t.entries, false), FollowedEntry) == PlainEach(OfRole(u.entries, false), FollowedEntry)
  {
    RegisteredManifestsAreReadable(t);
    RegisteredManifestsAreReadable(u);
    EntriesAreDeclared(t);
    EntriesAreDeclared(u);
    ManifestBack(t.entries);
    ManifestBack(u.entries);
    ConsumeManifestBack(t);
    ConsumeManifestBack(u);
  }

  lemma {:induction false} EntriesAreDeclared(t: Table)
    requires Registry.Valid(t)
    ensures forall e :: e in t.entries ==> Declared(e)
  {
    forall e | e in t.entries ensures Declared(e) {
      var i :| 0 <= i < |t.entries| && t.entries[i] == e;
      assert Declared(t.entries[i]);
    }
  }
}
