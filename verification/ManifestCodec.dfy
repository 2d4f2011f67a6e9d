/** The resource manifests: what a device implements and what it follows, in named and positional form. */
module ManifestCodec {
  import opened Common
  import opened Documents
  import opened Resources
  import opened Registry

  const MANIFEST_ENCODING_VERSION := 3
  const RESOURCE_MANIFEST_VERSION := 6
  const CONSUME_MANIFEST_ENCODING_VERSION := 3
  const CONSUME_MANIFEST_VERSION := 4

  // ----- names of enumerated values

  function KindOf(s: Shape): uint8 {
    match s case Value(_, _, _, _, _) => KIND_VALUE case Action(_) => KIND_ACTION case Event(_) => KIND_EVENT
  }

  function KindName(kind: int): string {
    if kind == KIND_VALUE then "value" else if kind == KIND_EVENT then "event" else "action"
  }

  function AccessName(access: int): string {
    if access == READ_WRITE then "read_write" else "read"
  }

  function ValueTypeName(t: int): string {
    if t == 1 then "boolean" else if t == 2 then "integer" else if t == 3 then "float" else if t == 4 then "struct"
    else if t == 5 then "time" else if t == 6 then "colour" else "string"
  }

  function TextOf(c: CStr): Json {
    if c.Some? then Str(c.value) else Null
  }

  // ----- the named forms

  function NamedArgument(a: Argument): Json {
    Obj(map["name" := TextOf(a.name), "type" := Str(ValueTypeName(a.argumentType)), "required" := Bool(a.required)])
  }

  predicate ReportsConnection(flags: int) {
    flags % 2 == REPORT_HW_CONNECTION
  }

  function NamedHardware(h: Hardware): Json {
    var policy: Fields := map["poll_ms" := Num(h.pollMs), "flags" := Num(h.flags)];
    var reported := if ReportsConnection(h.flags) then policy["connected" := Bool(h.connected)] else policy;
    Obj(if h.note != "" then reported["note" := Str(h.note)] else reported)
  }

  function WithDependency(fields: Fields, dependsOn: Option<string>): Fields {
    if dependsOn.Some? then fields["depends_on" := Str(dependsOn.value)] else fields
  }

  function WithHardware(fields: Fields, hardware: Option<Hardware>): Fields {
    if hardware.Some? then fields["hardware" := NamedHardware(hardware.value)] else fields
  }

  function WithAccess(fields: Fields, access: int, valueType: int): Fields {
    fields["access" := Str(AccessName(access))]["type" := Str(ValueTypeName(valueType))]
  }

  function Head(name: Json, kind: int): Fields {
    map["name" := name, "kind" := Str(KindName(kind))]
  }

  function NamedResource(e: Entry): Json {
    var head := Head(Str(e.name), KindOf(e.shape));
    match e.shape
    case Value(access, valueType, dependsOn, advertiseMs, hardware) =>
      Obj(WithHardware(WithDependency(WithAccess(head, access, valueType), dependsOn)["advertise_ms" := Num(advertiseMs)],
                       hardware))
    case Event(payloadType) => Obj(head["type" := Str(ValueTypeName(payloadType))])
    case Action(arguments) => Obj(head["arguments" := Arr(Each(arguments, NamedArgument))])
  }

  /** The entries this device implements (`managed`) or follows, in binding order. */
  function OfRole(entries: seq<Entry>, managed: bool): (r: seq<Entry>)
    ensures forall e :: e in r <==> e in entries && e.managed == managed
  {
    if entries == [] then []
    else
      var last := entries[|entries| - 1];
      OfRole(entries[..|entries| - 1], managed) + (if last.managed == managed then [last] else [])
  }

  function NamedManifest(entries: seq<Entry>): Json {
    Obj(map["version" := Num(RESOURCE_MANIFEST_VERSION), "resources" := Arr(Each(OfRole(entries, true), NamedResource))])
  }

  function RemoteHead(e: Entry, device: string): Fields {
    map["name" := Str(e.name), "bound" := Bool(Resolved(e, device)), "device" := Str(e.owner), "resource" := Str(e.source),
        "kind" := Str(KindName(KindOf(e.shape)))]
  }

  function NamedRemote(e: Entry, device: string): Json {
    var head := RemoteHead(e, device);
    match e.shape
    case Value(access, valueType, _, _, _) => Obj(WithAccess(head, access, valueType))
    case Event(payloadType) => Obj(head["type" := Str(ValueTypeName(payloadType))])
    case Action(arguments) => Obj(head["arguments" := Arr(Each(arguments, NamedArgument))])
  }

  function RemoteNamer(device: string): Entry -> Json {
    e => NamedRemote(e, device)
  }

  function NamedConsumeManifest(t: Table): Json {
    Obj(map["version" := Num(CONSUME_MANIFEST_VERSION),
            "remotes" := Arr(Each(OfRole(t.entries, false), RemoteNamer(t.device)))])
  }

  // ----- the positional forms

  function PackedArgument(a: Argument): Json {
    Arr([TextOf(a.name), Num(a.argumentType), Bool(a.required)])
  }

  /** The tail is optional, and a note without a connection state leaves a null in its place. */
  function PackedHardware(h: Hardware): Json {
    var policy := [Num(h.pollMs), Num(h.flags)];
    if ReportsConnection(h.flags) then
      Arr(if h.note != "" then policy + [Bool(h.connected), Str(h.note)] else policy + [Bool(h.connected)])
    else Arr(if h.note != "" then policy + [Null, Str(h.note)] else policy)
  }

  function PackedResource(e: Entry): Json {
    match e.shape
    case Value(access, valueType, dependsOn, advertiseMs, hardware) =>
      Arr([Num(KIND_VALUE), Str(e.name), Num(access), Num(valueType),
           if dependsOn.Some? then Str(dependsOn.value) else Null, Num(advertiseMs),
           if hardware.Some? then PackedHardware(hardware.value) else Null])
    case Event(payloadType) => Arr([Num(KIND_EVENT), Str(e.name), Num(payloadType)])
    case Action(arguments) => Arr([Num(KIND_ACTION), Str(e.name), Arr(Each(arguments, PackedArgument))])
  }

  function PackedManifest(entries: seq<Entry>): Json {
    Arr([Num(MANIFEST_ENCODING_VERSION), Num(RESOURCE_MANIFEST_VERSION), Arr(Each(OfRole(entries, true), PackedResource))])
  }

  function PackedRemote(e: Entry, device: string): Json {
    var head := [Num(KindOf(e.shape)), Str(e.name), Bool(Resolved(e, device)), Str(e.owner), Str(e.source)];
    match e.shape
    case Value(access, valueType, _, _, _) => Arr(head + [Num(access), Num(valueType)])
    case Event(payloadType) => Arr(head + [Num(payloadType)])
    case Action(arguments) => Arr(head + [Arr(Each(arguments, PackedArgument))])
  }

  function RemotePacker(device: string): Entry -> Json {
    e => PackedRemote(e, device)
  }

  function PackedConsumeManifest(t: Table): Json {
    Arr([Num(CONSUME_MANIFEST_ENCODING_VERSION), Num(CONSUME_MANIFEST_VERSION),
         Arr(Each(OfRole(t.entries, false), RemotePacker(t.device)))])
  }

  // ----- the tolerant decoder of the resource manifest

  /** A number converted to a bounded integer: zero when it does not fit, or is not a number at all. */
  function AsInteger(j: Json, low: int, high: int): int {
    match j
    case Num(n) => if low <= n <= high then n else 0
    case Bool(flag) => if flag then 1 else 0
    case Fraction(r) =>
      if !(low as real <= r <= high as real) then 0 else if r >= 0.0 then r.Floor else 0 - (0.0 - r).Floor
    case _ => 0
  }

  function AsByte(j: Json): int {
    AsInteger(j, 0, 0xFF)
  }

  function AsText(j: Json): Json {
    if j.Str? then j else Null
  }

  function AsBool(j: Json): bool {
    match j
    case Bool(flag) => flag
    case Num(n) => n != 0
    case Fraction(r) => r != 0.0
    case Null => false
    case _ => true
  }

  function AsList(j: Json): seq<Json> {
    if j.Arr? then j.items else []
  }

  predicate IsInt32(j: Json) {
    j.Num? && -0x8000_0000 <= j.n < 0x8000_0000
  }

  /** The elements that decode; the others are skipped. */
  function DecodeSome(items: seq<Json>, f: Json -> Option<Json>): seq<Json> {
    if items == [] then []
    else
      var before, last := DecodeSome(items[..|items| - 1], f), f(items[|items| - 1]);
      if last.Some? then before + [last.value] else before
  }

  function DecodeArgument(j: Json): Option<Json> {
    var i := AsList(j);
    if |i| < 3 then None
    else Some(Obj(map["name" := AsText(i[0]), "type" := Str(ValueTypeName(AsByte(i[1]))), "required" := Bool(AsBool(i[2]))]))
  }

  function DecodeHardware(h: seq<Json>): Option<Json> {
    if |h| < 2 || !IsInt32(h[0]) || !IsByte(h[1]) then None
    else
      var policy: Fields := map["poll_ms" := h[0], "flags" := h[1]];
      var reported := if |h| > 2 && h[2].Bool? then policy["connected" := h[2]] else policy;
      Some(Obj(if |h| > 3 && h[3].Str? then reported["note" := h[3]] else reported))
  }

  /** The optional tail of a value: what is missing or malformed is left out. */
  function WithValueTail(fields: Fields, i: seq<Json>): Fields {
    var one := if |i| > 4 && i[4].Str? then fields["depends_on" := i[4]] else fields;
    var two := if |i| > 5 && IsInt32(i[5]) then one["advertise_ms" := i[5]] else one;
    var hardware := if |i| > 6 && i[6].Arr? then DecodeHardware(i[6].items) else None;
    if hardware.Some? then two["hardware" := hardware.value] else two
  }

  function DecodeResource(j: Json): Option<Json> {
    var i := AsList(j);
    if |i| < 2 then None
    else
      var kind := AsByte(i[0]);
      var head := Head(AsText(i[1]), kind);
      if kind == KIND_VALUE then
        Some(Obj(if |i| < 4 then head else WithValueTail(WithAccess(head, AsByte(i[2]), AsByte(i[3])), i)))
      else if kind == KIND_EVENT then
        Some(Obj(if |i| >= 3 then head["type" := Str(ValueTypeName(AsByte(i[2])))] else head))
      else Some(Obj(head["arguments" := Arr(if |i| < 3 then [] else DecodeSome(AsList(i[2]), DecodeArgument))]))
  }

  function DecodeManifest(j: Json): Option<Json> {
    if !j.Arr? || |j.items| < 3 || AsByte(j.items[0]) != MANIFEST_ENCODING_VERSION then None
    else Some(Obj(map["version" := Num(AsInteger(j.items[1], -0x8000_0000, INT32_MAX)),
                      "resources" := Arr(DecodeSome(AsList(j.items[2]), DecodeResource))]))
  }

  // ----- the strict decoder of the consume manifest

  function DecodeConsumedArgument(j: Json): Option<Json> {
    var i := AsList(j);
    if |i| < 3 || !i[0].Str? || !IsByte(i[1]) || !i[2].Bool? then None
    else Some(Obj(map["name" := i[0], "type" := Str(ValueTypeName(i[1].n)), "required" := i[2]]))
  }

  function DecodeRemote(j: Json): Option<Json> {
    var i := AsList(j);
    if |i| < 5 || !IsByte(i[0]) || !i[1].Str? || !i[2].Bool? || !i[3].Str? || !i[4].Str? then None
    else
      var head: Fields := map["name" := i[1], "bound" := i[2], "device" := i[3], "resource" := i[4],
                              "kind" := Str(KindName(i[0].n))];
      if i[0].n == KIND_VALUE then
        if |i| < 7 || !IsByte(i[5]) || !IsByte(i[6]) then None else Some(Obj(WithAccess(head, i[5].n, i[6].n)))
      else if i[0].n == KIND_ACTION then
        if |i| < 6 || !i[5].Arr? then None
        else
          var arguments := DecodeAll(i[5].items, DecodeConsumedArgument);
          if arguments.None? then None else Some(Obj(head["arguments" := Arr(arguments.value)]))
      else if i[0].n == KIND_EVENT then
        if |i| < 6 || !IsByte(i[5]) then None else Some(Obj(head["type" := Str(ValueTypeName(i[5].n))]))
      else None
  }

  function DecodeConsumeManifest(j: Json): Option<Json> {
    if !j.Arr? || |j.items| < 3 || !IsByte(j.items[0]) || j.items[0].n != CONSUME_MANIFEST_ENCODING_VERSION
       || !IsByte(j.items[1]) || !j.items[2].Arr? then None
    else
      var remotes := DecodeAll(j.items[2].items, DecodeRemote);
      if remotes.None? then None else Some(Obj(map["version" := j.items[1], "remotes" := Arr(remotes.value)]))
  }

  // ----- decoding gives the named form

  lemma {:induction false} DecodeSomeOfEach<A>(items: seq<A>, pack: A -> Json, f: Json -> Option<Json>, name: A -> Json)
    requires forall a :: a in items ==> f(pack(a)) == Some(name(a))
    ensures DecodeSome(Each(items, pack), f) == Each(items, name)
    decreases |items|
  {
    if items != [] {
      var front := items[..|items| - 1];
      assert Each(items, pack)[..|items| - 1] == Each(front, pack);
      DecodeSomeOfEach(front, pack, f, name);
      assert Each(items, name) == Each(front, name) + [name(items[|items| - 1])];
    }
  }

  lemma {:induction false} DecodePackedHardware(h: Hardware)
    ensures DecodeHardware(PackedHardware(h).items) == Some(NamedHardware(h))
  {
  }

  lemma {:induction false} DecodePackedResource(e: Entry)
    ensures DecodeResource(PackedResource(e)) == Some(NamedResource(e))
  {
    match e.shape
    case Value(_, _, _, _, hardware) =>
      if hardware.Some? {
        DecodePackedHardware(hardware.value);
      }
    case Event(_) =>
    case Action(arguments) =>
      forall a | a in arguments ensures DecodeArgument(PackedArgument(a)) == Some(NamedArgument(a)) {
      }
      DecodeSomeOfEach(arguments, PackedArgument, DecodeArgument, NamedArgument);
  }

  /** For every table, the compact manifest expands to the readable one. */
  lemma {:induction false} CompactManifestIsReadable(entries: seq<Entry>)
    ensures DecodeManifest(PackedManifest(entries)) == Some(NamedManifest(entries))
  {
    var mine := OfRole(entries, true);
    forall e | e in mine ensures DecodeResource(PackedResource(e)) == Some(NamedResource(e)) {
      DecodePackedResource(e);
    }
    DecodeSomeOfEach(mine, PackedResource, DecodeResource, NamedResource);
  }

  predicate NamedArguments(e: Entry) {
    e.shape.Action? ==> forall a :: a in e.shape.arguments ==> a.name.Some?
  }

  predicate HasName(a: Argument) { a.name.Some? }

  lemma {:induction false} DecodePackedArguments(arguments: seq<Argument>)
    ensures DecodeAll(Each(arguments, PackedArgument), DecodeConsumedArgument) ==
            When(forall a :: a in arguments ==> HasName(a), Each(arguments, NamedArgument))
  {
    DecodeEach(arguments, PackedArgument, DecodeConsumedArgument, HasName, NamedArgument);
  }

  lemma {:induction false} DecodePackedRemote(e: Entry, device: string)
    ensures DecodeRemote(PackedRemote(e, device)) == When(NamedArguments(e), NamedRemote(e, device))
  {
    if e.shape.Action? {
      DecodePackedArguments(e.shape.arguments);
      assert NamedArguments(e) <==> forall a :: a in e.shape.arguments ==> HasName(a);
    }
  }

  /** The compact consume manifest expands to the readable one exactly when no followed action has an argument without
      a name; otherwise it is refused. */
  lemma {:induction false} CompactConsumeManifestIsReadable(t: Table)
    ensures DecodeConsumeManifest(PackedConsumeManifest(t)) ==
            When(forall e :: e in t.entries && !e.managed ==> NamedArguments(e), NamedConsumeManifest(t))
  {
    var others := OfRole(t.entries, false);
    forall e | e in others
      ensures DecodeRemote(RemotePacker(t.device)(e)) == When(NamedArguments(e), RemoteNamer(t.device)(e))
    {
      DecodePackedRemote(e, t.device);
    }
    DecodeEach(others, RemotePacker(t.device), DecodeRemote, NamedArguments, RemoteNamer(t.device));
    assert (forall e :: e in others ==> NamedArguments(e)) <==> forall e :: e in t.entries && !e.managed ==> NamedArguments(e);
  }

  /** Binding refuses nameless arguments, so whatever is registered can be read back from both manifests. */
  lemma {:induction false} RegisteredManifestsAreReadable(t: Table)
    requires Registry.Valid(t)
    ensures DecodeManifest(PackedManifest(t.entries)) == Some(NamedManifest(t.entries))
    ensures DecodeConsumeManifest(PackedConsumeManifest(t)) == Some(NamedConsumeManifest(t))
  {
    CompactManifestIsReadable(t.entries);
    CompactConsumeManifestIsReadable(t);
    forall e | e in t.entries ensures NamedArguments(e) {
      var i :| 0 <= i < |t.entries| && t.entries[i] == e;
      assert Described(t.entries[i]);
    }
  }

  // ----- what follows the fixed positions of a record

  predicate PaddedArgument(j: Json, k: Json) { j == k || SameStart(j, k, 3) }

  /** Seven positions fix a value and three an event or an action; an action's arguments may grow as well. */
  predicate PaddedResource(j: Json, k: Json) {
    j == k || SameStart(j, k, 7)
    || (SameStart(j, k, 2) && |j.items| >= 3 && |k.items| >= 3 && AsByte(j.items[0]) != KIND_VALUE
        && (if AsByte(j.items[0]) == KIND_EVENT then j.items[2] == k.items[2]
            else PaddedList(j.items[2], k.items[2], PaddedArgument)))
  }

  predicate PaddedManifest(j: Json, k: Json) {
    SameStart(j, k, 2) && |j.items| >= 3 && |k.items| >= 3 && PaddedList(j.items[2], k.items[2], PaddedResource)
  }

  lemma {:induction false} PaddingKeepsSome(js: seq<Json>, ks: seq<Json>, r: (Json, Json) -> bool, f: Json -> Option<Json>)
    requires Pairwise(js, ks, r)
    requires forall j, k :: r(j, k) ==> f(j) == f(k)
    ensures DecodeSome(js, f) == DecodeSome(ks, f)
  {
    if js != [] {
      var n := |js| - 1;
      assert r(js[n], ks[n]);
      assert forall i :: 0 <= i < n ==> r(js[..n][i], ks[..n][i]);
      PaddingKeepsSome(js[..n], ks[..n], r, f);
    }
  }

  lemma {:induction false} PaddingKeepsArguments(j: Json, k: Json)
    requires PaddedList(j, k, PaddedArgument)
    ensures DecodeSome(AsList(j), DecodeArgument) == DecodeSome(AsList(k), DecodeArgument)
  {
    if j != k {
      forall a, b | PaddedArgument(a, b) ensures DecodeArgument(a) == DecodeArgument(b) {
        if a != b {
          SameStartAt(a, b, 3, 0); SameStartAt(a, b, 3, 1); SameStartAt(a, b, 3, 2);
        }
      }
      PaddingKeepsSome(j.items, k.items, PaddedArgument, DecodeArgument);
    }
  }

  lemma {:induction false} PaddingKeepsResource(j: Json, k: Json)
    requires PaddedResource(j, k)
    ensures DecodeResource(j) == DecodeResource(k)
  {
    if j != k {
      if SameStart(j, k, 7) {
        forall i | 0 <= i < 7 ensures j.items[i] == k.items[i] { SameStartAt(j, k, 7, i); }
      } else {
        SameStartAt(j, k, 2, 0);
        SameStartAt(j, k, 2, 1);
        if AsByte(j.items[0]) != KIND_EVENT {
          PaddingKeepsArguments(j.items[2], k.items[2]);
        }
      }
    }
  }

  /** A reader of this version ignores what a later writer appends to the manifest, a resource or an argument. */
  lemma {:induction false} AppendedElementsAreIgnored(j: Json, k: Json)
    requires PaddedManifest(j, k)
    ensures DecodeManifest(j) == DecodeManifest(k)
  {
    SameStartAt(j, k, 2, 0);
    SameStartAt(j, k, 2, 1);
    if j.items[2] != k.items[2] {
      forall a, b | PaddedResource(a, b) ensures DecodeResource(a) == DecodeResource(b) { PaddingKeepsResource(a, b); }
      PaddingKeepsSome(j.items[2].items, k.items[2].items, PaddedResource, DecodeResource);
    }
  }

  /** Seven positions fix a followed value and six an event; an action's arguments may grow as well. */
  predicate PaddedRemote(j: Json, k: Json) {
    j == k || SameStart(j, k, 7)
    || (SameStart(j, k, 6) && j.items[0] == Num(KIND_EVENT))
    || (SameStart(j, k, 5) && j.items[0] == Num(KIND_ACTION) && |j.items| >= 6 && |k.items| >= 6
        && PaddedList(j.items[5], k.items[5], PaddedArgument))
  }

  predicate PaddedConsumeManifest(j: Json, k: Json) {
    SameStart(j, k, 2) && |j.items| >= 3 && |k.items| >= 3 && PaddedList(j.items[2], k.items[2], PaddedRemote)
  }

  lemma {:induction false} PaddingKeepsConsumedArguments(js: seq<Json>, ks: seq<Json>)
    requires Pairwise(js, ks, PaddedArgument)
    ensures DecodeAll(js, DecodeConsumedArgument) == DecodeAll(ks, DecodeConsumedArgument)
  {
    forall a, b | PaddedArgument(a, b) ensures DecodeConsumedArgument(a) == DecodeConsumedArgument(b) {
      if a != b {
        SameStartAt(a, b, 3, 0); SameStartAt(a, b, 3, 1); SameStartAt(a, b, 3, 2);
      }
    }
    PaddingKeepsList(js, ks, PaddedArgument, DecodeConsumedArgument);
  }

  lemma {:induction false} PaddingKeepsRemote(j: Json, k: Json)
    requires PaddedRemote(j, k)
    ensures DecodeRemote(j) == DecodeRemote(k)
  {
    if j != k {
      var n := if SameStart(j, k, 7) then 7 else if SameStart(j, k, 6) then 6 else 5;
      forall i | 0 <= i < n ensures j.items[i] == k.items[i] { SameStartAt(j, k, n, i); }
      if n == 5 && j.items[5] != k.items[5] {
        PaddingKeepsConsumedArguments(j.items[5].items, k.items[5].items);
      }
    }
  }

  /** So does a reader of the consume manifest, which refuses what is malformed but not what is longer. */
  lemma {:induction false} AppendedElementsOfRemotesAreIgnored(j: Json, k: Json)
    requires PaddedConsumeManifest(j, k)
    ensures DecodeConsumeManifest(j) == DecodeConsumeManifest(k)
  {
    SameStartAt(j, k, 2, 0);
    SameStartAt(j, k, 2, 1);
    if j.items[2] != k.items[2] {
      forall a, b | PaddedRemote(a, b) ensures DecodeRemote(a) == DecodeRemote(b) { PaddingKeepsRemote(a, b); }
      PaddingKeepsList(j.items[2].items, k.items[2].items, PaddedRemote, DecodeRemote);
    }
  }

  /** The hardware record is the exception: elements may be appended without changing its reading only when all four
      of its own positions are there. */
  lemma {:induction false} HardwareTailIsRead(h: seq<Json>)
    requires DecodeHardware(h).Some?
    ensures |h| >= 4 <==> forall extra: seq<Json> :: DecodeHardware(h + extra) == DecodeHardware(h)
  {
    var one, two: seq<Json> := [Str("note")], [Bool(true)];
    if |h| == 3 {
      var longer := h + one;
      assert longer[3] == Str("note");
      assert "note" in DecodeHardware(longer).value.fields && "note" !in DecodeHardware(h).value.fields;
      assert DecodeHardware(h + one) != DecodeHardware(h);
    } else if |h| == 2 {
      var longer := h + two;
      assert longer[2] == Bool(true);
      assert "connected" in DecodeHardware(longer).value.fields && "connected" !in DecodeHardware(h).value.fields;
      assert DecodeHardware(h + two) != DecodeHardware(h);
    } else {
      forall extra: seq<Json> ensures DecodeHardware(h + extra) == DecodeHardware(h) {
        assert (h + extra)[..4] == h[..4];
      }
    }
  }
}
