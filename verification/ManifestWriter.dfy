/** The loops that write and read the two resource manifests, each one proved to be its form in ManifestCodec. */
module ManifestWriter {
  import opened Common
  import opened Documents
  import opened Resources
  import opened Registry
  import opened ManifestCodec

  // ----- writing

  method AppendArguments(arguments: seq<Argument>) returns (dst: seq<Json>)
    ensures dst == Each(arguments, PackedArgument)
  {
    dst := [];
    for i := 0 to |arguments|
      invariant |dst| == i && forall k :: 0 <= k < i ==> dst[k] == PackedArgument(arguments[k])
    {
      dst := dst + [Arr([TextOf(arguments[i].name), Num(arguments[i].argumentType), Bool(arguments[i].required)])];
    }
  }

  method AppendNamedArguments(arguments: seq<Argument>) returns (dst: seq<Json>)
    ensures dst == Each(arguments, NamedArgument)
  {
    dst := [];
    for i := 0 to |arguments|
      invariant |dst| == i && forall k :: 0 <= k < i ==> dst[k] == NamedArgument(arguments[k])
    {
      var argument: Fields := map["name" := TextOf(arguments[i].name)];
      argument := argument["type" := Str(ValueTypeName(arguments[i].argumentType))];
      argument := argument["required" := Bool(arguments[i].required)];
      dst := dst + [Obj(argument)];
    }
  }

  /** One more entry looked at: it is written if it has the wanted role. */
  lemma {:induction false} OneMore(entries: seq<Entry>, i: nat, managed: bool, f: Entry -> Json)
    requires i < |entries|
    ensures Each(OfRole(entries[..i + 1], managed), f) ==
            if entries[i].managed == managed then Each(OfRole(entries[..i], managed), f) + [f(entries[i])]
            else Each(OfRole(entries[..i], managed), f)
  {
    assert entries[..i + 1][..i] == entries[..i];
    assert OfRole(entries[..i + 1], managed) ==
           OfRole(entries[..i], managed) + (if entries[i].managed == managed then [entries[i]] else []);
  }

  method BuildNamedManifest(entries: seq<Entry>) returns (doc: Json)
    ensures doc == NamedManifest(entries)
  {
    var items: seq<Json> := [];
    for i := 0 to |entries|
      invariant items == Each(OfRole(entries[..i], true), NamedResource)
    {
      OneMore(entries, i, true, NamedResource);
      if entries[i].managed {
        var item := NameResource(entries[i]);
        items := items + [item];
      }
    }
    assert entries[..|entries|] == entries;
    doc := Obj(map["version" := Num(RESOURCE_MANIFEST_VERSION), "resources" := Arr(items)]);
  }

  method NameResource(e: Entry) returns (item: Json)
    ensures item == NamedResource(e)
  {
    var fields := Head(Str(e.name), KindOf(e.shape));
    match e.shape {
      case Value(access, valueType, dependsOn, advertiseMs, hardware) =>
        fields := WithDependency(WithAccess(fields, access, valueType), dependsOn);
        fields := WithHardware(fields["advertise_ms" := Num(advertiseMs)], hardware);
      case Event(payloadType) =>
        fields := fields["type" := Str(ValueTypeName(payloadType))];
      case Action(arguments) =>
        var list := AppendNamedArguments(arguments);
        fields := fields["arguments" := Arr(list)];
    }
    item := Obj(fields);
  }

  method BuildPositionalManifest(entries: seq<Entry>) returns (doc: Json)
    ensures doc == PackedManifest(entries)
  {
    var items: seq<Json> := [];
    for i := 0 to |entries|
      invariant items == Each(OfRole(entries[..i], true), PackedResource)
    {
      OneMore(entries, i, true, PackedResource);
      if entries[i].managed {
        var item := PackResource(entries[i]);
        items := items + [item];
      }
    }
    assert entries[..|entries|] == entries;
    doc := Arr([Num(MANIFEST_ENCODING_VERSION), Num(RESOURCE_MANIFEST_VERSION), Arr(items)]);
  }

  method PackResource(e: Entry) returns (item: Json)
    ensures item == PackedResource(e)
  {
    var i := [Num(KindOf(e.shape)), Str(e.name)];
    match e.shape {
      case Value(access, valueType, dependsOn, advertiseMs, hardware) =>
        i := i + [Num(access), Num(valueType)];
        i := i + [if dependsOn.Some? then Str(dependsOn.value) else Null, Num(advertiseMs)];
        i := i + [if hardware.Some? then PackedHardware(hardware.value) else Null];
      case Event(payloadType) =>
        i := i + [Num(payloadType)];
      case Action(arguments) =>
        var list := AppendArguments(arguments);
        i := i + [Arr(list)];
    }
    item := Arr(i);
  }

  method BuildNamedConsumeManifest(t: Table) returns (doc: Json)
    ensures doc == NamedConsumeManifest(t)
  {
    var remotes: seq<Json> := [];
    for i := 0 to |t.entries|
      invariant remotes == Each(OfRole(t.entries[..i], false), RemoteNamer(t.device))
    {
      OneMore(t.entries, i, false, RemoteNamer(t.device));
      if !t.entries[i].managed {
        var item := NameRemote(t.entries[i], t.device);
        remotes := remotes + [item];
      }
    }
    assert t.entries[..|t.entries|] == t.entries;
    doc := Obj(map["version" := Num(CONSUME_MANIFEST_VERSION), "remotes" := Arr(remotes)]);
  }

  method NameRemote(e: Entry, device: string) returns (item: Json)
    ensures item == NamedRemote(e, device)
  {
    var fields := RemoteHead(e, device);
    match e.shape {
      case Value(access, valueType, _, _, _) =>
        fields := WithAccess(fields, access, valueType);
      case Event(payloadType) =>
        fields := fields["type" := Str(ValueTypeName(payloadType))];
      case Action(arguments) =>
        var list := AppendNamedArguments(arguments);
        fields := fields["arguments" := Arr(list)];
    }
    item := Obj(fields);
  }

  method BuildPositionalConsumeManifest(t: Table) returns (doc: Json)
    ensures doc == PackedConsumeManifest(t)
  {
    var remotes: seq<Json> := [];
    for i := 0 to |t.entries|
      invariant remotes == Each(OfRole(t.entries[..i], false), RemotePacker(t.device))
    {
      OneMore(t.entries, i, false, RemotePacker(t.device));
      if !t.entries[i].managed {
        var item := PackRemote(t.entries[i], t.device);
        remotes := remotes + [item];
      }
    }
    assert t.entries[..|t.entries|] == t.entries;
    doc := Arr([Num(CONSUME_MANIFEST_ENCODING_VERSION), Num(CONSUME_MANIFEST_VERSION), Arr(remotes)]);
  }

  method PackRemote(e: Entry, device: string) returns (item: Json)
    ensures item == PackedRemote(e, device)
  {
    var i := [Num(KindOf(e.shape)), Str(e.name), Bool(Resolved(e, device)), Str(e.owner), Str(e.source)];
    match e.shape {
      case Value(access, valueType, _, _, _) =>
        i := i + [Num(access), Num(valueType)];
      case Event(payloadType) =>
        i := i + [Num(payloadType)];
      case Action(arguments) =>
        var list := AppendArguments(arguments);
        i := i + [Arr(list)];
    }
    item := Arr(i);
  }

  // ----- reading

  /** What cannot be read is skipped, element by element. */
  method ReadArguments(src: seq<Json>) returns (dst: seq<Json>)
    ensures dst == DecodeSome(src, DecodeArgument)
  {
    dst := [];
    for i := 0 to |src|
      invariant dst == DecodeSome(src[..i], DecodeArgument)
    {
      assert src[..i + 1][..i] == src[..i];
      var argument := DecodeArgument(src[i]);
      if argument.Some? {
        dst := dst + [argument.value];
      }
    }
    assert src[..|src|] == src;
  }

  method ReadResource(j: Json) returns (item: Option<Json>)
    ensures item == DecodeResource(j)
  {
    var i := AsList(j);
    if |i| < 2 {
      return None;
    }
    var kind := AsByte(i[0]);
    var fields := Head(AsText(i[1]), kind);
    if kind == KIND_VALUE {
      if |i| >= 4 {
        fields := WithValueTail(WithAccess(fields, AsByte(i[2]), AsByte(i[3])), i);
      }
    } else if kind == KIND_EVENT {
      if |i| >= 3 {
        fields := fields["type" := Str(ValueTypeName(AsByte(i[2])))];
      }
    } else {
      var list: seq<Json> := [];
      if |i| >= 3 {
        list := ReadArguments(AsList(i[2]));
      }
      fields := fields["arguments" := Arr(list)];
    }
    item := Some(Obj(fields));
  }

  /** Refuses only a document that is not a manifest of this encoding, and then leaves `into` alone. */
  method DecodeManifestInto(encoded: Json, into: Json) returns (ok: bool, result: Json)
    ensures ok <==> DecodeManifest(encoded).Some?
    ensures result == if ok then DecodeManifest(encoded).value else into
  {
    if !encoded.Arr? {
      return false, into;
    }
    var root := encoded.items;
    if |root| < 3 || AsByte(root[0]) != MANIFEST_ENCODING_VERSION {
      return false, into;
    }
    var elements, items: seq<Json> := AsList(root[2]), [];
    for i := 0 to |elements|
      invariant items == DecodeSome(elements[..i], DecodeResource)
    {
      assert elements[..i + 1][..i] == elements[..i];
      var item := ReadResource(elements[i]);
      if item.Some? {
        items := items + [item.value];
      }
    }
    assert elements[..|elements|] == elements;
    ok := true;
    result := Obj(map["version" := Num(AsInteger(root[1], -0x8000_0000, INT32_MAX)), "resources" := Arr(items)]);
  }

  method ReadConsumedArguments(src: seq<Json>) returns (ok: bool, dst: seq<Json>)
    ensures DecodeAll(src, DecodeConsumedArgument) == When(ok, dst)
  {
    dst := [];
    for i := 0 to |src|
      invariant |dst| == i && forall k :: 0 <= k < i ==> DecodeConsumedArgument(src[k]) == Some(dst[k])
    {
      DecodeAllIs(src, DecodeConsumedArgument, dst);
      var argument := DecodeConsumedArgument(src[i]);
      if argument.None? {
        return false, dst;
      }
      dst := dst + [argument.value];
    }
    DecodeAllIs(src, DecodeConsumedArgument, dst);
    ok := true;
  }

  method ReadRemote(j: Json) returns (item: Option<Json>)
    ensures item == DecodeRemote(j)
  {
    var i := AsList(j);
    if |i| < 5 || !IsByte(i[0]) || !i[1].Str? || !i[2].Bool? || !i[3].Str? || !i[4].Str? {
      return None;
    }
    var kind := i[0].n;
    var fields: Fields := map["name" := i[1], "bound" := i[2], "device" := i[3], "resource" := i[4],
                              "kind" := Str(KindName(kind))];
    if kind == KIND_VALUE {
      if |i| < 7 || !IsByte(i[5]) || !IsByte(i[6]) {
        return None;
      }
      fields := fields["access" := Str(AccessName(i[5].n))];
      fields := fields["type" := Str(ValueTypeName(i[6].n))];
    } else if kind == KIND_ACTION {
      if |i| < 6 || !i[5].Arr? {
        return None;
      }
      var ok, list := ReadConsumedArguments(i[5].items);
      if !ok {
        return None;
      }
      fields := fields["arguments" := Arr(list)];
    } else if kind == KIND_EVENT {
      if |i| < 6 || !IsByte(i[5]) {
        return None;
      }
      fields := fields["type" := Str(ValueTypeName(i[5].n))];
    } else {
      return None;
    }
    item := Some(Obj(fields));
  }

  /** One malformed remote refuses the whole document; `into` is replaced only by one that decoded whole. */
  method DecodeConsumeManifestInto(encoded: Json, into: Json) returns (ok: bool, result: Json)
    ensures ok <==> DecodeConsumeManifest(encoded).Some?
    ensures result == if ok then DecodeConsumeManifest(encoded).value else into
  {
    if !encoded.Arr? {
      return false, into;
    }
    var root := encoded.items;
    if |root| < 3 || !IsByte(root[0]) || root[0].n != CONSUME_MANIFEST_ENCODING_VERSION || !IsByte(root[1]) || !root[2].Arr? {
      return false, into;
    }
    var elements, remotes: seq<Json> := root[2].items, [];
    for i := 0 to |elements|
      invariant |remotes| == i && forall k :: 0 <= k < i ==> DecodeRemote(elements[k]) == Some(remotes[k])
    {
      DecodeAllIs(elements, DecodeRemote, remotes);
      var item := ReadRemote(elements[i]);
      if item.None? {
        return false, into;
      }
      remotes := remotes + [item.value];
    }
    DecodeAllIs(elements, DecodeRemote, remotes);
    return true, Obj(map["version" := root[1], "remotes" := Arr(remotes)]);
  }
}
