/** Declared resources and the topics they print and read. */
module Resources {
  import opened Common

  // ----- declarations

  const KIND_VALUE: uint8 := 0
  const KIND_ACTION: uint8 := 1
  const KIND_EVENT: uint8 := 2
  const READ_WRITE: uint8 := 1
  const REPORT_HW_CONNECTION: uint8 := 1

  datatype Argument = Argument(name: CStr, argumentType: uint8, required: bool)

  datatype Hardware = Hardware(pollMs: int32, flags: uint8, connected: bool, note: string)

  /** What a resource is, apart from its name and where it lives. `access` is 0 for READ, 1 for READ_WRITE. */
  datatype Shape =
    | Value(access: uint8, valueType: uint8, dependsOn: Option<string>, advertiseMs: int32, hardware: Option<Hardware>)
    | Action(arguments: seq<Argument>)
    | Event(payloadType: uint8)

  /** A resource as declared. A managed one is implemented here and has no owner or source of its own. */
  datatype Entry = Entry(name: string, managed: bool, shape: Shape, owner: string, source: string)

  /** What every constructor establishes and every retargeting keeps. */
  predicate Declared(e: Entry) {
    && (e.managed ==> e.owner == "" && e.source == "")
    && (ValidSegment(e.name) ==> (e.owner == "" <==> e.source == ""))
  }

  function Owner(e: Entry, device: string): string {
    if e.managed then device else e.owner
  }

  function AddressName(e: Entry): string {
    if e.managed then e.name else e.source
  }

  predicate SourceConfigured(e: Entry) {
    e.managed || (e.owner != "" && e.source != "")
  }

  predicate Resolved(e: Entry, device: string) {
    ValidName(Owner(e, device)) && ValidSegment(AddressName(e))
  }

  predicate ValidSchema(arguments: seq<Argument>) {
    && (forall i :: 0 <= i < |arguments| ==> arguments[i].name.Some? && ValidSegment(arguments[i].name.value))
    && (forall i, j :: 0 <= i < j < |arguments| ==> arguments[i].name != arguments[j].name)
  }

  // ----- topics

  datatype Format = JsonFormat | MsgPack

  datatype Operation = State | Set | Invoke | Occurrence

  function Suffix(op: Operation): string {
    match op
    case State => "state"
    case Set => "set"
    case Invoke => "invoke"
    case Occurrence => "event"
  }

  function ResourceTopic(device: string, name: string, op: Operation): string {
    device + "/resource/" + name + "/" + Suffix(op)
  }

  function ManifestTopic(device: string, format: Format): string {
    device + "/manifest/" + (if format == JsonFormat then "json" else "msgpack")
  }

  /** What a topic says before the registry is consulted. */
  datatype Parsed =
    | Foreign
    | Manifest(device: string, format: Format)
    | Resource(device: string, name: string, operation: string)

  function ParseTopic(topic: string): Parsed {
    var slash := IndexFrom(topic, '/', 0);
    if slash == 0 || slash == |topic| || !ValidName(topic[..slash]) then Foreign
    else ParsePath(topic[..slash], topic[slash + 1..])
  }

  function ParsePath(device: string, path: string): Parsed {
    if path == "manifest/json" then Manifest(device, JsonFormat)
    else if path == "manifest/msgpack" then Manifest(device, MsgPack)
    else if !("resource/" <= path) then Foreign
    else ParseTail(device, path[|"resource/"|..])
  }

  function ParseTail(device: string, tail: string): Parsed {
    var slash := IndexFrom(tail, '/', 0);
    if slash == 0 || slash == |tail| || !ValidSegment(tail[..slash]) || '/' in tail[slash + 1..] then Foreign
    else Resource(device, tail[..slash], tail[slash + 1..])
  }

  lemma {:induction false} SplitAtSlash(head: string, rest: string)
    requires '/' !in head
    ensures IndexFrom(head + "/" + rest, '/', 0) == |head|
    ensures (head + "/" + rest)[..|head|] == head && (head + "/" + rest)[|head| + 1..] == rest
  {
    IndexAfter(head, '/', rest);
    assert head + ['/'] + rest == head + "/" + rest;
  }

  lemma {:induction false} TopicSplits(device: string, name: string, operation: string)
    ensures device + "/resource/" + name + "/" + operation == device + "/" + ("resource/" + (name + "/" + operation))
  {
    assert device + "/resource/" == device + "/" + "resource/";
  }

  lemma {:induction false} ParsePrintedPath(device: string, tail: string)
    ensures ParsePath(device, "resource/" + tail) == ParseTail(device, tail)
  {
    var path := "resource/" + tail;
    assert path[0] == 'r' && "manifest/json"[0] == 'm' && "manifest/msgpack"[0] == 'm';
    assert path[|"resource/"|..] == tail;
  }

  lemma {:induction false} ParsePrintedStart(device: string, path: string)
    requires ValidName(device)
    ensures ParseTopic(device + "/" + path) == ParsePath(device, path)
  {
    SplitAtSlash(device, path);
  }

  lemma {:induction false} ParsePrintedTail(device: string, name: string, op: Operation)
    requires ValidSegment(name)
    ensures ParseTail(device, name + "/" + Suffix(op)) == Resource(device, name, Suffix(op))
  {
    SplitAtSlash(name, Suffix(op));
  }

  /** Reading a printed topic gives back its parts. */
  lemma {:induction false} ParsePrintedTopic(device: string, name: string, op: Operation)
    requires ValidName(device) && ValidSegment(name)
    ensures ParseTopic(ResourceTopic(device, name, op)) == Resource(device, name, Suffix(op))
  {
    var tail := name + "/" + Suffix(op);
    TopicSplits(device, name, Suffix(op));
    ParsePrintedPath(device, tail);
    ParsePrintedTail(device, name, op);
    ParsePrintedStart(device, "resource/" + tail);
  }

  /** Whatever reads as a resource topic is the topic printed from its parts. */
  lemma {:induction false} PrintParsedTopic(topic: string)
    requires ParseTopic(topic).Resource?
    ensures var p := ParseTopic(topic);
            && ValidName(p.device) && ValidSegment(p.name) && '/' !in p.operation
            && topic == p.device + "/resource/" + p.name + "/" + p.operation
  {
    var slash := IndexFrom(topic, '/', 0);
    var device, path := topic[..slash], topic[slash + 1..];
    var tail := path[|"resource/"|..];
    var final := IndexFrom(tail, '/', 0);
    assert topic == device + "/" + path;
    assert path == "resource/" + tail;
    assert tail == tail[..final] + "/" + tail[final + 1..];
    TopicSplits(device, tail[..final], tail[final + 1..]);
  }

  lemma {:induction false} ParseManifestTopic(device: string, format: Format)
    requires ValidName(device)
    ensures ParseTopic(ManifestTopic(device, format)) == Manifest(device, format)
  {
    var path := if format == JsonFormat then "manifest/json" else "manifest/msgpack";
    assert ManifestTopic(device, format) == device + "/" + path;
    ParsePrintedStart(device, path);
    assert "manifest/json"[9] == 'j' && "manifest/msgpack"[9] == 'm';
  }

  /** No two addresses, operations or documents share a topic, and none of them is a wildcard filter. */
  lemma {:induction false} TopicsAreDistinct(d: string, n: string, op: Operation, d': string, n': string,
                                             op': Operation, f: Format)
    requires ValidName(d) && ValidSegment(n) && ValidName(d') && ValidSegment(n')
    ensures ResourceTopic(d, n, op) == ResourceTopic(d', n', op') ==> d == d' && n == n' && op == op'
    ensures ResourceTopic(d, n, op) != ManifestTopic(d', f)
    ensures ManifestTopic(d, f) == ManifestTopic(d', f) ==> d == d'
    ensures ResourceTopic(d, n, op)[0] != '+' && ManifestTopic(d, f)[0] != '+'
  {
    ParsePrintedTopic(d, n, op);
    ParsePrintedTopic(d', n', op');
    ParseManifestTopic(d, f);
    ParseManifestTopic(d', f);
    SuffixesDiffer(op, op');
  }

  lemma {:induction false} SuffixesDiffer(op: Operation, op': Operation)
    ensures Suffix(op) == Suffix(op') ==> op == op'
  {
    assert "state"[1] == 't' && "set"[1] == 'e' && "invoke"[1] == 'n' && "event"[1] == 'v';
  }

  // ----- the one topic a resource listens to

  /** The ingress topic of a resource at the given address; empty when it listens to none. */
  function IngressAt(e: Entry, owner: string, name: string): string {
    if !ValidName(owner) || !ValidSegment(name) then ""
    else match IngressOperation(e) case None => "" case Some(op) => ResourceTopic(owner, name, op)
  }

  function IngressOperation(e: Entry): Option<Operation> {
    match e.shape
    case Value(access, _, _, _, _) =>
      if !e.managed then Some(State) else if access == READ_WRITE then Some(Set) else None
    case Event(_) => if e.managed then None else Some(Occurrence)
    case Action(_) => if e.managed then Some(Invoke) else None
  }

  function Ingress(e: Entry, device: string): string {
    IngressAt(e, Owner(e, device), AddressName(e))
  }
}
