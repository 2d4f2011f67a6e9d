/** The broker's filter set over whole runs, and the messages that reach the registry. */
module RegistryRuns {
  import opened Common
  import opened Resources
  import opened Registry

  // ----- handlers

  /** The registry after a handler is installed or cleared, for the readable or the compact manifests. */
  function WithHandler(r: Table, packed: bool, wanted: bool): Table {
    if packed then r.(packed := wanted) else r.(json := wanted)
  }

  function WithHandlerRequests(r: Table, packed: bool, wanted: bool): seq<Request> {
    if packed then HandlerRequests(r.packed, wanted, ALL_ENCODED_MANIFESTS)
    else HandlerRequests(r.json, wanted, ALL_MANIFESTS)
  }

  lemma {:induction false} WildcardsAreUnclaimed(e: Entry, device: string)
    ensures !Claims(e, device, ALL_MANIFESTS) && !Claims(e, device, ALL_ENCODED_MANIFESTS)
  {
    WildcardsAreForeign();
    assert ALL_MANIFESTS != "" && ALL_ENCODED_MANIFESTS != "";
    ClaimsOfOne(e, device, ALL_MANIFESTS);
    ClaimsOfOne(e, device, ALL_ENCODED_MANIFESTS);
  }

  lemma {:induction false} WildcardsDiffer()
    ensures ALL_MANIFESTS != ALL_ENCODED_MANIFESTS
  {
    assert ALL_MANIFESTS[11] == 'j' && ALL_ENCODED_MANIFESTS[11] == 'm';
  }

  lemma {:induction false} HandlerKeepsExact(r: Table, packed: bool, wanted: bool, filters: set<string>)
    requires Exact(r, filters)
    ensures Exact(WithHandler(r, packed, wanted), Applied(filters, WithHandlerRequests(r, packed, wanted)))
  {
    var w := WithHandler(r, packed, wanted);
    var filter := if packed then ALL_ENCODED_MANIFESTS else ALL_MANIFESTS;
    WildcardsDiffer();
    AppliedMaybe(filters, true, filter);
    forall i | 0 <= i < |r.entries| ensures !Claims(r.entries[i], r.device, filter) {
      WildcardsAreUnclaimed(r.entries[i], r.device);
    }
    forall f ensures f in Applied(filters, WithHandlerRequests(r, packed, wanted)) <==> NeedsSubscription(w, f) {
    }
  }

  // ----- reconnecting

  /** Starting from these filters, every request subscribes to one that has not been asked for yet. */
  predicate AskedOnce(filters: set<string>, requests: seq<Request>)
    decreases |requests|
  {
    requests == []
    || (requests[0].Subscribe? && requests[0].filter !in filters
        && AskedOnce(filters + {requests[0].filter}, requests[1..]))
  }

  lemma {:induction false} AskedInTurn(filters: set<string>, first: seq<Request>, second: seq<Request>)
    requires AskedOnce(filters, first) && AskedOnce(Applied(filters, first), second)
    ensures AskedOnce(filters, Then(first, second))
    decreases |first|
  {
    if first != [] && second != [] {
      assert (first + second)[1..] == Then(first[1..], second);
      AskedInTurn(filters + {first[0].filter}, first[1..], second);
    }
  }

  /** The registry as it was when only its first `n` resources were bound. */
  function Prefix(r: Table, n: nat): Table
    requires n <= |r.entries|
  {
    r.(entries := r.entries[..n])
  }

  /** Asking again for one entry is asking for it as if it were being bound after those before it. */
  lemma {:induction false} EntryIsBoundAgain(r: Table, i: nat)
    requires i < |r.entries|
    ensures EntryRequests(r, i) == BindRequests(Prefix(r, i), r.entries[i])
    ensures Prefix(r, i + 1) == Bound(Prefix(r, i), r.entries[i])
  {
    assert r.entries[..i + 1] == r.entries[..i] + [r.entries[i]];
  }

  lemma {:induction false} EntryAsksOnce(r: Table, i: nat, filters: set<string>)
    requires Valid(r) && i < |r.entries| && ExactUpTo(r, i, filters)
    ensures AskedOnce(filters, EntryRequests(r, i))
  {
    var p, e := Prefix(r, i), r.entries[i];
    EntryIsBoundAgain(r, i);
    var manifest, ingress := ManifestTopic(e.owner, MsgPack), Ingress(e, r.device);
    if Resolved(e, r.device) {
      var owner, name := Owner(e, r.device), AddressName(e);
      assert forall j :: 0 <= j < i ==> !HasAddress(r.entries[j], r.device, owner, name);
      assert !AddressTaken(p, owner, name, -1);
      IngressIsOwn(p, -1, e, owner, name);
      assert ingress != "" ==> (OthersNeed(p, -1, ingress) <==> NeedsSubscription(p, ingress));
      ManifestIsShared(p, -1, owner);
      assert OthersNeed(p, -1, ManifestTopic(owner, MsgPack)) <==> NeedsSubscription(p, ManifestTopic(owner, MsgPack));
      IngressIsNoManifest(e, owner, name, owner);
    }
    var first := Follows(e, r.device, e.owner) && !OwnerInUse(p.entries, r.device, e.owner, -1);
    AskedMaybe(filters, first, manifest);
    AppliedMaybe(filters, first, manifest);
    AskedMaybe(if first then filters + {manifest} else filters, ingress != "", ingress);
    AskedInTurn(filters, Maybe(first, Subscribe(manifest)), Maybe(ingress != "", Subscribe(ingress)));
  }

  lemma {:induction false} AskedMaybe(filters: set<string>, wanted: bool, f: string)
    requires wanted ==> f !in filters
    ensures AskedOnce(filters, Maybe(wanted, Subscribe(f)))
  {
    assert [Subscribe(f)][1..] == [];
  }

  /** The registry needs exactly these filters when only its first `n` resources count. */
  ghost predicate ExactUpTo(r: Table, n: nat, filters: set<string>)
    requires n <= |r.entries|
  {
    Exact(Prefix(r, n), filters)
  }

  lemma {:induction false} NextEntryIsExact(r: Table, n: nat, before: set<string>, after: set<string>)
    requires 0 < n <= |r.entries| && ExactUpTo(r, n - 1, before)
    requires after == Applied(before, EntryRequests(r, n - 1))
    ensures ExactUpTo(r, n, after)
  {
    EntryIsBoundAgain(r, n - 1);
    var p, e := Prefix(r, n - 1), r.entries[n - 1];
    BoundIsExact(p, e, before, after, Prefix(r, n));
  }

  lemma {:induction false} BoundIsExact(r: Table, e: Entry, before: set<string>, after: set<string>, b: Table)
    requires Exact(r, before) && b == Bound(r, e) && after == Applied(before, BindRequests(r, e))
    ensures Exact(b, after)
  {
    BindKeepsExact(r, e, before);
  }

  lemma {:induction false} EntriesInTurn(r: Table, n: nat, filters: set<string>)
    requires 0 < n <= |r.entries|
    ensures Applied(filters, EntriesRequests(r, n)) ==
            Applied(Applied(filters, EntriesRequests(r, n - 1)), EntryRequests(r, n - 1))
  {
    AppliedInTurn(filters, EntriesRequests(r, n - 1), EntryRequests(r, n - 1));
  }

  lemma {:induction false} EntriesAskInTurn(r: Table, n: nat, filters: set<string>)
    requires 0 < n <= |r.entries| && AskedOnce(filters, EntriesRequests(r, n - 1))
    requires AskedOnce(Applied(filters, EntriesRequests(r, n - 1)), EntryRequests(r, n - 1))
    ensures AskedOnce(filters, EntriesRequests(r, n))
  {
    AskedInTurn(filters, EntriesRequests(r, n - 1), EntryRequests(r, n - 1));
  }

  lemma {:induction false} EntriesAreExact(r: Table, n: nat, filters: set<string>) returns (after: set<string>)
    requires n <= |r.entries| && ExactUpTo(r, 0, filters)
    ensures ExactUpTo(r, n, after)
    ensures after == Applied(filters, EntriesRequests(r, n))
  {
    after := Applied(filters, EntriesRequests(r, n));
    if n == 0 {
      assert after == filters;
    } else {
      var before := EntriesAreExact(r, n - 1, filters);
      EntriesInTurn(r, n, filters);
      NextEntryIsExact(r, n, before, after);
    }
  }

  lemma {:induction false} EntriesAskOnce(r: Table, n: nat, filters: set<string>)
    requires Valid(r) && n <= |r.entries| && ExactUpTo(r, 0, filters)
    ensures AskedOnce(filters, EntriesRequests(r, n))
  {
    if n > 0 {
      EntriesAskOnce(r, n - 1, filters);
      NextEntryAsksOnce(r, n, filters);
      EntriesAskInTurn(r, n, filters);
    }
  }

  lemma {:induction false} NextEntryAsksOnce(r: Table, n: nat, filters: set<string>)
    requires Valid(r) && 0 < n <= |r.entries| && ExactUpTo(r, 0, filters)
    ensures AskedOnce(Applied(filters, EntriesRequests(r, n - 1)), EntryRequests(r, n - 1))
  {
    var before := EntriesAreExact(r, n - 1, filters);
    EntryAsksOnce(r, n - 1, before);
  }

  lemma {:induction false} HandlersAskOnce(r: Table)
    ensures AskedOnce({}, HandlersRequests(r)) && ExactUpTo(r, 0, Applied({}, HandlersRequests(r)))
  {
    var one: set<string> := if r.json then {ALL_MANIFESTS} else {};
    WildcardsDiffer();
    AskedMaybe({}, r.json, ALL_MANIFESTS);
    AppliedMaybe({}, r.json, ALL_MANIFESTS);
    AskedMaybe(one, r.packed, ALL_ENCODED_MANIFESTS);
    AppliedMaybe(one, r.packed, ALL_ENCODED_MANIFESTS);
    var json, packed := Maybe(r.json, Subscribe(ALL_MANIFESTS)), Maybe(r.packed, Subscribe(ALL_ENCODED_MANIFESTS));
    AskedInTurn({}, json, packed);
    AppliedInTurn({}, json, packed);
  }

  /** After a reconnect every needed filter is asked for exactly once, each owner's manifest among them, and no other. */
  lemma {:induction false} SubscribeAllIsExact(r: Table)
    requires Valid(r)
    ensures Exact(r, Applied({}, SubscribeAllRequests(r)))
    ensures AskedOnce({}, SubscribeAllRequests(r))
  {
    HandlersAskOnce(r);
    var handlers := Applied({}, HandlersRequests(r));
    var all := EntriesAreExact(r, |r.entries|, handlers);
    EntriesAskOnce(r, |r.entries|, handlers);
    AskedInTurn({}, HandlersRequests(r), EntriesRequests(r, |r.entries|));
    AppliedInTurn({}, HandlersRequests(r), EntriesRequests(r, |r.entries|));
    assert Prefix(r, |r.entries|) == r;
  }

  // ----- runs

  /** What can happen to the manager. A source change names its resource by position in binding order. */
  datatype Step =
    | Bind(entry: Entry, settings: bool)
    | Unbind(index: nat)
    | Configure(index: nat, owner: string, source: string, saved: bool)
    | Handler(packed: bool, wanted: bool)
    | Disconnect
    | Reconnect

  /** The registry beside the broker's filters; there are none while disconnected. */
  datatype World = World(registry: Table, filters: Option<set<string>>)

  /** Requests reach the broker only while connected. */
  function Sent(filters: Option<set<string>>, requests: seq<Request>): Option<set<string>> {
    if filters.None? then None else Some(Applied(filters.value, requests))
  }

  function After(w: World, s: Step): World {
    var r := w.registry;
    match s
    case Bind(e, settings) =>
      if Declared(e) && Accepts(r, e, settings) then World(Bound(r, e), Sent(w.filters, BindRequests(r, e))) else w
    case Unbind(i) =>
      if i < |r.entries| then World(Unbound(r, i), Sent(w.filters, UnbindRequests(r, i))) else w
    case Configure(i, owner, source, saved) =>
      if i < |r.entries|
      then World(Configured(r, i, owner, source, saved).0,
                 Sent(w.filters, ConfigureRequests(r, i, owner, source, saved)))
      else w
    case Handler(packed, wanted) =>
      World(WithHandler(r, packed, wanted), Sent(w.filters, WithHandlerRequests(r, packed, wanted)))
    case Disconnect => World(r, None)
    case Reconnect => World(r, Some(Applied({}, SubscribeAllRequests(r))))
  }

  /** One entry retargeted and the broker told, without regard to whether the change is kept. */
  function Moved(w: World, i: nat, owner: string, source: string): World
    requires i < |w.registry.entries|
  {
    var e, n := w.registry.entries[i], Retargeted(w.registry, i, owner, source);
    World(n, Sent(w.filters, NotifyRequests(n, i, e.owner, e.source)))
  }

  /** A change of source is one move, or a move there and a move back. */
  lemma {:induction false} ConfiguringIsMoving(w: World, i: nat, owner: string, source: string, saved: bool)
    requires i < |w.registry.entries| && MayPoint(w.registry, w.registry.entries[i], i, owner, source)
    requires !(w.registry.entries[i].owner == owner && w.registry.entries[i].source == source)
    ensures var e, there := w.registry.entries[i], Moved(w, i, owner, source);
            After(w, Configure(i, owner, source, saved)) ==
            if saved then there else Moved(there, i, e.owner, e.source)
  {
    var e, n := w.registry.entries[i], Retargeted(w.registry, i, owner, source);
    ComesBack(w.registry, i, owner, source);
    if w.filters.Some? {
      AppliedInTurn(w.filters.value, NotifyRequests(n, i, e.owner, e.source), NotifyRequests(w.registry, i, owner, source));
    }
  }

  ghost predicate InStep(w: World) {
    Valid(w.registry) && (w.filters.Some? ==> Exact(w.registry, w.filters.value))
  }

  lemma {:induction false} BindKeepsInStep(w: World, e: Entry, settings: bool)
    requires InStep(w)
    ensures InStep(After(w, Bind(e, settings)))
  {
    if Declared(e) && Accepts(w.registry, e, settings) {
      BindKeepsValid(w.registry, e, settings);
      if w.filters.Some? {
        BindKeepsExact(w.registry, e, w.filters.value);
      }
    }
  }

  lemma {:induction false} UnbindKeepsInStep(w: World, i: nat)
    requires InStep(w)
    ensures InStep(After(w, Unbind(i)))
  {
    if i < |w.registry.entries| {
      UnbindKeepsValid(w.registry, i);
      if w.filters.Some? {
        UnbindKeepsExact(w.registry, i, w.filters.value);
      }
    }
  }

  lemma {:induction false} ConfigureKeepsInStep(w: World, i: nat, owner: string, source: string, saved: bool)
    requires InStep(w)
    ensures InStep(After(w, Configure(i, owner, source, saved)))
  {
    var r := w.registry;
    if i < |r.entries| {
      if w.filters.Some? {
        ConfigureKeepsExact(r, i, owner, source, saved, w.filters.value);
      } else if MayPoint(r, r.entries[i], i, owner, source) {
        RetargetKeepsValid(r, i, owner, source);
      }
    }
  }

  lemma {:induction false} StepKeepsInStep(w: World, s: Step)
    requires InStep(w)
    ensures InStep(After(w, s))
  {
    match s
    case Bind(e, settings) => BindKeepsInStep(w, e, settings);
    case Unbind(i) => UnbindKeepsInStep(w, i);
    case Configure(i, owner, source, saved) => ConfigureKeepsInStep(w, i, owner, source, saved);
    case Handler(packed, wanted) =>
      if w.filters.Some? {
        HandlerKeepsExact(w.registry, packed, wanted, w.filters.value);
      }
    case Disconnect =>
    case Reconnect => SubscribeAllIsExact(w.registry);
  }

  function Ran(w: World, steps: seq<Step>): World {
    if steps == [] then w else After(Ran(w, steps[..|steps| - 1]), steps[|steps| - 1])
  }

  /** Over every run from an empty registry, whenever the device is connected the broker's filter set is exactly
      what `NeedsSubscription` says. */
  lemma {:induction false} BrokerMatchesRegistry(device: string, steps: seq<Step>)
    ensures InStep(Ran(World(Table(device, [], false, false), None), steps))
  {
    if steps != [] {
      BrokerMatchesRegistry(device, steps[..|steps| - 1]);
      StepKeepsInStep(Ran(World(Table(device, [], false, false), None), steps[..|steps| - 1]), steps[|steps| - 1]);
    }
  }

  // ----- incoming messages

  datatype Dispatch =
    | NotOurs
    | ReadableManifest(device: string)
    | EncodedManifest(device: string)
    | ToResource(index: nat, operation: Operation)
    | RetainedEvent(index: nat)

  function FindResource(r: Table, owner: string, name: string, from: nat): (found: Option<nat>)
    requires from <= |r.entries|
    ensures found.Some? ==> from <= found.value < |r.entries| && HasAddress(r.entries[found.value], r.device, owner, name)
    ensures found.None? ==> forall i :: from <= i < |r.entries| ==> !HasAddress(r.entries[i], r.device, owner, name)
    decreases |r.entries| - from
  {
    if from == |r.entries| then None
    else if HasAddress(r.entries[from], r.device, owner, name) then Some(from)
    else FindResource(r, owner, name, from + 1)
  }

  /** Where a message goes; an event the broker replays is consumed without being delivered. */
  function Route(r: Table, topic: string, retained: bool): Dispatch {
    match ParseTopic(topic)
    case Foreign => NotOurs
    case Manifest(device, JsonFormat) =>
      if !r.json || device == r.device then NotOurs else ReadableManifest(device)
    case Manifest(device, MsgPack) =>
      if device == r.device || (!OwnerInUse(r.entries, r.device, device, -1) && !r.packed) then NotOurs
      else EncodedManifest(device)
    case Resource(device, name, operation) =>
      var found := FindResource(r, device, name, 0);
      if found.None? then NotOurs else RouteTo(r.entries[found.value], found.value, operation, retained)
  }

  function RouteTo(e: Entry, index: nat, operation: string, retained: bool): Dispatch {
    if operation == "state" && e.shape.Value? && !e.managed then ToResource(index, State)
    else if operation == "event" && e.shape.Event? && !e.managed then
      if retained then RetainedEvent(index) else ToResource(index, Occurrence)
    else if operation == "set" && e.shape.Value? && e.managed then ToResource(index, Set)
    else if operation == "invoke" && e.shape.Action? && e.managed then ToResource(index, Invoke)
    else NotOurs
  }

  /** A topic printed for a bound resource's address leads to that resource. */
  lemma {:induction false} AddressReachesItsResource(r: Table, i: nat, op: Operation, retained: bool)
    requires Valid(r) && i < |r.entries| && Resolved(r.entries[i], r.device)
    ensures var e := r.entries[i];
            Route(r, ResourceTopic(Owner(e, r.device), AddressName(e), op), retained) == RouteTo(e, i, Suffix(op), retained)
  {
    var e := r.entries[i];
    ParsePrintedTopic(Owner(e, r.device), AddressName(e), op);
    var found := FindResource(r, Owner(e, r.device), AddressName(e), 0);
    assert HasAddress(e, r.device, Owner(e, r.device), AddressName(e));
    AddressIsOwn(r, i);
    assert found == Some(i);
  }

  lemma {:induction false} RouteToIngress(e: Entry, i: nat, retained: bool)
    requires IngressOperation(e).Some?
    ensures RouteTo(e, i, Suffix(IngressOperation(e).value), retained) ==
            if e.shape.Event? && retained then RetainedEvent(i) else ToResource(i, IngressOperation(e).value)
  {
    OperationsReadBack(IngressOperation(e).value);
  }

  /** A message on a bound resource's ingress topic goes to that resource, and to no other; an event that the broker
      replays is consumed without being delivered. */
  lemma {:induction false} IngressReachesItsResource(r: Table, i: nat, retained: bool)
    requires Valid(r) && i < |r.entries| && Ingress(r.entries[i], r.device) != ""
    ensures var e := r.entries[i];
            Route(r, Ingress(e, r.device), retained) ==
            if e.shape.Event? && retained then RetainedEvent(i) else ToResource(i, IngressOperation(e).value)
  {
    AddressReachesItsResource(r, i, IngressOperation(r.entries[i]).value, retained);
    RouteToIngress(r.entries[i], i, retained);
  }

  lemma {:induction false} OperationsReadBack(op: Operation)
    ensures Suffix(op) == "state" <==> op == State
    ensures Suffix(op) == "set" <==> op == Set
    ensures Suffix(op) == "invoke" <==> op == Invoke
    ensures Suffix(op) == "event" <==> op == Occurrence
  {
    SuffixesDiffer(op, State);
    SuffixesDiffer(op, Set);
    SuffixesDiffer(op, Invoke);
    SuffixesDiffer(op, Occurrence);
  }

  /** Whatever reaches a resource with an operation came in on the topic printed for the two. It is the resource's own
      ingress topic, but for a write to a value that may only be read, which is dispatched to be refused. */
  lemma {:induction false} DispatchedTopicIsPrinted(r: Table, topic: string, retained: bool)
    requires Route(r, topic, retained).ToResource?
    ensures var d := Route(r, topic, retained);
            && d.index < |r.entries|
            && var e := r.entries[d.index];
               && topic == ResourceTopic(Owner(e, r.device), AddressName(e), d.operation)
               && (topic == Ingress(e, r.device) <==>
                   !(e.managed && e.shape.Value? && e.shape.access != READ_WRITE))
  {
    var p := ParseTopic(topic);
    PrintParsedTopic(topic);
    var found := FindResource(r, p.device, p.name, 0);
    RouteToMeans(r.entries[found.value], found.value, p.operation, retained);
    assert topic != "";
  }

  lemma {:induction false} RouteToMeans(e: Entry, i: nat, operation: string, retained: bool)
    requires RouteTo(e, i, operation, retained).ToResource?
    ensures var d := RouteTo(e, i, operation, retained);
            && d.index == i && Suffix(d.operation) == operation
            && IngressOperation(e) == if e.managed && e.shape.Value? && e.shape.access != READ_WRITE then None
                                      else Some(d.operation)
  {
  }
}
