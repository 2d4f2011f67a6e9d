/** The resource registry as a value: what each operation does to it, and what it asks of the broker. */
module Registry {
  import opened Common
  import opened Resources

  const MAX_RESOURCES := 100
  const ALL_MANIFESTS := "+/manifest/json"
  const ALL_ENCODED_MANIFESTS := "+/manifest/msgpack"

  /** The bound resources in binding order, and which of the two manifest handlers are installed. */
  datatype Table = Table(device: string, entries: seq<Entry>, json: bool, packed: bool)

  datatype Request = Subscribe(filter: string) | Unsubscribe(filter: string)

  /** The broker's filters after it has accepted these requests in order. */
  function Applied(filters: set<string>, requests: seq<Request>): set<string>
    decreases |requests|
  {
    if requests == [] then filters
    else
      match requests[0]
      case Subscribe(f) => Applied(filters + {f}, requests[1..])
      case Unsubscribe(f) => Applied(filters - {f}, requests[1..])
  }

  function Maybe(wanted: bool, request: Request): seq<Request> {
    if wanted then [request] else []
  }

  /** One list of requests after another. */
  function Then(first: seq<Request>, second: seq<Request>): seq<Request> {
    if first == [] then second else if second == [] then first else first + second
  }

  // ----- looking things up

  predicate NameTaken(entries: seq<Entry>, name: string) {
    exists i :: 0 <= i < |entries| && entries[i].name == name
  }

  predicate HasAddress(e: Entry, device: string, owner: string, name: string) {
    Owner(e, device) == owner && AddressName(e) == name
  }

  /** Some entry other than number `self` lives at this address. */
  predicate AddressTaken(r: Table, owner: string, name: string, self: int) {
    exists i :: 0 <= i < |r.entries| && i != self && HasAddress(r.entries[i], r.device, owner, name)
  }

  /** A remote entry with a usable source. */
  predicate Follows(e: Entry, device: string, owner: string) {
    !e.managed && Resolved(e, device) && e.owner == owner
  }

  predicate OwnerInUse(entries: seq<Entry>, device: string, owner: string, exclude: int) {
    exists i :: 0 <= i < |entries| && i != exclude && Follows(entries[i], device, owner)
  }

  // ----- which filters the registry needs

  predicate Claims(e: Entry, device: string, filter: string) {
    Ingress(e, device) == filter || (Follows(e, device, e.owner) && ManifestTopic(e.owner, MsgPack) == filter)
  }

  predicate HandlerClaims(r: Table, filter: string) {
    (r.json && filter == ALL_MANIFESTS) || (r.packed && filter == ALL_ENCODED_MANIFESTS)
  }

  predicate NeedsSubscription(r: Table, filter: string) {
    filter != "" && (HandlerClaims(r, filter) || exists i :: 0 <= i < |r.entries| && Claims(r.entries[i], r.device, filter))
  }

  /** The broker holds exactly the filters the registry needs. */
  ghost predicate Exact(r: Table, filters: set<string>) {
    forall f :: f in filters <==> NeedsSubscription(r, f)
  }

  /** A remote entry points nowhere, or at a usable address of another device. */
  predicate Placed(e: Entry, device: string) {
    if e.managed then ValidName(device)
    else (e.owner == "" && e.source == "") || (Resolved(e, device) && e.owner != device)
  }

  /** An action's arguments have distinct, usable names. */
  predicate Described(e: Entry) {
    e.shape.Action? ==> ValidSchema(e.shape.arguments)
  }

  ghost predicate Valid(r: Table) {
    && |r.entries| <= MAX_RESOURCES
    && (forall i :: 0 <= i < |r.entries| ==> Declared(r.entries[i]) && ValidSegment(r.entries[i].name)
                                             && Placed(r.entries[i], r.device) && Described(r.entries[i]))
    && (forall i, j :: 0 <= i < |r.entries| && 0 <= j < |r.entries| && i != j ==> r.entries[i].name != r.entries[j].name)
    && (forall i, j :: 0 <= i < |r.entries| && 0 <= j < |r.entries| && i != j && Resolved(r.entries[i], r.device) ==>
          !HasAddress(r.entries[j], r.device, Owner(r.entries[i], r.device), AddressName(r.entries[i])))
  }

  // ----- the operations

  function SubscribeRequests(e: Entry, device: string, includeManifest: bool): seq<Request> {
    Then(Maybe(includeManifest && Follows(e, device, e.owner), Subscribe(ManifestTopic(e.owner, MsgPack))),
         Maybe(Ingress(e, device) != "", Subscribe(Ingress(e, device))))
  }

  function UnsubscribeRequests(e: Entry, device: string, removeManifest: bool): seq<Request> {
    Then(Maybe(Ingress(e, device) != "", Unsubscribe(Ingress(e, device))),
         Maybe(removeManifest && Follows(e, device, e.owner), Unsubscribe(ManifestTopic(e.owner, MsgPack))))
  }

  /** Whether a resource may be bound; `settings` is whether its stored settings could be restored. */
  predicate Accepts(r: Table, e: Entry, settings: bool) {
    && |r.entries| < MAX_RESOURCES
    && Described(e) && ValidSegment(e.name) && !NameTaken(r.entries, e.name)
    && (if e.managed then ValidName(r.device)
        else !SourceConfigured(e) || (Resolved(e, r.device) && e.owner != r.device))
    && !(Resolved(e, r.device) && AddressTaken(r, Owner(e, r.device), AddressName(e), -1))
    && (e.managed && e.shape.Value? ==> settings)
  }

  function Bound(r: Table, e: Entry): Table {
    r.(entries := r.entries + [e])
  }

  function BindRequests(r: Table, e: Entry): seq<Request> {
    SubscribeRequests(e, r.device, Follows(e, r.device, e.owner) && !OwnerInUse(r.entries, r.device, e.owner, -1))
  }

  function Unbound(r: Table, i: nat): Table
    requires i < |r.entries|
  {
    r.(entries := r.entries[..i] + r.entries[i + 1..])
  }

  function UnbindRequests(r: Table, i: nat): seq<Request>
    requires i < |r.entries|
  {
    UnsubscribeRequests(r.entries[i], r.device,
                        !OwnerInUse(Unbound(r, i).entries, r.device, r.entries[i].owner, -1))
  }

  function PointedAt(e: Entry, owner: string, source: string): Entry {
    e.(owner := owner, source := source)
  }

  function Retargeted(r: Table, i: nat, owner: string, source: string): Table
    requires i < |r.entries|
  {
    r.(entries := r.entries[i := PointedAt(r.entries[i], owner, source)])
  }

  /** What leaving the old address takes from the broker, once entry `i` carries its new one. */
  function LeaveRequests(r: Table, i: nat, oldOwner: string, oldName: string): seq<Request>
    requires i < |r.entries|
  {
    var left := IngressAt(r.entries[i], oldOwner, oldName);
    Then(Maybe(left != "", Unsubscribe(left)),
         Maybe(oldOwner != r.entries[i].owner && ValidName(oldOwner) && !OwnerInUse(r.entries, r.device, oldOwner, -1),
               Unsubscribe(ManifestTopic(oldOwner, MsgPack))))
  }

  /** What arriving at the new one adds. */
  function ArriveRequests(r: Table, i: nat, oldOwner: string): seq<Request>
    requires i < |r.entries|
  {
    var e := r.entries[i];
    if !SourceConfigured(e) then []
    else Then(Maybe(oldOwner != e.owner && !OwnerInUse(r.entries, r.device, e.owner, i),
                    Subscribe(ManifestTopic(e.owner, MsgPack))),
              Maybe(Ingress(e, r.device) != "", Subscribe(Ingress(e, r.device))))
  }

  /** The requests after entry `i` of `r` was moved away from its old owner and name. */
  function NotifyRequests(r: Table, i: nat, oldOwner: string, oldName: string): seq<Request>
    requires i < |r.entries|
  {
    Then(LeaveRequests(r, i, oldOwner, oldName), ArriveRequests(r, i, oldOwner))
  }

  /** Whether a remote entry may be pointed at this address, or cleared. */
  predicate MayPoint(r: Table, e: Entry, self: int, owner: string, source: string) {
    && !e.managed && ValidSegment(e.name)
    && ((owner == "" && source == "")
        || (ValidName(owner) && ValidSegment(source) && owner != r.device && !AddressTaken(r, owner, source, self)))
  }

  /** A change of source whose record could (`saved`) or could not be persisted; the latter goes back. */
  function Configured(r: Table, i: nat, owner: string, source: string, saved: bool): (Table, bool)
    requires i < |r.entries|
  {
    var e := r.entries[i];
    if !MayPoint(r, e, i, owner, source) then (r, false)
    else if e.owner == owner && e.source == source then (r, saved)
    else (if saved then Retargeted(r, i, owner, source) else r, saved)
  }

  function ConfigureRequests(r: Table, i: nat, owner: string, source: string, saved: bool): seq<Request>
    requires i < |r.entries|
  {
    var e := r.entries[i];
    if !MayPoint(r, e, i, owner, source) || (e.owner == owner && e.source == source) then []
    else
      Then(NotifyRequests(Retargeted(r, i, owner, source), i, e.owner, e.source),
           if saved then [] else NotifyRequests(r, i, owner, source))
  }

  function HandlerRequests(had: bool, wanted: bool, filter: string): seq<Request> {
    if had == wanted then [] else if wanted then [Subscribe(filter)] else [Unsubscribe(filter)]
  }

  /** The first entry that follows its owner is the one that asks for that owner's manifest. */
  predicate FirstOfOwner(r: Table, i: nat)
    requires i < |r.entries|
  {
    var e := r.entries[i];
    Follows(e, r.device, e.owner) && !OwnerInUse(r.entries[..i], r.device, e.owner, -1)
  }

  function EntryRequests(r: Table, i: nat): seq<Request>
    requires i < |r.entries|
  {
    SubscribeRequests(r.entries[i], r.device, FirstOfOwner(r, i))
  }

  function EntriesRequests(r: Table, n: nat): seq<Request>
    requires n <= |r.entries|
  {
    if n == 0 then [] else Then(EntriesRequests(r, n - 1), EntryRequests(r, n - 1))
  }

  function HandlersRequests(r: Table): seq<Request> {
    Then(Maybe(r.json, Subscribe(ALL_MANIFESTS)), Maybe(r.packed, Subscribe(ALL_ENCODED_MANIFESTS)))
  }

  /** Everything asked for after a reconnect. */
  function SubscribeAllRequests(r: Table): seq<Request> {
    Then(HandlersRequests(r), EntriesRequests(r, |r.entries|))
  }

  // ----- what one request does

  lemma {:induction false} AppliedInTurn(filters: set<string>, first: seq<Request>, second: seq<Request>)
    ensures Applied(filters, Then(first, second)) == Applied(Applied(filters, first), second)
    decreases |first|
  {
    if first != [] && second != [] {
      assert (first + second)[1..] == Then(first[1..], second);
      match first[0]
      case Subscribe(f) => AppliedInTurn(filters + {f}, first[1..], second);
      case Unsubscribe(f) => AppliedInTurn(filters - {f}, first[1..], second);
    }
  }

  lemma {:induction false} AppliedMaybe(filters: set<string>, wanted: bool, f: string)
    ensures Applied(filters, Maybe(wanted, Subscribe(f))) == if wanted then filters + {f} else filters
    ensures Applied(filters, Maybe(wanted, Unsubscribe(f))) == if wanted then filters - {f} else filters
  {
  }

  // ----- who else needs a filter

  predicate OthersNeed(r: Table, self: int, filter: string) {
    filter != ""
    && (HandlerClaims(r, filter) || exists j :: 0 <= j < |r.entries| && j != self && Claims(r.entries[j], r.device, filter))
  }

  lemma {:induction false} NeedsSplits(r: Table, i: nat, filter: string)
    requires i < |r.entries|
    ensures NeedsSubscription(r, filter) <==>
            OthersNeed(r, i, filter) || (filter != "" && Claims(r.entries[i], r.device, filter))
  {
  }

  lemma {:induction false} ClaimsOfOne(e: Entry, device: string, filter: string)
    requires filter != ""
    ensures Claims(e, device, filter) ==> ParseTopic(filter) !=  Foreign
    ensures Claims(e, device, filter) && ParseTopic(filter).Manifest? ==>
              Follows(e, device, e.owner) && ParseTopic(filter) == Manifest(e.owner, MsgPack)
    ensures Claims(e, device, filter) && ParseTopic(filter).Resource? ==>
              ParseTopic(filter).device == Owner(e, device) && ParseTopic(filter).name == AddressName(e)
  {
    if Ingress(e, device) == filter {
      ParsePrintedTopic(Owner(e, device), AddressName(e), IngressOperation(e).value);
    } else if Claims(e, device, filter) {
      ParseManifestTopic(e.owner, MsgPack);
    }
  }

  lemma {:induction false} WildcardsAreForeign()
    ensures ParseTopic(ALL_MANIFESTS) == Foreign && ParseTopic(ALL_ENCODED_MANIFESTS) == Foreign
  {
    var plus: string := "+";
    assert ALL_MANIFESTS == plus + "/" + "manifest/json";
    SplitAtSlash(plus, "manifest/json");
    assert ALL_ENCODED_MANIFESTS == plus + "/" + "manifest/msgpack";
    SplitAtSlash(plus, "manifest/msgpack");
    assert plus[0] == '+';
  }

  /** Nobody else listens at an address that nobody else has. */
  lemma {:induction false} IngressIsOwn(r: Table, i: int, e: Entry, owner: string, name: string)
    requires ValidName(owner) && ValidSegment(name) && !AddressTaken(r, owner, name, i)
    ensures IngressAt(e, owner, name) != "" ==> !OthersNeed(r, i, IngressAt(e, owner, name))
  {
    var t := IngressAt(e, owner, name);
    if t != "" {
      ParsePrintedTopic(owner, name, IngressOperation(e).value);
      WildcardsAreForeign();
      forall j | 0 <= j < |r.entries| && j != i ensures !Claims(r.entries[j], r.device, t) {
        ClaimsOfOne(r.entries[j], r.device, t);
        assert !HasAddress(r.entries[j], r.device, owner, name);
      }
    }
  }

  /** A manifest is needed by others exactly when another remote entry follows that owner. */
  lemma {:induction false} ManifestIsShared(r: Table, i: int, owner: string)
    requires ValidName(owner)
    ensures OthersNeed(r, i, ManifestTopic(owner, MsgPack)) <==> OwnerInUse(r.entries, r.device, owner, i)
  {
    var t := ManifestTopic(owner, MsgPack);
    ParseManifestTopic(owner, MsgPack);
    WildcardsAreForeign();
    forall j | 0 <= j < |r.entries| ensures Claims(r.entries[j], r.device, t) <==> Follows(r.entries[j], r.device, owner) {
      ClaimsOfOne(r.entries[j], r.device, t);
    }
  }

  // ----- binding and unbinding

  lemma {:induction false} BindKeepsValid(r: Table, e: Entry, settings: bool)
    requires Valid(r) && Declared(e) && Accepts(r, e, settings)
    ensures Valid(Bound(r, e))
  {
    var b := Bound(r, e);
    var n := |r.entries|;
    assert Placed(e, r.device);
    forall i, j | 0 <= i <= n && 0 <= j <= n && i != j && Resolved(b.entries[i], r.device)
      ensures !HasAddress(b.entries[j], r.device, Owner(b.entries[i], r.device), AddressName(b.entries[i]))
    {
      if i == n {
        assert !HasAddress(r.entries[j], r.device, Owner(e, r.device), AddressName(e));
      } else if j == n {
        assert HasAddress(e, r.device, Owner(r.entries[i], r.device), AddressName(r.entries[i])) ==>
                 Resolved(e, r.device) && HasAddress(r.entries[i], r.device, Owner(e, r.device), AddressName(e));
      }
    }
  }

  lemma {:induction false} BoundOthers(r: Table, e: Entry, filter: string)
    ensures OthersNeed(Bound(r, e), |r.entries|, filter) <==> NeedsSubscription(r, filter)
  {
    var b := Bound(r, e);
    assert forall j :: 0 <= j < |r.entries| ==> b.entries[j] == r.entries[j];
  }

  /** Binding asks for exactly what the new resource adds. */
  lemma {:induction false} BindKeepsExact(r: Table, e: Entry, filters: set<string>)
    requires Exact(r, filters)
    ensures Exact(Bound(r, e), Applied(filters, BindRequests(r, e)))
  {
    var b, n := Bound(r, e), |r.entries|;
    var first := Follows(e, r.device, e.owner) && !OwnerInUse(r.entries, r.device, e.owner, -1);
    var manifest, ingress := ManifestTopic(e.owner, MsgPack), Ingress(e, r.device);
    AppliedInTurn(filters, Maybe(first, Subscribe(manifest)), Maybe(ingress != "", Subscribe(ingress)));
    AppliedMaybe(filters, first, manifest);
    AppliedMaybe(if first then filters + {manifest} else filters, ingress != "", ingress);
    if Follows(e, r.device, e.owner) {
      ManifestIsShared(r, -1, e.owner);
      assert NeedsSubscription(r, manifest) <==> OthersNeed(r, -1, manifest);
    }
    forall f ensures f in Applied(filters, BindRequests(r, e)) <==> NeedsSubscription(b, f) {
      NeedsSplits(b, n, f);
      BoundOthers(r, e, f);
      assert b.entries[n] == e;
    }
  }

  /** A resource is admitted exactly when the registry with it is valid and, for a value of this device, its stored
      settings could be restored. */
  lemma {:induction false} AcceptsIff(r: Table, e: Entry, settings: bool)
    requires Valid(r) && Declared(e)
    ensures Accepts(r, e, settings) <==> Valid(Bound(r, e)) && (e.managed && e.shape.Value? ==> settings)
  {
    if Accepts(r, e, settings) {
      BindKeepsValid(r, e, settings);
    } else if Valid(Bound(r, e)) {
      ValidMayBeBound(r, e);
    }
  }

  lemma {:induction false} ValidMayBeBound(r: Table, e: Entry)
    requires Declared(e) && Valid(Bound(r, e))
    ensures Accepts(r, e, true)
  {
    var b, n := Bound(r, e), |r.entries|;
    assert b.entries[n] == e;
    assert forall j :: 0 <= j < n ==> b.entries[j] == r.entries[j];
    assert Placed(e, r.device) && Described(e);
  }

  lemma {:induction false} UnboundAt(r: Table, i: nat, j: nat)
    requires i < |r.entries| && j < |r.entries| - 1
    ensures Unbound(r, i).entries[j] == r.entries[if j < i then j else j + 1]
  {
  }

  lemma {:induction false} UnbindKeepsValid(r: Table, i: nat)
    requires Valid(r) && i < |r.entries|
    ensures Valid(Unbound(r, i))
  {
    var u := Unbound(r, i);
    assert forall j :: 0 <= j < |u.entries| ==> u.entries[j] == r.entries[if j < i then j else j + 1];
  }

  lemma {:induction false} UnboundOthers(r: Table, i: nat, filter: string)
    requires i < |r.entries|
    ensures NeedsSubscription(Unbound(r, i), filter) <==> OthersNeed(r, i, filter)
  {
    var u := Unbound(r, i);
    if j :| 0 <= j < |r.entries| && j != i && Claims(r.entries[j], r.device, filter) {
      assert u.entries[if j < i then j else j - 1] == r.entries[j];
    }
    forall j | 0 <= j < |u.entries| ensures u.entries[j] == r.entries[if j < i then j else j + 1] {
      UnboundAt(r, i, j);
    }
  }

  lemma {:induction false} UnboundOwners(r: Table, i: nat, owner: string)
    requires i < |r.entries|
    ensures OwnerInUse(Unbound(r, i).entries, r.device, owner, -1) <==> OwnerInUse(r.entries, r.device, owner, i)
  {
    var u := Unbound(r, i);
    if j :| 0 <= j < |r.entries| && j != i && Follows(r.entries[j], r.device, owner) {
      assert u.entries[if j < i then j else j - 1] == r.entries[j];
    }
    forall j | 0 <= j < |u.entries| ensures u.entries[j] == r.entries[if j < i then j else j + 1] {
      UnboundAt(r, i, j);
    }
  }

  lemma {:induction false} AddressIsOwn(r: Table, i: nat)
    requires Valid(r) && i < |r.entries| && Resolved(r.entries[i], r.device)
    ensures !AddressTaken(r, Owner(r.entries[i], r.device), AddressName(r.entries[i]), i)
  {
  }

  /** Unbinding gives back exactly what nobody else needs. */
  lemma {:induction false} UnbindKeepsExact(r: Table, i: nat, filters: set<string>)
    requires Valid(r) && i < |r.entries| && Exact(r, filters)
    ensures Exact(Unbound(r, i), Applied(filters, UnbindRequests(r, i)))
  {
    var e := r.entries[i];
    var u := Unbound(r, i);
    var last := !OwnerInUse(u.entries, r.device, e.owner, -1) && Follows(e, r.device, e.owner);
    var manifest, ingress := ManifestTopic(e.owner, MsgPack), Ingress(e, r.device);
    AppliedInTurn(filters, Maybe(ingress != "", Unsubscribe(ingress)), Maybe(last, Unsubscribe(manifest)));
    AppliedMaybe(filters, ingress != "", ingress);
    AppliedMaybe(if ingress != "" then filters - {ingress} else filters, last, manifest);
    UnboundOwners(r, i, e.owner);
    if Resolved(e, r.device) {
      AddressIsOwn(r, i);
      IngressIsOwn(r, i, e, Owner(e, r.device), AddressName(e));
      ManifestIsShared(r, i, Owner(e, r.device));
    }
    forall f ensures f in Applied(filters, UnbindRequests(r, i)) <==> NeedsSubscription(u, f) {
      NeedsSplits(r, i, f);
      UnboundOthers(r, i, f);
    }
  }

  // ----- changing a source

  lemma {:induction false} RetargetKeepsValid(r: Table, i: nat, owner: string, source: string)
    requires Valid(r) && i < |r.entries| && MayPoint(r, r.entries[i], i, owner, source)
    ensures Valid(Retargeted(r, i, owner, source))
  {
    var n := Retargeted(r, i, owner, source);
    forall a, b | 0 <= a < |r.entries| && 0 <= b < |r.entries| && a != b && Resolved(n.entries[a], r.device)
      ensures !HasAddress(n.entries[b], r.device, Owner(n.entries[a], r.device), AddressName(n.entries[a]))
    {
      if a == i {
        assert !HasAddress(r.entries[b], r.device, owner, source);
      } else {
        var other := r.entries[a];
        assert b == i ==> (HasAddress(n.entries[i], r.device, Owner(other, r.device), AddressName(other)) ==>
                             HasAddress(other, r.device, owner, source));
      }
    }
  }

  lemma {:induction false} RetargetedOthers(r: Table, i: nat, owner: string, source: string, filter: string)
    requires i < |r.entries|
    ensures OthersNeed(Retargeted(r, i, owner, source), i, filter) <==> OthersNeed(r, i, filter)
  {
    var n := Retargeted(r, i, owner, source);
    assert forall j :: 0 <= j < |r.entries| && j != i ==> n.entries[j] == r.entries[j];
  }

  lemma {:induction false} RetargetedOwners(r: Table, i: nat, owner: string, source: string, asked: string)
    requires i < |r.entries|
    ensures OwnerInUse(Retargeted(r, i, owner, source).entries, r.device, asked, i) <==> OwnerInUse(r.entries, r.device, asked, i)
    ensures owner != asked ==>
              (OwnerInUse(Retargeted(r, i, owner, source).entries, r.device, asked, -1) <==>
               OwnerInUse(r.entries, r.device, asked, i))
  {
    var n := Retargeted(r, i, owner, source);
    assert forall j :: 0 <= j < |r.entries| && j != i ==> n.entries[j] == r.entries[j];
  }

  /** A remote resource may be pointed at an address, or cleared, exactly when that leaves the registry valid. */
  lemma {:induction false} MayPointIff(r: Table, i: nat, owner: string, source: string)
    requires Valid(r) && i < |r.entries| && !r.entries[i].managed
    ensures MayPoint(r, r.entries[i], i, owner, source) <==> Valid(Retargeted(r, i, owner, source))
  {
    if MayPoint(r, r.entries[i], i, owner, source) {
      RetargetKeepsValid(r, i, owner, source);
    } else if Valid(Retargeted(r, i, owner, source)) {
      ValidMayBePointed(r, i, owner, source);
    }
  }

  lemma {:induction false} ValidMayBePointed(r: Table, i: nat, owner: string, source: string)
    requires i < |r.entries| && !r.entries[i].managed && Valid(Retargeted(r, i, owner, source))
    ensures MayPoint(r, r.entries[i], i, owner, source)
  {
    var n := Retargeted(r, i, owner, source);
    assert forall j :: 0 <= j < |r.entries| && j != i ==> n.entries[j] == r.entries[j];
    assert Placed(n.entries[i], r.device) && Declared(n.entries[i]) && ValidSegment(n.entries[i].name);
  }

  /** Between the two, the broker holds what the others need, and the owner's manifest if only the name changes. */
  predicate Between(r: Table, i: nat, oldOwner: string, f: string)
    requires i < |r.entries|
  {
    OthersNeed(r, i, f)
    || (oldOwner == r.entries[i].owner && ValidName(oldOwner) && f == ManifestTopic(oldOwner, MsgPack))
  }

  predicate LastToLeave(r: Table, i: nat, oldOwner: string)
    requires i < |r.entries|
  {
    oldOwner != r.entries[i].owner && ValidName(oldOwner) && !OwnerInUse(r.entries, r.device, oldOwner, -1)
  }

  lemma {:induction false} WhatLeavingTakes(r: Table, i: nat, oldOwner: string, oldName: string, filters: set<string>, f: string)
    requires i < |r.entries|
    ensures f in Applied(filters, LeaveRequests(r, i, oldOwner, oldName)) <==>
            f in filters && (f == "" || f != IngressAt(r.entries[i], oldOwner, oldName))
            && !(LastToLeave(r, i, oldOwner) && f == ManifestTopic(oldOwner, MsgPack))
  {
    var left, manifest := IngressAt(r.entries[i], oldOwner, oldName), ManifestTopic(oldOwner, MsgPack);
    var drop := LastToLeave(r, i, oldOwner);
    AppliedInTurn(filters, Maybe(left != "", Unsubscribe(left)), Maybe(drop, Unsubscribe(manifest)));
    AppliedMaybe(filters, left != "", left);
    AppliedMaybe(if left != "" then filters - {left} else filters, drop, manifest);
  }

  lemma {:induction false} LeaveKeepsOthers(r: Table, i: nat, owner: string, source: string, filters: set<string>)
    requires Valid(r) && i < |r.entries| && MayPoint(r, r.entries[i], i, owner, source) && Exact(r, filters)
    ensures var n, e := Retargeted(r, i, owner, source), r.entries[i];
            forall f :: f in Applied(filters, LeaveRequests(n, i, e.owner, e.source)) <==> Between(n, i, e.owner, f)
  {
    var n, e := Retargeted(r, i, owner, source), r.entries[i];
    RetargetedOwners(r, i, owner, source, e.owner);
    assert ValidName(e.owner) <==> Resolved(e, r.device);
    if Resolved(e, r.device) {
      AddressIsOwn(r, i);
      IngressIsOwn(r, i, e, e.owner, e.source);
      ManifestIsShared(r, i, e.owner);
      IngressIsNoManifest(e, e.owner, e.source, e.owner);
    }
    forall f ensures f in Applied(filters, LeaveRequests(n, i, e.owner, e.source)) <==> Between(n, i, e.owner, f) {
      WhatLeavingTakes(n, i, e.owner, e.source, filters, f);
      NeedsSplits(r, i, f);
      RetargetedOthers(r, i, owner, source, f);
    }
  }

  lemma {:induction false} IngressIsNoManifest(e: Entry, owner: string, name: string, d: string)
    requires ValidName(owner) && ValidSegment(name) && ValidName(d)
    ensures IngressAt(e, owner, name) != ManifestTopic(d, MsgPack)
  {
    ParseManifestTopic(d, MsgPack);
    if IngressOperation(e).Some? {
      ParsePrintedTopic(owner, name, IngressOperation(e).value);
    }
  }

  lemma {:induction false} ArriveMakesExact(n: Table, i: nat, oldOwner: string, filters: set<string>)
    requires i < |n.entries| && !n.entries[i].managed && Placed(n.entries[i], n.device)
    requires forall f :: f in filters <==> Between(n, i, oldOwner, f)
    ensures Exact(n, Applied(filters, ArriveRequests(n, i, oldOwner)))
  {
    var e := n.entries[i];
    if SourceConfigured(e) {
      var manifest, ingress := ManifestTopic(e.owner, MsgPack), Ingress(e, n.device);
      var add := oldOwner != e.owner && !OwnerInUse(n.entries, n.device, e.owner, i);
      AppliedInTurn(filters, Maybe(add, Subscribe(manifest)), Maybe(ingress != "", Subscribe(ingress)));
      AppliedMaybe(filters, add, manifest);
      AppliedMaybe(if add then filters + {manifest} else filters, ingress != "", ingress);
      ManifestIsShared(n, i, e.owner);
    }
    forall f ensures f in Applied(filters, ArriveRequests(n, i, oldOwner)) <==> NeedsSubscription(n, f) {
      NeedsSplits(n, i, f);
    }
  }

  /** Following one change of source, the broker holds exactly what the registry now needs. */
  lemma {:induction false} NotifyKeepsExact(r: Table, i: nat, owner: string, source: string, filters: set<string>)
    requires Valid(r) && i < |r.entries| && MayPoint(r, r.entries[i], i, owner, source) && Exact(r, filters)
    ensures var n, e := Retargeted(r, i, owner, source), r.entries[i];
            Exact(n, Applied(filters, NotifyRequests(n, i, e.owner, e.source)))
  {
    var n, e := Retargeted(r, i, owner, source), r.entries[i];
    LeaveKeepsOthers(r, i, owner, source, filters);
    RetargetKeepsValid(r, i, owner, source);
    var left := LeaveRequests(n, i, e.owner, e.source);
    ArriveMakesExact(n, i, e.owner, Applied(filters, left));
    AppliedInTurn(filters, left, ArriveRequests(n, i, e.owner));
  }

  /** A change of source keeps the two in step whether it is persisted or rolled back. */
  lemma {:induction false} ConfigureKeepsExact(r: Table, i: nat, owner: string, source: string, saved: bool, filters: set<string>)
    requires Valid(r) && i < |r.entries| && Exact(r, filters)
    ensures var after := Configured(r, i, owner, source, saved).0;
            && Valid(after)
            && Exact(after, Applied(filters, ConfigureRequests(r, i, owner, source, saved)))
  {
    var e := r.entries[i];
    if MayPoint(r, e, i, owner, source) && !(e.owner == owner && e.source == source) {
      if saved {
        var there := NotifyRequests(Retargeted(r, i, owner, source), i, e.owner, e.source);
        RetargetKeepsValid(r, i, owner, source);
        NotifyKeepsExact(r, i, owner, source, filters);
      } else {
        RollbackKeepsExact(r, i, owner, source, filters);
      }
    }
  }

  lemma {:induction false} ComesBack(r: Table, i: nat, owner: string, source: string)
    requires i < |r.entries|
    ensures var e := r.entries[i]; Retargeted(Retargeted(r, i, owner, source), i, e.owner, e.source) == r
  {
    assert Retargeted(Retargeted(r, i, owner, source), i, r.entries[i].owner, r.entries[i].source).entries == r.entries;
  }

  lemma {:induction false} NotifyBackKeepsExact(r: Table, i: nat, owner: string, source: string, filters: set<string>)
    requires Valid(r) && i < |r.entries| && MayPoint(r, r.entries[i], i, owner, source)
    requires Exact(Retargeted(r, i, owner, source), filters)
    ensures Exact(r, Applied(filters, NotifyRequests(r, i, owner, source)))
  {
    var n, e := Retargeted(r, i, owner, source), r.entries[i];
    RetargetKeepsValid(r, i, owner, source);
    BackIsAllowed(r, i, owner, source);
    ComesBack(r, i, owner, source);
    NotifyKeepsExact(n, i, e.owner, e.source, filters);
  }

  /** There and back again leaves the broker where it was. */
  lemma {:induction false} RollbackKeepsExact(r: Table, i: nat, owner: string, source: string, filters: set<string>)
    requires Valid(r) && i < |r.entries| && MayPoint(r, r.entries[i], i, owner, source) && Exact(r, filters)
    ensures var n, e := Retargeted(r, i, owner, source), r.entries[i];
            Applied(filters, Then(NotifyRequests(n, i, e.owner, e.source), NotifyRequests(r, i, owner, source))) == filters
  {
    var e := r.entries[i];
    var there := NotifyRequests(Retargeted(r, i, owner, source), i, e.owner, e.source);
    var back := NotifyRequests(r, i, owner, source);
    NotifyKeepsExact(r, i, owner, source, filters);
    NotifyBackKeepsExact(r, i, owner, source, Applied(filters, there));
    AppliedInTurn(filters, there, back);
    ExactIsUnique(r, filters, Applied(filters, Then(there, back)));
  }

  lemma {:induction false} ExactIsUnique(r: Table, one: set<string>, two: set<string>)
    requires Exact(r, one) && Exact(r, two)
    ensures one == two
  {
    assert forall f :: f in one <==> f in two;
  }

  lemma {:induction false} BackIsAllowed(r: Table, i: nat, owner: string, source: string)
    requires Valid(r) && i < |r.entries| && MayPoint(r, r.entries[i], i, owner, source)
    ensures var n, e := Retargeted(r, i, owner, source), r.entries[i];
            MayPoint(n, n.entries[i], i, e.owner, e.source)
  {
    var n, e := Retargeted(r, i, owner, source), r.entries[i];
    assert forall j :: 0 <= j < |r.entries| && j != i ==> n.entries[j] == r.entries[j];
    if Resolved(e, r.device) {
      AddressIsOwn(r, i);
    }
  }
}
