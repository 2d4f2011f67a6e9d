/** The resource manager: a table of bound resources that keeps the broker's subscriptions in step as it changes. */
module ResourcesManager {
  import opened Common
  import opened Resources
  import opened Registry
  import opened RegistryRuns

  /** A declared resource. Its name, role and shape are fixed; only a remote one's source changes. */
  class NetResource {
    const name: string
    const managed: bool
    const shape: Shape
    var owner: string
    var source: string
    var manager: ResourcesManager?

    function Value(): Entry
      reads this
    {
      Entry(name, managed, shape, owner, source)
    }

    /** A managed resource has no identity of its own; a remote one starts at its own name on the device it names. */
    constructor (name: string, managed: bool, shape: Shape, identity: string)
      requires managed ==> identity == ""
      ensures manager == null && Declared(Value())
      ensures Value() == Entry(name, managed, shape, identity, if !managed && identity != "" then name else "")
    {
      this.name, this.managed, this.shape, this.owner := name, managed, shape, identity;
      this.source := if !managed && identity != "" then name else "";
      this.manager := null;
    }
  }

  /** The connection to the broker. Nothing reaches the broker while it is down, and it forgets its filters then. */
  class Subscriber {
    var online: bool
    var filters: set<string>

    function View(): Option<set<string>>
      reads this
    {
      if online then Some(filters) else None
    }

    constructor ()
      ensures View() == None
    {
      online, filters := false, {};
    }

    method Subscribe(filter: string)
      modifies this
      ensures View() == Sent(old(View()), [Registry.Subscribe(filter)])
    {
      AppliedMaybe(filters, true, filter);
      if online {
        filters := filters + {filter};
      }
    }

    method Unsubscribe(filter: string)
      modifies this
      ensures View() == Sent(old(View()), [Registry.Unsubscribe(filter)])
    {
      AppliedMaybe(filters, true, filter);
      if online {
        filters := filters - {filter};
      }
    }

    method Disconnect()
      modifies this
      ensures View() == None
    {
      online, filters := false, {};
    }

    method Connect()
      modifies this
      ensures View() == Some({})
    {
      online, filters := true, {};
    }
  }

  lemma {:induction false} SentInTurn(filters: Option<set<string>>, first: seq<Request>, second: seq<Request>)
    ensures Sent(filters, Then(first, second)) == Sent(Sent(filters, first), second)
  {
    if filters.Some? {
      AppliedInTurn(filters.value, first, second);
    }
  }

  class ResourcesManager {
    const device: string
    const subscriber: Subscriber
    var resources: seq<NetResource>
    var manifestHandler: bool
    var encodedManifestHandler: bool

    function Values(): (entries: seq<Entry>)
      reads this, resources
      ensures |entries| == |resources|
      ensures forall i :: 0 <= i < |resources| ==> entries[i] == resources[i].Value()
    {
      seq(|resources|, i requires 0 <= i < |resources| reads this, resources => resources[i].Value())
    }

    function View(): Table
      reads this, resources
    {
      Table(device, Values(), manifestHandler, encodedManifestHandler)
    }

    function State(): World
      reads this, resources, subscriber
    {
      World(View(), subscriber.View())
    }

    /** The table holds distinct resources, each bound here. */
    ghost predicate WellLinked()
      reads this, resources
    {
      && (forall i :: 0 <= i < |resources| ==> resources[i].manager == this)
      && (forall i, j :: 0 <= i < j < |resources| ==> resources[i] != resources[j])
    }

    /** Besides, the broker has exactly the filters they need whenever it is connected. */
    ghost predicate Valid()
      reads this, resources, subscriber
    {
      WellLinked() && InStep(State())
    }

    /** A resource is in this table exactly when it says so. */
    ghost predicate Linked(resource: NetResource)
      reads this, resource
    {
      resource.manager == this <==> resource in resources
    }

    constructor (device: string, subscriber: Subscriber)
      requires subscriber.View() == None
      ensures Valid() && State() == World(Table(device, [], false, false), None)
      ensures this.device == device && this.subscriber == subscriber
    {
      this.device, this.subscriber := device, subscriber;
      resources, manifestHandler, encodedManifestHandler := [], false, false;
    }

    // ----- looking things up

    method FindResourceByName(name: string) returns (found: bool)
      ensures found == NameTaken(Values(), name)
    {
      for i := 0 to |resources|
        invariant forall k :: 0 <= k < i ==> resources[k].name != name
      {
        if resources[i].name == name {
          assert Values()[i].name == name;
          return true;
        }
      }
      assert forall k :: 0 <= k < |Values()| ==> Values()[k].name == resources[k].name;
      found := false;
    }

    method FindResource(owner: string, name: string) returns (found: Option<nat>)
      ensures found == RegistryRuns.FindResource(View(), owner, name, 0)
    {
      for i := 0 to |resources|
        invariant RegistryRuns.FindResource(View(), owner, name, 0) == RegistryRuns.FindResource(View(), owner, name, i)
      {
        if HasAddress(resources[i].Value(), device, owner, name) {
          return Some(i);
        }
      }
      found := None;
    }

    /** Not fooled by `self` appearing first. */
    method AddressTakenByOther(owner: string, name: string, self: NetResource) returns (taken: bool)
      ensures taken <==> exists i :: 0 <= i < |resources| && resources[i] != self
                                     && HasAddress(resources[i].Value(), device, owner, name)
    {
      for i := 0 to |resources|
        invariant forall k :: 0 <= k < i && resources[k] != self ==> !HasAddress(resources[k].Value(), device, owner, name)
      {
        if resources[i] != self && HasAddress(resources[i].Value(), device, owner, name) {
          return true;
        }
      }
      taken := false;
    }

    method RemoteOwnerInUse(owner: string, exclude: NetResource?) returns (used: bool)
      ensures used <==> exists i :: 0 <= i < |resources| && resources[i] != exclude
                                    && Follows(resources[i].Value(), device, owner)
    {
      for i := 0 to |resources|
        invariant forall k :: 0 <= k < i && resources[k] != exclude ==> !Follows(resources[k].Value(), device, owner)
      {
        if resources[i] != exclude && Follows(resources[i].Value(), device, owner) {
          return true;
        }
      }
      used := false;
    }

    /** Asked of the table itself, without any counter. */
    method NeedsSubscription(filter: string) returns (needed: bool)
      ensures needed == Registry.NeedsSubscription(View(), filter)
    {
      if filter == "" {
        return false;
      }
      if manifestHandler && filter == ALL_MANIFESTS {
        return true;
      }
      if encodedManifestHandler && filter == ALL_ENCODED_MANIFESTS {
        return true;
      }
      needed := ResourcesNeed(filter);
    }

    method ResourcesNeed(filter: string) returns (needed: bool)
      ensures needed <==> exists i :: 0 <= i < |Values()| && Claims(Values()[i], device, filter)
    {
      for i := 0 to |resources|
        invariant forall k :: 0 <= k < i ==> !Claims(Values()[k], device, filter)
      {
        if Claims(resources[i].Value(), device, filter) {
          assert Claims(Values()[i], device, filter);
          return true;
        }
      }
      needed := false;
    }

    // ----- subscriptions of one resource

    method SubscribeResource(resource: NetResource, includeManifest: bool)
      modifies subscriber
      ensures subscriber.View() == Sent(old(subscriber.View()), SubscribeRequests(resource.Value(), device, includeManifest))
    {
      var e := resource.Value();
      ghost var manifest := Maybe(includeManifest && Follows(e, device, e.owner),
                                  Registry.Subscribe(ManifestTopic(e.owner, MsgPack)));
      ghost var own := Maybe(Ingress(e, device) != "", Registry.Subscribe(Ingress(e, device)));
      SentInTurn(subscriber.View(), manifest, own);
      if includeManifest && !e.managed && Resolved(e, device) {
        subscriber.Subscribe(ManifestTopic(e.owner, MsgPack));
      }
      var ingress := Ingress(e, device);
      if ingress != "" {
        subscriber.Subscribe(ingress);
      }
    }

    method UnsubscribeResource(resource: NetResource, removeManifest: bool)
      modifies subscriber
      ensures subscriber.View() == Sent(old(subscriber.View()), UnsubscribeRequests(resource.Value(), device, removeManifest))
    {
      var e := resource.Value();
      ghost var manifest := Maybe(removeManifest && Follows(e, device, e.owner),
                                  Registry.Unsubscribe(ManifestTopic(e.owner, MsgPack)));
      ghost var own := Maybe(Ingress(e, device) != "", Registry.Unsubscribe(Ingress(e, device)));
      SentInTurn(subscriber.View(), own, manifest);
      var ingress := Ingress(e, device);
      if ingress != "" {
        subscriber.Unsubscribe(ingress);
      }
      if removeManifest && !e.managed && Resolved(e, device) {
        subscriber.Unsubscribe(ManifestTopic(e.owner, MsgPack));
      }
    }

    // ----- binding

    /** Leaving out one resource is leaving out its position. */
    lemma ExcludedOwner(owner: string, exclude: NetResource?, k: int)
      requires WellLinked()
      requires if k == -1 then exclude !in resources else 0 <= k < |resources| && resources[k] == exclude
      ensures OwnerInUse(Values(), device, owner, k) <==>
              exists i :: 0 <= i < |resources| && resources[i] != exclude && Follows(resources[i].Value(), device, owner)
    {
      var entries := Values();
      forall i | 0 <= i < |resources| ensures i != k <==> resources[i] != exclude {
      }
      if i :| 0 <= i < |resources| && resources[i] != exclude && Follows(resources[i].Value(), device, owner) {
        assert Follows(entries[i], device, owner);
      }
    }

    lemma ExcludedAddress(owner: string, name: string, exclude: NetResource, k: int)
      requires WellLinked()
      requires if k == -1 then exclude !in resources else 0 <= k < |resources| && resources[k] == exclude
      ensures AddressTaken(View(), owner, name, k) <==>
              exists i :: 0 <= i < |resources| && resources[i] != exclude
                          && HasAddress(resources[i].Value(), device, owner, name)
    {
      var entries := Values();
      forall i | 0 <= i < |resources| ensures i != k <==> resources[i] != exclude {
      }
      if i :| 0 <= i < |resources| && resources[i] != exclude && HasAddress(resources[i].Value(), device, owner, name) {
        assert HasAddress(entries[i], device, owner, name);
      }
    }

    method ValidActionSchema(arguments: seq<Argument>) returns (ok: bool)
      ensures ok == ValidSchema(arguments)
    {
      for i := 0 to |arguments|
        invariant forall k :: 0 <= k < i ==> arguments[k].name.Some? && ValidSegment(arguments[k].name.value)
        invariant forall j, k :: 0 <= j < k < i ==> arguments[j].name != arguments[k].name
      {
        if arguments[i].name.None? || !ValidSegment(arguments[i].name.value) {
          return false;
        }
        for j := 0 to i
          invariant forall k :: 0 <= k < j ==> arguments[k].name != arguments[i].name
        {
          if arguments[j].name == arguments[i].name {
            return false;
          }
        }
      }
      ok := true;
    }

    /** Every reason a resource may be refused, in the order they are looked for. */
    method MayBind(resource: NetResource, settings: bool) returns (ok: bool)
      requires WellLinked() && resource.manager == null
      ensures ok == Accepts(View(), resource.Value(), settings)
    {
      if |resources| >= MAX_RESOURCES {
        return false;
      }
      if resource.shape.Action? {
        var schema := ValidActionSchema(resource.shape.arguments);
        if !schema {
          return false;
        }
      }
      if !ValidSegment(resource.name) {
        return false;
      }
      var taken := FindResourceByName(resource.name);
      if taken {
        return false;
      }
      if resource.managed {
        if !ValidName(device) {
          return false;
        }
      } else if SourceConfigured(resource.Value()) {
        if !Resolved(resource.Value(), device) || resource.owner == device {
          return false;
        }
      }
      if Resolved(resource.Value(), device) {
        var occupied := AddressTakenByOther(Owner(resource.Value(), device), AddressName(resource.Value()), resource);
        ExcludedAddress(Owner(resource.Value(), device), AddressName(resource.Value()), resource, -1);
        if occupied {
          return false;
        }
      }
      ok := !(resource.managed && resource.shape.Value?) || settings;
    }

    method BindResource(resource: NetResource, settings: bool) returns (ok: bool)
      requires Valid() && Declared(resource.Value())
      modifies this`resources, resource`manager, subscriber
      ensures Valid() && (ok ==> resource in resources)
      ensures ok <==> old(resource.manager == null && Accepts(View(), resource.Value(), settings))
      ensures State() == if ok then After(old(State()), Bind(old(resource.Value()), settings)) else old(State())
    {
      if resource.manager != null {
        return false;
      }
      ok := MayBind(resource, settings);
      if !ok {
        return;
      }
      ghost var before := State();
      Append(resource);
      KeptInStep(before, Bind(resource.Value(), settings), State());
    }

    /** Valid states lead to valid states, for the state an operation is known to have reached. */
    lemma KeptInStep(before: World, step: Step, after: World)
      requires InStep(before) && after == RegistryRuns.After(before, step)
      ensures InStep(after)
    {
      StepKeepsInStep(before, step);
    }

    method Append(resource: NetResource)
      requires WellLinked() && resource.manager == null
      modifies this`resources, resource`manager, subscriber
      ensures WellLinked() && resource in resources && resource.Value() == old(resource.Value())
      ensures View() == Bound(old(View()), resource.Value())
      ensures subscriber.View() == Sent(old(subscriber.View()), BindRequests(old(View()), resource.Value()))
    {
      var used := RemoteOwnerInUse(resource.owner, resource);
      ExcludedOwner(resource.owner, resource, -1);
      Link(resource);
      SubscribeResource(resource, !resource.managed && Resolved(resource.Value(), device) && !used);
    }

    ghost predicate At(i: int, resource: NetResource)
      reads this
    {
      0 <= i < |resources| && resources[i] == resource
    }

    /** The position of a resource in the table, or -1. */
    ghost function Position(resource: NetResource): (i: int)
      reads this
      ensures if resource in resources then At(i, resource) else i == -1
    {
      if resource in resources then (var i :| 0 <= i < |resources| && resources[i] == resource; i) else -1
    }

    method UnbindResource(resource: NetResource)
      requires Valid()
      modifies this`resources, resource`manager, subscriber
      ensures Valid() && resource !in resources
      ensures State() == if old(resource in resources) then After(old(State()), Unbind(old(Position(resource))))
                         else old(State())
    {
      for i := 0 to |resources|
        invariant forall k :: 0 <= k < i ==> resources[k] != resource
        invariant unchanged(this) && unchanged(resource) && unchanged(subscriber)
      {
        if resources[i] == resource {
          assert i == Position(resource);
          RemoveAt(i, resource);
          return;
        }
      }
    }

    method RemoveAt(i: nat, resource: NetResource)
      requires Valid() && At(i, resource)
      modifies this`resources, resource`manager, subscriber
      ensures Valid() && resource !in resources
      ensures State() == After(old(State()), Unbind(i))
    {
      ghost var before := State();
      Take(i, resource);
      KeptInStep(before, Unbind(i), State());
    }

    method Take(i: nat, resource: NetResource)
      requires WellLinked() && At(i, resource)
      modifies this`resources, resource`manager, subscriber
      ensures WellLinked() && resource !in resources
      ensures View() == Unbound(old(View()), i)
      ensures subscriber.View() == Sent(old(subscriber.View()), UnbindRequests(old(View()), i))
    {
      ghost var t := View();
      Unlink(i, resource);
      Withdraw(resource, t, i);
    }

    /** Gives up the filters of a resource that has just left the table. */
    method Withdraw(resource: NetResource, ghost t: Table, ghost i: nat)
      requires WellLinked() && i < |t.entries| && resource.Value() == t.entries[i] && View() == Unbound(t, i)
      modifies subscriber
      ensures subscriber.View() == Sent(old(subscriber.View()), UnbindRequests(t, i))
    {
      var used := RemoteOwnerInUse(resource.owner, null);
      ExcludedOwner(resource.owner, null, -1);
      UnsubscribeResource(resource, !used);
    }

    method Link(resource: NetResource)
      requires WellLinked() && resource.manager == null
      modifies this`resources, resource`manager
      ensures WellLinked() && resource in resources && View() == Bound(old(View()), old(resource.Value()))
    {
      ghost var entries := Values();
      resource.manager := this;
      resources := resources + [resource];
      assert Values() == entries + [resource.Value()];
    }

    method Unlink(i: nat, resource: NetResource)
      requires WellLinked() && At(i, resource)
      modifies this`resources, resource`manager
      ensures WellLinked() && resource !in resources && View() == Unbound(old(View()), i)
    {
      ghost var entries := Values();
      resources := resources[..i] + resources[i + 1..];
      resource.manager := null;
      assert Values() == entries[..i] + entries[i + 1..];
    }

    // ----- changing a source

    /** Tells the broker about a bound resource's move from its old source; a resource not bound here is left alone. */
    method NotifySourceChanged(resource: NetResource, oldOwner: string, oldName: string)
      requires WellLinked() && Linked(resource)
      modifies subscriber
      ensures subscriber.View() == if resource !in resources || resource.managed then old(subscriber.View())
                else Sent(old(subscriber.View()), NotifyRequests(View(), Position(resource), oldOwner, oldName))
    {
      if resource.manager != this || resource.managed {
        return;
      }
      ghost var i := Position(resource);
      LeaveSource(resource, i, oldOwner, oldName);
      ghost var left := subscriber.View();
      ArriveAtSource(resource, i, oldOwner);
      SentInTurn(old(subscriber.View()), LeaveRequests(View(), i, oldOwner, oldName), ArriveRequests(View(), i, oldOwner));
    }

    method LeaveSource(resource: NetResource, ghost i: int, oldOwner: string, oldName: string)
      requires WellLinked() && At(i, resource) && !resource.managed
      modifies subscriber
      ensures subscriber.View() == Sent(old(subscriber.View()), LeaveRequests(View(), i, oldOwner, oldName))
    {
      var ownerChanged := oldOwner != resource.owner;
      var oldIngress := IngressAt(resource.Value(), oldOwner, oldName);
      if oldIngress != "" {
        subscriber.Unsubscribe(oldIngress);
      }
      var used := RemoteOwnerInUse(oldOwner, null);
      ExcludedOwner(oldOwner, null, -1);
      if ownerChanged && ValidName(oldOwner) && !used {
        subscriber.Unsubscribe(ManifestTopic(oldOwner, MsgPack));
      }
      assert Values()[i] == resource.Value();
      SentInTurn(old(subscriber.View()), Maybe(oldIngress != "", Registry.Unsubscribe(oldIngress)),
                 Maybe(ownerChanged && ValidName(oldOwner) && !used, Registry.Unsubscribe(ManifestTopic(oldOwner, MsgPack))));
    }

    method ArriveAtSource(resource: NetResource, ghost i: int, oldOwner: string)
      requires WellLinked() && At(i, resource) && !resource.managed
      modifies subscriber
      ensures subscriber.View() == Sent(old(subscriber.View()), ArriveRequests(View(), i, oldOwner))
    {
      assert Values()[i] == resource.Value();
      if !SourceConfigured(resource.Value()) {
        return;
      }
      var newOwner := resource.owner;
      var used := RemoteOwnerInUse(newOwner, resource);
      ExcludedOwner(newOwner, resource, i);
      if oldOwner != newOwner && !used {
        subscriber.Subscribe(ManifestTopic(newOwner, MsgPack));
      }
      var ingress := Ingress(resource.Value(), device);
      if ingress != "" {
        subscriber.Subscribe(ingress);
      }
      SentInTurn(old(subscriber.View()),
                 Maybe(oldOwner != newOwner && !used, Registry.Subscribe(ManifestTopic(newOwner, MsgPack))),
                 Maybe(ingress != "", Registry.Subscribe(ingress)));
    }

    /** Retargets a resource in memory and tells the broker. */
    method MoveSource(resource: NetResource, owner: string, source: string)
      requires WellLinked() && Linked(resource) && !resource.managed
      modifies resource`owner, resource`source, subscriber
      ensures WellLinked() && Linked(resource) && resource.Value() == PointedAt(old(resource.Value()), owner, source)
      ensures State() == if resource in resources then Moved(old(State()), Position(resource), owner, source)
                         else old(State())
    {
      var oldOwner, oldName := resource.owner, resource.source;
      Point(resource, owner, source);
      NotifySourceChanged(resource, oldOwner, oldName);
    }

    method Point(resource: NetResource, owner: string, source: string)
      requires WellLinked() && Linked(resource)
      modifies resource`owner, resource`source
      ensures WellLinked() && Linked(resource) && resource.Value() == PointedAt(old(resource.Value()), owner, source)
      ensures View() == if resource in resources then Retargeted(old(View()), Position(resource), owner, source) else old(View())
    {
      ghost var entries := Values();
      resource.owner, resource.source := owner, source;
      if resource in resources {
        assert Values() == entries[Position(resource) := resource.Value()];
      } else {
        assert Values() == entries;
      }
    }

    method MayMove(resource: NetResource, owner: string, source: string) returns (ok: bool)
      requires WellLinked() && Linked(resource)
      ensures ok == MayPoint(View(), resource.Value(), Position(resource), owner, source)
    {
      if resource.managed || !ValidSegment(resource.name) {
        return false;
      }
      if owner == "" && source == "" {
        return true;
      }
      if !ValidName(owner) || !ValidSegment(source) || owner == device {
        return false;
      }
      var taken := AddressTakenByOther(owner, source, resource);
      ExcludedAddress(owner, source, resource, Position(resource));
      ok := !taken;
    }

    /** Points a remote resource elsewhere; `stored` is whether the record could be written, when it is to be. A change
        that cannot be recorded is taken back, on the broker too. */
    method ConfigureRemoteSource(resource: NetResource, owner: string, source: string, persist: bool, stored: bool)
      returns (ok: bool)
      requires Valid() && Linked(resource)
      modifies resource`owner, resource`source, subscriber
      ensures Valid() && Linked(resource)
      ensures resource.Value() == if ok then PointedAt(old(resource.Value()), owner, source) else old(resource.Value())
      ensures ok <==> MayPoint(old(View()), old(resource.Value()), Position(resource), owner, source)
                      && (!persist || stored)
      ensures State() == if resource in resources
                         then After(old(State()), Configure(Position(resource), owner, source, !persist || stored))
                         else old(State())
    {
      ok := MayMove(resource, owner, source);
      if !ok {
        assert resource in resources ==> State() == After(State(), Configure(Position(resource), owner, source, !persist || stored));
        return;
      }
      ok := !persist || stored;
      if resource.owner == owner && resource.source == source {
        assert resource in resources ==> State() == After(State(), Configure(Position(resource), owner, source, ok));
        return;
      }
      ghost var before := State();
      ThereAndBack(resource, owner, source, ok);
      if resource in resources {
        KeptInStep(before, Configure(Position(resource), owner, source, ok), State());
      }
    }

    method ThereAndBack(resource: NetResource, owner: string, source: string, saved: bool)
      requires WellLinked() && Linked(resource) && MayPoint(View(), resource.Value(), Position(resource), owner, source)
      requires !(resource.owner == owner && resource.source == source)
      modifies resource`owner, resource`source, subscriber
      ensures WellLinked() && Linked(resource)
      ensures resource.Value() == if saved then PointedAt(old(resource.Value()), owner, source) else old(resource.Value())
      ensures State() == if resource in resources
                         then After(old(State()), Configure(Position(resource), owner, source, saved)) else old(State())
    {
      if resource in resources {
        ConfiguringIsMoving(State(), Position(resource), owner, source, saved);
      }
      var oldOwner, oldName := resource.owner, resource.source;
      MoveSource(resource, owner, source);
      if !saved {
        MoveSource(resource, oldOwner, oldName);
      }
    }

    // ----- handlers, reconnects and incoming messages

    /** The handler is stored before its filter is asked for. */
    method SetManifestHandler(wanted: bool)
      requires Valid()
      modifies this`manifestHandler, subscriber
      ensures Valid() && State() == After(old(State()), Handler(false, wanted))
    {
      ghost var before := State();
      var had := manifestHandler;
      manifestHandler := wanted;
      if had != wanted {
        if wanted {
          subscriber.Subscribe(ALL_MANIFESTS);
        } else {
          subscriber.Unsubscribe(ALL_MANIFESTS);
        }
      }
      assert Values() == before.registry.entries;
      KeptInStep(before, Handler(false, wanted), State());
    }

    method SetEncodedManifestHandler(wanted: bool)
      requires Valid()
      modifies this`encodedManifestHandler, subscriber
      ensures Valid() && State() == After(old(State()), Handler(true, wanted))
    {
      ghost var before := State();
      var had := encodedManifestHandler;
      encodedManifestHandler := wanted;
      if had != wanted {
        if wanted {
          subscriber.Subscribe(ALL_ENCODED_MANIFESTS);
        } else {
          subscriber.Unsubscribe(ALL_ENCODED_MANIFESTS);
        }
      }
      assert Values() == before.registry.entries;
      KeptInStep(before, Handler(true, wanted), State());
    }

    method Disconnected()
      requires Valid()
      modifies subscriber
      ensures Valid() && State() == After(old(State()), Disconnect)
    {
      subscriber.Disconnect();
    }

    /** The broker starts from nothing; everything still needed is asked for again. */
    method Reconnected()
      requires Valid()
      modifies subscriber
      ensures Valid() && State() == After(old(State()), Reconnect)
    {
      ghost var before := State();
      StartOver();
      KeptInStep(before, Reconnect, State());
    }

    method StartOver()
      requires WellLinked()
      modifies subscriber
      ensures State() == After(old(State()), Reconnect)
    {
      subscriber.Connect();
      SubscribeAll();
    }

    /** Whether no earlier resource follows the same owner. */
    method ClaimsOwner(i: nat) returns (first: bool)
      requires i < |resources|
      ensures first == FirstOfOwner(View(), i)
    {
      var resource := resources[i];
      first := !resource.managed && Resolved(resource.Value(), device);
      for j := 0 to i
        invariant first <==> Follows(resource.Value(), device, resource.owner)
                             && forall k :: 0 <= k < j ==> !Follows(Values()[..i][k], device, resource.owner)
      {
        if Follows(resources[j].Value(), device, resource.owner) {
          assert Follows(Values()[..i][j], device, resource.owner);
          return false;
        }
      }
    }

    method SubscribeAll()
      requires WellLinked()
      modifies subscriber
      ensures subscriber.View() == Sent(old(subscriber.View()), SubscribeAllRequests(View()))
    {
      SubscribeHandlers();
      ghost var started := subscriber.View();
      for i := 0 to |resources|
        invariant subscriber.View() == Sent(started, EntriesRequests(View(), i))
      {
        SubscribeEntry(i);
        SentInTurn(started, EntriesRequests(View(), i), EntryRequests(View(), i));
      }
      SentInTurn(old(subscriber.View()), HandlersRequests(View()), EntriesRequests(View(), |resources|));
    }

    method SubscribeEntry(i: nat)
      requires i < |resources|
      modifies subscriber
      ensures subscriber.View() == Sent(old(subscriber.View()), EntryRequests(View(), i))
    {
      var includeManifest := ClaimsOwner(i);
      SubscribeResource(resources[i], includeManifest);
      assert Values()[i] == resources[i].Value();
    }

    method SubscribeHandlers()
      modifies subscriber
      ensures subscriber.View() == Sent(old(subscriber.View()), HandlersRequests(View()))
    {
      if manifestHandler {
        subscriber.Subscribe(ALL_MANIFESTS);
      }
      if encodedManifestHandler {
        subscriber.Subscribe(ALL_ENCODED_MANIFESTS);
      }
      SentInTurn(old(subscriber.View()), Maybe(manifestHandler, Registry.Subscribe(ALL_MANIFESTS)),
                 Maybe(encodedManifestHandler, Registry.Subscribe(ALL_ENCODED_MANIFESTS)));
    }

    /** Where a message goes. What the resource then makes of it is not part of this model. */
    method HandleIngressMessage(topic: string, retained: bool) returns (d: Dispatch)
      ensures d == Route(View(), topic, retained)
    {
      var parsed := ParseTopic(topic);
      match parsed
      case Foreign => return NotOurs;
      case Manifest(owner, JsonFormat) =>
        d := if !manifestHandler || owner == device then NotOurs else ReadableManifest(owner);
      case Manifest(owner, MsgPack) =>
        var used := RemoteOwnerInUse(owner, null);
        AnyFollower(owner);
        d := if owner == device || (!used && !encodedManifestHandler) then NotOurs else EncodedManifest(owner);
      case Resource(owner, name, operation) =>
        var found := FindResource(owner, name);
        d := if found.None? then NotOurs else RouteTo(resources[found.value].Value(), found.value, operation, retained);
    }

    lemma AnyFollower(owner: string)
      ensures OwnerInUse(Values(), device, owner, -1) <==>
              exists i :: 0 <= i < |resources| && Follows(resources[i].Value(), device, owner)
    {
      if i :| 0 <= i < |resources| && Follows(resources[i].Value(), device, owner) {
        assert Follows(Values()[i], device, owner);
      }
    }
  }
}
