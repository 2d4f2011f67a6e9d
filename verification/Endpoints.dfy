/** Endpoints of a validated profile: the expansion lists none twice, so what keeps it from the graph is size alone. */
module Endpoints {
  import opened Common
  import opened HardwareProfile
  import opened DefinitionCycles
  import opened Expansion
  import opened HardwareValidation
  import opened Addressing

  // ----- one owner's pins, one assembly's owners

  /** No endpoint of this owner is listed yet. */
  predicate NoneOf(s: Layout, path: string, kind: uint8, owner: CStr) {
    forall e :: e in s.endpoints ==> !(e.key.path == path && e.key.kind == kind && e.key.owner == owner)
  }

  predicate NoneAt(s: Layout, path: string) {
    forall e :: e in s.endpoints ==> e.key.path != path
  }

  lemma {:induction false} OneMoreDistinct(s: Layout, e: Endpoint)
    requires Distinct(s.endpoints) && forall other :: other in s.endpoints ==> other.key != e.key
    ensures Distinct(WithEndpoint(s, e).endpoints)
  {
  }

  lemma {:induction false} PinsDistinct(s: Layout, path: string, kind: uint8, owner: CStr, pins: seq<Pin>, n: nat)
    requires Distinct(s.endpoints) && NoneOf(s, path, kind, owner) && PinsOk(pins) && n <= |pins|
    ensures Distinct(WithPins(s, path, kind, owner, pins, n).endpoints)
  {
    if n > 0 {
      var before, p := WithPins(s, path, kind, owner, pins, n - 1), pins[n - 1];
      PinsDistinct(s, path, kind, owner, pins, n - 1);
      forall other | other in before.endpoints ensures other.key != Key(path, kind, owner, p.id) {
        PinsAdded(s, path, kind, owner, pins, n - 1, other);
        assert IdOk(PinIds(pins), n - 1);
        assert forall j :: 0 <= j < n - 1 ==> PinIds(pins)[j] == pins[j].id && !Repeats(PinIds(pins)[j], PinIds(pins)[n - 1]);
      }
      OneMoreDistinct(before, Endpoint(Key(path, kind, owner, p.id), p.canonicalNet));
    }
  }

  lemma {:induction false} DevicesDistinct(s: Layout, path: string, devices: seq<Device>, n: nat)
    requires Distinct(s.endpoints) && n <= |devices| && IdsOk(DeviceIds(devices))
    requires forall i :: 0 <= i < |devices| ==> PinsOk(devices[i].terminals) && NoneOf(s, path, DEVICE_TERMINAL, devices[i].id)
    ensures Distinct(WithDevices(s, path, devices, n).endpoints)
  {
    if n > 0 {
      var before, d := WithDevices(s, path, devices, n - 1), devices[n - 1];
      DevicesDistinct(s, path, devices, n - 1);
      forall e | e in before.endpoints
        ensures !(e.key.path == path && e.key.kind == DEVICE_TERMINAL && e.key.owner == d.id)
      {
        DevicesAdded(s, path, devices, n - 1, e);
        assert IdOk(DeviceIds(devices), n - 1);
        assert forall j :: 0 <= j < n - 1 ==>
                 DeviceIds(devices)[j] == devices[j].id && !Repeats(DeviceIds(devices)[j], DeviceIds(devices)[n - 1]);
      }
      PinsDistinct(before, path, DEVICE_TERMINAL, d.id, d.terminals, |d.terminals|);
    }
  }

  lemma {:induction false} ConnectorsDistinct(s: Layout, path: string, connectors: seq<Connector>, n: nat)
    requires Distinct(s.endpoints) && n <= |connectors| && IdsOk(ConnectorIds(connectors))
    requires forall i :: 0 <= i < |connectors| ==>
               PinsOk(connectors[i].contacts) && NoneOf(s, path, CONNECTOR_CONTACT, connectors[i].id)
    ensures Distinct(WithConnectors(s, path, connectors, n).endpoints)
  {
    if n > 0 {
      var before, k := WithConnectors(s, path, connectors, n - 1), connectors[n - 1];
      ConnectorsDistinct(s, path, connectors, n - 1);
      forall e | e in before.endpoints
        ensures !(e.key.path == path && e.key.kind == CONNECTOR_CONTACT && e.key.owner == k.id)
      {
        ConnectorsAdded(s, path, connectors, n - 1, e);
        assert IdOk(ConnectorIds(connectors), n - 1);
        assert forall j :: 0 <= j < n - 1 ==>
                 ConnectorIds(connectors)[j] == connectors[j].id && !Repeats(ConnectorIds(connectors)[j], ConnectorIds(connectors)[n - 1]);
      }
      PinsDistinct(before, path, CONNECTOR_CONTACT, k.id, k.contacts, |k.contacts|);
    }
  }

  /** No endpoint of these members' owners is listed at the path yet. */
  predicate NoneOfMembers(s: Layout, path: string, m: Members) {
    && (forall i :: 0 <= i < |m.devices| ==> NoneOf(s, path, DEVICE_TERMINAL, m.devices[i].id))
    && (forall i :: 0 <= i < |m.connectors| ==> NoneOf(s, path, CONNECTOR_CONTACT, m.connectors[i].id))
  }

  lemma {:induction false} MembersDistinct(s: Layout, path: string, m: Members)
    requires Distinct(s.endpoints) && OwnShapeOk(m) && NoneOfMembers(s, path, m)
    ensures Distinct(WithMembers(s, path, m).endpoints)
  {
    var devices := WithDevices(s, path, m.devices, |m.devices|);
    DevicesDistinct(s, path, m.devices, |m.devices|);
    forall i | 0 <= i < |m.connectors|
      ensures PinsOk(m.connectors[i].contacts) && NoneOf(devices, path, CONNECTOR_CONTACT, m.connectors[i].id)
    {
      assert ConnectorOk(m.connectors[i]);
      forall e | e in devices.endpoints
        ensures !(e.key.path == path && e.key.kind == CONNECTOR_CONTACT && e.key.owner == m.connectors[i].id)
      {
        DevicesAdded(s, path, m.devices, |m.devices|, e);
      }
    }
    ConnectorsDistinct(devices, path, m.connectors, |m.connectors|);
  }

  /** What an assembly adds to its definition, the definition has not added before. */
  lemma {:induction false} InstanceAddsNew(s: Layout, path: string, m: Members, d: Members)
    requires NoneAt(s, path) && AddsTo(m, d)
    ensures NoneOfMembers(WithMembers(s, path, d), path, m)
  {
    var t := WithMembers(s, path, d);
    forall i, e | 0 <= i < |m.devices| && e in t.endpoints
      ensures !(e.key.path == path && e.key.kind == DEVICE_TERMINAL && e.key.owner == m.devices[i].id)
    {
      if e.key.path == path && e.key.kind == DEVICE_TERMINAL {
        MembersAdded(s, path, d, e);
        DeviceIsNew(m, d, i, e);
      }
    }
    forall i, e | 0 <= i < |m.connectors| && e in t.endpoints
      ensures !(e.key.path == path && e.key.kind == CONNECTOR_CONTACT && e.key.owner == m.connectors[i].id)
    {
      if e.key.path == path && e.key.kind == CONNECTOR_CONTACT {
        MembersAdded(s, path, d, e);
        ConnectorIsNew(m, d, i, e);
      }
    }
  }

  lemma {:induction false} DeviceIsNew(m: Members, d: Members, i: nat, e: Endpoint)
    requires AddsTo(m, d) && i < |m.devices| && e.key.kind == DEVICE_TERMINAL && Declares(d, e)
    ensures e.key.owner != m.devices[i].id
  {
    var other :| other in d.devices && other.id == e.key.owner && HasPin(other.terminals, e);
    var j :| 0 <= j < |d.devices| && d.devices[j] == other;
    assert DeviceIds(d.devices)[j] == other.id && DeviceIds(m.devices)[i] == m.devices[i].id;
  }

  lemma {:induction false} ConnectorIsNew(m: Members, d: Members, i: nat, e: Endpoint)
    requires AddsTo(m, d) && i < |m.connectors| && e.key.kind == CONNECTOR_CONTACT && Declares(d, e)
    ensures e.key.owner != m.connectors[i].id
  {
    var other :| other in d.connectors && other.id == e.key.owner && HasPin(other.contacts, e);
    var j :| 0 <= j < |d.connectors| && d.connectors[j] == other;
    assert ConnectorIds(d.connectors)[j] == other.id && ConnectorIds(m.connectors)[i] == m.connectors[i].id;
  }

  /** One assembly lists each of its endpoints once, its definition's among them. */
  lemma {:induction false} AssemblyDistinct(c: Profile, s: Layout, path: string, v: View, depth: nat)
    requires Validated(c) && Checked(c, v, depth) && Distinct(s.endpoints) && NoneAt(s, path)
    ensures Distinct(WithAssembly(s, path, v).endpoints)
  {
    var d: nat :| ShapeOk(v.instance.members, d);
    var t := WithPath(s, path);
    InstanceSpreads(c, v, depth);
    if v.definition.Some? {
      var defined := v.definition.value.members;
      DefinitionShaped(c, v.definition.value);
      MembersDistinct(t, path, defined);
      InstanceAddsNew(t, path, v.instance.members, defined);
    }
    MembersDistinct(WithDefinition(t, path, v), path, v.instance.members);
  }

  // ----- all assemblies

  /** The path is that of this place or of one below it. */
  ghost predicate IsBelow(c: Profile, place: seq<nat>, path: string) {
    exists owner: seq<nat> :: IsAtOrBelow(c, place, owner, path)
  }

  predicate IsAtOrBelow(c: Profile, place: seq<nat>, owner: seq<nat>, path: string) {
    At(c, owner).Some? && place <= owner && path == PathAt(c, owner)
  }

  /** Nothing is listed yet at this place or below it. */
  ghost predicate Clear(c: Profile, s: Layout, place: seq<nat>) {
    forall e :: e in s.endpoints ==> !IsBelow(c, place, e.key.path)
  }

  /** Whatever is listed was so before, or is of an assembly at this place or below it. */
  ghost predicate ComesFrom(c: Profile, s: Layout, t: Layout, place: seq<nat>) {
    forall e :: e in t.endpoints ==> e in s.endpoints || IsBelow(c, place, e.key.path)
  }

  /** Two places of which neither is above the other share no path below them. */
  lemma {:induction false} PlacesApart(c: Profile, one: seq<nat>, other: seq<nat>, path: string)
    requires Validated(c) && |one| == |other| && one != other && IsBelow(c, one, path)
    ensures !IsBelow(c, other, path)
  {
    if IsBelow(c, other, path) {
      var a: seq<nat> :| IsAtOrBelow(c, one, a, path);
      var b: seq<nat> :| IsAtOrBelow(c, other, b, path);
      PlacesHaveOwnPaths(c, a, b);
    }
  }

  /** A place's own path is not one of a place below it. */
  lemma {:induction false} OwnPathApart(c: Profile, place: seq<nat>, k: nat)
    requires Validated(c) && At(c, place).Some?
    ensures !IsBelow(c, Below(place, k), PathAt(c, place))
  {
    if IsBelow(c, Below(place, k), PathAt(c, place)) {
      var other: seq<nat> :| IsAtOrBelow(c, Below(place, k), other, PathAt(c, place));
      PlacesHaveOwnPaths(c, place, other);
    }
  }

  lemma {:induction false} BelowIsBelow(c: Profile, place: seq<nat>, k: nat, path: string)
    requires IsBelow(c, Below(place, k), path)
    ensures IsBelow(c, place, path)
  {
    var owner: seq<nat> :| IsAtOrBelow(c, Below(place, k), owner, path);
    assert owner[..|place|] == Below(place, k)[..|place|];
    assert IsAtOrBelow(c, place, owner, path);
  }

  /** One assembly, before those below it. */
  lemma {:induction false} OwnDistinct(c: Profile, place: seq<nat>, v: View, s: Layout, own: Layout)
    requires Validated(c) && At(c, place) == Some(v) && Distinct(s.endpoints) && Clear(c, s, place)
    requires own == WithAssembly(s, PathAt(c, place), v)
    ensures Distinct(own.endpoints) && ComesFrom(c, s, own, place)
    ensures forall k: nat :: Clear(c, own, Below(place, k))
  {
    var path := PathAt(c, place);
    PlacesAreChecked(c, place);
    assert IsAtOrBelow(c, place, place, path);
    AssemblyDistinct(c, s, path, v, |place| - 1);
    forall e | e in own.endpoints
      ensures e in s.endpoints || e.key.path == path
      ensures forall k: nat :: !IsBelow(c, Below(place, k), e.key.path)
    {
      AssemblyAdded(s, path, v, EndpointItem(e));
      forall k: nat ensures !IsBelow(c, Below(place, k), e.key.path) {
        if e.key.path == path {
          OwnPathApart(c, place, k);
        } else if IsBelow(c, Below(place, k), e.key.path) {
          BelowIsBelow(c, place, k, e.key.path);
        }
      }
    }
  }

  /** Whatever is listed was so before, or is of one of the first n children or below it. */
  ghost predicate FromChildren(c: Profile, s: Layout, t: Layout, place: seq<nat>, n: nat) {
    forall e :: e in t.endpoints ==> e in s.endpoints || IsOfChild(c, place, n, e.key.path)
  }

  ghost predicate IsOfChild(c: Profile, place: seq<nat>, n: nat, path: string) {
    exists k: nat :: k < n && IsBelow(c, Below(place, k), path)
  }

  /** The walk over the assemblies, named by place: one with all below it, and the first k children of one. */
  datatype Walk = Walk(own: (seq<nat>, Layout) -> Layout, whole: (seq<nat>, Layout) -> Layout,
                       first: (seq<nat>, Layout, nat) -> Layout)

  ghost predicate Walks(c: Profile, w: Walk) {
    && (forall place: seq<nat>, s: Layout {:trigger w.whole(place, s)} :: At(c, place).Some? ==>
          w.whole(place, s) == w.first(place, w.own(place, s), ChildCount(At(c, place).value)))
    && (forall place: seq<nat>, s: Layout {:trigger w.first(place, s, 0)} :: w.first(place, s, 0) == s)
    && (forall place: seq<nat>, s: Layout, k: nat {:trigger w.whole(Below(place, k), w.first(place, s, k))} ::
          At(c, place).Some? && k < ChildCount(At(c, place).value) ==>
            w.first(place, s, k + 1) == w.whole(Below(place, k), w.first(place, s, k)))
  }

  /** Each assembly, taken alone, lists its endpoints once and nothing of those below it. */
  ghost predicate OwnListedOnce(c: Profile, w: Walk) {
    forall place: seq<nat>, s: Layout {:trigger w.own(place, s)} ::
      At(c, place).Some? && Distinct(s.endpoints) && Clear(c, s, place) ==> OwnOnce(c, place, s, w.own(place, s))
  }

  ghost predicate OwnOnce(c: Profile, place: seq<nat>, s: Layout, own: Layout) {
    && Distinct(own.endpoints) && ComesFrom(c, s, own, place)
    && forall k: nat {:trigger Below(place, k)} :: Clear(c, own, Below(place, k))
  }

  lemma {:induction false} WholeDistinct(c: Profile, w: Walk, place: seq<nat>, s: Layout)
    requires Validated(c) && Shallow(c) && Walks(c, w) && OwnListedOnce(c, w)
    requires At(c, place).Some? && Distinct(s.endpoints) && Clear(c, s, place)
    ensures Distinct(w.whole(place, s).endpoints) && ComesFrom(c, s, w.whole(place, s), place)
    decreases MAX_GRAPH_ENDPOINTS + 2 - |place|, ChildCount(At(c, place).value) + 1
  {
    var own, n := w.own(place, s), ChildCount(At(c, place).value);
    assert OwnOnce(c, place, s, own);
    FirstDistinct(c, w, place, own, n);
    AllFromHere(c, place, s, own, w.whole(place, s), n);
  }

  lemma {:induction false} AllFromHere(c: Profile, place: seq<nat>, s: Layout, own: Layout, t: Layout, n: nat)
    requires ComesFrom(c, s, own, place) && FromChildren(c, own, t, place, n)
    ensures ComesFrom(c, s, t, place)
  {
    forall e | e in t.endpoints && e !in own.endpoints ensures IsBelow(c, place, e.key.path) {
      var k: nat :| k < n && IsBelow(c, Below(place, k), e.key.path);
      BelowIsBelow(c, place, k, e.key.path);
    }
  }

  lemma {:induction false} FirstDistinct(c: Profile, w: Walk, place: seq<nat>, s: Layout, n: nat)
    requires Validated(c) && Shallow(c) && Walks(c, w) && OwnListedOnce(c, w)
    requires At(c, place).Some? && Distinct(s.endpoints) && n <= ChildCount(At(c, place).value)
    requires forall k: nat {:trigger Below(place, k)} :: Clear(c, s, Below(place, k))
    ensures Distinct(w.first(place, s, n).endpoints) && FromChildren(c, s, w.first(place, s, n), place, n)
    decreases MAX_GRAPH_ENDPOINTS + 2 - |place|, n
  {
    if n > 0 {
      var before, k := w.first(place, s, n - 1), n - 1;
      FirstDistinct(c, w, place, s, k);
      NextChildClear(c, place, s, before, k);
      PlaceBelow(c, place, k);
      WholeDistinct(c, w, Below(place, k), before);
      OneMoreChild(c, place, s, before, w.whole(Below(place, k), before), n);
    } else {
      assert w.first(place, s, 0) == s;
    }
  }

  lemma {:induction false} NextChildClear(c: Profile, place: seq<nat>, s: Layout, before: Layout, k: nat)
    requires Validated(c) && Clear(c, s, Below(place, k)) && FromChildren(c, s, before, place, k)
    ensures Clear(c, before, Below(place, k))
  {
    forall e | e in before.endpoints ensures !IsBelow(c, Below(place, k), e.key.path) {
      if e !in s.endpoints {
        var j: nat :| j < k && IsBelow(c, Below(place, j), e.key.path);
        assert Below(place, j)[|place|] != Below(place, k)[|place|];
        PlacesApart(c, Below(place, j), Below(place, k), e.key.path);
      }
    }
  }

  lemma {:induction false} OneMoreChild(c: Profile, place: seq<nat>, s: Layout, before: Layout, t: Layout, n: nat)
    requires n > 0 && FromChildren(c, s, before, place, n - 1) && ComesFrom(c, before, t, Below(place, n - 1))
    ensures FromChildren(c, s, t, place, n)
  {
    forall e | e in t.endpoints && e !in s.endpoints ensures IsOfChild(c, place, n, e.key.path) {
      if e in before.endpoints {
        var k: nat :| k < n - 1 && IsBelow(c, Below(place, k), e.key.path);
        assert k < n && IsBelow(c, Below(place, k), e.key.path);
      } else {
        assert IsBelow(c, Below(place, n - 1), e.key.path);
      }
    }
  }

  const NOTHING := Layout([], [], true)

  function OwnAt(c: Profile, place: seq<nat>, s: Layout): Layout {
    if At(c, place).Some? then WithAssembly(s, PathAt(c, place), At(c, place).value) else s
  }

  function WholeAt(c: Profile, place: seq<nat>, s: Layout): Layout {
    if At(c, place).Some? && place != [] then LaidOut(c, At(c, place).value, PathAt(c, place), |place| - 1, s) else s
  }

  function FirstAt(c: Profile, place: seq<nat>, s: Layout, n: nat): Layout {
    if At(c, place).Some? && n <= ChildCount(At(c, place).value) && 1 <= |place| <= MAX_GRAPH_ENDPOINTS + 1
    then WithChildren(c, At(c, place).value, PathAt(c, place), |place| - 1, s, n)
    else s
  }

  function TheWalk(c: Profile): Walk {
    Walk((place: seq<nat>, s: Layout) => OwnAt(c, place, s), (place: seq<nat>, s: Layout) => WholeAt(c, place, s),
         (place: seq<nat>, s: Layout, n: nat) => FirstAt(c, place, s, n))
  }

  lemma {:induction false} NextChild(c: Profile, place: seq<nat>, s: Layout, k: nat)
    requires Shallow(c) && At(c, place).Some? && k < ChildCount(At(c, place).value)
    ensures FirstAt(c, place, s, k + 1) == WholeAt(c, Below(place, k), FirstAt(c, place, s, k))
  {
    PlaceBelow(c, place, k);
  }

  lemma {:induction false} TheWalkWalks(c: Profile)
    requires Shallow(c)
    ensures Walks(c, TheWalk(c))
  {
    forall place: seq<nat>, s: Layout, k: nat | At(c, place).Some? && k < ChildCount(At(c, place).value)
      ensures FirstAt(c, place, s, k + 1) == WholeAt(c, Below(place, k), FirstAt(c, place, s, k))
    {
      NextChild(c, place, s, k);
    }
  }

  lemma {:induction false} TheWalkListsOnce(c: Profile)
    requires Validated(c)
    ensures OwnListedOnce(c, TheWalk(c))
  {
    forall place: seq<nat>, s: Layout | At(c, place).Some? && Distinct(s.endpoints) && Clear(c, s, place)
      ensures OwnOnce(c, place, s, OwnAt(c, place, s))
    {
      OwnDistinct(c, place, At(c, place).value, s, OwnAt(c, place, s));
    }
  }

  lemma {:induction false} RootIs(c: Profile, k: nat)
    requires k < |c.roots|
    ensures At(c, Below([], k)).Some? && RootsLaidOut(c, k + 1) == WholeAt(c, Below([], k), RootsLaidOut(c, k))
  {
    assert Below([], k) == [k];
  }

  function AllRoots(c: Profile): nat -> Layout {
    (k: nat) => if k <= |c.roots| then RootsLaidOut(c, k) else NOTHING
  }

  /** The roots are walked one after another, from nothing. */
  ghost predicate IsNextRoot(c: Profile, w: Walk, all: nat -> Layout, k: nat) {
    At(c, Below([], k)).Some? && all(k + 1) == w.whole(Below([], k), all(k))
  }

  lemma {:induction false} RootsAreWalked(c: Profile, k: nat)
    requires k < |c.roots|
    ensures IsNextRoot(c, TheWalk(c), AllRoots(c), k)
  {
    RootIs(c, k);
  }

  lemma {:induction false} RootsDistinct(c: Profile, w: Walk, all: nat -> Layout, n: nat)
    requires Validated(c) && Shallow(c) && Walks(c, w) && OwnListedOnce(c, w) && all(0) == NOTHING
    requires forall k: nat :: k < n ==> IsNextRoot(c, w, all, k)
    ensures Distinct(all(n).endpoints) && FromChildren(c, NOTHING, all(n), [], n)
  {
    if n > 0 {
      var k := n - 1;
      RootsDistinct(c, w, all, k);
      assert IsNextRoot(c, w, all, k);
      NextRootDistinct(c, w, all(k), all(n), k);
    }
  }

  lemma {:induction false} NextRootDistinct(c: Profile, w: Walk, before: Layout, t: Layout, k: nat)
    requires Validated(c) && Shallow(c) && Walks(c, w) && OwnListedOnce(c, w) && At(c, Below([], k)).Some?
    requires Distinct(before.endpoints) && FromChildren(c, NOTHING, before, [], k) && t == w.whole(Below([], k), before)
    ensures Distinct(t.endpoints) && FromChildren(c, NOTHING, t, [], k + 1)
  {
    NextChildClear(c, [], NOTHING, before, k);
    WholeDistinct(c, w, Below([], k), before);
    OneMoreChild(c, [], NOTHING, before, t, k + 1);
  }

  /** No endpoint of a validated profile is listed twice: expanding it never finds a duplicate. */
  lemma {:induction false} ValidatedEndpointsAreDistinct(c: Profile)
    requires Validated(c)
    ensures Distinct(LayoutOf(c).endpoints)
  {
    ValidatedIsShallow(c);
    TheWalkWalks(c);
    TheWalkListsOnce(c);
    forall k: nat | k < |c.roots| ensures IsNextRoot(c, TheWalk(c), AllRoots(c), k) {
      RootsAreWalked(c, k);
    }
    RootsDistinct(c, TheWalk(c), AllRoots(c), |c.roots|);
  }

  // ----- and none too deep

  lemma {:induction false} WholeShallow(c: Profile, w: Walk, place: seq<nat>, s: Layout)
    requires Shallow(c) && Walks(c, w) && At(c, place).Some?
    requires forall p: seq<nat>, t: Layout {:trigger w.own(p, t)} :: w.own(p, t).shallow == t.shallow
    ensures w.whole(place, s).shallow == s.shallow
    decreases MAX_GRAPH_ENDPOINTS + 2 - |place|, ChildCount(At(c, place).value) + 1
  {
    FirstShallow(c, w, place, w.own(place, s), ChildCount(At(c, place).value));
  }

  lemma {:induction false} FirstShallow(c: Profile, w: Walk, place: seq<nat>, s: Layout, n: nat)
    requires Shallow(c) && Walks(c, w) && At(c, place).Some? && n <= ChildCount(At(c, place).value)
    requires forall p: seq<nat>, t: Layout {:trigger w.own(p, t)} :: w.own(p, t).shallow == t.shallow
    ensures w.first(place, s, n).shallow == s.shallow
    decreases MAX_GRAPH_ENDPOINTS + 2 - |place|, n
  {
    if n > 0 {
      FirstShallow(c, w, place, s, n - 1);
      PlaceBelow(c, place, n - 1);
      WholeShallow(c, w, Below(place, n - 1), w.first(place, s, n - 1));
    } else {
      assert w.first(place, s, 0) == s;
    }
  }

  lemma {:induction false} PinsShallow(s: Layout, path: string, kind: uint8, owner: CStr, pins: seq<Pin>, n: nat)
    requires n <= |pins|
    ensures WithPins(s, path, kind, owner, pins, n).shallow == s.shallow
  {
    if n > 0 {
      PinsShallow(s, path, kind, owner, pins, n - 1);
    }
  }

  lemma {:induction false} DevicesShallow(s: Layout, path: string, devices: seq<Device>, n: nat)
    requires n <= |devices|
    ensures WithDevices(s, path, devices, n).shallow == s.shallow
  {
    if n > 0 {
      var d := devices[n - 1];
      DevicesShallow(s, path, devices, n - 1);
      PinsShallow(WithDevices(s, path, devices, n - 1), path, DEVICE_TERMINAL, d.id, d.terminals, |d.terminals|);
    }
  }

  lemma {:induction false} ConnectorsShallow(s: Layout, path: string, connectors: seq<Connector>, n: nat)
    requires n <= |connectors|
    ensures WithConnectors(s, path, connectors, n).shallow == s.shallow
  {
    if n > 0 {
      var k := connectors[n - 1];
      ConnectorsShallow(s, path, connectors, n - 1);
      PinsShallow(WithConnectors(s, path, connectors, n - 1), path, CONNECTOR_CONTACT, k.id, k.contacts, |k.contacts|);
    }
  }

  lemma {:induction false} MembersShallow(s: Layout, path: string, m: Members)
    ensures WithMembers(s, path, m).shallow == s.shallow
  {
    DevicesShallow(s, path, m.devices, |m.devices|);
    ConnectorsShallow(WithDevices(s, path, m.devices, |m.devices|), path, m.connectors, |m.connectors|);
  }

  lemma {:induction false} AssemblyShallow(s: Layout, path: string, v: View)
    ensures WithAssembly(s, path, v).shallow == s.shallow
  {
    var t := WithPath(s, path);
    if v.definition.Some? {
      MembersShallow(t, path, v.definition.value.members);
    }
    MembersShallow(WithDefinition(t, path, v), path, v.instance.members);
  }

  lemma {:induction false} OwnShallow(c: Profile, place: seq<nat>, s: Layout)
    ensures OwnAt(c, place, s).shallow == s.shallow
  {
    if At(c, place).Some? {
      AssemblyShallow(s, PathAt(c, place), At(c, place).value);
    }
  }

  lemma {:induction false} RootsShallow(c: Profile, w: Walk, all: nat -> Layout, n: nat)
    requires Shallow(c) && Walks(c, w) && all(0) == NOTHING
    requires forall p: seq<nat>, t: Layout {:trigger w.own(p, t)} :: w.own(p, t).shallow == t.shallow
    requires forall k: nat :: k < n ==> IsNextRoot(c, w, all, k)
    ensures all(n).shallow
  {
    if n > 0 {
      var k := n - 1;
      RootsShallow(c, w, all, k);
      assert IsNextRoot(c, w, all, k);
      WholeShallow(c, w, Below([], k), all(k));
    }
  }

  lemma {:induction false} ValidatedLayoutIsShallow(c: Profile)
    requires Shallow(c)
    ensures LayoutOf(c).shallow
  {
    TheWalkWalks(c);
    forall p: seq<nat>, t: Layout ensures OwnAt(c, p, t).shallow == t.shallow {
      OwnShallow(c, p, t);
    }
    forall k: nat | k < |c.roots| ensures IsNextRoot(c, TheWalk(c), AllRoots(c), k) {
      RootsAreWalked(c, k);
    }
    RootsShallow(c, TheWalk(c), AllRoots(c), |c.roots|);
  }

  /** What can keep the assemblies and endpoints of a validated profile from the graph is their number alone. */
  lemma {:induction false} ValidatedFitsIff(c: Profile)
    requires Validated(c)
    ensures Fits(LayoutOf(c)) <==>
            |LayoutOf(c).paths| <= MAX_GRAPH_ASSEMBLIES && |LayoutOf(c).endpoints| <= MAX_GRAPH_ENDPOINTS
  {
    ValidatedEndpointsAreDistinct(c);
    ValidatedIsShallow(c);
    ValidatedLayoutIsShallow(c);
  }
}
