/** What the broker delivers for the registry's filters, and what becomes of it: nothing asked for is dropped. */
module Delivery {
  import opened Common
  import opened Resources
  import opened Registry
  import opened RegistryRuns

  /** The topic matches the filter level by level, where a single plus matches any level (section 4.7 of MQTT 3.1.1). */
  predicate Matches(filter: string, topic: string)
    decreases |filter|
  {
    var f, t := IndexFrom(filter, '/', 0), IndexFrom(topic, '/', 0);
    && (filter[..f] == "+" || filter[..f] == topic[..t])
    && (if f == |filter| then t == |topic| else t < |topic| && Matches(filter[f + 1..], topic[t + 1..]))
  }

  lemma {:induction false} LevelsBack(topic: string)
    ensures var t := IndexFrom(topic, '/', 0);
            topic == if t < |topic| then topic[..t] + "/" + topic[t + 1..] else topic[..t]
  {
  }

  /** Without a wildcard a filter matches one topic. */
  lemma {:induction false} PlainFilterMatches(filter: string, topic: string)
    requires '+' !in filter
    ensures Matches(filter, topic) <==> filter == topic
    decreases |filter|
  {
    var f, t := IndexFrom(filter, '/', 0), IndexFrom(topic, '/', 0);
    var plus: string := "+";
    assert plus[0] == '+';
    assert filter[..f] != plus;
    LevelsBack(filter);
    LevelsBack(topic);
    if f < |filter| && t < |topic| {
      PlainFilterMatches(filter[f + 1..], topic[t + 1..]);
    }
  }

  lemma {:induction false} WildcardMatches(rest: string, topic: string)
    requires '+' !in rest
    ensures var t := IndexFrom(topic, '/', 0);
            Matches("+/" + rest, topic) <==> t < |topic| && topic == topic[..t] + "/" + rest
  {
    var plus: string := "+";
    assert plus[0] == '+';
    SplitAtSlash(plus, rest);
    assert "+/" + rest == plus + "/" + rest;
    LevelsBack(topic);
    var t := IndexFrom(topic, '/', 0);
    if t < |topic| {
      PlainFilterMatches(rest, topic[t + 1..]);
      if topic == topic[..t] + "/" + rest {
        assert topic[t + 1..] == rest;
      }
    }
  }

  // ----- manifests

  /** A device's compact manifest is asked for by those that follow it, and no readable one is asked for by name. */
  lemma {:induction false} ManifestsNeeded(r: Table, d: string)
    requires ValidName(d)
    ensures NeedsSubscription(r, ManifestTopic(d, MsgPack)) <==> OwnerInUse(r.entries, r.device, d, -1)
    ensures !NeedsSubscription(r, ManifestTopic(d, JsonFormat))
  {
    ManifestIsShared(r, -1, d);
    ParseManifestTopic(d, MsgPack);
    ParseManifestTopic(d, JsonFormat);
    WildcardsAreForeign();
    assert NeedsSubscription(r, ManifestTopic(d, MsgPack)) <==> OthersNeed(r, -1, ManifestTopic(d, MsgPack));
    forall i | 0 <= i < |r.entries| ensures !Claims(r.entries[i], r.device, ManifestTopic(d, JsonFormat)) {
      ClaimsOfOne(r.entries[i], r.device, ManifestTopic(d, JsonFormat));
    }
  }

  /** The two wildcard filters are asked for by the handlers alone. */
  lemma {:induction false} WildcardsNeeded(r: Table)
    ensures NeedsSubscription(r, ALL_MANIFESTS) <==> r.json
    ensures NeedsSubscription(r, ALL_ENCODED_MANIFESTS) <==> r.packed
  {
    WildcardsAreForeign();
    WildcardsDiffer();
    forall i | 0 <= i < |r.entries|
      ensures !Claims(r.entries[i], r.device, ALL_MANIFESTS) && !Claims(r.entries[i], r.device, ALL_ENCODED_MANIFESTS)
    {
      ClaimsOfOne(r.entries[i], r.device, ALL_MANIFESTS);
      ClaimsOfOne(r.entries[i], r.device, ALL_ENCODED_MANIFESTS);
    }
  }

  /** A compact manifest is taken exactly when it is another device's and was asked for, by name or for all devices. */
  lemma {:induction false} EncodedManifestTakenIff(r: Table, d: string, retained: bool)
    requires ValidName(d)
    ensures Route(r, ManifestTopic(d, MsgPack), retained) ==
            if d != r.device && (NeedsSubscription(r, ManifestTopic(d, MsgPack)) || NeedsSubscription(r, ALL_ENCODED_MANIFESTS))
            then EncodedManifest(d) else NotOurs
  {
    ParseManifestTopic(d, MsgPack);
    ManifestsNeeded(r, d);
    WildcardsNeeded(r);
  }

  /** A readable one exactly when it is another device's and all of them were asked for. */
  lemma {:induction false} ReadableManifestTakenIff(r: Table, d: string, retained: bool)
    requires ValidName(d)
    ensures Route(r, ManifestTopic(d, JsonFormat), retained) ==
            if d != r.device && NeedsSubscription(r, ALL_MANIFESTS) then ReadableManifest(d) else NotOurs
  {
    ParseManifestTopic(d, JsonFormat);
    WildcardsNeeded(r);
  }

  // ----- every message

  /** The broker delivers this topic for some filter the registry needs. */
  ghost predicate AskedFor(r: Table, topic: string) {
    exists f :: NeedsSubscription(r, f) && Matches(f, topic)
  }

  function Sender(topic: string): string {
    topic[..IndexFrom(topic, '/', 0)]
  }

  /** A manifest of the device's own, or from a sender whose name is no device name. */
  predicate OwnOrNameless(r: Table, topic: string) {
    !ValidName(Sender(topic)) || (Sender(topic) == r.device && ParseTopic(topic).Manifest?)
  }

  /** A write to a value of this device that may only be read: nothing asks for it, but it is taken, to be refused. */
  predicate ForbiddenWrite(r: Table, topic: string) {
    exists i :: 0 <= i < |r.entries| && IsForbiddenWrite(r.entries[i], r.device, topic)
  }

  predicate IsForbiddenWrite(e: Entry, device: string, topic: string) {
    && e.managed && e.shape.Value? && e.shape.access != READ_WRITE
    && topic == ResourceTopic(device, e.name, Set)
  }

  lemma {:induction false} NoPlusInNames(d: string, rest: string)
    requires ValidSegment(d) && '+' !in rest
    ensures '+' !in d + rest
  {
  }

  lemma {:induction false} TopicsHaveNoPlus(d: string, name: string, op: Operation)
    requires ValidSegment(d) && ValidSegment(name)
    ensures '+' !in ResourceTopic(d, name, op) && '+' !in ManifestTopic(d, MsgPack)
  {
    NoPlusInNames(d, "/manifest/msgpack");
    NoPlusInNames(name, "/" + Suffix(op));
    NoPlusInNames(d, "/resource/" + (name + "/" + Suffix(op)));
    assert ResourceTopic(d, name, op) == d + ("/resource/" + (name + "/" + Suffix(op)));
  }

  lemma {:induction false} SenderOf(d: string, rest: string)
    requires ValidName(d)
    ensures Sender(d + "/" + rest) == d
  {
    SplitAtSlash(d, rest);
  }

  /** A filter that an entry needs matches nothing but itself. */
  lemma {:induction false} ClaimMatches(e: Entry, device: string, f: string, topic: string)
    requires f != "" && Claims(e, device, f)
    ensures Matches(f, topic) <==> topic == f
  {
    var name := if e.shape.Action? then Invoke else State;
    if Ingress(e, device) == f {
      TopicsHaveNoPlus(Owner(e, device), AddressName(e), IngressOperation(e).value);
    } else {
      TopicsHaveNoPlus(e.owner, e.owner, name);
    }
    PlainFilterMatches(f, topic);
  }

  function Wildcard(format: Format): string {
    if format == JsonFormat then ALL_MANIFESTS else ALL_ENCODED_MANIFESTS
  }

  function Rest(format: Format): string {
    if format == JsonFormat then "manifest/json" else "manifest/msgpack"
  }

  lemma {:induction false} WildcardSplits(format: Format)
    ensures Wildcard(format) == "+/" + Rest(format)
  {
  }

  lemma {:induction false} RestHasNoPlus(format: Format)
    ensures '+' !in Rest(format)
  {
  }

  lemma {:induction false} ManifestSplits(sender: string, format: Format)
    ensures ManifestTopic(sender, format) == sender + "/" + Rest(format)
  {
  }

  /** The wildcard filter of a format matches the manifests of that format, of whatever sender. */
  lemma {:induction false} WildcardTopic(filter: string, rest: string, topic: string)
    requires filter == "+/" + rest && '+' !in rest
    ensures Matches(filter, topic) <==> Sender(topic) != topic && topic == Sender(topic) + "/" + rest
  {
    WildcardMatches(rest, topic);
  }

  lemma {:induction false} WildcardIsTaken(r: Table, format: Format, topic: string, retained: bool)
    requires NeedsSubscription(r, Wildcard(format)) && !OwnOrNameless(r, topic)
    requires topic == ManifestTopic(Sender(topic), format)
    ensures Route(r, topic, retained) != NotOurs
  {
    ParseManifestTopic(Sender(topic), format);
    if format == JsonFormat {
      ReadableManifestTakenIff(r, Sender(topic), retained);
    } else {
      EncodedManifestTakenIff(r, Sender(topic), retained);
    }
  }

  lemma {:induction false} FollowedIsTaken(r: Table, i: nat, topic: string, retained: bool)
    requires Valid(r) && i < |r.entries| && Follows(r.entries[i], r.device, r.entries[i].owner)
    requires topic == ManifestTopic(r.entries[i].owner, MsgPack)
    ensures Route(r, topic, retained) != NotOurs
  {
    var d := r.entries[i].owner;
    assert Placed(r.entries[i], r.device);
    EncodedManifestTakenIff(r, d, retained);
    ManifestsNeeded(r, d);
  }

  /** Nothing the broker delivers for the registry is dropped, but for the device's own manifests. */
  lemma {:induction false} AskedForIsTaken(r: Table, f: string, topic: string, retained: bool)
    requires Valid(r) && NeedsSubscription(r, f) && Matches(f, topic) && !OwnOrNameless(r, topic)
    ensures Route(r, topic, retained) != NotOurs
  {
    if HandlerClaims(r, f) {
      var format := if f == ALL_MANIFESTS then JsonFormat else MsgPack;
      WildcardSplits(format);
      RestHasNoPlus(format);
      WildcardTopic(f, Rest(format), topic);
      ManifestSplits(Sender(topic), format);
      WildcardIsTaken(r, format, topic, retained);
    } else {
      var i :| 0 <= i < |r.entries| && Claims(r.entries[i], r.device, f);
      ClaimMatches(r.entries[i], r.device, f, topic);
      if Ingress(r.entries[i], r.device) == f {
        IngressReachesItsResource(r, i, retained);
      } else {
        FollowedIsTaken(r, i, topic, retained);
      }
    }
  }

  lemma {:induction false} ReplayedIsEvent(e: Entry, i: nat, operation: string)
    requires RouteTo(e, i, operation, true).RetainedEvent?
    ensures RouteTo(e, i, operation, true).index == i && operation == Suffix(Occurrence)
    ensures IngressOperation(e) == Some(Occurrence)
  {
  }

  /** A replayed event came in on the ingress topic of the resource whose event it is. */
  lemma {:induction false} RetainedTopicIsPrinted(r: Table, topic: string)
    requires Route(r, topic, true).RetainedEvent?
    ensures var d := Route(r, topic, true); d.index < |r.entries| && topic == Ingress(r.entries[d.index], r.device)
  {
    var p := ParseTopic(topic);
    PrintParsedTopic(topic);
    var found := FindResource(r, p.device, p.name, 0);
    ReplayedIsEvent(r.entries[found.value], found.value, p.operation);
  }

  lemma {:induction false} ManifestPath(device: string, path: string)
    requires ParsePath(device, path).Manifest?
    ensures ParsePath(device, path).device == device && path == Rest(ParsePath(device, path).format)
  {
  }

  lemma {:induction false} ManifestIsPrinted(topic: string)
    requires ParseTopic(topic).Manifest?
    ensures ParseTopic(topic).device == Sender(topic) && ValidName(Sender(topic))
    ensures topic == ManifestTopic(Sender(topic), ParseTopic(topic).format)
  {
    LevelsBack(topic);
    ManifestPath(Sender(topic), topic[IndexFrom(topic, '/', 0) + 1..]);
    ManifestSplits(Sender(topic), ParseTopic(topic).format);
  }

  lemma {:induction false} ResourceTopicSender(topic: string)
    requires ParseTopic(topic).Resource?
    ensures ParseTopic(topic).device == Sender(topic) && ValidName(Sender(topic))
  {
  }

  lemma {:induction false} IngressIsAskedFor(r: Table, i: nat, topic: string)
    requires i < |r.entries| && topic != "" && topic == Ingress(r.entries[i], r.device)
    ensures AskedFor(r, topic)
  {
    assert Claims(r.entries[i], r.device, topic);
    ClaimMatches(r.entries[i], r.device, topic, topic);
    assert NeedsSubscription(r, topic) && Matches(topic, topic);
  }

  lemma {:induction false} TakenManifestIsAskedFor(r: Table, topic: string, retained: bool)
    requires ParseTopic(topic).Manifest? && Route(r, topic, retained) != NotOurs
    ensures AskedFor(r, topic) && !OwnOrNameless(r, topic)
  {
    var d, format := Sender(topic), ParseTopic(topic).format;
    ManifestIsPrinted(topic);
    ReadableManifestTakenIff(r, d, retained);
    EncodedManifestTakenIff(r, d, retained);
    if NeedsSubscription(r, Wildcard(format)) {
      ManifestMatchesWildcard(topic, d, format);
      assert Matches(Wildcard(format), topic);
    } else {
      TopicsHaveNoPlus(d, d, State);
      PlainFilterMatches(topic, topic);
      assert NeedsSubscription(r, topic) && Matches(topic, topic);
    }
  }

  lemma {:induction false} ManifestMatchesWildcard(topic: string, d: string, format: Format)
    requires ValidName(d) && d == Sender(topic) && topic == ManifestTopic(d, format)
    ensures Matches(Wildcard(format), topic)
  {
    WildcardSplits(format);
    RestHasNoPlus(format);
    ManifestSplits(d, format);
    WildcardTopic(Wildcard(format), Rest(format), topic);
    assert |topic| > |d|;
  }

  lemma {:induction false} TakenByResourceIsAskedFor(r: Table, topic: string, retained: bool)
    requires ParseTopic(topic).Resource? && Route(r, topic, retained) != NotOurs
    ensures AskedFor(r, topic) || ForbiddenWrite(r, topic)
    ensures !OwnOrNameless(r, topic)
  {
    ResourceTopicSender(topic);
    var d := Route(r, topic, retained);
    if d.RetainedEvent? {
      RetainedTopicIsPrinted(r, topic);
      IngressIsAskedFor(r, d.index, topic);
    } else {
      DispatchedTopicIsPrinted(r, topic, retained);
      if topic == Ingress(r.entries[d.index], r.device) {
        IngressIsAskedFor(r, d.index, topic);
      } else {
        ForbiddenIsSet(r, topic, retained);
        assert IsForbiddenWrite(r.entries[d.index], r.device, topic);
      }
    }
  }

  lemma {:induction false} ForbiddenIsSet(r: Table, topic: string, retained: bool)
    requires Route(r, topic, retained).ToResource?
    ensures var d := Route(r, topic, retained);
            d.index < |r.entries|
            && (r.entries[d.index].managed && r.entries[d.index].shape.Value? ==> d.operation == Set)
  {
  }

  lemma {:induction false} ForbiddenWriteIsTaken(r: Table, i: nat, topic: string, retained: bool)
    requires Valid(r) && i < |r.entries| && IsForbiddenWrite(r.entries[i], r.device, topic)
    ensures Route(r, topic, retained) == ToResource(i, Set)
  {
    AddressReachesItsResource(r, i, Set, retained);
    OperationsReadBack(Set);
  }

  /**
   * A message is taken if and only if the broker delivers it for a filter the registry needs and it is no manifest of
   * the device's own, or it is a write to a value that may only be read.
   */
  lemma {:induction false} TakenIff(r: Table, topic: string, retained: bool)
    requires Valid(r)
    ensures Route(r, topic, retained) != NotOurs <==>
            (AskedFor(r, topic) && !OwnOrNameless(r, topic)) || ForbiddenWrite(r, topic)
  {
    if Route(r, topic, retained) != NotOurs {
      if ParseTopic(topic).Manifest? {
        TakenManifestIsAskedFor(r, topic, retained);
      } else {
        TakenByResourceIsAskedFor(r, topic, retained);
      }
    }
    if AskedFor(r, topic) && !OwnOrNameless(r, topic) {
      var f :| NeedsSubscription(r, f) && Matches(f, topic);
      AskedForIsTaken(r, f, topic, retained);
    }
    if i :| 0 <= i < |r.entries| && IsForbiddenWrite(r.entries[i], r.device, topic) {
      ForbiddenWriteIsTaken(r, i, topic, retained);
    }
  }
}
