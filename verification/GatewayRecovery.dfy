/** Recovering the last wills of another gateway's clients: once per life of that gateway, in whatever order its
    retained status and snapshot arrive. */
module GatewayRecovery {
  import opened Common
  import opened Documents

  datatype Message = Message(topic: string, payload: seq<uint8>, persistent: bool)

  /** What is remembered of one gateway. An empty generation means none is known. */
  datatype Gateway = Gateway(id: string, generation: string, snapshotGeneration: string, offlineGeneration: string,
                             wills: seq<Message>, applied: bool)

  function Unknown(id: string): Gateway {
    Gateway(id, "", "", "", [], false)
  }

  // ----- reading a message

  datatype Notice =
    | Snapshot(generation: string, wills: seq<Message>)
    | Online(generation: string)
    | Offline(generation: string)

  /** What a message is to the recovery: nothing, a malformed document about a gateway, or a notice about it. */
  datatype Reading = NotOurs | Refused(id: string) | Accepted(id: string, notice: Notice)

  function SuffixId(topic: string, suffix: string): Option<string> {
    if |topic| <= |suffix| || topic[|topic| - |suffix|..] != suffix || '/' in topic[..|topic| - |suffix|] then None
    else Some(topic[..|topic| - |suffix|])
  }

  function Bytes(items: seq<Json>): seq<uint8>
    requires forall i :: 0 <= i < |items| ==> IsByte(items[i])
  {
    seq(|items|, i requires 0 <= i < |items| && IsByte(items[i]) => items[i].n as uint8)
  }

  /** The will of one client, if it is connected and its will is well formed. */
  function Will(client: Json): Option<Message> {
    var will := Field(client, "last_will");
    var topic, payload := Field(will, "topic"), Field(will, "payload");
    if Field(client, "connected") != Bool(true) || !topic.Str? || topic.text == "" || !payload.Arr?
       || exists i :: 0 <= i < |payload.items| && !IsByte(payload.items[i]) then None
    else Some(Message(topic.text, Bytes(payload.items), Field(will, "retained") == Bool(true)))
  }

  function Wills(clients: seq<Json>): seq<Message> {
    if clients == [] then []
    else
      var before, last := Wills(clients[..|clients| - 1]), Will(clients[|clients| - 1]);
      if last.Some? then before + [last.value] else before
  }

  function Read(topic: string, root: Option<Json>): Reading {
    var clientsId, statusId := SuffixId(topic, "/gateway/clients"), SuffixId(topic, "/status");
    var id := if clientsId.Some? then clientsId else statusId;
    if id.None? || root.None? then NotOurs
    else
      var generation := Field(root.value, "generation");
      if Field(root.value, "id") != Str(id.value) || !generation.Str? then NotOurs
      else if clientsId.Some? then
        var clients := Field(root.value, "clients");
        if !clients.Arr? then Refused(id.value) else Accepted(id.value, Snapshot(generation.text, Wills(clients.items)))
      else
        var online := Field(root.value, "online");
        if Field(root.value, "kind") != Str("gateway") || !online.Bool? then Refused(id.value)
        else Accepted(id.value, if online.flag then Online(generation.text) else Offline(generation.text))
  }

  // ----- what is read from any document

  /** A connected client's entry with this will: a topic that is not empty, and a list of bytes. */
  ghost predicate LeavesWill(client: Json, will: Message) {
    && client.Obj? && "connected" in client.fields && client.fields["connected"] == Bool(true)
    && "last_will" in client.fields && client.fields["last_will"].Obj?
    && var fields := client.fields["last_will"].fields;
       && "topic" in fields && fields["topic"] == Str(will.topic) && will.topic != ""
       && "payload" in fields && fields["payload"].Arr? && |fields["payload"].items| == |will.payload|
       && (forall i :: 0 <= i < |will.payload| ==> fields["payload"].items[i] == Num(will.payload[i]))
       && (will.persistent <==> "retained" in fields && fields["retained"] == Bool(true))
  }

  lemma {:induction false} WillIsLeft(client: Json, will: Message)
    ensures Will(client) == Some(will) <==> LeavesWill(client, will)
  {
    var payload := Field(Field(client, "last_will"), "payload");
    if Will(client) == Some(will) {
      assert IsByte(Num(0));
      assert forall i :: 0 <= i < |payload.items| ==> IsByte(payload.items[i]);
    }
    if LeavesWill(client, will) {
      assert forall i :: 0 <= i < |payload.items| ==> IsByte(payload.items[i]);
      assert Bytes(payload.items) == will.payload;
    }
  }

  /** The wills found are those present among the candidates, at these places in order. */
  ghost predicate Picked(candidates: seq<Option<Message>>, found: seq<Message>, at: seq<nat>) {
    && |at| == |found|
    && (forall k :: 0 <= k < |at| ==> IsPick(candidates, found[k], at[k]))
    && (forall j, k :: 0 <= j < k < |at| ==> at[j] < at[k])
    && (forall i :: 0 <= i < |candidates| ==> (candidates[i].Some? <==> i in at))
  }

  predicate IsPick(candidates: seq<Option<Message>>, will: Message, i: nat) {
    i < |candidates| && candidates[i] == Some(will)
  }

  lemma {:induction false} PickedNone(candidates: seq<Option<Message>>, found: seq<Message>, at: seq<nat>)
    requires Picked(candidates, found, at)
    ensures Picked(candidates + [None], found, at)
  {
    var more := candidates + [None];
    forall k | 0 <= k < |at| ensures IsPick(more, found[k], at[k]) {
      assert IsPick(candidates, found[k], at[k]);
    }
  }

  lemma {:induction false} PickedSome(candidates: seq<Option<Message>>, found: seq<Message>, at: seq<nat>, will: Message)
    requires Picked(candidates, found, at)
    ensures Picked(candidates + [Some(will)], found + [will], at + [|candidates|])
  {
    var n, more, all, places := |candidates|, candidates + [Some(will)], found + [will], at + [|candidates|];
    forall k | 0 <= k < |places| ensures IsPick(more, all[k], places[k]) {
      if k < |at| {
        assert IsPick(candidates, found[k], at[k]);
      }
    }
    forall j, k | 0 <= j < k < |places| ensures places[j] < places[k] {
      if k == |at| {
        assert IsPick(candidates, found[j], at[j]);
      }
    }
    forall i | 0 <= i < |more| ensures more[i].Some? <==> i in places {
      assert places[|at|] == n;
      if i < n {
        assert i in places <==> i in at;
      }
    }
  }

  function Candidates(clients: seq<Json>): seq<Option<Message>> {
    seq(|clients|, i requires 0 <= i < |clients| => Will(clients[i]))
  }

  lemma {:induction false} WillsArePicked(clients: seq<Json>) returns (at: seq<nat>)
    ensures Picked(Candidates(clients), Wills(clients), at)
    decreases |clients|
  {
    at := [];
    if clients != [] {
      var n := |clients| - 1;
      at := WillsArePicked(clients[..n]);
      assert Candidates(clients) == Candidates(clients[..n]) + [Will(clients[n])];
      if Will(clients[n]).Some? {
        PickedSome(Candidates(clients[..n]), Wills(clients[..n]), at, Will(clients[n]).value);
        at := at + [n];
      } else {
        PickedNone(Candidates(clients[..n]), Wills(clients[..n]), at);
      }
    }
  }

  /** The wills of a client list are those of its connected clients with a well-formed will, each once and in order. */
  lemma {:induction false} WillsAreThoseLeft(clients: seq<Json>) returns (at: seq<nat>)
    ensures |at| == |Wills(clients)|
    ensures forall k :: 0 <= k < |at| ==> at[k] < |clients| && LeavesWill(clients[at[k]], Wills(clients)[k])
    ensures forall j, k :: 0 <= j < k < |at| ==> at[j] < at[k]
    ensures forall i, will :: 0 <= i < |clients| && i !in at ==> !LeavesWill(clients[i], will)
  {
    at := WillsArePicked(clients);
    forall k | 0 <= k < |at| ensures LeavesWill(clients[at[k]], Wills(clients)[k]) {
      assert IsPick(Candidates(clients), Wills(clients)[k], at[k]);
      WillIsLeft(clients[at[k]], Wills(clients)[k]);
    }
    forall i, will | 0 <= i < |clients| && i !in at ensures !LeavesWill(clients[i], will) {
      assert Candidates(clients)[i].None?;
      WillIsLeft(clients[i], will);
    }
  }

  /** The document has this text under this key. */
  predicate Says(root: Option<Json>, key: string, value: Json) {
    root.Some? && root.value.Obj? && key in root.value.fields && root.value.fields[key] == value
  }

  /** A gateway's document: on a topic of its own, named and of this generation. */
  predicate IsOf(topic: string, root: Option<Json>, id: string, suffix: string, generation: string) {
    id != "" && '/' !in id && topic == id + suffix && Says(root, "id", Str(id)) && Says(root, "generation", Str(generation))
  }

  lemma {:induction false} SuffixIs(topic: string, suffix: string, id: string)
    ensures SuffixId(topic, suffix) == Some(id) <==> id != "" && '/' !in id && topic == id + suffix
  {
    var n := |topic| - |suffix|;
    if n > 0 {
      assert topic == topic[..n] + topic[n..];
    }
    if topic == id + suffix {
      assert topic[|id|..] == suffix && topic[..|id|] == id;
    }
  }

  lemma {:induction false} OneSuffix(topic: string)
    ensures SuffixId(topic, "/gateway/clients").None? || SuffixId(topic, "/status").None?
  {
    var n := |topic|;
    if n > 16 {
      assert topic[n - 7..][5] == topic[n - 2] == topic[n - 16..][14];
    }
  }

  /** Exactly which message is which notice. */
  lemma {:induction false} NoticeIff(topic: string, root: Option<Json>, id: string, generation: string)
    ensures Read(topic, root) == Accepted(id, Online(generation)) <==>
            && IsOf(topic, root, id, "/status", generation)
            && Says(root, "kind", Str("gateway")) && Says(root, "online", Bool(true))
    ensures Read(topic, root) == Accepted(id, Offline(generation)) <==>
            && IsOf(topic, root, id, "/status", generation)
            && Says(root, "kind", Str("gateway")) && Says(root, "online", Bool(false))
    ensures forall wills :: Read(topic, root) == Accepted(id, Snapshot(generation, wills)) <==>
              && IsOf(topic, root, id, "/gateway/clients", generation)
              && exists clients :: Says(root, "clients", Arr(clients)) && wills == Wills(clients)
  {
    SuffixIs(topic, "/status", id);
    SuffixIs(topic, "/gateway/clients", id);
    OneSuffix(topic);
    if root.Some? && Field(root.value, "clients").Arr? {
      assert Says(root, "clients", Arr(Field(root.value, "clients").items));
    }
  }

  // ----- one gateway

  /** A generation the gateway may still be said to have: none other is current. */
  predicate Current(g: Gateway, generation: string) {
    g.generation == "" || g.generation == generation
  }

  /** The gateway after a notice, and the wills to publish because of it. */
  function After(g: Gateway, n: Notice): (Gateway, Option<seq<Message>>) {
    match n
    case Snapshot(generation, wills) =>
      var known := g.(snapshotGeneration := generation, wills := wills);
      if g.offlineGeneration == generation && Current(g, generation) && !g.applied
      then (known.(generation := generation, applied := true), Some(wills))
      else (known, None)
    case Online(generation) => (g.(generation := generation, offlineGeneration := "", applied := false), None)
    case Offline(generation) =>
      if !Current(g, generation) then (g, None)
      else
        var gone := g.(generation := generation, offlineGeneration := generation);
        if g.snapshotGeneration == generation && !g.applied then (gone.(applied := true), Some(g.wills)) else (gone, None)
  }

  function Batch(e: Option<seq<Message>>): seq<seq<Message>> {
    if e.Some? then [e.value] else []
  }

  function Ran(g: Gateway, notices: seq<Notice>): Gateway {
    if notices == [] then g else After(Ran(g, notices[..|notices| - 1]), notices[|notices| - 1]).0
  }

  /** The batch published by the last of these notices. */
  function LastBatch(g: Gateway, notices: seq<Notice>): Option<seq<Message>>
    requires notices != []
  {
    After(Ran(g, notices[..|notices| - 1]), notices[|notices| - 1]).1
  }

  function Batches(g: Gateway, notices: seq<Notice>): nat {
    if notices == [] then 0
    else Batches(g, notices[..|notices| - 1]) + |Batch(LastBatch(g, notices))|
  }

  /** Until the gateway comes online again, its wills are published at most once. */
  lemma {:induction false} AtMostOneBatch(g: Gateway, notices: seq<Notice>)
    requires forall k :: 0 <= k < |notices| ==> !notices[k].Online?
    ensures Batches(g, notices) == if Ran(g, notices).applied && !g.applied then 1 else 0
    ensures g.applied ==> Ran(g, notices).applied
  {
    if notices != [] {
      AtMostOneBatch(g, notices[..|notices| - 1]);
    }
  }

  // ----- what was heard of a gateway

  function LastSnapshot(notices: seq<Notice>): (last: Option<Notice>)
    ensures last.Some? ==> last.value.Snapshot? && last.value in notices
  {
    if notices == [] then None
    else if notices[|notices| - 1].Snapshot? then Some(notices[|notices| - 1])
    else LastSnapshot(notices[..|notices| - 1])
  }

  function LastOnline(notices: seq<Notice>): (last: Option<Notice>)
    ensures last.Some? ==> last.value.Online? && last.value in notices
  {
    if notices == [] then None
    else if notices[|notices| - 1].Online? then Some(notices[|notices| - 1])
    else LastOnline(notices[..|notices| - 1])
  }

  /** The gateway was reported offline in this generation after it last came online. */
  predicate GoneSinceOnline(notices: seq<Notice>, generation: string) {
    notices != [] && !notices[|notices| - 1].Online?
    && (notices[|notices| - 1] == Offline(generation) || GoneSinceOnline(notices[..|notices| - 1], generation))
  }

  /** Nothing says that the gateway is gone, nor which generation it is: since it last came online, without a name, only
      snapshots of named generations have come. */
  predicate QuietSinceOnline(notices: seq<Notice>) {
    notices == [] ||
    match notices[|notices| - 1]
    case Online(generation) => generation == ""
    case Snapshot(generation, _) => generation != "" && QuietSinceOnline(notices[..|notices| - 1])
    case Offline(_) => false
  }

  predicate Nameless(g: Gateway) {
    g.generation == "" && g.offlineGeneration == "" && !g.applied
  }

  /** What the fields of a gateway remember. */
  predicate Remembers(g: Gateway, notices: seq<Notice>) {
    && (match LastSnapshot(notices)
        case Some(s) => g.snapshotGeneration == s.generation && g.wills == s.wills
        case None => g.snapshotGeneration == "" && g.wills == [])
    && (LastOnline(notices).Some? && LastOnline(notices).value.generation != "" ==>
          g.generation == LastOnline(notices).value.generation)
    && (g.offlineGeneration != "" ==> GoneSinceOnline(notices, g.offlineGeneration))
    && (Nameless(g) && !GoneSinceOnline(notices, "") <==> QuietSinceOnline(notices))
  }

  lemma {:induction false} RunRemembers(id: string, notices: seq<Notice>)
    ensures Remembers(Ran(Unknown(id), notices), notices)
  {
    if notices != [] {
      RunRemembers(id, notices[..|notices| - 1]);
    }
  }

  /** Wills are published only from the latest snapshot, or none if there was none, and only of a generation that is
      reported offline, or else by a nameless snapshot; never once another, named generation has come online. */
  lemma {:induction false} BatchIsOfTheGenerationThatWent(id: string, notices: seq<Notice>)
    requires notices != [] && LastBatch(Unknown(id), notices).Some?
    ensures var batch, generation := LastBatch(Unknown(id), notices).value, notices[|notices| - 1].generation;
            && LastSnapshot(notices) ==
               (if LastSnapshot(notices).Some? then Some(Snapshot(generation, batch)) else None)
            && (LastSnapshot(notices).None? ==> batch == [] && generation == "")
            && (GoneSinceOnline(notices, generation) || generation == "")
            && (LastOnline(notices).Some? ==> LastOnline(notices).value.generation in {"", generation})
  {
    RunRemembers(id, notices[..|notices| - 1]);
  }

  /** A snapshot publishes the wills of a gateway that no report has made offline exactly when neither has a name. */
  lemma {:induction false} UnreportedIsPublishedIff(g: Gateway, generation: string, wills: seq<Message>)
    ensures After(g, Snapshot(generation, wills)).1.Some? && g.offlineGeneration == "" <==>
            generation == "" && Nameless(g)
  {
  }

  /** Over any run, a batch is of a generation never reported offline exactly when a nameless snapshot comes while
      nothing says that the gateway is gone, nor which generation it is. */
  lemma {:induction false} UnreportedBatchIff(id: string, notices: seq<Notice>)
    requires notices != []
    ensures var last := notices[|notices| - 1];
            LastBatch(Unknown(id), notices).Some? && !GoneSinceOnline(notices, last.generation) <==>
            last.Snapshot? && last.generation == "" && QuietSinceOnline(notices[..|notices| - 1])
  {
    RunRemembers(id, notices[..|notices| - 1]);
  }

  /** Both notices, one after the other: the gateway in the end, and what was published on the way. */
  function Both(g: Gateway, first: Notice, second: Notice): (Gateway, seq<seq<Message>>) {
    var (between, one) := After(g, first);
    var (end, two) := After(between, second);
    (end, if one.Some? && two.Some? then [one.value, two.value] else if one.Some? then [one.value] else Batch(two))
  }

  /** The offline report and a snapshot of the same generation may arrive in either order. The outcome can differ only
      when an earlier snapshot of that generation, with other wills, is still waiting to be published. */
  lemma {:induction false} OrderDoesNotMatter(g: Gateway, generation: string, wills: seq<Message>)
    requires generation != ""
    ensures Both(g, Offline(generation), Snapshot(generation, wills)) ==
            Both(g, Snapshot(generation, wills), Offline(generation)) <==>
            !(g.snapshotGeneration == generation && Current(g, generation) && !g.applied && g.wills != wills)
  {
    var one := Both(g, Offline(generation), Snapshot(generation, wills));
    var two := Both(g, Snapshot(generation, wills), Offline(generation));
    assert one.0 == two.0;
    if g.snapshotGeneration == generation && Current(g, generation) && !g.applied {
      assert one.1 == [g.wills] && two.1 == [wills];
      assert one.1[0] == g.wills && two.1[0] == wills;
    }
  }

  // ----- all gateways

  function IndexOf(gateways: seq<Gateway>, id: string): (i: nat)
    ensures i <= |gateways|
    ensures i < |gateways| ==> gateways[i].id == id
    ensures forall k :: 0 <= k < i ==> gateways[k].id != id
  {
    if gateways == [] then 0
    else
      var i := IndexOf(gateways[..|gateways| - 1], id);
      if i < |gateways| - 1 || gateways[|gateways| - 1].id == id then i else |gateways|
  }

  /** The list with an entry for this gateway, added at the end if there was none. */
  function Noted(gateways: seq<Gateway>, id: string): (noted: seq<Gateway>)
    ensures IndexOf(gateways, id) < |noted|
  {
    if IndexOf(gateways, id) < |gateways| then gateways else gateways + [Unknown(id)]
  }

  /** What is known of a gateway. */
  function About(gateways: seq<Gateway>, id: string): Gateway {
    var i := IndexOf(gateways, id);
    if i < |gateways| then gateways[i] else Unknown(id)
  }

  function Consumed(gateways: seq<Gateway>, r: Reading): (seq<Gateway>, bool, Option<seq<Message>>) {
    match r
    case NotOurs => (gateways, false, None)
    case Refused(id) => (Noted(gateways, id), false, None)
    case Accepted(id, notice) =>
      var (after, emitted) := After(About(gateways, id), notice);
      (Noted(gateways, id)[IndexOf(gateways, id) := after], true, emitted)
  }

  ghost predicate OneEach(gateways: seq<Gateway>) {
    forall i, j :: 0 <= i < j < |gateways| ==> gateways[i].id != gateways[j].id
  }

  lemma {:induction false} IndexIs(gateways: seq<Gateway>, id: string, i: nat)
    requires i < |gateways| && gateways[i].id == id && OneEach(gateways)
    ensures IndexOf(gateways, id) == i
  {
  }

  lemma {:induction false} ConsumedKeepsOneEach(gateways: seq<Gateway>, r: Reading)
    requires OneEach(gateways)
    ensures OneEach(Consumed(gateways, r).0)
  {
    if !r.NotOurs? {
      assert About(gateways, r.id).id == r.id;
      assert forall k :: 0 <= k < |Noted(gateways, r.id)| && k != IndexOf(gateways, r.id) ==>
                       k < |gateways| && Noted(gateways, r.id)[k] == gateways[k] && gateways[k].id != r.id;
    }
  }

  /** A message changes what is known of the gateway it is about, as that gateway alone would change, and of no other. */
  lemma {:induction false} OnlyItsGateway(gateways: seq<Gateway>, r: Reading, id: string)
    requires OneEach(gateways)
    ensures About(Consumed(gateways, r).0, id) ==
            if r.Accepted? && r.id == id then After(About(gateways, id), r.notice).0 else About(gateways, id)
    ensures Consumed(gateways, r).2 == if r.Accepted? then After(About(gateways, r.id), r.notice).1 else None
  {
    var after := Consumed(gateways, r).0;
    ConsumedKeepsOneEach(gateways, r);
    if !r.NotOurs? {
      var at := IndexOf(gateways, r.id);
      assert forall k :: 0 <= k < |after| && k != at ==> k < |gateways| && after[k] == gateways[k];
      assert after[at].id == r.id;
      IndexIs(after, r.id, at);
      if id != r.id {
        var i := IndexOf(gateways, id);
        if i < |gateways| {
          assert after[i] == gateways[i];
          IndexIs(after, id, i);
        }
      }
    }
  }

  function ConsumedAll(readings: seq<Reading>): seq<Gateway> {
    if readings == [] then [] else Consumed(ConsumedAll(readings[..|readings| - 1]), readings[|readings| - 1]).0
  }

  /** The notices of one gateway among all messages. */
  function Of(readings: seq<Reading>, id: string): seq<Notice> {
    if readings == [] then []
    else
      var before, last := Of(readings[..|readings| - 1], id), readings[|readings| - 1];
      if last.Accepted? && last.id == id then before + [last.notice] else before
  }

  /** Over any run, each gateway is where its own notices alone would have brought it. */
  lemma {:induction false} GatewaysAreIndependent(readings: seq<Reading>, id: string)
    ensures OneEach(ConsumedAll(readings))
    ensures About(ConsumedAll(readings), id) == Ran(Unknown(id), Of(readings, id))
  {
    if readings != [] {
      var before, last := readings[..|readings| - 1], readings[|readings| - 1];
      GatewaysAreIndependent(before, id);
      ConsumedKeepsOneEach(ConsumedAll(before), last);
      OnlyItsGateway(ConsumedAll(before), last, id);
      if last.Accepted? && last.id == id {
        assert Of(readings, id)[..|Of(before, id)|] == Of(before, id);
      }
    }
  }

  // ----- the recovery itself

  class GatewayRecovery {
    var gateways: seq<Gateway>

    ghost predicate Valid()
      reads this
    {
      OneEach(gateways)
    }

    constructor ()
      ensures Valid() && gateways == []
    {
      gateways := [];
    }

    /** The entry of a gateway, made when it is first heard of. */
    method GatewayOf(id: string) returns (index: nat)
      requires Valid()
      modifies this
      ensures Valid() && gateways == Noted(old(gateways), id) && index == IndexOf(old(gateways), id)
      ensures index < |gateways| && gateways[index] == About(old(gateways), id)
    {
      ConsumedKeepsOneEach(gateways, Refused(id));
      for i := 0 to |gateways|
        invariant gateways == old(gateways)
        invariant forall k :: 0 <= k < i ==> gateways[k].id != id
      {
        if gateways[i].id == id {
          IndexIs(gateways, id, i);
          return i;
        }
      }
      index := |gateways|;
      gateways := gateways + [Unknown(id)];
    }

    method ReadPayload(items: seq<Json>) returns (payload: Option<seq<uint8>>)
      ensures payload == if exists i :: 0 <= i < |items| && !IsByte(items[i]) then None else Some(Bytes(items))
    {
      var bytes: seq<uint8> := [];
      for i := 0 to |items|
        invariant forall k :: 0 <= k < i ==> IsByte(items[k])
        invariant |bytes| == i && forall k :: 0 <= k < i ==> bytes[k] == items[k].n
      {
        if !IsByte(items[i]) {
          return None;
        }
        bytes := bytes + [items[i].n];
      }
      assert bytes == Bytes(items);
      payload := Some(bytes);
    }

    /** The wills of the connected clients, in order; malformed ones are skipped. */
    method ReadWills(clients: seq<Json>) returns (next: seq<Message>)
      ensures next == Wills(clients)
    {
      next := [];
      for i := 0 to |clients|
        invariant next == Wills(clients[..i])
      {
        assert clients[..i + 1][..i] == clients[..i];
        var will := Field(clients[i], "last_will");
        var topic, payload := Field(will, "topic"), Field(will, "payload");
        if Field(clients[i], "connected") == Bool(true) && topic.Str? && topic.text != "" && payload.Arr? {
          var bytes := ReadPayload(payload.items);
          if bytes.Some? {
            next := next + [Message(topic.text, bytes.value, Field(will, "retained") == Bool(true))];
          }
        }
      }
      assert clients[..|clients|] == clients;
    }

    method TakeSnapshot(index: nat, generation: string, next: seq<Message>, wills: seq<Message>) returns (out: seq<Message>)
      requires index < |gateways|
      modifies this
      ensures var (after, emitted) := After(old(gateways)[index], Snapshot(generation, next));
              gateways == old(gateways)[index := after] && out == if emitted.Some? then emitted.value else wills
    {
      out := wills;
      var entry := gateways[index].(snapshotGeneration := generation, wills := next);
      if entry.offlineGeneration == generation && (entry.generation == "" || entry.generation == generation) && !entry.applied {
        entry := entry.(generation := generation, applied := true);
        out := entry.wills;
      }
      gateways := gateways[index := entry];
    }

    method TakeStatus(index: nat, generation: string, online: bool, wills: seq<Message>) returns (out: seq<Message>)
      requires index < |gateways|
      modifies this
      ensures var (after, emitted) := After(old(gateways)[index], if online then Online(generation) else Offline(generation));
              gateways == old(gateways)[index := after] && out == if emitted.Some? then emitted.value else wills
    {
      out := wills;
      var entry := gateways[index];
      if online {
        entry := entry.(generation := generation, offlineGeneration := "", applied := false);
      } else if entry.generation == "" || entry.generation == generation {
        entry := entry.(generation := generation, offlineGeneration := generation);
        if entry.snapshotGeneration == generation && !entry.applied {
          out := entry.wills;
          entry := entry.(applied := true);
        }
      }
      gateways := gateways[index := entry];
    }

    /** `wills` comes back unchanged unless this message is the one that recovers a gateway. */
    method Consume(topic: string, root: Option<Json>, wills: seq<Message>) returns (ours: bool, out: seq<Message>)
      requires Valid()
      modifies this
      ensures Valid()
      ensures var c := Consumed(old(gateways), Read(topic, root));
              gateways == c.0 && ours == c.1 && out == if c.2.Some? then c.2.value else wills
    {
      ConsumedKeepsOneEach(gateways, Read(topic, root));
      ours, out := false, wills;
      var clientsId, statusId := SuffixId(topic, "/gateway/clients"), SuffixId(topic, "/status");
      if (clientsId.None? && statusId.None?) || root.None? {
        return;
      }
      var id := if clientsId.Some? then clientsId.value else statusId.value;
      var generation := Field(root.value, "generation");
      if Field(root.value, "id") != Str(id) || !generation.Str? {
        return;
      }
      var entry := GatewayOf(id);
      if clientsId.Some? {
        var clients := Field(root.value, "clients");
        if clients.Arr? {
          var next := ReadWills(clients.items);
          out := TakeSnapshot(entry, generation.text, next, wills);
          ours := true;
        }
        return;
      }
      var online := Field(root.value, "online");
      if Field(root.value, "kind") == Str("gateway") && online.Bool? {
        out := TakeStatus(entry, generation.text, online.flag, wills);
        ours := true;
      }
    }
  }
}
