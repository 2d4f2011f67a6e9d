/** What a gateway announces of itself and its clients, and what another gateway makes of it when this one is lost. */
module GatewayState {
  import opened Common
  import opened Documents
  import opened GatewayRecovery

  /** What the announcements say of the gateway itself. */
  datatype Announcer = Announcer(id: string, hardware: string, timezone: string, generation: string)

  /** A client as the broker lists it; the will of one that left none has an empty topic. */
  datatype Client = Client(mac: string, name: string, connected: bool, suspended: bool,
                           willTopic: string, willPayload: seq<uint8>, willRetained: bool)

  const STATUS := "/status"
  const CLIENTS := "/gateway/clients"

  function IdentityFields(a: Announcer, online: bool): Fields {
    map["schema" := Num(1), "name" := Str(a.id), "hardware" := Str(a.hardware), "timezone" := Str(a.timezone),
        "device" := Str(a.id), "id" := Str(a.id), "kind" := Str("gateway"), "online" := Bool(online),
        "generation" := Str(a.generation)]
  }

  function StatusDocument(a: Announcer, online: bool): Json {
    Obj(IdentityFields(a, online))
  }

  function ByteNumber(b: uint8): Json { Num(b) }

  function ClientEntry(c: Client): Json {
    Obj(map["id" := Str(c.mac), "name" := Str(c.name), "connected" := Bool(c.connected && !c.suspended),
            "last_will" := Obj(map["topic" := Str(c.willTopic), "retained" := Bool(c.willRetained),
                                   "payload" := Arr(Each(c.willPayload, ByteNumber))])])
  }

  function ClientsDocument(a: Announcer, clients: seq<Client>): Json {
    Obj(map["schema" := Num(1), "id" := Str(a.id), "generation" := Str(a.generation),
            "clients" := Arr(Each(clients, ClientEntry))])
  }

  method WritePayload(bytes: seq<uint8>) returns (payload: seq<Json>)
    ensures payload == Each(bytes, ByteNumber)
  {
    payload := [];
    for i := 0 to |bytes|
      invariant |payload| == i && forall k :: 0 <= k < i ==> payload[k] == ByteNumber(bytes[k])
    {
      payload := payload + [Num(bytes[i])];
    }
  }

  method WriteClients(a: Announcer, clients: seq<Client>) returns (doc: Json)
    ensures doc == ClientsDocument(a, clients)
  {
    var entries: seq<Json> := [];
    for i := 0 to |clients|
      invariant |entries| == i && forall k :: 0 <= k < i ==> entries[k] == ClientEntry(clients[k])
    {
      var c := clients[i];
      var payload := WritePayload(c.willPayload);
      var will: Fields := map["topic" := Str(c.willTopic), "retained" := Bool(c.willRetained), "payload" := Arr(payload)];
      entries := entries + [Obj(map["id" := Str(c.mac), "name" := Str(c.name),
                                    "connected" := Bool(c.connected && !c.suspended), "last_will" := Obj(will)])];
    }
    assert entries == Each(clients, ClientEntry);
    doc := Obj(map["schema" := Num(1), "id" := Str(a.id), "generation" := Str(a.generation), "clients" := Arr(entries)]);
  }

  // ----- what the announcements are read as

  /** The wills of the connected clients that left one, in the order of the list. */
  function LeftWills(clients: seq<Client>): seq<Message> {
    if clients == [] then []
    else
      var last := clients[|clients| - 1];
      LeftWills(clients[..|clients| - 1]) +
      (if last.connected && !last.suspended && last.willTopic != ""
       then [Message(last.willTopic, last.willPayload, last.willRetained)] else [])
  }

  lemma {:induction false} SuffixBack(id: string, suffix: string)
    requires id != "" && '/' !in id
    ensures SuffixId(id + suffix, suffix) == Some(id)
  {
    assert (id + suffix)[|id|..] == suffix && (id + suffix)[..|id|] == id;
  }

  /** The topic of a status is no topic of a client list. */
  lemma {:induction false} StatusIsNotClients(id: string)
    ensures SuffixId(id + STATUS, CLIENTS).None?
  {
    var topic := id + STATUS;
    if |topic| > |CLIENTS| {
      var n := |topic|;
      assert topic[n - 1] == STATUS[6] == 's' && topic[n - 2] == STATUS[5] == 'u';
      assert topic[n - |CLIENTS|..][|CLIENTS| - 2] == topic[n - 2] && CLIENTS[|CLIENTS| - 2] == 't';
    }
  }

  lemma {:induction false} WillBack(c: Client)
    ensures Will(ClientEntry(c)) ==
            if c.connected && !c.suspended && c.willTopic != ""
            then Some(Message(c.willTopic, c.willPayload, c.willRetained)) else None
  {
    var items := Each(c.willPayload, ByteNumber);
    assert forall i :: 0 <= i < |items| ==> IsByte(items[i]);
    assert Bytes(items) == c.willPayload;
  }

  lemma {:induction false} WillsBack(clients: seq<Client>)
    ensures Wills(Each(clients, ClientEntry)) == LeftWills(clients)
    decreases |clients|
  {
    if clients != [] {
      var n := |clients| - 1;
      assert Each(clients, ClientEntry)[..n] == Each(clients[..n], ClientEntry);
      WillsBack(clients[..n]);
      WillBack(clients[n]);
    }
  }

  /** A status is read as the notice it gives. */
  lemma {:induction false} StatusIsRead(a: Announcer, online: bool)
    requires a.id != "" && '/' !in a.id
    ensures Read(a.id + STATUS, Some(StatusDocument(a, online))) ==
            Accepted(a.id, if online then Online(a.generation) else Offline(a.generation))
  {
    SuffixBack(a.id, STATUS);
    StatusIsNotClients(a.id);
  }

  /** A client list is read as the wills of the clients that are connected and left one. */
  lemma {:induction false} ClientsAreRead(a: Announcer, clients: seq<Client>)
    requires a.id != "" && '/' !in a.id
    ensures Read(a.id + CLIENTS, Some(ClientsDocument(a, clients))) ==
            Accepted(a.id, Snapshot(a.generation, LeftWills(clients)))
  {
    SuffixBack(a.id, CLIENTS);
    WillsBack(clients);
  }

  /** A gateway that came online, listed its clients and went offline has exactly the wills they left published, once,
      by any other gateway that heard it, whatever that one knew before. */
  lemma {:induction false} LostGatewayIsRecovered(g: Gateway, a: Announcer, clients: seq<Client>, wills: seq<seq<Client>>)
    requires a.generation != ""
    ensures var snapshots := seq(|wills|, i requires 0 <= i < |wills| => Snapshot(a.generation, LeftWills(wills[i])));
            var notices := [Online(a.generation)] + snapshots + [Snapshot(a.generation, LeftWills(clients)), Offline(a.generation)];
            LastBatch(g, notices) == Some(LeftWills(clients)) && Batches(g, notices) == 1
  {
    var snapshots := seq(|wills|, i requires 0 <= i < |wills| => Snapshot(a.generation, LeftWills(wills[i])));
    var started := [Online(a.generation)] + snapshots;
    var last := Snapshot(a.generation, LeftWills(clients));
    var notices := started + [last, Offline(a.generation)];
    SnapshotsWait(g, a.generation, snapshots);
    assert notices[..|notices| - 1] == started + [last];
    assert (started + [last])[..|started|] == started;
  }

  /** While a gateway is online, snapshots publish nothing. */
  lemma {:induction false} SnapshotsWait(g: Gateway, generation: string, snapshots: seq<Notice>)
    requires generation != "" && forall s :: s in snapshots ==> s.Snapshot? && s.generation == generation
    ensures var notices := [Online(generation)] + snapshots;
            var now := Ran(g, notices);
            && Batches(g, notices) == 0
            && now.generation == generation && now.offlineGeneration == "" && !now.applied
    decreases |snapshots|
  {
    var notices := [Online(generation)] + snapshots;
    if snapshots == [] {
      assert notices[..0] == [];
    } else {
      var n := |snapshots| - 1;
      SnapshotsWait(g, generation, snapshots[..n]);
      assert notices[..|notices| - 1] == [Online(generation)] + snapshots[..n];
      assert snapshots[n] in snapshots;
    }
  }
}
