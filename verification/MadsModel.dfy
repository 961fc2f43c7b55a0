/** The whole MADS system: racing reconcilers, the snapshot cache, one server loop per stream, and a
    client at the other end of each stream, joined by FIFO connections. */
module MadsModel {
  import opened Basics
  import opened Xds
  import opened StreamLog
  import opened StreamModel
  import Cache = CacheModel
  import History = VersionHistory

  /** A discovery response on the wire. */
  datatype Message = Message(version: Version, resources: map<string, Resource>, nonce: string)

  /** The client end of a stream, and what is in flight in each direction. `received` and
      `lastRequest` are history. */
  datatype Client = Client(
    latestReceived: Option<Message>,
    latestACKed: Option<Message>,
    toServer: seq<DiscoveryRequest>,
    toClient: seq<Message>,
    received: seq<Message>,
    lastRequest: Option<DiscoveryRequest>)

  const NEW_CLIENT := Client(None, None, [], [], [], None)

  /** The MADS hasher does not tell clients apart. */
  function Hash(clientId: string): NodeId {
    ""
  }

  function VersionOf(m: Option<Message>): Version {
    if m.Some? then m.value.version else ""
  }

  // ---------- the client's operations ----------

  function Sends(cl: Client, d: DiscoveryRequest): Client {
    cl.(toServer := cl.toServer + [d], lastRequest := Some(d))
  }

  function RequestAssignments(cl: Client, clientId: string): Client {
    Sends(cl, DiscoveryRequest(Some(Hash(clientId)), AssignmentType, "", [], ""))
  }

  function Ack(cl: Client): Client {
    if cl.latestReceived.None? then cl
    else Sends(cl, DiscoveryRequest(None, AssignmentType, cl.latestReceived.value.version, [], cl.latestReceived.value.nonce))
         .(latestACKed := cl.latestReceived)
  }

  function Nack(cl: Client): Client {
    if cl.latestReceived.None? then cl
    else Sends(cl, DiscoveryRequest(None, AssignmentType, VersionOf(cl.latestACKed), [], cl.latestReceived.value.nonce))
  }

  function WaitForAssignments(cl: Client): Client
    requires cl.toClient != []
  {
    cl.(latestReceived := Some(cl.toClient[0]), received := cl.received + [cl.toClient[0]], toClient := cl.toClient[1..])
  }

  // ---------- the system ----------

  datatype System = System(world: World, history: History.State, clients: map<StreamId, Client>)

  function Init(): System {
    System(World(Cache.Init(false), map[]), History.Init(History.Mads, {AssignmentType}), map[])
  }

  datatype Event =
    | OpenStream(sid: StreamId)
    | ClientRequests(sid: StreamId, clientId: string)
    | ClientAcks(sid: StreamId)
    | ClientNacks(sid: StreamId)
    | ClientReceives(sid: StreamId)
    | ServerReceives(sid: StreamId)
    | ServerCancels(sid: StreamId)
    | ServerFills(sid: StreamId)
    | ServerSends(sid: StreamId)
    | ServerLeaves(sid: StreamId)
    | ServerCleansUp(sid: StreamId)
    | ServerCloses(sid: StreamId)
    | Generates(rid: nat, items: map<string, Resource>)
    | Fetches(rid: nat)
    | Assigns(rid: nat, uuid: Version)
    | Stores(rid: nat)

  ghost predicate HistoryStep(y: System, e: History.Event, y': System) {
    y' == y.(history := y'.history) && History.Next(y.history, e, y'.history)
  }

  predicate ClientStep(y: System, sid: StreamId, cl: Client, y': System) {
    y' == y.(clients := y.clients[sid := cl])
  }

  ghost predicate ServerStep(y: System, e: StreamModel.Event, y': System) {
    y' == y.(world := y'.world) && StreamModel.Next(y.world, e, y'.world)
  }

  /** A failed send is a send, whose message may never be received, after which the server leaves its
      loop. The client's end of a stream is forgotten with the stream. */
  ghost predicate Next(y: System, e: Event, y': System) {
    match e
    case OpenStream(sid) =>
      && StreamModel.Next(y.world, Open(sid, MADS_TYPES, AssignmentType), y'.world)
      && y'.history == y.history && y'.clients == y.clients[sid := NEW_CLIENT]
    case ClientRequests(sid, clientId) => sid in y.clients && ClientStep(y, sid, RequestAssignments(y.clients[sid], clientId), y')
    case ClientAcks(sid) => sid in y.clients && ClientStep(y, sid, Ack(y.clients[sid]), y')
    case ClientNacks(sid) => sid in y.clients && ClientStep(y, sid, Nack(y.clients[sid]), y')
    case ClientReceives(sid) =>
      sid in y.clients && y.clients[sid].toClient != [] && ClientStep(y, sid, WaitForAssignments(y.clients[sid]), y')
    case ServerReceives(sid) =>
      && sid in y.clients && y.clients[sid].toServer != []
      && StreamModel.Next(y.world, Arrive(sid, y.clients[sid].toServer[0]), y'.world)
      && y'.history == y.history
      && y'.clients == y.clients[sid := y.clients[sid].(toServer := y.clients[sid].toServer[1..])]
    case ServerSends(sid) =>
      && sid in y.clients && StreamModel.Next(y.world, Send(sid, AssignmentType), y'.world)
      && y'.history == y.history
      && var st := y.world.streams[sid];
      var r := y.world.cache.chans[st.slots[AssignmentType].chan.value].buffer[0];
      y'.clients == y.clients[sid := y.clients[sid].(toClient :=
        y.clients[sid].toClient + [Message(r.version, r.resources, NonceOf(st.streamNonce + 1))])]
    case ServerCancels(sid) => ServerStep(y, CancelSlot(sid), y')
    case ServerFills(sid) => ServerStep(y, FillSlot(sid), y')
    case ServerLeaves(sid) => ServerStep(y, Leave(sid), y')
    case ServerCleansUp(sid) => ServerStep(y, CancelNext(sid), y')
    case ServerCloses(sid) =>
      && StreamModel.Next(y.world, Close(sid), y'.world)
      && y'.history == y.history && y'.clients == y.clients - {sid}
    case Generates(rid, items) => HistoryStep(y, History.Generate(rid, Hash(""), map[AssignmentType := items]), y')
    case Fetches(rid) => HistoryStep(y, History.FetchOld(rid), y')
    case Assigns(rid, uuid) => HistoryStep(y, History.Assign(rid, map[AssignmentType := uuid]), y')
    case Stores(rid) =>
      && History.Next(y.history, History.Store(rid), y'.history)
      && var p := y.history.reconcilers[rid];
      StreamModel.Next(y.world, SetSnapshot(p.node, p.snap), y'.world)
      && y'.clients == y.clients
  }
}
