/** The streaming server: per stream, one watch slot per resource type. This is the event loop
    `process` of both servers; the MADS server is the case with a single type. */
module StreamModel {
  import opened Basics
  import opened Xds
  import opened StreamLog
  import Cache = CacheModel

  type StreamId = nat

  /** The slots of the xDS server, in the order in which it cancels them, and those of the MADS server. */
  const XDS_TYPES := [EndpointType, ClusterType, RouteType, ListenerType, SecretType, RuntimeType]
  const MADS_TYPES := [AssignmentType]

  /** A request as it arrives: the node may be left out after the first one, the type on a typed stream. */
  datatype DiscoveryRequest = DiscoveryRequest(
    node: Option<NodeId>, typeUrl: TypeUrl, version: Version, names: seq<string>, nonce: string)

  /** One slot of `watches`, and the request that last filled it. */
  datatype Slot = Slot(chan: Option<ChanId>, cancel: Cancel, nonce: string, request: Option<Request>)

  const EMPTY_SLOT := Slot(None, NoCancel, "", None)

  /** Where the event loop of a stream is. Between two calls into the cache anything may happen. */
  datatype Phase =
    /** Waits in `select`. */
    | Idle
    /** Is about to act on a request; `warm` is what it fetched for it, if it had to. */
    | Peeked(request: Request, warm: Option<Response>)
    /** Has called the slot's cancel function and not filled the slot again yet. */
    | Cancelled(request: Request, warm: Option<Response>)
    /** Has left the loop and calls the cancel functions one by one. */
    | Ending

  /** `types` lists the slots in the order in which they are cancelled at the end. */
  datatype Stream = Stream(
    types: seq<TypeUrl>,
    defaultType: TypeUrl,
    slots: map<TypeUrl, Slot>,
    endpointNonceAcked: bool,
    streamNonce: nat,
    node: NodeId,
    phase: Phase,
    log: seq<Entry>)

  function NewStream(types: seq<TypeUrl>, defaultType: TypeUrl): Stream {
    Stream(types, defaultType, map t | t in types :: EMPTY_SLOT, false, 0, "", Idle, [])
  }

  // ---------- a response ----------

  predicate CanSend(s: Cache.State, st: Stream, typ: TypeUrl) {
    st.phase.Idle? && typ in st.slots && st.slots[typ].chan.Some? && Cache.CanReceive(s, st.slots[typ].chan.value)
  }

  /** `send`: take the response off the slot's channel and stamp it with a new nonce. If the transport
      then fails, the loop is left at once. */
  function AfterSend(s: Cache.State, st: Stream, typ: TypeUrl): Stream
    requires CanSend(s, st, typ)
  {
    var slot := st.slots[typ];
    var n := st.streamNonce + 1;
    st.(streamNonce := n,
        slots := st.slots[typ := slot.(nonce := NonceOf(n))],
        endpointNonceAcked := typ != EndpointType && st.endpointNonceAcked,
        log := st.log + [Sent(typ, n, s.chans[slot.chan.value].buffer[0])])
  }

  function CacheAfterSend(s: Cache.State, st: Stream, typ: TypeUrl): Cache.State
    requires CanSend(s, st, typ)
  {
    Cache.Received(s, st.slots[typ].chan.value)
  }

  // ---------- a request ----------

  /** The request as the cache will see it. */
  function Resolve(st: Stream, d: DiscoveryRequest): Request {
    Request(if d.node.Some? then d.node.value else st.node,
            if d.typeUrl == AnyType then st.defaultType else d.typeUrl,
            d.version, d.names, d.nonce)
  }

  /** On an aggregated stream a request must say what it is about; otherwise the stream ends. */
  predicate Rejected(st: Stream, d: DiscoveryRequest) {
    st.defaultType == AnyType && d.typeUrl == AnyType
  }

  /** The stream has a slot for the request and the request echoes the slot's nonce, if there is one. */
  predicate Accepts(st: Stream, request: Request) {
    && request.typeUrl in st.slots
    && (st.slots[request.typeUrl].nonce == "" || st.slots[request.typeUrl].nonce == request.nonce)
  }

  /** `peekResponse`: what the cache holds for the request, whatever version the client has. */
  function Peek(s: Cache.State, request: Request): Option<Response> {
    match Cache.Fetch(s, request.(version := ""))
    case Err(_) => None
    case Ok(r) => Some(r.(request := request))
  }

  /** A repeated EDS request with an acknowledged nonce asks for the endpoints again. */
  function Warming(s: Cache.State, st: Stream, request: Request): Option<Response> {
    if request.typeUrl == EndpointType && st.endpointNonceAcked then Peek(s, request) else None
  }

  /** First step of an accepted request: the call to `Fetch`, if any. */
  function AfterPeek(s: Cache.State, st: Stream, request: Request): Stream {
    st.(node := request.node, phase := Peeked(request, Warming(s, st, request)))
  }

  /** What is left of a slot whose cancel function has been called. Its channel and that function
      are overwritten before the loop looks at them again. */
  function GivenUp(slot: Slot): Slot {
    Slot(None, NoCancel, slot.nonce, None)
  }

  predicate CanCancelSlot(st: Stream) {
    st.phase.Peeked? && st.phase.request.typeUrl in st.slots
  }

  /** Second step: the call to the slot's cancel function. */
  function AfterCancel(st: Stream): Stream
    requires CanCancelSlot(st)
  {
    var request := st.phase.request;
    var typ := request.typeUrl;
    var slot := st.slots[typ];
    st.(slots := st.slots[typ := GivenUp(slot)],
        endpointNonceAcked := if typ == EndpointType then slot.nonce != "" && slot.nonce == request.nonce
                              else st.endpointNonceAcked,
        phase := Cancelled(request, st.phase.warm),
        log := st.log + [Processed(request)])
  }

  function CacheAfterCancel(s: Cache.State, st: Stream): Cache.State
    requires CanCancelSlot(st)
  {
    Cache.DoCancel(s, st.slots[st.phase.request.typeUrl].cancel)
  }

  predicate CanFillSlot(st: Stream) {
    st.phase.Cancelled? && st.phase.request.typeUrl in st.slots
  }

  /** Third step: schedule what was fetched, or the call to `CreateWatch`. */
  function AfterFill(s: Cache.State, st: Stream): Stream
    requires CanFillSlot(st)
  {
    var request := st.phase.request;
    var typ := request.typeUrl;
    var cancel := if st.phase.warm.Some? then CloseChan(s.nextChan) else Cache.CreateWatchCancel(s, request);
    st.(slots := st.slots[typ := Slot(Some(s.nextChan), cancel, st.slots[typ].nonce, Some(request))], phase := Idle)
  }

  function CacheAfterFill(s: Cache.State, st: Stream): Cache.State
    requires CanFillSlot(st)
  {
    if st.phase.warm.Some? then Cache.Scheduled(s, st.phase.warm.value) else Cache.CreateWatch(s, st.phase.request)
  }

  function AfterIgnored(st: Stream, request: Request): Stream {
    st.(node := request.node, log := st.log + [Ignored(request)])
  }

  // ---------- the end ----------

  predicate CanCancelNext(st: Stream) {
    st.phase.Ending? && st.types != [] && st.types[0] in st.slots
  }

  /** One call of `watches.Cancel`, which runs however `process` returns: the stream with its first
      slot gone. */
  function Shed(st: Stream): Stream
    requires st.types != []
  {
    st.(types := st.types[1..], slots := st.slots - {st.types[0]},
        endpointNonceAcked := st.types[0] != EndpointType && st.endpointNonceAcked)
  }

  // ---------- all streams together ----------

  datatype World = World(cache: Cache.State, streams: map<StreamId, Stream>)

  datatype Event =
    | SetSnapshot(node: NodeId, snap: Snapshot)
    | ClearSnapshot(node: NodeId)
    | Open(sid: StreamId, types: seq<TypeUrl>, defaultType: TypeUrl)
    | Arrive(sid: StreamId, discovery: DiscoveryRequest)
    | CancelSlot(sid: StreamId)
    | FillSlot(sid: StreamId)
    | Send(sid: StreamId, typeUrl: TypeUrl)
    | Leave(sid: StreamId)
    | CancelNext(sid: StreamId)
    | Close(sid: StreamId)

  predicate Distinct(types: seq<TypeUrl>) {
    forall i, j :: 0 <= i < j < |types| ==> types[i] != types[j]
  }

  predicate WellTyped(st: Stream) {
    && Distinct(st.types)
    && (forall t :: t in st.types ==> t in st.slots) && (forall t :: t in st.slots ==> t in st.types)
  }

  /** Where an idle stream gets to when a request arrives. */
  function AfterArrive(s: Cache.State, st: Stream, d: DiscoveryRequest): Stream {
    var request := Resolve(st, d);
    if Rejected(st, d) then st.(phase := Ending)
    else if Accepts(st, request) then AfterPeek(s, st, request)
    else AfterIgnored(st, request)
  }

  function Update(w: World, s: Cache.State, sid: StreamId, st: Stream): World {
    World(s, w.streams[sid := st])
  }

  /** Every step makes at most one call into the cache. */
  ghost predicate Next(w: World, e: Event, w': World) {
    match e
    case SetSnapshot(node, snap) => Cache.SetSnapshot(w.cache, node, snap, w'.cache) && w'.streams == w.streams
    case ClearSnapshot(node) => w' == w.(cache := Cache.ClearSnapshot(w.cache, node))
    case Open(sid, types, defaultType) =>
      sid !in w.streams && Distinct(types) && w' == Update(w, w.cache, sid, NewStream(types, defaultType))
    case Arrive(sid, d) =>
      sid in w.streams && w.streams[sid].phase.Idle? && w' == Update(w, w.cache, sid, AfterArrive(w.cache, w.streams[sid], d))
    case CancelSlot(sid) =>
      && sid in w.streams && CanCancelSlot(w.streams[sid])
      && w' == Update(w, CacheAfterCancel(w.cache, w.streams[sid]), sid, AfterCancel(w.streams[sid]))
    case FillSlot(sid) =>
      && sid in w.streams && CanFillSlot(w.streams[sid])
      && w' == Update(w, CacheAfterFill(w.cache, w.streams[sid]), sid, AfterFill(w.cache, w.streams[sid]))
    case Send(sid, typ) =>
      && sid in w.streams && CanSend(w.cache, w.streams[sid], typ)
      && w' == Update(w, CacheAfterSend(w.cache, w.streams[sid], typ), sid, AfterSend(w.cache, w.streams[sid], typ))
    case Leave(sid) =>
      sid in w.streams && w.streams[sid].phase.Idle? && w' == Update(w, w.cache, sid, w.streams[sid].(phase := Ending))
    case CancelNext(sid) =>
      && sid in w.streams && CanCancelNext(w.streams[sid])
      && var st := w.streams[sid];
      w' == Update(w, Cache.DoCancel(w.cache, st.slots[st.types[0]].cancel), sid, Shed(st))
    case Close(sid) =>
      && sid in w.streams && w.streams[sid].phase.Ending? && w.streams[sid].types == []
      && w' == w.(streams := w.streams - {sid})
  }
}
