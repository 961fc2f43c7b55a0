/** The xDS server as a whole: racing reconcilers, the snapshot cache in ADS mode, and one server loop
    with six slots per stream. Clients may send whatever they like. */
module XdsModel {
  import opened Basics
  import opened Xds
  import opened StreamModel
  import Cache = CacheModel
  import History = VersionHistory

  /** The types for which snapshots hold resources; there is a slot for runtimes, but nothing to send. */
  const SNAPSHOT_TYPES := {EndpointType, ClusterType, RouteType, ListenerType, SecretType}

  datatype System = System(world: World, history: History.State)

  function Init(): System {
    System(World(Cache.Init(true), map[]), History.Init(History.Xds, SNAPSHOT_TYPES))
  }

  datatype Event =
    /** A new stream, aggregated if the default type is `AnyType`. */
    | OpenStream(sid: StreamId, defaultType: TypeUrl)
    /** Any other step of a stream. */
    | StreamStep(step: StreamModel.Event)
    /** A reconciler generates, reads or chooses versions. */
    | Reconciles(reconciler: History.Event)
    | Stores(rid: nat)
    /** `Clear`: an empty snapshot is stored. */
    | Clears(node: NodeId)
    /** The snapshot of a node is removed from the cache. */
    | Evicts(node: NodeId)

  /** What the event means for streams and cache, if anything. */
  function WorldStep(y: System, e: Event): Option<StreamModel.Event> {
    match e
    case OpenStream(sid, defaultType) => Some(Open(sid, XDS_TYPES, defaultType))
    case StreamStep(step) => Some(step)
    case Reconciles(_) => None
    case Stores(rid) =>
      var p := History.PhaseOf(y.history, rid);
      if p.Versioned? then Some(SetSnapshot(p.node, p.snap)) else None
    case Clears(node) => Some(SetSnapshot(node, Snapshot(map[])))
    case Evicts(node) => Some(ClearSnapshot(node))
  }

  /** What it means for the reconcilers. */
  function HistoryStep(e: Event): Option<History.Event> {
    match e
    case OpenStream(_, _) => None
    case StreamStep(_) => None
    case Reconciles(step) => Some(step)
    case Stores(rid) => Some(History.Store(rid))
    case Clears(node) => Some(History.ClearNode(node))
    case Evicts(node) => Some(History.Evict(node))
  }

  predicate Allowed(e: Event) {
    match e
    case StreamStep(step) => !step.SetSnapshot? && !step.ClearSnapshot? && !step.Open?
    case Reconciles(step) => step.Generate? || step.FetchOld? || step.Assign?
    case _ => true
  }

  ghost predicate Next(y: System, e: Event, y': System) {
    && Allowed(e)
    && (if WorldStep(y, e).Some? then StreamModel.Next(y.world, WorldStep(y, e).value, y'.world) else y'.world == y.world)
    && (if HistoryStep(e).Some? then History.Next(y.history, HistoryStep(e).value, y'.history) else y'.history == y.history)
  }
}
