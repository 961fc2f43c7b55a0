/** Values exchanged between the snapshot cache, the stream servers and their clients. */
module Xds {
  /** The type URLs the servers know; `AnyType` is the empty one. */
  datatype TypeUrl =
    | AnyType
    | EndpointType
    | ClusterType
    | RouteType
    | ListenerType
    | SecretType
    | RuntimeType
    | AssignmentType
    | OtherType(url: string)

  type NodeId = string
  type Version = string
  type WatchId = nat
  type ChanId = nat

  /** A protobuf payload; the only operation on it is `proto.Equal`. */
  type Resource = string

  datatype Resources = Resources(version: Version, items: map<string, Resource>)

  /** `Snapshot`: the resources of each supported type, with one version per type. */
  datatype Snapshot = Snapshot(byType: map<TypeUrl, Resources>) {
    function GetVersion(typ: TypeUrl): Version {
      if typ in byType then byType[typ].version else ""
    }

    function GetResources(typ: TypeUrl): map<string, Resource> {
      if typ in byType then byType[typ].items else map[]
    }
  }

  /** A discovery request as it reaches the cache: node resolved and hashed, type filled in. */
  datatype Request = Request(node: NodeId, typeUrl: TypeUrl, version: Version, names: seq<string>, nonce: string)

  /** A cache response. The source keeps the resources in a slice whose order is the
      iteration order of a Go map; here they stay keyed by name. */
  datatype Response = Response(request: Request, version: Version, resources: map<string, Resource>)

  /** A response channel of capacity 1. `sent` and `closes` count the sends and closes it has seen. */
  datatype Chan = Chan(buffer: seq<Response>, sent: nat, closes: nat)

  const NEW_CHAN := Chan([], 0, 0)

  /** `ResponseWatch`: an open request and the channel its answer will go to. */
  datatype Watch = Watch(request: Request, chan: ChanId)

  /** What a stream must call to give up a response channel: nothing, the cache's
      cancellation function for a watch, or closing a channel it filled itself. */
  datatype Cancel = NoCancel | CancelWatch(node: NodeId, id: WatchId) | CloseChan(chan: ChanId)
}
