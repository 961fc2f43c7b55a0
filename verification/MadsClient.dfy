/** The client end of a MADS stream, and the MADS reconciler. */
module MadsClient {
  import opened Basics
  import opened Xds
  import opened StreamModel
  import opened MadsModel
  import opened SnapshotCache
  import Model = CacheModel
  import Versioner

  class Stream {
    var latestReceived: Option<Message>
    var latestACKed: Option<Message>
    /** The two directions of the connection. */
    var toServer: seq<DiscoveryRequest>
    var toClient: seq<Message>
    ghost var received: seq<Message>
    ghost var lastRequest: Option<DiscoveryRequest>

    ghost function State(): Client
      reads this
    {
      Client(latestReceived, latestACKed, toServer, toClient, received, lastRequest)
    }

    constructor ()
      ensures State() == NEW_CLIENT
    {
      latestReceived, latestACKed, toServer, toClient, received, lastRequest := None, None, [], [], [], None;
    }

    method Send(d: DiscoveryRequest)
      modifies this`toServer, this`lastRequest
      ensures State() == Sends(old(State()), d)
    {
      toServer := toServer + [d];
      lastRequest := Some(d);
    }

    method RequestAssignments(clientId: string)
      modifies this
      ensures State() == MadsModel.RequestAssignments(old(State()), clientId)
    {
      Send(DiscoveryRequest(Some(Hash(clientId)), AssignmentType, "", [], ""));
    }

    method Ack()
      modifies this
      ensures State() == MadsModel.Ack(old(State()))
    {
      if latestReceived.None? {
        return;
      }
      Send(DiscoveryRequest(None, AssignmentType, latestReceived.value.version, [], latestReceived.value.nonce));
      latestACKed := latestReceived;
    }

    method Nack()
      modifies this
      ensures State() == MadsModel.Nack(old(State()))
    {
      if latestReceived.None? {
        return;
      }
      Send(DiscoveryRequest(None, AssignmentType, VersionOf(latestACKed), [], latestReceived.value.nonce));
    }

    method WaitForAssignments() returns (assignments: map<string, Resource>)
      requires toClient != []
      modifies this
      ensures State() == MadsModel.WaitForAssignments(old(State())) && assignments == old(toClient)[0].resources
    {
      latestReceived := Some(toClient[0]);
      assignments := toClient[0].resources;
      received := received + [toClient[0]];
      toClient := toClient[1..];
    }
  }

  /** A snapshot that another reconciler stores. */
  datatype Other = Other(node: NodeId, snap: Snapshot)

  /** `t` is what `s` becomes when the others store their snapshots, in this order. */
  ghost predicate AfterOthers(s: Model.State, others: seq<Other>, t: Model.State) {
    if others == [] then t == s
    else
      var last := others[|others| - 1];
      exists m :: AfterOthers(s, others[..|others| - 1], m) && Model.SetSnapshot(m, last.node, last.snap, t)
  }

  /** The version that stood for the same resources when the snapshot was read, or the new one. */
  function NextVersion(snapshots: map<NodeId, Snapshot>, node: NodeId, items: map<string, Resource>, uuid: Version): Version {
    if node in snapshots && snapshots[node].GetResources(AssignmentType) == items && snapshots[node].GetVersion(AssignmentType) != ""
    then snapshots[node].GetVersion(AssignmentType) else uuid
  }

  /** Generate, read the current snapshot, and choose versions. */
  method Prepare(cache: SnapshotCache, node: NodeId, items: map<string, Resource>, uuid: Version) returns (snap: Snapshot)
    ensures snap.GetResources(AssignmentType) == items
    ensures snap.GetVersion(AssignmentType) == NextVersion(cache.snapshots, node, items, uuid)
  {
    var generated := Snapshot(map[AssignmentType := Resources("", items)]);
    var previous := cache.GetSnapshot(node);
    snap := Versioner.Version(generated, previous, MADS_TYPES, map[AssignmentType := uuid]);
  }

  /** Other reconcilers store their snapshots. */
  method LetOthers(cache: SnapshotCache, others: seq<Other>)
    requires cache.Valid()
    modifies cache
    ensures cache.Valid() && AfterOthers(old(cache.State()), others, cache.State())
  {
    hide Model.SetSnapshot, Model.Inv;
    ghost var s := cache.State();
    for k := 0 to |others|
      invariant cache.Valid() && AfterOthers(s, others[..k], cache.State())
    {
      ghost var t := cache.State();
      cache.SetSnapshot(others[k].node, others[k].snap);
      assert others[..k + 1][..k] == others[..k];
      assert AfterOthers(s, others[..k], t) && Model.SetSnapshot(t, others[k].node, others[k].snap, cache.State());
    }
    assert others[..|others|] == others;
  }

  /** `Reconcile`. Whatever other reconcilers store between its read and its write, what was generated
      is stored, under the version that was read if that stood for the same resources, else under a new
      one; and the watches that are behind by then are answered. */
  method Reconcile(cache: SnapshotCache, node: NodeId, items: map<string, Resource>, uuid: Version, others: seq<Other>)
    requires cache.Valid()
    modifies cache
    ensures cache.Valid()
    ensures exists mid, snap ::
              && AfterOthers(old(cache.State()), others, mid)
              && Model.SetSnapshot(mid, node, snap, cache.State())
              && snap.GetResources(AssignmentType) == items
              && snap.GetVersion(AssignmentType) == NextVersion(old(cache.snapshots), node, items, uuid)
  {
    hide Model.SetSnapshot, Model.Inv, NextVersion, AfterOthers;
    var snap := Prepare(cache, node, items, uuid);
    LetOthers(cache, others);
    cache.SetSnapshot(node, snap);
  }
}
