/** The guarantees of MADS over whole runs. */
module MadsTheorems {
  import opened Xds
  import opened StreamModel
  import opened MadsModel
  import opened MadsProofs
  import Proofs = StreamProofs
  import Cache = CacheModel

  /** A run: any interleaving of racing reconcilers, clients that request, ACK and NACK as they
      please, connections that deliver in order, and server loops, from an empty system. Each step
      makes at most one call into the cache: a snapshot may be stored between the cancel function and
      the `CreateWatch` of one request. */
  ghost predicate IsRun(systems: seq<System>, events: seq<MadsModel.Event>) {
    && |systems| == |events| + 1
    && systems[0] == MadsModel.Init()
    && forall i {:trigger events[i]} :: 0 <= i < |events| ==> MadsModel.Next(systems[i], events[i], systems[i + 1])
  }

  lemma {:induction false} RunKeepsInv(systems: seq<System>, events: seq<MadsModel.Event>, i: nat)
    requires IsRun(systems, events) && i < |systems|
    ensures MadsProofs.Inv(systems[i])
  {
    if i > 0 {
      hide MadsProofs.Inv, MadsModel.Next;
      RunKeepsInv(systems, events, i - 1);
      NextKeepsInv(systems[i - 1], events[i - 1], systems[i]);
    }
  }

  /** End-to-end freshness: whenever a watch is open and its node has a snapshot, the client that owns
      the watch was once sent the version the watch asks with, together with exactly the resources
      the current snapshot holds. */
  lemma EndToEndFreshness(systems: seq<System>, events: seq<MadsModel.Event>, i: nat, node: NodeId, id: WatchId)
    requires IsRun(systems, events) && i < |systems|
    requires Cache.IsOpen(systems[i].world.cache, node, id) && node in systems[i].world.cache.snapshots
    ensures exists sid, k ::
              && sid in systems[i].clients && 0 <= k < |systems[i].clients[sid].received|
              && Proofs.Owns(systems[i].world, sid, AssignmentType, node, id)
              && systems[i].clients[sid].received[k].version == Cache.WatchAt(systems[i].world.cache, node, id).request.version
              && systems[i].clients[sid].received[k].resources == systems[i].world.cache.snapshots[node].GetResources(AssignmentType)
  {
    RunKeepsInv(systems, events, i);
    hide MadsProofs.Inv;
    var sid, k := OpenWatchIsFresh(systems[i], node, id);
  }

  /** No change is lost: whenever nothing is in flight on a stream, its server loop is idle and its
      client has replied to what it received last, the configuration the client last accepted is the
      current snapshot. */
  lemma NoChangeIsLost(systems: seq<System>, events: seq<MadsModel.Event>, i: nat, sid: StreamId)
    requires IsRun(systems, events) && i < |systems| && Quiet(systems[i], sid)
    requires Hash("") in systems[i].world.cache.snapshots
    ensures systems[i].clients[sid].latestACKed.Some?
    ensures systems[i].clients[sid].latestACKed.value.version == systems[i].world.cache.snapshots[Hash("")].GetVersion(AssignmentType)
    ensures systems[i].clients[sid].latestACKed.value.resources == systems[i].world.cache.snapshots[Hash("")].GetResources(AssignmentType)
  {
    RunKeepsInv(systems, events, i);
    hide MadsProofs.Inv;
    QuietClientIsUpToDate(systems[i], sid);
  }
}
