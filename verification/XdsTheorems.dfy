/** Freshness of the xDS server. */
module XdsTheorems {
  import opened Basics
  import opened Xds
  import opened StreamLog
  import opened StreamModel
  import opened StreamQuiet
  import opened XdsModel
  import opened XdsProofs
  import Proofs = StreamProofs
  import Cache = CacheModel

  /** A run: any interleaving of racing reconcilers, snapshots cleared and evicted, and the steps of any
      number of streams with whatever their clients send. */
  ghost predicate IsRun(systems: seq<System>, events: seq<XdsModel.Event>) {
    && |systems| == |events| + 1 && systems[0] == XdsModel.Init()
    && forall k {:trigger events[k]} :: 0 <= k < |events| ==> XdsModel.Next(systems[k], events[k], systems[k + 1])
  }

  lemma {:induction false} RunKeepsInv(systems: seq<System>, events: seq<XdsModel.Event>, i: nat)
    requires IsRun(systems, events) && i < |systems|
    ensures XdsProofs.Inv(systems[i])
  {
    if i > 0 {
      hide XdsProofs.Inv, XdsModel.Next;
      RunKeepsInv(systems, events, i - 1);
      NextKeepsInv(systems[i - 1], events[i - 1], systems[i]);
    }
  }

  // ---------- the run as the streams see it ----------

  function Worlds(systems: seq<System>): (r: seq<World>)
    ensures |r| == |systems| && forall k :: 0 <= k < |systems| ==> r[k] == systems[k].world
  {
    seq(|systems|, k requires 0 <= k < |systems| => systems[k].world)
  }

  function Steps(systems: seq<System>, events: seq<XdsModel.Event>): (r: seq<Option<StreamModel.Event>>)
    requires |systems| == |events| + 1
    ensures |r| == |events| && forall k :: 0 <= k < |events| ==> r[k] == WorldStep(systems[k], events[k])
  {
    seq(|events|, k requires 0 <= k < |events| => WorldStep(systems[k], events[k]))
  }

  lemma RunIsPath(systems: seq<System>, events: seq<XdsModel.Event>)
    requires IsRun(systems, events)
    ensures IsPath(Worlds(systems), Steps(systems, events))
  {
    RunKeepsInv(systems, events, 0);
    var worlds, steps := Worlds(systems), Steps(systems, events);
    assert Proofs.Inv(worlds[0]);
    hide XdsProofs.Inv, Proofs.Inv, StreamModel.Next, WorldStep;
    forall k | 0 <= k < |steps|
      ensures StepOrStay(worlds[k], steps[k], worlds[k + 1])
    {
      assert XdsModel.Next(systems[k], events[k], systems[k + 1]);
    }
  }

  // ---------- freshness ----------

  /** What was sent on the stream as the version that the request names is what the snapshot holds now. */
  ghost predicate UpToDate(y: System, sid: StreamId, typ: TypeUrl, r: Request)
    requires sid in y.world.streams && r.node in y.world.cache.snapshots
  {
    var log, snap := y.world.streams[sid].log, y.world.cache.snapshots[r.node];
    && r.version == snap.GetVersion(typ)
    && (r.version == "" ==> snap.GetResources(typ) == map[])
    && forall m :: 0 <= m < |log| && IsSent(log[m], typ) && log[m].response.version == r.version ==>
         log[m].response.resources == Cache.Requested(log[m].response.request.names, snap.GetResources(typ))
  }

  lemma WatchNamesCurrent(w: World, sid: StreamId, typ: TypeUrl)
    requires Proofs.Inv(w) && Watched(w, sid, typ)
    ensures Proofs.SlotOf(w, sid, typ).request.Some?
    ensures var r := Proofs.SlotOf(w, sid, typ).request.value;
            r.node in w.cache.snapshots ==> r.version == w.cache.snapshots[r.node].GetVersion(typ)
  {
    var slot := Proofs.SlotOf(w, sid, typ);
    assert Proofs.SlotOk(w.cache, typ, slot, w.streams[sid].log);
    assert Cache.WatchOk(w.cache, slot.cancel.node, slot.cancel.id);
  }

  lemma SentAsCurrent(y: System, sid: StreamId, typ: TypeUrl, r: Request)
    requires XdsProofs.Inv(y) && sid in y.world.streams && r.node in y.world.cache.snapshots
    requires r.version == y.world.cache.snapshots[r.node].GetVersion(typ)
    ensures UpToDate(y, sid, typ, r)
  {
    CurrentIsGenuine(y, r.node);
    assert LogGenuine(y.history, y.world.streams[sid].log);
    hide XdsProofs.Inv;
  }

  /** Every open watch of the xDS server is fresh: its request names the version of the current
      snapshot, and whatever the server has ever sent on the stream as that version are the resources of
      the current snapshot that were asked for. */
  lemma WatchedIsFresh(systems: seq<System>, events: seq<XdsModel.Event>, i: nat, sid: StreamId, typ: TypeUrl)
    requires IsRun(systems, events) && i < |systems| && Watched(systems[i].world, sid, typ)
    ensures Proofs.SlotOf(systems[i].world, sid, typ).request.Some?
    ensures var r := Proofs.SlotOf(systems[i].world, sid, typ).request.value;
            r.node in systems[i].world.cache.snapshots ==> UpToDate(systems[i], sid, typ, r)
  {
    RunKeepsInv(systems, events, i);
    var y := systems[i];
    assert Proofs.Inv(y.world);
    hide XdsProofs.Inv, Proofs.Inv, UpToDate, IsRun;
    WatchNamesCurrent(y.world, sid, typ);
    var r := Proofs.SlotOf(y.world, sid, typ).request.value;
    if r.node in y.world.cache.snapshots {
      SentAsCurrent(y, sid, typ, r);
    }
  }

  /** Freshness of a quiet slot. A slot whose stream is idle and on whose channel nothing has come has a
      watch open if and only if (1) when it was filled the client's version was current or its request
      not declined, and (2) no snapshot stored since then replaced that version while the request, made
      in ADS mode, named only part of the resources, and the node was not cleared. If so, and the node
      has a snapshot, the slot is up to date. */
  lemma QuietSlotIsFresh(systems: seq<System>, events: seq<XdsModel.Event>, j: nat, i: nat, sid: StreamId, typ: TypeUrl)
    requires IsRun(systems, events) && j < i < |systems|
    requires FilledAt(Worlds(systems), Steps(systems, events), j, i, sid, typ) && Waits(systems[i].world, sid, typ)
    ensures var r := systems[j].world.streams[sid].phase.request;
            && Proofs.SlotOf(systems[i].world, sid, typ).request == Some(r)
            && (Watched(systems[i].world, sid, typ) <==>
                !DeclinedAt(systems[j].world, r) && !LostBetween(Worlds(systems), Steps(systems, events), j, i, r))
            && (Watched(systems[i].world, sid, typ) && r.node in systems[i].world.cache.snapshots ==> UpToDate(systems[i], sid, typ, r))
  {
    assert Worlds(systems)[i] == systems[i].world && Worlds(systems)[j] == systems[j].world;
    RunIsPath(systems, events);
    assert FilledSince(Worlds(systems), Steps(systems, events), j, i, sid, typ);
    hide IsRun, IsPath, FilledSince, FilledAt, UpToDate, LostBetween, DeclinedAt, Waits, Watched;
    WaitingIsWatched(Worlds(systems), Steps(systems, events), j, i, sid, typ);
    if Watched(systems[i].world, sid, typ) {
      WatchedIsFresh(systems, events, i, sid, typ);
    }
  }
}
