/** Reconciling again without a change pushes nothing, on the xDS server and on MADS. */
module PushTheorems {
  import opened Basics
  import opened Xds
  import opened ReconcileTheorems
  import History = VersionHistory
  import Cache = CacheModel
  import Streams = StreamModel
  import StreamProofs
  import XdsModel
  import XdsProofs
  import XdsTheorems
  import MadsModel
  import MadsProofs
  import MadsTheorems

  // ---------- xDS ----------

  /** The run as the reconcilers see it. */
  function XdsHistories(systems: seq<XdsModel.System>): (r: seq<History.State>)
    ensures |r| == |systems| && forall k :: 0 <= k < |systems| ==> r[k] == systems[k].history
  {
    seq(|systems|, k requires 0 <= k < |systems| => systems[k].history)
  }

  function XdsSteps(events: seq<XdsModel.Event>): (r: seq<Option<History.Event>>)
    ensures |r| == |events| && forall k :: 0 <= k < |events| ==> r[k] == XdsModel.HistoryStep(events[k])
  {
    seq(|events|, k requires 0 <= k < |events| => XdsModel.HistoryStep(events[k]))
  }

  lemma XdsStepAt(systems: seq<XdsModel.System>, events: seq<XdsModel.Event>, k: nat)
    requires XdsTheorems.IsRun(systems, events) && k < |events|
    ensures |systems| == |events| + 1 && XdsModel.Next(systems[k], events[k], systems[k + 1])
  {
    hide XdsModel.Next;
  }

  lemma XdsRunIsPath(systems: seq<XdsModel.System>, events: seq<XdsModel.Event>)
    requires XdsTheorems.IsRun(systems, events)
    ensures IsPath(XdsHistories(systems), XdsSteps(events))
  {
    XdsTheorems.RunKeepsInv(systems, events, 0);
    var states, steps := XdsHistories(systems), XdsSteps(events);
    assert History.Inv(states[0]);
    hide XdsProofs.Inv, History.Inv, History.Next, Streams.Next, XdsModel.WorldStep, XdsModel.HistoryStep;
    forall k | 0 <= k < |steps|
      ensures StepOrStay(states[k], steps[k], states[k + 1])
    {
      assert XdsModel.Next(systems[k], events[k], systems[k + 1]);
    }
  }

  lemma XdsStores(y: XdsModel.System, e: XdsModel.Event, y': XdsModel.System, c: Pass)
    requires XdsModel.Next(y, e, y') && Stores(XdsModel.HistoryStep(e), c.rid)
    requires History.PhaseOf(y.history, c.rid).Versioned? && History.PhaseOf(y.history, c.rid).node == c.node
    ensures Cache.SetSnapshot(y.world.cache, c.node, History.PhaseOf(y.history, c.rid).snap, y'.world.cache)
  {
    hide History.PhaseOf, History.Next, Cache.SetSnapshot;
  }

  lemma XdsParts(y: XdsModel.System)
    requires XdsProofs.Inv(y)
    ensures Cache.Inv(y.world.cache) && y.history.current == y.world.cache.snapshots
  {
    assert StreamProofs.Inv(y.world);
  }

  /** A pass of an xDS reconciler whose node still has, when it stores, the snapshot it had when the
      reconciler read it: exactly the watches of types whose resources have changed are removed, and if
      none have changed, nothing is answered and no watch removed. */
  lemma XdsPushesChangesOnly(systems: seq<XdsModel.System>, events: seq<XdsModel.Event>, c: Pass)
    requires XdsTheorems.IsRun(systems, events) && IsPass(XdsSteps(events), c)
    requires c.node in systems[c.reading].world.cache.snapshots && c.node in systems[c.storing].world.cache.snapshots
    requires systems[c.storing].world.cache.snapshots[c.node] == systems[c.reading].world.cache.snapshots[c.node]
    ensures PushesChangesOnly(systems[c.storing].world.cache, c, systems[c.storing + 1].world.cache)
  {
    hide XdsTheorems.IsRun, XdsModel.Next, XdsProofs.Inv, IsPath, History.PhaseOf, XdsModel.HistoryStep, PushesChangesOnly;
    var states, steps := XdsHistories(systems), XdsSteps(events);
    XdsStepAt(systems, events, c.storing);
    XdsRunIsPath(systems, events);
    XdsTheorems.RunKeepsInv(systems, events, c.reading);
    XdsTheorems.RunKeepsInv(systems, events, c.storing);
    XdsParts(systems[c.reading]);
    XdsParts(systems[c.storing]);
    StoredKeys(states, steps, c);
    XdsStores(systems[c.storing], events[c.storing], systems[c.storing + 1], c);
    StorePushesChangesOnly(states, steps, c, systems[c.storing].world.cache, systems[c.storing + 1].world.cache);
  }

  /** `Clear` does push: it stores a snapshot without resources, and exactly the watches of the node that
      ask with the empty version are left. */
  lemma ClearLeavesNothing(systems: seq<XdsModel.System>, events: seq<XdsModel.Event>, k: nat, node: NodeId)
    requires XdsTheorems.IsRun(systems, events) && k < |events| && events[k] == XdsModel.Clears(node)
    ensures var s, t := systems[k].world.cache, systems[k + 1].world.cache;
            && node in t.snapshots
            && (forall typ: TypeUrl :: t.snapshots[node].GetResources(typ) == map[] && t.snapshots[node].GetVersion(typ) == "")
            && (forall id :: Cache.IsOpen(t, node, id) <==> Cache.IsOpen(s, node, id) && Cache.WatchAt(s, node, id).request.version == "")
  {
    hide XdsTheorems.IsRun, XdsProofs.Inv, History.Next;
    XdsStepAt(systems, events, k);
    var s, t := systems[k].world.cache, systems[k + 1].world.cache;
    assert Cache.SetSnapshot(s, node, Snapshot(map[]), t);
    hide XdsModel.Next, Cache.Answered;
    assert t.snapshots[node] == Snapshot(map[]);
  }

  // ---------- MADS ----------

  function MadsHistories(systems: seq<MadsModel.System>): (r: seq<History.State>)
    ensures |r| == |systems| && forall k :: 0 <= k < |systems| ==> r[k] == systems[k].history
  {
    seq(|systems|, k requires 0 <= k < |systems| => systems[k].history)
  }

  /** What the event means for the reconcilers, if anything. */
  function MadsStep(e: MadsModel.Event): Option<History.Event> {
    match e
    case Generates(rid, items) => Some(History.Generate(rid, MadsModel.Hash(""), map[AssignmentType := items]))
    case Fetches(rid) => Some(History.FetchOld(rid))
    case Assigns(rid, uuid) => Some(History.Assign(rid, map[AssignmentType := uuid]))
    case Stores(rid) => Some(History.Store(rid))
    case _ => None
  }

  function MadsSteps(events: seq<MadsModel.Event>): (r: seq<Option<History.Event>>)
    ensures |r| == |events| && forall k :: 0 <= k < |events| ==> r[k] == MadsStep(events[k])
  {
    seq(|events|, k requires 0 <= k < |events| => MadsStep(events[k]))
  }

  lemma MadsStepIs(y: MadsModel.System, e: MadsModel.Event, y': MadsModel.System)
    requires MadsModel.Next(y, e, y')
    ensures StepOrStay(y.history, MadsStep(e), y'.history)
  {
    hide History.Next, Streams.Next;
  }

  lemma MadsStepAt(systems: seq<MadsModel.System>, events: seq<MadsModel.Event>, k: nat)
    requires MadsTheorems.IsRun(systems, events) && k < |events|
    ensures |systems| == |events| + 1 && MadsModel.Next(systems[k], events[k], systems[k + 1])
  {
    hide MadsModel.Next;
  }

  lemma MadsRunIsPath(systems: seq<MadsModel.System>, events: seq<MadsModel.Event>)
    requires MadsTheorems.IsRun(systems, events)
    ensures IsPath(MadsHistories(systems), MadsSteps(events))
  {
    MadsTheorems.RunKeepsInv(systems, events, 0);
    var states, steps := MadsHistories(systems), MadsSteps(events);
    assert History.Inv(states[0]);
    hide MadsProofs.Inv, History.Inv, MadsModel.Next, MadsStep, StepOrStay;
    forall k | 0 <= k < |steps|
      ensures StepOrStay(states[k], steps[k], states[k + 1])
    {
      assert MadsModel.Next(systems[k], events[k], systems[k + 1]);
      MadsStepIs(systems[k], events[k], systems[k + 1]);
    }
  }

  lemma MadsStores(y: MadsModel.System, e: MadsModel.Event, y': MadsModel.System, c: Pass)
    requires MadsModel.Next(y, e, y') && Stores(MadsStep(e), c.rid)
    requires History.PhaseOf(y.history, c.rid).Versioned? && History.PhaseOf(y.history, c.rid).node == c.node
    ensures Cache.SetSnapshot(y.world.cache, c.node, History.PhaseOf(y.history, c.rid).snap, y'.world.cache)
  {
    hide History.Next, Cache.SetSnapshot;
  }

  lemma MadsParts(y: MadsModel.System)
    requires MadsProofs.Inv(y)
    ensures Cache.Inv(y.world.cache) && y.history.current == y.world.cache.snapshots
  {
    assert StreamProofs.Inv(y.world);
  }

  /** The same for MADS. */
  lemma MadsPushesChangesOnly(systems: seq<MadsModel.System>, events: seq<MadsModel.Event>, c: Pass)
    requires MadsTheorems.IsRun(systems, events) && IsPass(MadsSteps(events), c)
    requires c.node in systems[c.reading].world.cache.snapshots && c.node in systems[c.storing].world.cache.snapshots
    requires systems[c.storing].world.cache.snapshots[c.node] == systems[c.reading].world.cache.snapshots[c.node]
    ensures PushesChangesOnly(systems[c.storing].world.cache, c, systems[c.storing + 1].world.cache)
  {
    hide MadsTheorems.IsRun, MadsModel.Next, MadsProofs.Inv, IsPath, History.PhaseOf, MadsStep, PushesChangesOnly;
    var states, steps := MadsHistories(systems), MadsSteps(events);
    MadsStepAt(systems, events, c.storing);
    MadsRunIsPath(systems, events);
    MadsTheorems.RunKeepsInv(systems, events, c.reading);
    MadsTheorems.RunKeepsInv(systems, events, c.storing);
    MadsParts(systems[c.reading]);
    MadsParts(systems[c.storing]);
    StoredKeys(states, steps, c);
    MadsStores(systems[c.storing], events[c.storing], systems[c.storing + 1], c);
    StorePushesChangesOnly(states, steps, c, systems[c.storing].world.cache, systems[c.storing + 1].world.cache);
  }
}
