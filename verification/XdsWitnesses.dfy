/** Runs of the xDS server in which a request that names only part of the resources is left alone. */
module XdsWitnesses {
  import opened Basics
  import opened Xds
  import opened StreamModel
  import opened StreamQuiet
  import opened XdsModel
  import opened XdsTheorems
  import Proofs = StreamProofs
  import Cache = CacheModel
  import History = VersionHistory
  import First = FirstReconcile
  import Versioner

  function LastOf(systems: seq<System>): System
    requires systems != []
  {
    systems[|systems| - 1]
  }

  lemma Extend(systems: seq<System>, events: seq<XdsModel.Event>, e: XdsModel.Event, y: System) returns (systems': seq<System>, events': seq<XdsModel.Event>)
    requires IsRun(systems, events) && XdsModel.Next(LastOf(systems), e, y)
    ensures IsRun(systems', events') && systems' != [] && LastOf(systems') == y
  {
    hide XdsModel.Next;
    systems', events' := systems + [y], events + [e];
  }

  /** A client asks for one cluster, without having anything yet. */
  function Asks(node: NodeId, name: string): DiscoveryRequest {
    DiscoveryRequest(Some(node), ClusterType, "", [name], "")
  }

  function Asked(node: NodeId, name: string): Request {
    Request(node, ClusterType, "", [name], "")
  }

  /** The stages of a new stream and its first request. */
  function Fresh(): Stream {
    NewStream(XDS_TYPES, AnyType)
  }

  function Peeks(node: NodeId, name: string): Stream {
    Fresh().(node := node, phase := Peeked(Asked(node, name), None))
  }

  lemma PeeksIs(s: Cache.State, node: NodeId, name: string)
    ensures AfterArrive(s, Fresh(), Asks(node, name)) == Peeks(node, name)
    ensures CanCancelSlot(Peeks(node, name)) && CacheAfterCancel(s, Peeks(node, name)) == s
    ensures CanFillSlot(AfterCancel(Peeks(node, name))) && Distinct(XDS_TYPES)
    ensures CacheAfterFill(s, AfterCancel(Peeks(node, name))) == Cache.CreateWatch(s, Asked(node, name))
  {
    assert ClusterType in XDS_TYPES;
    assert Fresh().slots[ClusterType] == EMPTY_SLOT;
    hide Cache.CreateWatch;
  }

  /** What a new stream is after its first request has been handled. */
  function Handled(s: Cache.State, node: NodeId, name: string): Stream {
    PeeksIs(s, node, name);
    AfterFill(s, AfterCancel(Peeks(node, name)))
  }

  lemma HandledIs(s: Cache.State, node: NodeId, name: string)
    ensures var st, c := Handled(s, node, name), s.nextChan;
            && ClusterType in st.slots && st.phase.Idle?
            && st.slots[ClusterType] == Slot(Some(c), Cache.CreateWatchCancel(s, Asked(node, name)), "", Some(Asked(node, name)))
  {
    assert ClusterType in XDS_TYPES;
    hide Cache.CreateWatchCancel;
  }

  lemma FourSteps(w: World, sid: StreamId, node: NodeId, name: string)
    requires sid !in w.streams
    ensures CanCancelSlot(Peeks(node, name))
    ensures var s, peeked := w.cache, Peeks(node, name);
            var w1, w2, w3 := Update(w, s, sid, Fresh()), Update(w, s, sid, peeked), Update(w, s, sid, AfterCancel(peeked));
            && StreamModel.Next(w, Open(sid, XDS_TYPES, AnyType), w1)
            && StreamModel.Next(w1, Arrive(sid, Asks(node, name)), w2)
            && StreamModel.Next(w2, CancelSlot(sid), w3)
            && StreamModel.Next(w3, FillSlot(sid), Update(w, Cache.CreateWatch(s, Asked(node, name)), sid, Handled(s, node, name)))
  {
    PeeksIs(w.cache, node, name);
    hide AfterArrive, AfterCancel, AfterFill, CacheAfterCancel, CacheAfterFill, Cache.CreateWatch, Distinct;
    Overwrite(w.streams, sid, Fresh(), Peeks(node, name));
    Overwrite(w.streams, sid, Peeks(node, name), AfterCancel(Peeks(node, name)));
    Overwrite(w.streams, sid, AfterCancel(Peeks(node, name)), Handled(w.cache, node, name));
  }

  lemma Overwrite(m: map<StreamId, Stream>, sid: StreamId, a: Stream, b: Stream)
    ensures m[sid := a][sid := b] == m[sid := b]
  {}

  lemma StreamIsNext(y: System, e: XdsModel.Event, w': World)
    requires match e
             case OpenStream(sid, defaultType) => StreamModel.Next(y.world, Open(sid, XDS_TYPES, defaultType), w')
             case StreamStep(step) => Allowed(e) && StreamModel.Next(y.world, step, w')
             case _ => false
    ensures XdsModel.Next(y, e, y.(world := w'))
  {
    hide StreamModel.Next;
  }

  /** A stream is opened and its first request handled. */
  lemma Connect(systems: seq<System>, events: seq<XdsModel.Event>, sid: StreamId, node: NodeId, name: string)
      returns (systems': seq<System>, events': seq<XdsModel.Event>)
    requires IsRun(systems, events) && sid !in LastOf(systems).world.streams
    ensures IsRun(systems', events') && systems' != []
    ensures var y, y' := LastOf(systems), LastOf(systems');
            && y'.history == y.history
            && y'.world == Update(y.world, Cache.CreateWatch(y.world.cache, Asked(node, name)), sid, Handled(y.world.cache, node, name))
  {
    var y := LastOf(systems);
    var w, s, peeked := y.world, y.world.cache, Peeks(node, name);
    FourSteps(w, sid, node, name);
    hide IsRun, StreamModel.Next, XdsModel.Next, Handled, Peeks, Fresh, AfterCancel, Cache.CreateWatch;
    var w1, w2, w3 := Update(w, s, sid, Fresh()), Update(w, s, sid, peeked), Update(w, s, sid, AfterCancel(peeked));
    var w4 := Update(w, Cache.CreateWatch(s, Asked(node, name)), sid, Handled(s, node, name));
    hide Update;
    StreamIsNext(y, OpenStream(sid, AnyType), w1);
    systems', events' := Extend(systems, events, OpenStream(sid, AnyType), y.(world := w1));
    StreamIsNext(y.(world := w1), StreamStep(Arrive(sid, Asks(node, name))), w2);
    systems', events' := Extend(systems', events', StreamStep(Arrive(sid, Asks(node, name))), y.(world := w2));
    StreamIsNext(y.(world := w2), StreamStep(CancelSlot(sid)), w3);
    systems', events' := Extend(systems', events', StreamStep(CancelSlot(sid)), y.(world := w3));
    StreamIsNext(y.(world := w3), StreamStep(FillSlot(sid)), w4);
    systems', events' := Extend(systems', events', StreamStep(FillSlot(sid)), y.(world := w4));
  }

  /** The snapshot with one cluster. */
  function OneCluster(name: string, r: Resource, version: Version): Snapshot {
    Snapshot(map t | t in SNAPSHOT_TYPES :: if t == ClusterType then Resources(version, map[name := r]) else Resources("", map[]))
  }

  function Items(name: string, r: Resource): map<TypeUrl, map<string, Resource>> {
    map t | t in SNAPSHOT_TYPES :: if t == ClusterType then map[name := r] else map[]
  }

  lemma VersionOfType(name: string, r: Resource, uuid: map<TypeUrl, Version>, t: TypeUrl)
    requires t in SNAPSHOT_TYPES && uuid.Keys == SNAPSHOT_TYPES
    ensures Versioner.ReuseVersion(Versioner.ResourcesOf(Snapshot(map[]), t), Resources("", Items(name, r)[t]), uuid[t])
         == OneCluster(name, r, uuid[ClusterType]).byType[t]
  {
    assert name in map[name := r] && map[name := r] != map[];
  }

  lemma Versions(h: History.State, name: string, r: Resource, uuid: map<TypeUrl, Version>)
    requires h.server.Xds? && uuid.Keys == SNAPSHOT_TYPES
    ensures Items(name, r).Keys == SNAPSHOT_TYPES && History.Unversioned(Items(name, r)).byType.Keys == SNAPSHOT_TYPES
    ensures History.Assigned(h, History.Unversioned(Items(name, r)), None, uuid) == OneCluster(name, r, uuid[ClusterType])
  {
    var snap := History.Unversioned(Items(name, r));
    assert snap.byType.Keys == SNAPSHOT_TYPES && OneCluster(name, r, uuid[ClusterType]).byType.Keys == SNAPSHOT_TYPES;
    assert forall t :: t in SNAPSHOT_TYPES ==> snap.byType[t] == Resources("", Items(name, r)[t]);
    var result := History.Assigned(h, snap, None, uuid);
    assert result == Versioner.XdsAutoVersion(snap, None, uuid);
    hide OneCluster, Items, History.Unversioned, History.Assigned, Versioner.ReuseVersion;
    forall t | t in SNAPSHOT_TYPES
      ensures result.byType[t] == OneCluster(name, r, uuid[ClusterType]).byType[t]
    {
      VersionOfType(name, r, uuid, t);
    }
    assert result.byType == OneCluster(name, r, uuid[ClusterType]).byType;
  }

  lemma ReconcileIsNext(y: System, e: History.Event, h': History.State)
    requires History.Next(y.history, e, h') && (e.Generate? || e.FetchOld? || e.Assign?)
    ensures XdsModel.Next(y, Reconciles(e), y.(history := h'))
  {
    hide History.Next;
  }

  lemma StoreIsNext(y: System, node: NodeId, snap: Snapshot, h': History.State, s': Cache.State)
    requires History.PhaseOf(y.history, 0) == History.Versioned(node, snap)
    requires History.Next(y.history, History.Store(0), h') && Cache.SetSnapshot(y.world.cache, node, snap, s')
    ensures XdsModel.Next(y, Stores(0), System(y.world.(cache := s'), h'))
  {
    hide History.Next, Cache.SetSnapshot;
  }

  /** The steps of the reconciler that generates that snapshot. */
  lemma ReconcilerSteps(h: History.State, node: NodeId, name: string, r: Resource, uuid: map<TypeUrl, Version>)
    requires h == History.Init(History.Xds, SNAPSHOT_TYPES) && History.Fresh(h, uuid)
    ensures var items, next := Items(name, r), OneCluster(name, r, uuid[ClusterType]);
            var h1, h2 := First.AfterGenerate(h, node, History.Unversioned(items)), First.AfterFetch(h, node, History.Unversioned(items));
            var h3 := First.AfterAssign(h, node, next, uuid);
            && History.Next(h, History.Generate(0, node, items), h1)
            && History.Next(h1, History.FetchOld(0), h2)
            && History.Next(h2, History.Assign(0, uuid), h3)
            && History.PhaseOf(h3, 0) == History.Versioned(node, next) && History.Next(h3, History.Store(0), First.AfterStore(h3, node, next))
  {
    hide Items, OneCluster, History.Fresh, History.Assigned, History.Unversioned, History.Next, History.PhaseOf;
    hide First.AfterGenerate, First.AfterFetch, First.AfterAssign, First.AfterStore;
    First.StillFresh(h, h, uuid);
    Versions(h, name, r, uuid);
    First.Steps(h, node, Items(name, r), uuid, OneCluster(name, r, uuid[ClusterType]));
  }

  /** A reconciler generates and stores that snapshot; the cache becomes `s'`. */
  lemma Publish(systems: seq<System>, events: seq<XdsModel.Event>, node: NodeId, name: string, r: Resource, uuid: map<TypeUrl, Version>, s': Cache.State)
      returns (systems': seq<System>, events': seq<XdsModel.Event>)
    requires IsRun(systems, events)
    requires var y := LastOf(systems);
             && y.history == History.Init(History.Xds, SNAPSHOT_TYPES) && History.Fresh(y.history, uuid)
             && Cache.SetSnapshot(y.world.cache, node, OneCluster(name, r, uuid[ClusterType]), s')
    ensures IsRun(systems', events') && systems' != [] && LastOf(systems').world == LastOf(systems).world.(cache := s')
  {
    var y := LastOf(systems);
    var h, items, next := y.history, Items(name, r), OneCluster(name, r, uuid[ClusterType]);
    var before := History.Unversioned(items);
    ReconcilerSteps(h, node, name, r, uuid);
    hide Items, OneCluster, History.Fresh, History.Unversioned, Cache.SetSnapshot, IsRun, History.Next, XdsModel.Next;
    hide First.AfterGenerate, First.AfterFetch, First.AfterAssign, First.AfterStore, History.PhaseOf;
    var h1, h2, h3 := First.AfterGenerate(h, node, before), First.AfterFetch(h, node, before), First.AfterAssign(h, node, next, uuid);
    ReconcileIsNext(y, History.Generate(0, node, items), h1);
    systems', events' := Extend(systems, events, Reconciles(History.Generate(0, node, items)), y.(history := h1));
    ReconcileIsNext(y.(history := h1), History.FetchOld(0), h2);
    systems', events' := Extend(systems', events', Reconciles(History.FetchOld(0)), y.(history := h2));
    ReconcileIsNext(y.(history := h2), History.Assign(0, uuid), h3);
    systems', events' := Extend(systems', events', Reconciles(History.Assign(0, uuid)), y.(history := h3));
    StoreIsNext(y.(history := h3), node, next, First.AfterStore(h3, node, next), s');
    systems', events' := Extend(systems', events', Stores(0), System(y.world.(cache := s'), First.AfterStore(h3, node, next)));
  }

  /** The slot waits, its client has nothing, there is something to have, and no watch is open. */
  ghost predicate LeftAlone(y: System, sid: StreamId, node: NodeId) {
    && Waits(y.world, sid, ClusterType) && !Watched(y.world, sid, ClusterType)
    && Proofs.SlotOf(y.world, sid, ClusterType).request.Some?
    && Proofs.SlotOf(y.world, sid, ClusterType).request.value.version == "" && node in y.world.cache.snapshots
    && y.world.cache.snapshots[node].GetVersion(ClusterType) != "" && y.world.cache.snapshots[node].GetResources(ClusterType) != map[]
  }

  lemma OneClusterIs(name: string, r: Resource, version: Version)
    ensures OneCluster(name, r, version).GetVersion(ClusterType) == version
    ensures OneCluster(name, r, version).GetResources(ClusterType) == map[name := r] && name in map[name := r]
  {}

  /** The request comes after the snapshot: `CreateWatch` neither answers it nor leaves a watch. */
  lemma DeclinedAtOnce(sid: StreamId, node: NodeId, named: string, other: string, r: Resource, uuid: map<TypeUrl, Version>)
      returns (systems: seq<System>, events: seq<XdsModel.Event>)
    requires named != other && History.Fresh(XdsModel.Init().history, uuid)
    ensures IsRun(systems, events) && systems != [] && LeftAlone(LastOf(systems), sid, node)
  {
    systems, events := [XdsModel.Init()], [];
    var snap := OneCluster(other, r, uuid[ClusterType]);
    OneClusterIs(other, r, uuid[ClusterType]);
    var s' := Cache.Init(true).(snapshots := map[node := snap]);
    assert Cache.SetSnapshot(Cache.Init(true), node, snap, s');
    hide IsRun, OneCluster;
    systems, events := Publish(systems, events, node, other, r, uuid, s');
    systems, events := Connect(systems, events, sid, node, named);
    HandledIs(s', node, named);
    assert other in snap.GetResources(ClusterType) && other !in Asked(node, named).names;
    hide Handled;
  }

  /** The request comes before the snapshot: `SetSnapshot` discards its watch without an answer. */
  lemma DiscardedLater(sid: StreamId, node: NodeId, named: string, other: string, r: Resource, uuid: map<TypeUrl, Version>)
      returns (systems: seq<System>, events: seq<XdsModel.Event>)
    requires named != other && History.Fresh(XdsModel.Init().history, uuid)
    ensures IsRun(systems, events) && systems != [] && LeftAlone(LastOf(systems), sid, node)
  {
    systems, events := [XdsModel.Init()], [];
    var snap := OneCluster(other, r, uuid[ClusterType]);
    OneClusterIs(other, r, uuid[ClusterType]);
    var s0 := Cache.Init(true);
    var s1 := Cache.CreateWatch(s0, Asked(node, named));
    var s2 := s1.(snapshots := map[node := snap], status := s1.status[node := Cache.Remaining(s1.status[node], snap)]);
    assert other in snap.GetResources(ClusterType) && other !in Asked(node, named).names;
    assert !Cache.Answers(true, snap, Asked(node, named));
    assert Cache.SetSnapshot(s1, node, snap, s2);
    hide IsRun, OneCluster, Handled, Cache.SetSnapshot;
    systems, events := Connect(systems, events, sid, node, named);
    HandledIs(s0, node, named);
    systems, events := Publish(systems, events, node, other, r, uuid, s2);
  }
}
