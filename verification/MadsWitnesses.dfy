/** A run of MADS in which a client is behind although nothing is in flight. */
module MadsWitnesses {
  import opened Basics
  import opened Xds
  import opened StreamModel
  import opened MadsModel
  import opened MadsTheorems
  import Cache = CacheModel
  import History = VersionHistory
  import First = FirstReconcile

  /** All that makes a stream quiet except that its server loop is idle, and the client has not
      accepted the current version. */
  ghost predicate Behind(y: System, sid: StreamId) {
    && sid in y.clients && sid in y.world.streams
    && var cl, st, snapshots := y.clients[sid], y.world.streams[sid], y.world.cache.snapshots;
    && cl.toServer == [] && cl.toClient == [] && !st.phase.Idle?
    && !CanSend(y.world.cache, st, AssignmentType)
    && cl.lastRequest.Some?
    && cl.lastRequest.value.nonce == (if cl.latestReceived.Some? then cl.latestReceived.value.nonce else "")
    && Hash("") in snapshots && VersionOf(cl.latestACKed) != snapshots[Hash("")].GetVersion(AssignmentType)
  }

  function LastOf(systems: seq<System>): System
    requires systems != []
  {
    systems[|systems| - 1]
  }

  lemma Extend(systems: seq<System>, events: seq<MadsModel.Event>, e: MadsModel.Event, y: System)
      returns (systems': seq<System>, events': seq<MadsModel.Event>)
    requires IsRun(systems, events) && MadsModel.Next(LastOf(systems), e, y)
    ensures IsRun(systems', events') && systems' != [] && LastOf(systems') == y
  {
    hide MadsModel.Next;
    systems', events' := systems + [y], events + [e];
  }

  // ---------- the stages of the stream ----------

  function Fresh(): Stream {
    NewStream(MADS_TYPES, AssignmentType)
  }

  const ASKED := Request(Hash(""), AssignmentType, "", [], "")
  const ASKS := DiscoveryRequest(Some(Hash("")), AssignmentType, "", [], "")

  function Peeks(): Stream {
    Fresh().(node := ASKED.node, phase := Peeked(ASKED, None))
  }

  function GivesUp(): (st: Stream)
    ensures st.phase == Cancelled(ASKED, None)
  {
    PeeksIs(Cache.Init(false));
    AfterCancel(Peeks())
  }

  lemma PeeksIs(s: Cache.State)
    ensures AfterArrive(s, Fresh(), ASKS) == Peeks() && CanCancelSlot(Peeks()) && CacheAfterCancel(s, Peeks()) == s
  {
    assert AssignmentType in MADS_TYPES;
    assert Fresh().slots[AssignmentType] == EMPTY_SLOT;
  }

  /** The client before, during and after its request is in flight. */
  function Waiting(): Client {
    NEW_CLIENT.(lastRequest := Some(ASKS))
  }

  function At(sid: StreamId, st: Stream, cl: Client): System {
    System(World(Cache.Init(false), map[sid := st]), MadsModel.Init().history, map[sid := cl])
  }

  lemma StreamSteps(sid: StreamId)
    ensures MadsModel.Next(MadsModel.Init(), OpenStream(sid), At(sid, Fresh(), NEW_CLIENT))
    ensures MadsModel.Next(At(sid, Fresh(), NEW_CLIENT), ClientRequests(sid, ""), At(sid, Fresh(), RequestAssignments(NEW_CLIENT, "")))
  {
    hide NewStream;
    assert map[sid := NEW_CLIENT][sid := RequestAssignments(NEW_CLIENT, "")] == map[sid := RequestAssignments(NEW_CLIENT, "")];
  }

  lemma RequestSteps(sid: StreamId)
    ensures MadsModel.Next(At(sid, Fresh(), RequestAssignments(NEW_CLIENT, "")), ServerReceives(sid), At(sid, Peeks(), Waiting()))
    ensures MadsModel.Next(At(sid, Peeks(), Waiting()), ServerCancels(sid), At(sid, GivesUp(), Waiting()))
  {
    PeeksIs(Cache.Init(false));
    assert Fresh().phase.Idle?;
    var cl := RequestAssignments(NEW_CLIENT, "");
    assert cl.toServer == [ASKS] && cl.(toServer := cl.toServer[1..]) == Waiting();
    hide Fresh, Peeks, AfterArrive, AfterCancel, CacheAfterCancel, CanCancelSlot, RequestAssignments;
    assert map[sid := cl][sid := Waiting()] == map[sid := Waiting()];
    assert map[sid := Fresh()][sid := Peeks()] == map[sid := Peeks()];
    assert map[sid := Peeks()][sid := GivesUp()] == map[sid := GivesUp()];
  }

  // ---------- the reconciler ----------

  lemma Versions(items: map<string, Resource>, uuid: Version)
    requires uuid != ""
    ensures var h, uuids := MadsModel.Init().history, map[AssignmentType := uuid];
            && History.Fresh(h, uuids)
            && History.Assigned(h, History.Unversioned(map[AssignmentType := items]), None, uuids)
            == Snapshot(map[AssignmentType := Resources(uuid, items)])
  {
    var snap := History.Unversioned(map[AssignmentType := items]);
    assert snap.byType.Keys == {AssignmentType};
    var uuids := map[AssignmentType := uuid];
    var next := History.Assigned(MadsModel.Init().history, snap, None, uuids);
    assert next.byType.Keys == {AssignmentType};
    assert next.byType == map[AssignmentType := Resources(uuid, items)];
  }

  lemma ReconcileIsNext(y: System, e: MadsModel.Event, he: History.Event, h': History.State)
    requires History.Next(y.history, he, h')
    requires match e
             case Generates(rid, items) => he == History.Generate(rid, Hash(""), map[AssignmentType := items])
             case Fetches(rid) => he == History.FetchOld(rid)
             case Assigns(rid, uuid) => he == History.Assign(rid, map[AssignmentType := uuid])
             case _ => false
    ensures MadsModel.Next(y, e, y.(history := h'))
  {
    hide History.Next;
  }

  lemma StoreIsNext(y: System, snap: Snapshot, h': History.State, s': Cache.State)
    requires 0 in y.history.reconcilers && y.history.reconcilers[0] == History.Versioned(Hash(""), snap)
    requires History.Next(y.history, History.Store(0), h') && Cache.SetSnapshot(y.world.cache, Hash(""), snap, s')
    ensures MadsModel.Next(y, Stores(0), System(y.world.(cache := s'), h', y.clients))
  {
    hide History.Next, Cache.SetSnapshot;
  }

  lemma Publish(systems: seq<System>, events: seq<MadsModel.Event>, items: map<string, Resource>, uuid: Version, s': Cache.State)
      returns (systems': seq<System>, events': seq<MadsModel.Event>)
    requires IsRun(systems, events) && uuid != ""
    requires var y := LastOf(systems);
             && y.history == MadsModel.Init().history
             && Cache.SetSnapshot(y.world.cache, Hash(""), Snapshot(map[AssignmentType := Resources(uuid, items)]), s')
    ensures IsRun(systems', events') && systems' != []
    ensures LastOf(systems').world == LastOf(systems).world.(cache := s') && LastOf(systems').clients == LastOf(systems).clients
  {
    var y := LastOf(systems);
    var h, before, uuids := y.history, History.Unversioned(map[AssignmentType := items]), map[AssignmentType := uuid];
    var next := Snapshot(map[AssignmentType := Resources(uuid, items)]);
    Versions(items, uuid);
    First.Steps(h, Hash(""), map[AssignmentType := items], uuids, next);
    hide IsRun, History.Next, MadsModel.Next, Cache.SetSnapshot, First.AfterGenerate, First.AfterFetch, First.AfterAssign, First.AfterStore;
    hide History.Assigned, History.Fresh, History.Unversioned;
    var h1, h2 := First.AfterGenerate(h, Hash(""), before), First.AfterFetch(h, Hash(""), before);
    var h3 := First.AfterAssign(h, Hash(""), next, uuids);
    ReconcileIsNext(y, Generates(0, items), History.Generate(0, Hash(""), map[AssignmentType := items]), h1);
    systems', events' := Extend(systems, events, Generates(0, items), y.(history := h1));
    ReconcileIsNext(y.(history := h1), Fetches(0), History.FetchOld(0), h2);
    systems', events' := Extend(systems', events', Fetches(0), y.(history := h2));
    ReconcileIsNext(y.(history := h2), Assigns(0, uuid), History.Assign(0, uuids), h3);
    systems', events' := Extend(systems', events', Assigns(0, uuid), y.(history := h3));
    StoreIsNext(y.(history := h3), next, First.AfterStore(h3, Hash(""), next), s');
    systems', events' := Extend(systems', events', Stores(0), System(y.world.(cache := s'), First.AfterStore(h3, Hash(""), next), y.clients));
  }

  /** The idle loop matters: the first snapshot is stored after the server has called the cancel
      function for a client's request and before it calls `CreateWatch`. Nothing is in flight, nothing
      waits to be sent, and the client has accepted nothing. */
  lemma BusyStreamsMayBeBehind(sid: StreamId, items: map<string, Resource>, uuid: Version)
      returns (systems: seq<System>, events: seq<MadsModel.Event>)
    requires uuid != ""
    ensures IsRun(systems, events) && systems != [] && Behind(LastOf(systems), sid)
  {
    systems, events := [MadsModel.Init()], [];
    StreamSteps(sid);
    RequestSteps(sid);
    var snap := Snapshot(map[AssignmentType := Resources(uuid, items)]);
    var s' := Cache.Init(false).(snapshots := map[Hash("") := snap]);
    assert Cache.SetSnapshot(Cache.Init(false), Hash(""), snap, s');
    hide IsRun, MadsModel.Next, Cache.SetSnapshot, Fresh, Peeks, GivesUp, RequestAssignments;
    systems, events := Extend(systems, events, OpenStream(sid), At(sid, Fresh(), NEW_CLIENT));
    systems, events := Extend(systems, events, ClientRequests(sid, ""), At(sid, Fresh(), RequestAssignments(NEW_CLIENT, "")));
    systems, events := Extend(systems, events, ServerReceives(sid), At(sid, Peeks(), Waiting()));
    systems, events := Extend(systems, events, ServerCancels(sid), At(sid, GivesUp(), Waiting()));
    systems, events := Publish(systems, events, items, uuid, s');
  }
}
