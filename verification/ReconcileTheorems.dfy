/** When reconciling changes a version, and that it pushes nothing otherwise. */
module ReconcileTheorems {
  import opened Basics
  import opened Xds
  import opened Versioner
  import opened VersionHistory
  import Cache = CacheModel

  // ---------- from reading to storing ----------

  ghost predicate StepOrStay(s: State, e: Option<Event>, t: State) {
    if e.None? then t == s else Next(s, e.value, t)
  }

  /** A stretch of a run, in which other things may happen than steps of reconcilers. */
  ghost predicate IsPath(states: seq<State>, events: seq<Option<Event>>) {
    && |states| == |events| + 1 && Inv(states[0])
    && forall k {:trigger events[k]} :: 0 <= k < |events| ==> StepOrStay(states[k], events[k], states[k + 1])
  }

  predicate Fetches(e: Option<Event>, rid: nat) {
    e.Some? && e.value.FetchOld? && e.value.rid == rid
  }

  predicate Stores(e: Option<Event>, rid: nat) {
    e.Some? && e.value.Store? && e.value.rid == rid
  }

  predicate Assigns(e: Option<Event>, rid: nat) {
    e.Some? && e.value.Assign? && e.value.rid == rid
  }

  /** One pass of a reconciler: when it generates, reads the current snapshot, chooses versions, and stores. */
  datatype Pass = Pass(rid: nat, node: NodeId, items: map<TypeUrl, map<string, Resource>>, generating: nat, reading: nat, choosing: nat, storing: nat)

  predicate IsPass(events: seq<Option<Event>>, c: Pass) {
    && c.generating < c.reading < c.choosing < c.storing < |events|
    && events[c.generating] == Some(Generate(c.rid, c.node, c.items)) && Fetches(events[c.reading], c.rid)
    && Assigns(events[c.choosing], c.rid) && Stores(events[c.storing], c.rid)
    && (forall m :: c.generating < m < c.reading ==> !Fetches(events[m], c.rid))
    && (forall m :: c.reading < m < c.choosing ==> !Assigns(events[m], c.rid))
    && (forall m :: c.choosing < m < c.storing ==> !Stores(events[m], c.rid))
  }

  ghost predicate Follows(states: seq<State>, events: seq<Option<Event>>, c: Pass) {
    IsPath(states, events) && IsPass(events, c)
  }

  /** What the pass generated for a type. */
  function GeneratedFor(c: Pass, typ: TypeUrl): map<string, Resource> {
    if typ in c.items then c.items[typ] else map[]
  }

  lemma {:induction false} PathKeepsInv(states: seq<State>, events: seq<Option<Event>>, k: nat)
    requires IsPath(states, events) && k < |states|
    ensures Inv(states[k]) && states[k].server == states[0].server && states[k].types == states[0].types
  {
    if k > 0 {
      hide Inv, Next;
      PathKeepsInv(states, events, k - 1);
      assert StepOrStay(states[k - 1], events[k - 1], states[k]);
      if events[k - 1].Some? {
        NextKeepsInv(states[k - 1], events[k - 1].value, states[k]);
        NextExtends(states[k - 1], events[k - 1].value, states[k]);
      }
    }
  }

  lemma PhaseStays(s: State, e: Option<Event>, t: State, rid: nat)
    requires StepOrStay(s, e, t)
    ensures PhaseOf(s, rid).Generated? && !Fetches(e, rid) ==> PhaseOf(t, rid) == PhaseOf(s, rid)
    ensures PhaseOf(s, rid).Fetched? && !Assigns(e, rid) ==> PhaseOf(t, rid) == PhaseOf(s, rid)
    ensures PhaseOf(s, rid).Versioned? && !Stores(e, rid) ==> PhaseOf(t, rid) == PhaseOf(s, rid)
  {
    hide Fresh, Assigned, Learn, Unversioned;
  }

  lemma {:induction false} StaysGenerated(states: seq<State>, events: seq<Option<Event>>, h: nat, i: nat, rid: nat)
    requires IsPath(states, events) && h < i < |states| && PhaseOf(states[h + 1], rid).Generated?
    requires forall m :: h < m < i ==> !Fetches(events[m], rid)
    ensures PhaseOf(states[i], rid) == PhaseOf(states[h + 1], rid)
    decreases i
  {
    if h + 1 < i {
      hide Next, Inv, PhaseOf;
      StaysGenerated(states, events, h, i - 1, rid);
      assert StepOrStay(states[i - 1], events[i - 1], states[i]);
      PhaseStays(states[i - 1], events[i - 1], states[i], rid);
    }
  }

  lemma {:induction false} StaysFetched(states: seq<State>, events: seq<Option<Event>>, i: nat, j: nat, rid: nat)
    requires IsPath(states, events) && i < j < |states| && PhaseOf(states[i + 1], rid).Fetched?
    requires forall m :: i < m < j ==> !Assigns(events[m], rid)
    ensures PhaseOf(states[j], rid) == PhaseOf(states[i + 1], rid)
    decreases j
  {
    if i + 1 < j {
      hide Next, Inv, PhaseOf;
      StaysFetched(states, events, i, j - 1, rid);
      assert StepOrStay(states[j - 1], events[j - 1], states[j]);
      PhaseStays(states[j - 1], events[j - 1], states[j], rid);
    }
  }

  lemma {:induction false} StaysVersioned(states: seq<State>, events: seq<Option<Event>>, j: nat, k: nat, rid: nat)
    requires IsPath(states, events) && j < k < |states| && PhaseOf(states[j + 1], rid).Versioned?
    requires forall m :: j < m < k ==> !Stores(events[m], rid)
    ensures PhaseOf(states[k], rid) == PhaseOf(states[j + 1], rid)
    decreases k
  {
    if j + 1 < k {
      hide Next, Inv, PhaseOf;
      StaysVersioned(states, events, j, k - 1, rid);
      assert StepOrStay(states[k - 1], events[k - 1], states[k]);
      PhaseStays(states[k - 1], events[k - 1], states[k], rid);
    }
  }

  // ---------- which version is chosen ----------

  /** The old version is kept. For xDS that may be the empty version of no resources at all. */
  predicate Keeps(server: Server, known: bool, before: map<string, Resource>, items: map<string, Resource>) {
    before == items && (server.Mads? ==> known)
  }

  lemma XdsChoice(s: State, snap: Snapshot, previous: Option<Snapshot>, uuid: map<TypeUrl, Version>, typ: TypeUrl)
    requires s.server.Xds? && snap.byType.Keys <= uuid.Keys && typ in snap.byType
    ensures var next, before := Assigned(s, snap, previous, uuid), if previous.Some? then previous.value else Snapshot(map[]);
            && next.byType.Keys == snap.byType.Keys && next.GetResources(typ) == snap.GetResources(typ)
            && next.GetVersion(typ) == if before.GetResources(typ) == snap.GetResources(typ) then before.GetVersion(typ) else uuid[typ]
  {}

  lemma MadsChoice(s: State, snap: Snapshot, previous: Option<Snapshot>, uuid: map<TypeUrl, Version>, typ: TypeUrl)
    requires s.server.Mads? && snap.byType.Keys <= uuid.Keys && typ in snap.byType && snap.GetVersion(typ) == ""
    requires previous.Some? ==> previous.value.GetVersion(typ) != ""
    ensures var next := Assigned(s, snap, previous, uuid);
            && next.byType.Keys == snap.byType.Keys && next.GetResources(typ) == snap.GetResources(typ)
            && next.GetVersion(typ) == if previous.Some? && previous.value.GetResources(typ) == snap.GetResources(typ)
                                       then previous.value.GetVersion(typ) else uuid[typ]
  {
    AutoVersionMeans(snap, previous, uuid);
    hide AutoVersion;
  }

  /** A new version is none that was current before. */
  lemma NewIsNew(s: State, snap: Snapshot, uuid: map<TypeUrl, Version>, typ: TypeUrl)
    requires Inv(s) && Good(s, snap) && Fresh(s, uuid) && typ in s.types
    ensures uuid[typ] != snap.GetVersion(typ) && (s.server.Mads? ==> snap.GetVersion(typ) != "")
  {
    if typ in snap.byType {
      assert Means(s, typ, snap.byType[typ]);
    }
  }

  /** What is chosen for one type: the version that was read exactly if it stood for the same resources, else
      a new one. */
  ghost predicate Chosen(server: Server, previous: Option<Snapshot>, items: map<string, Resource>, next: Snapshot, uuid: map<TypeUrl, Version>, typ: TypeUrl) {
    var before := if previous.Some? then previous.value else Snapshot(map[]);
    && typ in uuid && uuid[typ] != before.GetVersion(typ) && next.GetResources(typ) == items
    && next.GetVersion(typ) ==
       if Keeps(server, previous.Some?, before.GetResources(typ), items) then before.GetVersion(typ) else uuid[typ]
  }

  lemma ChoiceFacts(s: State, snap: Snapshot, previous: Option<Snapshot>, uuid: map<TypeUrl, Version>, typ: TypeUrl)
    requires Inv(s) && Fresh(s, uuid) && IsUnversioned(s, snap) && (previous.Some? ==> Good(s, previous.value)) && typ in s.types
    ensures uuid.Keys == s.types == snap.byType.Keys && uuid[typ] != "" && snap.GetVersion(typ) == ""
    ensures previous.Some? ==> uuid[typ] != previous.value.GetVersion(typ) && (s.server.Mads? ==> previous.value.GetVersion(typ) != "")
  {
    if previous.Some? {
      NewIsNew(s, previous.value, uuid, typ);
    }
    hide Good, Inv;
  }

  lemma Choice(s: State, snap: Snapshot, previous: Option<Snapshot>, uuid: map<TypeUrl, Version>, typ: TypeUrl)
    requires Inv(s) && Fresh(s, uuid) && IsUnversioned(s, snap) && (previous.Some? ==> Good(s, previous.value)) && typ in s.types
    ensures uuid.Keys == s.types == snap.byType.Keys && Assigned(s, snap, previous, uuid).byType.Keys == s.types
    ensures Chosen(s.server, previous, snap.GetResources(typ), Assigned(s, snap, previous, uuid), uuid, typ)
  {
    hide Inv, Good, Fresh, Assigned, IsUnversioned;
    ChoiceFacts(s, snap, previous, uuid, typ);
    if s.server.Xds? {
      XdsChoice(s, snap, previous, uuid, typ);
    } else {
      MadsChoice(s, snap, previous, uuid, typ);
    }
  }

  lemma AssignChooses(s: State, rid: nat, uuid: map<TypeUrl, Version>, t: State, typ: TypeUrl)
    requires Inv(s) && Next(s, Assign(rid, uuid), t) && typ in s.types
    ensures PhaseOf(s, rid).Fetched? && PhaseOf(t, rid).Versioned? && PhaseOf(t, rid).node == PhaseOf(s, rid).node
    ensures Chosen(s.server, PhaseOf(s, rid).previous, PhaseOf(s, rid).snap.GetResources(typ), PhaseOf(t, rid).snap, uuid, typ)
  {
    hide Inv, Next, Good, Fresh, Assigned, Learn, Chosen, Put;
    var p, next := AssignEffect(s, rid, uuid, t);
    Choice(s, p.snap, p.previous, uuid, typ);
  }

  lemma FetchReads(s: State, rid: nat, t: State)
    requires Next(s, FetchOld(rid), t)
    ensures PhaseOf(s, rid).Generated?
    ensures var p := PhaseOf(s, rid);
            PhaseOf(t, rid) == Fetched(p.node, p.snap, if p.node in s.current then Some(s.current[p.node]) else None)
  {}

  lemma GenerateKeeps(s: State, rid: nat, node: NodeId, items: map<TypeUrl, map<string, Resource>>, t: State)
    requires Next(s, Generate(rid, node, items), t)
    ensures PhaseOf(t, rid) == Generated(node, Unversioned(items)) && items.Keys == s.types
  {}

  /** What the reconciler read for its node. */
  function Read(states: seq<State>, c: Pass): Option<Snapshot>
    requires c.reading < |states|
  {
    if c.node in states[c.reading].current then Some(states[c.reading].current[c.node]) else None
  }

  lemma PathLength(states: seq<State>, events: seq<Option<Event>>)
    requires IsPath(states, events)
    ensures |states| == |events| + 1
  {}

  lemma StepAt(states: seq<State>, events: seq<Option<Event>>, k: nat)
    requires IsPath(states, events) && k < |events| && events[k].Some?
    ensures k + 1 < |states| && Next(states[k], events[k].value, states[k + 1])
  {
    assert StepOrStay(states[k], events[k], states[k + 1]);
    hide Next;
  }

  lemma PassGenerates(states: seq<State>, events: seq<Option<Event>>, c: Pass)
    requires Follows(states, events, c)
    ensures |states| == |events| + 1 && c.items.Keys == states[0].types
    ensures PhaseOf(states[c.reading], c.rid) == Generated(c.node, Unversioned(c.items))
  {
    hide IsPath, Next, PhaseOf, Unversioned, Inv;
    PathLength(states, events);
    GenerateAt(states, events, c);
    StaysGenerated(states, events, c.generating, c.reading, c.rid);
  }

  lemma GenerateAt(states: seq<State>, events: seq<Option<Event>>, c: Pass)
    requires IsPath(states, events) && c.generating < |events| && events[c.generating] == Some(Generate(c.rid, c.node, c.items))
    ensures |states| == |events| + 1 && c.items.Keys == states[0].types
    ensures PhaseOf(states[c.generating + 1], c.rid) == Generated(c.node, Unversioned(c.items))
  {
    hide IsPath, Next, PhaseOf, Unversioned, Inv;
    PathLength(states, events);
    PathKeepsInv(states, events, c.generating);
    StepAt(states, events, c.generating);
    GenerateKeeps(states[c.generating], c.rid, c.node, c.items, states[c.generating + 1]);
  }

  lemma PassReads(states: seq<State>, events: seq<Option<Event>>, c: Pass)
    requires Follows(states, events, c)
    ensures |states| == |events| + 1 && c.items.Keys == states[0].types
    ensures PhaseOf(states[c.choosing], c.rid) == Fetched(c.node, Unversioned(c.items), Read(states, c))
  {
    hide IsPath, Next, PhaseOf, Unversioned, Inv;
    PathLength(states, events);
    PassGenerates(states, events, c);
    StepAt(states, events, c.reading);
    FetchReads(states[c.reading], c.rid, states[c.reading + 1]);
    StaysFetched(states, events, c.reading, c.choosing, c.rid);
  }

  lemma GeneratedItems(c: Pass, typ: TypeUrl)
    ensures Unversioned(c.items).GetResources(typ) == GeneratedFor(c, typ)
  {}

  /** What a reconciler stores. Whatever others do meanwhile, it stores for its node and for every type what
      it generated, under the version it read if the resources are the same, and under a new one otherwise. */
  lemma VersionKeptIffUnchanged(states: seq<State>, events: seq<Option<Event>>, c: Pass, typ: TypeUrl)
    requires Follows(states, events, c) && typ in states[0].types
    ensures |states| == |events| + 1 && PhaseOf(states[c.storing], c.rid).Versioned? && PhaseOf(states[c.storing], c.rid).node == c.node
    ensures Chosen(states[0].server, Read(states, c), GeneratedFor(c, typ), PhaseOf(states[c.storing], c.rid).snap, events[c.choosing].value.uuid, typ)
  {
    hide IsPath, Next, PhaseOf, Unversioned, Inv, Chosen, GeneratedFor;
    PathLength(states, events);
    PassReads(states, events, c);
    PathKeepsInv(states, events, c.choosing);
    StepAt(states, events, c.choosing);
    AssignChooses(states[c.choosing], c.rid, events[c.choosing].value.uuid, states[c.choosing + 1], typ);
    GeneratedItems(c, typ);
    StaysVersioned(states, events, c.choosing, c.storing, c.rid);
  }

  lemma StoredKeys(states: seq<State>, events: seq<Option<Event>>, c: Pass)
    requires Follows(states, events, c)
    ensures PhaseOf(states[c.storing], c.rid).Versioned? && PhaseOf(states[c.storing], c.rid).node == c.node
    ensures PhaseOf(states[c.storing], c.rid).snap.byType.Keys == states[0].types == c.items.Keys
  {
    hide IsPath, Inv, Next, PhaseOf, Unversioned;
    PathLength(states, events);
    PathKeepsInv(states, events, c.choosing);
    PassReads(states, events, c);
    StepAt(states, events, c.choosing);
    AssignKeys(states[c.choosing], c.rid, events[c.choosing].value.uuid, states[c.choosing + 1]);
    StaysVersioned(states, events, c.choosing, c.storing, c.rid);
  }

  lemma AssignKeys(s: State, rid: nat, uuid: map<TypeUrl, Version>, t: State)
    requires Inv(s) && Next(s, Assign(rid, uuid), t)
    ensures PhaseOf(s, rid).Fetched? && PhaseOf(t, rid).Versioned? && PhaseOf(t, rid).node == PhaseOf(s, rid).node
    ensures PhaseOf(t, rid).snap.byType.Keys == s.types
  {
    var p := PhaseOf(s, rid);
    assert PhaseOk(s, p);
    assert PhaseOf(t, rid) == Versioned(p.node, Assigned(s, p.snap, p.previous, uuid));
    assert Assigned(s, p.snap, p.previous, uuid).byType.Keys == p.snap.byType.Keys;
  }

  // ---------- what is pushed ----------

  /** The two snapshots are the same to anybody who asks. */
  ghost predicate SameContent(a: Snapshot, b: Snapshot) {
    forall typ: TypeUrl :: a.GetVersion(typ) == b.GetVersion(typ) && a.GetResources(typ) == b.GetResources(typ)
  }

  /** Storing the same versions again answers and removes nothing. */
  lemma SameVersionsPushNothing(s: Cache.State, node: NodeId, snap: Snapshot, t: Cache.State)
    requires Cache.Inv(s) && Cache.SetSnapshot(s, node, snap, t) && node in s.snapshots
    requires forall typ: TypeUrl :: snap.GetVersion(typ) == s.snapshots[node].GetVersion(typ)
    ensures t.status == s.status && t.chans == s.chans
  {
    forall id | id in Cache.WatchesOf(s, node)
      ensures !Cache.Stale(snap, s.status[node][id])
    {
      assert Cache.WatchOk(s, node, id);
    }
    if node in s.status {
      assert Cache.Remaining(s.status[node], snap) == s.status[node];
      assert s.status[node := s.status[node]] == s.status;
    }
    assert forall c :: c in s.chans ==> t.chans[c] == s.chans[c];
  }

  /** A watch survives exactly if its version does. */
  lemma WatchSurvives(s: Cache.State, node: NodeId, snap: Snapshot, t: Cache.State, id: WatchId)
    requires Cache.Inv(s) && Cache.SetSnapshot(s, node, snap, t) && node in s.snapshots && Cache.IsOpen(s, node, id)
    ensures var typ := Cache.WatchAt(s, node, id).request.typeUrl;
            Cache.IsOpen(t, node, id) <==> snap.GetVersion(typ) == s.snapshots[node].GetVersion(typ)
  {
    assert Cache.WatchOk(s, node, id);
  }

  /** The node has a snapshot when the reconciler reads, and still has it when it stores. */
  ghost predicate Undisturbed(states: seq<State>, c: Pass)
    requires c.reading < |states| && c.storing < |states|
  {
    && c.node in states[c.reading].current && c.node in states[c.storing].current
    && states[c.storing].current[c.node] == states[c.reading].current[c.node]
  }

  /** For every type, also those that snapshots do not have, what is stored has the current version exactly if
      it has the current resources. */
  lemma VersionFollowsContent(states: seq<State>, events: seq<Option<Event>>, c: Pass, typ: TypeUrl)
    requires Follows(states, events, c) && Undisturbed(states, c)
    ensures PhaseOf(states[c.storing], c.rid).Versioned? && PhaseOf(states[c.storing], c.rid).node == c.node
    ensures var next, current := PhaseOf(states[c.storing], c.rid).snap, states[c.storing].current[c.node];
            && next.GetResources(typ) == GeneratedFor(c, typ)
            && (next.GetVersion(typ) == current.GetVersion(typ) <==> GeneratedFor(c, typ) == current.GetResources(typ))
  {
    PathKeepsInv(states, events, c.storing);
    assert Good(states[c.storing], states[c.storing].current[c.node]);
    hide IsPath, PhaseOf, Inv, Follows, Means, Chosen;
    if typ in states[0].types {
      VersionKeptIffUnchanged(states, events, c, typ);
      ChosenKeeps(states[0].server, states[c.reading].current[c.node], GeneratedFor(c, typ), PhaseOf(states[c.storing], c.rid).snap, events[c.choosing].value.uuid, typ);
    } else {
      StoredKeys(states, events, c);
    }
  }

  lemma ChosenKeeps(server: Server, before: Snapshot, items: map<string, Resource>, next: Snapshot, uuid: map<TypeUrl, Version>, typ: TypeUrl)
    requires Chosen(server, Some(before), items, next, uuid, typ)
    ensures next.GetResources(typ) == items && (next.GetVersion(typ) == before.GetVersion(typ) <==> items == before.GetResources(typ))
  {}

  /** Reconciling pushes exactly what has changed. If the node's snapshot at the store is still the one that
      was read, a watch is removed by the store exactly if the resources of its type have changed; and if
      none have, nothing is answered, no watch is removed, and the snapshot stays as it was. */
  lemma StorePushesChangesOnly(states: seq<State>, events: seq<Option<Event>>, c: Pass, s: Cache.State, t: Cache.State)
    requires Follows(states, events, c) && Undisturbed(states, c) && Cache.Inv(s) && s.snapshots == states[c.storing].current
    requires PhaseOf(states[c.storing], c.rid).Versioned? && Cache.SetSnapshot(s, c.node, PhaseOf(states[c.storing], c.rid).snap, t)
    ensures PushesChangesOnly(s, c, t)
  {
    var next := PhaseOf(states[c.storing], c.rid).snap;
    hide Follows, Cache.Inv, Cache.SetSnapshot, PhaseOf, GeneratedFor;
    forall typ: TypeUrl
      ensures FollowsContent(s.snapshots[c.node], GeneratedFor(c, typ), next, typ)
    {
      VersionFollowsContent(states, events, c, typ);
    }
    PushesByVersion(s, c, next, t);
  }

  ghost predicate FollowsContent(current: Snapshot, items: map<string, Resource>, next: Snapshot, typ: TypeUrl) {
    && next.GetResources(typ) == items
    && (next.GetVersion(typ) == current.GetVersion(typ) <==> items == current.GetResources(typ))
  }

  lemma PushesByVersion(s: Cache.State, c: Pass, next: Snapshot, t: Cache.State)
    requires Cache.Inv(s) && c.node in s.snapshots && Cache.SetSnapshot(s, c.node, next, t)
    requires forall typ: TypeUrl :: FollowsContent(s.snapshots[c.node], GeneratedFor(c, typ), next, typ)
    ensures PushesChangesOnly(s, c, t)
  {
    assert t.snapshots == s.snapshots[c.node := next];
    hide Cache.Inv, Cache.SetSnapshot, GeneratedFor;
    forall id: WatchId | Cache.IsOpen(s, c.node, id)
      ensures var typ := Cache.WatchAt(s, c.node, id).request.typeUrl;
              Cache.IsOpen(t, c.node, id) <==> GeneratedFor(c, typ) == s.snapshots[c.node].GetResources(typ)
    {
      WatchSurvives(s, c.node, next, t, id);
      assert FollowsContent(s.snapshots[c.node], GeneratedFor(c, Cache.WatchAt(s, c.node, id).request.typeUrl), next, Cache.WatchAt(s, c.node, id).request.typeUrl);
    }
    if forall typ: TypeUrl :: GeneratedFor(c, typ) == s.snapshots[c.node].GetResources(typ) {
      forall typ: TypeUrl
        ensures next.GetVersion(typ) == s.snapshots[c.node].GetVersion(typ)
      {
        assert FollowsContent(s.snapshots[c.node], GeneratedFor(c, typ), next, typ);
      }
      SameVersionsPushNothing(s, c.node, next, t);
    }
  }

  ghost predicate PushesChangesOnly(s: Cache.State, c: Pass, t: Cache.State) {
    && c.node in s.snapshots && c.node in t.snapshots
    && (forall id :: Cache.IsOpen(s, c.node, id) ==>
          var typ := Cache.WatchAt(s, c.node, id).request.typeUrl;
          (Cache.IsOpen(t, c.node, id) <==> GeneratedFor(c, typ) == s.snapshots[c.node].GetResources(typ)))
    && (forall typ: TypeUrl :: t.snapshots[c.node].GetResources(typ) == GeneratedFor(c, typ))
    && ((forall typ: TypeUrl :: GeneratedFor(c, typ) == s.snapshots[c.node].GetResources(typ)) ==>
          t.status == s.status && t.chans == s.chans && SameContent(t.snapshots[c.node], s.snapshots[c.node]))
  }
}
