/** One reconciler on its own: the steps from the initial state until its first snapshot is stored. */
module FirstReconcile {
  import opened Basics
  import opened Xds
  import opened VersionHistory

  function AfterGenerate(s: State, node: NodeId, snap: Snapshot): State {
    s.(reconcilers := map[0 := Generated(node, snap)])
  }

  function AfterFetch(s: State, node: NodeId, snap: Snapshot): State {
    s.(reconcilers := map[0 := Fetched(node, snap, None)])
  }

  function AfterAssign(s: State, node: NodeId, next: Snapshot, uuid: map<TypeUrl, Version>): State {
    s.(reconcilers := map[0 := Versioned(node, next)], used := s.used + uuid.Values, meaning := Learn(s.meaning, next))
  }

  function AfterStore(s: State, node: NodeId, next: Snapshot): State {
    Put(s, node, next).(reconcilers := s.reconcilers[0 := Idle])
  }

  lemma FirstSteps(s: State, node: NodeId, items: map<TypeUrl, map<string, Resource>>)
    requires s == Init(s.server, s.types) && items.Keys == s.types
    ensures var snap := Unversioned(items);
            && Next(s, Generate(0, node, items), AfterGenerate(s, node, snap))
            && Next(AfterGenerate(s, node, snap), FetchOld(0), AfterFetch(s, node, snap))
  {
    hide Unversioned;
  }

  lemma AssignStep(s: State, node: NodeId, snap: Snapshot, uuid: map<TypeUrl, Version>, next: Snapshot)
    requires s.reconcilers == map[0 := Fetched(node, snap, None)] && Fresh(s, uuid)
    requires snap.byType.Keys <= uuid.Keys && next == Assigned(s, snap, None, uuid)
    ensures Next(s, Assign(0, uuid), AfterAssign(s, node, next, uuid))
  {
    hide PhaseOf, Fresh, Assigned, Learn;
    OnlyOne(s, Fetched(node, snap, None), Versioned(node, next));
  }

  lemma OnlyOne(s: State, p: Phase, q: Phase)
    requires s.reconcilers == map[0 := p]
    ensures PhaseOf(s, 0) == p && s.reconcilers[0 := q] == map[0 := q]
  {}

  lemma StoreStep(s: State, node: NodeId, next: Snapshot, uuid: map<TypeUrl, Version>)
    ensures var s' := AfterAssign(s, node, next, uuid);
            PhaseOf(s', 0) == Versioned(node, next) && Next(s', Store(0), AfterStore(s', node, next))
  {
    hide Learn;
  }

  lemma StillFresh(s: State, t: State, uuid: map<TypeUrl, Version>)
    requires Fresh(s, uuid) && t.types == s.types && t.used == s.used
    ensures Fresh(t, uuid) && uuid.Keys == s.types
  {}

  /** From the initial state these four steps give the snapshot of `items` its versions and store it. */
  lemma Steps(s: State, node: NodeId, items: map<TypeUrl, map<string, Resource>>, uuid: map<TypeUrl, Version>, next: Snapshot)
    requires s == Init(s.server, s.types) && items.Keys == s.types && Fresh(s, uuid)
    requires next == Assigned(s, Unversioned(items), None, uuid)
    ensures var snap, s' := Unversioned(items), AfterAssign(s, node, next, uuid);
            && Next(s, Generate(0, node, items), AfterGenerate(s, node, snap))
            && Next(AfterGenerate(s, node, snap), FetchOld(0), AfterFetch(s, node, snap))
            && Next(AfterFetch(s, node, snap), Assign(0, uuid), s')
            && PhaseOf(s', 0) == Versioned(node, next) && Next(s', Store(0), AfterStore(s', node, next))
  {
    FirstSteps(s, node, items);
    StoreStep(s, node, next, uuid);
    var snap := Unversioned(items);
    var f := AfterFetch(s, node, snap);
    StillFresh(s, f, uuid);
    assert next == Assigned(f, snap, None, uuid);
    hide Next, Fresh, Unversioned, Assigned, Learn;
    AssignStep(f, node, snap, uuid, next);
    assert AfterAssign(f, node, next, uuid) == AfterAssign(s, node, next, uuid);
  }
}
