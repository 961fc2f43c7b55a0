/** Racing reconcilers. Reading the current snapshot, choosing versions and storing the new snapshot
    are separate steps, and any number of reconcilers may be anywhere between them. */
module VersionHistory {
  import opened Basics
  import opened Xds
  import opened Versioner

  datatype Server = Mads | Xds

  datatype Phase =
    | Idle
    | Generated(node: NodeId, snap: Snapshot)
    | Fetched(node: NodeId, snap: Snapshot, previous: Option<Snapshot>)
    | Versioned(node: NodeId, snap: Snapshot)

  datatype Stored = Stored(node: NodeId, snap: Snapshot)

  /** `current` is what the cache holds. `used`, `stored` and `meaning` are history: the UUIDs
      handed out, the snapshots ever stored, and the resources each version was first given to. */
  datatype State = State(
    server: Server,
    types: set<TypeUrl>,
    current: map<NodeId, Snapshot>,
    reconcilers: map<nat, Phase>,
    used: set<Version>,
    stored: seq<Stored>,
    meaning: map<(TypeUrl, Version), map<string, Resource>>)

  function Init(server: Server, types: set<TypeUrl>): State {
    State(server, types, map[], map[], {}, [], map[])
  }

  datatype Event =
    | Generate(rid: nat, node: NodeId, items: map<TypeUrl, map<string, Resource>>)
    | FetchOld(rid: nat)
    | Assign(rid: nat, uuid: map<TypeUrl, Version>)
    | Store(rid: nat)
    | ClearNode(node: NodeId)
    | Evict(node: NodeId)

  function PhaseOf(s: State, rid: nat): Phase {
    if rid in s.reconcilers then s.reconcilers[rid] else Idle
  }

  /** Generators leave all versions empty. */
  function Unversioned(items: map<TypeUrl, map<string, Resource>>): Snapshot {
    Snapshot(map t | t in items :: Resources("", items[t]))
  }

  /** The UUIDs are new: not empty, never handed out before, all different. */
  ghost predicate Fresh(s: State, uuid: map<TypeUrl, Version>) {
    && uuid.Keys == s.types
    && (forall t :: t in uuid ==> uuid[t] != "" && uuid[t] !in s.used)
    && (forall t, t' :: t in uuid && t' in uuid && t != t' ==> uuid[t] != uuid[t'])
  }

  function Assigned(s: State, snap: Snapshot, previous: Option<Snapshot>, uuid: map<TypeUrl, Version>): Snapshot
    requires snap.byType.Keys <= uuid.Keys
  {
    if s.server.Mads? then AutoVersion(snap, previous, uuid) else XdsAutoVersion(snap, previous, uuid)
  }

  /** The versions of `snap` that were not known before now stand for its resources. */
  function Learn(meaning: map<(TypeUrl, Version), map<string, Resource>>, snap: Snapshot): map<(TypeUrl, Version), map<string, Resource>> {
    (map t | t in snap.byType :: (t, snap.byType[t].version) := snap.byType[t].items) + meaning
  }

  function Put(s: State, node: NodeId, snap: Snapshot): State {
    s.(current := s.current[node := snap], stored := s.stored + [Stored(node, snap)])
  }

  ghost predicate Next(s: State, e: Event, t: State) {
    match e
    case Generate(rid, node, items) =>
      items.Keys == s.types && PhaseOf(s, rid).Idle?
      && t == s.(reconcilers := s.reconcilers[rid := Generated(node, Unversioned(items))])
    case FetchOld(rid) =>
      PhaseOf(s, rid).Generated? &&
      var p := PhaseOf(s, rid);
      t == s.(reconcilers := s.reconcilers[rid :=
        Fetched(p.node, p.snap, if p.node in s.current then Some(s.current[p.node]) else None)])
    case Assign(rid, uuid) =>
      PhaseOf(s, rid).Fetched? && Fresh(s, uuid) && PhaseOf(s, rid).snap.byType.Keys <= uuid.Keys &&
      var p := PhaseOf(s, rid);
      var snap := Assigned(s, p.snap, p.previous, uuid);
      t == s.(reconcilers := s.reconcilers[rid := Versioned(p.node, snap)],
              used := s.used + uuid.Values,
              meaning := Learn(s.meaning, snap))
    case Store(rid) =>
      PhaseOf(s, rid).Versioned? &&
      var p := PhaseOf(s, rid);
      t == Put(s, p.node, p.snap).(reconcilers := s.reconcilers[rid := Idle])
    case ClearNode(node) =>
      s.server.Xds? && t == Put(s, node, Snapshot(map[]))
    case Evict(node) =>
      t == s.(current := s.current - {node})
  }

  // ---------- invariant ----------

  /** The version of the resources stands for exactly these resources; only the xDS reconciler
      leaves versions empty, and then there are no resources. */
  ghost predicate Means(s: State, typ: TypeUrl, r: Resources) {
    if r.version == "" then s.server.Xds? && r.items == map[]
    else (typ, r.version) in s.meaning && s.meaning[(typ, r.version)] == r.items
  }

  ghost predicate Good(s: State, snap: Snapshot) {
    && snap.byType.Keys <= s.types && (s.server.Mads? ==> snap.byType.Keys == s.types)
    && forall t :: t in snap.byType ==> Means(s, t, snap.byType[t])
  }

  ghost predicate PhaseOk(s: State, p: Phase) {
    match p
    case Idle => true
    case Generated(_, snap) => IsUnversioned(s, snap)
    case Fetched(_, snap, previous) => IsUnversioned(s, snap) && (previous.Some? ==> Good(s, previous.value))
    case Versioned(_, snap) => Good(s, snap)
  }

  ghost predicate IsUnversioned(s: State, snap: Snapshot) {
    snap.byType.Keys == s.types && forall t :: t in snap.byType ==> snap.byType[t].version == ""
  }

  ghost predicate Inv(s: State) {
    && (forall n :: n in s.current ==> Good(s, s.current[n]))
    && (forall i :: 0 <= i < |s.stored| ==> Good(s, s.stored[i].snap))
    && (forall rid :: rid in s.reconcilers ==> PhaseOk(s, s.reconcilers[rid]))
    && (forall k :: k in s.meaning ==> k.1 == "" || k.1 in s.used)
  }

  /** Meanings are only ever added. */
  ghost predicate Extends(s: State, t: State) {
    && t.server == s.server && t.types == s.types
    && forall k :: k in s.meaning ==> k in t.meaning && t.meaning[k] == s.meaning[k]
  }

  lemma LearnExtends(s: State, snap: Snapshot)
    ensures forall k :: k in s.meaning ==> k in Learn(s.meaning, snap) && Learn(s.meaning, snap)[k] == s.meaning[k]
  {}

  lemma NextExtends(s: State, e: Event, t: State)
    requires Next(s, e, t)
    ensures Extends(s, t)
    ensures e.Generate? || e.FetchOld? || e.Assign? ==> t.current == s.current
  {
    if e.Assign? {
      var p := PhaseOf(s, e.rid);
      LearnExtends(s, Assigned(s, p.snap, p.previous, e.uuid));
    } else {
      assert t.meaning == s.meaning;
    }
  }

  lemma GoodExtends(s: State, t: State, snap: Snapshot)
    requires Extends(s, t) && Good(s, snap)
    ensures Good(t, snap)
  {
    forall typ | typ in snap.byType
      ensures Means(t, typ, snap.byType[typ])
    {
      assert Means(s, typ, snap.byType[typ]);
    }
  }

  lemma InvExtends(s: State, t: State)
    requires Inv(s) && Extends(s, t) && t == s.(used := t.used, meaning := t.meaning)
    requires forall k :: k in t.meaning ==> k.1 == "" || k.1 in t.used
    ensures Inv(t)
  {
    forall n | n in s.current ensures Good(t, s.current[n]) { GoodExtends(s, t, s.current[n]); }
    forall i | 0 <= i < |s.stored| ensures Good(t, s.stored[i].snap) { GoodExtends(s, t, s.stored[i].snap); }
    forall rid | rid in s.reconcilers
      ensures PhaseOk(t, s.reconcilers[rid])
    {
      var p := s.reconcilers[rid];
      assert PhaseOk(s, p);
      if p.Fetched? && p.previous.Some? { GoodExtends(s, t, p.previous.value); }
      if p.Versioned? { GoodExtends(s, t, p.snap); }
    }
  }

  /** The heart of the matter: a version is either carried over together with the resources it
      stands for, or it is new. */
  lemma AssignedMeans(s: State, snap: Snapshot, previous: Option<Snapshot>, uuid: map<TypeUrl, Version>, typ: TypeUrl)
    requires Inv(s) && Fresh(s, uuid) && IsUnversioned(s, snap) && (previous.Some? ==> Good(s, previous.value))
    requires typ in snap.byType
    ensures var r := Assigned(s, snap, previous, uuid).byType[typ];
            && r.items == snap.byType[typ].items
            && ((r.version == uuid[typ] && (typ, r.version) !in s.meaning) || Means(s, typ, r))
  {
    var r := snap.byType[typ];
    assert r.version == "";
    assert (typ, uuid[typ]) !in s.meaning && uuid[typ] != "";
    var before := if previous.Some? then previous.value else Snapshot(map[]);
    if typ in before.byType {
      assert Means(s, typ, before.byType[typ]);
    }
    var result := Assigned(s, snap, previous, uuid).byType[typ];
    hide Good, IsUnversioned, Inv, Fresh;
    if s.server.Mads? {
      assert result == Resources(AutoVersionOf(snap, previous, typ, uuid), r.items);
      hide Assigned;
    } else {
      assert result == ReuseVersion(ResourcesOf(before, typ), r, uuid[typ]);
      hide Assigned;
    }
  }

  /** Each version of the new snapshot is known, or becomes known now, with the resources it is given to. */
  lemma LearnMeans(s: State, snap: Snapshot, previous: Option<Snapshot>, uuid: map<TypeUrl, Version>, typ: TypeUrl)
    requires Inv(s) && Fresh(s, uuid) && IsUnversioned(s, snap) && (previous.Some? ==> Good(s, previous.value))
    requires typ in snap.byType
    ensures var next := Assigned(s, snap, previous, uuid);
            Means(s.(used := s.used + uuid.Values, meaning := Learn(s.meaning, next)), typ, next.byType[typ])
  {
    AssignedMeans(s, snap, previous, uuid, typ);
    var next := Assigned(s, snap, previous, uuid);
    var key := (typ, next.byType[typ].version);
    assert key in (map t | t in next.byType :: (t, next.byType[t].version) := next.byType[t].items);
  }

  lemma LearnUses(s: State, snap: Snapshot, previous: Option<Snapshot>, uuid: map<TypeUrl, Version>)
    requires Inv(s) && Fresh(s, uuid) && IsUnversioned(s, snap) && (previous.Some? ==> Good(s, previous.value))
    ensures forall k :: k in Learn(s.meaning, Assigned(s, snap, previous, uuid)) ==> k.1 == "" || k.1 in s.used + uuid.Values
  {
    var next := Assigned(s, snap, previous, uuid);
    forall typ | typ in next.byType
      ensures next.byType[typ].version == "" || next.byType[typ].version in s.used + uuid.Values
    {
      AssignedMeans(s, snap, previous, uuid, typ);
      assert uuid[typ] in uuid.Values;
    }
  }

  lemma LearnedIsGood(s: State, snap: Snapshot, previous: Option<Snapshot>, uuid: map<TypeUrl, Version>)
    requires Inv(s) && Fresh(s, uuid) && IsUnversioned(s, snap) && (previous.Some? ==> Good(s, previous.value))
    ensures var next := Assigned(s, snap, previous, uuid);
            Good(s.(used := s.used + uuid.Values, meaning := Learn(s.meaning, next)), next)
  {
    var next := Assigned(s, snap, previous, uuid);
    forall typ | typ in next.byType
      ensures Means(s.(used := s.used + uuid.Values, meaning := Learn(s.meaning, next)), typ, next.byType[typ])
    {
      LearnMeans(s, snap, previous, uuid, typ);
    }
  }

  /** A step of one reconciler keeps the invariant if the phase it reaches is in order. */
  lemma SetPhaseKeepsInv(s: State, rid: nat, p: Phase)
    requires Inv(s) && PhaseOk(s, p)
    ensures Inv(s.(reconcilers := s.reconcilers[rid := p]))
  {
    var t := s.(reconcilers := s.reconcilers[rid := p]);
    SameMeanings(s, t);
    forall r | r in t.reconcilers
      ensures PhaseOk(t, t.reconcilers[r])
    {
      if r != rid {
        assert PhaseOk(s, s.reconcilers[r]);
      }
    }
  }

  lemma SameMeanings(s: State, t: State)
    requires t.server == s.server && t.types == s.types && t.meaning == s.meaning
    ensures forall snap :: Good(s, snap) ==> Good(t, snap)
    ensures forall p :: PhaseOk(s, p) ==> PhaseOk(t, p)
  {
    forall snap | Good(s, snap)
      ensures Good(t, snap)
    {
      GoodExtends(s, t, snap);
    }
  }

  lemma AssignEffect(s: State, rid: nat, uuid: map<TypeUrl, Version>, t: State) returns (p: Phase, next: Snapshot)
    requires Inv(s) && Next(s, Assign(rid, uuid), t)
    ensures p == PhaseOf(s, rid) && p.Fetched? && PhaseOk(s, p) && Fresh(s, uuid) && p.snap.byType.Keys <= uuid.Keys && next == Assigned(s, p.snap, p.previous, uuid)
    ensures t == s.(used := s.used + uuid.Values, meaning := Learn(s.meaning, next), reconcilers := s.reconcilers[rid := Versioned(p.node, next)])
  {
    p := s.reconcilers[rid];
    assert PhaseOk(s, p);
    next := Assigned(s, p.snap, p.previous, uuid);
  }

  lemma AssignKeepsInv(s: State, rid: nat, uuid: map<TypeUrl, Version>, t: State)
    requires Inv(s) && Next(s, Assign(rid, uuid), t)
    ensures Inv(t)
  {
    hide Inv, Good, Learn, Assigned, Fresh, IsUnversioned, Next;
    var p, next := AssignEffect(s, rid, uuid, t);
    var s1 := s.(used := s.used + uuid.Values, meaning := Learn(s.meaning, next));
    LearnExtends(s, next);
    assert Extends(s, s1);
    hide Extends;
    LearnUses(s, p.snap, p.previous, uuid);
    LearnedIsGood(s, p.snap, p.previous, uuid);
    InvExtends(s, s1);
    SetPhaseKeepsInv(s1, rid, Versioned(p.node, next));
  }

  lemma PutKeepsInv(s: State, node: NodeId, snap: Snapshot)
    requires Inv(s) && Good(s, snap)
    ensures Inv(Put(s, node, snap))
  {
    SameMeanings(s, Put(s, node, snap));
  }

  lemma NextKeepsInv(s: State, e: Event, t: State)
    requires Inv(s) && Next(s, e, t)
    ensures Inv(t)
  {
    match e
    case Generate(rid, node, items) => SetPhaseKeepsInv(s, rid, t.reconcilers[rid]);
    case FetchOld(rid) => SetPhaseKeepsInv(s, rid, t.reconcilers[rid]);
    case Assign(rid, uuid) => AssignKeepsInv(s, rid, uuid, t);
    case Store(rid) =>
      var p := s.reconcilers[rid];
      assert PhaseOk(s, p);
      PutKeepsInv(s, p.node, p.snap);
      SetPhaseKeepsInv(Put(s, p.node, p.snap), rid, Idle);
    case ClearNode(node) => PutKeepsInv(s, node, Snapshot(map[]));
    case Evict(node) => SameMeanings(s, t);
  }

  // ---------- runs ----------

  ghost predicate IsRun(states: seq<State>, events: seq<Event>) {
    && |states| == |events| + 1
    && states[0] == Init(states[0].server, states[0].types)
    && forall i {:trigger events[i]} :: 0 <= i < |events| ==> Next(states[i], events[i], states[i + 1])
  }

  lemma {:induction false} RunKeepsInv(states: seq<State>, events: seq<Event>, i: nat)
    requires IsRun(states, events) && i < |states|
    ensures Inv(states[i])
  {
    if i > 0 {
      RunKeepsInv(states, events, i - 1);
      NextKeepsInv(states[i - 1], events[i - 1], states[i]);
    }
  }

  /** Versions identify content over whole histories: in every run of racing reconcilers any two
      snapshots ever stored that share a version for a type hold equal resources of that type. */
  lemma VersionsIdentifyContent(states: seq<State>, events: seq<Event>, i: nat, a: nat, b: nat, typ: TypeUrl)
    requires IsRun(states, events) && i < |states| && a < |states[i].stored| && b < |states[i].stored|
    requires states[i].stored[a].snap.GetVersion(typ) == states[i].stored[b].snap.GetVersion(typ)
    ensures states[i].server.Mads? ==> typ in states[i].types ==> states[i].stored[a].snap.GetVersion(typ) != ""
    ensures states[i].stored[a].snap.GetResources(typ) == states[i].stored[b].snap.GetResources(typ)
    ensures states[i].stored[a].snap.GetVersion(typ) == "" ==> states[i].stored[a].snap.GetResources(typ) == map[]
  {
    RunKeepsInv(states, events, i);
    var s := states[i];
    var x, y := s.stored[a].snap, s.stored[b].snap;
    assert Good(s, x) && Good(s, y);
    assert typ in x.byType ==> Means(s, typ, x.byType[typ]);
    assert typ in y.byType ==> Means(s, typ, y.byType[typ]);
  }

  lemma StoresOne(s: State, e: Event, t: State)
    requires Next(s, e, t)
    ensures s.stored <= t.stored
    ensures forall n :: n in t.current && (n !in s.current || t.current[n] != s.current[n]) ==>
              t.stored == s.stored + [Stored(n, t.current[n])]
  {}

  lemma {:induction false} CurrentIsStored(states: seq<State>, events: seq<Event>, i: nat, node: NodeId)
    requires IsRun(states, events) && i < |states| && node in states[i].current
    ensures Stored(node, states[i].current[node]) in states[i].stored
  {
    if i > 0 {
      assert Next(states[i - 1], events[i - 1], states[i]);
      StoresOne(states[i - 1], events[i - 1], states[i]);
      hide Next;
      if node in states[i - 1].current && states[i].current[node] == states[i - 1].current[node] {
        CurrentIsStored(states, events, i - 1, node);
      }
    }
  }

  lemma {:induction false} StoredOnlyGrows(states: seq<State>, events: seq<Event>, i: nat, j: nat)
    requires IsRun(states, events) && i <= j < |states|
    ensures states[i].stored <= states[j].stored
    decreases j
  {
    if i < j {
      StoredOnlyGrows(states, events, i, j - 1);
      assert Next(states[j - 1], events[j - 1], states[j]);
      StoresOne(states[j - 1], events[j - 1], states[j]);
      hide Next;
    }
  }

  /** `stored` is a true history: what it has is kept, and every snapshot that was current at some
      moment is in it from then on. */
  lemma StoredIsHistory(states: seq<State>, events: seq<Event>, i: nat, j: nat, node: NodeId)
    requires IsRun(states, events) && i <= j < |states|
    ensures states[i].stored <= states[j].stored
    ensures node in states[i].current ==> Stored(node, states[i].current[node]) in states[j].stored
  {
    StoredOnlyGrows(states, events, i, j);
    if node in states[i].current {
      CurrentIsStored(states, events, i, node);
    }
  }

  /** So a version that was current at two moments of a run, for any two nodes, stood for the same
      resources both times. */
  lemma SameVersionSameResources(states: seq<State>, events: seq<Event>, i: nat, j: nat, m: NodeId, n: NodeId, typ: TypeUrl)
    requires IsRun(states, events) && i <= j < |states| && m in states[i].current && n in states[j].current
    requires states[i].current[m].GetVersion(typ) == states[j].current[n].GetVersion(typ)
    ensures states[i].current[m].GetResources(typ) == states[j].current[n].GetResources(typ)
  {
    hide IsRun;
    StoredIsHistory(states, events, i, j, m);
    StoredIsHistory(states, events, j, j, n);
    var a :| 0 <= a < |states[j].stored| && states[j].stored[a] == Stored(m, states[i].current[m]);
    var b :| 0 <= b < |states[j].stored| && states[j].stored[b] == Stored(n, states[j].current[n]);
    VersionsIdentifyContent(states, events, j, a, b, typ);
  }
}
