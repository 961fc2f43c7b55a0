/** Assigning versions to freshly generated snapshots: `SnapshotAutoVersioner` (MADS) and
    `autoVersion` (xDS). UUIDs are a parameter: `uuid[t]` is what the generator would return for type `t`. */
module Versioner {
  import opened Basics
  import opened Xds
  import Sets

  /** The version the auto-versioner gives type `typ`: one the resource generator chose, else the old
      one if the resources are unchanged and it is not empty, else a new one. */
  function AutoVersionOf(next: Snapshot, prev: Option<Snapshot>, typ: TypeUrl, uuid: map<TypeUrl, Version>): Version
    requires typ in uuid
  {
    if next.GetVersion(typ) != "" then next.GetVersion(typ)
    else if prev.Some? && next.GetResources(typ) == prev.value.GetResources(typ) && prev.value.GetVersion(typ) != ""
    then prev.value.GetVersion(typ)
    else uuid[typ]
  }

  function AutoVersion(next: Snapshot, prev: Option<Snapshot>, uuid: map<TypeUrl, Version>): Snapshot
    requires next.byType.Keys <= uuid.Keys
  {
    Snapshot(map t | t in next.byType :: Resources(AutoVersionOf(next, prev, t, uuid), next.byType[t].items))
  }

  /** `reuseVersion`: keep the prev version, also an empty one, while the resources are unchanged. */
  function ReuseVersion(prev: Resources, next: Resources, uuid: Version): Resources {
    Resources(if prev.items == next.items then prev.version else uuid, next.items)
  }

  function ResourcesOf(s: Snapshot, typ: TypeUrl): Resources {
    Resources(s.GetVersion(typ), s.GetResources(typ))
  }

  /** The xDS reconciler's `autoVersion`; a missing previous snapshot counts as an empty one. */
  function XdsAutoVersion(next: Snapshot, prev: Option<Snapshot>, uuid: map<TypeUrl, Version>): Snapshot
    requires next.byType.Keys <= uuid.Keys
  {
    var previous := if prev.Some? then prev.value else Snapshot(map[]);
    Snapshot(map t | t in next.byType :: ReuseVersion(ResourcesOf(previous, t), next.byType[t], uuid[t]))
  }

  /** The comparison loop of both versioners decides equality of the two maps. */
  method Equal(next: map<string, Resource>, prev: map<string, Resource>) returns (equal: bool)
    ensures equal <==> next == prev
  {
    if |next| != |prev| {
      return false;
    }
    var todo := next.Keys;
    while todo != {}
      invariant todo <= next.Keys
      invariant forall k :: k in next && k !in todo ==> k in prev && prev[k] == next[k]
      decreases todo
    {
      var key :| key in todo;
      if key !in prev || next[key] != prev[key] {
        return false;
      }
      todo := todo - {key};
    }
    Sets.SubsetOfSameSize(next.Keys, prev.Keys);
    return true;
  }

  /** The body of the loop in `SnapshotAutoVersioner.Version`, for one type. */
  method VersionFor(next: Snapshot, prev: Option<Snapshot>, typ: TypeUrl, uuid: map<TypeUrl, Version>)
      returns (version: Version)
    requires typ in uuid
    ensures version == AutoVersionOf(next, prev, typ, uuid)
  {
    version := next.GetVersion(typ);
    if version != "" {
      return;
    }
    if prev.Some? {
      var same := Equal(next.GetResources(typ), prev.value.GetResources(typ));
      if same {
        version := prev.value.GetVersion(typ);
      }
    }
    if version == "" {
      version := uuid[typ];
    }
  }

  /** `SnapshotAutoVersioner.Version`: one pass over the supported types. */
  method Version(generated: Snapshot, prev: Option<Snapshot>, types: seq<TypeUrl>, uuid: map<TypeUrl, Version>)
      returns (next: Snapshot)
    requires generated.byType.Keys <= uuid.Keys
    requires forall t :: t in types <==> t in generated.byType
    requires forall i, j :: 0 <= i < j < |types| ==> types[i] != types[j]
    ensures next == AutoVersion(generated, prev, uuid)
  {
    hide AutoVersionOf;
    next := generated;
    for i := 0 to |types|
      invariant next.byType.Keys == generated.byType.Keys
      invariant forall j :: i <= j < |types| ==> next.byType[types[j]] == generated.byType[types[j]]
      invariant forall j :: 0 <= j < i ==> next.byType[types[j]] == Resources(AutoVersionOf(generated, prev, types[j], uuid), generated.byType[types[j]].items)
    {
      var typ := types[i];
      var version := VersionFor(next, prev, typ, uuid);
      SameResourcesSameVersion(next, generated, prev, typ, uuid);
      next := WithNewVersion(next, typ, version);
    }
    assert forall t :: t in generated.byType ==>
      next.byType[t] == Resources(AutoVersionOf(generated, prev, t, uuid), generated.byType[t].items);
  }

  /** Resources are kept. A version that the generator chose is kept too; otherwise the previous one is, if
      it is not empty and the resources are the same; otherwise the version is new. */
  lemma AutoVersionMeans(generated: Snapshot, prev: Option<Snapshot>, uuid: map<TypeUrl, Version>)
    requires generated.byType.Keys <= uuid.Keys
    ensures var next := AutoVersion(generated, prev, uuid);
            && next.byType.Keys == generated.byType.Keys
            && forall t :: t in generated.byType ==>
                 && next.GetResources(t) == generated.GetResources(t)
                 && next.GetVersion(t) ==
                    if generated.GetVersion(t) != "" then generated.GetVersion(t)
                    else if prev.Some? && prev.value.GetResources(t) == generated.GetResources(t) && prev.value.GetVersion(t) != ""
                    then prev.value.GetVersion(t) else uuid[t]
  {}

  lemma SameResourcesSameVersion(a: Snapshot, b: Snapshot, prev: Option<Snapshot>, typ: TypeUrl, uuid: map<TypeUrl, Version>)
    requires typ in a.byType && typ in b.byType && a.byType[typ] == b.byType[typ] && typ in uuid
    ensures AutoVersionOf(a, prev, typ, uuid) == AutoVersionOf(b, prev, typ, uuid)
  {}

  /** The version of a supported type changes and nothing else; an unsupported type is left alone. */
  method WithNewVersion(s: Snapshot, typ: TypeUrl, version: Version) returns (s': Snapshot)
    ensures s'.byType.Keys == s.byType.Keys
    ensures forall t :: t in s.byType ==>
              s'.byType[t] == if t == typ then Resources(version, s.byType[t].items) else s.byType[t]
    ensures typ !in s.byType ==> s' == s
  {
    if s.GetVersion(typ) == version {
      return s;
    }
    if typ in s.byType {
      return Snapshot(s.byType[typ := Resources(version, s.byType[typ].items)]);
    }
    return s;
  }
}
