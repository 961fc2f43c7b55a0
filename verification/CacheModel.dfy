/** The snapshot cache as a state machine. Every cache method holds the cache's mutex
    throughout, so each is one atomic step. */
module CacheModel {
  import opened Basics
  import opened Xds

  /** The cache's fields, together with the response channels alive in the process. */
  datatype State = State(
    ads: bool,
    snapshots: map<NodeId, Snapshot>,
    status: map<NodeId, map<WatchId, Watch>>,
    watchCount: nat,
    chans: map<ChanId, Chan>,
    nextChan: ChanId)

  function Init(ads: bool): State {
    State(ads, map[], map[], 0, map[], 0)
  }

  predicate IsOpen(s: State, node: NodeId, id: WatchId) {
    node in s.status && id in s.status[node]
  }

  function WatchAt(s: State, node: NodeId, id: WatchId): Watch
    requires IsOpen(s, node, id)
  {
    s.status[node][id]
  }

  // ---------- responses ----------

  /** The resources a request asks for: those it names, or all of them if it names none. */
  function Requested(names: seq<string>, resources: map<string, Resource>): map<string, Resource> {
    if |names| != 0 then map n | n in resources && n in names :: resources[n] else resources
  }

  /** In ADS mode a request that names only part of the resources is not answered. */
  predicate Declines(ads: bool, request: Request, resources: map<string, Resource>) {
    |request.names| != 0 && ads && exists n :: n in resources && n !in request.names
  }

  predicate Answers(ads: bool, snap: Snapshot, request: Request) {
    !Declines(ads, request, snap.GetResources(request.typeUrl))
  }

  function Answer(snap: Snapshot, request: Request): Response {
    Response(request, snap.GetVersion(request.typeUrl), Requested(request.names, snap.GetResources(request.typeUrl)))
  }

  function Push(c: Chan, r: Response): Chan {
    Chan(c.buffer + [r], c.sent + 1, c.closes)
  }

  // ---------- steps ----------

  predicate Stale(snap: Snapshot, watch: Watch) {
    snap.GetVersion(watch.request.typeUrl) != watch.request.version
  }

  function Remaining(watches: map<WatchId, Watch>, snap: Snapshot): map<WatchId, Watch> {
    map id | id in watches && !Stale(snap, watches[id]) :: watches[id]
  }

  /** Watch `id` is stale and the cache has something to say to it. */
  predicate Triggers(ads: bool, watches: map<WatchId, Watch>, snap: Snapshot, id: WatchId) {
    id in watches && Stale(snap, watches[id]) && Answers(ads, snap, watches[id].request)
  }

  /** The triggered watches have been answered on their channels and no other channel has moved. */
  ghost predicate Answered(ads: bool, watches: map<WatchId, Watch>, snap: Snapshot,
                           before: map<ChanId, Chan>, after: map<ChanId, Chan>)
  {
    && after.Keys == before.Keys
    && (forall id :: Triggers(ads, watches, snap, id) && watches[id].chan in before ==>
          after[watches[id].chan] == Push(before[watches[id].chan], Answer(snap, watches[id].request)))
    && (forall c :: c in before && after[c] != before[c] ==>
          exists id :: Triggers(ads, watches, snap, id) && watches[id].chan == c)
  }

  function WatchesOf(s: State, node: NodeId): map<WatchId, Watch> {
    if node in s.status then s.status[node] else map[]
  }

  ghost predicate SetSnapshot(s: State, node: NodeId, snap: Snapshot, t: State) {
    && t.ads == s.ads && t.watchCount == s.watchCount && t.nextChan == s.nextChan
    && t.snapshots == s.snapshots[node := snap]
    && t.status == (if node in s.status then s.status[node := Remaining(s.status[node], snap)] else s.status)
    && Answered(s.ads, WatchesOf(s, node), snap, s.chans, t.chans)
  }

  function ClearSnapshot(s: State, node: NodeId): State {
    s.(snapshots := s.snapshots - {node}, status := s.status - {node})
  }

  /** The request would be left waiting: no snapshot yet, or the client already has its version. */
  predicate MustWait(s: State, request: Request) {
    request.node in s.snapshots ==> request.version == s.snapshots[request.node].GetVersion(request.typeUrl)
  }

  function Opened(s: State, request: Request): State {
    var id := s.watchCount + 1;
    s.(watchCount := id,
       status := s.status[request.node := WatchesOf(s, request.node)[id := Watch(request, s.nextChan)]],
       chans := s.chans[s.nextChan := NEW_CHAN],
       nextChan := s.nextChan + 1)
  }

  function Immediate(s: State, request: Request): State
    requires request.node in s.snapshots
  {
    var snap := s.snapshots[request.node];
    s.(status := s.status[request.node := WatchesOf(s, request.node)],
       chans := s.chans[s.nextChan := if Answers(s.ads, snap, request) then Push(NEW_CHAN, Answer(snap, request)) else NEW_CHAN],
       nextChan := s.nextChan + 1)
  }

  /** The state after `CreateWatch`; the new channel is `s.nextChan`. */
  function CreateWatch(s: State, request: Request): State {
    if MustWait(s, request) then Opened(s, request) else Immediate(s, request)
  }

  function CreateWatchCancel(s: State, request: Request): Cancel {
    if MustWait(s, request) then CancelWatch(request.node, s.watchCount + 1) else NoCancel
  }

  function CancelledWatch(s: State, node: NodeId, id: WatchId): State {
    if node in s.status then s.(status := s.status[node := s.status[node] - {id}]) else s
  }

  /** `scheduleResponse`: a new channel already holding the response. */
  function Scheduled(s: State, resp: Response): State {
    s.(chans := s.chans[s.nextChan := Push(NEW_CHAN, resp)], nextChan := s.nextChan + 1)
  }

  /** Closing a scheduled channel also drains it. */
  function Closed(s: State, c: ChanId): State {
    if c in s.chans then s.(chans := s.chans[c := Chan([], s.chans[c].sent, s.chans[c].closes + 1)]) else s
  }

  function DoCancel(s: State, cancel: Cancel): State {
    match cancel
    case NoCancel => s
    case CancelWatch(node, id) => CancelledWatch(s, node, id)
    case CloseChan(c) => Closed(s, c)
  }

  predicate CanReceive(s: State, c: ChanId) {
    c in s.chans && s.chans[c].buffer != []
  }

  function Received(s: State, c: ChanId): State
    requires CanReceive(s, c)
  {
    s.(chans := s.chans[c := s.chans[c].(buffer := s.chans[c].buffer[1..])])
  }

  datatype FetchError = SkipFetch | MissingSnapshot

  /** `Fetch`: the answer to a request, unless the version is unchanged or the snapshot missing. */
  function Fetch(s: State, request: Request): Result<Response, FetchError> {
    if request.node !in s.snapshots then Err(MissingSnapshot)
    else if request.version == s.snapshots[request.node].GetVersion(request.typeUrl) then Err(SkipFetch)
    else Ok(Answer(s.snapshots[request.node], request))
  }

  // ---------- invariant ----------

  /** An open watch waits on a channel of its own that has never been used. */
  ghost predicate WatchOk(s: State, node: NodeId, id: WatchId)
    requires IsOpen(s, node, id)
  {
    var w := WatchAt(s, node, id);
    && 1 <= id <= s.watchCount
    && w.request.node == node
    && w.chan in s.chans && s.chans[w.chan] == NEW_CHAN
    && (node in s.snapshots ==> !Stale(s.snapshots[node], w))
  }

  ghost predicate SameWatch(s: State, n1: NodeId, id1: WatchId, n2: NodeId, id2: WatchId)
    requires IsOpen(s, n1, id1) && IsOpen(s, n2, id2)
  {
    id1 == id2 || WatchAt(s, n1, id1).chan == WatchAt(s, n2, id2).chan
  }

  ghost predicate Inv(s: State) {
    && (forall c :: c in s.chans ==> c < s.nextChan && |s.chans[c].buffer| <= s.chans[c].sent <= 1 && s.chans[c].closes <= 1)
    && (forall n, id :: IsOpen(s, n, id) ==> WatchOk(s, n, id))
    && (forall n1, id1, n2, id2 :: IsOpen(s, n1, id1) && IsOpen(s, n2, id2) && SameWatch(s, n1, id1, n2, id2) ==>
          n1 == n2 && id1 == id2)
  }

  lemma SetSnapshotKeepsInv(s: State, node: NodeId, snap: Snapshot, t: State)
    requires Inv(s) && SetSnapshot(s, node, snap, t)
    ensures Inv(t)
  {
    forall n, id | IsOpen(t, n, id)
      ensures WatchOk(t, n, id)
    {
      assert IsOpen(s, n, id) && WatchAt(s, n, id) == WatchAt(t, n, id);
      var c := WatchAt(s, n, id).chan;
      if t.chans[c] != s.chans[c] {
        var id2 :| Triggers(s.ads, WatchesOf(s, node), snap, id2) && WatchesOf(s, node)[id2].chan == c;
        assert IsOpen(s, node, id2) && SameWatch(s, n, id, node, id2);
        assert false;
      }
    }
    forall c | c in t.chans
      ensures c < t.nextChan && |t.chans[c].buffer| <= t.chans[c].sent <= 1 && t.chans[c].closes <= 1
    {
      if t.chans[c] != s.chans[c] {
        var id :| Triggers(s.ads, WatchesOf(s, node), snap, id) && WatchesOf(s, node)[id].chan == c;
        assert IsOpen(s, node, id);
      }
    }
    forall n1, id1, n2, id2 | IsOpen(t, n1, id1) && IsOpen(t, n2, id2) && SameWatch(t, n1, id1, n2, id2)
      ensures n1 == n2 && id1 == id2
    {
      assert IsOpen(s, n1, id1) && IsOpen(s, n2, id2) && SameWatch(s, n1, id1, n2, id2);
    }
  }

  lemma CreateWatchKeepsInv(s: State, request: Request)
    requires Inv(s)
    ensures Inv(CreateWatch(s, request))
  {
    var t := CreateWatch(s, request);
    var id' := s.watchCount + 1;
    assert s.nextChan !in s.chans;
    forall n, id | IsOpen(t, n, id) && !(MustWait(s, request) && n == request.node && id == id')
      ensures IsOpen(s, n, id) && WatchAt(t, n, id) == WatchAt(s, n, id)
    {}
    forall n, id | IsOpen(t, n, id)
      ensures WatchOk(t, n, id)
    {
      if IsOpen(s, n, id) {
        assert WatchOk(s, n, id);
      }
    }
    forall n1, id1, n2, id2 | IsOpen(t, n1, id1) && IsOpen(t, n2, id2) && SameWatch(t, n1, id1, n2, id2)
      ensures n1 == n2 && id1 == id2
    {
      if IsOpen(s, n1, id1) && IsOpen(s, n2, id2) {
        assert SameWatch(s, n1, id1, n2, id2);
      }
    }
  }

  /** Dropping watches (and snapshots) keeps the invariant. */
  lemma FewerWatchesKeepInv(s: State, t: State)
    requires Inv(s)
    requires t.chans == s.chans && t.nextChan == s.nextChan && t.watchCount == s.watchCount
    requires forall n, id :: IsOpen(t, n, id) ==> IsOpen(s, n, id) && WatchAt(t, n, id) == WatchAt(s, n, id)
    requires forall n :: n in t.snapshots && n in t.status ==> n in s.snapshots && t.snapshots[n] == s.snapshots[n]
    ensures Inv(t)
  {
    forall n, id | IsOpen(t, n, id)
      ensures WatchOk(t, n, id)
    {
      assert WatchOk(s, n, id);
    }
    forall n1, id1, n2, id2 | IsOpen(t, n1, id1) && IsOpen(t, n2, id2) && SameWatch(t, n1, id1, n2, id2)
      ensures n1 == n2 && id1 == id2
    {
      assert SameWatch(s, n1, id1, n2, id2);
    }
  }

  /** Work on channels that no open watch waits on keeps the invariant. */
  lemma OtherChansKeepInv(s: State, t: State)
    requires Inv(s)
    requires t == s.(chans := t.chans, nextChan := t.nextChan)
    requires forall c :: c in t.chans ==> c < t.nextChan && |t.chans[c].buffer| <= t.chans[c].sent <= 1 && t.chans[c].closes <= 1
    requires forall c :: c in s.chans && s.chans[c] == NEW_CHAN ==> c in t.chans && t.chans[c] == NEW_CHAN
    ensures Inv(t)
  {
    forall n, id | IsOpen(t, n, id)
      ensures WatchOk(t, n, id)
    {
      assert IsOpen(s, n, id) && WatchOk(s, n, id);
    }
    forall n1, id1, n2, id2 | IsOpen(t, n1, id1) && IsOpen(t, n2, id2) && SameWatch(t, n1, id1, n2, id2)
      ensures n1 == n2 && id1 == id2
    {
      assert IsOpen(s, n1, id1) && IsOpen(s, n2, id2) && SameWatch(s, n1, id1, n2, id2);
    }
  }

  /** What a stream guarantees when it closes a channel: it is one that was filled and is not closed yet. */
  predicate CanCancel(s: State, cancel: Cancel) {
    cancel.CloseChan? ==> cancel.chan in s.chans && s.chans[cancel.chan].sent == 1 && s.chans[cancel.chan].closes == 0
  }

  lemma DoCancelKeepsInv(s: State, cancel: Cancel)
    requires Inv(s) && CanCancel(s, cancel)
    ensures Inv(DoCancel(s, cancel))
  {
    match cancel
    case NoCancel =>
    case CancelWatch(node, id) => FewerWatchesKeepInv(s, DoCancel(s, cancel));
    case CloseChan(c) => OtherChansKeepInv(s, DoCancel(s, cancel));
  }

  /** A cancel function removes the watch it names, or closes the channel it names, and does nothing else. */
  lemma DoCancelEffect(s: State, cancel: Cancel)
    ensures var t := DoCancel(s, cancel);
            && t.snapshots == s.snapshots && t.watchCount == s.watchCount && t.nextChan == s.nextChan && t.ads == s.ads
            && t.chans.Keys == s.chans.Keys
            && (forall c :: c in s.chans && cancel != CloseChan(c) ==> t.chans[c] == s.chans[c])
            && (forall n, id :: IsOpen(t, n, id) <==> IsOpen(s, n, id) && cancel != CancelWatch(n, id))
            && (forall n, id :: IsOpen(t, n, id) ==> WatchAt(t, n, id) == WatchAt(s, n, id))
  {}

  /** `CreateWatch` adds one channel and at most one watch, under the next id. */
  lemma CreateWatchEffect(s: State, request: Request)
    requires Inv(s)
    ensures var t := CreateWatch(s, request);
            && s.nextChan !in s.chans && t.nextChan == s.nextChan + 1 && s.watchCount <= t.watchCount
            && t.snapshots == s.snapshots && t.ads == s.ads
            && t.chans.Keys == s.chans.Keys + {s.nextChan}
            && (forall c :: c in s.chans ==> t.chans[c] == s.chans[c])
            && (forall n, id :: IsOpen(t, n, id) <==> IsOpen(s, n, id) || CreateWatchCancel(s, request) == CancelWatch(n, id))
            && (forall n, id :: IsOpen(s, n, id) ==> WatchAt(t, n, id) == WatchAt(s, n, id))
            && (MustWait(s, request) ==> WatchAt(t, request.node, s.watchCount + 1) == Watch(request, s.nextChan))
            && (MustWait(s, request) ==> t.chans[s.nextChan].sent == 0)
  {
    var t := CreateWatch(s, request);
    forall n, id | IsOpen(s, n, id)
      ensures IsOpen(t, n, id) && WatchAt(t, n, id) == WatchAt(s, n, id)
    {
      assert WatchOk(s, n, id);
    }
  }

  // ---------- runs ----------

  datatype Event =
    | SetEvent(node: NodeId, snap: Snapshot)
    | ClearEvent(node: NodeId)
    | WatchEvent(request: Request)
    | CancelEvent(cancel: Cancel)
    | ScheduleEvent(resp: Response)
    | ReceiveEvent(chan: ChanId)

  ghost predicate Next(s: State, e: Event, t: State) {
    match e
    case SetEvent(node, snap) => SetSnapshot(s, node, snap, t)
    case ClearEvent(node) => t == ClearSnapshot(s, node)
    case WatchEvent(request) => t == CreateWatch(s, request)
    case CancelEvent(cancel) => CanCancel(s, cancel) && t == DoCancel(s, cancel)
    case ScheduleEvent(resp) => t == Scheduled(s, resp)
    case ReceiveEvent(c) => CanReceive(s, c) && t == Received(s, c)
  }

  lemma NextKeepsInv(s: State, e: Event, t: State)
    requires Inv(s) && Next(s, e, t)
    ensures Inv(t)
  {
    match e
    case SetEvent(node, snap) => SetSnapshotKeepsInv(s, node, snap, t);
    case ClearEvent(node) => FewerWatchesKeepInv(s, t);
    case WatchEvent(request) => CreateWatchKeepsInv(s, request);
    case CancelEvent(cancel) => DoCancelKeepsInv(s, cancel);
    case ScheduleEvent(resp) => OtherChansKeepInv(s, t);
    case ReceiveEvent(c) => OtherChansKeepInv(s, t);
  }

  /** A run: any interleaving of cache calls, starting from an empty cache. */
  ghost predicate IsRun(states: seq<State>, events: seq<Event>) {
    && |states| == |events| + 1
    && states[0] == Init(states[0].ads)
    && forall i {:trigger events[i]} :: 0 <= i < |events| ==> Next(states[i], events[i], states[i + 1])
  }

  lemma {:induction false} RunKeepsInv(states: seq<State>, events: seq<Event>, i: nat)
    requires IsRun(states, events) && i < |states|
    ensures Inv(states[i])
  {
    if i > 0 {
      RunKeepsInv(states, events, i - 1);
      NextKeepsInv(states[i - 1], events[i - 1], states[i]);
    }
  }

  /** No stale open watch: at every moment of every run, an open watch of a node that has a
      snapshot asks for exactly the version that snapshot holds. */
  lemma NoStaleOpenWatch(states: seq<State>, events: seq<Event>, i: nat, node: NodeId, id: WatchId)
    requires IsRun(states, events) && i < |states|
    requires IsOpen(states[i], node, id) && node in states[i].snapshots
    ensures var request := WatchAt(states[i], node, id).request;
            request.version == states[i].snapshots[node].GetVersion(request.typeUrl)
  {
    RunKeepsInv(states, events, i);
    assert WatchOk(states[i], node, id);
  }

  /** Over every run each channel sees at most one send, so sending on a channel of
      capacity 1 never blocks the cache. */
  lemma SendNeverBlocks(states: seq<State>, events: seq<Event>, i: nat, c: ChanId)
    requires IsRun(states, events) && i < |states| && c in states[i].chans
    ensures states[i].chans[c].sent <= 1 && |states[i].chans[c].buffer| <= 1
    ensures i + 1 < |states| && c in states[i + 1].chans && states[i + 1].chans[c].sent > states[i].chans[c].sent ==>
              states[i].chans[c].buffer == []
  {
    RunKeepsInv(states, events, i);
    if i + 1 < |states| {
      RunKeepsInv(states, events, i + 1);
    }
  }

  /** What `SetSnapshot` does for a watch it removes. Outside ADS mode the watch gets exactly one
      response, with a new version and exactly the resources requested. In ADS mode it gets one only
      if every resource of the type was asked for, and that response carries all of them. */
  lemma StaleWatchIsAnswered(s: State, node: NodeId, snap: Snapshot, t: State, id: WatchId)
    requires Inv(s) && SetSnapshot(s, node, snap, t) && IsOpen(s, node, id)
    ensures IsOpen(t, node, id) <==> !Stale(snap, WatchAt(s, node, id))
    ensures var w := WatchAt(s, node, id);
            var resources := snap.GetResources(w.request.typeUrl);
            w.chan in t.chans &&
            if IsOpen(t, node, id) then t.chans[w.chan].sent == 0
            else if s.ads && w.request.names != [] && exists n :: n in resources && n !in w.request.names then t.chans[w.chan].sent == 0
            else && t.chans[w.chan].sent == 1 && |t.chans[w.chan].buffer| == 1
                 && var r := t.chans[w.chan].buffer[0];
                 && r.request == w.request
                 && r.version == snap.GetVersion(w.request.typeUrl) != w.request.version
                 && (forall n :: n in r.resources <==> n in resources && (w.request.names == [] || n in w.request.names))
                 && (forall n :: n in r.resources ==> r.resources[n] == resources[n])
                 && (s.ads ==> r.resources == resources)
  {
    var w := WatchAt(s, node, id);
    assert WatchOk(s, node, id);
    if !Triggers(s.ads, WatchesOf(s, node), snap, id) && t.chans[w.chan] != s.chans[w.chan] {
      var id2 :| Triggers(s.ads, WatchesOf(s, node), snap, id2) && WatchesOf(s, node)[id2].chan == w.chan;
      assert IsOpen(s, node, id2) && SameWatch(s, node, id, node, id2);
      assert false;
    }
  }

  /** In ADS mode a stale watch may be discarded without an answer: one that names a resource which the
      new snapshot does not have, while the snapshot has one that it does not name. */
  lemma DiscardedUnanswered(node: NodeId, typ: TypeUrl, version: Version, named: string, other: string, r: Resource)
      returns (states: seq<State>, events: seq<Event>)
    requires version != "" && named != other
    ensures IsRun(states, events) && |states| == 3 && states[0].ads
    ensures IsOpen(states[1], node, 1)
    ensures !IsOpen(states[2], node, 1) && node in states[2].snapshots && states[2].snapshots[node].GetVersion(typ) == version
    ensures var c := WatchAt(states[1], node, 1).chan; c in states[2].chans && states[2].chans[c] == NEW_CHAN
  {
    var request := Request(node, typ, "", [named], "");
    var snap := Snapshot(map[typ := Resources(version, map[other := r])]);
    var s0 := Init(true);
    var s1 := CreateWatch(s0, request);
    var s2 := s1.(snapshots := s1.snapshots[node := snap], status := s1.status[node := Remaining(s1.status[node], snap)]);
    assert other in snap.GetResources(typ) && other !in request.names;
    assert !Answers(true, snap, request);
    assert SetSnapshot(s1, node, snap, s2);
    states, events := [s0, s1, s2], [WatchEvent(request), SetEvent(node, snap)];
  }

  /** The response to a request from a snapshot: the requested ones of its resources. */
  ghost predicate AnswersWith(r: Response, request: Request, snap: Snapshot) {
    var resources := snap.GetResources(request.typeUrl);
    && r.request == request && r.version == snap.GetVersion(request.typeUrl)
    && (forall n :: n in r.resources <==> n in resources && (request.names == [] || n in request.names))
    && (forall n :: n in r.resources ==> r.resources[n] == resources[n])
  }

  /** There is no snapshot, or none with another version than the client has. */
  predicate NothingNew(s: State, request: Request) {
    request.node !in s.snapshots || s.snapshots[request.node].GetVersion(request.typeUrl) == request.version
  }

  /** What `CreateWatch` does. If the node has no snapshot, or none with another version of the type, a
      watch is opened under an id never used before and nothing is sent. Otherwise no watch is opened, and
      exactly one response is sent, unless the cache is in ADS mode and the request names resources but
      not all that there are. Nobody else notices. */
  lemma CreateWatchWaitsOrAnswers(s: State, request: Request)
    requires Inv(s)
    ensures var t, c, cancel := CreateWatch(s, request), s.nextChan, CreateWatchCancel(s, request);
            && c !in s.chans && c in t.chans && t.snapshots == s.snapshots && t.ads == s.ads
            && (forall d :: d in s.chans ==> d in t.chans && t.chans[d] == s.chans[d])
            && (forall n, id :: IsOpen(s, n, id) ==> IsOpen(t, n, id) && WatchAt(t, n, id) == WatchAt(s, n, id))
            && (forall n, id :: IsOpen(t, n, id) && !IsOpen(s, n, id) ==> cancel == CancelWatch(n, id))
            && (NothingNew(s, request) ==>
                  && cancel.CancelWatch? && cancel.node == request.node && !IsOpen(s, cancel.node, cancel.id) && IsOpen(t, cancel.node, cancel.id)
                  && WatchAt(t, cancel.node, cancel.id) == Watch(request, c) && t.chans[c] == NEW_CHAN)
            && (!NothingNew(s, request) ==>
                  && cancel == NoCancel
                  && var snap := s.snapshots[request.node];
                  if s.ads && request.names != [] && exists n :: n in snap.GetResources(request.typeUrl) && n !in request.names
                  then t.chans[c] == NEW_CHAN
                  else t.chans[c].sent == 1 && |t.chans[c].buffer| == 1 && AnswersWith(t.chans[c].buffer[0], request, snap))
  {
    if request.node in s.snapshots {
      AnswerIs(s.snapshots[request.node], request);
    }
    forall n, id: WatchId | IsOpen(s, n, id)
      ensures id <= s.watchCount
    {
      assert WatchOk(s, n, id);
    }
    hide Answer;
  }

  lemma AnswerIs(snap: Snapshot, request: Request)
    ensures AnswersWith(Answer(snap, request), request, snap)
  {}

  /** `Fetch` answers exactly if there is a snapshot with another version of the type, in either mode. */
  lemma FetchAnswersOrSkips(s: State, request: Request)
    ensures Fetch(s, request) == Err(MissingSnapshot) <==> request.node !in s.snapshots
    ensures Fetch(s, request) == Err(SkipFetch) <==>
            request.node in s.snapshots && s.snapshots[request.node].GetVersion(request.typeUrl) == request.version
    ensures Fetch(s, request).Ok? ==> request.node in s.snapshots && AnswersWith(Fetch(s, request).value, request, s.snapshots[request.node])
  {
    if request.node in s.snapshots {
      AnswerIs(s.snapshots[request.node], request);
      hide Answer, AnswersWith;
    }
  }

  /** `ClearSnapshot` forgets the snapshot and the watches of one node, and nothing else. */
  lemma ClearForgetsOneNode(s: State, node: NodeId, n: NodeId, id: WatchId)
    ensures var t := ClearSnapshot(s, node);
            && (n in t.snapshots <==> n in s.snapshots && n != node) && (n in t.snapshots ==> t.snapshots[n] == s.snapshots[n])
            && (IsOpen(t, n, id) <==> IsOpen(s, n, id) && n != node) && (IsOpen(t, n, id) ==> WatchAt(t, n, id) == WatchAt(s, n, id))
            && t.chans == s.chans
  {}

  lemma {:induction false} WatchCountGrows(states: seq<State>, events: seq<Event>, i: nat, j: nat)
    requires IsRun(states, events) && i <= j < |states|
    ensures states[i].watchCount <= states[j].watchCount
    decreases j - i
  {
    if i < j {
      assert Next(states[i], events[i], states[i + 1]);
      WatchCountGrows(states, events, i + 1, j);
    }
  }

  /** The call at step `i` of the run leaves a watch open. */
  predicate OpensAt(states: seq<State>, events: seq<Event>, i: nat)
    requires |states| == |events| + 1
  {
    i < |events| && events[i].WatchEvent? && MustWait(states[i], events[i].request)
  }

  /** The id handed out by the call at step `i`. */
  function IdAt(states: seq<State>, events: seq<Event>, i: nat): WatchId
    requires |states| == |events| + 1 && OpensAt(states, events, i)
  {
    states[i].watchCount + 1
  }

  /** Watch ids never repeat, also when a node id is cleared and used again. */
  lemma WatchIdsNeverRepeat(states: seq<State>, events: seq<Event>, i: nat, j: nat)
    requires IsRun(states, events) && OpensAt(states, events, i) && OpensAt(states, events, j) && i < j
    ensures IdAt(states, events, i) < IdAt(states, events, j)
  {
    assert Next(states[i], events[i], states[i + 1]);
    WatchCountGrows(states, events, i + 1, j);
  }

  /** Whatever is open under an id, on any node and at any later time, is the watch that the id was
      handed out for. So the cancellation function for that id removes that watch or nothing. */
  lemma {:induction false} CancelRemovesOnlyItsOwnWatch(states: seq<State>, events: seq<Event>, i: nat, j: nat, node: NodeId)
    requires IsRun(states, events) && OpensAt(states, events, i) && i < j < |states|
    requires IsOpen(states[j], node, IdAt(states, events, i))
    ensures node == events[i].request.node
    ensures WatchAt(states[j], node, IdAt(states, events, i)) == Watch(events[i].request, states[i].nextChan)
  {
    var id := IdAt(states, events, i);
    RunKeepsInv(states, events, i);
    assert Next(states[i], events[i], states[i + 1]);
    if j == i + 1 {
      assert !IsOpen(states[i], node, id);
    } else {
      WatchCountGrows(states, events, i + 1, j - 1);
      assert Next(states[j - 1], events[j - 1], states[j]);
      assert IsOpen(states[j - 1], node, id);
      CancelRemovesOnlyItsOwnWatch(states, events, i, j - 1, node);
    }
  }
}
