/** A run in ADS mode in which superseded endpoints are not repaired. */
module StreamWitnesses {
  import opened Basics
  import opened Xds
  import opened StreamLog
  import opened StreamModel
  import opened StreamProofs
  import opened StreamTheorems
  import opened StreamQuiet
  import Cache = CacheModel

  function LastOf(worlds: seq<World>): World
    requires worlds != []
  {
    worlds[|worlds| - 1]
  }

  function LogOf(w: World, sid: StreamId): seq<Entry> {
    if sid in w.streams then w.streams[sid].log else []
  }

  /** An idle stream in ADS mode and what its EDS slot looks like; nobody else watches the node. */
  datatype View = View(snap: Snapshot, slot: Slot, serial: nat, acked: bool, chan: Chan)

  ghost predicate Shows(w: World, sid: StreamId, node: NodeId, v: View) {
    && w.cache.ads && node in w.cache.snapshots && w.cache.snapshots[node] == v.snap
    && HasSlot(w, sid, EndpointType) && SlotOf(w, sid, EndpointType) == v.slot
    && w.streams[sid].phase.Idle? && w.streams[sid].streamNonce == v.serial && w.streams[sid].endpointNonceAcked == v.acked
    && (v.slot.chan.Some? ==> v.slot.chan.value in w.cache.chans && w.cache.chans[v.slot.chan.value] == v.chan)
    && forall id :: id in Cache.WatchesOf(w.cache, node) ==> v.slot.cancel == CancelWatch(node, id)
  }

  lemma Extend(worlds: seq<World>, events: seq<Event>, e: Event, w: World) returns (worlds': seq<World>, events': seq<Event>)
    requires IsRun(worlds, events) && Next(LastOf(worlds), e, w)
    ensures IsRun(worlds', events') && worlds' == worlds + [w] && events' == events + [e]
  {
    hide Next;
    worlds', events' := worlds + [w], events + [e];
  }

  // ---------- a request ----------

  function Asks(node: NodeId, version: Version, name: string, nonce: string): DiscoveryRequest {
    DiscoveryRequest(Some(node), EndpointType, version, [name], nonce)
  }

  function Asked(node: NodeId, version: Version, name: string, nonce: string): Request {
    Request(node, EndpointType, version, [name], nonce)
  }

  /** A request will get endpoints scheduled. */
  predicate Warms(v: View) {
    v.acked && v.snap.GetVersion(EndpointType) != ""
  }

  /** The channel of a request that nothing disturbs: with scheduled endpoints, an answer, or nothing. */
  function Filled(v: View, r: Request): Chan {
    if Warms(v) || (v.snap.GetVersion(EndpointType) != r.version && Cache.Answers(true, v.snap, r))
    then Cache.Push(NEW_CHAN, Cache.Answer(v.snap, r))
    else NEW_CHAN
  }

  predicate Opens(v: View, r: Request) {
    !Warms(v) && v.snap.GetVersion(EndpointType) == r.version
  }

  lemma ArriveStep(w: World, sid: StreamId, node: NodeId, v: View, version: Version, name: string, nonce: string)
    requires Shows(w, sid, node, v) && (v.slot.nonce == "" || v.slot.nonce == nonce)
    ensures var r := Asked(node, version, name, nonce);
            var st := AfterPeek(w.cache, w.streams[sid], r);
            && Next(w, Arrive(sid, Asks(node, version, name, nonce)), Update(w, w.cache, sid, st))
            && CanCancelSlot(st)
            && st.phase == Peeked(r, if Warms(v) then Some(Cache.Answer(v.snap, r)) else None)
            && st.slots == w.streams[sid].slots && st.streamNonce == v.serial && st.log == w.streams[sid].log
  {
    hide Cache.Requested;
  }

  lemma CancelFrees(s: Cache.State, node: NodeId, cancel: Cancel)
    requires forall id :: id in Cache.WatchesOf(s, node) ==> cancel == CancelWatch(node, id)
    ensures var s' := Cache.DoCancel(s, cancel);
            s'.ads == s.ads && s'.snapshots == s.snapshots && Cache.WatchesOf(s', node) == map[]
  {
    var s' := Cache.DoCancel(s, cancel);
    assert forall id :: id in Cache.WatchesOf(s', node) ==> id in Cache.WatchesOf(s, node);
    assert forall id :: id !in Cache.WatchesOf(s', node);
    assert Cache.WatchesOf(s', node).Keys == {};
  }

  lemma CancelStep(w: World, sid: StreamId, node: NodeId, v: View)
    requires sid in w.streams && CanCancelSlot(w.streams[sid]) && w.streams[sid].phase.request.typeUrl == EndpointType
    requires w.cache.ads && node in w.cache.snapshots && w.cache.snapshots[node] == v.snap
    requires w.streams[sid].slots[EndpointType] == v.slot
    requires forall id :: id in Cache.WatchesOf(w.cache, node) ==> v.slot.cancel == CancelWatch(node, id)
    ensures var st, s := AfterCancel(w.streams[sid]), CacheAfterCancel(w.cache, w.streams[sid]);
            && Next(w, CancelSlot(sid), Update(w, s, sid, st)) && CanFillSlot(st)
            && s.ads && s.snapshots == w.cache.snapshots && Cache.WatchesOf(s, node) == map[]
            && st.slots[EndpointType] == GivenUp(v.slot)
            && st.endpointNonceAcked == (v.slot.nonce != "" && v.slot.nonce == w.streams[sid].phase.request.nonce)
            && st.phase == Cancelled(w.streams[sid].phase.request, w.streams[sid].phase.warm)
            && st.streamNonce == w.streams[sid].streamNonce && st.log == w.streams[sid].log + [Processed(w.streams[sid].phase.request)]
  {
    CancelFrees(w.cache, node, v.slot.cancel);
    hide Cache.DoCancel, Cache.WatchesOf;
  }

  lemma FillStep(w: World, sid: StreamId, node: NodeId, v: View, r: Request)
    requires sid in w.streams && CanFillSlot(w.streams[sid]) && r.typeUrl == EndpointType && r.node == node
    requires w.streams[sid].phase == Cancelled(r, if Warms(v) then Some(Cache.Answer(v.snap, r)) else None)
    requires w.cache.ads && node in w.cache.snapshots && w.cache.snapshots[node] == v.snap && Cache.WatchesOf(w.cache, node) == map[]
    requires w.streams[sid].streamNonce == v.serial
    ensures var st, s := AfterFill(w.cache, w.streams[sid]), CacheAfterFill(w.cache, w.streams[sid]);
            var w' := Update(w, s, sid, st);
            && Next(w, FillSlot(sid), w')
            && Shows(w', sid, node, View(v.snap, st.slots[EndpointType], v.serial, w.streams[sid].endpointNonceAcked, Filled(v, r)))
            && st.slots[EndpointType].nonce == w.streams[sid].slots[EndpointType].nonce
            && st.slots[EndpointType].chan.Some? && st.slots[EndpointType].request == Some(r)
            && (st.slots[EndpointType].cancel.CancelWatch? <==> Opens(v, r))
            && st.log == w.streams[sid].log
  {
    hide Cache.Answers, Cache.Requested;
  }

  /** A request arrives and is seen through undisturbed. */
  lemma Handle(worlds: seq<World>, events: seq<Event>, sid: StreamId, node: NodeId, v: View, version: Version, name: string, nonce: string)
      returns (worlds': seq<World>, events': seq<Event>, v': View)
    requires IsRun(worlds, events) && Shows(LastOf(worlds), sid, node, v) && (v.slot.nonce == "" || v.slot.nonce == nonce)
    ensures IsRun(worlds', events') && |worlds'| == |worlds| + 3 && worlds <= worlds'
    ensures events' == events + [Arrive(sid, Asks(node, version, name, nonce)), CancelSlot(sid), FillSlot(sid)]
    ensures var r := Asked(node, version, name, nonce);
            && Shows(LastOf(worlds'), sid, node, v')
            && LogOf(LastOf(worlds'), sid) == LogOf(LastOf(worlds), sid) + [Processed(r)]
            && v'.snap == v.snap && v'.serial == v.serial && v'.acked == (v.slot.nonce != "") && v'.chan == Filled(v, r)
            && v'.slot.nonce == v.slot.nonce && v'.slot.chan.Some? && v'.slot.request == Some(r)
            && (v'.slot.cancel.CancelWatch? <==> Opens(v, r))
  {
    var r, w := Asked(node, version, name, nonce), LastOf(worlds);
    ArriveStep(w, sid, node, v, version, name, nonce);
    var w1 := Update(w, w.cache, sid, AfterPeek(w.cache, w.streams[sid], r));
    hide IsRun, Next, AfterPeek, Filled, Cache.Answer;
    CancelStep(w1, sid, node, v);
    var w2 := Update(w1, CacheAfterCancel(w1.cache, w1.streams[sid]), sid, AfterCancel(w1.streams[sid]));
    hide CacheAfterCancel, AfterCancel, Cache.WatchesOf;
    FillStep(w2, sid, node, v, r);
    var w3 := Update(w2, CacheAfterFill(w2.cache, w2.streams[sid]), sid, AfterFill(w2.cache, w2.streams[sid]));
    v' := View(v.snap, w3.streams[sid].slots[EndpointType], v.serial, w2.streams[sid].endpointNonceAcked, Filled(v, r));
    hide CacheAfterFill, AfterFill, Shows;
    worlds', events' := Extend(worlds, events, Arrive(sid, Asks(node, version, name, nonce)), w1);
    worlds', events' := Extend(worlds', events', CancelSlot(sid), w2);
    worlds', events' := Extend(worlds', events', FillSlot(sid), w3);
  }

  // ---------- a response, a snapshot ----------

  lemma Answer(worlds: seq<World>, events: seq<Event>, sid: StreamId, node: NodeId, v: View, resp: Response)
      returns (worlds': seq<World>, events': seq<Event>, v': View)
    requires IsRun(worlds, events) && Shows(LastOf(worlds), sid, node, v) && v.slot.chan.Some? && v.chan == Cache.Push(NEW_CHAN, resp)
    ensures IsRun(worlds', events') && worlds' != [] && Shows(LastOf(worlds'), sid, node, v')
    ensures LogOf(LastOf(worlds'), sid) == LogOf(LastOf(worlds), sid) + [Sent(EndpointType, v.serial + 1, resp)]
    ensures v' == View(v.snap, v.slot.(nonce := NonceOf(v.serial + 1)), v.serial + 1, false, v.chan.(buffer := []))
  {
    var w := LastOf(worlds);
    hide IsRun, NonceOf;
    var st := w.streams[sid];
    v' := View(v.snap, v.slot.(nonce := NonceOf(v.serial + 1)), v.serial + 1, false, v.chan.(buffer := []));
    var w' := Update(w, CacheAfterSend(w.cache, st, EndpointType), sid, AfterSend(w.cache, st, EndpointType));
    worlds', events' := Extend(worlds, events, Send(sid, EndpointType), w');
  }

  lemma Store(worlds: seq<World>, events: seq<Event>, sid: StreamId, node: NodeId, v: View, snap: Snapshot)
      returns (worlds': seq<World>, events': seq<Event>)
    requires IsRun(worlds, events) && Shows(LastOf(worlds), sid, node, v) && !v.slot.cancel.CancelWatch?
    ensures IsRun(worlds', events') && worlds' != [] && Shows(LastOf(worlds'), sid, node, v.(snap := snap))
    ensures LogOf(LastOf(worlds'), sid) == LogOf(LastOf(worlds), sid)
  {
    var w := LastOf(worlds);
    hide IsRun;
    var s := w.cache;
    var s' := s.(snapshots := s.snapshots[node := snap], status := if node in s.status then s.status[node := Cache.Remaining(s.status[node], snap)] else s.status);
    assert Cache.WatchesOf(s, node) == map[];
    assert Cache.SetSnapshot(s, node, snap, s');
    worlds', events' := Extend(worlds, events, SetSnapshot(node, snap), w.(cache := s'));
  }

  lemma Start(sid: StreamId, node: NodeId, snap: Snapshot) returns (worlds: seq<World>, events: seq<Event>, v: View)
    ensures IsRun(worlds, events) && worlds != [] && Shows(LastOf(worlds), sid, node, v) && LogOf(LastOf(worlds), sid) == []
    ensures v == View(snap, EMPTY_SLOT, 0, false, NEW_CHAN)
  {
    var s := Cache.Init(true);
    var s' := s.(snapshots := map[node := snap]);
    assert Cache.SetSnapshot(s, node, snap, s');
    assert EndpointType in XDS_TYPES;
    v := View(snap, EMPTY_SLOT, 0, false, NEW_CHAN);
    worlds, events := [World(s, map[])], [];
    assert IsRun(worlds, events);
    hide IsRun;
    worlds, events := Extend(worlds, events, SetSnapshot(node, snap), World(s', map[]));
    worlds, events := Extend(worlds, events, Open(sid, XDS_TYPES, EndpointType), World(s', map[sid := NewStream(XDS_TYPES, EndpointType)]));
  }

  // ---------- the run ----------

  /** The request is the first echo of the latest EDS response. */
  ghost predicate IsFirstEcho(log: seq<Entry>, d: DiscoveryRequest) {
    LastSent(log, EndpointType) >= 0 && d.nonce == LastNonce(log, EndpointType) && !Echoed(log, EndpointType)
  }

  lemma LatestUnechoed(log: seq<Entry>, e: Entry, d: DiscoveryRequest)
    requires IsSent(e, EndpointType) && d.nonce == NonceOf(e.serial)
    ensures IsFirstEcho(log + [e], d)
  {
    hide NonceOf;
    assert (log + [e])[|log|] == e;
  }

  function Endpoints(version: Version, items: map<string, Resource>): Snapshot {
    Snapshot(map[EndpointType := Resources(version, items)])
  }

  /** What is sent to a request for `a`. */
  lemma AnswerIs(version: Version, a: string, x: Resource, r: Request)
    requires r.typeUrl == EndpointType && r.names == [a]
    ensures var snap := Endpoints(version, map[a := x]);
            Cache.Answers(true, snap, r) && Cache.Answer(snap, r) == Response(r, version, map[a := x])
  {}

  lemma DeclinesIs(version: Version, a: string, b: string, x: Resource, y: Resource, r: Request)
    requires r.typeUrl == EndpointType && r.names == [a] && a != b
    ensures !Cache.Answers(true, Endpoints(version, map[a := x, b := y]), r)
  {
    var items := map[a := x, b := y];
    assert b in items && b !in r.names;
  }

  lemma NoncesAreNotEmpty(n: nat)
    ensures NonceOf(n) != ""
  {}

  lemma LeftAlone(w: World, sid: StreamId, node: NodeId, v: View)
    requires Shows(w, sid, node, v) && v.slot.chan.Some? && v.chan == NEW_CHAN && !v.slot.cancel.CancelWatch?
    ensures Waits(w, sid, EndpointType) && !Watched(w, sid, EndpointType)
    ensures node in w.cache.snapshots && w.cache.snapshots[node] == v.snap
  {}

  /** Endpoints are asked for, sent and echoed, and the next request has them scheduled again. */
  lemma ScheduledAgain(sid: StreamId, node: NodeId, a: string, x: Resource, version: Version)
      returns (worlds: seq<World>, events: seq<Event>, v: View)
    requires version != ""
    ensures IsRun(worlds, events) && worlds != [] && Shows(LastOf(worlds), sid, node, v)
    ensures v.serial == 1 && v.slot.chan.Some? && !v.slot.cancel.CancelWatch?
    ensures v.chan == Cache.Push(NEW_CHAN, Response(Asked(node, version, a, NonceOf(1)), version, map[a := x]))
  {
    hide IsRun, Shows, Cache.Answers, Cache.Answer, NonceOf, LastOf, LogOf;
    var snap, first, echo := Endpoints(version, map[a := x]), Asked(node, "", a, ""), Asked(node, version, a, NonceOf(1));
    NoncesAreNotEmpty(1);
    AnswerIs(version, a, x, first);
    AnswerIs(version, a, x, echo);
    worlds, events, v := Start(sid, node, snap);
    worlds, events, v := Handle(worlds, events, sid, node, v, "", a, "");
    worlds, events, v := Answer(worlds, events, sid, node, v, Response(first, version, map[a := x]));
    worlds, events, v := Handle(worlds, events, sid, node, v, version, a, NonceOf(1));
    worlds, events, v := Handle(worlds, events, sid, node, v, version, a, NonceOf(1));
  }

  /** Endpoints are scheduled for a request that repeats an echo, and superseded before they are sent by
      a snapshot with endpoints that the client does not name. The first echo of them, although the
      client's version is not current, gets no answer, and no watch is left. */
  lemma SupersededNotRepaired(sid: StreamId, node: NodeId, a: string, b: string, x: Resource, y: Resource, v1: Version, v2: Version)
      returns (worlds: seq<World>, events: seq<Event>, d: DiscoveryRequest)
    requires a != b && v1 != "" && v1 != v2
    ensures IsRun(worlds, events) && |events| >= 3 && events[|events| - 3..] == [Arrive(sid, d), CancelSlot(sid), FillSlot(sid)]
    ensures IsFirstEcho(LogOf(worlds[|events| - 3], sid), d)
    ensures var w, log := LastOf(worlds), LogOf(worlds[|events| - 3], sid);
            && Waits(w, sid, EndpointType) && !Watched(w, sid, EndpointType)
            && d.version == v1 && node in w.cache.snapshots && w.cache.snapshots[node] == Endpoints(v2, map[a := y, b := y])
            && log != [] && IsSent(log[|log| - 1], EndpointType) && log[|log| - 1].response.version == v1
            && log[|log| - 1].response.resources == map[a := x]
  {
    hide IsRun, Shows, Cache.Answers, NonceOf, LogOf, IsFirstEcho, Waits, Watched;
    var v: View;
    worlds, events, v := ScheduledAgain(sid, node, a, x, v1);
    worlds, events := Store(worlds, events, sid, node, v, Endpoints(v2, map[a := y, b := y]));
    v := v.(snap := Endpoints(v2, map[a := y, b := y]));
    var before, e := LogOf(LastOf(worlds), sid), Sent(EndpointType, 2, Response(Asked(node, v1, a, NonceOf(1)), v1, map[a := x]));
    worlds, events, v := Answer(worlds, events, sid, node, v, e.response);
    d := Asks(node, v1, a, NonceOf(2));
    LatestUnechoed(before, e, d);
    DeclinesIs(v2, a, b, y, y, Asked(node, v1, a, NonceOf(2)));
    worlds, events, v := Handle(worlds, events, sid, node, v, v1, a, NonceOf(2));
    LeftAlone(LastOf(worlds), sid, node, v);
    RunLength(worlds, events);
  }

  lemma RunLength(worlds: seq<World>, events: seq<Event>)
    requires IsRun(worlds, events)
    ensures |worlds| == |events| + 1
  {}
}
