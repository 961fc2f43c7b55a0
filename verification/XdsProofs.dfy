/** What every step of the xDS server keeps: responses tell the truth about the versions they carry. */
module XdsProofs {
  import opened Basics
  import opened Xds
  import opened StreamLog
  import opened StreamModel
  import opened XdsModel
  import Proofs = StreamProofs
  import Cache = CacheModel
  import History = VersionHistory

  // ---------- invariant ----------

  /** The resources a version stands for; the empty version stands for none. */
  function ItemsOf(h: History.State, typ: TypeUrl, version: Version): map<string, Resource> {
    if (typ, version) in h.meaning && version != "" then h.meaning[(typ, version)] else map[]
  }

  ghost predicate Known(h: History.State, typ: TypeUrl, version: Version) {
    version == "" || (typ, version) in h.meaning
  }

  /** The response has the resources of its version that its request asked for. */
  ghost predicate Genuine(h: History.State, r: Response) {
    && Known(h, r.request.typeUrl, r.version)
    && r.resources == Cache.Requested(r.request.names, ItemsOf(h, r.request.typeUrl, r.version))
  }

  ghost predicate GenuineSnapshot(h: History.State, snap: Snapshot) {
    forall typ: TypeUrl :: Known(h, typ, snap.GetVersion(typ)) && snap.GetResources(typ) == ItemsOf(h, typ, snap.GetVersion(typ))
  }

  ghost predicate ChansGenuine(h: History.State, s: Cache.State) {
    forall c, k :: c in s.chans && 0 <= k < |s.chans[c].buffer| ==> Genuine(h, s.chans[c].buffer[k])
  }

  /** What waits on a slot's channel is of the slot's type. */
  ghost predicate SlotTyped(s: Cache.State, typ: TypeUrl, slot: Slot) {
    slot.chan.Some? && slot.chan.value in s.chans ==>
      forall k :: 0 <= k < |s.chans[slot.chan.value].buffer| ==> s.chans[slot.chan.value].buffer[k].request.typeUrl == typ
  }

  ghost predicate LogGenuine(h: History.State, log: seq<Entry>) {
    forall m :: 0 <= m < |log| && log[m].Sent? ==> Genuine(h, log[m].response) && log[m].response.request.typeUrl == log[m].typeUrl
  }

  ghost predicate PhaseGenuine(h: History.State, phase: Phase) {
    (phase.Peeked? || phase.Cancelled?) && phase.warm.Some? ==> Genuine(h, phase.warm.value) && phase.warm.value.request == phase.request
  }

  ghost predicate StreamGenuine(h: History.State, s: Cache.State, st: Stream) {
    && (forall t :: t in st.slots ==> SlotTyped(s, t, st.slots[t]))
    && LogGenuine(h, st.log) && PhaseGenuine(h, st.phase)
  }

  ghost predicate Inv(y: System) {
    && Proofs.Inv(y.world) && y.world.cache.ads
    && History.Inv(y.history) && y.history.server.Xds? && y.history.current == y.world.cache.snapshots
    && ChansGenuine(y.history, y.world.cache)
    && forall sid :: sid in y.world.streams ==> StreamGenuine(y.history, y.world.cache, y.world.streams[sid])
  }

  // ---------- snapshots and answers ----------

  lemma GoodIsGenuine(h: History.State, snap: Snapshot)
    requires History.Good(h, snap)
    ensures GenuineSnapshot(h, snap)
  {
    forall typ: TypeUrl
      ensures Known(h, typ, snap.GetVersion(typ)) && snap.GetResources(typ) == ItemsOf(h, typ, snap.GetVersion(typ))
    {
      if typ in snap.byType {
        assert History.Means(h, typ, snap.byType[typ]);
      }
    }
  }

  lemma AnswerIsGenuine(h: History.State, snap: Snapshot, request: Request)
    requires GenuineSnapshot(h, snap)
    ensures Genuine(h, Cache.Answer(snap, request))
  {}

  lemma CurrentIsGenuine(y: System, node: NodeId)
    requires Inv(y) && node in y.world.cache.snapshots
    ensures GenuineSnapshot(y.history, y.world.cache.snapshots[node])
  {
    assert History.Good(y.history, y.history.current[node]);
    GoodIsGenuine(y.history, y.history.current[node]);
  }

  // ---------- meanings only grow ----------

  lemma StaysGenuine(h: History.State, h': History.State, r: Response)
    requires Genuine(h, r) && History.Extends(h, h')
    ensures Genuine(h', r)
  {}

  lemma ChansStayGenuine(h: History.State, h': History.State, s: Cache.State)
    requires ChansGenuine(h, s) && History.Extends(h, h')
    ensures ChansGenuine(h', s)
  {
    hide Genuine, History.Extends;
    forall c, k | c in s.chans && 0 <= k < |s.chans[c].buffer|
      ensures Genuine(h', s.chans[c].buffer[k])
    {
      StaysGenuine(h, h', s.chans[c].buffer[k]);
    }
  }

  lemma StreamStaysGenuine(h: History.State, h': History.State, s: Cache.State, st: Stream)
    requires StreamGenuine(h, s, st) && History.Extends(h, h')
    ensures StreamGenuine(h', s, st)
  {
    hide Genuine, History.Extends, SlotTyped;
    forall m | 0 <= m < |st.log| && st.log[m].Sent?
      ensures Genuine(h', st.log[m].response)
    {
      StaysGenuine(h, h', st.log[m].response);
    }
    if (st.phase.Peeked? || st.phase.Cancelled?) && st.phase.warm.Some? {
      StaysGenuine(h, h', st.phase.warm.value);
    }
  }

  // ---------- steps of streams ----------

  /** Every channel has only what it had before. */
  ghost predicate Shrinks(s: Cache.State, s': Cache.State) {
    forall c :: c in s'.chans ==> c in s.chans && forall r :: r in s'.chans[c].buffer ==> r in s.chans[c].buffer
  }

  lemma ShrunkIsGenuine(h: History.State, s: Cache.State, s': Cache.State)
    requires ChansGenuine(h, s) && Shrinks(s, s')
    ensures ChansGenuine(h, s')
  {
    hide Genuine;
    forall c, k | c in s'.chans && 0 <= k < |s'.chans[c].buffer|
      ensures Genuine(h, s'.chans[c].buffer[k])
    {
      assert s'.chans[c].buffer[k] in s.chans[c].buffer;
      var m :| 0 <= m < |s.chans[c].buffer| && s.chans[c].buffer[m] == s'.chans[c].buffer[k];
    }
  }

  lemma ShrunkIsTyped(s: Cache.State, s': Cache.State, typ: TypeUrl, slot: Slot)
    requires SlotTyped(s, typ, slot) && Shrinks(s, s')
    ensures SlotTyped(s', typ, slot)
  {
    if slot.chan.Some? && slot.chan.value in s'.chans {
      var c := slot.chan.value;
      forall k | 0 <= k < |s'.chans[c].buffer|
        ensures s'.chans[c].buffer[k].request.typeUrl == typ
      {
        assert s'.chans[c].buffer[k] in s.chans[c].buffer;
      }
    }
  }

  lemma StreamAfterShrink(h: History.State, s: Cache.State, s': Cache.State, st: Stream)
    requires StreamGenuine(h, s, st) && Shrinks(s, s')
    ensures StreamGenuine(h, s', st)
  {
    hide SlotTyped, Shrinks, LogGenuine, PhaseGenuine;
    forall t | t in st.slots
      ensures SlotTyped(s', t, st.slots[t])
    {
      ShrunkIsTyped(s, s', t, st.slots[t]);
    }
  }

  lemma CancelShrinks(s: Cache.State, cancel: Cancel)
    ensures Shrinks(s, Cache.DoCancel(s, cancel))
  {}

  /** One new channel, of which no slot knows. */
  ghost predicate Adds(s: Cache.State, s': Cache.State, c: ChanId) {
    && c !in s.chans && s'.chans.Keys == s.chans.Keys + {c}
    && forall d :: d in s.chans ==> s'.chans[d] == s.chans[d]
  }

  lemma StreamAfterAdd(h: History.State, s: Cache.State, s': Cache.State, c: ChanId, st: Stream)
    requires StreamGenuine(h, s, st) && Adds(s, s', c) && Proofs.StreamOk(s, st)
    ensures StreamGenuine(h, s', st)
  {
    forall t | t in st.slots
      ensures SlotTyped(s', t, st.slots[t])
    {
      assert Proofs.SlotOk(s, t, st.slots[t], st.log);
    }
    hide LogGenuine, PhaseGenuine, Proofs.StreamOk;
  }

  // ---------- steps of one stream ----------

  /** A step of one stream: the cache and the stream are in order afterwards if the parts are. */
  lemma OneStream(y: System, s': Cache.State, sid: StreamId, st': Stream)
    requires Inv(y) && ChansGenuine(y.history, s') && StreamGenuine(y.history, s', st')
    requires Proofs.Inv(Update(y.world, s', sid, st')) && s'.snapshots == y.world.cache.snapshots && s'.ads
    requires Shrinks(y.world.cache, s') || exists c :: Adds(y.world.cache, s', c)
    ensures Inv(System(Update(y.world, s', sid, st'), y.history))
  {
    var y' := System(Update(y.world, s', sid, st'), y.history);
    forall sid2 | sid2 in y'.world.streams
      ensures StreamGenuine(y.history, s', y'.world.streams[sid2])
    {
      if sid2 != sid {
        OtherStream(y, s', sid2);
      }
    }
    hide Proofs.Inv, History.Inv, ChansGenuine, StreamGenuine;
  }

  lemma OtherStream(y: System, s': Cache.State, sid2: StreamId)
    requires Inv(y) && sid2 in y.world.streams
    requires Shrinks(y.world.cache, s') || exists c :: Adds(y.world.cache, s', c)
    ensures StreamGenuine(y.history, s', y.world.streams[sid2])
  {
    assert Proofs.StreamOk(y.world.cache, y.world.streams[sid2]);
    hide StreamGenuine, Shrinks, Adds, Proofs.StreamOk, History.Inv;
    if Shrinks(y.world.cache, s') {
      StreamAfterShrink(y.history, y.world.cache, s', y.world.streams[sid2]);
    } else {
      var c :| Adds(y.world.cache, s', c);
      StreamAfterAdd(y.history, y.world.cache, s', c, y.world.streams[sid2]);
    }
  }

  lemma NothingShrinks(s: Cache.State)
    ensures Shrinks(s, s)
  {}

  lemma LogAppend(h: History.State, log: seq<Entry>, e: Entry)
    requires LogGenuine(h, log) && (e.Sent? ==> Genuine(h, e.response) && e.response.request.typeUrl == e.typeUrl)
    ensures LogGenuine(h, log + [e])
  {
    hide Genuine;
  }

  lemma PeekIsGenuine(h: History.State, s: Cache.State, request: Request)
    requires request.node in s.snapshots ==> GenuineSnapshot(h, s.snapshots[request.node])
    ensures Peek(s, request).Some? ==> Genuine(h, Peek(s, request).value) && Peek(s, request).value.request == request
  {
    if request.node in s.snapshots {
      AnswerIsGenuine(h, s.snapshots[request.node], request.(version := ""));
    }
    hide GenuineSnapshot;
  }

  lemma ArriveGenuine(h: History.State, s: Cache.State, st: Stream, d: DiscoveryRequest)
    requires StreamGenuine(h, s, st) && st.phase.Idle?
    requires forall node :: node in s.snapshots ==> GenuineSnapshot(h, s.snapshots[node])
    ensures StreamGenuine(h, s, AfterArrive(s, st, d))
  {
    PeekIsGenuine(h, s, Resolve(st, d));
    LogAppend(h, st.log, Ignored(Resolve(st, d)));
    hide Genuine, GenuineSnapshot, LogGenuine, Peek, SlotTyped;
  }

  lemma CancelGenuine(h: History.State, s: Cache.State, s': Cache.State, st: Stream)
    requires StreamGenuine(h, s, st) && Shrinks(s, s') && CanCancelSlot(st)
    ensures StreamGenuine(h, s', AfterCancel(st))
  {
    StreamAfterShrink(h, s, s', st);
    LogAppend(h, st.log, Processed(st.phase.request));
    assert SlotTyped(s', st.phase.request.typeUrl, GivenUp(st.slots[st.phase.request.typeUrl]));
    hide Genuine, LogGenuine, SlotTyped, Shrinks;
  }

  lemma ShedGenuine(h: History.State, s: Cache.State, s': Cache.State, st: Stream)
    requires StreamGenuine(h, s, st) && Shrinks(s, s') && st.types != []
    ensures StreamGenuine(h, s', Shed(st))
  {
    StreamAfterShrink(h, s, s', st);
    hide LogGenuine, SlotTyped, Shrinks, PhaseGenuine;
  }

  lemma SendGenuine(h: History.State, s: Cache.State, st: Stream, typ: TypeUrl)
    requires StreamGenuine(h, s, st) && ChansGenuine(h, s) && CanSend(s, st, typ)
    ensures StreamGenuine(h, CacheAfterSend(s, st, typ), AfterSend(s, st, typ)) && Shrinks(s, CacheAfterSend(s, st, typ))
  {
    var c := st.slots[typ].chan.value;
    var s' := CacheAfterSend(s, st, typ);
    assert Shrinks(s, s') by {
      assert s'.chans[c].buffer == s.chans[c].buffer[1..];
    }
    StreamAfterShrink(h, s, s', st);
    assert SlotTyped(s, typ, st.slots[typ]);
    assert Genuine(h, s.chans[c].buffer[0]) && s.chans[c].buffer[0].request.typeUrl == typ;
    LogAppend(h, st.log, Sent(typ, st.streamNonce + 1, s.chans[c].buffer[0]));
    assert SlotTyped(s', typ, AfterSend(s, st, typ).slots[typ]) by {
      assert SlotTyped(s', typ, st.slots[typ]);
    }
    hide Genuine, LogGenuine, SlotTyped, Shrinks, ChansGenuine, CacheAfterSend;
  }

  /** What filling a slot puts on the new channel is genuine and of the slot's type. */
  lemma FilledBuffer(h: History.State, s: Cache.State, st: Stream)
    requires CanFillSlot(st) && PhaseGenuine(h, st.phase) && Cache.Inv(s)
    requires forall node :: node in s.snapshots ==> GenuineSnapshot(h, s.snapshots[node])
    ensures var s', c := CacheAfterFill(s, st), s.nextChan;
            && Adds(s, s', c)
            && forall r :: r in s'.chans[c].buffer ==> Genuine(h, r) && r.request.typeUrl == st.phase.request.typeUrl
  {
    Proofs.FillEffect(s, st);
    var request := st.phase.request;
    if request.node in s.snapshots {
      AnswerIsGenuine(h, s.snapshots[request.node], request);
    }
    hide Genuine, GenuineSnapshot, Cache.Inv;
  }

  lemma FillGenuine(h: History.State, s: Cache.State, st: Stream)
    requires CanFillSlot(st) && StreamGenuine(h, s, st) && ChansGenuine(h, s) && Cache.Inv(s) && Proofs.StreamOk(s, st)
    requires forall node :: node in s.snapshots ==> GenuineSnapshot(h, s.snapshots[node])
    ensures ChansGenuine(h, CacheAfterFill(s, st)) && StreamGenuine(h, CacheAfterFill(s, st), AfterFill(s, st))
    ensures Adds(s, CacheAfterFill(s, st), s.nextChan)
  {
    var s', c := CacheAfterFill(s, st), s.nextChan;
    FilledBuffer(h, s, st);
    StreamAfterAdd(h, s, s', c, st);
    hide Genuine, GenuineSnapshot, Cache.Inv, Proofs.StreamOk, CacheAfterFill, LogGenuine;
    forall d, k | d in s'.chans && 0 <= k < |s'.chans[d].buffer|
      ensures Genuine(h, s'.chans[d].buffer[k])
    {
      assert s'.chans[d].buffer[k] in s'.chans[d].buffer;
    }
    var typ := st.phase.request.typeUrl;
    assert SlotTyped(s', typ, AfterFill(s, st).slots[typ]);
  }

  // ---------- a new snapshot ----------

  lemma SetSnapshotChans(h: History.State, s: Cache.State, node: NodeId, snap: Snapshot, s': Cache.State)
    requires ChansGenuine(h, s) && GenuineSnapshot(h, snap) && Cache.SetSnapshot(s, node, snap, s')
    ensures ChansGenuine(h, s')
  {
    hide Genuine, GenuineSnapshot;
    forall c, k | c in s'.chans && 0 <= k < |s'.chans[c].buffer|
      ensures Genuine(h, s'.chans[c].buffer[k])
    {
      if s'.chans[c] != s.chans[c] {
        var id :| Cache.Triggers(s.ads, Cache.WatchesOf(s, node), snap, id) && Cache.WatchesOf(s, node)[id].chan == c;
        AnswerIsGenuine(h, snap, Cache.WatchesOf(s, node)[id].request);
      }
    }
  }

  lemma SetSnapshotTyped(w: World, node: NodeId, snap: Snapshot, s': Cache.State, sid: StreamId, typ: TypeUrl)
    requires Proofs.Inv(w) && Cache.SetSnapshot(w.cache, node, snap, s') && Proofs.HasSlot(w, sid, typ)
    requires SlotTyped(w.cache, typ, Proofs.SlotOf(w, sid, typ))
    ensures SlotTyped(s', typ, Proofs.SlotOf(w, sid, typ))
  {
    hide Proofs.Inv;
    var s, slot := w.cache, Proofs.SlotOf(w, sid, typ);
    if slot.chan.Some? && slot.chan.value in s'.chans && s'.chans[slot.chan.value] != s.chans[slot.chan.value] {
      var c := slot.chan.value;
      var id :| Cache.Triggers(s.ads, Cache.WatchesOf(s, node), snap, id) && Cache.WatchesOf(s, node)[id].chan == c;
      WatchOfSlot(w, node, id, sid, typ);
    }
  }

  /** A watch that answers on a slot's channel is for the slot's type. */
  lemma WatchOfSlot(w: World, node: NodeId, id: WatchId, sid: StreamId, typ: TypeUrl)
    requires Proofs.Inv(w) && Cache.IsOpen(w.cache, node, id) && Proofs.HasSlot(w, sid, typ)
    requires Proofs.SlotOf(w, sid, typ).chan == Some(Cache.WatchAt(w.cache, node, id).chan)
    ensures Cache.WatchAt(w.cache, node, id).request.typeUrl == typ
  {
    var sid2, typ2 :| Proofs.Owns(w, sid2, typ2, node, id);
    assert Proofs.SlotOk(w.cache, typ2, Proofs.SlotOf(w, sid2, typ2), w.streams[sid2].log);
    assert Proofs.Clash(Proofs.SlotOf(w, sid, typ), Proofs.SlotOf(w, sid2, typ2));
  }

  lemma SetSnapshotStream(h: History.State, w: World, node: NodeId, snap: Snapshot, s': Cache.State, sid: StreamId)
    requires Proofs.Inv(w) && Cache.SetSnapshot(w.cache, node, snap, s') && sid in w.streams && StreamGenuine(h, w.cache, w.streams[sid])
    ensures StreamGenuine(h, s', w.streams[sid])
  {
    hide Proofs.Inv, Cache.SetSnapshot, LogGenuine, PhaseGenuine, SlotTyped;
    forall t | t in w.streams[sid].slots
      ensures SlotTyped(s', t, w.streams[sid].slots[t])
    {
      assert Proofs.HasSlot(w, sid, t);
      SetSnapshotTyped(w, node, snap, s', sid, t);
    }
  }

  // ---------- every step keeps the invariant ----------

  lemma AllGenuine(y: System)
    requires Inv(y)
    ensures forall node :: node in y.world.cache.snapshots ==> GenuineSnapshot(y.history, y.world.cache.snapshots[node])
  {
    hide Inv, GenuineSnapshot;
    forall node | node in y.world.cache.snapshots
      ensures GenuineSnapshot(y.history, y.world.cache.snapshots[node])
    {
      CurrentIsGenuine(y, node);
    }
  }

  lemma Parts(y: System, sid: StreamId)
    requires Inv(y) && sid in y.world.streams
    ensures Proofs.Inv(y.world) && y.world.cache.ads && ChansGenuine(y.history, y.world.cache)
    ensures StreamGenuine(y.history, y.world.cache, y.world.streams[sid])
    ensures Cache.Inv(y.world.cache) && Proofs.StreamOk(y.world.cache, y.world.streams[sid])
  {}

  lemma ArriveKeepsInv(y: System, sid: StreamId, d: DiscoveryRequest, w': World)
    requires Inv(y) && StreamModel.Next(y.world, Arrive(sid, d), w')
    ensures Inv(System(w', y.history))
  {
    hide Inv, Proofs.Inv, ChansGenuine, StreamGenuine, AfterArrive, GenuineSnapshot, Shrinks, Cache.Inv, Proofs.StreamOk;
    Parts(y, sid);
    AllGenuine(y);
    Proofs.ArriveKeepsInv(y.world, sid, d, w');
    ArriveGenuine(y.history, y.world.cache, y.world.streams[sid], d);
    NothingShrinks(y.world.cache);
    OneStream(y, y.world.cache, sid, AfterArrive(y.world.cache, y.world.streams[sid], d));
  }

  lemma CancelKeepsInv(y: System, sid: StreamId, w': World)
    requires Inv(y) && StreamModel.Next(y.world, CancelSlot(sid), w')
    ensures Inv(System(w', y.history))
  {
    hide Inv, Proofs.Inv, ChansGenuine, StreamGenuine, AfterCancel, Shrinks, Cache.Inv, Proofs.StreamOk, Cache.DoCancel;
    Parts(y, sid);
    var s, st := y.world.cache, y.world.streams[sid];
    var cancel := st.slots[st.phase.request.typeUrl].cancel;
    Proofs.CancelKeepsInv(y.world, sid, w');
    CancelShrinks(s, cancel);
    Cache.DoCancelEffect(s, cancel);
    ShrunkIsGenuine(y.history, s, w'.cache);
    CancelGenuine(y.history, s, w'.cache, st);
    OneStream(y, w'.cache, sid, AfterCancel(st));
  }

  lemma CancelNextKeepsInv(y: System, sid: StreamId, w': World)
    requires Inv(y) && StreamModel.Next(y.world, CancelNext(sid), w')
    ensures Inv(System(w', y.history))
  {
    hide Inv, Proofs.Inv, ChansGenuine, StreamGenuine, Shed, Shrinks, Cache.Inv, Proofs.StreamOk, Cache.DoCancel;
    Parts(y, sid);
    var s, st := y.world.cache, y.world.streams[sid];
    var cancel := st.slots[st.types[0]].cancel;
    Proofs.CancelNextKeepsInv(y.world, sid, w');
    CancelShrinks(s, cancel);
    Cache.DoCancelEffect(s, cancel);
    ShrunkIsGenuine(y.history, s, w'.cache);
    ShedGenuine(y.history, s, w'.cache, st);
    OneStream(y, w'.cache, sid, Shed(st));
  }

  lemma FillKeepsInv(y: System, sid: StreamId, w': World)
    requires Inv(y) && StreamModel.Next(y.world, FillSlot(sid), w')
    ensures Inv(System(w', y.history))
  {
    hide Inv, Proofs.Inv, ChansGenuine, StreamGenuine, AfterFill, CacheAfterFill, Adds, GenuineSnapshot, Cache.Inv, Proofs.StreamOk, Shrinks;
    Parts(y, sid);
    AllGenuine(y);
    var s, st := y.world.cache, y.world.streams[sid];
    Proofs.FillKeepsInv(y.world, sid, w');
    Proofs.FillEffect(s, st);
    FillGenuine(y.history, s, st);
    OneStream(y, w'.cache, sid, AfterFill(s, st));
  }

  lemma SendKeepsInv(y: System, sid: StreamId, typ: TypeUrl, w': World)
    requires Inv(y) && StreamModel.Next(y.world, Send(sid, typ), w')
    ensures Inv(System(w', y.history))
  {
    var s, st := y.world.cache, y.world.streams[sid];
    assert w'.cache.snapshots == s.snapshots && w'.cache.ads == s.ads;
    hide Inv, Proofs.Inv, ChansGenuine, StreamGenuine, AfterSend, CacheAfterSend, CanSend, Cache.Inv, Proofs.StreamOk, Shrinks;
    Parts(y, sid);
    Proofs.SendKeepsInv(y.world, sid, typ, w');
    SendGenuine(y.history, s, st, typ);
    ShrunkIsGenuine(y.history, s, w'.cache);
    OneStream(y, w'.cache, sid, AfterSend(s, st, typ));
  }

  lemma LeaveGenuine(h: History.State, s: Cache.State, st: Stream)
    requires StreamGenuine(h, s, st)
    ensures StreamGenuine(h, s, st.(phase := Ending))
  {
    hide SlotTyped, LogGenuine;
  }

  lemma LeaveKeepsInv(y: System, sid: StreamId, w': World)
    requires Inv(y) && StreamModel.Next(y.world, Leave(sid), w')
    ensures Inv(System(w', y.history))
  {
    hide Inv, Proofs.Inv, ChansGenuine, StreamGenuine, Shrinks, Cache.Inv, Proofs.StreamOk;
    Parts(y, sid);
    LeaveGenuine(y.history, y.world.cache, y.world.streams[sid]);
    Proofs.LeaveKeepsInv(y.world, sid, w');
    NothingShrinks(y.world.cache);
    OneStream(y, y.world.cache, sid, y.world.streams[sid].(phase := Ending));
  }

  lemma CloseKeepsInv(y: System, sid: StreamId, w': World)
    requires Inv(y) && StreamModel.Next(y.world, Close(sid), w')
    ensures Inv(System(w', y.history))
  {
    hide Proofs.Inv, History.Inv, ChansGenuine, StreamGenuine;
    Proofs.CloseKeepsInv(y.world, sid, w');
  }

  lemma OpenKeepsInv(y: System, sid: StreamId, types: seq<TypeUrl>, defaultType: TypeUrl, w': World)
    requires Inv(y) && StreamModel.Next(y.world, Open(sid, types, defaultType), w')
    ensures Inv(System(w', y.history))
  {
    assert StreamGenuine(y.history, y.world.cache, NewStream(types, defaultType));
    hide Proofs.Inv, History.Inv, ChansGenuine, StreamGenuine, NewStream;
    Proofs.OpenKeepsInv(y.world, sid, types, defaultType, w');
  }

  lemma StreamStepKeepsInv(y: System, e: StreamModel.Event, w': World)
    requires Inv(y) && StreamModel.Next(y.world, e, w') && !e.SetSnapshot? && !e.ClearSnapshot?
    ensures Inv(System(w', y.history))
  {
    hide Inv, StreamModel.Next;
    match e
    case Open(sid, types, defaultType) => OpenKeepsInv(y, sid, types, defaultType, w');
    case Arrive(sid, d) => ArriveKeepsInv(y, sid, d, w');
    case CancelSlot(sid) => CancelKeepsInv(y, sid, w');
    case FillSlot(sid) => FillKeepsInv(y, sid, w');
    case Send(sid, typ) => SendKeepsInv(y, sid, typ, w');
    case Leave(sid) => LeaveKeepsInv(y, sid, w');
    case CancelNext(sid) => CancelNextKeepsInv(y, sid, w');
    case Close(sid) => CloseKeepsInv(y, sid, w');
  }

  lemma AllStayGenuine(y: System, h': History.State)
    requires Inv(y) && History.Extends(y.history, h')
    ensures ChansGenuine(h', y.world.cache)
    ensures forall sid :: sid in y.world.streams ==> StreamGenuine(h', y.world.cache, y.world.streams[sid])
  {
    hide Proofs.Inv, History.Inv, ChansGenuine, StreamGenuine, History.Extends;
    ChansStayGenuine(y.history, h', y.world.cache);
    forall sid | sid in y.world.streams
      ensures StreamGenuine(h', y.world.cache, y.world.streams[sid])
    {
      StreamStaysGenuine(y.history, h', y.world.cache, y.world.streams[sid]);
    }
  }

  lemma ReconcileKeepsInv(y: System, e: History.Event, h': History.State)
    requires Inv(y) && History.Next(y.history, e, h') && (e.Generate? || e.FetchOld? || e.Assign?)
    ensures Inv(System(y.world, h'))
  {
    History.NextKeepsInv(y.history, e, h');
    History.NextExtends(y.history, e, h');
    AllStayGenuine(y, h');
    hide Proofs.Inv, History.Inv, ChansGenuine, StreamGenuine, History.Next;
  }

  /** A snapshot that tells the truth becomes current. */
  lemma SetKeepsInv(y: System, node: NodeId, snap: Snapshot, h': History.State, w': World)
    requires Inv(y) && StreamModel.Next(y.world, SetSnapshot(node, snap), w')
    requires History.Inv(h') && History.Extends(y.history, h') && h'.server.Xds? && h'.current == y.history.current[node := snap]
    requires GenuineSnapshot(h', snap)
    ensures Inv(System(w', h'))
  {
    AllStayGenuine(y, h');
    assert Proofs.Inv(y.world);
    Proofs.SetSnapshotKeepsInv(y.world, node, snap, w');
    assert w'.cache.snapshots == y.world.cache.snapshots[node := snap] && w'.cache.ads == y.world.cache.ads;
    hide Proofs.Inv, History.Inv, ChansGenuine, StreamGenuine, Cache.SetSnapshot, GenuineSnapshot;
    SetSnapshotChans(h', y.world.cache, node, snap, w'.cache);
    forall sid | sid in w'.streams
      ensures StreamGenuine(h', w'.cache, w'.streams[sid])
    {
      SetSnapshotStream(h', y.world, node, snap, w'.cache, sid);
    }
  }

  lemma StoreKeepsInv(y: System, rid: nat, y': System)
    requires Inv(y) && XdsModel.Next(y, Stores(rid), y')
    ensures Inv(y')
  {
    var p := History.PhaseOf(y.history, rid);
    assert p.Versioned? && History.PhaseOk(y.history, y.history.reconcilers[rid]);
    History.NextKeepsInv(y.history, History.Store(rid), y'.history);
    History.NextExtends(y.history, History.Store(rid), y'.history);
    History.GoodExtends(y.history, y'.history, p.snap);
    GoodIsGenuine(y'.history, p.snap);
    assert y'.history.current == y.history.current[p.node := p.snap];
    hide Inv, History.Inv, GenuineSnapshot, History.Good;
    SetKeepsInv(y, p.node, p.snap, y'.history, y'.world);
  }

  lemma ClearKeepsInv(y: System, node: NodeId, y': System)
    requires Inv(y) && XdsModel.Next(y, Clears(node), y')
    ensures Inv(y')
  {
    History.NextKeepsInv(y.history, History.ClearNode(node), y'.history);
    History.NextExtends(y.history, History.ClearNode(node), y'.history);
    assert GenuineSnapshot(y'.history, Snapshot(map[]));
    hide Inv, History.Inv, GenuineSnapshot;
    SetKeepsInv(y, node, Snapshot(map[]), y'.history, y'.world);
  }

  lemma EvictKeepsInv(y: System, node: NodeId, y': System)
    requires Inv(y) && XdsModel.Next(y, Evicts(node), y')
    ensures Inv(y')
  {
    History.NextKeepsInv(y.history, History.Evict(node), y'.history);
    History.NextExtends(y.history, History.Evict(node), y'.history);
    AllStayGenuine(y, y'.history);
    Proofs.ClearSnapshotKeepsInv(y.world, node, y'.world);
    assert y'.world.cache.chans == y.world.cache.chans;
    NothingShrinks(y.world.cache);
    assert Shrinks(y.world.cache, y'.world.cache);
    hide Proofs.Inv, History.Inv, ChansGenuine, StreamGenuine, Shrinks;
    ShrunkIsGenuine(y'.history, y.world.cache, y'.world.cache);
    forall sid | sid in y'.world.streams
      ensures StreamGenuine(y'.history, y'.world.cache, y'.world.streams[sid])
    {
      StreamAfterShrink(y'.history, y.world.cache, y'.world.cache, y.world.streams[sid]);
    }
  }

  lemma NextKeepsInv(y: System, e: XdsModel.Event, y': System)
    requires Inv(y) && XdsModel.Next(y, e, y')
    ensures Inv(y')
  {
    hide Inv, StreamModel.Next, History.Next;
    match e
    case OpenStream(sid, defaultType) => StreamStepKeepsInv(y, Open(sid, XDS_TYPES, defaultType), y'.world);
    case StreamStep(step) => StreamStepKeepsInv(y, step, y'.world);
    case Reconciles(step) => ReconcileKeepsInv(y, step, y'.history);
    case Stores(rid) => StoreKeepsInv(y, rid, y');
    case Clears(node) => ClearKeepsInv(y, node, y');
    case Evicts(node) => EvictKeepsInv(y, node, y');
  }
}
