/** What every interleaving of streams, reconcilers and requests keeps. */
module StreamProofs {
  import opened Xds
  import opened StreamLog
  import opened StreamModel
  import Cache = CacheModel

  // ---------- invariant ----------

  /** The channel's one response has been taken. */
  predicate Spent(c: Chan) {
    c.sent == 1 && c.buffer == []
  }

  ghost predicate CancelOk(s: Cache.State, slot: Slot)
    requires slot.chan.Some? && slot.request.Some?
  {
    match slot.cancel
    case NoCancel => true
    case CancelWatch(node, id) =>
      && 1 <= id <= s.watchCount
      && (Cache.IsOpen(s, node, id) ==> Cache.WatchAt(s, node, id) == Watch(slot.request.value, slot.chan.value))
    case CloseChan(c) => c == slot.chan.value && c in s.chans && s.chans[c].sent == 1
  }

  ghost predicate ChanOk(s: Cache.State, typ: TypeUrl, slot: Slot, log: seq<Entry>)
    requires slot.chan.Some?
  {
    var c := slot.chan.value;
    && c in s.chans && s.chans[c].closes == 0
    && (Spent(s.chans[c]) <==> slot.nonce != "" && !Echoed(log, typ))
  }

  ghost predicate SlotOk(s: Cache.State, typ: TypeUrl, slot: Slot, log: seq<Entry>) {
    && slot.nonce == LastNonce(log, typ)
    && if slot.chan.None? then slot == GivenUp(slot)
       else && slot.request.Some? && slot.request.value.typeUrl == typ
            && CancelOk(s, slot)
            && ChanOk(s, typ, slot, log)
  }

  /** No response of this type waits to be echoed. */
  ghost predicate MaySend(log: seq<Entry>, typ: TypeUrl) {
    LastSent(log, typ) < 0 || Echoed(log, typ)
  }

  /** What the loop can rely on where it is. Only a slot that is being filled again is empty although
      it has been used. */
  ghost predicate PhaseOk(st: Stream) {
    && (st.phase.Peeked? ==> Accepts(st, st.phase.request))
    && (st.phase.Cancelled? ==>
          && st.phase.request.typeUrl in st.slots && st.slots[st.phase.request.typeUrl].chan.None?
          && MaySend(st.log, st.phase.request.typeUrl))
    && (forall t :: t in st.slots && st.slots[t].chan.None? && st.slots[t].nonce != "" ==>
          st.phase.Cancelled? && st.phase.request.typeUrl == t)
  }

  ghost predicate StreamOk(s: Cache.State, st: Stream) {
    && WellTyped(st) && PhaseOk(st)
    && (forall t :: t in st.slots ==> SlotOk(s, t, st.slots[t], st.log))
    && FlowControlled(st.log)
    && SerialsGrow(st.log, st.streamNonce)
    && (st.endpointNonceAcked <==> EndpointType in st.slots && Echoed(st.log, EndpointType))
  }

  predicate HasSlot(w: World, sid: StreamId, typ: TypeUrl) {
    sid in w.streams && typ in w.streams[sid].slots
  }

  function SlotOf(w: World, sid: StreamId, typ: TypeUrl): Slot
    requires HasSlot(w, sid, typ)
  {
    w.streams[sid].slots[typ]
  }

  /** Two slots hold on to the same channel or the same watch id. */
  predicate Clash(a: Slot, b: Slot) {
    || (a.chan.Some? && a.chan == b.chan)
    || (a.cancel.CancelWatch? && b.cancel.CancelWatch? && a.cancel.id == b.cancel.id)
  }

  ghost predicate SlotsApart(w: World) {
    forall s1, t1, s2, t2 :: HasSlot(w, s1, t1) && HasSlot(w, s2, t2) && Clash(SlotOf(w, s1, t1), SlotOf(w, s2, t2)) ==>
      s1 == s2 && t1 == t2
  }

  predicate Owns(w: World, sid: StreamId, typ: TypeUrl, node: NodeId, id: WatchId) {
    HasSlot(w, sid, typ) && SlotOf(w, sid, typ).cancel == CancelWatch(node, id)
  }

  ghost predicate Owned(w: World) {
    forall node, id :: Cache.IsOpen(w.cache, node, id) ==> exists sid, typ :: Owns(w, sid, typ, node, id)
  }

  ghost predicate Inv(w: World) {
    && Cache.Inv(w.cache)
    && (forall sid :: sid in w.streams ==> StreamOk(w.cache, w.streams[sid]))
    && SlotsApart(w)
    && Owned(w)
  }

  // ---------- slots the step does not touch ----------

  /** Nothing that slot `slot` can see differs between the two cache states. */
  ghost predicate Untouched(s: Cache.State, s': Cache.State, slot: Slot) {
    && s.watchCount <= s'.watchCount
    && (slot.chan.Some? && slot.chan.value in s.chans ==>
          slot.chan.value in s'.chans && s'.chans[slot.chan.value] == s.chans[slot.chan.value])
    && (slot.cancel.CancelWatch? && Cache.IsOpen(s', slot.cancel.node, slot.cancel.id) ==>
          && Cache.IsOpen(s, slot.cancel.node, slot.cancel.id)
          && Cache.WatchAt(s', slot.cancel.node, slot.cancel.id) == Cache.WatchAt(s, slot.cancel.node, slot.cancel.id))
  }

  lemma UntouchedSlotOk(s: Cache.State, s': Cache.State, typ: TypeUrl, slot: Slot, log: seq<Entry>)
    requires SlotOk(s, typ, slot, log) && Untouched(s, s', slot)
    ensures SlotOk(s', typ, slot, log)
  {}

  /** Entries about other types do not matter to a slot. */
  lemma OtherEntrySlotOk(s: Cache.State, typ: TypeUrl, slot: Slot, log: seq<Entry>, e: Entry)
    requires SlotOk(s, typ, slot, log)
    requires e.Ignored? || (e.Sent? && e.typeUrl != typ) || (e.Processed? && e.request.typeUrl != typ)
    ensures SlotOk(s, typ, slot, log + [e])
  {
    AppendEntry(log, e, typ);
  }

  // ---------- a new snapshot ----------

  lemma SetSnapshotSlotOk(w: World, node: NodeId, snap: Snapshot, s': Cache.State, sid: StreamId, typ: TypeUrl)
    requires Inv(w) && Cache.SetSnapshot(w.cache, node, snap, s') && HasSlot(w, sid, typ)
    ensures SlotOk(s', typ, SlotOf(w, sid, typ), w.streams[sid].log)
  {
    var s, slot := w.cache, SlotOf(w, sid, typ);
    assert SlotOk(s, typ, slot, w.streams[sid].log);
    if slot.chan.Some? {
      var c := slot.chan.value;
      if s'.chans[c] != s.chans[c] {
        var id :| Cache.Triggers(s.ads, Cache.WatchesOf(s, node), snap, id) && Cache.WatchesOf(s, node)[id].chan == c;
        assert Cache.IsOpen(s, node, id) && Cache.WatchOk(s, node, id);
      }
    }
  }

  lemma SetSnapshotKeepsInv(w: World, node: NodeId, snap: Snapshot, w': World)
    requires Inv(w) && Next(w, SetSnapshot(node, snap), w')
    ensures Inv(w')
  {
    Cache.SetSnapshotKeepsInv(w.cache, node, snap, w'.cache);
    forall sid | sid in w.streams
      ensures StreamOk(w'.cache, w.streams[sid])
    {
      forall t | t in w.streams[sid].slots
        ensures SlotOk(w'.cache, t, w.streams[sid].slots[t], w.streams[sid].log)
      {
        assert HasSlot(w, sid, t);
        SetSnapshotSlotOk(w, node, snap, w'.cache, sid, t);
      }
    }
    FewerOpenStillOwned(w, w');
  }

  lemma FewerOpenStillOwned(w: World, w': World)
    requires Owned(w) && w'.streams == w.streams
    requires forall n, id :: Cache.IsOpen(w'.cache, n, id) ==> Cache.IsOpen(w.cache, n, id)
    ensures Owned(w')
    ensures SlotsApart(w) ==> SlotsApart(w')
  {
    forall n, id | Cache.IsOpen(w'.cache, n, id)
      ensures exists sid, typ :: Owns(w', sid, typ, n, id)
    {
      var sid, typ :| Owns(w, sid, typ, n, id);
      assert Owns(w', sid, typ, n, id);
    }
    if SlotsApart(w) {
      forall s1, t1, s2, t2 | HasSlot(w', s1, t1) && HasSlot(w', s2, t2) && Clash(SlotOf(w', s1, t1), SlotOf(w', s2, t2))
        ensures s1 == s2 && t1 == t2
      {
        assert HasSlot(w, s1, t1) && HasSlot(w, s2, t2) && Clash(SlotOf(w, s1, t1), SlotOf(w, s2, t2));
      }
    }
  }

  lemma ClearSnapshotKeepsInv(w: World, node: NodeId, w': World)
    requires Inv(w) && Next(w, ClearSnapshot(node), w')
    ensures Inv(w')
  {
    Cache.NextKeepsInv(w.cache, Cache.ClearEvent(node), w'.cache);
    forall sid | sid in w.streams
      ensures StreamOk(w'.cache, w.streams[sid])
    {
      forall t | t in w.streams[sid].slots
        ensures SlotOk(w'.cache, t, w.streams[sid].slots[t], w.streams[sid].log)
      {
        UntouchedSlotOk(w.cache, w'.cache, t, w.streams[sid].slots[t], w.streams[sid].log);
      }
    }
    FewerOpenStillOwned(w, w');
  }

  // ---------- giving up a slot ----------

  /** Calling a slot's cancel function touches no other slot. */
  lemma CancelTouchesNoOther(w: World, sid: StreamId, typ: TypeUrl, sid2: StreamId, typ2: TypeUrl)
    requires Inv(w) && HasSlot(w, sid, typ) && HasSlot(w, sid2, typ2) && (sid2 != sid || typ2 != typ)
    ensures Untouched(w.cache, Cache.DoCancel(w.cache, SlotOf(w, sid, typ).cancel), SlotOf(w, sid2, typ2))
  {
    var slot, slot2 := SlotOf(w, sid, typ), SlotOf(w, sid2, typ2);
    assert !Clash(slot, slot2);
    assert SlotOk(w.cache, typ, slot, w.streams[sid].log);
  }

  /** After a slot's cancel function every watch still open belongs to another slot. */
  lemma CancelClosesOwn(w: World, sid: StreamId, typ: TypeUrl, node: NodeId, id: WatchId)
    requires Inv(w) && HasSlot(w, sid, typ)
    requires Cache.IsOpen(Cache.DoCancel(w.cache, SlotOf(w, sid, typ).cancel), node, id)
    ensures exists sid2, typ2 :: Owns(w, sid2, typ2, node, id) && (sid2 != sid || typ2 != typ)
  {
    Cache.DoCancelEffect(w.cache, SlotOf(w, sid, typ).cancel);
    assert Cache.IsOpen(w.cache, node, id);
    var sid2, typ2 :| Owns(w, sid2, typ2, node, id);
    assert sid2 != sid || typ2 != typ;
  }

  /** Every watch still belongs to a slot when slot `typ` of stream `sid` has been given up. */
  lemma GiveUpKeepsOwned(w: World, sid: StreamId, typ: TypeUrl, w': World)
    requires Inv(w) && HasSlot(w, sid, typ) && w'.cache == Cache.DoCancel(w.cache, SlotOf(w, sid, typ).cancel)
    requires forall sid2, typ2 :: HasSlot(w, sid2, typ2) && (sid2 != sid || typ2 != typ) ==>
               HasSlot(w', sid2, typ2) && SlotOf(w', sid2, typ2).cancel == SlotOf(w, sid2, typ2).cancel
    ensures Owned(w')
  {
    hide Inv, Cache.DoCancel;
    forall n, id | Cache.IsOpen(w'.cache, n, id)
      ensures exists sid2, typ2 :: Owns(w', sid2, typ2, n, id)
    {
      CancelClosesOwn(w, sid, typ, n, id);
      var sid2, typ2 :| Owns(w, sid2, typ2, n, id) && (sid2 != sid || typ2 != typ);
      assert Owns(w', sid2, typ2, n, id);
    }
  }

  /** A slot's cancel function may be called: the channel it closes, if any, is not closed yet. */
  lemma SlotMayBeCancelled(w: World, sid: StreamId, typ: TypeUrl)
    requires Inv(w) && HasSlot(w, sid, typ)
    ensures Cache.CanCancel(w.cache, SlotOf(w, sid, typ).cancel)
    ensures Cache.Inv(Cache.DoCancel(w.cache, SlotOf(w, sid, typ).cancel))
  {
    assert SlotOk(w.cache, typ, SlotOf(w, sid, typ), w.streams[sid].log);
    Cache.DoCancelKeepsInv(w.cache, SlotOf(w, sid, typ).cancel);
  }

  /** Giving up a slot leaves the slots of other streams in order. */
  lemma GiveUpOtherStreamOk(w: World, sid: StreamId, typ: TypeUrl, sid2: StreamId)
    requires Inv(w) && HasSlot(w, sid, typ) && sid2 in w.streams && sid2 != sid
    ensures StreamOk(Cache.DoCancel(w.cache, SlotOf(w, sid, typ).cancel), w.streams[sid2])
  {
    var st := w.streams[sid2];
    forall t | t in st.slots
      ensures SlotOk(Cache.DoCancel(w.cache, SlotOf(w, sid, typ).cancel), t, st.slots[t], st.log)
    {
      assert HasSlot(w, sid2, t);
      CancelTouchesNoOther(w, sid, typ, sid2, t);
      UntouchedSlotOk(w.cache, Cache.DoCancel(w.cache, SlotOf(w, sid, typ).cancel), t, st.slots[t], st.log);
    }
  }

  lemma EchoLetsSend(s: Cache.State, st: Stream, request: Request)
    requires StreamOk(s, st) && Accepts(st, request)
    ensures MaySend(st.log + [Processed(request)], request.typeUrl)
    ensures LastSent(st.log, request.typeUrl) >= 0 <==> st.slots[request.typeUrl].nonce != ""
  {
    var typ := request.typeUrl;
    assert SlotOk(s, typ, st.slots[typ], st.log);
    assert LastSent(st.log, typ) >= 0 <==> LastNonce(st.log, typ) != "";
    hide LastSent, LastNonce, Echoed, CancelOk, ChanOk;
    AppendEntry(st.log, Processed(request), typ);
  }

  lemma CancelHistoryOk(s: Cache.State, st: Stream)
    requires StreamOk(s, st) && CanCancelSlot(st)
    ensures var st' := AfterCancel(st);
            && FlowControlled(st'.log) && SerialsGrow(st'.log, st'.streamNonce)
            && (st'.endpointNonceAcked <==> EndpointType in st'.slots && Echoed(st'.log, EndpointType))
  {
    var request := st.phase.request;
    EchoLetsSend(s, st, request);
    if request.typeUrl == EndpointType {
      assert SlotOk(s, EndpointType, st.slots[EndpointType], st.log);
    }
    assert Echoed(st.log, EndpointType) ==> LastSent(st.log, EndpointType) >= 0;
    hide Echoed, LastSent, LastNonce, FlowControlled, CancelOk, ChanOk, MaySend, PhaseOk;
    AppendKeepsFlow(st.log, Processed(request));
    AppendKeepsSerials(st.log, Processed(request), st.streamNonce);
    hide SerialsGrow;
    AppendEntry(st.log, Processed(request), EndpointType);
  }

  lemma CancelPhaseOk(s: Cache.State, st: Stream)
    requires StreamOk(s, st) && CanCancelSlot(st)
    ensures PhaseOk(AfterCancel(st)) && WellTyped(AfterCancel(st))
  {
    EchoLetsSend(s, st, st.phase.request);
    hide SlotOk, FlowControlled, SerialsGrow, Echoed, MaySend;
  }

  lemma CancelSlotsOk(w: World, sid: StreamId, t: TypeUrl)
    requires Inv(w) && sid in w.streams && CanCancelSlot(w.streams[sid]) && t in w.streams[sid].slots
    ensures var st' := AfterCancel(w.streams[sid]);
            SlotOk(CacheAfterCancel(w.cache, w.streams[sid]), t, st'.slots[t], st'.log)
  {
    var s, st := w.cache, w.streams[sid];
    var request := st.phase.request;
    assert SlotOk(s, t, st.slots[t], st.log);
    if t == request.typeUrl {
      hide LastSent, Echoed, CancelOk, ChanOk, Cache.Inv;
      AppendEntry(st.log, Processed(request), t);
    } else {
      assert HasSlot(w, sid, t) && HasSlot(w, sid, request.typeUrl);
      CancelTouchesNoOther(w, sid, request.typeUrl, sid, t);
      UntouchedSlotOk(s, CacheAfterCancel(s, st), t, st.slots[t], st.log);
      OtherEntrySlotOk(CacheAfterCancel(s, st), t, st.slots[t], st.log, Processed(request));
    }
  }

  lemma CancelStreamOk(w: World, sid: StreamId)
    requires Inv(w) && sid in w.streams && CanCancelSlot(w.streams[sid])
    ensures StreamOk(CacheAfterCancel(w.cache, w.streams[sid]), AfterCancel(w.streams[sid]))
  {
    hide SlotOk, PhaseOk, CacheAfterCancel, FlowControlled, SerialsGrow, Echoed, WellTyped;
    assert StreamOk(w.cache, w.streams[sid]);
    CancelHistoryOk(w.cache, w.streams[sid]);
    CancelPhaseOk(w.cache, w.streams[sid]);
    forall t | t in w.streams[sid].slots
      ensures SlotOk(CacheAfterCancel(w.cache, w.streams[sid]), t, AfterCancel(w.streams[sid]).slots[t], AfterCancel(w.streams[sid]).log)
    {
      CancelSlotsOk(w, sid, t);
    }
    hide Inv;
  }

  /** The stream `st'` is the stream of slot `typ` with that slot given up. */
  ghost predicate GivesUpOnly(w: World, sid: StreamId, typ: TypeUrl, st': Stream)
    requires HasSlot(w, sid, typ)
  {
    && (forall t :: t in st'.slots ==> t in w.streams[sid].slots)
    && (forall t :: t in w.streams[sid].slots && t != typ ==> t in st'.slots && st'.slots[t] == w.streams[sid].slots[t])
    && (typ in st'.slots ==> HoldsNothing(st'.slots[typ]))
  }

  lemma GiveUpKeepsSlots(w: World, sid: StreamId, typ: TypeUrl, s': Cache.State, st': Stream)
    requires HasSlot(w, sid, typ) && GivesUpOnly(w, sid, typ, st')
    ensures var w' := Update(w, s', sid, st');
            && SlotsWithin(w, w')
            && (forall sid2, typ2 :: HasSlot(w, sid2, typ2) && (sid2 != sid || typ2 != typ) ==>
                  HasSlot(w', sid2, typ2) && SlotOf(w', sid2, typ2).cancel == SlotOf(w, sid2, typ2).cancel)
  {}

  /** Giving up a slot keeps the invariant if it leaves its own stream in order. */
  lemma GiveUpKeepsInv(w: World, sid: StreamId, typ: TypeUrl, st': Stream)
    requires Inv(w) && HasSlot(w, sid, typ) && GivesUpOnly(w, sid, typ, st')
    requires StreamOk(Cache.DoCancel(w.cache, SlotOf(w, sid, typ).cancel), st')
    ensures Inv(Update(w, Cache.DoCancel(w.cache, SlotOf(w, sid, typ).cancel), sid, st'))
  {
    var s' := Cache.DoCancel(w.cache, SlotOf(w, sid, typ).cancel);
    var w' := Update(w, s', sid, st');
    hide SlotsApart, Owned, StreamOk, Cache.DoCancel, Cache.Inv, GivesUpOnly, SlotsWithin;
    GiveUpKeepsSlots(w, sid, typ, s', st');
    SlotMayBeCancelled(w, sid, typ);
    WithinKeepsSlotsApart(w, w');
    GiveUpKeepsOwned(w, sid, typ, w');
    forall sid2 | sid2 in w'.streams
      ensures StreamOk(w'.cache, w'.streams[sid2])
    {
      if sid2 != sid {
        GiveUpOtherStreamOk(w, sid, typ, sid2);
      }
    }
  }

  /** The second step of a request: the slot's watch is given up. */
  lemma CancelKeepsInv(w: World, sid: StreamId, w': World)
    requires Inv(w) && Next(w, CancelSlot(sid), w')
    ensures Inv(w')
  {
    hide Inv, StreamOk, Cache.DoCancel;
    var typ := w.streams[sid].phase.request.typeUrl;
    assert HasSlot(w, sid, typ);
    CancelStreamOk(w, sid);
    GiveUpKeepsInv(w, sid, typ, AfterCancel(w.streams[sid]));
  }

  // ---------- filling the slot again ----------

  lemma FillKeepsCacheInv(s: Cache.State, st: Stream)
    requires Cache.Inv(s) && CanFillSlot(st)
    ensures Cache.Inv(CacheAfterFill(s, st))
  {
    if st.phase.warm.Some? {
      Cache.NextKeepsInv(s, Cache.ScheduleEvent(st.phase.warm.value), CacheAfterFill(s, st));
    } else {
      Cache.CreateWatchKeepsInv(s, st.phase.request);
    }
  }

  /** Filling a slot adds one channel and at most one watch. */
  lemma FillEffect(s: Cache.State, st: Stream)
    requires Cache.Inv(s) && CanFillSlot(st)
    ensures var s' := CacheAfterFill(s, st);
            && s.nextChan !in s.chans && s.watchCount <= s'.watchCount && s'.snapshots == s.snapshots && s'.ads == s.ads
            && s'.chans.Keys == s.chans.Keys + {s.nextChan}
            && (forall c :: c in s.chans ==> s'.chans[c] == s.chans[c])
            && (forall n, id :: Cache.IsOpen(s', n, id) && !Cache.IsOpen(s, n, id) ==>
                  id == s.watchCount + 1 && AfterFill(s, st).slots[st.phase.request.typeUrl].cancel == CancelWatch(n, id))
            && (forall n, id :: Cache.IsOpen(s, n, id) ==> Cache.IsOpen(s', n, id) && Cache.WatchAt(s', n, id) == Cache.WatchAt(s, n, id))
  {
    Cache.CreateWatchEffect(s, st.phase.request);
  }

  /** Filling a slot touches no other slot. */
  lemma FillTouchesNoOther(w: World, sid: StreamId, sid2: StreamId, typ2: TypeUrl)
    requires Inv(w) && sid in w.streams && CanFillSlot(w.streams[sid]) && HasSlot(w, sid2, typ2)
    ensures Untouched(w.cache, CacheAfterFill(w.cache, w.streams[sid]), SlotOf(w, sid2, typ2))
  {
    FillEffect(w.cache, w.streams[sid]);
    assert SlotOk(w.cache, typ2, SlotOf(w, sid2, typ2), w.streams[sid2].log);
    hide CacheAfterFill, Cache.Inv;
  }

  /** The new channel is open, and whatever was sent on it is still there. */
  lemma FilledChanOk(s: Cache.State, st: Stream)
    requires Cache.Inv(s) && CanFillSlot(st)
    ensures var s', slot := CacheAfterFill(s, st), AfterFill(s, st).slots[st.phase.request.typeUrl];
            slot.chan.value in s'.chans && s'.chans[slot.chan.value].closes == 0 && !Spent(s'.chans[slot.chan.value])
  {
    hide Cache.Inv;
  }

  lemma FilledCancelOk(s: Cache.State, st: Stream)
    requires Cache.Inv(s) && CanFillSlot(st)
    ensures CancelOk(CacheAfterFill(s, st), AfterFill(s, st).slots[st.phase.request.typeUrl])
  {
    hide Cache.Inv;
  }

  lemma FillSlotsOk(w: World, sid: StreamId, t: TypeUrl)
    requires Inv(w) && sid in w.streams && CanFillSlot(w.streams[sid]) && t in w.streams[sid].slots
    ensures SlotOk(CacheAfterFill(w.cache, w.streams[sid]), t, AfterFill(w.cache, w.streams[sid]).slots[t], w.streams[sid].log)
  {
    var s, st := w.cache, w.streams[sid];
    assert SlotOk(s, t, st.slots[t], st.log);
    if t == st.phase.request.typeUrl {
      FilledChanOk(s, st);
      FilledCancelOk(s, st);
      assert Echoed(st.log, t) || st.slots[t].nonce == "";
      hide LastSent, LastNonce, Echoed, CancelOk, Cache.Inv, CacheAfterFill, Spent;
    } else {
      assert HasSlot(w, sid, t);
      FillTouchesNoOther(w, sid, sid, t);
      UntouchedSlotOk(s, CacheAfterFill(s, st), t, st.slots[t], st.log);
    }
  }

  lemma FillStreamOk(w: World, sid: StreamId)
    requires Inv(w) && sid in w.streams && CanFillSlot(w.streams[sid])
    ensures StreamOk(CacheAfterFill(w.cache, w.streams[sid]), AfterFill(w.cache, w.streams[sid]))
  {
    var s, st := w.cache, w.streams[sid];
    assert StreamOk(s, st);
    forall t | t in st.slots
      ensures SlotOk(CacheAfterFill(s, st), t, AfterFill(s, st).slots[t], st.log)
    {
      FillSlotsOk(w, sid, t);
    }
    hide SlotOk, CacheAfterFill, FlowControlled, SerialsGrow, Echoed, Inv;
  }

  lemma FillOtherStreamOk(w: World, sid: StreamId, sid2: StreamId)
    requires Inv(w) && sid in w.streams && CanFillSlot(w.streams[sid]) && sid2 in w.streams && sid2 != sid
    ensures StreamOk(CacheAfterFill(w.cache, w.streams[sid]), w.streams[sid2])
  {
    var st := w.streams[sid2];
    forall t | t in st.slots
      ensures SlotOk(CacheAfterFill(w.cache, w.streams[sid]), t, st.slots[t], st.log)
    {
      assert HasSlot(w, sid2, t);
      FillTouchesNoOther(w, sid, sid2, t);
      UntouchedSlotOk(w.cache, CacheAfterFill(w.cache, w.streams[sid]), t, st.slots[t], st.log);
    }
  }

  lemma NewSlotIsApart(w: World, sid: StreamId, s2: StreamId, t2: TypeUrl)
    requires Inv(w) && sid in w.streams && CanFillSlot(w.streams[sid]) && HasSlot(w, s2, t2)
    ensures var slot := AfterFill(w.cache, w.streams[sid]).slots[w.streams[sid].phase.request.typeUrl];
            !Clash(slot, SlotOf(w, s2, t2)) && !Clash(SlotOf(w, s2, t2), slot)
  {
    assert SlotOk(w.cache, t2, SlotOf(w, s2, t2), w.streams[s2].log);
  }

  /** A slot is filled with a channel and a watch id that no other slot has. */
  lemma FillKeepsSlotsApart(w: World, sid: StreamId, w': World)
    requires Inv(w) && Next(w, FillSlot(sid), w')
    ensures SlotsApart(w')
  {
    var typ := w.streams[sid].phase.request.typeUrl;
    forall s2, t2 | HasSlot(w', s2, t2) && (s2 != sid || t2 != typ)
      ensures HasSlot(w, s2, t2) && SlotOf(w', s2, t2) == SlotOf(w, s2, t2)
      ensures !Clash(SlotOf(w', sid, typ), SlotOf(w', s2, t2)) && !Clash(SlotOf(w', s2, t2), SlotOf(w', sid, typ))
    {
      assert HasSlot(w, s2, t2);
      NewSlotIsApart(w, sid, s2, t2);
    }
    assert SlotsApart(w);
    hide Inv, CacheAfterFill, AfterFill, Clash, Next;
    forall s1, t1, s2, t2 | HasSlot(w', s1, t1) && HasSlot(w', s2, t2) && Clash(SlotOf(w', s1, t1), SlotOf(w', s2, t2))
      ensures s1 == s2 && t1 == t2
    {
      if (s1 != sid || t1 != typ) && (s2 != sid || t2 != typ) {
        assert HasSlot(w, s1, t1) && HasSlot(w, s2, t2) && Clash(SlotOf(w, s1, t1), SlotOf(w, s2, t2));
      }
    }
  }

  lemma CancelledSlotHoldsNothing(w: World, sid: StreamId)
    requires Inv(w) && sid in w.streams && CanFillSlot(w.streams[sid])
    ensures HoldsNothing(w.streams[sid].slots[w.streams[sid].phase.request.typeUrl])
  {
    var st := w.streams[sid];
    assert StreamOk(w.cache, st) && SlotOk(w.cache, st.phase.request.typeUrl, st.slots[st.phase.request.typeUrl], st.log);
  }

  function Filled(w: World, sid: StreamId): World
    requires sid in w.streams && CanFillSlot(w.streams[sid])
  {
    Update(w, CacheAfterFill(w.cache, w.streams[sid]), sid, AfterFill(w.cache, w.streams[sid]))
  }

  lemma OwnerStaysWhenFilled(w: World, sid: StreamId, sid2: StreamId, typ2: TypeUrl, n: NodeId, id: WatchId)
    requires Inv(w) && sid in w.streams && CanFillSlot(w.streams[sid]) && Owns(w, sid2, typ2, n, id)
    ensures Owns(Filled(w, sid), sid2, typ2, n, id)
  {
    CancelledSlotHoldsNothing(w, sid);
    FillsOne(w.cache, w.streams[sid]);
    hide Inv, CacheAfterFill, AfterFill;
  }

  /** The slot that is filled held nothing before, so nothing loses its owner. */
  lemma FillKeepsOwned(w: World, sid: StreamId)
    requires Inv(w) && sid in w.streams && CanFillSlot(w.streams[sid])
    ensures Owned(Filled(w, sid))
  {
    FillEffect(w.cache, w.streams[sid]);
    var w' := Filled(w, sid);
    hide Inv, CacheAfterFill, AfterFill;
    forall n, id | Cache.IsOpen(w'.cache, n, id)
      ensures exists sid2, typ2 :: Owns(w', sid2, typ2, n, id)
    {
      if Cache.IsOpen(w.cache, n, id) {
        StillOwned(w, n, id);
        var sid2, typ2 :| Owns(w, sid2, typ2, n, id);
        OwnerStaysWhenFilled(w, sid, sid2, typ2, n, id);
      } else {
        assert Owns(w', sid, w.streams[sid].phase.request.typeUrl, n, id);
      }
    }
  }

  lemma FillsOne(s: Cache.State, st: Stream)
    requires CanFillSlot(st)
    ensures var st' := AfterFill(s, st); st' == st.(slots := st.slots[st.phase.request.typeUrl := st'.slots[st.phase.request.typeUrl]], phase := Idle)
  {}

  lemma StillOwned(w: World, node: NodeId, id: WatchId)
    requires Inv(w) && Cache.IsOpen(w.cache, node, id)
    ensures exists sid, typ :: Owns(w, sid, typ, node, id)
  {}

  /** The third step of a request: the slot is filled again. */
  lemma FillKeepsInv(w: World, sid: StreamId, w': World)
    requires Inv(w) && Next(w, FillSlot(sid), w')
    ensures Inv(w')
  {
    hide Cache.Inv, SlotsApart, Owned, CacheAfterFill, AfterFill, StreamOk;
    FillKeepsCacheInv(w.cache, w.streams[sid]);
    FillKeepsSlotsApart(w, sid, w');
    FillKeepsOwned(w, sid);
    forall sid2 | sid2 in w'.streams
      ensures StreamOk(w'.cache, w'.streams[sid2])
    {
      if sid2 == sid {
        FillStreamOk(w, sid);
      } else {
        FillOtherStreamOk(w, sid, sid2);
      }
    }
  }

  // ---------- a request arrives ----------

  lemma IgnoredStreamOk(s: Cache.State, st: Stream, request: Request)
    requires StreamOk(s, st)
    ensures StreamOk(s, AfterIgnored(st, request))
  {
    hide SlotOk, FlowControlled, SerialsGrow, Echoed, MaySend;
    var e := Ignored(request);
    forall t | t in st.slots
      ensures SlotOk(s, t, st.slots[t], st.log + [e])
    {
      OtherEntrySlotOk(s, t, st.slots[t], st.log, e);
    }
    AppendKeepsFlow(st.log, e);
    IgnoredKeeps(st.log, e, st.streamNonce, EndpointType);
    if st.phase.Cancelled? {
      IgnoredKeeps(st.log, e, st.streamNonce, st.phase.request.typeUrl);
    }
  }

  lemma IgnoredKeeps(log: seq<Entry>, e: Entry, streamNonce: nat, typ: TypeUrl)
    requires e.Ignored? && SerialsGrow(log, streamNonce)
    ensures SerialsGrow(log + [e], streamNonce)
    ensures Echoed(log + [e], typ) <==> Echoed(log, typ)
    ensures MaySend(log + [e], typ) <==> MaySend(log, typ)
  {
    AppendEntry(log, e, typ);
    hide LastSent, NonceOf;
  }

  lemma ArriveStreamOk(s: Cache.State, st: Stream, d: DiscoveryRequest)
    requires StreamOk(s, st) && st.phase.Idle?
    ensures StreamOk(s, AfterArrive(s, st, d))
    ensures AfterArrive(s, st, d).slots == st.slots
  {
    hide SlotOk, FlowControlled, SerialsGrow, Echoed, Warming;
    IgnoredStreamOk(s, st, Resolve(st, d));
  }

  /** The first step of a request changes no slot, whatever it decides. */
  lemma ArriveKeepsInv(w: World, sid: StreamId, d: DiscoveryRequest, w': World)
    requires Inv(w) && Next(w, Arrive(sid, d), w')
    ensures Inv(w')
  {
    ArriveStreamOk(w.cache, w.streams[sid], d);
    hide StreamOk, Cache.Inv, AfterArrive;
    SameHolds(w, w');
  }

  predicate HoldsNothing(slot: Slot) {
    slot.chan.None? && slot.cancel == NoCancel
  }

  /** The slots of `w'` are slots of `w` and hold on to the same channel and watch, or to nothing. */
  ghost predicate SlotsWithin(w: World, w': World) {
    forall sid, t :: HasSlot(w', sid, t) ==>
      && HasSlot(w, sid, t)
      && (HoldsNothing(SlotOf(w', sid, t))
          || (SlotOf(w', sid, t).cancel == SlotOf(w, sid, t).cancel && SlotOf(w', sid, t).chan == SlotOf(w, sid, t).chan))
  }

  lemma WithinKeepsSlotsApart(w: World, w': World)
    requires SlotsApart(w) && SlotsWithin(w, w')
    ensures SlotsApart(w')
  {
    forall s1, t1, s2, t2 | HasSlot(w', s1, t1) && HasSlot(w', s2, t2) && Clash(SlotOf(w', s1, t1), SlotOf(w', s2, t2))
      ensures s1 == s2 && t1 == t2
    {
      assert HasSlot(w, s1, t1) && HasSlot(w, s2, t2) && Clash(SlotOf(w, s1, t1), SlotOf(w, s2, t2));
    }
  }

  lemma SameHolds(w: World, w': World)
    requires SlotsApart(w) && Owned(w)
    requires SlotsWithin(w, w') && SlotsWithin(w', w)
    requires forall n, id :: Cache.IsOpen(w'.cache, n, id) ==> Cache.IsOpen(w.cache, n, id)
    ensures SlotsApart(w') && Owned(w')
  {
    WithinKeepsSlotsApart(w, w');
    forall n, id | Cache.IsOpen(w'.cache, n, id)
      ensures exists sid, typ :: Owns(w', sid, typ, n, id)
    {
      var sid, typ :| Owns(w, sid, typ, n, id);
      assert HasSlot(w, sid, typ) && !HoldsNothing(SlotOf(w, sid, typ)) && Owns(w', sid, typ, n, id);
    }
  }

  // ---------- a response ----------

  lemma SendSlotOk(w: World, sid: StreamId, typ: TypeUrl, sid2: StreamId, t: TypeUrl)
    requires Inv(w) && sid in w.streams && CanSend(w.cache, w.streams[sid], typ) && HasSlot(w, sid2, t)
    requires sid2 != sid || t != typ
    ensures SlotOk(CacheAfterSend(w.cache, w.streams[sid], typ), t, SlotOf(w, sid2, t), w.streams[sid2].log)
  {
    assert HasSlot(w, sid, typ);
    assert !Clash(SlotOf(w, sid, typ), SlotOf(w, sid2, t));
    UntouchedSlotOk(w.cache, CacheAfterSend(w.cache, w.streams[sid], typ), t, SlotOf(w, sid2, t), w.streams[sid2].log);
  }

  lemma SentSlotOk(s: Cache.State, st: Stream, typ: TypeUrl)
    requires Cache.Inv(s) && StreamOk(s, st) && CanSend(s, st, typ)
    ensures SlotOk(CacheAfterSend(s, st, typ), typ, AfterSend(s, st, typ).slots[typ], AfterSend(s, st, typ).log)
  {
    assert SlotOk(s, typ, st.slots[typ], st.log);
    AppendEntry(st.log, AfterSend(s, st, typ).log[|st.log|], typ);
  }

  lemma SendHistoryOk(s: Cache.State, st: Stream, typ: TypeUrl)
    requires Cache.Inv(s) && StreamOk(s, st) && CanSend(s, st, typ)
    ensures var st' := AfterSend(s, st, typ);
            && FlowControlled(st'.log) && SerialsGrow(st'.log, st'.streamNonce) && PhaseOk(st')
            && (st'.endpointNonceAcked <==> EndpointType in st'.slots && Echoed(st'.log, EndpointType))
  {
    hide Echoed, LastSent, FlowControlled, SlotOk, SerialsGrow;
    var e := AfterSend(s, st, typ).log[|st.log|];
    ReadyMaySend(s, st, typ);
    AppendKeepsFlow(st.log, e);
    AppendKeepsSerials(st.log, e, st.streamNonce);
    SendingEchoesNothing(st.log, e, EndpointType);
  }

  lemma SendingEchoesNothing(log: seq<Entry>, e: Entry, typ: TypeUrl)
    requires e.Sent?
    ensures Echoed(log + [e], typ) <==> !IsSent(e, typ) && Echoed(log, typ)
  {
    AppendEntry(log, e, typ);
    hide LastSent, NonceOf;
  }

  lemma ReadyMaySend(s: Cache.State, st: Stream, typ: TypeUrl)
    requires Cache.Inv(s) && StreamOk(s, st) && CanSend(s, st, typ)
    ensures LastSent(st.log, typ) < 0 || Echoed(st.log, typ)
  {
    assert SlotOk(s, typ, st.slots[typ], st.log);
    hide FlowControlled, SerialsGrow;
  }

  lemma SendStreamOk(w: World, sid: StreamId, typ: TypeUrl)
    requires Inv(w) && sid in w.streams && CanSend(w.cache, w.streams[sid], typ)
    ensures StreamOk(CacheAfterSend(w.cache, w.streams[sid], typ), AfterSend(w.cache, w.streams[sid], typ))
  {
    var st := w.streams[sid];
    var s', st' := CacheAfterSend(w.cache, st, typ), AfterSend(w.cache, st, typ);
    SendHistoryOk(w.cache, st, typ);
    SentSlotOk(w.cache, st, typ);
    forall t | t in st'.slots && t != typ
      ensures SlotOk(s', t, st'.slots[t], st'.log)
    {
      assert HasSlot(w, sid, t);
      SendSlotOk(w, sid, typ, sid, t);
      OtherEntrySlotOk(s', t, st.slots[t], st.log, st'.log[|st.log|]);
    }
  }

  lemma SendOtherStreamOk(w: World, sid: StreamId, typ: TypeUrl, sid2: StreamId)
    requires Inv(w) && sid in w.streams && CanSend(w.cache, w.streams[sid], typ) && sid2 in w.streams && sid2 != sid
    ensures StreamOk(CacheAfterSend(w.cache, w.streams[sid], typ), w.streams[sid2])
  {
    var st := w.streams[sid2];
    forall t | t in st.slots
      ensures SlotOk(CacheAfterSend(w.cache, w.streams[sid], typ), t, st.slots[t], st.log)
    {
      assert HasSlot(w, sid2, t);
      SendSlotOk(w, sid, typ, sid2, t);
    }
  }

  lemma SendKeepsHolds(w: World, sid: StreamId, typ: TypeUrl, w': World)
    requires SlotsApart(w) && Owned(w) && Next(w, Send(sid, typ), w')
    ensures SlotsApart(w') && Owned(w')
  {
    SameHolds(w, w');
  }

  lemma SendKeepsInv(w: World, sid: StreamId, typ: TypeUrl, w': World)
    requires Inv(w) && Next(w, Send(sid, typ), w')
    ensures Inv(w')
  {
    Cache.NextKeepsInv(w.cache, Cache.ReceiveEvent(w.streams[sid].slots[typ].chan.value), w'.cache);
    SendKeepsHolds(w, sid, typ, w');
    forall sid2 | sid2 in w'.streams
      ensures StreamOk(w'.cache, w'.streams[sid2])
    {
      if sid2 == sid {
        SendStreamOk(w, sid, typ);
      } else {
        SendOtherStreamOk(w, sid, typ, sid2);
      }
    }
  }

  // ---------- opening and ending a stream ----------

  lemma NewStreamOk(s: Cache.State, types: seq<TypeUrl>, defaultType: TypeUrl)
    requires Distinct(types)
    ensures StreamOk(s, NewStream(types, defaultType))
  {}

  lemma OpenKeepsInv(w: World, sid: StreamId, types: seq<TypeUrl>, defaultType: TypeUrl, w': World)
    requires Inv(w) && Next(w, Open(sid, types, defaultType), w')
    ensures Inv(w')
  {
    NewStreamOk(w.cache, types, defaultType);
    OpenKeepsHolds(w, sid, types, defaultType, w');
  }

  lemma OpenKeepsHolds(w: World, sid: StreamId, types: seq<TypeUrl>, defaultType: TypeUrl, w': World)
    requires SlotsApart(w) && Owned(w) && Next(w, Open(sid, types, defaultType), w')
    ensures SlotsApart(w') && Owned(w')
  {
    forall s1, t1, s2, t2 | HasSlot(w', s1, t1) && HasSlot(w', s2, t2) && Clash(SlotOf(w', s1, t1), SlotOf(w', s2, t2))
      ensures s1 == s2 && t1 == t2
    {
      assert HasSlot(w, s1, t1) && HasSlot(w, s2, t2) && Clash(SlotOf(w, s1, t1), SlotOf(w, s2, t2));
    }
    forall n, id | Cache.IsOpen(w.cache, n, id)
      ensures exists s2, typ :: Owns(w', s2, typ, n, id)
    {
      var s2, typ :| Owns(w, s2, typ, n, id);
      assert Owns(w', s2, typ, n, id);
    }
  }

  lemma ShedStreamOk(w: World, sid: StreamId)
    requires Inv(w) && sid in w.streams && CanCancelNext(w.streams[sid])
    ensures var st := w.streams[sid]; StreamOk(Cache.DoCancel(w.cache, st.slots[st.types[0]].cancel), Shed(st))
  {
    var st := w.streams[sid];
    var typ := st.types[0];
    assert StreamOk(w.cache, st);
    forall t | t in Shed(st).slots
      ensures SlotOk(Cache.DoCancel(w.cache, st.slots[typ].cancel), t, st.slots[t], st.log)
    {
      assert HasSlot(w, sid, t) && HasSlot(w, sid, typ);
      CancelTouchesNoOther(w, sid, typ, sid, t);
      UntouchedSlotOk(w.cache, Cache.DoCancel(w.cache, st.slots[typ].cancel), t, st.slots[t], st.log);
    }
    hide SlotOk, FlowControlled, SerialsGrow, Echoed, Inv;
  }

  /** One cancel function of a stream that has left its loop. */
  lemma CancelNextKeepsInv(w: World, sid: StreamId, w': World)
    requires Inv(w) && Next(w, CancelNext(sid), w')
    ensures Inv(w')
  {
    hide Inv, StreamOk, Cache.DoCancel;
    var typ := w.streams[sid].types[0];
    assert HasSlot(w, sid, typ);
    ShedStreamOk(w, sid);
    GiveUpKeepsInv(w, sid, typ, Shed(w.streams[sid]));
  }

  lemma LeaveStreamOk(s: Cache.State, st: Stream)
    requires StreamOk(s, st) && st.phase.Idle?
    ensures StreamOk(s, st.(phase := Ending))
  {
    hide SlotOk, FlowControlled, SerialsGrow, Echoed;
  }

  lemma LeaveKeepsInv(w: World, sid: StreamId, w': World)
    requires Inv(w) && Next(w, Leave(sid), w')
    ensures Inv(w')
  {
    LeaveStreamOk(w.cache, w.streams[sid]);
    hide StreamOk, Cache.Inv;
    SameHolds(w, w');
  }

  lemma CloseKeepsInv(w: World, sid: StreamId, w': World)
    requires Inv(w) && Next(w, Close(sid), w')
    ensures Inv(w')
  {
    assert StreamOk(w.cache, w.streams[sid]);
    assert w.streams[sid].slots.Keys == {};
    hide StreamOk, Cache.Inv;
    SameHolds(w, w');
  }

  lemma NextKeepsInv(w: World, e: Event, w': World)
    requires Inv(w) && Next(w, e, w')
    ensures Inv(w')
  {
    hide Inv, Next;
    match e
    case SetSnapshot(node, snap) => SetSnapshotKeepsInv(w, node, snap, w');
    case ClearSnapshot(node) => ClearSnapshotKeepsInv(w, node, w');
    case Open(sid, types, defaultType) => OpenKeepsInv(w, sid, types, defaultType, w');
    case Arrive(sid, d) => ArriveKeepsInv(w, sid, d, w');
    case CancelSlot(sid) => CancelKeepsInv(w, sid, w');
    case FillSlot(sid) => FillKeepsInv(w, sid, w');
    case Send(sid, typ) => SendKeepsInv(w, sid, typ, w');
    case Leave(sid) => LeaveKeepsInv(w, sid, w');
    case CancelNext(sid) => CancelNextKeepsInv(w, sid, w');
    case Close(sid) => CloseKeepsInv(w, sid, w');
  }
}
