/** When a slot that waits for nothing but a new snapshot really has a watch open. */
module StreamQuiet {
  import opened Basics
  import opened Xds
  import opened StreamModel
  import opened StreamProofs
  import opened StreamTheorems
  import Cache = CacheModel

  // ---------- paths ----------

  ghost predicate StepOrStay(w: World, e: Option<Event>, w': World) {
    if e.None? then w' == w else Next(w, e.value, w')
  }

  /** A stretch of a run, in which other things may happen than steps of streams and cache. */
  ghost predicate IsPath(worlds: seq<World>, events: seq<Option<Event>>) {
    && |worlds| == |events| + 1 && Inv(worlds[0])
    && forall k {:trigger events[k]} :: 0 <= k < |events| ==> StepOrStay(worlds[k], events[k], worlds[k + 1])
  }

  lemma {:induction false} PathKeepsInv(worlds: seq<World>, events: seq<Option<Event>>, k: nat)
    requires IsPath(worlds, events) && k < |worlds|
    ensures Inv(worlds[k])
  {
    if k > 0 {
      hide Inv, Next;
      PathKeepsInv(worlds, events, k - 1);
      assert StepOrStay(worlds[k - 1], events[k - 1], worlds[k]);
      if events[k - 1].Some? {
        NextKeepsInv(worlds[k - 1], events[k - 1].value, worlds[k]);
      }
    }
  }

  // ---------- what may happen to a waiting slot ----------

  /** The slot holds the channel, the cancel function and the request it was filled with. */
  predicate SlotIs(w: World, sid: StreamId, typ: TypeUrl, c: ChanId, cancel: Cancel, r: Request) {
    && HasSlot(w, sid, typ)
    && SlotOf(w, sid, typ).chan == Some(c) && SlotOf(w, sid, typ).cancel == cancel && SlotOf(w, sid, typ).request == Some(r)
  }

  lemma SlotKeptByFill(w: World, sid2: StreamId, w': World, sid: StreamId, typ: TypeUrl)
    requires Inv(w) && Next(w, FillSlot(sid2), w') && HasSlot(w, sid, typ) && SlotOf(w, sid, typ).chan.Some?
    ensures HasSlot(w', sid, typ) && SlotOf(w', sid, typ) == SlotOf(w, sid, typ)
  {
    CancelledSlotHoldsNothing(w, sid2);
    FillsOne(w.cache, w.streams[sid2]);
    hide Inv, CacheAfterFill, AfterFill;
  }

  lemma SlotKept(w: World, e: Event, w': World, sid: StreamId, typ: TypeUrl, c: ChanId, cancel: Cancel, r: Request)
    requires Inv(w) && Next(w, e, w') && SlotIs(w, sid, typ, c, cancel, r) && !GivesUp(w, e, sid, typ)
    ensures SlotIs(w', sid, typ, c, cancel, r)
  {
    hide Inv;
    if e.Close? {
      NothingLeftToCancel(w, e.sid);
    } else {
      hide Next, GivesUp;
      if e.FillSlot? {
        SlotKeptByFill(w, e.sid, w', sid, typ);
      } else {
        SlotStays(w, e, w', sid, typ);
      }
    }
  }

  /** Sends are counted, so a channel on which something was sent stays such a channel. */
  lemma SentStays(w: World, e: Event, w': World, c: ChanId)
    requires Inv(w) && Next(w, e, w') && c in w.cache.chans
    ensures c in w'.cache.chans && w.cache.chans[c].sent <= w'.cache.chans[c].sent
  {
    assert Cache.Inv(w.cache);
    hide Inv;
    match e
    case SetSnapshot(node, snap) =>
      if w'.cache.chans[c] != w.cache.chans[c] {
        var id :| Cache.Triggers(w.cache.ads, Cache.WatchesOf(w.cache, node), snap, id) && Cache.WatchesOf(w.cache, node)[id].chan == c;
      }
    case CancelSlot(sid) => Cache.DoCancelEffect(w.cache, w.streams[sid].slots[w.streams[sid].phase.request.typeUrl].cancel);
    case FillSlot(sid) => FillEffect(w.cache, w.streams[sid]);
    case CancelNext(sid) => Cache.DoCancelEffect(w.cache, w.streams[sid].slots[w.streams[sid].types[0]].cancel);
    case _ =>
  }

  /** The event takes the watch for the request away: its node is cleared, or has another version now. */
  predicate Removes(e: Event, r: Request) {
    || e == ClearSnapshot(r.node)
    || (e.SetSnapshot? && e.node == r.node && e.snap.GetVersion(r.typeUrl) != r.version)
  }

  /** It does so and no answer is sent: the node is cleared, or in ADS mode the request names resources
      but not all that the snapshot has. */
  predicate Loses(ads: bool, e: Event, r: Request) {
    Removes(e, r) && (e.SetSnapshot? ==> Cache.Declines(ads, r, e.snap.GetResources(r.typeUrl)))
  }

  lemma WatchIsFor(w: World, sid: StreamId, typ: TypeUrl, c: ChanId, id: WatchId, r: Request)
    requires Inv(w) && SlotIs(w, sid, typ, c, CancelWatch(r.node, id), r) && Cache.IsOpen(w.cache, r.node, id)
    ensures Cache.WatchAt(w.cache, r.node, id) == Watch(r, c) && Cache.Inv(w.cache)
    ensures r.typeUrl == typ && c in w.cache.chans && w.cache.chans[c] == NEW_CHAN
  {
    assert SlotOk(w.cache, typ, SlotOf(w, sid, typ), w.streams[sid].log);
    assert Cache.WatchOk(w.cache, r.node, id);
  }

  lemma CacheEventAndWatch(s: Cache.State, e: Event, s': Cache.State, id: WatchId, r: Request)
    requires Cache.IsOpen(s, r.node, id) && Cache.WatchAt(s, r.node, id).request == r
    requires if e.SetSnapshot? then Cache.SetSnapshot(s, e.node, e.snap, s') else e.ClearSnapshot? && s' == Cache.ClearSnapshot(s, e.node)
    ensures Cache.IsOpen(s', r.node, id) <==> !Removes(e, r)
  {
    hide Cache.Answered;
  }

  /** An event that is neither the slot's own nor of that kind leaves the watch open. */
  lemma WatchStays(w: World, e: Event, w': World, sid: StreamId, typ: TypeUrl, c: ChanId, id: WatchId, r: Request)
    requires Inv(w) && Next(w, e, w') && SlotIs(w, sid, typ, c, CancelWatch(r.node, id), r) && !GivesUp(w, e, sid, typ)
    requires Cache.IsOpen(w.cache, r.node, id)
    ensures Cache.IsOpen(w'.cache, r.node, id) <==> !Removes(e, r)
  {
    hide Inv, Cache.SetSnapshot, Cache.ClearSnapshot, Cache.DoCancel, CacheAfterFill, Cache.IsOpen;
    WatchIsFor(w, sid, typ, c, id, r);
    match e
    case CancelSlot(sid2) => OthersCancel(w, sid, typ, sid2, w.streams[sid2].phase.request.typeUrl, r.node, id);
    case CancelNext(sid2) => OthersCancel(w, sid, typ, sid2, w.streams[sid2].types[0], r.node, id);
    case FillSlot(sid2) => FillEffect(w.cache, w.streams[sid2]);
    case SetSnapshot(_, _) => CacheEventAndWatch(w.cache, e, w'.cache, id, r);
    case ClearSnapshot(_) => CacheEventAndWatch(w.cache, e, w'.cache, id, r);
    case Send(sid2, typ2) => SendKeepsOpen(w.cache, w.streams[sid2], typ2, r.node, id);
    case _ =>
  }

  lemma SendKeepsOpen(s: Cache.State, st: Stream, typ: TypeUrl, node: NodeId, id: WatchId)
    requires CanSend(s, st, typ)
    ensures Cache.IsOpen(CacheAfterSend(s, st, typ), node, id) <==> Cache.IsOpen(s, node, id)
  {}

  lemma OthersCancel(w: World, sid: StreamId, typ: TypeUrl, sid2: StreamId, typ2: TypeUrl, node: NodeId, id: WatchId)
    requires Inv(w) && Owns(w, sid, typ, node, id) && HasSlot(w, sid2, typ2) && (sid2 != sid || typ2 != typ) && Cache.IsOpen(w.cache, node, id)
    ensures Cache.IsOpen(Cache.DoCancel(w.cache, SlotOf(w, sid2, typ2).cancel), node, id)
  {
    Cache.DoCancelEffect(w.cache, SlotOf(w, sid2, typ2).cancel);
    assert !Clash(SlotOf(w, sid, typ), SlotOf(w, sid2, typ2));
  }

  /** A watch that is taken away with an answer leaves that answer on its channel. */
  lemma AnswerIsSent(w: World, e: Event, w': World, sid: StreamId, typ: TypeUrl, c: ChanId, id: WatchId, r: Request)
    requires Inv(w) && Next(w, e, w') && SlotIs(w, sid, typ, c, CancelWatch(r.node, id), r)
    requires Cache.IsOpen(w.cache, r.node, id) && Removes(e, r) && !Loses(w.cache.ads, e, r)
    ensures c in w'.cache.chans && w'.cache.chans[c].sent == 1
  {
    WatchIsFor(w, sid, typ, c, id, r);
    assert Cache.Triggers(w.cache.ads, Cache.WatchesOf(w.cache, r.node), e.snap, id);
    hide Inv, Cache.Inv;
  }

  // ---------- from the moment the slot is filled ----------

  /** Slot `typ` of stream `sid` is filled at step `j` and not given up before moment `i`. */
  ghost predicate FilledAt(worlds: seq<World>, events: seq<Option<Event>>, j: nat, i: nat, sid: StreamId, typ: TypeUrl)
    requires |worlds| == |events| + 1
  {
    && j < i < |worlds|
    && events[j] == Some(FillSlot(sid)) && sid in worlds[j].streams && CanFillSlot(worlds[j].streams[sid])
    && worlds[j].streams[sid].phase.request.typeUrl == typ
    && forall k {:trigger events[k]} :: j < k < i && events[k].Some? ==> !GivesUp(worlds[k], events[k].value, sid, typ)
  }

  ghost predicate FilledSince(worlds: seq<World>, events: seq<Option<Event>>, j: nat, i: nat, sid: StreamId, typ: TypeUrl) {
    IsPath(worlds, events) && FilledAt(worlds, events, j, i, sid, typ)
  }

  lemma {:induction false} StaysFilled(worlds: seq<World>, events: seq<Option<Event>>, j: nat, i: nat, k: nat, sid: StreamId, typ: TypeUrl)
    requires FilledSince(worlds, events, j, i, sid, typ) && j < k <= i
    ensures var st := worlds[j].streams[sid];
            var slot := AfterFill(worlds[j].cache, st).slots[typ];
            SlotIs(worlds[k], sid, typ, worlds[j].cache.nextChan, slot.cancel, st.phase.request)
    decreases k
  {
    assert StepOrStay(worlds[k - 1], events[k - 1], worlds[k]);
    if k > j + 1 {
      StaysFilled(worlds, events, j, i, k - 1, sid, typ);
      PathKeepsInv(worlds, events, k - 1);
      var st := worlds[j].streams[sid];
      var cancel := AfterFill(worlds[j].cache, st).slots[typ].cancel;
      hide Inv, Next, IsPath, AfterFill, SlotIs;
      if events[k - 1].Some? {
        SlotKept(worlds[k - 1], events[k - 1].value, worlds[k], sid, typ, worlds[j].cache.nextChan, cancel, st.phase.request);
      }
    }
  }

  /** Something was sent on the channel at moment `k`. */
  predicate HasSent(w: World, c: ChanId) {
    c in w.cache.chans && w.cache.chans[c].sent > 0
  }

  lemma {:induction false} SentForGood(worlds: seq<World>, events: seq<Option<Event>>, k: nat, i: nat, c: ChanId)
    requires IsPath(worlds, events) && k <= i < |worlds| && HasSent(worlds[k], c)
    ensures HasSent(worlds[i], c)
    decreases i
  {
    if k < i {
      SentForGood(worlds, events, k, i - 1, c);
      PathKeepsInv(worlds, events, i - 1);
      assert StepOrStay(worlds[i - 1], events[i - 1], worlds[i]);
      hide Inv, Next, IsPath;
      if events[i - 1].Some? {
        SentStays(worlds[i - 1], events[i - 1].value, worlds[i], c);
      }
    }
  }

  lemma {:induction false} GoneForGood(worlds: seq<World>, events: seq<Option<Event>>, k: nat, i: nat, node: NodeId, id: WatchId)
    requires IsPath(worlds, events) && k <= i < |worlds| && id <= worlds[k].cache.watchCount && !Cache.IsOpen(worlds[k].cache, node, id)
    ensures !Cache.IsOpen(worlds[i].cache, node, id) && id <= worlds[i].cache.watchCount
    decreases i
  {
    if k < i {
      hide Inv, Next, Cache.IsOpen;
      GoneForGood(worlds, events, k, i - 1, node, id);
      PathKeepsInv(worlds, events, i - 1);
      assert StepOrStay(worlds[i - 1], events[i - 1], worlds[i]);
      if events[i - 1].Some? {
        ClosedStaysClosed(worlds[i - 1], events[i - 1].value, worlds[i], node, id);
      }
    }
  }

  // ---------- the theorem ----------

  /** The slot waits: its stream is idle and nothing has come on its channel. Then the latest response
      of the type, if any, has been echoed. */
  predicate Waits(w: World, sid: StreamId, typ: TypeUrl) {
    && HasSlot(w, sid, typ) && w.streams[sid].phase.Idle?
    && SlotOf(w, sid, typ).chan.Some? && SlotOf(w, sid, typ).chan.value in w.cache.chans
    && w.cache.chans[SlotOf(w, sid, typ).chan.value].sent == 0
  }

  /** A watch is open for it. */
  predicate Watched(w: World, sid: StreamId, typ: TypeUrl) {
    && HasSlot(w, sid, typ)
    && var cancel := SlotOf(w, sid, typ).cancel; cancel.CancelWatch? && Cache.IsOpen(w.cache, cancel.node, cancel.id)
  }

  /** The call that fills the slot neither answers the request nor leaves a watch: the client lacks the
      current version, and in ADS mode has named resources but not all that there are. */
  predicate DeclinedAt(w: World, r: Request) {
    !Cache.MustWait(w.cache, r) && Cache.Declines(w.cache.ads, r, w.cache.snapshots[r.node].GetResources(r.typeUrl))
  }

  /** Some event between steps `j` and `i` takes the watch for the request away without an answer. */
  ghost predicate LostBetween(worlds: seq<World>, events: seq<Option<Event>>, j: nat, i: nat, r: Request)
    requires |worlds| == |events| + 1 && i <= |events|
  {
    exists k :: j < k < i && events[k].Some? && Loses(worlds[k].cache.ads, events[k].value, r)
  }

  /** What filling the slot leaves: an open watch, an answer, or nothing. */
  lemma FilledMoment(worlds: seq<World>, events: seq<Option<Event>>, j: nat, i: nat, sid: StreamId, typ: TypeUrl)
    requires FilledSince(worlds, events, j, i, sid, typ)
    ensures var w, w', st := worlds[j], worlds[j + 1], worlds[j].streams[sid];
            var r, c := st.phase.request, w.cache.nextChan;
            if st.phase.warm.Some? || (!Cache.MustWait(w.cache, r) && !DeclinedAt(w, r)) then HasSent(w', c)
            else if Cache.MustWait(w.cache, r) then
              SlotIs(w', sid, typ, c, CancelWatch(r.node, w'.cache.watchCount), r) && Cache.IsOpen(w'.cache, r.node, w'.cache.watchCount)
            else SlotIs(w', sid, typ, c, NoCancel, r)
  {
    PathKeepsInv(worlds, events, j);
    assert Next(worlds[j], FillSlot(sid), worlds[j + 1]) by {
      assert StepOrStay(worlds[j], events[j], worlds[j + 1]);
    }
    hide Inv, IsPath;
  }

  /** What is known of one step while the slot stays filled. */
  lemma StepWhileFilled(worlds: seq<World>, events: seq<Option<Event>>, j: nat, i: nat, k: nat, sid: StreamId, typ: TypeUrl, cancel: Cancel)
    requires FilledSince(worlds, events, j, i, sid, typ) && j < k < i
    requires SlotIs(worlds[j + 1], sid, typ, worlds[j].cache.nextChan, cancel, worlds[j].streams[sid].phase.request)
    ensures Inv(worlds[k]) && StepOrStay(worlds[k], events[k], worlds[k + 1])
    ensures SlotIs(worlds[k], sid, typ, worlds[j].cache.nextChan, cancel, worlds[j].streams[sid].phase.request)
    ensures events[k].Some? ==> !GivesUp(worlds[k], events[k].value, sid, typ)
  {
    PathKeepsInv(worlds, events, k);
    StaysFilled(worlds, events, j, i, j + 1, sid, typ);
    StaysFilled(worlds, events, j, i, k, sid, typ);
    hide Inv, Next, AfterFill, GivesUp;
  }

  lemma OpenOrAnsweredStep(w: World, e: Event, w': World, sid: StreamId, typ: TypeUrl, c: ChanId, id: WatchId, r: Request)
    requires Inv(w) && Next(w, e, w') && SlotIs(w, sid, typ, c, CancelWatch(r.node, id), r)
    requires !GivesUp(w, e, sid, typ) && !Loses(w.cache.ads, e, r) && (Cache.IsOpen(w.cache, r.node, id) || HasSent(w, c))
    ensures Cache.IsOpen(w'.cache, r.node, id) || HasSent(w', c)
  {
    hide Inv, Next, GivesUp, Loses, Removes, Cache.IsOpen;
    if HasSent(w, c) {
      SentStays(w, e, w', c);
    } else if Removes(e, r) {
      AnswerIsSent(w, e, w', sid, typ, c, id, r);
    } else {
      WatchStays(w, e, w', sid, typ, c, id, r);
    }
  }

  lemma NotLostAt(worlds: seq<World>, events: seq<Option<Event>>, j: nat, i: nat, k: nat, r: Request)
    requires |worlds| == |events| + 1 && i <= |events| && j < k < i && !LostBetween(worlds, events, j, i, r)
    ensures events[k].Some? ==> !Loses(worlds[k].cache.ads, events[k].value, r)
  {}

  /** A watch with this id is open once the slot is filled, and is not taken away silently. */
  ghost predicate OpenedAt(worlds: seq<World>, events: seq<Option<Event>>, j: nat, i: nat, sid: StreamId, typ: TypeUrl, id: WatchId) {
    && FilledSince(worlds, events, j, i, sid, typ)
    && var r := worlds[j].streams[sid].phase.request;
    && SlotIs(worlds[j + 1], sid, typ, worlds[j].cache.nextChan, CancelWatch(r.node, id), r)
    && Cache.IsOpen(worlds[j + 1].cache, r.node, id) && !LostBetween(worlds, events, j, i, r)
  }

  ghost predicate IsOpenOrAnswered(w: World, node: NodeId, id: WatchId, c: ChanId) {
    Cache.IsOpen(w.cache, node, id) || HasSent(w, c)
  }

  lemma OpenedIsOpen(worlds: seq<World>, events: seq<Option<Event>>, j: nat, i: nat, sid: StreamId, typ: TypeUrl, id: WatchId, r: Request)
    requires OpenedAt(worlds, events, j, i, sid, typ, id) && j < i < |worlds| && sid in worlds[j].streams
    requires CanFillSlot(worlds[j].streams[sid]) && r == worlds[j].streams[sid].phase.request
    ensures IsOpenOrAnswered(worlds[j + 1], r.node, id, worlds[j].cache.nextChan)
  {
    hide FilledSince, LostBetween;
  }

  lemma OpenedStep(worlds: seq<World>, events: seq<Option<Event>>, j: nat, i: nat, k: nat, sid: StreamId, typ: TypeUrl, id: WatchId, r: Request)
    requires OpenedAt(worlds, events, j, i, sid, typ, id) && j < k < i && i < |worlds| && sid in worlds[j].streams
    requires CanFillSlot(worlds[j].streams[sid]) && r == worlds[j].streams[sid].phase.request
    requires IsOpenOrAnswered(worlds[k], r.node, id, worlds[j].cache.nextChan)
    ensures IsOpenOrAnswered(worlds[k + 1], r.node, id, worlds[j].cache.nextChan)
  {
    NotLostAt(worlds, events, j, i, k, r);
    StepWhileFilled(worlds, events, j, i, k, sid, typ, CancelWatch(r.node, id));
    hide OpenedAt, FilledSince, Inv, Next, SlotIs, HasSent, Cache.IsOpen, Loses, GivesUp, LostBetween;
    if events[k].Some? {
      OpenOrAnsweredStep(worlds[k], events[k].value, worlds[k + 1], sid, typ, worlds[j].cache.nextChan, id, r);
    }
  }

  /** As long as nothing takes the watch away silently, it is open or its answer is on the channel. */
  lemma {:induction false} OpenOrAnswered(worlds: seq<World>, events: seq<Option<Event>>, j: nat, i: nat, k: nat, sid: StreamId, typ: TypeUrl, id: WatchId, r: Request)
    requires OpenedAt(worlds, events, j, i, sid, typ, id) && j < k <= i < |worlds| && sid in worlds[j].streams
    requires CanFillSlot(worlds[j].streams[sid]) && r == worlds[j].streams[sid].phase.request
    ensures IsOpenOrAnswered(worlds[k], r.node, id, worlds[j].cache.nextChan)
    decreases k
  {
    hide *;
    if k == j + 1 {
      OpenedIsOpen(worlds, events, j, i, sid, typ, id, r);
    } else {
      OpenOrAnswered(worlds, events, j, i, k - 1, sid, typ, id, r);
      OpenedStep(worlds, events, j, i, k - 1, sid, typ, id, r);
    }
  }

  lemma RemovedIsGone(w: World, e: Event, w': World, sid: StreamId, typ: TypeUrl, c: ChanId, id: WatchId, r: Request)
    requires Inv(w) && Next(w, e, w') && SlotIs(w, sid, typ, c, CancelWatch(r.node, id), r)
    requires !GivesUp(w, e, sid, typ) && Removes(e, r)
    ensures !Cache.IsOpen(w'.cache, r.node, id) && id <= w'.cache.watchCount
  {
    hide Inv, Next, GivesUp, Removes, Cache.IsOpen;
    OwnedIdIsOld(w, sid, typ, r.node, id);
    ClosedStaysClosed(w, e, w', r.node, id);
    if Cache.IsOpen(w.cache, r.node, id) {
      WatchStays(w, e, w', sid, typ, c, id, r);
    }
  }

  /** A watch that is open at moment `i` was not taken away before. */
  lemma OpenMeansNotLost(worlds: seq<World>, events: seq<Option<Event>>, j: nat, i: nat, k: nat, sid: StreamId, typ: TypeUrl, id: WatchId)
    requires FilledSince(worlds, events, j, i, sid, typ) && j < k < i && events[k].Some?
    requires var r := worlds[j].streams[sid].phase.request;
             && SlotIs(worlds[j + 1], sid, typ, worlds[j].cache.nextChan, CancelWatch(r.node, id), r)
             && Cache.IsOpen(worlds[i].cache, r.node, id)
    ensures !Removes(events[k].value, worlds[j].streams[sid].phase.request)
  {
    var r, c := worlds[j].streams[sid].phase.request, worlds[j].cache.nextChan;
    assert IsPath(worlds, events);
    hide FilledSince, IsPath, Inv, Next, SlotIs, Cache.IsOpen, GivesUp, Removes;
    StepWhileFilled(worlds, events, j, i, k, sid, typ, CancelWatch(r.node, id));
    if Removes(events[k].value, r) {
      RemovedIsGone(worlds[k], events[k].value, worlds[k + 1], sid, typ, c, id, r);
      GoneForGood(worlds, events, k + 1, i, r.node, id);
    }
  }

  /** A slot that waits has a watch open if and only if the call that filled it did not decline the
      request and no event since then took the watch away without an answer. */
  lemma WaitingIsWatched(worlds: seq<World>, events: seq<Option<Event>>, j: nat, i: nat, sid: StreamId, typ: TypeUrl)
    requires FilledSince(worlds, events, j, i, sid, typ) && Waits(worlds[i], sid, typ)
    ensures var r := worlds[j].streams[sid].phase.request;
            && SlotOf(worlds[i], sid, typ).request == Some(r)
            && (Watched(worlds[i], sid, typ) <==> !DeclinedAt(worlds[j], r) && !LostBetween(worlds, events, j, i, r))
  {
    var r, c, id := worlds[j].streams[sid].phase.request, worlds[j].cache.nextChan, worlds[j + 1].cache.watchCount;
    StaysFilled(worlds, events, j, i, i, sid, typ);
    StaysFilled(worlds, events, j, i, j + 1, sid, typ);
    FilledMoment(worlds, events, j, i, sid, typ);
    assert IsPath(worlds, events) && !HasSent(worlds[i], c);
    assert i < |worlds| && sid in worlds[j].streams && CanFillSlot(worlds[j].streams[sid]);
    hide Inv, IsPath, FilledSince, AfterFill, Cache.MustWait, Cache.Declines;
    if HasSent(worlds[j + 1], c) {
      SentForGood(worlds, events, j + 1, i, c);
    }
    if Cache.MustWait(worlds[j].cache, r) {
      if !LostBetween(worlds, events, j, i, r) {
        assert OpenedAt(worlds, events, j, i, sid, typ, id);
        OpenOrAnswered(worlds, events, j, i, i, sid, typ, id, r);
      } else if Cache.IsOpen(worlds[i].cache, r.node, id) {
        var k :| j < k < i && events[k].Some? && Loses(worlds[k].cache.ads, events[k].value, r);
        OpenMeansNotLost(worlds, events, j, i, k, sid, typ, id);
      }
    }
  }
}
