/** The guarantees of the streaming server, over whole runs. */
module StreamTheorems {
  import opened Basics
  import opened Xds
  import opened StreamLog
  import opened StreamModel
  import opened StreamProofs
  import Cache = CacheModel

  /** A run: any interleaving of snapshots set and cleared, streams opened and ended, requests from
      arbitrary clients, and responses sent, starting from an empty cache without streams. A request
      takes up to three steps and the end of a stream one per slot, so other goroutines may call the
      cache in between. */
  ghost predicate IsRun(worlds: seq<World>, events: seq<Event>) {
    && |worlds| == |events| + 1
    && worlds[0] == World(Cache.Init(worlds[0].cache.ads), map[])
    && forall i {:trigger events[i]} :: 0 <= i < |events| ==> Next(worlds[i], events[i], worlds[i + 1])
  }

  lemma {:induction false} RunKeepsInv(worlds: seq<World>, events: seq<Event>, i: nat)
    requires IsRun(worlds, events) && i < |worlds|
    ensures Inv(worlds[i])
  {
    if i > 0 {
      hide Inv, Next;
      RunKeepsInv(worlds, events, i - 1);
      NextKeepsInv(worlds[i - 1], events[i - 1], worlds[i]);
    }
  }

  /** Nonce flow control. On every stream nonces strictly increase, and between two consecutive
      responses of one type lies a request of that type, acted on, that echoed the earlier nonce. */
  lemma NonceFlowControl(worlds: seq<World>, events: seq<Event>, i: nat, sid: StreamId)
    requires IsRun(worlds, events) && i < |worlds| && sid in worlds[i].streams
    ensures var log := worlds[i].streams[sid].log;
            && FlowControlled(log)
            && (forall a, b :: 0 <= a < b < |log| && log[a].Sent? && log[b].Sent? ==>
                  log[a].serial < log[b].serial && NonceOf(log[a].serial) != NonceOf(log[b].serial))
  {
    RunKeepsInv(worlds, events, i);
    var st := worlds[i].streams[sid];
    assert StreamOk(worlds[i].cache, st);
    forall a, b | 0 <= a < b < |st.log| && st.log[a].Sent? && st.log[b].Sent?
      ensures st.log[a].serial < st.log[b].serial && NonceOf(st.log[a].serial) != NonceOf(st.log[b].serial)
    {
      NoncesAreDistinct(st.log, st.streamNonce, a, b);
    }
  }

  lemma LogGrows(w: World, e: Event, w': World, sid: StreamId)
    requires Next(w, e, w') && sid in w.streams && sid in w'.streams
    ensures w.streams[sid].log <= w'.streams[sid].log
    ensures |w'.streams[sid].log| <= |w.streams[sid].log| + 1
  {
    hide Cache.SetSnapshot, Cache.DoCancel, CacheAfterSend, CacheAfterFill, Warming;
  }

  /** The log of a stream is the history it claims to be: over any stretch of a run in which the stream
      lives, what it has is kept and at most one entry per step is added. */
  lemma {:induction false} LogOnlyGrows(worlds: seq<World>, events: seq<Event>, i: nat, j: nat, sid: StreamId)
    requires IsRun(worlds, events) && i <= j < |worlds| && forall k :: i <= k <= j ==> sid in worlds[k].streams
    ensures worlds[i].streams[sid].log <= worlds[j].streams[sid].log
    ensures |worlds[j].streams[sid].log| <= |worlds[i].streams[sid].log| + (j - i)
    decreases j
  {
    if i < j {
      hide Next;
      LogOnlyGrows(worlds, events, i, j - 1, sid);
      assert Next(worlds[j - 1], events[j - 1], worlds[j]);
      LogGrows(worlds[j - 1], events[j - 1], worlds[j], sid);
    }
  }

  /** A request that does not echo the current nonce of its type changes no watch state. */
  lemma StaleNonceChangesNoWatch(w: World, sid: StreamId, d: DiscoveryRequest, w': World)
    requires Inv(w) && Next(w, Arrive(sid, d), w') && !Rejected(w.streams[sid], d)
    requires var typ := Resolve(w.streams[sid], d).typeUrl;
             typ in w.streams[sid].slots ==> LastSent(w.streams[sid].log, typ) >= 0 && d.nonce != LastNonce(w.streams[sid].log, typ)
    ensures w'.cache == w.cache && w'.streams.Keys == w.streams.Keys
    ensures forall s2 :: s2 in w.streams ==>
              && w'.streams[s2].slots == w.streams[s2].slots && w'.streams[s2].phase == w.streams[s2].phase
              && w'.streams[s2].streamNonce == w.streams[s2].streamNonce
              && w'.streams[s2].endpointNonceAcked == w.streams[s2].endpointNonceAcked
  {
    var st := w.streams[sid];
    var request := Resolve(st, d);
    if request.typeUrl in st.slots {
      assert SlotOk(w.cache, request.typeUrl, st.slots[request.typeUrl], st.log);
    }
  }

  /** Stream watch ownership: every open watch belongs to exactly one slot of exactly one live
      stream. It is for that slot's type, answers on that slot's channel, and is what the slot's
      cancel function cancels, so no slot ever has two. */
  lemma EveryWatchHasOneOwner(worlds: seq<World>, events: seq<Event>, i: nat, node: NodeId, id: WatchId)
      returns (sid: StreamId, typ: TypeUrl)
    requires IsRun(worlds, events) && i < |worlds| && Cache.IsOpen(worlds[i].cache, node, id)
    ensures HasSlot(worlds[i], sid, typ)
    ensures var slot, w := SlotOf(worlds[i], sid, typ), Cache.WatchAt(worlds[i].cache, node, id);
            slot.cancel == CancelWatch(node, id) && slot.chan == Some(w.chan) && w.request.typeUrl == typ
    ensures forall s2, t2 :: HasSlot(worlds[i], s2, t2) ==>
              (SlotOf(worlds[i], s2, t2).chan == Some(Cache.WatchAt(worlds[i].cache, node, id).chan) <==> s2 == sid && t2 == typ)
  {
    RunKeepsInv(worlds, events, i);
    var w := worlds[i];
    sid, typ :| Owns(w, sid, typ, node, id);
    assert SlotOk(w.cache, typ, SlotOf(w, sid, typ), w.streams[sid].log);
    forall s2, t2 | HasSlot(w, s2, t2) && SlotOf(w, s2, t2).chan == SlotOf(w, sid, typ).chan
      ensures s2 == sid && t2 == typ
    {
      assert Clash(SlotOf(w, s2, t2), SlotOf(w, sid, typ));
    }
  }

  /** Slot `typ` of stream `sid` is given up in this step: because a request is going to fill it again,
      or because the stream has left its loop. */
  predicate GivesUp(w: World, e: Event, sid: StreamId, typ: TypeUrl) {
    sid in w.streams &&
    var st := w.streams[sid];
    || (e == CancelSlot(sid) && st.phase.Peeked? && typ == st.phase.request.typeUrl)
    || (e == CancelNext(sid) && st.types != [] && typ == st.types[0])
  }

  /** Giving up a slot removes exactly the watch that the slot holds. */
  lemma GivingUpRemovesOnlyItsOwn(w: World, e: Event, w': World, sid: StreamId, typ: TypeUrl, node: NodeId, id: WatchId)
    requires Next(w, e, w') && GivesUp(w, e, sid, typ)
    ensures Cache.IsOpen(w'.cache, node, id) <==> Cache.IsOpen(w.cache, node, id) && !Owns(w, sid, typ, node, id)
  {
    Cache.DoCancelEffect(w.cache, w.streams[sid].slots[typ].cancel);
    hide Cache.DoCancel;
  }

  /** A watch that is not open and whose id has been handed out is never opened again. */
  lemma ClosedStaysClosed(w: World, e: Event, w': World, node: NodeId, id: WatchId)
    requires Inv(w) && Next(w, e, w') && id <= w.cache.watchCount
    ensures w.cache.watchCount <= w'.cache.watchCount
    ensures Cache.IsOpen(w'.cache, node, id) ==> Cache.IsOpen(w.cache, node, id)
  {
    assert Cache.Inv(w.cache);
    hide Inv, Cache.Inv;
    match e
    case CancelSlot(sid) => Cache.DoCancelEffect(w.cache, w.streams[sid].slots[w.streams[sid].phase.request.typeUrl].cancel);
    case FillSlot(sid) => FillEffect(w.cache, w.streams[sid]);
    case CancelNext(sid) => Cache.DoCancelEffect(w.cache, w.streams[sid].slots[w.streams[sid].types[0]].cancel);
    case _ =>
  }

  lemma OwnedIdIsOld(w: World, sid: StreamId, typ: TypeUrl, node: NodeId, id: WatchId)
    requires Inv(w) && Owns(w, sid, typ, node, id)
    ensures id <= w.cache.watchCount
  {
    assert SlotOk(w.cache, typ, SlotOf(w, sid, typ), w.streams[sid].log);
  }

  lemma SlotStays(w: World, e: Event, w': World, sid: StreamId, typ: TypeUrl)
    requires Next(w, e, w') && HasSlot(w, sid, typ) && !GivesUp(w, e, sid, typ) && !e.FillSlot? && !e.Close?
    ensures HasSlot(w', sid, typ) && SlotOf(w', sid, typ).cancel == SlotOf(w, sid, typ).cancel
    ensures SlotOf(w', sid, typ).chan == SlotOf(w, sid, typ).chan && SlotOf(w', sid, typ).request == SlotOf(w, sid, typ).request
  {
    hide Cache.DoCancel, CacheAfterSend, Cache.SetSnapshot, Warming;
  }

  lemma NothingLeftToCancel(w: World, sid: StreamId)
    requires Inv(w) && sid in w.streams && w.streams[sid].types == []
    ensures w.streams[sid].slots.Keys == {}
  {
    assert StreamOk(w.cache, w.streams[sid]);
  }

  /** As long as a watch is open it stays with the slot that owns it. */
  lemma OwnerStays(w: World, e: Event, w': World, sid: StreamId, typ: TypeUrl, node: NodeId, id: WatchId)
    requires Inv(w) && Next(w, e, w') && Owns(w, sid, typ, node, id) && Cache.IsOpen(w'.cache, node, id)
    ensures Owns(w', sid, typ, node, id)
  {
    hide Inv;
    if e.FillSlot? {
      hide CacheAfterFill, AfterFill;
      OwnerStaysWhenFilled(w, e.sid, sid, typ, node, id);
    } else if e.Close? {
      NothingLeftToCancel(w, e.sid);
    } else {
      hide Next, GivesUp, Cache.IsOpen;
      if GivesUp(w, e, sid, typ) {
        GivingUpRemovesOnlyItsOwn(w, e, w', sid, typ, node, id);
      } else {
        SlotStays(w, e, w', sid, typ);
      }
    }
  }

  lemma {:induction false} OpenMeansOwned(worlds: seq<World>, events: seq<Event>, i: nat, j: nat, sid: StreamId, typ: TypeUrl, node: NodeId, id: WatchId)
    requires IsRun(worlds, events) && i <= j < |worlds| && Owns(worlds[i], sid, typ, node, id)
    ensures id <= worlds[j].cache.watchCount
    ensures Cache.IsOpen(worlds[j].cache, node, id) ==> Owns(worlds[j], sid, typ, node, id)
    decreases j
  {
    hide Inv, Next, Cache.IsOpen, Owns;
    if i == j {
      RunKeepsInv(worlds, events, i);
      OwnedIdIsOld(worlds[i], sid, typ, node, id);
    } else {
      OpenMeansOwned(worlds, events, i, j - 1, sid, typ, node, id);
      RunKeepsInv(worlds, events, j - 1);
      assert Next(worlds[j - 1], events[j - 1], worlds[j]);
      ClosedStaysClosed(worlds[j - 1], events[j - 1], worlds[j], node, id);
      if Cache.IsOpen(worlds[j].cache, node, id) {
        OwnerStays(worlds[j - 1], events[j - 1], worlds[j], sid, typ, node, id);
      }
    }
  }

  /** However `process` returns and whatever others do meanwhile: once a stream is gone, no watch that
      it ever owned is open, then or later. */
  lemma NoWatchOutlivesItsStream(worlds: seq<World>, events: seq<Event>, i: nat, j: nat, sid: StreamId, typ: TypeUrl, node: NodeId, id: WatchId)
    requires IsRun(worlds, events) && i <= j < |worlds| && Owns(worlds[i], sid, typ, node, id) && sid !in worlds[j].streams
    ensures !Cache.IsOpen(worlds[j].cache, node, id)
  {
    OpenMeansOwned(worlds, events, i, j, sid, typ, node, id);
  }

  /** Channels that a stream fills itself are closed at most once, and no stream ever selects on a
      closed channel: the "watch failed" exits of `process` are never taken. */
  lemma ClosedAtMostOnceAndNeverSelected(worlds: seq<World>, events: seq<Event>, i: nat, c: ChanId)
    requires IsRun(worlds, events) && i < |worlds| && c in worlds[i].cache.chans
    ensures worlds[i].cache.chans[c].closes <= 1
    ensures worlds[i].cache.chans[c].closes == 1 ==>
              forall sid, typ :: HasSlot(worlds[i], sid, typ) ==> SlotOf(worlds[i], sid, typ).chan != Some(c)
  {
    RunKeepsInv(worlds, events, i);
    forall sid, typ | HasSlot(worlds[i], sid, typ) && SlotOf(worlds[i], sid, typ).chan == Some(c)
      ensures worlds[i].cache.chans[c].closes == 0
    {
      assert SlotOk(worlds[i].cache, typ, SlotOf(worlds[i], sid, typ), worlds[i].streams[sid].log);
    }
  }

  /** `endpointNonceAcked` says exactly that the latest EDS nonce has been echoed since it was sent. */
  lemma AckedMeansEchoed(worlds: seq<World>, events: seq<Event>, i: nat, sid: StreamId)
    requires IsRun(worlds, events) && i < |worlds| && HasSlot(worlds[i], sid, EndpointType)
    ensures worlds[i].streams[sid].endpointNonceAcked <==> Echoed(worlds[i].streams[sid].log, EndpointType)
  {
    RunKeepsInv(worlds, events, i);
    assert StreamOk(worlds[i].cache, worlds[i].streams[sid]);
  }

  // ---------- what becomes of an accepted request ----------

  /** The stream is between the first and the last step of handling the request. */
  predicate Handling(w: World, sid: StreamId, request: Request, warm: Option<Response>) {
    sid in w.streams && (w.streams[sid].phase == Peeked(request, warm) || w.streams[sid].phase == Cancelled(request, warm))
  }

  lemma HandlingGoesOn(w: World, e: Event, w': World, sid: StreamId, request: Request, warm: Option<Response>)
    requires Next(w, e, w') && Handling(w, sid, request, warm) && e != FillSlot(sid) && request.typeUrl in w.streams[sid].slots
    ensures Handling(w', sid, request, warm) && request.typeUrl in w'.streams[sid].slots
    ensures w'.streams[sid].slots[request.typeUrl].nonce == w.streams[sid].slots[request.typeUrl].nonce
  {}

  /** From step `i` to step `j` the stream is busy with the same request. */
  ghost predicate Busy(worlds: seq<World>, events: seq<Event>, i: nat, j: nat, sid: StreamId, d: DiscoveryRequest) {
    && IsRun(worlds, events) && i < j < |events|
    && events[i] == Arrive(sid, d) && events[j] == FillSlot(sid)
    && forall k {:trigger events[k]} :: i < k < j ==> events[k] != FillSlot(sid)
  }

  lemma {:induction false} HandlingLasts(worlds: seq<World>, events: seq<Event>, i: nat, j: nat, k: nat, sid: StreamId, d: DiscoveryRequest,
                                         request: Request, warm: Option<Response>)
    requires Busy(worlds, events, i, j, sid, d) && i < k <= j
    requires Handling(worlds[i + 1], sid, request, warm) && request.typeUrl in worlds[i + 1].streams[sid].slots
    ensures Handling(worlds[k], sid, request, warm) && request.typeUrl in worlds[k].streams[sid].slots
    ensures worlds[k].streams[sid].slots[request.typeUrl].nonce == worlds[i + 1].streams[sid].slots[request.typeUrl].nonce
    decreases k
  {
    if k > i + 1 {
      HandlingLasts(worlds, events, i, j, k - 1, sid, d, request, warm);
      assert events[k - 1] != FillSlot(sid);
      hide Next, Handling;
      HandlingGoesOn(worlds[k - 1], events[k - 1], worlds[k], sid, request, warm);
    }
  }

  /** What the first step does with a request that is accepted. */
  lemma AcceptedIsHandled(w: World, sid: StreamId, d: DiscoveryRequest, w': World)
    requires Inv(w) && Next(w, Arrive(sid, d), w') && !Rejected(w.streams[sid], d)
    requires var typ := Resolve(w.streams[sid], d).typeUrl;
             typ in w.streams[sid].slots && d.nonce == LastNonce(w.streams[sid].log, typ)
    ensures var request := Resolve(w.streams[sid], d);
            && Handling(w', sid, request, Warming(w.cache, w.streams[sid], request))
            && request.typeUrl in w'.streams[sid].slots && w'.streams[sid].slots[request.typeUrl].nonce == d.nonce
  {
    var st := w.streams[sid];
    var typ := Resolve(st, d).typeUrl;
    assert StreamOk(w.cache, st) && SlotOk(w.cache, typ, st.slots[typ], st.log);
  }

  /** How the slot of the request ends up, given what was fetched and the cache when it is filled. */
  ghost predicate FilledFor(w: World, sid: StreamId, w': World, request: Request, warm: Option<Response>) {
    && HasSlot(w', sid, request.typeUrl) && w'.streams[sid].phase.Idle?
    && var slot, c := SlotOf(w', sid, request.typeUrl), w.cache.nextChan;
    && slot.chan == Some(c) && slot.request == Some(request)
    && slot.cancel == (if warm.Some? then CloseChan(c) else Cache.CreateWatchCancel(w.cache, request))
    && w'.cache == (if warm.Some? then Cache.Scheduled(w.cache, warm.value) else Cache.CreateWatch(w.cache, request))
  }

  lemma FilledAsHandled(w: World, sid: StreamId, w': World, request: Request, warm: Option<Response>)
    requires Inv(w) && Next(w, FillSlot(sid), w') && Handling(w, sid, request, warm)
    ensures FilledFor(w, sid, w', request, warm)
    ensures CanFillSlot(w.streams[sid]) && w'.streams[sid].endpointNonceAcked == w.streams[sid].endpointNonceAcked
  {}

  /** Whatever happens meanwhile, the slot is filled for the request that arrived, with what was
      fetched when it arrived. */
  lemma RequestIsSeenThrough(worlds: seq<World>, events: seq<Event>, i: nat, j: nat, sid: StreamId, d: DiscoveryRequest)
    requires Busy(worlds, events, i, j, sid, d) && sid in worlds[i].streams && !Rejected(worlds[i].streams[sid], d)
    requires var typ := Resolve(worlds[i].streams[sid], d).typeUrl;
             typ in worlds[i].streams[sid].slots && d.nonce == LastNonce(worlds[i].streams[sid].log, typ)
    ensures var request := Resolve(worlds[i].streams[sid], d);
            && FilledFor(worlds[j], sid, worlds[j + 1], request, Warming(worlds[i].cache, worlds[i].streams[sid], request))
            && (request.typeUrl == EndpointType && d.nonce != "" ==> worlds[j + 1].streams[sid].endpointNonceAcked)
  {
    var request := Resolve(worlds[i].streams[sid], d);
    var warm := Warming(worlds[i].cache, worlds[i].streams[sid], request);
    RunKeepsInv(worlds, events, i);
    RunKeepsInv(worlds, events, j);
    assert Next(worlds[i], Arrive(sid, d), worlds[i + 1]) && Next(worlds[j], FillSlot(sid), worlds[j + 1]);
    hide Inv, Next, IsRun, Warming, FilledFor, LastNonce;
    AcceptedIsHandled(worlds[i], sid, d, worlds[i + 1]);
    HandlingLasts(worlds, events, i, j, j, sid, d, request, warm);
    FilledAsHandled(worlds[j], sid, worlds[j + 1], request, warm);
    if request.typeUrl == EndpointType && d.nonce != "" {
      StillAcked(worlds[j], sid);
    }
  }

  /** An accepted request of type EDS that finds an echoed nonce leaves it acknowledged. */
  lemma StillAcked(w: World, sid: StreamId)
    requires Inv(w) && sid in w.streams && CanFillSlot(w.streams[sid]) && w.streams[sid].phase.request.typeUrl == EndpointType
    requires w.streams[sid].slots[EndpointType].nonce != ""
    ensures w.streams[sid].endpointNonceAcked
  {
    var st := w.streams[sid];
    assert StreamOk(w.cache, st) && SlotOk(w.cache, EndpointType, st.slots[EndpointType], st.log);
  }

  /** EDS warming. Once the latest EDS nonce has been echoed, a further request with that nonce gets
      endpoints scheduled, whatever version it names, exactly if at the moment of its `Fetch` there is
      a snapshot with a non-empty endpoint version; and then it gets the endpoints of that snapshot,
      with the request as the client sent it, whatever happens to the cache meanwhile. */
  lemma WarmingClusterIsAnswered(worlds: seq<World>, events: seq<Event>, i: nat, j: nat, sid: StreamId, d: DiscoveryRequest)
    requires Busy(worlds, events, i, j, sid, d) && HasSlot(worlds[i], sid, EndpointType) && !Rejected(worlds[i].streams[sid], d)
    requires Resolve(worlds[i].streams[sid], d).typeUrl == EndpointType
    requires Echoed(worlds[i].streams[sid].log, EndpointType) && d.nonce == LastNonce(worlds[i].streams[sid].log, EndpointType)
    ensures HasSlot(worlds[j + 1], sid, EndpointType) && SlotOf(worlds[j + 1], sid, EndpointType).chan.Some?
    ensures worlds[j + 1].streams[sid].endpointNonceAcked
    ensures var request, slot, peeked := Resolve(worlds[i].streams[sid], d), SlotOf(worlds[j + 1], sid, EndpointType), worlds[i].cache.snapshots;
            var version := if request.node in peeked then peeked[request.node].GetVersion(EndpointType) else "";
            && (slot.cancel.CloseChan? <==> version != "")
            && (version != "" ==>
                  && CanSend(worlds[j + 1].cache, worlds[j + 1].streams[sid], EndpointType)
                  && worlds[j + 1].cache.chans[slot.chan.value].buffer ==
                       [Response(request, version, Cache.Requested(d.names, peeked[request.node].GetResources(EndpointType)))])
  {
    var w, st := worlds[i], worlds[i].streams[sid];
    RunKeepsInv(worlds, events, i);
    assert StreamOk(w.cache, st);
    assert d.nonce != "";
    WarmIs(w.cache, st, Resolve(st, d));
    hide Inv, StreamOk, Echoed, LastNonce, Warming;
    RequestIsSeenThrough(worlds, events, i, j, sid, d);
    hide Busy, Cache.Requested;
  }

  lemma WarmIs(s: Cache.State, st: Stream, request: Request)
    requires request.typeUrl == EndpointType && st.endpointNonceAcked
    ensures var version := if request.node in s.snapshots then s.snapshots[request.node].GetVersion(EndpointType) else "";
            Warming(s, st, request) ==
            if version == "" then None
            else Some(Response(request, version, Cache.Requested(request.names, s.snapshots[request.node].GetResources(EndpointType))))
  {}

  /** Scheduled endpoints may be superseded by the time they are sent. The first echo of the response
      that carries them is not answered from a `Fetch` but by the cache as it is when the slot is
      filled: with the endpoints of the snapshot of that moment if the client has another version
      (and, in ADS mode, has named them all); otherwise a watch is left open. The same holds for
      every type and every first echo. */
  lemma FirstEchoGetsCurrent(worlds: seq<World>, events: seq<Event>, i: nat, j: nat, sid: StreamId, d: DiscoveryRequest)
    requires Busy(worlds, events, i, j, sid, d) && sid in worlds[i].streams && !Rejected(worlds[i].streams[sid], d)
    requires var typ := Resolve(worlds[i].streams[sid], d).typeUrl;
             && typ in worlds[i].streams[sid].slots && d.nonce == LastNonce(worlds[i].streams[sid].log, typ)
             && !Echoed(worlds[i].streams[sid].log, typ)
    ensures var request, s := Resolve(worlds[i].streams[sid], d), worlds[j].cache;
            && HasSlot(worlds[j + 1], sid, request.typeUrl) && SlotOf(worlds[j + 1], sid, request.typeUrl).chan.Some?
            && var slot, s' := SlotOf(worlds[j + 1], sid, request.typeUrl), worlds[j + 1].cache;
            if Cache.MustWait(s, request)
            then slot.cancel.CancelWatch? && Cache.IsOpen(s', slot.cancel.node, slot.cancel.id)
                 && Cache.WatchAt(s', slot.cancel.node, slot.cancel.id) == Watch(request, slot.chan.value)
            else slot.chan.value in s'.chans
                 && s'.chans[slot.chan.value].buffer ==
                    if Cache.Answers(s.ads, s.snapshots[request.node], request) then [Cache.Answer(s.snapshots[request.node], request)] else []
  {
    var w, st := worlds[i], worlds[i].streams[sid];
    RunKeepsInv(worlds, events, i);
    assert StreamOk(w.cache, st);
    assert Warming(w.cache, st, Resolve(st, d)).None?;
    hide Inv, StreamOk, Echoed, LastNonce, Warming;
    RequestIsSeenThrough(worlds, events, i, j, sid, d);
    hide Busy, Cache.Requested;
  }
}
