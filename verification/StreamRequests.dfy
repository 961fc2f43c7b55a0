/** What a request on a stream asks for, in terms of what was sent on the stream before. */
module StreamRequests {
  import opened Basics
  import opened Xds
  import opened StreamLog
  import opened StreamModel
  import opened StreamProofs
  import opened StreamTheorems
  import Cache = CacheModel

  // ---------- what was said before ----------

  predicate Opens(e: Event, sid: StreamId) {
    e.Open? && e.sid == sid
  }

  predicate NamesNode(e: Event, sid: StreamId) {
    e.Arrive? && e.sid == sid && e.discovery.node.Some?
  }

  /** How the stream was opened, as of the first `k` events. */
  function Opening(events: seq<Event>, k: nat, sid: StreamId): Event
    requires k <= |events|
  {
    if k == 0 then Open(sid, [], AnyType)
    else if Opens(events[k - 1], sid) then events[k - 1]
    else Opening(events, k - 1, sid)
  }

  /** The node that was named last on the stream, if any since it was opened. */
  function NodeNamed(events: seq<Event>, k: nat, sid: StreamId): NodeId
    requires k <= |events|
  {
    if k == 0 || Opens(events[k - 1], sid) then ""
    else if NamesNode(events[k - 1], sid) then events[k - 1].discovery.node.value
    else NodeNamed(events, k - 1, sid)
  }

  lemma OpeningOpens(events: seq<Event>, k: nat, sid: StreamId)
    requires k <= |events|
    ensures Opening(events, k, sid).Open?
  {}

  /** The stream remembers what was said. */
  ghost predicate Remembers(st: Stream, opening: Event, node: NodeId) {
    && opening.Open? && st.defaultType == opening.defaultType
    && (!st.phase.Ending? ==> st.types == opening.types && st.node == node)
  }

  lemma NextRemembers(w: World, e: Event, w': World, sid: StreamId, opening: Event, node: NodeId)
    requires Next(w, e, w') && !Opens(e, sid) && sid in w'.streams && (sid in w.streams ==> Remembers(w.streams[sid], opening, node))
    ensures sid in w.streams
    ensures Remembers(w'.streams[sid], opening, if NamesNode(e, sid) then e.discovery.node.value else node)
  {
    hide Cache.SetSnapshot, Cache.DoCancel, CacheAfterSend, CacheAfterFill, Warming;
  }

  lemma OpenRemembers(w: World, e: Event, w': World, sid: StreamId)
    requires Next(w, e, w') && Opens(e, sid)
    ensures sid in w'.streams && Remembers(w'.streams[sid], e, "")
  {}

  lemma {:induction false} StreamRemembers(worlds: seq<World>, events: seq<Event>, k: nat, sid: StreamId)
    requires IsRun(worlds, events) && k < |worlds| && sid in worlds[k].streams
    ensures Remembers(worlds[k].streams[sid], Opening(events, k, sid), NodeNamed(events, k, sid))
  {
    if k > 0 {
      assert Next(worlds[k - 1], events[k - 1], worlds[k]);
      hide Next, Remembers;
      if Opens(events[k - 1], sid) {
        OpenRemembers(worlds[k - 1], events[k - 1], worlds[k], sid);
      } else {
        if sid in worlds[k - 1].streams {
          StreamRemembers(worlds, events, k - 1, sid);
        }
        NextRemembers(worlds[k - 1], events[k - 1], worlds[k], sid, Opening(events, k - 1, sid), NodeNamed(events, k - 1, sid));
      }
    }
  }

  // ---------- what a request asks for ----------

  /** The request that reaches the cache: for the node named last, of the type the request names, or that
      of the stream, and for the rest as it was sent. */
  function AskedFor(events: seq<Event>, j: nat, sid: StreamId, d: DiscoveryRequest): Request
    requires j < |events|
  {
    OpeningOpens(events, j, sid);
    Request(NodeNamed(events, j + 1, sid), if d.typeUrl == AnyType then Opening(events, j, sid).defaultType else d.typeUrl,
            d.version, d.names, d.nonce)
  }

  /** The stream has a slot for the type, and if something of the type was sent, the request echoes the
      nonce of the latest response. */
  ghost predicate IsCurrent(types: seq<TypeUrl>, log: seq<Entry>, r: Request) {
    r.typeUrl in types && (LastSent(log, r.typeUrl) >= 0 ==> r.nonce == LastNonce(log, r.typeUrl))
  }

  /** What an idle stream makes of the request. */
  ghost predicate TakenUp(st: Stream, types: seq<TypeUrl>, r: Request, st': Stream) {
    if r.typeUrl == AnyType then st'.phase.Ending?
    else if IsCurrent(types, st.log, r) then st'.phase.Peeked? && st'.phase.request == r && st'.slots == st.slots && st'.log == st.log
    else st'.phase.Idle? && st'.slots == st.slots && st'.log == st.log + [Ignored(r)]
  }

  lemma SlotNonce(w: World, sid: StreamId, typ: TypeUrl)
    requires Inv(w) && HasSlot(w, sid, typ)
    ensures SlotOf(w, sid, typ).nonce == LastNonce(w.streams[sid].log, typ)
    ensures LastNonce(w.streams[sid].log, typ) == "" <==> LastSent(w.streams[sid].log, typ) < 0
  {
    assert StreamOk(w.cache, w.streams[sid]) && SlotOk(w.cache, typ, SlotOf(w, sid, typ), w.streams[sid].log);
  }

  lemma SlotsAreTypes(w: World, sid: StreamId)
    requires Inv(w) && sid in w.streams
    ensures forall t :: t in w.streams[sid].slots <==> t in w.streams[sid].types
  {
    assert StreamOk(w.cache, w.streams[sid]);
  }

  lemma ArriveTakesUp(w: World, sid: StreamId, d: DiscoveryRequest, w': World, types: seq<TypeUrl>, r: Request)
    requires Next(w, Arrive(sid, d), w') && w.streams[sid].types == types
    requires forall t :: t in w.streams[sid].slots <==> t in types
    requires r == Request(if d.node.Some? then d.node.value else w.streams[sid].node,
                          if d.typeUrl == AnyType then w.streams[sid].defaultType else d.typeUrl, d.version, d.names, d.nonce)
    requires r.typeUrl in types ==>
               && w.streams[sid].slots[r.typeUrl].nonce == LastNonce(w.streams[sid].log, r.typeUrl)
               && (LastNonce(w.streams[sid].log, r.typeUrl) == "" <==> LastSent(w.streams[sid].log, r.typeUrl) < 0)
    ensures TakenUp(w.streams[sid], types, r, w'.streams[sid])
  {
    hide Warming, LastNonce, LastSent;
  }

  /** What a stream makes of a request, over every run. Without a type on a stream that has none, the
      stream ends; if it is about the latest response of its type, or there has been none, it is handled;
      otherwise it is ignored. It is for the node that was named last on the stream, also if that was in
      a request that was ignored, and asks for what was sent, with the type of the stream exactly if it
      names none. */
  lemma RequestsMean(worlds: seq<World>, events: seq<Event>, j: nat, sid: StreamId, d: DiscoveryRequest)
    requires IsRun(worlds, events) && j < |events| && events[j] == Arrive(sid, d)
    ensures sid in worlds[j].streams && sid in worlds[j + 1].streams && Opening(events, j, sid).Open?
    ensures TakenUp(worlds[j].streams[sid], Opening(events, j, sid).types, AskedFor(events, j, sid, d), worlds[j + 1].streams[sid])
  {
    var w, w' := worlds[j], worlds[j + 1];
    assert Next(w, Arrive(sid, d), w');
    assert sid in w.streams && sid in w'.streams && w.streams[sid].phase.Idle?;
    RunKeepsInv(worlds, events, j);
    StreamRemembers(worlds, events, j, sid);
    SlotsAreTypes(w, sid);
    hide Inv, Next, TakenUp, LastNonce, LastSent;
    var r := AskedFor(events, j, sid, d);
    if r.typeUrl in w.streams[sid].slots {
      SlotNonce(w, sid, r.typeUrl);
    }
    ArriveTakesUp(w, sid, d, w', Opening(events, j, sid).types, r);
  }

  /** And if it is handled, the slot is filled for exactly this request, whatever happens meanwhile. */
  lemma SlotIsFilledFor(worlds: seq<World>, events: seq<Event>, j: nat, k: nat, sid: StreamId, d: DiscoveryRequest)
    requires Busy(worlds, events, j, k, sid, d) && sid in worlds[j + 1].streams && worlds[j + 1].streams[sid].phase.Peeked?
    ensures var r := AskedFor(events, j, sid, d);
            HasSlot(worlds[k + 1], sid, r.typeUrl) && SlotOf(worlds[k + 1], sid, r.typeUrl).request == Some(r)
  {
    var r := AskedFor(events, j, sid, d);
    RequestsMean(worlds, events, j, sid, d);
    RunKeepsInv(worlds, events, j);
    RunKeepsInv(worlds, events, k);
    assert Next(worlds[k], FillSlot(sid), worlds[k + 1]);
    StreamRemembers(worlds, events, j, sid);
    SlotsAreTypes(worlds[j], sid);
    assert worlds[j].streams[sid].phase.Idle? by {
      assert Next(worlds[j], Arrive(sid, d), worlds[j + 1]);
    }
    var warm := worlds[j + 1].streams[sid].phase.warm;
    hide Inv, Next, IsRun;
    HandlingLasts(worlds, events, j, k, k, sid, d, r, warm);
    FilledAsHandled(worlds[k], sid, worlds[k + 1], r, warm);
  }

  lemma {:induction false} NamedSince(events: seq<Event>, i: nat, k: nat, sid: StreamId)
    requires i < k <= |events| && NamesNode(events[i], sid) && forall m :: i < m < k ==> !NamesNode(events[m], sid) && !Opens(events[m], sid)
    ensures NodeNamed(events, k, sid) == events[i].discovery.node.value
    decreases k
  {
    if i < k - 1 {
      NamedSince(events, i, k - 1, sid);
    }
  }

  /** A request that leaves the node out is for the node that an earlier one named: `i` is the latest step
      at which a node was named on the stream. */
  lemma NodeIsRemembered(worlds: seq<World>, events: seq<Event>, i: nat, j: nat, k: nat, sid: StreamId, d: DiscoveryRequest, n: NodeId)
    requires Busy(worlds, events, j, k, sid, d) && d.node.None? && sid in worlds[j + 1].streams && worlds[j + 1].streams[sid].phase.Peeked?
    requires i < j && NamesNode(events[i], sid) && events[i].discovery.node.value == n
    requires forall m :: i < m < j ==> !NamesNode(events[m], sid) && !Opens(events[m], sid)
    ensures worlds[j + 1].streams[sid].phase.request.node == n
    ensures var typ := worlds[j + 1].streams[sid].phase.request.typeUrl;
            && HasSlot(worlds[k + 1], sid, typ) && SlotOf(worlds[k + 1], sid, typ).request.Some?
            && SlotOf(worlds[k + 1], sid, typ).request.value.node == n && SlotOf(worlds[k + 1], sid, typ).request.value.version == d.version
  {
    NamedSince(events, i, j + 1, sid);
    RequestsMean(worlds, events, j, sid, d);
    hide IsRun;
    SlotIsFilledFor(worlds, events, j, k, sid, d);
  }
}
