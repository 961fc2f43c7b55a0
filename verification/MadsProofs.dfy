/** End-to-end freshness of MADS. */
module MadsProofs {
  import opened Basics
  import opened Xds
  import opened StreamLog
  import opened StreamModel
  import opened MadsModel
  import Proofs = StreamProofs
  import Cache = CacheModel
  import History = VersionHistory
  import Decimal

  // ---------- invariant of one stream and its client ----------

  /** All that matters of the cache to one slot: its channel, and whether its watch is open. */
  datatype View = View(chan: Option<Chan>, open: bool)

  function ViewOf(s: Cache.State, slot: Slot): View {
    View(if slot.chan.Some? && slot.chan.value in s.chans then Some(s.chans[slot.chan.value]) else None,
         slot.cancel.CancelWatch? && Cache.IsOpen(s, slot.cancel.node, slot.cancel.id))
  }

  /** The version stands for these resources. */
  ghost predicate Genuine(h: History.State, version: Version, resources: map<string, Resource>) {
    && version != "" && (AssignmentType, version) in h.meaning
    && h.meaning[(AssignmentType, version)] == resources
  }

  ghost predicate MessageOk(h: History.State, streamNonce: nat, m: Message) {
    Genuine(h, m.version, m.resources) && exists k: nat :: k <= streamNonce && m.nonce == NonceOf(k)
  }

  /** The client has been sent `version` at some point; the empty version says that it has nothing. */
  predicate Known(cl: Client, version: Version) {
    version == "" || exists i :: 0 <= i < |cl.received| && cl.received[i].version == version
  }

  predicate KnownNonce(cl: Client, nonce: string) {
    nonce == "" || exists i :: 0 <= i < |cl.received| && cl.received[i].nonce == nonce
  }

  predicate RequestOk(cl: Client, d: DiscoveryRequest) {
    (d.node.Some? ==> d.node.value == Hash("")) && d.typeUrl == AssignmentType && d.names == [] && Known(cl, d.version) && KnownNonce(cl, d.nonce)
  }

  function Last<T>(s: seq<T>): Option<T> {
    if s == [] then None else Some(s[|s| - 1])
  }

  /** What the client knows and says. */
  ghost predicate ClientOk(h: History.State, streamNonce: nat, cl: Client) {
    && (forall i :: 0 <= i < |cl.received| ==> MessageOk(h, streamNonce, cl.received[i]))
    && (forall i :: 0 <= i < |cl.toClient| ==> MessageOk(h, streamNonce, cl.toClient[i]))
    && cl.latestReceived == Last(cl.received)
    && (cl.latestACKed.Some? ==> cl.latestACKed.value in cl.received)
    && (forall i :: 0 <= i < |cl.toServer| ==> RequestOk(cl, cl.toServer[i]))
    && (cl.toServer != [] ==> cl.lastRequest == Last(cl.toServer))
    && (cl.lastRequest.Some? ==>
          && RequestOk(cl, cl.lastRequest.value)
          && cl.lastRequest.value.version == (if cl.lastRequest.value.nonce == "" then "" else VersionOf(cl.latestACKed)))
  }

  /** The latest nonce sent on the stream, seen from the client's end of the connection. */
  function LatestNonce(cl: Client): string {
    if cl.toClient != [] then cl.toClient[|cl.toClient| - 1].nonce
    else if cl.received != [] then cl.received[|cl.received| - 1].nonce
    else ""
  }

  /** The stream answers to the client's latest request. */
  predicate AnswersTo(slot: Slot, cl: Client) {
    cl.lastRequest.Some? && cl.toServer == [] && (slot.chan.None? || cl.lastRequest.value.nonce == slot.nonce)
  }

  /** The server is busy with this request of the client, its latest unless others are on their way. */
  predicate PendingOk(r: Request, cl: Client) {
    && r.node == Hash("") && r.typeUrl == AssignmentType && r.names == [] && Known(cl, r.version)
    && (cl.toServer == [] ==> cl.lastRequest.Some? && r.version == cl.lastRequest.value.version)
  }

  predicate IsHandling(phase: Phase) {
    phase.Peeked? || phase.Cancelled?
  }

  /** How the server's slot and the client's end fit together. */
  ghost predicate LinkOk(h: History.State, v: View, slot: Slot, phase: Phase, cl: Client) {
    && slot.nonce == LatestNonce(cl)
    && (slot.chan.None? && !phase.Cancelled? ==> slot == EMPTY_SLOT)
    && (slot.chan.Some? ==>
          && v.chan.Some? && slot.request.Some?
          && slot.request.value.node == Hash("") && slot.request.value.typeUrl == AssignmentType && slot.request.value.names == []
          && Known(cl, slot.request.value.version)
          && (v.chan.value.sent == 0 ==> v.open)
          && (forall i :: 0 <= i < |v.chan.value.buffer| ==> Genuine(h, v.chan.value.buffer[i].version, v.chan.value.buffer[i].resources)))
    && (phase.Idle? && AnswersTo(slot, cl) ==>
          && slot.chan.Some? && !Proofs.Spent(v.chan.value)
          && slot.request.value.version == cl.lastRequest.value.version)
    && (IsHandling(phase) ==> phase.warm.None? && PendingOk(phase.request, cl))
  }

  predicate ShapeOk(st: Stream) {
    && st.node == Hash("") && st.defaultType == AssignmentType
    && if st.phase.Ending? && st.types == [] then st.slots.Keys == {} else st.types == MADS_TYPES && st.slots.Keys == {AssignmentType}
  }

  ghost predicate StreamOk(h: History.State, s: Cache.State, st: Stream, cl: Client) {
    && ShapeOk(st)
    && ClientOk(h, st.streamNonce, cl)
    && (AssignmentType in st.slots ==> LinkOk(h, ViewOf(s, st.slots[AssignmentType]), st.slots[AssignmentType], st.phase, cl))
  }

  ghost predicate Inv(y: System) {
    && Proofs.Inv(y.world) && !y.world.cache.ads
    && History.Inv(y.history) && y.history.server.Mads? && y.history.types == {AssignmentType}
    && y.history.current == y.world.cache.snapshots
    && y.clients.Keys == y.world.streams.Keys
    && forall sid :: sid in y.clients ==> StreamOk(y.history, y.world.cache, y.world.streams[sid], y.clients[sid])
  }

  // ---------- theorems about one state ----------

  /** What the invariant says of one stream. */
  ghost predicate StreamParts(y: System, sid: StreamId) {
    && sid in y.clients && sid in y.world.streams
    && StreamOk(y.history, y.world.cache, y.world.streams[sid], y.clients[sid])
    && (AssignmentType in y.world.streams[sid].slots ==>
          Proofs.SlotOk(y.world.cache, AssignmentType, y.world.streams[sid].slots[AssignmentType], y.world.streams[sid].log))
  }

  lemma PartsOf(y: System, sid: StreamId)
    requires Inv(y) && sid in y.clients
    ensures StreamParts(y, sid)
  {
    assert Proofs.StreamOk(y.world.cache, y.world.streams[sid]);
  }

  /** An open watch is the one its owner's slot remembers. */
  lemma OwnersSlot(y: System, sid: StreamId, typ: TypeUrl, node: NodeId, id: WatchId)
    requires StreamParts(y, sid) && Cache.IsOpen(y.world.cache, node, id) && Proofs.Owns(y.world, sid, typ, node, id)
    ensures typ == AssignmentType
    ensures var slot := Proofs.SlotOf(y.world, sid, typ);
            && slot.chan == Some(Cache.WatchAt(y.world.cache, node, id).chan)
            && slot.request == Some(Cache.WatchAt(y.world.cache, node, id).request)
            && slot.request.value.typeUrl == AssignmentType
            && Known(y.clients[sid], slot.request.value.version)
  {}

  /** It asks with the version of the current snapshot. */
  lemma OpenWatchIsCurrent(y: System, node: NodeId, id: WatchId)
    requires Inv(y) && Cache.IsOpen(y.world.cache, node, id) && node in y.world.cache.snapshots
    requires Cache.WatchAt(y.world.cache, node, id).request.typeUrl == AssignmentType
    ensures Cache.WatchAt(y.world.cache, node, id).request.version == y.world.cache.snapshots[node].GetVersion(AssignmentType)
  {
    assert Cache.WatchOk(y.world.cache, node, id);
  }

  /** Freshness. If a watch is open and its node has a snapshot, the client at the other end has been
      sent the version it asks with, and what it was sent then is exactly what the snapshot holds now. */
  lemma OpenWatchIsFresh(y: System, node: NodeId, id: WatchId) returns (sid: StreamId, i: nat)
    requires Inv(y) && Cache.IsOpen(y.world.cache, node, id) && node in y.world.cache.snapshots
    ensures sid in y.clients && i < |y.clients[sid].received|
    ensures Proofs.Owns(y.world, sid, AssignmentType, node, id)
    ensures y.clients[sid].received[i].version == Cache.WatchAt(y.world.cache, node, id).request.version
    ensures y.clients[sid].received[i].version == y.world.cache.snapshots[node].GetVersion(AssignmentType)
    ensures y.clients[sid].received[i].resources == y.world.cache.snapshots[node].GetResources(AssignmentType)
  {
    var typ;
    sid, typ :| Proofs.Owns(y.world, sid, typ, node, id);
    PartsOf(y, sid);
    OwnersSlot(y, sid, typ, node, id);
    OpenWatchIsCurrent(y, node, id);
    SnapshotIsGenuine(y, node);
    var version := Cache.WatchAt(y.world.cache, node, id).request.version;
    i := KnownIsGenuine(y, sid, version);
  }

  lemma KnownIsGenuine(y: System, sid: StreamId, version: Version) returns (i: nat)
    requires Inv(y) && sid in y.clients && version != "" && Known(y.clients[sid], version)
    ensures i < |y.clients[sid].received| && y.clients[sid].received[i].version == version
    ensures Genuine(y.history, version, y.clients[sid].received[i].resources)
  {
    var cl := y.clients[sid];
    assert StreamOk(y.history, y.world.cache, y.world.streams[sid], cl);
    i :| 0 <= i < |cl.received| && cl.received[i].version == version;
    assert MessageOk(y.history, y.world.streams[sid].streamNonce, cl.received[i]);
  }

  lemma SnapshotIsGenuine(y: System, node: NodeId)
    requires Inv(y) && node in y.world.cache.snapshots
    ensures var snap := y.world.cache.snapshots[node];
            Genuine(y.history, snap.GetVersion(AssignmentType), snap.GetResources(AssignmentType))
  {
    var snap := y.history.current[node];
    assert History.Good(y.history, snap);
    assert History.Means(y.history, AssignmentType, snap.byType[AssignmentType]);
  }

  /** Nothing is in flight on the stream, the server loop is idle, nothing waits to be sent, and the
      client has replied to what it last received (or made its first request). */
  predicate Quiet(y: System, sid: StreamId) {
    && sid in y.clients && sid in y.world.streams
    && var cl, st := y.clients[sid], y.world.streams[sid];
    && cl.toServer == [] && cl.toClient == [] && st.phase.Idle?
    && !CanSend(y.world.cache, st, AssignmentType)
    && cl.lastRequest.Some?
    && cl.lastRequest.value.nonce == (if cl.latestReceived.Some? then cl.latestReceived.value.nonce else "")
  }

  /** A quiet stream has an open watch for the client's latest request. */
  lemma QuietStreamWatches(y: System, sid: StreamId)
    requires StreamParts(y, sid) && Quiet(y, sid)
    requires AssignmentType in y.world.streams[sid].slots
    requires var c := y.world.streams[sid].slots[AssignmentType].chan;
             c.Some? && c.value in y.world.cache.chans ==> y.world.cache.chans[c.value].sent <= 1
    ensures Proofs.HasSlot(y.world, sid, AssignmentType)
    ensures var slot := Proofs.SlotOf(y.world, sid, AssignmentType);
            && slot.cancel.CancelWatch? && Cache.IsOpen(y.world.cache, slot.cancel.node, slot.cancel.id)
            && Cache.WatchAt(y.world.cache, slot.cancel.node, slot.cancel.id).request == slot.request.value
            && slot.request.value.version == y.clients[sid].lastRequest.value.version
            && slot.request.value.node == Hash("") && slot.request.value.typeUrl == AssignmentType
  {
    assert AnswersTo(y.world.streams[sid].slots[AssignmentType], y.clients[sid]);
  }

  /** A non-empty version in the client's latest request is that of the configuration it last accepted. */
  lemma LastRequestNamesAccepted(y: System, sid: StreamId)
    requires StreamParts(y, sid)
    requires y.clients[sid].lastRequest.Some? && y.clients[sid].lastRequest.value.version != ""
    ensures var cl := y.clients[sid];
            && cl.latestACKed.Some? && cl.latestACKed.value.version == cl.lastRequest.value.version
            && Genuine(y.history, cl.latestACKed.value.version, cl.latestACKed.value.resources)
  {
    var cl := y.clients[sid];
    var i :| 0 <= i < |cl.received| && cl.received[i] == cl.latestACKed.value;
    assert MessageOk(y.history, y.world.streams[sid].streamNonce, cl.received[i]);
  }

  /** No change is ever lost: whenever a stream is quiet, either nothing has been stored yet, or the
      configuration the client last accepted is exactly the current snapshot. */
  lemma QuietClientIsUpToDate(y: System, sid: StreamId)
    requires Inv(y) && Quiet(y, sid)
    ensures Hash("") in y.world.cache.snapshots ==>
              && y.clients[sid].latestACKed.Some?
              && y.clients[sid].latestACKed.value.version == y.world.cache.snapshots[Hash("")].GetVersion(AssignmentType)
              && y.clients[sid].latestACKed.value.resources == y.world.cache.snapshots[Hash("")].GetResources(AssignmentType)
  {
    if Hash("") in y.world.cache.snapshots {
      PartsOf(y, sid);
      QuietStreamWatches(y, sid);
      var slot := Proofs.SlotOf(y.world, sid, AssignmentType);
      var node, id := slot.cancel.node, slot.cancel.id;
      assert node == Hash("") by {
        assert Cache.WatchOk(y.world.cache, node, id);
      }
      OpenWatchIsCurrent(y, node, id);
      SnapshotIsGenuine(y, node);
      LastRequestNamesAccepted(y, sid);
    }
  }

  // ---------- the client's steps ----------

  lemma MessageStaysOk(h: History.State, h': History.State, n: nat, n': nat, m: Message)
    requires MessageOk(h, n, m) && History.Extends(h, h') && n <= n'
    ensures MessageOk(h', n', m)
  {
    var k: nat :| k <= n && m.nonce == NonceOf(k);
    assert k <= n' && m.nonce == NonceOf(k);
  }

  lemma ClientStaysOk(h: History.State, h': History.State, n: nat, n': nat, cl: Client)
    requires ClientOk(h, n, cl) && History.Extends(h, h') && n <= n'
    ensures ClientOk(h', n', cl)
  {
    forall i | 0 <= i < |cl.received| ensures MessageOk(h', n', cl.received[i]) { MessageStaysOk(h, h', n, n', cl.received[i]); }
    forall i | 0 <= i < |cl.toClient| ensures MessageOk(h', n', cl.toClient[i]) { MessageStaysOk(h, h', n, n', cl.toClient[i]); }
  }

  lemma SendsOk(h: History.State, n: nat, cl: Client, d: DiscoveryRequest, cl': Client)
    requires ClientOk(h, n, cl) && RequestOk(cl, d)
    requires cl' == Sends(cl, d) || (cl.latestReceived.Some? && cl' == Sends(cl, d).(latestACKed := cl.latestReceived))
    requires d.version == if d.nonce == "" then "" else VersionOf(cl'.latestACKed)
    ensures ClientOk(h, n, cl')
  {
    assert forall i :: 0 <= i < |cl'.toServer| ==> RequestOk(cl, cl'.toServer[i]);
  }

  lemma SendsLinkOk(h: History.State, v: View, slot: Slot, phase: Phase, cl: Client, cl': Client)
    requires LinkOk(h, v, slot, phase, cl)
    requires cl'.received == cl.received && cl'.toClient == cl.toClient && cl'.toServer != []
    ensures LinkOk(h, v, slot, phase, cl')
  {}

  lemma RepliesOk(h: History.State, n: nat, cl: Client)
    requires ClientOk(h, n, cl) && cl.latestReceived.Some?
    ensures cl.latestReceived.value.nonce != "" && cl.latestReceived.value.version != ""
    ensures Known(cl, cl.latestReceived.value.version) && KnownNonce(cl, cl.latestReceived.value.nonce)
    ensures Known(cl, VersionOf(cl.latestACKed))
  {
    assert MessageOk(h, n, cl.received[|cl.received| - 1]);
    if cl.latestACKed.Some? {
      var i :| 0 <= i < |cl.received| && cl.received[i] == cl.latestACKed.value;
      assert cl.received[i].version == VersionOf(cl.latestACKed);
    }
  }

  lemma ReceiveClientOk(h: History.State, n: nat, cl: Client)
    requires ClientOk(h, n, cl) && cl.toClient != []
    ensures ClientOk(h, n, WaitForAssignments(cl))
  {
    var cl' := WaitForAssignments(cl);
    forall i | 0 <= i < |cl'.received|
      ensures MessageOk(h, n, cl'.received[i])
    {
      assert if i < |cl.received| then cl'.received[i] == cl.received[i] else cl'.received[i] == cl.toClient[0];
    }
    forall i | 0 <= i < |cl'.toServer|
      ensures RequestOk(cl', cl'.toServer[i])
    {
      ReceiveStillKnown(cl, cl.toServer[i]);
    }
    if cl.lastRequest.Some? {
      ReceiveStillKnown(cl, cl.lastRequest.value);
    }
    if cl.latestACKed.Some? {
      assert cl'.latestACKed.value in cl'.received;
    }
  }

  lemma ReceiveStillKnown(cl: Client, d: DiscoveryRequest)
    requires cl.toClient != [] && RequestOk(cl, d)
    ensures RequestOk(WaitForAssignments(cl), d)
  {
    ReceiveKnows(cl, d.version);
    var cl' := WaitForAssignments(cl);
    if d.nonce != "" {
      var i :| 0 <= i < |cl.received| && cl.received[i].nonce == d.nonce;
      assert cl'.received[i].nonce == d.nonce;
    }
  }

  lemma ReceiveKnows(cl: Client, version: Version)
    requires cl.toClient != [] && Known(cl, version)
    ensures Known(WaitForAssignments(cl), version)
  {
    if version != "" {
      var i :| 0 <= i < |cl.received| && cl.received[i].version == version;
      assert WaitForAssignments(cl).received[i].version == version;
    }
  }

  lemma ReceiveLinkOk(h: History.State, v: View, slot: Slot, phase: Phase, cl: Client)
    requires LinkOk(h, v, slot, phase, cl) && cl.toClient != []
    ensures LinkOk(h, v, slot, phase, WaitForAssignments(cl))
  {
    assert LatestNonce(WaitForAssignments(cl)) == LatestNonce(cl);
    if slot.chan.Some? {
      ReceiveKnows(cl, slot.request.value.version);
    }
    if IsHandling(phase) {
      ReceiveKnows(cl, phase.request.version);
    }
  }

  /** After any step of a client what it says is in order. */
  lemma ClientStepClientOk(h: History.State, n: nat, cl: Client, clientId: string)
    requires ClientOk(h, n, cl)
    ensures ClientOk(h, n, RequestAssignments(cl, clientId)) && ClientOk(h, n, Ack(cl)) && ClientOk(h, n, Nack(cl))
    ensures cl.toClient != [] ==> ClientOk(h, n, WaitForAssignments(cl))
  {
    var first := RequestAssignments(cl, clientId);
    SendsOk(h, n, cl, first.lastRequest.value, first);
    if cl.latestReceived.Some? {
      RepliesOk(h, n, cl);
      SendsOk(h, n, cl, Ack(cl).lastRequest.value, Ack(cl));
      SendsOk(h, n, cl, Nack(cl).lastRequest.value, Nack(cl));
    }
    if cl.toClient != [] {
      ReceiveClientOk(h, n, cl);
    }
  }

  /** And so is the link to its stream. */
  lemma ClientStepLinkOk(h: History.State, v: View, slot: Slot, phase: Phase, cl: Client, clientId: string)
    requires LinkOk(h, v, slot, phase, cl)
    ensures LinkOk(h, v, slot, phase, RequestAssignments(cl, clientId))
    ensures LinkOk(h, v, slot, phase, Ack(cl)) && LinkOk(h, v, slot, phase, Nack(cl))
    ensures cl.toClient != [] ==> LinkOk(h, v, slot, phase, WaitForAssignments(cl))
  {
    hide LinkOk;
    SendsLinkOk(h, v, slot, phase, cl, RequestAssignments(cl, clientId));
    if cl.latestReceived.Some? {
      SendsLinkOk(h, v, slot, phase, cl, Ack(cl));
      SendsLinkOk(h, v, slot, phase, cl, Nack(cl));
    }
    if cl.toClient != [] {
      ReceiveLinkOk(h, v, slot, phase, cl);
    }
  }

  lemma ClientStepOk(h: History.State, s: Cache.State, st: Stream, cl: Client, clientId: string)
    requires StreamOk(h, s, st, cl)
    ensures StreamOk(h, s, st, RequestAssignments(cl, clientId))
    ensures StreamOk(h, s, st, Ack(cl))
    ensures StreamOk(h, s, st, Nack(cl))
    ensures cl.toClient != [] ==> StreamOk(h, s, st, WaitForAssignments(cl))
  {
    hide LinkOk, ClientOk, ViewOf, ShapeOk, RequestAssignments, Ack, Nack, WaitForAssignments;
    ClientStepClientOk(h, st.streamNonce, cl, clientId);
    if AssignmentType in st.slots {
      ClientStepLinkOk(h, ViewOf(s, st.slots[AssignmentType]), st.slots[AssignmentType], st.phase, cl, clientId);
    }
  }

  // ---------- the reconcilers' steps ----------

  lemma StreamStaysOk(h: History.State, h': History.State, s: Cache.State, s': Cache.State, st: Stream, cl: Client)
    requires StreamOk(h, s, st, cl) && History.Extends(h, h')
    requires AssignmentType in st.slots ==> ViewOf(s', st.slots[AssignmentType]) == ViewOf(s, st.slots[AssignmentType])
    ensures StreamOk(h', s', st, cl)
  {
    ClientStaysOk(h, h', st.streamNonce, st.streamNonce, cl);
  }

  /** What `SetSnapshot` does to a slot's channel and watch: nothing, or it moves one answer. */
  lemma StoreView(s: Cache.State, node: NodeId, snap: Snapshot, s': Cache.State, slot: Slot)
    requires slot.chan.Some? && slot.chan.value in s.chans && slot.request.Some? && Proofs.CancelOk(s, slot)
    requires Cache.SetSnapshot(s, node, snap, s') && !s.ads && OpenWatchesArePlain(s, node)
    ensures var v, v' := ViewOf(s, slot), ViewOf(s', slot);
            && v'.chan.Some?
            && if v'.chan == v.chan then v.chan.value.sent == 0 && v.open ==> v'.open
               else && v.chan.value == NEW_CHAN && v'.chan.value.sent == 1 && |v'.chan.value.buffer| == 1
                    && v'.chan.value.buffer[0].version == snap.GetVersion(AssignmentType)
                    && v'.chan.value.buffer[0].resources == snap.GetResources(AssignmentType)
  {
    var c := slot.chan.value;
    if s'.chans[c] == s.chans[c] {
      if s.chans[c].sent == 0 && slot.cancel.CancelWatch? && slot.cancel.node == node && Cache.IsOpen(s, node, slot.cancel.id) {
        assert !Cache.Triggers(s.ads, Cache.WatchesOf(s, node), snap, slot.cancel.id);
      }
    } else {
      var id :| Cache.Triggers(s.ads, Cache.WatchesOf(s, node), snap, id) && Cache.WatchesOf(s, node)[id].chan == c;
      assert Cache.IsOpen(s, node, id);
      assert s'.chans[c] == Cache.Push(NEW_CHAN, Cache.Answer(snap, Cache.WatchAt(s, node, id).request));
    }
  }

  /** Every open watch of the node is for assignments, names no resources and has a new channel. */
  ghost predicate OpenWatchesArePlain(s: Cache.State, node: NodeId) {
    forall id :: Cache.IsOpen(s, node, id) ==>
      var w := Cache.WatchAt(s, node, id);
      w.chan in s.chans && s.chans[w.chan] == NEW_CHAN && w.request.typeUrl == AssignmentType && w.request.names == []
  }

  /** A snapshot is stored: each slot either does not notice, or gets the new version on its channel. */
  lemma StoreStreamOk(h: History.State, s: Cache.State, node: NodeId, snap: Snapshot, s': Cache.State, st: Stream, cl: Client, h': History.State)
    requires StreamOk(h, s, st, cl) && History.Extends(h, h')
    requires AssignmentType in st.slots ==> Proofs.SlotOk(s, AssignmentType, st.slots[AssignmentType], st.log)
    requires Cache.SetSnapshot(s, node, snap, s') && !s.ads && OpenWatchesArePlain(s, node)
    requires Genuine(h', snap.GetVersion(AssignmentType), snap.GetResources(AssignmentType))
    ensures StreamOk(h', s', st, cl)
  {
    ClientStaysOk(h, h', st.streamNonce, st.streamNonce, cl);
    if AssignmentType in st.slots && st.slots[AssignmentType].chan.Some? {
      StoreView(s, node, snap, s', st.slots[AssignmentType]);
      hide Cache.SetSnapshot, OpenWatchesArePlain, ClientOk, Proofs.SlotOk;
    }
  }

  // ---------- the server's steps ----------

  /** The node has no snapshot, or a genuine one. */
  ghost predicate SnapshotOk(h: History.State, s: Cache.State, node: NodeId) {
    node in s.snapshots ==>
      Genuine(h, s.snapshots[node].GetVersion(AssignmentType), s.snapshots[node].GetResources(AssignmentType))
  }

  /** What filling a slot leaves in the cache for it: an open watch, or an answer. */
  lemma FilledView(h: History.State, s: Cache.State, st: Stream)
    requires CanFillSlot(st) && st.phase.warm.None?
    requires st.phase.request.typeUrl == AssignmentType && st.phase.request.names == []
    requires !s.ads && SnapshotOk(h, s, st.phase.request.node)
    ensures var v := ViewOf(CacheAfterFill(s, st), AfterFill(s, st).slots[AssignmentType]);
            && v.chan.Some? && !Proofs.Spent(v.chan.value) && (v.chan.value.sent == 0 ==> v.open)
            && (forall i :: 0 <= i < |v.chan.value.buffer| ==> Genuine(h, v.chan.value.buffer[i].version, v.chan.value.buffer[i].resources))
  {
    var request := st.phase.request;
    if !Cache.MustWait(s, request) {
      assert Cache.Answers(s.ads, s.snapshots[request.node], request);
    }
  }

  lemma PopClientOk(h: History.State, n: nat, cl: Client)
    requires ClientOk(h, n, cl) && cl.toServer != []
    ensures ClientOk(h, n, cl.(toServer := cl.toServer[1..]))
    ensures RequestOk(cl, cl.toServer[0]) && (|cl.toServer| == 1 ==> cl.lastRequest == Some(cl.toServer[0]))
  {
    var cl' := cl.(toServer := cl.toServer[1..]);
    assert forall d :: RequestOk(cl, d) ==> RequestOk(cl', d);
  }

  /** A request is accepted: it is pending now. */
  lemma PeekedLinkOk(h: History.State, v: View, slot: Slot, cl: Client, request: Request)
    requires LinkOk(h, v, slot, Idle, cl) && cl.toServer != [] && RequestOk(cl, cl.toServer[0])
    requires |cl.toServer| == 1 ==> cl.lastRequest == Some(cl.toServer[0])
    requires request.node == Hash("") && request.typeUrl == AssignmentType && request.names == [] && request.version == cl.toServer[0].version
    ensures LinkOk(h, v, slot, Peeked(request, None), cl.(toServer := cl.toServer[1..]))
  {}

  lemma IgnoredLinkOk(h: History.State, v: View, slot: Slot, cl: Client)
    requires LinkOk(h, v, slot, Idle, cl) && cl.toServer != [] && slot.nonce != "" && cl.toServer[0].nonce != slot.nonce
    requires |cl.toServer| == 1 ==> cl.lastRequest == Some(cl.toServer[0])
    ensures LinkOk(h, v, slot, Idle, cl.(toServer := cl.toServer[1..]))
  {}

  lemma ArriveStreamOk(h: History.State, s: Cache.State, st: Stream, cl: Client)
    requires StreamOk(h, s, st, cl) && cl.toServer != [] && st.phase.Idle?
    ensures StreamOk(h, s, AfterArrive(s, st, cl.toServer[0]), cl.(toServer := cl.toServer[1..]))
  {
    PopClientOk(h, st.streamNonce, cl);
    var request, slot := Resolve(st, cl.toServer[0]), st.slots[AssignmentType];
    assert RequestOk(cl, cl.toServer[0]);
    assert request.node == Hash("") && request.typeUrl == AssignmentType && request.names == [];
    hide ClientOk, ViewOf, LinkOk;
    if Accepts(st, request) {
      PeekedLinkOk(h, ViewOf(s, slot), slot, cl, request);
    } else {
      IgnoredLinkOk(h, ViewOf(s, slot), slot, cl);
    }
  }

  /** The watch of the pending request's predecessor is given up. */
  lemma CancelStreamOk(h: History.State, s: Cache.State, s': Cache.State, st: Stream, cl: Client)
    requires StreamOk(h, s, st, cl) && CanCancelSlot(st)
    ensures StreamOk(h, s', AfterCancel(st), cl)
  {}

  lemma FilledLinkOk(h: History.State, v: View, slot: Slot, request: Request, v': View, slot': Slot, cl: Client)
    requires LinkOk(h, v, slot, Cancelled(request, None), cl)
    requires slot'.nonce == slot.nonce && slot'.chan.Some? && slot'.request == Some(request)
    requires v'.chan.Some? && !Proofs.Spent(v'.chan.value) && (v'.chan.value.sent == 0 ==> v'.open)
    requires forall i :: 0 <= i < |v'.chan.value.buffer| ==> Genuine(h, v'.chan.value.buffer[i].version, v'.chan.value.buffer[i].resources)
    ensures LinkOk(h, v', slot', Idle, cl)
  {}

  /** The slot is filled for the pending request. */
  lemma FillStreamOk(h: History.State, s: Cache.State, st: Stream, cl: Client)
    requires StreamOk(h, s, st, cl) && CanFillSlot(st) && !s.ads && SnapshotOk(h, s, Hash(""))
    ensures StreamOk(h, CacheAfterFill(s, st), AfterFill(s, st), cl)
  {
    var slot := st.slots[AssignmentType];
    assert st.phase.warm.None? && PendingOk(st.phase.request, cl);
    FilledView(h, s, st);
    hide ClientOk, ViewOf, CacheAfterFill, SnapshotOk, LinkOk;
    var slot' := AfterFill(s, st).slots[AssignmentType];
    FilledLinkOk(h, ViewOf(s, slot), slot, st.phase.request, ViewOf(CacheAfterFill(s, st), slot'), slot', cl);
  }

  lemma LeaveStreamOk(h: History.State, s: Cache.State, st: Stream, cl: Client)
    requires StreamOk(h, s, st, cl) && st.phase.Idle?
    ensures StreamOk(h, s, st.(phase := Ending), cl)
  {
    hide ClientOk, ViewOf;
  }

  lemma ShedStreamOk(h: History.State, s: Cache.State, s': Cache.State, st: Stream, cl: Client)
    requires StreamOk(h, s, st, cl) && CanCancelNext(st)
    ensures StreamOk(h, s', Shed(st), cl)
  {
    hide ClientOk, ViewOf, LinkOk;
    assert st.types[1..] == [];
    assert st.slots - {AssignmentType} == map[];
  }

  /** Nonces the client knows of have been issued, so a new one is none of them. */
  lemma NewNonceIsUnknown(h: History.State, n: nat, cl: Client, nonce: string)
    requires ClientOk(h, n, cl) && KnownNonce(cl, nonce)
    ensures nonce != NonceOf(n + 1)
  {
    if nonce != "" {
      var i :| 0 <= i < |cl.received| && cl.received[i].nonce == nonce;
      assert MessageOk(h, n, cl.received[i]);
      var k: nat :| k <= n && nonce == NonceOf(k);
      if nonce == NonceOf(n + 1) {
        Decimal.FormatInjective(k, n + 1);
      }
    }
  }

  lemma SendClientOk(h: History.State, n: nat, cl: Client, m: Message)
    requires ClientOk(h, n, cl) && MessageOk(h, n + 1, m)
    ensures ClientOk(h, n + 1, cl.(toClient := cl.toClient + [m]))
  {
    ClientStaysOk(h, h, n, n + 1, cl);
    assert forall d :: RequestOk(cl, d) ==> RequestOk(cl.(toClient := cl.toClient + [m]), d);
  }

  /** The response just sent is the latest one; no request of the client can have echoed it yet. */
  lemma SendLinkOk(h: History.State, v: View, slot: Slot, cl: Client, n: nat, m: Message)
    requires LinkOk(h, v, slot, Idle, cl) && ClientOk(h, n, cl) && slot.chan.Some?
    requires v.chan.Some? && v.chan.value.sent == 1 && m.nonce == NonceOf(n + 1)
    ensures LinkOk(h, v.(chan := Some(v.chan.value.(buffer := []))), slot.(nonce := NonceOf(n + 1)), Idle, cl.(toClient := cl.toClient + [m]))
  {
    if cl.lastRequest.Some? {
      NewNonceIsUnknown(h, n, cl, cl.lastRequest.value.nonce);
    }
  }

  lemma SentView(s: Cache.State, st: Stream)
    requires AssignmentType in st.slots && CanSend(s, st, AssignmentType)
    requires var c := st.slots[AssignmentType].chan.value; |s.chans[c].buffer| <= s.chans[c].sent <= 1
    ensures var v := ViewOf(s, st.slots[AssignmentType]);
            v.chan.Some? &&
            ViewOf(CacheAfterSend(s, st, AssignmentType), AfterSend(s, st, AssignmentType).slots[AssignmentType]) == v.(chan := Some(v.chan.value.(buffer := [])))
  {
    var c := st.slots[AssignmentType].chan.value;
    assert s.chans[c].buffer[1..] == [];
  }

  lemma SendStreamOk(h: History.State, s: Cache.State, st: Stream, cl: Client, m: Message)
    requires StreamOk(h, s, st, cl) && CanSend(s, st, AssignmentType)
    requires var c := st.slots[AssignmentType].chan.value; |s.chans[c].buffer| <= s.chans[c].sent <= 1
    requires var r := s.chans[st.slots[AssignmentType].chan.value].buffer[0];
             m == Message(r.version, r.resources, NonceOf(st.streamNonce + 1))
    ensures StreamOk(h, CacheAfterSend(s, st, AssignmentType), AfterSend(s, st, AssignmentType), cl.(toClient := cl.toClient + [m]))
  {
    var slot := st.slots[AssignmentType];
    var v := ViewOf(s, slot);
    SentView(s, st);
    assert v.chan.value.sent == 1;
    assert MessageOk(h, st.streamNonce + 1, m);
    hide ClientOk, LinkOk, MessageOk, ViewOf, CacheAfterSend;
    SendClientOk(h, st.streamNonce, cl, m);
    SendLinkOk(h, v, slot, cl, st.streamNonce, m);
  }

  // ---------- what a stream's steps mean for the other streams ----------

  lemma CancelKeepsOtherViews(w: World, sid: StreamId, typ: TypeUrl, sid2: StreamId, typ2: TypeUrl)
    requires Proofs.Inv(w) && Proofs.HasSlot(w, sid, typ) && Proofs.HasSlot(w, sid2, typ2) && (sid2 != sid || typ2 != typ)
    ensures var slot2 := Proofs.SlotOf(w, sid2, typ2);
            ViewOf(Cache.DoCancel(w.cache, Proofs.SlotOf(w, sid, typ).cancel), slot2) == ViewOf(w.cache, slot2)
  {
    Proofs.CancelTouchesNoOther(w, sid, typ, sid2, typ2);
    Cache.DoCancelEffect(w.cache, Proofs.SlotOf(w, sid, typ).cancel);
    assert !Proofs.Clash(Proofs.SlotOf(w, sid, typ), Proofs.SlotOf(w, sid2, typ2));
  }

  lemma FillKeepsOtherViews(w: World, sid: StreamId, sid2: StreamId, typ2: TypeUrl)
    requires Proofs.Inv(w) && sid in w.streams && CanFillSlot(w.streams[sid]) && Proofs.HasSlot(w, sid2, typ2) && sid2 != sid
    ensures var slot2 := Proofs.SlotOf(w, sid2, typ2);
            ViewOf(CacheAfterFill(w.cache, w.streams[sid]), slot2) == ViewOf(w.cache, slot2)
  {
    Proofs.FillEffect(w.cache, w.streams[sid]);
    assert Proofs.SlotOk(w.cache, typ2, Proofs.SlotOf(w, sid2, typ2), w.streams[sid2].log);
    hide CacheAfterFill, Cache.Inv;
  }

  lemma SendKeepsOtherViews(w: World, sid: StreamId, typ: TypeUrl, sid2: StreamId, typ2: TypeUrl)
    requires Proofs.Inv(w) && sid in w.streams && CanSend(w.cache, w.streams[sid], typ) && Proofs.HasSlot(w, sid2, typ2) && sid2 != sid
    ensures var slot2 := Proofs.SlotOf(w, sid2, typ2);
            ViewOf(CacheAfterSend(w.cache, w.streams[sid], typ), slot2) == ViewOf(w.cache, slot2)
  {
    assert Proofs.HasSlot(w, sid, typ);
    assert !Proofs.Clash(Proofs.SlotOf(w, sid, typ), Proofs.SlotOf(w, sid2, typ2));
  }

  // ---------- every step keeps the invariant ----------

  lemma SetClientKeepsInv(y: System, sid: StreamId, cl: Client)
    requires Inv(y) && sid in y.clients && StreamOk(y.history, y.world.cache, y.world.streams[sid], cl)
    ensures Inv(y.(clients := y.clients[sid := cl]))
  {
    hide StreamOk, Proofs.Inv, History.Inv;
    var clients := y.clients[sid := cl];
    assert clients.Keys == y.clients.Keys;
    forall sid2 | sid2 in clients
      ensures StreamOk(y.history, y.world.cache, y.world.streams[sid2], clients[sid2])
    {
      if sid2 != sid {
        assert clients[sid2] == y.clients[sid2];
      }
    }
  }

  lemma ClientStepKeepsInv(y: System, sid: StreamId, clientId: string)
    requires Inv(y) && sid in y.clients
    ensures Inv(y.(clients := y.clients[sid := RequestAssignments(y.clients[sid], clientId)]))
    ensures Inv(y.(clients := y.clients[sid := Ack(y.clients[sid])]))
    ensures Inv(y.(clients := y.clients[sid := Nack(y.clients[sid])]))
    ensures y.clients[sid].toClient != [] ==> Inv(y.(clients := y.clients[sid := WaitForAssignments(y.clients[sid])]))
  {
    var cl := y.clients[sid];
    ClientStepOk(y.history, y.world.cache, y.world.streams[sid], cl, clientId);
    SetClientKeepsInv(y, sid, RequestAssignments(cl, clientId));
    SetClientKeepsInv(y, sid, Ack(cl));
    SetClientKeepsInv(y, sid, Nack(cl));
    if cl.toClient != [] {
      SetClientKeepsInv(y, sid, WaitForAssignments(cl));
    }
  }

  lemma HistoryStepKeepsInv(y: System, e: History.Event, y': System)
    requires Inv(y) && HistoryStep(y, e, y') && (e.Generate? || e.FetchOld? || e.Assign?)
    ensures Inv(y')
  {
    History.NextKeepsInv(y.history, e, y'.history);
    History.NextExtends(y.history, e, y'.history);
    forall sid | sid in y.clients
      ensures StreamOk(y'.history, y.world.cache, y.world.streams[sid], y.clients[sid])
    {
      StreamStaysOk(y.history, y'.history, y.world.cache, y.world.cache, y.world.streams[sid], y.clients[sid]);
    }
  }

  lemma WatchesArePlain(y: System, node: NodeId)
    requires Inv(y)
    ensures OpenWatchesArePlain(y.world.cache, node)
  {
    forall id | Cache.IsOpen(y.world.cache, node, id)
      ensures var w := Cache.WatchAt(y.world.cache, node, id);
              && w.chan in y.world.cache.chans && y.world.cache.chans[w.chan] == NEW_CHAN
              && w.request.typeUrl == AssignmentType && w.request.names == []
    {
      var sid, typ :| Proofs.Owns(y.world, sid, typ, node, id);
      PartsOf(y, sid);
      OwnersSlot(y, sid, typ, node, id);
      assert Cache.WatchOk(y.world.cache, node, id);
    }
  }

  lemma StoreKeepsStream(y: System, node: NodeId, snap: Snapshot, s': Cache.State, h': History.State, sid: StreamId)
    requires StreamParts(y, sid) && !y.world.cache.ads && History.Extends(y.history, h')
    requires Genuine(y.history, snap.GetVersion(AssignmentType), snap.GetResources(AssignmentType))
    requires OpenWatchesArePlain(y.world.cache, node) && Cache.SetSnapshot(y.world.cache, node, snap, s')
    ensures StreamOk(h', s', y.world.streams[sid], y.clients[sid])
  {
    StoreStreamOk(y.history, y.world.cache, node, snap, s', y.world.streams[sid], y.clients[sid], h');
  }

  lemma VersionedIsGenuine(h: History.State, rid: nat)
    requires History.Inv(h) && h.server.Mads? && h.types == {AssignmentType} && History.PhaseOf(h, rid).Versioned?
    ensures var snap := h.reconcilers[rid].snap;
            Genuine(h, snap.GetVersion(AssignmentType), snap.GetResources(AssignmentType))
  {
    var snap := h.reconcilers[rid].snap;
    assert History.PhaseOk(h, h.reconcilers[rid]);
    assert History.Means(h, AssignmentType, snap.byType[AssignmentType]);
  }

  lemma StoreKeepsInv(y: System, rid: nat, y': System)
    requires Inv(y) && MadsModel.Next(y, Stores(rid), y')
    ensures Inv(y')
  {
    var p := y.history.reconcilers[rid];
    History.NextKeepsInv(y.history, History.Store(rid), y'.history);
    History.NextExtends(y.history, History.Store(rid), y'.history);
    Proofs.NextKeepsInv(y.world, SetSnapshot(p.node, p.snap), y'.world);
    WatchesArePlain(y, p.node);
    VersionedIsGenuine(y.history, rid);
    forall sid | sid in y.clients
      ensures StreamOk(y'.history, y'.world.cache, y'.world.streams[sid], y'.clients[sid])
    {
      PartsOf(y, sid);
      StoreKeepsStream(y, p.node, p.snap, y'.world.cache, y'.history, sid);
    }
  }

  /** Streams other than `sid` see the same of `s'` as of the cache. */
  ghost predicate Unnoticed(y: System, sid: StreamId, s': Cache.State) {
    forall sid2 :: sid2 in y.world.streams && sid2 != sid && AssignmentType in y.world.streams[sid2].slots ==>
      ViewOf(s', y.world.streams[sid2].slots[AssignmentType]) == ViewOf(y.world.cache, y.world.streams[sid2].slots[AssignmentType])
  }

  /** A step of one stream that is in order afterwards, and unnoticed by the others, keeps the invariant. */
  lemma StreamStepKeepsInv(y: System, sid: StreamId, s': Cache.State, st': Stream, cl': Client)
    requires Inv(y) && sid in y.clients
    requires Proofs.Inv(Update(y.world, s', sid, st'))
    requires s'.snapshots == y.world.cache.snapshots && !s'.ads
    requires StreamOk(y.history, s', st', cl')
    requires Unnoticed(y, sid, s')
    ensures Inv(System(Update(y.world, s', sid, st'), y.history, y.clients[sid := cl']))
  {
    hide StreamOk, Proofs.Inv, History.Inv, ViewOf;
    var streams, clients := y.world.streams[sid := st'], y.clients[sid := cl'];
    assert clients.Keys == y.clients.Keys && streams.Keys == y.world.streams.Keys;
    forall sid2 | sid2 in clients
      ensures StreamOk(y.history, s', streams[sid2], clients[sid2])
    {
      if sid2 != sid {
        StreamStaysOk(y.history, y.history, y.world.cache, s', y.world.streams[sid2], y.clients[sid2]);
      }
    }
  }

  lemma NothingIsUnnoticed(y: System, sid: StreamId)
    ensures Unnoticed(y, sid, y.world.cache)
  {}

  lemma CancelIsUnnoticed(y: System, sid: StreamId, typ: TypeUrl)
    requires Proofs.Inv(y.world) && Proofs.HasSlot(y.world, sid, typ)
    ensures var s' := Cache.DoCancel(y.world.cache, Proofs.SlotOf(y.world, sid, typ).cancel);
            Unnoticed(y, sid, s') && s'.snapshots == y.world.cache.snapshots && s'.ads == y.world.cache.ads
  {
    Cache.DoCancelEffect(y.world.cache, Proofs.SlotOf(y.world, sid, typ).cancel);
    hide Proofs.Inv, ViewOf, Cache.DoCancel;
    var s' := Cache.DoCancel(y.world.cache, Proofs.SlotOf(y.world, sid, typ).cancel);
    forall sid2 | sid2 in y.world.streams && sid2 != sid && AssignmentType in y.world.streams[sid2].slots
      ensures ViewOf(s', y.world.streams[sid2].slots[AssignmentType]) == ViewOf(y.world.cache, y.world.streams[sid2].slots[AssignmentType])
    {
      assert Proofs.HasSlot(y.world, sid2, AssignmentType);
      CancelKeepsOtherViews(y.world, sid, typ, sid2, AssignmentType);
    }
  }

  lemma FillIsUnnoticed(y: System, sid: StreamId)
    requires Proofs.Inv(y.world) && sid in y.world.streams && CanFillSlot(y.world.streams[sid])
    ensures var s' := CacheAfterFill(y.world.cache, y.world.streams[sid]);
            Unnoticed(y, sid, s') && s'.snapshots == y.world.cache.snapshots && s'.ads == y.world.cache.ads
  {
    Proofs.FillEffect(y.world.cache, y.world.streams[sid]);
    hide Proofs.Inv, ViewOf, CacheAfterFill;
    var s' := CacheAfterFill(y.world.cache, y.world.streams[sid]);
    forall sid2 | sid2 in y.world.streams && sid2 != sid && AssignmentType in y.world.streams[sid2].slots
      ensures ViewOf(s', y.world.streams[sid2].slots[AssignmentType]) == ViewOf(y.world.cache, y.world.streams[sid2].slots[AssignmentType])
    {
      assert Proofs.HasSlot(y.world, sid2, AssignmentType);
      FillKeepsOtherViews(y.world, sid, sid2, AssignmentType);
    }
  }

  lemma SendIsUnnoticed(y: System, sid: StreamId)
    requires Proofs.Inv(y.world) && sid in y.world.streams && CanSend(y.world.cache, y.world.streams[sid], AssignmentType)
    ensures Unnoticed(y, sid, CacheAfterSend(y.world.cache, y.world.streams[sid], AssignmentType))
  {
    hide Proofs.Inv, ViewOf, CacheAfterSend;
    var s' := CacheAfterSend(y.world.cache, y.world.streams[sid], AssignmentType);
    forall sid2 | sid2 in y.world.streams && sid2 != sid && AssignmentType in y.world.streams[sid2].slots
      ensures ViewOf(s', y.world.streams[sid2].slots[AssignmentType]) == ViewOf(y.world.cache, y.world.streams[sid2].slots[AssignmentType])
    {
      assert Proofs.HasSlot(y.world, sid2, AssignmentType);
      SendKeepsOtherViews(y.world, sid, AssignmentType, sid2, AssignmentType);
    }
  }

  /** What the invariant says about the parts. */
  lemma Parts(y: System, sid: StreamId)
    requires Inv(y) && sid in y.world.streams
    ensures sid in y.clients && Proofs.Inv(y.world) && !y.world.cache.ads
    ensures StreamOk(y.history, y.world.cache, y.world.streams[sid], y.clients[sid])
    ensures SnapshotOk(y.history, y.world.cache, Hash(""))
  {
    if Hash("") in y.world.cache.snapshots {
      SnapshotIsGenuine(y, Hash(""));
    }
  }

  lemma ArriveKeepsInv(y: System, sid: StreamId, y': System)
    requires Inv(y) && MadsModel.Next(y, ServerReceives(sid), y')
    ensures Inv(y')
  {
    hide Inv, StreamOk, Proofs.Inv, ViewOf, AfterArrive, SnapshotOk;
    Parts(y, sid);
    var s, st, cl := y.world.cache, y.world.streams[sid], y.clients[sid];
    Proofs.ArriveKeepsInv(y.world, sid, cl.toServer[0], y'.world);
    ArriveStreamOk(y.history, s, st, cl);
    NothingIsUnnoticed(y, sid);
    StreamStepKeepsInv(y, sid, s, AfterArrive(s, st, cl.toServer[0]), cl.(toServer := cl.toServer[1..]));
  }

  lemma SameClient(y: System, sid: StreamId)
    requires sid in y.clients
    ensures y.clients[sid := y.clients[sid]] == y.clients
  {}

  lemma CancelsKeepsInv(y: System, sid: StreamId, y': System)
    requires Inv(y) && MadsModel.Next(y, ServerCancels(sid), y')
    ensures Inv(y')
  {
    hide Inv, StreamOk, Proofs.Inv, ViewOf, AfterCancel, SnapshotOk, Cache.DoCancel, Unnoticed;
    Parts(y, sid);
    var s, st, cl := y.world.cache, y.world.streams[sid], y.clients[sid];
    Proofs.CancelKeepsInv(y.world, sid, y'.world);
    CancelStreamOk(y.history, s, y'.world.cache, st, cl);
    CancelIsUnnoticed(y, sid, st.phase.request.typeUrl);
    SameClient(y, sid);
    StreamStepKeepsInv(y, sid, y'.world.cache, AfterCancel(st), cl);
  }

  lemma FillsKeepsInv(y: System, sid: StreamId, y': System)
    requires Inv(y) && MadsModel.Next(y, ServerFills(sid), y')
    ensures Inv(y')
  {
    hide Inv, StreamOk, Proofs.Inv, ViewOf, AfterFill, CacheAfterFill, SnapshotOk, Unnoticed;
    Parts(y, sid);
    var s, st, cl := y.world.cache, y.world.streams[sid], y.clients[sid];
    Proofs.FillKeepsInv(y.world, sid, y'.world);
    FillStreamOk(y.history, s, st, cl);
    FillIsUnnoticed(y, sid);
    SameClient(y, sid);
    StreamStepKeepsInv(y, sid, y'.world.cache, AfterFill(s, st), cl);
  }

  lemma LeavesKeepsInv(y: System, sid: StreamId, y': System)
    requires Inv(y) && MadsModel.Next(y, ServerLeaves(sid), y')
    ensures Inv(y')
  {
    hide Inv, StreamOk, Proofs.Inv, ViewOf, SnapshotOk;
    Parts(y, sid);
    var s, st, cl := y.world.cache, y.world.streams[sid], y.clients[sid];
    Proofs.LeaveKeepsInv(y.world, sid, y'.world);
    LeaveStreamOk(y.history, s, st, cl);
    NothingIsUnnoticed(y, sid);
    SameClient(y, sid);
    StreamStepKeepsInv(y, sid, s, st.(phase := Ending), cl);
  }

  lemma CleansUpKeepsInv(y: System, sid: StreamId, y': System)
    requires Inv(y) && MadsModel.Next(y, ServerCleansUp(sid), y')
    ensures Inv(y')
  {
    hide Inv, StreamOk, Proofs.Inv, ViewOf, Shed, SnapshotOk, Cache.DoCancel, Unnoticed;
    Parts(y, sid);
    var s, st, cl := y.world.cache, y.world.streams[sid], y.clients[sid];
    Proofs.CancelNextKeepsInv(y.world, sid, y'.world);
    ShedStreamOk(y.history, s, y'.world.cache, st, cl);
    CancelIsUnnoticed(y, sid, st.types[0]);
    SameClient(y, sid);
    StreamStepKeepsInv(y, sid, y'.world.cache, Shed(st), cl);
  }

  lemma ClosesKeepsInv(y: System, sid: StreamId, y': System)
    requires Inv(y) && MadsModel.Next(y, ServerCloses(sid), y')
    ensures Inv(y')
  {
    hide StreamOk, Proofs.Inv, History.Inv;
    Proofs.CloseKeepsInv(y.world, sid, y'.world);
  }

  function Sendable(y: System, sid: StreamId): Message
    requires sid in y.world.streams && CanSend(y.world.cache, y.world.streams[sid], AssignmentType)
  {
    var st := y.world.streams[sid];
    var r := y.world.cache.chans[st.slots[AssignmentType].chan.value].buffer[0];
    Message(r.version, r.resources, NonceOf(st.streamNonce + 1))
  }

  function Sending(y: System, sid: StreamId): System
    requires sid in y.clients && sid in y.world.streams && CanSend(y.world.cache, y.world.streams[sid], AssignmentType)
  {
    var s, st, cl := y.world.cache, y.world.streams[sid], y.clients[sid];
    System(Update(y.world, CacheAfterSend(s, st, AssignmentType), sid, AfterSend(s, st, AssignmentType)),
           y.history, y.clients[sid := cl.(toClient := cl.toClient + [Sendable(y, sid)])])
  }

  lemma SendIsStep(w: World, sid: StreamId)
    requires sid in w.streams && CanSend(w.cache, w.streams[sid], AssignmentType)
    ensures StreamModel.Next(w, Send(sid, AssignmentType),
              Update(w, CacheAfterSend(w.cache, w.streams[sid], AssignmentType), sid, AfterSend(w.cache, w.streams[sid], AssignmentType)))
  {
    hide CacheAfterSend, AfterSend, CanSend;
  }

  lemma SendFromChannel(w: World, sid: StreamId)
    requires Proofs.Inv(w) && sid in w.streams && CanSend(w.cache, w.streams[sid], AssignmentType)
    ensures var s := w.cache;
            var c, s' := w.streams[sid].slots[AssignmentType].chan.value, CacheAfterSend(s, w.streams[sid], AssignmentType);
            |s.chans[c].buffer| <= s.chans[c].sent <= 1 && s'.snapshots == s.snapshots && s'.ads == s.ads
  {
    hide Proofs.StreamOk, Proofs.SlotsApart, Proofs.Owned;
  }

  lemma SendKeepsWorld(y: System, sid: StreamId)
    requires Inv(y) && sid in y.clients && sid in y.world.streams && CanSend(y.world.cache, y.world.streams[sid], AssignmentType)
    ensures var s, st := y.world.cache, y.world.streams[sid];
            Proofs.Inv(Update(y.world, CacheAfterSend(s, st, AssignmentType), sid, AfterSend(s, st, AssignmentType)))
  {
    hide StreamOk, Proofs.Inv, History.Inv, AfterSend, CacheAfterSend, StreamModel.Next;
    var s, st := y.world.cache, y.world.streams[sid];
    SendIsStep(y.world, sid);
    Proofs.SendKeepsInv(y.world, sid, AssignmentType,
      Update(y.world, CacheAfterSend(s, st, AssignmentType), sid, AfterSend(s, st, AssignmentType)));
  }

  lemma SendKeepsOwn(y: System, sid: StreamId)
    requires Inv(y) && sid in y.clients && sid in y.world.streams && CanSend(y.world.cache, y.world.streams[sid], AssignmentType)
    ensures var s, st, cl := y.world.cache, y.world.streams[sid], y.clients[sid];
            StreamOk(y.history, CacheAfterSend(s, st, AssignmentType), AfterSend(s, st, AssignmentType), cl.(toClient := cl.toClient + [Sendable(y, sid)]))
  {
    hide StreamOk, Proofs.Inv, History.Inv, AfterSend, CacheAfterSend;
    SendFromChannel(y.world, sid);
    SendStreamOk(y.history, y.world.cache, y.world.streams[sid], y.clients[sid], Sendable(y, sid));
  }

  lemma SendKeepsInv(y: System, sid: StreamId)
    requires Inv(y) && sid in y.clients && sid in y.world.streams && CanSend(y.world.cache, y.world.streams[sid], AssignmentType)
    ensures Inv(Sending(y, sid))
  {
    assert y.clients.Keys == y.world.streams.Keys && Proofs.Inv(y.world) && !y.world.cache.ads;
    hide Inv, StreamOk, Proofs.Inv, ViewOf, CacheAfterSend, AfterSend, CanSend, Sendable;
    var s, st, cl := y.world.cache, y.world.streams[sid], y.clients[sid];
    SendKeepsWorld(y, sid);
    SendKeepsOwn(y, sid);
    SendFromChannel(y.world, sid);
    SendIsUnnoticed(y, sid);
    var s', st' := CacheAfterSend(s, st, AssignmentType), AfterSend(s, st, AssignmentType);
    StreamStepKeepsInv(y, sid, s', st', cl.(toClient := cl.toClient + [Sendable(y, sid)]));
  }

  lemma OpenKeepsInv(y: System, sid: StreamId, y': System)
    requires Inv(y) && MadsModel.Next(y, OpenStream(sid), y')
    ensures Inv(y')
  {
    Proofs.NextKeepsInv(y.world, Open(sid, MADS_TYPES, AssignmentType), y'.world);
    var st := NewStream(MADS_TYPES, AssignmentType);
    assert st.slots.Keys == {AssignmentType};
    assert StreamOk(y.history, y.world.cache, st, NEW_CLIENT);
  }

  lemma SendsKeepsInv(y: System, sid: StreamId, y': System)
    requires Inv(y) && MadsModel.Next(y, ServerSends(sid), y')
    ensures Inv(y')
  {
    hide Inv;
    SendKeepsInv(y, sid);
  }

  lemma ClientKeepsInv(y: System, e: MadsModel.Event, y': System)
    requires Inv(y) && MadsModel.Next(y, e, y')
    requires e.ClientRequests? || e.ClientAcks? || e.ClientNacks? || e.ClientReceives?
    ensures Inv(y')
  {
    hide Inv, RequestAssignments, Ack, Nack, WaitForAssignments;
    ClientStepKeepsInv(y, e.sid, if e.ClientRequests? then e.clientId else "");
  }

  lemma ReconcilerKeepsInv(y: System, e: MadsModel.Event, y': System)
    requires Inv(y) && MadsModel.Next(y, e, y') && (e.Generates? || e.Fetches? || e.Assigns?)
    ensures Inv(y')
  {
    hide Inv, HistoryStep;
    match e
    case Generates(rid, items) => HistoryStepKeepsInv(y, History.Generate(rid, Hash(""), map[AssignmentType := items]), y');
    case Fetches(rid) => HistoryStepKeepsInv(y, History.FetchOld(rid), y');
    case Assigns(rid, uuid) => HistoryStepKeepsInv(y, History.Assign(rid, map[AssignmentType := uuid]), y');
  }

  lemma NextKeepsInv(y: System, e: MadsModel.Event, y': System)
    requires Inv(y) && MadsModel.Next(y, e, y')
    ensures Inv(y')
  {
    hide *;
    match e
    case OpenStream(sid) => OpenKeepsInv(y, sid, y');
    case ClientRequests(_, _) => ClientKeepsInv(y, e, y');
    case ClientAcks(_) => ClientKeepsInv(y, e, y');
    case ClientNacks(_) => ClientKeepsInv(y, e, y');
    case ClientReceives(_) => ClientKeepsInv(y, e, y');
    case ServerReceives(sid) => ArriveKeepsInv(y, sid, y');
    case ServerCancels(sid) => CancelsKeepsInv(y, sid, y');
    case ServerFills(sid) => FillsKeepsInv(y, sid, y');
    case ServerSends(sid) => SendsKeepsInv(y, sid, y');
    case ServerLeaves(sid) => LeavesKeepsInv(y, sid, y');
    case ServerCleansUp(sid) => CleansUpKeepsInv(y, sid, y');
    case ServerCloses(sid) => ClosesKeepsInv(y, sid, y');
    case Generates(_, _) => ReconcilerKeepsInv(y, e, y');
    case Fetches(_) => ReconcilerKeepsInv(y, e, y');
    case Assigns(_, _) => ReconcilerKeepsInv(y, e, y');
    case Stores(rid) => StoreKeepsInv(y, rid, y');
  }
}
