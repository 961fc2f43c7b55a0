/** The body of `process`, as methods that update one stream's state and the cache. Each method is what
    happens up to and including one call into the cache; other goroutines may run between them. */
module StreamServer {
  import opened Basics
  import opened Xds
  import opened StreamLog
  import opened StreamModel
  import opened SnapshotCache
  import Model = CacheModel
  import Proofs = StreamProofs

  class StreamServer {
    const cache: SnapshotCache
    const defaultType: TypeUrl
    /** The slots still to be cancelled when the loop is left, in order. */
    var types: seq<TypeUrl>
    var slots: map<TypeUrl, Slot>
    var endpointNonceAcked: bool
    var streamNonce: nat
    var node: NodeId
    /** Where the loop is, with the request being handled and what was fetched for it. */
    var phase: Phase
    ghost var log: seq<Entry>

    ghost function State(): Stream
      reads this
    {
      Stream(types, defaultType, slots, endpointNonceAcked, streamNonce, node, phase, log)
    }

    ghost predicate Valid()
      reads this, cache
    {
      cache.Valid() && Proofs.StreamOk(cache.State(), State())
    }

    constructor (cache: SnapshotCache, types: seq<TypeUrl>, defaultType: TypeUrl)
      requires cache.Valid() && Distinct(types)
      ensures Valid() && this.cache == cache && State() == NewStream(types, defaultType)
    {
      this.cache, this.types, this.defaultType := cache, types, defaultType;
      slots := map t | t in types :: EMPTY_SLOT;
      endpointNonceAcked, streamNonce, node, phase, log := false, 0, "", Idle, [];
      new;
      Proofs.NewStreamOk(cache.State(), types, defaultType);
    }

    /** A response is ready on the slot's channel: stamp it and remember the nonce. */
    method HandleResponse(typ: TypeUrl) returns (resp: Response, nonce: string)
      requires Valid() && CanSend(cache.State(), State(), typ)
      modifies this, cache
      ensures State() == AfterSend(old(cache.State()), old(State()), typ)
      ensures cache.State() == CacheAfterSend(old(cache.State()), old(State()), typ) && cache.Valid()
      ensures resp == old(cache.chans)[old(slots)[typ].chan.value].buffer[0] && nonce == NonceOf(streamNonce)
    {
      hide Model.Inv, Proofs.StreamOk;
      resp := cache.Receive(slots[typ].chan.value);
      streamNonce := streamNonce + 1;
      nonce := NonceOf(streamNonce);
      slots := slots[typ := slots[typ].(nonce := nonce)];
      if typ == EndpointType {
        endpointNonceAcked := false;
      }
      log := log + [Sent(typ, streamNonce, resp)];
    }

    /** `peekResponse`: fetch with the version blanked out, then restore it. */
    method PeekResponse(request: Request) returns (resp: Option<Response>)
      ensures resp == Peek(cache.State(), request)
    {
      var fetched := cache.Fetch(request.(version := ""));
      if fetched.Err? {
        return None;
      }
      return Some(fetched.value.(request := fetched.value.request.(version := request.version)));
    }

    /** A request from the client, up to the call to `Fetch`. */
    method HandleRequest(d: DiscoveryRequest)
      requires phase.Idle?
      modifies this
      ensures State() == AfterArrive(cache.State(), old(State()), d)
    {
      var request := Request(if d.node.Some? then d.node.value else node, d.typeUrl, d.version, d.names, d.nonce);
      if d.typeUrl == AnyType {
        if defaultType == AnyType {
          phase := Ending;
          return;
        }
        request := request.(typeUrl := defaultType);
      }
      node := request.node;
      if request.typeUrl in slots && (slots[request.typeUrl].nonce == "" || slots[request.typeUrl].nonce == d.nonce) {
        var warm: Option<Response> := None;
        if request.typeUrl == EndpointType && endpointNonceAcked {
          warm := PeekResponse(request);
        }
        phase := Peeked(request, warm);
      } else {
        log := log + [Ignored(request)];
      }
    }

    /** The call to the slot's cancel function. */
    method CancelSlot()
      requires Valid() && CanCancelSlot(State())
      modifies this, cache
      ensures State() == AfterCancel(old(State()))
      ensures cache.State() == CacheAfterCancel(old(cache.State()), old(State())) && cache.Valid()
    {
      var request, warm := phase.request, phase.warm;
      var typ := request.typeUrl;
      var slot := slots[typ];
      MayCancel(cache.State(), State(), typ);
      hide Model.Inv, Proofs.StreamOk, Model.DoCancel;
      if typ == EndpointType {
        endpointNonceAcked := slot.nonce != "" && slot.nonce == request.nonce;
      }
      cache.Release(slot.cancel);
      slots := slots[typ := GivenUp(slot)];
      phase := Cancelled(request, warm);
      log := log + [Processed(request)];
    }

    /** Schedule what was fetched, or open a new watch. */
    method FillSlot()
      requires cache.Valid() && CanFillSlot(State())
      modifies this, cache
      ensures State() == AfterFill(old(cache.State()), old(State()))
      ensures cache.State() == CacheAfterFill(old(cache.State()), old(State())) && cache.Valid()
    {
      hide Model.Inv, Model.CreateWatch;
      var request := phase.request;
      var typ := request.typeUrl;
      var chan, cancel;
      if phase.warm.Some? {
        chan := cache.MakeFilled(phase.warm.value);
        cancel := CloseChan(chan);
      } else {
        chan, cancel := cache.CreateWatch(request);
      }
      slots := slots[typ := Slot(Some(chan), cancel, slots[typ].nonce, Some(request))];
      phase := Idle;
    }

    /** One call of `watches.Cancel`; `more` says whether there are others to come. */
    method CancelNext() returns (more: bool)
      requires Valid() && CanCancelNext(State())
      modifies this, cache
      ensures State() == Shed(old(State())) && more == (types != [])
      ensures cache.State() == Model.DoCancel(old(cache.State()), old(slots[types[0]]).cancel) && cache.Valid()
    {
      MayCancel(cache.State(), State(), types[0]);
      hide Model.Inv, Proofs.StreamOk, Model.DoCancel;
      cache.Release(slots[types[0]].cancel);
      if types[0] == EndpointType {
        endpointNonceAcked := false;
      }
      slots, types := slots - {types[0]}, types[1..];
      more := |types| > 0;
    }
  }

  lemma MayCancel(s: Model.State, st: Stream, typ: TypeUrl)
    requires Proofs.StreamOk(s, st) && typ in st.slots
    ensures Model.CanCancel(s, st.slots[typ].cancel)
  {
    assert Proofs.SlotOk(s, typ, st.slots[typ], st.log);
  }
}
