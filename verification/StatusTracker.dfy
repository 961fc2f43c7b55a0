/** The tracker, the flusher and the store of discovery statistics as objects. */
module StatusTracker {
  import opened Basics
  import opened Xds
  import opened StatusModel

  class StreamState {
    var stopped: bool
    var dataplane: Option<DataplaneId>
    var id: string
    var instance: string
    var connectTime: int
    var disconnectTime: Option<int>
    var lastUpdate: Option<int>
    var total: Stats
    var cds: Stats
    var eds: Stats
    var lds: Stats
    var rds: Stats

    constructor (id: string, instance: string, now: int)
      ensures !stopped && dataplane.None? && GetSubscription() == NewSubscription(id, instance, now)
    {
      stopped, dataplane := false, None;
      this.id, this.instance, connectTime, disconnectTime, lastUpdate := id, instance, now, None, None;
      total, cds, eds, lds, rds := NO_STATS, NO_STATS, NO_STATS, NO_STATS, NO_STATS;
    }

    /** A copy of the subscription, as `GetStatus` returns it. */
    function GetSubscription(): Subscription
      reads this
    {
      Subscription(id, instance, connectTime, disconnectTime, Status(lastUpdate, Counters(total, cds, eds, lds, rds)))
    }

    /** The object holds what the model says about the stream. */
    ghost predicate Represents(st: Stream)
      reads this
    {
      dataplane == st.dataplane && GetSubscription() == st.subscription && (stopped <==> !st.open)
    }

    /** `StatsOf(typeUrl)` picks the counters to increment; other types get throw-away ones. */
    method BumpStatsOf(typeUrl: TypeUrl, kind: EventKind)
      modifies this`cds, this`eds, this`lds, this`rds
      ensures Counters(Bump(total, kind), cds, eds, lds, rds) == Count(old(Counters(total, cds, eds, lds, rds)), Event(kind, typeUrl))
    {
      match typeUrl
      case ClusterType => cds := Bump(cds, kind);
      case EndpointType => eds := Bump(eds, kind);
      case ListenerType => lds := Bump(lds, kind);
      case RouteType => rds := Bump(rds, kind);
      case _ =>
    }

    method CountEvent(typeUrl: TypeUrl, kind: EventKind, now: int)
      modifies this`lastUpdate, this`total, this`cds, this`eds, this`lds, this`rds
      ensures GetSubscription() == Counted(old(GetSubscription()), Event(kind, typeUrl), now)
    {
      lastUpdate := Some(now);
      BumpStatsOf(typeUrl, kind);
      total := Bump(total, kind);
    }
  }

  class Tracker {
    var streams: map<int, StreamState>

    /** Only running streams are tracked, each by its own object. */
    ghost predicate Valid()
      reads this, streams.Values
    {
      && (forall s :: s in streams ==> !streams[s].stopped)
      && (forall s, t :: s in streams && t in streams && s != t ==> streams[s] != streams[t])
    }

    constructor ()
      ensures Valid() && streams == map[]
    {
      streams := map[];
    }

    method OnStreamOpen(streamID: int, id: string, instance: string, now: int)
      requires Valid()
      modifies this
      ensures Valid() && streamID in streams && fresh(streams[streamID])
      ensures streams == old(streams)[streamID := streams[streamID]]
      ensures streams[streamID].Represents(Stream(None, NewSubscription(id, instance, now), true, NotStarted, []))
    {
      var state := new StreamState(id, instance, now);
      streams := streams[streamID := state];
    }

    /** The stop channel is open when it gets closed, so closing it never panics. */
    method OnStreamClosed(streamID: int, now: int, ghost st: Stream)
      requires Valid() && streamID in streams && streams[streamID].Represents(st)
      modifies this, streams[streamID]
      ensures Valid() && streams == old(streams) - {streamID}
      ensures !old(streams[streamID].stopped)
      ensures old(streams[streamID]).Represents(st.(open := false, subscription := st.subscription.(disconnectTime := Some(now))))
    {
      var state := streams[streamID];
      streams := streams - {streamID};
      state.disconnectTime := Some(now);
      state.stopped := true;
    }

    method OnStreamRequest(streamID: int, req: ClientRequest, now: int, ghost st: Stream) returns (startSink: bool)
      requires Valid() && streamID in streams && streams[streamID].Represents(st)
      modifies streams[streamID]
      ensures Valid() && streams[streamID].Represents(AfterRequest(st, req, now))
      ensures startSink <==> st.dataplane.None? && AfterRequest(st, req, now).dataplane.Some?
    {
      var state := streams[streamID];
      startSink := false;
      if state.dataplane.None? {
        if req.node.Some? {
          state.dataplane := req.node;
          startSink := true;
        }
      }
      if req.nonce != "" {
        if req.errorDetail {
          state.CountEvent(req.typeUrl, Rejected, now);
        } else {
          state.CountEvent(req.typeUrl, Acknowledged, now);
        }
      }
    }

    method OnStreamResponse(streamID: int, typeUrl: TypeUrl, now: int, ghost st: Stream)
      requires Valid() && streamID in streams && streams[streamID].Represents(st)
      modifies streams[streamID]
      ensures Valid() && streams[streamID].Represents(AfterResponse(st, typeUrl, now))
    {
      streams[streamID].CountEvent(typeUrl, Sent, now);
    }
  }

  // ---------- the stored insight ----------

  /** `GetSubscription`: the position of the first subscription with an id, or -1. */
  method GetSubscription(subs: seq<Subscription>, id: string) returns (i: int)
    ensures -1 <= i < |subs|
    ensures i >= 0 ==> subs[i].id == id
    ensures forall j :: 0 <= j < (if i < 0 then |subs| else i) ==> subs[j].id != id
  {
    for k := 0 to |subs|
      invariant forall j :: 0 <= j < k ==> subs[j].id != id
    {
      if subs[k].id == id {
        return k;
      }
    }
    return -1;
  }

  lemma {:induction false} UpdatedAt(subs: seq<Subscription>, s: Subscription, i: nat)
    requires i <= |subs| && (i < |subs| ==> subs[i].id == s.id) && forall j :: 0 <= j < i ==> subs[j].id != s.id
    ensures Updated(subs, s) == if i < |subs| then subs[i := s] else subs + [s]
  {
    if i > 0 {
      UpdatedAt(subs[1..], s, i - 1);
      assert subs == [subs[0]] + subs[1..];
    }
  }

  method UpdateSubscription(subs: seq<Subscription>, s: Subscription) returns (r: seq<Subscription>)
    ensures r == Updated(subs, s)
  {
    var i := GetSubscription(subs, s.id);
    if i >= 0 {
      UpdatedAt(subs, s, i);
      r := subs[i := s];
    } else {
      UpdatedAt(subs, s, |subs|);
      r := subs + [s];
    }
  }

  class InsightStore {
    var insights: map<DataplaneId, Insight>

    method Get(key: DataplaneId) returns (r: Option<Insight>)
      ensures r == if key in insights then Some(insights[key]) else None
    {
      r := if key in insights then Some(insights[key]) else None;
    }

    /** Create, or update guarded by the version that was read. */
    method Write(key: DataplaneId, read: Option<Insight>, subs: seq<Subscription>, fails: bool) returns (ok: bool)
      modifies this
      ensures ok <==> !fails && WriteAccepted(old(insights), key, read)
      ensures insights == if ok then old(insights)[key := Insight(if read.None? then 1 else read.value.version + 1, subs)] else old(insights)
    {
      ok := false;
      if fails {
        return;
      }
      if read.None? {
        if key !in insights {
          insights, ok := insights[key := Insight(1, subs)], true;
        }
      } else if key in insights && insights[key].version == read.value.version {
        insights, ok := insights[key := Insight(read.value.version + 1, subs)], true;
      }
    }

    /** `meanwhile` is what the store holds, thanks to others, when the insight read before is written
        back. The upsert succeeds unless the store fails or the insight is not the one that was read. */
    method Upsert(key: DataplaneId, s: Subscription, readFails: bool, meanwhile: map<DataplaneId, Insight>, writeFails: bool) returns (ok: bool)
      modifies this
      ensures var read := if key in old(insights) then Some(old(insights)[key]) else None;
              && (ok <==> !readFails && !writeFails && WriteAccepted(meanwhile, key, read))
              && insights == if readFails then old(insights) else if ok then meanwhile[key := Written(read, s)] else meanwhile
    {
      if readFails {
        return false;
      }
      var read := Get(key);
      var subs := UpdateSubscription(if read.Some? then read.value.subscriptions else [], s);
      insights := meanwhile;
      ok := Write(key, read, subs, writeFails);
    }
  }

  class InsightSink {
    const accessor: StreamState
    const store: InsightStore
    var last: Option<Subscription>

    constructor (accessor: StreamState, store: InsightStore)
      ensures this.accessor == accessor && this.store == store && last.None?
    {
      this.accessor, this.store, last := accessor, store, None;
    }

    /** Stores the current state unless it is what was stored last, and remembers it exactly if that
        succeeded; `meanwhile` as for `Upsert`. */
    method Flush(readFails: bool, meanwhile: map<DataplaneId, Insight>, writeFails: bool)
      requires accessor.dataplane.Some?
      modifies this, store
      ensures var current, key := accessor.GetSubscription(), accessor.dataplane.value;
              var read := if key in old(store.insights) then Some(old(store.insights)[key]) else None;
              var ok := !readFails && !writeFails && WriteAccepted(meanwhile, key, read);
              if old(last) == Some(current) then last == old(last) && store.insights == old(store.insights)
              else && last == (if ok then Some(current) else old(last))
                   && store.insights == if readFails then old(store.insights) else if ok then meanwhile[key := Written(read, current)] else meanwhile
    {
      var current := accessor.GetSubscription();
      if last == Some(current) {
        return;
      }
      var ok := store.Upsert(accessor.dataplane.value, current, readFails, meanwhile, writeFails);
      if ok {
        last := Some(current);
      }
    }
  }
}
