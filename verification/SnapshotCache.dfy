/** `snapshotCache`, method by method, against the state machine of `CacheModel`. */
module SnapshotCache {
  import opened Basics
  import opened Xds
  import Model = CacheModel

  /** `nameSet`. */
  method NameSet(names: seq<string>) returns (result: set<string>)
    ensures result == set n | n in names
  {
    result := {};
    for i := 0 to |names|
      invariant result == set n | n in names[..i]
    {
      result := result + {names[i]};
      assert names[..i + 1] == names[..i] + [names[i]];
    }
    assert names[..|names|] == names;
  }

  /** `superset`: are all resources listed among the names? */
  method Superset(names: set<string>, resources: map<string, Resource>) returns (ok: bool)
    ensures ok <==> forall n :: n in resources ==> n in names
  {
    var todo := resources.Keys;
    while todo != {}
      invariant todo <= resources.Keys
      invariant forall n :: n in resources && n !in todo ==> n in names
      decreases todo
    {
      var n :| n in todo;
      if n !in names {
        return false;
      }
      todo := todo - {n};
    }
    return true;
  }

  /** `createResponse`: filter the resources by the names asked for. */
  method CreateResponse(request: Request, resources: map<string, Resource>, version: Version) returns (resp: Response)
    ensures resp == Response(request, version, Model.Requested(request.names, resources))
  {
    if |request.names| == 0 {
      return Response(request, version, resources);
    }
    var names := NameSet(request.names);
    var filtered: map<string, Resource> := map[];
    var todo := resources.Keys;
    while todo != {}
      invariant todo <= resources.Keys
      invariant filtered == map n | n in resources && n !in todo && n in request.names :: resources[n]
      decreases todo
    {
      var n :| n in todo;
      todo := todo - {n};
      if n in names {
        filtered := filtered[n := resources[n]];
      }
    }
    resp := Response(request, version, filtered);
  }

  /** The watches among `done`. */
  function Only(watches: map<WatchId, Watch>, done: set<WatchId>): map<WatchId, Watch> {
    map id | id in watches && id in done :: watches[id]
  }

  /** What is left of the watches when those in `todo` have not been looked at yet. */
  function Kept(watches: map<WatchId, Watch>, todo: set<WatchId>, snap: Snapshot): (kept: map<WatchId, Watch>)
    ensures todo == {} ==> kept == Model.Remaining(watches, snap)
    ensures todo == watches.Keys ==> kept == watches
  {
    map id | id in watches && (id in todo || !Model.Stale(snap, watches[id])) :: watches[id]
  }

  lemma KeptOneLess(watches: map<WatchId, Watch>, todo: set<WatchId>, snap: Snapshot, id: WatchId)
    requires id in watches && id in todo
    ensures Kept(watches, todo - {id}, snap)
         == if Model.Stale(snap, watches[id]) then Kept(watches, todo, snap) - {id} else Kept(watches, todo, snap)
  {}

  lemma AnsweredNone(s: Model.State, node: NodeId, snap: Snapshot)
    requires node in s.status
    ensures Model.Answered(s.ads, Only(s.status[node], s.status[node].Keys - s.status[node].Keys), snap, s.chans, s.chans)
  {}

  lemma HasChannel(s: Model.State, node: NodeId, snap: Snapshot, done: set<WatchId>, id: WatchId, chans: map<ChanId, Chan>)
    requires Model.Inv(s) && Model.IsOpen(s, node, id)
    requires Model.Answered(s.ads, Only(s.status[node], done), snap, s.chans, chans)
    ensures s.status[node][id].chan in chans
  {
    assert Model.WatchOk(s, node, id);
  }

  lemma OneAnswer(ads: bool, watches: map<WatchId, Watch>, snap: Snapshot, id: WatchId, chans: map<ChanId, Chan>, chans': map<ChanId, Chan>)
    requires id in watches && AnswerOk(ads, map[id := watches[id]], snap, id, chans, chans')
    ensures AnswerOk(ads, watches, snap, id, chans, chans')
  {}

  /** What looking at one watch does to the channels. */
  ghost predicate AnswerOk(ads: bool, watches: map<WatchId, Watch>, snap: Snapshot, id: WatchId,
                           chans: map<ChanId, Chan>, chans': map<ChanId, Chan>)
    requires id in watches
  {
    var w := watches[id];
    && w.chan in chans
    && chans' == if Model.Triggers(ads, watches, snap, id)
                 then chans[w.chan := Model.Push(chans[w.chan], Model.Answer(snap, w.request))]
                 else chans
  }

  /** One more watch looked at: it has been answered if it had to be. */
  lemma AnsweredOneMore(s: Model.State, node: NodeId, snap: Snapshot, done: set<WatchId>, id: WatchId,
                        chans: map<ChanId, Chan>, chans': map<ChanId, Chan>)
    requires Model.Inv(s) && Model.IsOpen(s, node, id) && id !in done
    requires Model.Answered(s.ads, Only(s.status[node], done), snap, s.chans, chans)
    requires AnswerOk(s.ads, s.status[node], snap, id, chans, chans')
    ensures Model.Answered(s.ads, Only(s.status[node], done + {id}), snap, s.chans, chans')
  {
    var watches := s.status[node];
    var before, after := Only(watches, done), Only(watches, done + {id});
    var c := watches[id].chan;
    assert Model.WatchOk(s, node, id);
    if chans[c] != s.chans[c] {
      var id2 :| Model.Triggers(s.ads, before, snap, id2) && before[id2].chan == c;
      assert Model.IsOpen(s, node, id2) && Model.SameWatch(s, node, id, node, id2);
      assert false;
    }
    forall k: WatchId | Model.Triggers(s.ads, after, snap, k) && after[k].chan in s.chans
      ensures chans'[after[k].chan] == Model.Push(s.chans[after[k].chan], Model.Answer(snap, after[k].request))
    {
      if k != id {
        assert Model.Triggers(s.ads, before, snap, k);
        assert Model.IsOpen(s, node, k);
        assert !Model.SameWatch(s, node, id, node, k);
      }
    }
    forall d | d in s.chans && chans'[d] != s.chans[d]
      ensures exists k: WatchId :: Model.Triggers(s.ads, after, snap, k) && after[k].chan == d
    {
      if d == c {
        assert Model.Triggers(s.ads, after, snap, id) && after[id].chan == d;
      } else {
        var k :| Model.Triggers(s.ads, before, snap, k) && before[k].chan == d;
        assert Model.Triggers(s.ads, after, snap, k) && after[k].chan == d;
      }
    }
  }

  lemma UpdateTwice<K, V>(m: map<K, V>, k: K, a: V, b: V)
    ensures m[k := a][k := b] == m[k := b]
  {}

  function Added(watches: map<WatchId, Watch>, id: WatchId, w: Watch): map<WatchId, Watch> {
    watches[id := w]
  }

  class SnapshotCache {
    const ads: bool
    var snapshots: map<NodeId, Snapshot>
    var status: map<NodeId, map<WatchId, Watch>>
    var watchCount: nat
    /** The response channels alive in the process; `make(chan Response, 1)` adds one. */
    var chans: map<ChanId, Chan>
    var nextChan: ChanId

    ghost function State(): Model.State
      reads this
    {
      Model.State(ads, snapshots, status, watchCount, chans, nextChan)
    }

    ghost predicate Valid()
      reads this
    {
      Model.Inv(State())
    }

    constructor (ads: bool)
      ensures Valid() && State() == Model.Init(ads)
    {
      this.ads := ads;
      snapshots, status, watchCount, chans, nextChan := map[], map[], 0, map[], 0;
    }

    /** `respond`: the send on the channel, unless ADS mode holds the answer back. */
    method Respond(request: Request, chan: ChanId, resources: map<string, Resource>, version: Version)
      requires chan in chans
      modifies this`chans
      ensures chans == if Model.Declines(ads, request, resources) then old(chans)
                       else old(chans)[chan := Model.Push(old(chans)[chan], Response(request, version, Model.Requested(request.names, resources)))]
    {
      if |request.names| != 0 && ads {
        var names := NameSet(request.names);
        var ok := Superset(names, resources);
        if !ok {
          return;
        }
      }
      var resp := CreateResponse(request, resources, version);
      chans := chans[chan := Chan(chans[chan].buffer + [resp], chans[chan].sent + 1, chans[chan].closes)];
    }

    /** The loop of `SetSnapshot`: in whatever order the watches are visited, exactly the stale ones
        are removed and answered. */
    method AnswerStale(node: NodeId, snap: Snapshot)
      requires Valid() && node in status
      modifies this`status, this`chans
      ensures status == old(status)[node := Model.Remaining(old(status)[node], snap)]
      ensures Model.Answered(ads, old(status)[node], snap, old(chans), chans)
    {
      hide Model.Inv, Model.Answered, AnswerOk, Kept, Model.Stale;
      ghost var s := State();
      var watches := status[node];
      var todo := watches.Keys;
      AnsweredNone(s, node, snap);
      while todo != {}
        invariant todo <= watches.Keys
        invariant node in status && status == s.status[node := Kept(watches, todo, snap)]
        invariant Model.Answered(ads, Only(watches, watches.Keys - todo), snap, s.chans, chans)
        decreases todo
      {
        var id :| id in todo;
        ghost var done, before := watches.Keys - todo, chans;
        HasChannel(s, node, snap, done, id, chans);
        AnswerOne(node, id, watches[id], snap);
        KeptOneLess(watches, todo, snap, id);
        OneAnswer(ads, watches, snap, id, before, chans);
        AnsweredOneMore(s, node, snap, done, id, before, chans);
        todo := todo - {id};
        assert watches.Keys - todo == done + {id};
      }
      assert Only(watches, watches.Keys - todo) == watches;
    }

    /** One iteration of that loop. */
    method AnswerOne(node: NodeId, id: WatchId, w: Watch, snap: Snapshot)
      requires node in status && w.chan in chans
      modifies this`status, this`chans
      ensures status == if Model.Stale(snap, w) then old(status)[node := old(status)[node] - {id}] else old(status)
      ensures AnswerOk(ads, map[id := w], snap, id, old(chans), chans)
    {
      var version := snap.GetVersion(w.request.typeUrl);
      if version != w.request.version {
        Respond(w.request, w.chan, snap.GetResources(w.request.typeUrl), version);
        status := status[node := status[node] - {id}];
      }
    }

    /** `SetSnapshot`. */
    method SetSnapshot(node: NodeId, snap: Snapshot)
      requires Valid()
      modifies this`snapshots, this`status, this`chans
      ensures Valid()
      ensures Model.SetSnapshot(old(State()), node, snap, State())
    {
      hide Model.Inv;
      ghost var s := State();
      if node in status {
        AnswerStale(node, snap);
      }
      snapshots := snapshots[node := snap];
      Model.SetSnapshotKeepsInv(s, node, snap, State());
    }

    method GetSnapshot(node: NodeId) returns (snap: Option<Snapshot>)
      ensures snap == if node in snapshots then Some(snapshots[node]) else None
    {
      if node in snapshots {
        return Some(snapshots[node]);
      }
      return None;
    }

    method ClearSnapshot(node: NodeId)
      requires Valid()
      modifies this`snapshots, this`status
      ensures Valid()
      ensures State() == Model.ClearSnapshot(old(State()), node)
    {
      ghost var s := State();
      snapshots := snapshots - {node};
      status := status - {node};
      Model.NextKeepsInv(s, Model.ClearEvent(node), State());
    }

    /** Register a watch that waits on the channel. */
    method OpenWatch(request: Request, chan: ChanId) returns (id: WatchId)
      requires request.node in status
      modifies this`status, this`watchCount
      ensures id == watchCount == old(watchCount) + 1
      ensures status == old(status)[request.node := Added(old(status)[request.node], id, Watch(request, chan))]
    {
      watchCount := watchCount + 1;
      id := watchCount;
      var watches: map<WatchId, Watch> := status[request.node];
      watches := Added(watches, id, Watch(request, chan));
      status := status[request.node := watches];
    }

    /** The response channel of a new watch, and the entry of its node. */
    method Prepare(node: NodeId) returns (chan: ChanId)
      modifies this`status, this`chans, this`nextChan
      ensures chan == old(nextChan) && nextChan == chan + 1 && chans == old(chans)[chan := NEW_CHAN]
      ensures status == old(status)[node := Model.WatchesOf(old(State()), node)]
    {
      if node !in status {
        status := status[node := map[]];
      }
      chan := nextChan;
      nextChan := nextChan + 1;
      chans := chans[chan := NEW_CHAN];
    }

    /** `CreateWatch`: an open watch, or an immediate answer. */
    method CreateWatch(request: Request) returns (chan: ChanId, cancel: Cancel)
      requires Valid()
      modifies this`status, this`watchCount, this`chans, this`nextChan
      ensures Valid()
      ensures State() == Model.CreateWatch(old(State()), request)
      ensures chan == old(nextChan) && cancel == Model.CreateWatchCancel(old(State()), request)
    {
      hide Model.Inv, Model.WatchesOf, Model.Push, Model.Requested;
      ghost var s := State();
      ghost var watches := Model.WatchesOf(s, request.node);
      Model.CreateWatchKeepsInv(s, request);
      chan := Prepare(request.node);
      if request.node !in snapshots || request.version == snapshots[request.node].GetVersion(request.typeUrl) {
        var id := OpenWatch(request, chan);
        cancel := CancelWatch(request.node, id);
        UpdateTwice(s.status, request.node, watches, Added(watches, id, Watch(request, chan)));
        assert Model.CreateWatch(s, request) == Model.Opened(s, request);
        hide Model.Immediate;
      } else {
        var snap := snapshots[request.node];
        Respond(request, chan, snap.GetResources(request.typeUrl), snap.GetVersion(request.typeUrl));
        cancel := NoCancel;
        UpdateTwice(s.chans, chan, NEW_CHAN, Model.Push(NEW_CHAN, Model.Answer(snap, request)));
        assert Model.CreateWatch(s, request) == Model.Immediate(s, request);
        hide Model.Opened;
      }
    }

    /** The function returned by `cancelWatch`. */
    method Cancel(node: NodeId, id: WatchId)
      requires Valid()
      modifies this`status
      ensures Valid()
      ensures State() == Model.DoCancel(old(State()), CancelWatch(node, id))
    {
      ghost var s := State();
      if node in status {
        status := status[node := status[node] - {id}];
      }
      Model.DoCancelKeepsInv(s, CancelWatch(node, id));
    }

    method Fetch(request: Request) returns (resp: Result<Response, Model.FetchError>)
      ensures resp == Model.Fetch(State(), request)
    {
      if request.node in snapshots {
        var snap := snapshots[request.node];
        var version := snap.GetVersion(request.typeUrl);
        if request.version == version {
          return Err(Model.SkipFetch);
        }
        var r := CreateResponse(request, snap.GetResources(request.typeUrl), version);
        return Ok(r);
      }
      return Err(Model.MissingSnapshot);
    }

    // ---------- channel operations of the stream loops ----------

    /** A new channel of capacity 1 with a response already in it. */
    method MakeFilled(resp: Response) returns (chan: ChanId)
      requires Valid()
      modifies this`chans, this`nextChan
      ensures Valid()
      ensures chan == old(nextChan) && State() == Model.Scheduled(old(State()), resp)
    {
      ghost var s := State();
      chan := nextChan;
      nextChan := nextChan + 1;
      chans := chans[chan := Model.Push(NEW_CHAN, resp)];
      Model.NextKeepsInv(s, Model.ScheduleEvent(resp), State());
    }

    /** Close a channel and consume what is left in it. */
    method Close(chan: ChanId)
      requires Valid() && Model.CanCancel(State(), CloseChan(chan))
      modifies this`chans
      ensures Valid()
      ensures State() == Model.DoCancel(old(State()), CloseChan(chan))
    {
      ghost var s := State();
      chans := chans[chan := Chan([], chans[chan].sent, chans[chan].closes + 1)];
      Model.DoCancelKeepsInv(s, CloseChan(chan));
    }

    method Receive(chan: ChanId) returns (resp: Response)
      requires Valid() && Model.CanReceive(State(), chan)
      modifies this`chans
      ensures Valid()
      ensures resp == old(chans)[chan].buffer[0] && State() == Model.Received(old(State()), chan)
    {
      ghost var s := State();
      resp := chans[chan].buffer[0];
      chans := chans[chan := chans[chan].(buffer := chans[chan].buffer[1..])];
      Model.NextKeepsInv(s, Model.ReceiveEvent(chan), State());
    }

    /** Call a cancel function, if there is one. */
    method Release(cancel: Xds.Cancel)
      requires Valid() && Model.CanCancel(State(), cancel)
      modifies this`status, this`chans
      ensures Valid()
      ensures State() == Model.DoCancel(old(State()), cancel)
    {
      match cancel
      case NoCancel =>
      case CancelWatch(node, id) => Cancel(node, id);
      case CloseChan(chan) => Close(chan);
    }
  }
}
