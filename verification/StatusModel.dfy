/** Discovery statistics of dataplanes: counting events per stream and flushing them into the store,
    while several streams, also of the same dataplane, come and go. */
module StatusModel {
  import opened Basics
  import opened Xds

  datatype Stats = Stats(sent: nat, acknowledged: nat, rejected: nat)

  datatype Counters = Counters(total: Stats, cds: Stats, eds: Stats, lds: Stats, rds: Stats)

  datatype Status = Status(lastUpdate: Option<int>, counters: Counters)

  datatype Subscription = Subscription(id: string, instance: string, connectTime: int, disconnectTime: Option<int>, status: Status)

  datatype EventKind = Sent | Acknowledged | Rejected

  /** Something counted: a response sent, or a request that acknowledges or rejects one. */
  datatype Event = Event(kind: EventKind, typeUrl: TypeUrl)

  const NO_STATS := Stats(0, 0, 0)
  const NO_COUNTERS := Counters(NO_STATS, NO_STATS, NO_STATS, NO_STATS, NO_STATS)

  // ---------- counting ----------

  function Bump(s: Stats, kind: EventKind): Stats {
    match kind
    case Sent => s.(sent := s.sent + 1)
    case Acknowledged => s.(acknowledged := s.acknowledged + 1)
    case Rejected => s.(rejected := s.rejected + 1)
  }

  /** The total, and the counters of the type if it is one of the four; others have none. */
  function Count(c: Counters, e: Event): Counters {
    var d := c.(total := Bump(c.total, e.kind));
    match e.typeUrl
    case ClusterType => d.(cds := Bump(c.cds, e.kind))
    case EndpointType => d.(eds := Bump(c.eds, e.kind))
    case ListenerType => d.(lds := Bump(c.lds, e.kind))
    case RouteType => d.(rds := Bump(c.rds, e.kind))
    case _ => d
  }

  function CountAll(events: seq<Event>): Counters {
    if events == [] then NO_COUNTERS else Count(CountAll(events[..|events| - 1]), events[|events| - 1])
  }

  /** How many of the events are such. */
  function HowMany(events: seq<Event>, such: Event -> bool): nat {
    if events == [] then 0
    else HowMany(events[..|events| - 1], such) + (if such(events[|events| - 1]) then 1 else 0)
  }

  function OfKind(s: Stats, kind: EventKind): nat {
    match kind
    case Sent => s.sent
    case Acknowledged => s.acknowledged
    case Rejected => s.rejected
  }

  predicate HasCounter(t: TypeUrl) {
    t == ClusterType || t == EndpointType || t == ListenerType || t == RouteType
  }

  function CounterOf(c: Counters, t: TypeUrl): Stats
    requires HasCounter(t)
  {
    if t == ClusterType then c.cds else if t == EndpointType then c.eds else if t == ListenerType then c.lds else c.rds
  }

  /** Every counter is the number of matching events. */
  lemma {:induction false} CountersCountEvents(events: seq<Event>, kind: EventKind, t: TypeUrl)
    ensures OfKind(CountAll(events).total, kind) == HowMany(events, (e: Event) => e.kind == kind)
    ensures HasCounter(t) ==> OfKind(CounterOf(CountAll(events), t), kind) == HowMany(events, (e: Event) => e.kind == kind && e.typeUrl == t)
  {
    if events != [] {
      CountersCountEvents(events[..|events| - 1], kind, t);
    }
  }

  /** The total is the sum of the four counters plus the events of other types; so it is the sum of
      the four exactly if there were no others. */
  lemma {:induction false} TotalsAreSums(events: seq<Event>, kind: EventKind)
    ensures var c, others := CountAll(events), HowMany(events, (e: Event) => e.kind == kind && !HasCounter(e.typeUrl));
            OfKind(c.total, kind) == OfKind(c.cds, kind) + OfKind(c.eds, kind) + OfKind(c.lds, kind) + OfKind(c.rds, kind) + others
  {
    if events != [] {
      TotalsAreSums(events[..|events| - 1], kind);
    }
  }

  lemma {:induction false} NoOthers(events: seq<Event>, kind: EventKind)
    ensures HowMany(events, (e: Event) => e.kind == kind && !HasCounter(e.typeUrl)) == 0
       <==> forall i :: 0 <= i < |events| ==> events[i].kind == kind ==> HasCounter(events[i].typeUrl)
  {
    if events != [] {
      NoOthers(events[..|events| - 1], kind);
      assert events == events[..|events| - 1] + [events[|events| - 1]];
    }
  }

  // ---------- the stored insight ----------

  /** `UpdateSubscription`: replace the first subscription with that id, or append. */
  function Updated(subs: seq<Subscription>, s: Subscription): seq<Subscription> {
    if subs == [] then [s]
    else if subs[0].id == s.id then [s] + subs[1..]
    else [subs[0]] + Updated(subs[1..], s)
  }

  function WithId(subs: seq<Subscription>, id: string): seq<Subscription> {
    if subs == [] then [] else (if subs[0].id == id then [subs[0]] else []) + WithId(subs[1..], id)
  }

  /** An update leaves the subscriptions with other ids alone, and if there was at most one with this
      id, there is exactly one afterwards: the new one. */
  lemma {:induction false} UpdatedMeans(subs: seq<Subscription>, s: Subscription, id: string)
    ensures id != s.id ==> WithId(Updated(subs, s), id) == WithId(subs, id)
    ensures id == s.id && |WithId(subs, id)| <= 1 ==> WithId(Updated(subs, s), id) == [s]
  {
    if subs == [] {
    } else if subs[0].id == s.id {
      assert ([s] + subs[1..])[1..] == subs[1..];
    } else {
      UpdatedMeans(subs[1..], s, id);
      assert ([subs[0]] + Updated(subs[1..], s))[1..] == Updated(subs[1..], s);
    }
  }

  // ---------- the system ----------

  datatype DataplaneId = DataplaneId(mesh: string, name: string)

  /** A stored insight with the version that guards updates against lost writes. */
  datatype Insight = Insight(version: nat, subscriptions: seq<Subscription>)

  datatype Phase = ToRead | HasRead(insight: Option<Insight>)

  /** The flusher of a stream. `last` is the state it stored last. */
  datatype Sink =
    | NotStarted
    | Idle(last: Option<Subscription>)
    | Flushing(last: Option<Subscription>, final: bool, copy: Subscription, phase: Phase)
    | Done(last: Option<Subscription>)

  datatype Stream = Stream(dataplane: Option<DataplaneId>, subscription: Subscription, open: bool, sink: Sink, events: seq<Event>)

  datatype World = World(streams: map<string, Stream>, store: map<DataplaneId, Insight>)

  datatype ClientRequest = ClientRequest(node: Option<DataplaneId>, nonce: string, errorDetail: bool, typeUrl: TypeUrl)

  datatype Step =
    | Open(id: string, instance: string, time: int)
    | OnRequest(id: string, request: ClientRequest, time: int)
    | OnResponse(id: string, typeUrl: TypeUrl, time: int)
    | Close(id: string, time: int)
    | StartFlush(id: string, final: bool)
    | ReadInsight(id: string, fails: bool)
    | WriteInsight(id: string, fails: bool)

  function Counted(sub: Subscription, e: Event, time: int): Subscription {
    sub.(status := Status(Some(time), Count(sub.status.counters, e)))
  }

  function AfterRequest(st: Stream, r: ClientRequest, time: int): Stream {
    var named := if st.dataplane.None? && r.node.Some? then st.(dataplane := r.node, sink := Idle(None)) else st;
    if r.nonce == "" then named
    else
      var e := Event(if r.errorDetail then Rejected else Acknowledged, r.typeUrl);
      named.(subscription := Counted(st.subscription, e, time), events := st.events + [e])
  }

  function AfterResponse(st: Stream, typeUrl: TypeUrl, time: int): Stream {
    var e := Event(Sent, typeUrl);
    st.(subscription := Counted(st.subscription, e, time), events := st.events + [e])
  }

  function Finished(last: Option<Subscription>, final: bool): Sink {
    if final then Done(last) else Idle(last)
  }

  /** Nothing to store if nothing changed since the last time. */
  function AfterStart(st: Stream, final: bool): Stream
    requires st.sink.Idle?
  {
    if st.sink.last == Some(st.subscription) then st.(sink := Finished(st.sink.last, final))
    else st.(sink := Flushing(st.sink.last, final, st.subscription, ToRead))
  }

  /** Creating fails if there is an insight by now, updating if it is not the one that was read. */
  predicate WriteAccepted(store: map<DataplaneId, Insight>, key: DataplaneId, read: Option<Insight>) {
    if read.None? then key !in store else key in store && store[key].version == read.value.version
  }

  function Written(read: Option<Insight>, s: Subscription): Insight {
    if read.None? then Insight(1, Updated([], s)) else Insight(read.value.version + 1, Updated(read.value.subscriptions, s))
  }

  function NewSubscription(id: string, instance: string, time: int): Subscription {
    Subscription(id, instance, time, None, Status(None, NO_COUNTERS))
  }

  /** Subscription ids are fresh. Callbacks come only for open streams; a final flush follows the
      closing of the stream. */
  predicate Enabled(w: World, step: Step) {
    match step
    case Open(id, _, _) => id !in w.streams
    case OnRequest(id, _, _) => id in w.streams && w.streams[id].open
    case OnResponse(id, _, _) => id in w.streams && w.streams[id].open
    case Close(id, _) => id in w.streams && w.streams[id].open
    case StartFlush(id, final) => id in w.streams && w.streams[id].sink.Idle? && (final ==> !w.streams[id].open)
    case ReadInsight(id, _) => id in w.streams && w.streams[id].sink.Flushing? && w.streams[id].sink.phase.ToRead?
    case WriteInsight(id, _) => id in w.streams && w.streams[id].sink.Flushing? && w.streams[id].sink.phase.HasRead? && w.streams[id].dataplane.Some?
  }

  function WithStream(w: World, id: string, st: Stream): World {
    w.(streams := w.streams[id := st])
  }

  function Apply(w: World, step: Step): World
    requires Enabled(w, step)
  {
    match step
    case Open(id, instance, time) => WithStream(w, id, Stream(None, NewSubscription(id, instance, time), true, NotStarted, []))
    case OnRequest(id, request, time) => WithStream(w, id, AfterRequest(w.streams[id], request, time))
    case OnResponse(id, typeUrl, time) => WithStream(w, id, AfterResponse(w.streams[id], typeUrl, time))
    case Close(id, time) =>
      var st := w.streams[id];
      WithStream(w, id, st.(open := false, subscription := st.subscription.(disconnectTime := Some(time))))
    case StartFlush(id, final) => WithStream(w, id, AfterStart(w.streams[id], final))
    case ReadInsight(id, fails) => AfterRead(w, id, fails)
    case WriteInsight(id, fails) => AfterWrite(w, id, fails)
  }

  function AfterRead(w: World, id: string, fails: bool): World
    requires id in w.streams && w.streams[id].sink.Flushing?
  {
    var st := w.streams[id];
    if fails || st.dataplane.None? then WithStream(w, id, st.(sink := Finished(st.sink.last, st.sink.final)))
    else
      var key := st.dataplane.value;
      WithStream(w, id, st.(sink := st.sink.(phase := HasRead(if key in w.store then Some(w.store[key]) else None))))
  }

  function AfterWrite(w: World, id: string, fails: bool): World
    requires id in w.streams && w.streams[id].sink.Flushing? && w.streams[id].sink.phase.HasRead? && w.streams[id].dataplane.Some?
  {
    var st := w.streams[id];
    var key, read := st.dataplane.value, st.sink.phase.insight;
    if fails || !WriteAccepted(w.store, key, read) then WithStream(w, id, st.(sink := Finished(st.sink.last, st.sink.final)))
    else World(w.streams[id := st.(sink := Finished(Some(st.sink.copy), st.sink.final))], w.store[key := Written(read, st.sink.copy)])
  }

  // ---------- what every step keeps ----------

  function LastStored(sink: Sink): Option<Subscription> {
    if sink.NotStarted? then None else sink.last
  }

  predicate StreamOk(id: string, st: Stream) {
    && st.subscription.id == id
    && st.subscription.status.counters == CountAll(st.events)
    && (st.open <==> st.subscription.disconnectTime.None?)
    && (st.sink.NotStarted? <==> st.dataplane.None?)
    && (LastStored(st.sink).Some? ==> LastStored(st.sink).value.id == id)
    && (st.sink.Flushing? ==> st.sink.copy.id == id && (st.sink.final ==> !st.open && st.sink.copy == st.subscription))
    && (st.sink.Done? ==> !st.open)
  }

  /** A read insight is either outdated or still the stored one. */
  predicate ReadOk(store: map<DataplaneId, Insight>, st: Stream) {
    st.sink.Flushing? && st.sink.phase.HasRead? && st.sink.phase.insight.Some? && st.dataplane.Some? ==>
      var key, read := st.dataplane.value, st.sink.phase.insight.value;
      && key in store && read.version <= store[key].version
      && (read.version == store[key].version ==> read == store[key])
  }

  function StoredWith(store: map<DataplaneId, Insight>, key: DataplaneId, id: string): seq<Subscription> {
    if key in store then WithId(store[key].subscriptions, id) else []
  }

  /** What the store should hold under an id: what the stream's flusher stored last, once. */
  function Expected(streams: map<string, Stream>, key: DataplaneId, id: string): seq<Subscription> {
    if id in streams && streams[id].dataplane == Some(key) && LastStored(streams[id].sink).Some?
    then [LastStored(streams[id].sink).value]
    else []
  }

  ghost predicate StoreOk(w: World) {
    forall key, id :: StoredWith(w.store, key, id) == Expected(w.streams, key, id)
  }

  ghost predicate Inv(w: World) {
    && (forall id :: id in w.streams ==> StreamOk(id, w.streams[id]) && ReadOk(w.store, w.streams[id]))
    && StoreOk(w)
  }

  const EMPTY := World(map[], map[])

  /** A step that leaves the store alone and keeps what the stream stored last. */
  lemma StreamStepKeepsInv(w: World, id: string, st: Stream)
    requires Inv(w) && StreamOk(id, st) && ReadOk(w.store, st)
    requires if id in w.streams
             then LastStored(st.sink) == LastStored(w.streams[id].sink) && (st.dataplane == w.streams[id].dataplane || LastStored(st.sink).None?)
             else LastStored(st.sink).None?
    ensures Inv(WithStream(w, id, st))
  {
    hide StreamOk, ReadOk, StoredWith;
    var v := WithStream(w, id, st);
    forall key, other
      ensures StoredWith(v.store, key, other) == Expected(v.streams, key, other)
    {
      assert StoredWith(w.store, key, other) == Expected(w.streams, key, other);
    }
  }

  lemma CountAllSnoc(events: seq<Event>, e: Event)
    ensures CountAll(events + [e]) == Count(CountAll(events), e)
  {
    assert (events + [e])[..|events|] == events;
  }

  lemma WriteKeepsInv(w: World, id: string)
    requires Inv(w) && id in w.streams && w.streams[id].sink.Flushing? && w.streams[id].sink.phase.HasRead? && w.streams[id].dataplane.Some?
    requires WriteAccepted(w.store, w.streams[id].dataplane.value, w.streams[id].sink.phase.insight)
    ensures Inv(AfterWrite(w, id, false))
  {
    var st, v := w.streams[id], AfterWrite(w, id, false);
    var key, read := st.dataplane.value, st.sink.phase.insight;
    assert StreamOk(id, st) && ReadOk(w.store, st);
    var subs := if read.Some? then read.value.subscriptions else [];
    assert v.store[key].subscriptions == Updated(subs, st.sink.copy);
    assert subs == if key in w.store then w.store[key].subscriptions else [];
    forall k, other
      ensures StoredWith(v.store, k, other) == Expected(v.streams, k, other)
    {
      assert StoredWith(w.store, k, other) == Expected(w.streams, k, other);
      UpdatedMeans(subs, st.sink.copy, other);
    }
    forall other | other in v.streams
      ensures StreamOk(other, v.streams[other]) && ReadOk(v.store, v.streams[other])
    {
      assert StreamOk(other, w.streams[other]) && ReadOk(w.store, w.streams[other]);
    }
  }

  lemma RequestKeepsStreamOk(id: string, st: Stream, r: ClientRequest, time: int)
    requires StreamOk(id, st) && st.open
    ensures StreamOk(id, AfterRequest(st, r, time))
  {
    CountAllSnoc(st.events, Event(if r.errorDetail then Rejected else Acknowledged, r.typeUrl));
    hide Count, CountAll;
  }

  lemma ResponseKeepsStreamOk(id: string, st: Stream, typeUrl: TypeUrl, time: int)
    requires StreamOk(id, st) && st.open
    ensures StreamOk(id, AfterResponse(st, typeUrl, time))
  {
    CountAllSnoc(st.events, Event(Sent, typeUrl));
    hide Count, CountAll;
  }

  lemma NextKeepsInv(w: World, step: Step)
    requires Inv(w) && Enabled(w, step)
    ensures Inv(Apply(w, step))
  {
    var id := step.id;
    assert id in w.streams ==> StreamOk(id, w.streams[id]) && ReadOk(w.store, w.streams[id]);
    var v := Apply(w, step);
    match step {
      case OnRequest(_, r, time) => RequestKeepsStreamOk(id, w.streams[id], r, time);
      case OnResponse(_, typeUrl, time) => ResponseKeepsStreamOk(id, w.streams[id], typeUrl, time);
      case _ =>
    }
    if step.WriteInsight? && !step.fails && WriteAccepted(w.store, w.streams[id].dataplane.value, w.streams[id].sink.phase.insight) {
      WriteKeepsInv(w, id);
    } else {
      hide Inv, Count, CountAll;
      assert v == WithStream(w, id, v.streams[id]);
      StreamStepKeepsInv(w, id, v.streams[id]);
    }
  }

  // ---------- over every run ----------

  ghost predicate IsRun(worlds: seq<World>, steps: seq<Step>) {
    && |worlds| == |steps| + 1 && worlds[0] == EMPTY
    && forall i {:trigger steps[i]} :: 0 <= i < |steps| ==> Enabled(worlds[i], steps[i]) && worlds[i + 1] == Apply(worlds[i], steps[i])
  }

  lemma {:induction false} RunKeepsInv(worlds: seq<World>, steps: seq<Step>, i: nat)
    requires IsRun(worlds, steps) && i < |worlds|
    ensures Inv(worlds[i])
  {
    hide Enabled, Apply;
    if i == 0 {
      assert Inv(EMPTY);
    } else {
      RunKeepsInv(worlds, steps, i - 1);
      assert worlds[i] == Apply(worlds[i - 1], steps[i - 1]);
      NextKeepsInv(worlds[i - 1], steps[i - 1]);
    }
  }

  /** Conservation: at every moment of every run, the counters of every stream are those of the events
      it has seen. */
  lemma CountersAreConserved(worlds: seq<World>, steps: seq<Step>, i: nat, id: string, kind: EventKind)
    requires IsRun(worlds, steps) && i < |worlds| && id in worlds[i].streams
    ensures var st := worlds[i].streams[id];
            var c := st.subscription.status.counters;
            && OfKind(c.total, kind) == HowMany(st.events, (e: Event) => e.kind == kind)
            && (OfKind(c.total, kind) == OfKind(c.cds, kind) + OfKind(c.eds, kind) + OfKind(c.lds, kind) + OfKind(c.rds, kind)
                <==> forall k :: 0 <= k < |st.events| ==> st.events[k].kind == kind ==> HasCounter(st.events[k].typeUrl))
  {
    hide Enabled, Apply;
    RunKeepsInv(worlds, steps, i);
    var st := worlds[i].streams[id];
    assert StreamOk(id, st);
    hide IsRun, Inv, CountAll, HowMany, OfKind;
    CountersCountEvents(st.events, kind, ClusterType);
    TotalsAreSums(st.events, kind);
    NoOthers(st.events, kind);
  }

  /** A run after which a total is not the sum of the four: one response of another type is sent. */
  lemma OtherTypesBreakTheSum(id: string, t: int) returns (worlds: seq<World>, steps: seq<Step>)
    ensures IsRun(worlds, steps) && |worlds| == 3 && id in worlds[2].streams
    ensures var c := worlds[2].streams[id].subscription.status.counters;
            c.total.sent == 1 && c.cds.sent + c.eds.sent + c.lds.sent + c.rds.sent == 0
  {
    var open, sent := Open(id, "", t), OnResponse(id, SecretType, t);
    var w := Apply(EMPTY, open);
    assert Enabled(w, sent);
    worlds, steps := [EMPTY, w, Apply(w, sent)], [open, sent];
  }

  /** Final flush: at every moment of every run, once the flusher of a stream is done, the stored
      insight of its dataplane holds exactly one subscription with the stream's id that equals the
      tracker's final state, with its disconnect time, if and only if the last thing it stored
      successfully was that state. */
  lemma FinalFlush(worlds: seq<World>, steps: seq<Step>, i: nat, id: string)
    requires IsRun(worlds, steps) && i < |worlds| && id in worlds[i].streams && worlds[i].streams[id].sink.Done?
    ensures var st := worlds[i].streams[id];
            && st.dataplane.Some? && st.subscription.disconnectTime.Some?
            && (StoredWith(worlds[i].store, st.dataplane.value, id) == [st.subscription] <==> st.sink.last == Some(st.subscription))
  {
    hide Enabled, Apply;
    RunKeepsInv(worlds, steps, i);
    var w := worlds[i];
    var st := w.streams[id];
    assert StreamOk(id, st);
    assert StoredWith(w.store, st.dataplane.value, id) == Expected(w.streams, st.dataplane.value, id);
  }

  /** Racing flushers of the same dataplane never lose or double each other's subscriptions: what a
      stream stored last is there, once, whatever the others do; and nothing else is there. */
  lemma NothingIsLost(worlds: seq<World>, steps: seq<Step>, i: nat, key: DataplaneId, id: string)
    requires IsRun(worlds, steps) && i < |worlds|
    ensures StoredWith(worlds[i].store, key, id) == Expected(worlds[i].streams, key, id)
  {
    hide Enabled, Apply, StoredWith, Expected;
    RunKeepsInv(worlds, steps, i);
  }

  /** Once done, a stream stays as it is. */
  lemma {:induction false} DoneForever(worlds: seq<World>, steps: seq<Step>, i: nat, j: nat, id: string)
    requires IsRun(worlds, steps) && i <= j < |worlds| && id in worlds[i].streams && worlds[i].streams[id].sink.Done?
    ensures id in worlds[j].streams && worlds[j].streams[id] == worlds[i].streams[id]
    decreases j
  {
    if i < j {
      DoneForever(worlds, steps, i, j - 1, id);
      RunKeepsInv(worlds, steps, j - 1);
      assert Enabled(worlds[j - 1], steps[j - 1]) && worlds[j] == Apply(worlds[j - 1], steps[j - 1]);
      assert StreamOk(id, worlds[j - 1].streams[id]);
    }
  }

  /** So a successfully flushed final state stays stored for the rest of the run. */
  lemma FinalStateStays(worlds: seq<World>, steps: seq<Step>, i: nat, j: nat, id: string)
    requires IsRun(worlds, steps) && i <= j < |worlds| && id in worlds[i].streams
    requires worlds[i].streams[id].sink == Done(Some(worlds[i].streams[id].subscription))
    ensures var st := worlds[i].streams[id];
            st.dataplane.Some? && StoredWith(worlds[j].store, st.dataplane.value, id) == [st.subscription]
  {
    hide IsRun, StoredWith;
    DoneForever(worlds, steps, i, j, id);
    FinalFlush(worlds, steps, j, id);
  }
}
