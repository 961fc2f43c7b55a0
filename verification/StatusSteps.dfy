/** What a subscription says, in terms of the callbacks of its stream. */
module StatusSteps {
  import opened Basics
  import opened Xds
  import opened StatusModel

  /** The callback counts: a response is sent; a request with a nonce acknowledges, or rejects if it carries
      an error. */
  function CountedAs(step: Step, id: string): Option<Event> {
    match step
    case OnResponse(i, typeUrl, _) => if i == id then Some(Event(Sent, typeUrl)) else None
    case OnRequest(i, r, _) =>
      if i != id || r.nonce == "" then None
      else if r.errorDetail then Some(Event(Rejected, r.typeUrl)) else Some(Event(Acknowledged, r.typeUrl))
    case _ => None
  }

  /** How many of the first `n` callbacks of the stream count with this kind, of any type or of one. */
  function Callbacks(steps: seq<Step>, n: nat, id: string, kind: EventKind, typ: Option<TypeUrl>): nat
    requires n <= |steps|
  {
    if n == 0 then 0
    else
      var e := CountedAs(steps[n - 1], id);
      Callbacks(steps, n - 1, id, kind, typ) + if e.Some? && e.value.kind == kind && (typ.Some? ==> e.value.typeUrl == typ.value) then 1 else 0
  }

  /** What the latest opening, counting and closing, and the first request with a node, had to say. */
  function Opened(steps: seq<Step>, n: nat, id: string): Option<Step>
    requires n <= |steps|
  {
    if n == 0 then None
    else if steps[n - 1].Open? && steps[n - 1].id == id then Some(steps[n - 1]) else Opened(steps, n - 1, id)
  }

  function LastCounted(steps: seq<Step>, n: nat, id: string): Option<int>
    requires n <= |steps|
  {
    if n == 0 then None
    else if CountedAs(steps[n - 1], id).Some? then Some(steps[n - 1].time) else LastCounted(steps, n - 1, id)
  }

  function Closed(steps: seq<Step>, n: nat, id: string): Option<int>
    requires n <= |steps|
  {
    if n == 0 then None
    else if steps[n - 1].Close? && steps[n - 1].id == id then Some(steps[n - 1].time) else Closed(steps, n - 1, id)
  }

  function FirstNode(steps: seq<Step>, n: nat, id: string): Option<DataplaneId>
    requires n <= |steps|
  {
    if n == 0 then None
    else
      var before := FirstNode(steps, n - 1, id);
      if before.None? && steps[n - 1].OnRequest? && steps[n - 1].id == id then steps[n - 1].request.node else before
  }

  // ---------- counters ----------

  /** What a callback does to the counters of a stream. */
  lemma CountersAfter(w: World, step: Step, id: string)
    requires Enabled(w, step) && id in w.streams
    ensures id in Apply(w, step).streams
    ensures var c, c' := w.streams[id].subscription.status.counters, Apply(w, step).streams[id].subscription.status.counters;
            c' == if CountedAs(step, id).Some? then Count(c, CountedAs(step, id).value) else c
  {
    hide Count, WriteAccepted, Written;
  }

  lemma NewcomerIsQuiet(w: World, step: Step, id: string)
    requires Enabled(w, step) && id !in w.streams
    ensures CountedAs(step, id).None?
    ensures id in Apply(w, step).streams ==>
              step.Open? && step.id == id && Apply(w, step).streams[id] == Stream(None, NewSubscription(id, step.instance, step.time), true, NotStarted, [])
  {
    hide WriteAccepted, Written;
  }

  lemma CountAdds(c: Counters, e: Event, kind: EventKind, t: TypeUrl)
    ensures OfKind(Count(c, e).total, kind) == OfKind(c.total, kind) + if e.kind == kind then 1 else 0
    ensures HasCounter(t) ==>
              OfKind(CounterOf(Count(c, e), t), kind) == OfKind(CounterOf(c, t), kind) + if e.kind == kind && e.typeUrl == t then 1 else 0
  {}

  /** Every counter of every stream is the number of callbacks of that kind and type, at every moment. */
  lemma {:induction false} CountersCountCallbacks(worlds: seq<World>, steps: seq<Step>, n: nat, id: string, kind: EventKind, t: TypeUrl)
    requires IsRun(worlds, steps) && n < |worlds|
    ensures id !in worlds[n].streams ==> Callbacks(steps, n, id, kind, None) == 0 && Callbacks(steps, n, id, kind, Some(t)) == 0
    ensures id in worlds[n].streams ==>
              var c := worlds[n].streams[id].subscription.status.counters;
              && OfKind(c.total, kind) == Callbacks(steps, n, id, kind, None)
              && (HasCounter(t) ==> OfKind(CounterOf(c, t), kind) == Callbacks(steps, n, id, kind, Some(t)))
  {
    if n > 0 {
      CountersCountCallbacks(worlds, steps, n - 1, id, kind, t);
      var w, step := worlds[n - 1], steps[n - 1];
      assert Enabled(w, step) && worlds[n] == Apply(w, step);
      hide Apply, Enabled, CountedAs, Count, IsRun;
      if id in w.streams {
        CountersAfter(w, step, id);
        if CountedAs(step, id).Some? {
          CountAdds(w.streams[id].subscription.status.counters, CountedAs(step, id).value, kind, t);
        }
      } else {
        NewcomerIsQuiet(w, step, id);
      }
    }
  }

  // ---------- everything else ----------

  /** The stream says what the callbacks said. */
  ghost predicate Reflects(st: Stream, id: string, opening: Option<Step>, updated: Option<int>, closed: Option<int>, node: Option<DataplaneId>) {
    && opening.Some? && opening.value.Open?
    && st.subscription.id == id && st.subscription.instance == opening.value.instance && st.subscription.connectTime == opening.value.time
    && st.subscription.status.lastUpdate == updated && st.subscription.disconnectTime == closed && st.dataplane == node
  }

  lemma ReflectsAfter(w: World, step: Step, id: string, opening: Option<Step>, updated: Option<int>, closed: Option<int>, node: Option<DataplaneId>)
    requires Enabled(w, step) && id in w.streams && Reflects(w.streams[id], id, opening, updated, closed, node)
    ensures id in Apply(w, step).streams && !(step.Open? && step.id == id)
    ensures Reflects(Apply(w, step).streams[id], id, opening,
                     if CountedAs(step, id).Some? then Some(step.time) else updated,
                     if step.Close? && step.id == id then Some(step.time) else closed,
                     if node.None? && step.OnRequest? && step.id == id then step.request.node else node)
  {
    hide Count, WriteAccepted, Written;
  }

  lemma NotYet(w: World, step: Step, id: string)
    requires Enabled(w, step) && id !in w.streams
    ensures CountedAs(step, id).None? && !(step.Close? && step.id == id) && !(step.OnRequest? && step.id == id)
  {}

  /** A subscription has the instance and the time of the opening, the time of the latest callback that
      counted, the time of the closing, and belongs to the dataplane that the first request with a node
      named. */
  lemma {:induction false} SubscriptionsReflectCallbacks(worlds: seq<World>, steps: seq<Step>, n: nat, id: string)
    requires IsRun(worlds, steps) && n < |worlds|
    ensures id !in worlds[n].streams ==> LastCounted(steps, n, id).None? && Closed(steps, n, id).None? && FirstNode(steps, n, id).None?
    ensures id in worlds[n].streams ==>
              Reflects(worlds[n].streams[id], id, Opened(steps, n, id), LastCounted(steps, n, id), Closed(steps, n, id), FirstNode(steps, n, id))
  {
    if n > 0 {
      SubscriptionsReflectCallbacks(worlds, steps, n - 1, id);
      var w, step := worlds[n - 1], steps[n - 1];
      assert Enabled(w, step) && worlds[n] == Apply(w, step);
      hide Apply, Enabled, CountedAs, IsRun;
      if id in w.streams {
        ReflectsAfter(w, step, id, Opened(steps, n - 1, id), LastCounted(steps, n - 1, id), Closed(steps, n - 1, id), FirstNode(steps, n - 1, id));
      } else {
        NewcomerIsQuiet(w, step, id);
        NotYet(w, step, id);
      }
    }
  }
}
