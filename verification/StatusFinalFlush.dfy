/** When exactly the final state of a stream ends up in the store. */
module StatusFinalFlush {
  import opened Basics
  import opened Xds
  import opened StatusModel

  predicate IsSinkStep(step: Step, id: string) {
    step.id == id && (step.StartFlush? || step.ReadInsight? || step.WriteInsight?)
  }

  function StoredAt(w: World, key: DataplaneId): Option<Insight> {
    if key in w.store then Some(w.store[key]) else None
  }

  /** Step `k` of the run is a write to the key that the store accepts. */
  predicate Writes(w: World, step: Step, key: DataplaneId) {
    && step.WriteInsight? && !step.fails && Enabled(w, step)
    && w.streams[step.id].dataplane == Some(key)
    && WriteAccepted(w.store, key, w.streams[step.id].sink.phase.insight)
  }

  /** Somebody's write to the key is accepted after step `b` and before step `c`. */
  ghost predicate Interference(worlds: seq<World>, steps: seq<Step>, b: nat, c: nat, key: DataplaneId)
    requires |worlds| == |steps| + 1 && c <= |steps|
  {
    exists k :: b < k < c && Writes(worlds[k], steps[k], key)
  }

  // ---------- what a step does to one key and one flusher ----------

  lemma StepAndKey(w: World, step: Step, key: DataplaneId)
    requires Enabled(w, step)
    ensures !Writes(w, step, key) ==> StoredAt(Apply(w, step), key) == StoredAt(w, key)
    ensures Writes(w, step, key) ==>
              && key in Apply(w, step).store
              && Apply(w, step).store[key].version == if key in w.store then w.store[key].version + 1 else 1
  {}

  /** A flusher between its first and last step, or done, is moved by its own steps only. */
  lemma StepAndSink(w: World, step: Step, id: string)
    requires Enabled(w, step) && id in w.streams && !IsSinkStep(step, id) && !w.streams[id].open
    ensures id in Apply(w, step).streams && Apply(w, step).streams[id] == w.streams[id]
  {}

  // ---------- the key between reading and writing ----------

  lemma {:induction false} KeyGrows(worlds: seq<World>, steps: seq<Step>, b: nat, c: nat, key: DataplaneId)
    requires IsRun(worlds, steps) && b <= c < |worlds|
    ensures key in worlds[b].store ==> key in worlds[c].store && worlds[b].store[key].version <= worlds[c].store[key].version
    decreases c
  {
    if b < c {
      KeyGrows(worlds, steps, b, c - 1, key);
      StepAndKey(worlds[c - 1], steps[c - 1], key);
      assert worlds[c] == Apply(worlds[c - 1], steps[c - 1]);
      hide Enabled, Apply, Writes;
    }
  }

  /** As long as nobody writes, what was read is what is stored. */
  lemma {:induction false} KeyStays(worlds: seq<World>, steps: seq<Step>, b: nat, c: nat, key: DataplaneId)
    requires IsRun(worlds, steps) && b < c < |worlds| && !Writes(worlds[b], steps[b], key) && !Interference(worlds, steps, b, c, key)
    ensures StoredAt(worlds[c], key) == StoredAt(worlds[b], key)
    decreases c
  {
    StepAndKey(worlds[c - 1], steps[c - 1], key);
    assert worlds[c] == Apply(worlds[c - 1], steps[c - 1]);
    hide Enabled, Apply, Writes, StoredAt;
    if b < c - 1 {
      KeyStays(worlds, steps, b, c - 1, key);
    }
  }

  lemma InterferenceRejects(worlds: seq<World>, steps: seq<Step>, b: nat, k: nat, c: nat, key: DataplaneId)
    requires IsRun(worlds, steps) && b < k < c < |steps| && Writes(worlds[k], steps[k], key)
    ensures !WriteAccepted(worlds[c].store, key, StoredAt(worlds[b], key))
  {
    assert Enabled(worlds[k], steps[k]) && worlds[k + 1] == Apply(worlds[k], steps[k]);
    StepAndKey(worlds[k], steps[k], key);
    hide Enabled, Apply, Writes;
    KeyGrows(worlds, steps, b, k, key);
    KeyGrows(worlds, steps, k + 1, c, key);
    hide IsRun;
  }

  /** The write is accepted exactly if nobody wrote since the insight was read. */
  lemma AcceptedMeansUndisturbed(worlds: seq<World>, steps: seq<Step>, b: nat, c: nat, key: DataplaneId)
    requires IsRun(worlds, steps) && b < c < |steps| && steps[b].ReadInsight?
    ensures WriteAccepted(worlds[c].store, key, StoredAt(worlds[b], key)) <==> !Interference(worlds, steps, b, c, key)
  {
    assert !Writes(worlds[b], steps[b], key);
    hide Enabled, Apply, Writes, IsRun;
    if k :| b < k < c && Writes(worlds[k], steps[k], key) {
      InterferenceRejects(worlds, steps, b, k, c, key);
    } else {
      KeyStays(worlds, steps, b, c, key);
    }
  }

  // ---------- the final flush ----------

  /** What has become of the final flush that started at step `a`, by moment `i`. */
  datatype Progress = Reading | Read(b: nat) | Skipped | ReadFailed | Wrote(b: nat, c: nat)

  ghost predicate HasProgress(worlds: seq<World>, steps: seq<Step>, a: nat, i: nat, id: string, p: Progress)
    requires IsRun(worlds, steps) && a < i < |worlds| && id in worlds[a].streams && id in worlds[i].streams
    requires worlds[a].streams[id].sink.Idle? && worlds[a].streams[id].dataplane.Some?
  {
    var before, st := worlds[a].streams[id], worlds[i].streams[id];
    var key, last := before.dataplane.value, before.sink.last;
    && st == before.(sink := st.sink) && !st.open
    && (p.Skipped? <==> last == Some(st.subscription))
    && match p
       case Skipped => st.sink == Done(last)
       case Reading => st.sink == Flushing(last, true, st.subscription, ToRead)
       case Read(b) => a < b < i && steps[b] == ReadInsight(id, false)
                       && st.sink == Flushing(last, true, st.subscription, HasRead(StoredAt(worlds[b], key)))
       case ReadFailed => st.sink == Done(last)
       case Wrote(b, c) =>
         && a < b < c < i && steps[b] == ReadInsight(id, false) && steps[c].WriteInsight? && steps[c].id == id
         && st.sink == Done(if !steps[c].fails && WriteAccepted(worlds[c].store, key, StoredAt(worlds[b], key)) then Some(st.subscription) else last)
  }

  /** The final flush goes through these stages, whatever else happens. */
  lemma {:induction false} Progresses(worlds: seq<World>, steps: seq<Step>, a: nat, i: nat, id: string) returns (p: Progress)
    requires IsRun(worlds, steps) && a < i < |worlds| && steps[a] == StartFlush(id, true)
    ensures id in worlds[a].streams && id in worlds[i].streams
    ensures worlds[a].streams[id].sink.Idle? && worlds[a].streams[id].dataplane.Some?
    ensures HasProgress(worlds, steps, a, i, id, p)
    decreases i
  {
    RunKeepsInv(worlds, steps, a);
    assert Enabled(worlds[a], steps[a]) && StreamOk(id, worlds[a].streams[id]);
    assert Enabled(worlds[i - 1], steps[i - 1]) && worlds[i] == Apply(worlds[i - 1], steps[i - 1]);
    hide Inv;
    if i == a + 1 {
      p := if worlds[a].streams[id].sink.last == Some(worlds[a].streams[id].subscription) then Skipped else Reading;
    } else {
      var q := Progresses(worlds, steps, a, i - 1, id);
      p := Continues(worlds, steps, a, i, id, q);
    }
  }

  lemma Continues(worlds: seq<World>, steps: seq<Step>, a: nat, i: nat, id: string, q: Progress) returns (p: Progress)
    requires IsRun(worlds, steps) && a + 1 < i < |worlds| && id in worlds[a].streams && id in worlds[i - 1].streams
    requires worlds[a].streams[id].sink.Idle? && worlds[a].streams[id].dataplane.Some?
    requires HasProgress(worlds, steps, a, i - 1, id, q)
    ensures id in worlds[i].streams && HasProgress(worlds, steps, a, i, id, p)
  {
    var step := steps[i - 1];
    assert Enabled(worlds[i - 1], step) && worlds[i] == Apply(worlds[i - 1], step);
    if !IsSinkStep(step, id) {
      StepAndSink(worlds[i - 1], step, id);
      hide Apply, Enabled, StoredAt, WriteAccepted;
      p := q;
    } else if step.ReadInsight? {
      p := if step.fails then ReadFailed else Read(i - 1);
    } else {
      p := Wrote(q.b, i - 1);
    }
  }

  /** A flusher that has read and is going to write at step `c` does nothing in between. */
  lemma {:induction false} WaitsToWrite(worlds: seq<World>, steps: seq<Step>, b: nat, k: nat, c: nat, id: string)
    requires IsRun(worlds, steps) && b < k <= c < |steps| && steps[c].WriteInsight? && steps[c].id == id
    requires id in worlds[b + 1].streams && !worlds[b + 1].streams[id].open
    requires worlds[b + 1].streams[id].sink.Flushing? && worlds[b + 1].streams[id].sink.phase.HasRead? && worlds[b + 1].streams[id].sink.final
    ensures id in worlds[k].streams && worlds[k].streams[id] == worlds[b + 1].streams[id]
    decreases k
  {
    if k > b + 1 {
      WaitsToWrite(worlds, steps, b, k - 1, c, id);
      var step := steps[k - 1];
      assert Enabled(worlds[k - 1], step) && worlds[k] == Apply(worlds[k - 1], step) && Enabled(worlds[c], steps[c]);
      if IsSinkStep(step, id) {
        assert worlds[k].streams[id].sink.Done?;
        DoneForever(worlds, steps, k, c, id);
      } else {
        StepAndSink(worlds[k - 1], step, id);
      }
    }
  }

  /** Read and written undisturbed, the final state is what was stored last. */
  lemma UndisturbedIsStored(worlds: seq<World>, steps: seq<Step>, a: nat, b: nat, c: nat, id: string)
    requires IsRun(worlds, steps) && a < b < c < |steps| && steps[a] == StartFlush(id, true)
    requires steps[b] == ReadInsight(id, false) && steps[c] == WriteInsight(id, false)
    requires id in worlds[a].streams && worlds[a].streams[id].dataplane.Some?
    requires !Interference(worlds, steps, b, c, worlds[a].streams[id].dataplane.value)
    ensures id in worlds[c + 1].streams && worlds[c + 1].streams[id].sink == Done(Some(worlds[c + 1].streams[id].subscription))
  {
    var p := Progresses(worlds, steps, a, b, id);
    var key := worlds[a].streams[id].dataplane.value;
    assert Enabled(worlds[b], steps[b]) && worlds[b + 1] == Apply(worlds[b], steps[b]);
    assert Enabled(worlds[c], steps[c]) && worlds[c + 1] == Apply(worlds[c], steps[c]);
    assert p.Reading?;
    WaitsToWrite(worlds, steps, b, c, c, id);
    AcceptedMeansUndisturbed(worlds, steps, b, c, key);
    hide Enabled, IsRun, Interference;
  }

  ghost predicate FlushAt(worlds: seq<World>, steps: seq<Step>, b: int, c: int, id: string, key: DataplaneId)
    requires |worlds| == |steps| + 1
  {
    && 0 <= b < c < |steps| && steps[b] == ReadInsight(id, false) && steps[c] == WriteInsight(id, false)
    && !Interference(worlds, steps, b, c, key)
  }

  /** Somewhere between moments `a` and `i` the insight is read and written undisturbed. */
  ghost predicate FlushedUndisturbed(worlds: seq<World>, steps: seq<Step>, a: nat, i: nat, id: string, key: DataplaneId)
    requires |worlds| == |steps| + 1
  {
    exists b, c :: a < b && c < i && FlushAt(worlds, steps, b, c, id, key)
  }

  lemma StoredOnlyIfUndisturbed(worlds: seq<World>, steps: seq<Step>, a: nat, i: nat, id: string)
    requires IsRun(worlds, steps) && a < i < |worlds| && steps[a] == StartFlush(id, true)
    requires id in worlds[i].streams && worlds[i].streams[id].sink == Done(Some(worlds[i].streams[id].subscription))
    ensures id in worlds[a].streams && worlds[a].streams[id].sink.Idle? && worlds[i].streams[id].dataplane.Some?
    ensures worlds[a].streams[id].sink.last != Some(worlds[i].streams[id].subscription) ==>
              FlushedUndisturbed(worlds, steps, a, i, id, worlds[i].streams[id].dataplane.value)
  {
    var p := Progresses(worlds, steps, a, i, id);
    hide IsRun, Interference, StoredAt, WriteAccepted;
    if p.Wrote? {
      AcceptedMeansUndisturbed(worlds, steps, p.b, p.c, worlds[a].streams[id].dataplane.value);
      assert worlds[i].streams[id].sink.last == worlds[a].streams[id].sink.last
          || FlushAt(worlds, steps, p.b, p.c, id, worlds[a].streams[id].dataplane.value);
    }
  }

  lemma StoredIfFlushedAt(worlds: seq<World>, steps: seq<Step>, a: nat, b: nat, c: nat, i: nat, id: string)
    requires IsRun(worlds, steps) && a < b < c < i < |worlds| && steps[a] == StartFlush(id, true)
    requires id in worlds[i].streams && id in worlds[a].streams && worlds[a].streams[id].dataplane.Some?
    requires FlushAt(worlds, steps, b, c, id, worlds[a].streams[id].dataplane.value)
    ensures worlds[i].streams[id].sink == Done(Some(worlds[i].streams[id].subscription))
  {
    hide IsRun, Interference;
    UndisturbedIsStored(worlds, steps, a, b, c, id);
    hide FlushAt;
    DoneForever(worlds, steps, c + 1, i, id);
  }

  lemma StoredIfUndisturbed(worlds: seq<World>, steps: seq<Step>, a: nat, i: nat, id: string)
    requires IsRun(worlds, steps) && a < i < |worlds| && steps[a] == StartFlush(id, true)
    requires id in worlds[i].streams && id in worlds[a].streams && worlds[a].streams[id].dataplane.Some?
    requires FlushedUndisturbed(worlds, steps, a, i, id, worlds[a].streams[id].dataplane.value)
    ensures worlds[i].streams[id].sink == Done(Some(worlds[i].streams[id].subscription))
  {
    assert |worlds| == |steps| + 1;
    hide IsRun;
    var b, c :| a < b && c < i && FlushAt(worlds, steps, b, c, id, worlds[a].streams[id].dataplane.value);
    assert 0 <= b < c;
    hide FlushAt, FlushedUndisturbed;
    StoredIfFlushedAt(worlds, steps, a, b, c, i, id);
  }

  /** Once the flusher of a stream is done, the final state of the stream, with its disconnect time, is
      stored if and only if there was nothing left to flush when the final flush started, or its read
      and its write did not fail and no other stream's write for the same dataplane was accepted
      between the two. The final flush is not repeated, so otherwise that state is lost for good. */
  lemma FinalStateIsStored(worlds: seq<World>, steps: seq<Step>, a: nat, i: nat, id: string)
    requires IsRun(worlds, steps) && a < i < |worlds| && steps[a] == StartFlush(id, true)
    requires id in worlds[i].streams && worlds[i].streams[id].sink.Done?
    ensures id in worlds[a].streams && worlds[a].streams[id].sink.Idle? && worlds[i].streams[id].dataplane.Some?
    ensures var st := worlds[i].streams[id];
            && st.subscription.disconnectTime.Some?
            && (StoredWith(worlds[i].store, st.dataplane.value, id) == [st.subscription] <==>
                || worlds[a].streams[id].sink.last == Some(st.subscription)
                || FlushedUndisturbed(worlds, steps, a, i, id, st.dataplane.value))
  {
    var p := Progresses(worlds, steps, a, i, id);
    var before, st := worlds[a].streams[id], worlds[i].streams[id];
    assert st == before.(sink := st.sink) && (p.Skipped? ==> st.sink.last == before.sink.last);
    assert p.Skipped? <==> before.sink.last == Some(st.subscription);
    hide IsRun, HasProgress, FlushedUndisturbed, StoredWith;
    FinalFlush(worlds, steps, i, id);
    if st.sink.last == Some(st.subscription) {
      StoredOnlyIfUndisturbed(worlds, steps, a, i, id);
    }
    if FlushedUndisturbed(worlds, steps, a, i, id, st.dataplane.value) {
      StoredIfUndisturbed(worlds, steps, a, i, id);
    }
  }

  // ---------- a run that loses the disconnect time ----------

  lemma Extend(worlds: seq<World>, steps: seq<Step>, step: Step) returns (worlds': seq<World>, steps': seq<Step>)
    requires IsRun(worlds, steps) && Enabled(worlds[|steps|], step)
    ensures IsRun(worlds', steps') && |worlds'| == |steps'| + 1 && worlds'[|steps'|] == Apply(worlds[|steps|], step)
  {
    hide Enabled, Apply;
    worlds', steps' := worlds + [Apply(worlds[|steps|], step)], steps + [step];
  }

  /** A stream that knows its dataplane and is idle. */
  lemma Connect(worlds: seq<World>, steps: seq<Step>, id: string, key: DataplaneId, t: int) returns (worlds': seq<World>, steps': seq<Step>)
    requires IsRun(worlds, steps) && id !in worlds[|steps|].streams
    ensures IsRun(worlds', steps') && |worlds'| == |steps'| + 1
    ensures worlds'[|steps'|] == worlds[|steps|].(streams := worlds[|steps|].streams[id :=
              Stream(Some(key), NewSubscription(id, "", t), true, Idle(None), [])])
  {
    hide IsRun;
    worlds', steps' := Extend(worlds, steps, Open(id, "", t));
    worlds', steps' := Extend(worlds', steps', OnRequest(id, ClientRequest(Some(key), "", false, ClusterType), t));
  }

  /** Two streams of one dataplane: the second stores its subscription between the final read and the
      final write of the first, whose state, disconnect time included, is never stored. */
  lemma DisconnectTimeLost(first: string, second: string, key: DataplaneId, t: int) returns (worlds: seq<World>, steps: seq<Step>)
    requires first != second
    ensures IsRun(worlds, steps) && first in worlds[|steps|].streams
    ensures var w := worlds[|steps|];
            w.streams[first].sink.Done? && w.streams[first].dataplane == Some(key) && StoredWith(w.store, key, first) == []
  {
    worlds, steps := [EMPTY], [];
    assert IsRun(worlds, steps);
    hide IsRun, Updated;
    worlds, steps := Connect(worlds, steps, first, key, t);
    worlds, steps := Extend(worlds, steps, Close(first, t));
    worlds, steps := Extend(worlds, steps, StartFlush(first, true));
    worlds, steps := Extend(worlds, steps, ReadInsight(first, false));
    var waiting := worlds[|steps|].streams[first];
    assert waiting.sink.phase == HasRead(None);
    worlds, steps := Connect(worlds, steps, second, key, t);
    worlds, steps := Extend(worlds, steps, StartFlush(second, false));
    worlds, steps := Extend(worlds, steps, ReadInsight(second, false));
    worlds, steps := Extend(worlds, steps, WriteInsight(second, false));
    assert key in worlds[|steps|].store && worlds[|steps|].streams[first] == waiting;
    worlds, steps := Extend(worlds, steps, WriteInsight(first, false));
    assert |worlds| == |steps| + 1 && worlds[|steps|].streams[first].sink == Done(None);
    NothingIsLost(worlds, steps, |steps|, key, first);
  }
}
