/** One fetcher's refreshes and any number of scrapes, interleaved between the regions that hold its mutex. */
module PrefetchRuns {
  import opened Results
  import opened Metrics
  import opened PrefetchCache
  import opened Channel

  datatype Phase = Idle | Collecting | Sweeping

  /** `before` is what the map held when the current refresh began; `pending` is the chunk not yet merged,
      `merged` the number of received metrics that are. */
  datatype State = State(
    metrics: MetricMap, before: MetricMap, phase: Phase, pipe: Pipe<Metric>, pending: seq<Metric>, merged: nat)

  datatype Action = Begin(plan: seq<Metric>) | Produce(e: Event) | Take | MergeChunk | MergeRest | Sweep | Scrape

  const INITIAL := State(map[], map[], Idle, Open([]), [], 0)

  function Act(s: State, a: Action): Option<State> {
    match a
    case Begin(plan) =>
      if s.phase == Idle && AllFresh(plan)
      then Some(State(Marked(s.metrics), s.metrics, Collecting, Open(plan), [], 0)) else None
    case Produce(e) =>
      if s.phase == Collecting && e != Receive && Step(s.pipe, e).Some?
      then Some(s.(pipe := Step(s.pipe, e).value)) else None
    case Take =>
      if s.phase == Collecting && |s.pending| < CHUNK && Step(s.pipe, Receive).Some?
      then Some(s.(pipe := Step(s.pipe, Receive).value, pending := s.pending + [s.pipe.buffer[0]])) else None
    case MergeChunk =>
      if s.phase == Collecting && |s.pending| >= CHUNK then Some(MergePending(s)) else None
    case MergeRest =>
      if s.phase == Collecting && |s.pending| < CHUNK && s.pipe.Finished()
      then Some(MergePending(s).(phase := Sweeping)) else None
    case Sweep =>
      if s.phase == Sweeping then Some(s.(metrics := Swept(s.metrics), phase := Idle)) else None
    case Scrape => Some(s)
  }

  function MergePending(s: State): State {
    s.(metrics := Merged(s.metrics, s.pending), merged := s.merged + |s.pending|, pending := [])
  }

  function Acts(s: State, run: seq<Action>): Option<State>
    decreases |run|
  {
    if run == [] then Some(s)
    else match Act(s, run[0])
      case None => None
      case Some(t) => Acts(t, run[1..])
  }

  ghost predicate Inv(s: State) {
    && s.pipe.Valid()
    && AllFresh(s.pipe.plan)
    && AllFresh(s.pipe.received)
    && s.merged + |s.pending| == |s.pipe.received|
    && s.pending == s.pipe.received[s.merged..]
    && Keyed(s.metrics)
    && match s.phase
       case Idle =>
         && s.metrics == LastWins(s.pipe.received)
         && s.merged == |s.pipe.received| && s.pipe.received == s.pipe.Sent()
       case Collecting => MidRefresh(s) && s.merged % CHUNK == 0 && |s.pending| <= CHUNK
       case Sweeping => MidRefresh(s) && s.merged == |s.pipe.received| && s.pipe.Finished()
  }

  ghost predicate MidRefresh(s: State)
    requires s.merged <= |s.pipe.received|
  {
    s.metrics == Merged(Marked(s.before), s.pipe.received[..s.merged])
  }

  lemma ReceivedIsFresh(p: Pipe<Metric>)
    requires p.Valid() && AllFresh(p.plan)
    ensures AllFresh(p.received)
  {
    assert forall i :: 0 <= i < |p.received| ==> p.received[i] == (p.received + p.buffer)[i] == p.plan[i];
  }

  lemma PipeStepKeeps(s: State, e: Event)
    requires Inv(s) && s.phase == Collecting && Step(s.pipe, e).Some?
    ensures var p := Step(s.pipe, e).value; p.Valid() && p.plan == s.pipe.plan && AllFresh(p.received)
    ensures Step(s.pipe, e).value.received ==
      if e == Receive then s.pipe.received + [s.pipe.buffer[0]] else s.pipe.received
  {
    StepKeeps(s.pipe, e);
    ReceivedIsFresh(Step(s.pipe, e).value);
  }

  lemma MergeTheRest(m: MetricMap, received: seq<Metric>, n: nat)
    requires n <= |received|
    ensures Merged(Merged(m, received[..n]), received[n..]) == Merged(m, received[..|received|])
  {
    assert received[..n] + received[n..] == received[..|received|];
    MergedConcat(m, received[..n], received[n..]);
  }

  lemma MergeKeepsKeyed(m: MetricMap, ms: seq<Metric>)
    requires Keyed(m)
    ensures Keyed(Merged(m, ms))
  {
    LastWinsKeyed(ms);
  }

  lemma MergePendingKeeps(s: State)
    requires Inv(s) && s.phase == Collecting
    ensures var t := MergePending(s); MidRefresh(t) && Keyed(t.metrics) && t.merged == |t.pipe.received|
  {
    MergeTheRest(Marked(s.before), s.pipe.received, s.merged);
    MergeKeepsKeyed(s.metrics, s.pending);
  }

  lemma BeginKeeps(s: State, plan: seq<Metric>)
    requires Inv(s) && s.phase == Idle && AllFresh(plan)
    ensures Inv(State(Marked(s.metrics), s.metrics, Collecting, Open(plan), [], 0))
  {
    var t := State(Marked(s.metrics), s.metrics, Collecting, Open(plan), [], 0);
    assert t.pipe.received[..0] == [] && Merged(Marked(s.metrics), []) == Marked(s.metrics);
  }

  lemma TakeKeeps(s: State)
    requires Inv(s) && Act(s, Take).Some?
    ensures Inv(Act(s, Take).value)
  {
    PipeStepKeeps(s, Receive);
    var t := Act(s, Take).value;
    assert t.pipe.received[..t.merged] == s.pipe.received[..s.merged];
    assert t.pipe.received[t.merged..] == s.pipe.received[s.merged..] + [s.pipe.buffer[0]];
  }

  lemma SweepKeeps(s: State)
    requires Inv(s) && s.phase == Sweeping
    ensures Inv(s.(metrics := Swept(s.metrics), phase := Idle))
  {
    LastWinsKeyed(s.pipe.received);
    assert s.pipe.received[..s.merged] == s.pipe.received;
    SweepAfterMark(s.before, LastWins(s.pipe.received));
  }

  lemma ActKeeps(s: State, a: Action)
    requires Inv(s) && Act(s, a).Some?
    ensures Inv(Act(s, a).value)
  {
    match a
    case Begin(plan) => BeginKeeps(s, plan);
    case Produce(e) => PipeStepKeeps(s, e);
    case Take => TakeKeeps(s);
    case MergeChunk => MergePendingKeeps(s);
    case MergeRest => MergePendingKeeps(s);
    case Sweep => SweepKeeps(s);
    case Scrape =>
  }

  lemma {:induction false} ActsKeep(s: State, run: seq<Action>)
    requires Inv(s) && Acts(s, run).Some?
    ensures Inv(Acts(s, run).value)
    decreases |run|
  {
    if run != [] {
      ActKeeps(s, run[0]);
      ActsKeep(Act(s, run[0]).value, run[1..]);
    }
  }

  /** What a scrape in this state has to show. */
  ghost function Expected(s: State): MetricMap
    requires s.merged <= |s.pipe.received|
  {
    if s.phase == Idle then LastWins(s.pipe.received) else s.before + LastWins(s.pipe.received[..s.merged])
  }

  /** In every reachable state a scrape lists, sample by sample, the old contents overridden by the last metrics of the
      merged prefix, which is a multiple of 100 metrics or everything the producer sent, or, after the sweep, exactly
      the last metric per name. */
  lemma EveryScrapeIsExact(run: seq<Action>, s: State, out: seq<Sample>)
    requires Acts(INITIAL, run) == Some(s)
    ensures s.pipe.next <= |s.pipe.plan| && s.merged <= |s.pipe.received|
    ensures Lists(out, s.metrics) <==> Lists(out, Expected(s))
    ensures Keyed(s.metrics)
    ensures s.pipe.received <= s.pipe.plan
    ensures s.merged % 100 == 0 || (s.merged == |s.pipe.received| && s.pipe.received == s.pipe.Sent())
  {
    ActsKeep(INITIAL, run);
    MarkIsInvisible(s.before, LastWins(s.pipe.received[..s.merged]), out);
    assert s.pipe.received == (s.pipe.received + s.pipe.buffer)[..|s.pipe.received|];
  }

  /** So each sample shows the last metric of its name in the merged prefix, or an old entry whose name is not in it. */
  lemma EverySampleIsCurrent(run: seq<Action>, s: State, out: seq<Sample>, p: nat)
    requires Acts(INITIAL, run) == Some(s) && Lists(out, s.metrics) && p < |out|
    ensures s.merged <= |s.pipe.received|
    ensures var prefix := if s.phase == Idle then s.pipe.received else s.pipe.received[..s.merged];
      || IsOfLast(out[p], prefix)
      || (exists k :: s.phase != Idle && k in s.before && k !in LastWins(prefix) && Shows(out[p], s.before[k]))
  {
    EveryScrapeIsExact(run, s, out);
    var prefix := if s.phase == Idle then s.pipe.received else s.pipe.received[..s.merged];
    var ks :| ListsInOrder(out, Expected(s), ks);
    var k := ks[p];
    assert k in ks && Shows(out[p], Expected(s)[k]);
    if k in LastWins(prefix) {
      var i := LastWinsOnly(prefix, k);
      LastWinsAt(prefix, i);
    }
  }

  ghost predicate Occurs(ms: seq<Metric>, k: string) {
    exists i :: 0 <= i < |ms| && Name(ms[i]) == k
  }

  lemma KeptIffOccurs(ms: seq<Metric>, k: string)
    ensures k in LastWins(ms) <==> Occurs(ms, k)
  {
    if k in LastWins(ms) {
      var i := LastWinsOnly(ms, k);
    } else {
      forall i | 0 <= i < |ms|
        ensures Name(ms[i]) != k
      {
        LastWinsAt(ms, i);
      }
    }
  }

  /** A scrape taken at any point of the run shows the series `k`. */
  ghost predicate ShownThroughout(s: State, run: seq<Action>, k: string)
    decreases |run|
  {
    k in s.metrics && (run != [] && Act(s, run[0]).Some? ==> ShownThroughout(Act(s, run[0]).value, run[1..], k))
  }

  /** Every refresh that is completed in the run received the series `k` from its producer. */
  ghost predicate DeliveredByEveryRefresh(s: State, run: seq<Action>, k: string)
    decreases |run|
  {
    run != [] && Act(s, run[0]).Some? ==>
      && (run[0] == Sweep ==> Occurs(s.pipe.received, k))
      && DeliveredByEveryRefresh(Act(s, run[0]).value, run[1..], k)
  }

  lemma ActKeepsSeries(s: State, a: Action, k: string)
    requires Inv(s) && Act(s, a).Some? && k in s.metrics
    ensures k in Act(s, a).value.metrics <==> (a == Sweep ==> Occurs(s.pipe.received, k))
  {
    if a == Sweep {
      ActKeeps(s, a);
      KeptIffOccurs(s.pipe.received, k);
    }
  }

  /** Over any number of refreshes, however interleaved: a series is missing from no scrape exactly when every
      completed refresh delivered it. */
  lemma {:induction false} NoGapIffDelivered(s: State, run: seq<Action>, k: string)
    requires Inv(s) && Acts(s, run).Some? && k in s.metrics
    ensures ShownThroughout(s, run, k) <==> DeliveredByEveryRefresh(s, run, k)
    decreases |run|
  {
    if run != [] {
      var t := Act(s, run[0]).value;
      ActKeeps(s, run[0]);
      ActKeepsSeries(s, run[0], k);
      if k in t.metrics {
        NoGapIffDelivered(t, run[1..], k);
      } else {
        assert !ShownThroughout(t, run[1..], k);
      }
    }
  }

  /** Same refresh, further on. */
  ghost predicate GrowsTo(s: State, t: State) {
    t.before == s.before && t.pipe.plan == s.pipe.plan && s.merged <= t.merged && s.pipe.received <= t.pipe.received
  }

  lemma ActGrows(s: State, a: Action)
    requires Inv(s) && Act(s, a).Some? && !a.Begin?
    ensures GrowsTo(s, Act(s, a).value)
  {
    if a.Produce? {
      PipeStepKeeps(s, a.e);
    } else if a.Take? {
      PipeStepKeeps(s, Receive);
    }
  }

  /** Until the next refresh begins, the merged prefix and the received stream only grow, over the same old contents. */
  lemma {:induction false} PrefixOnlyGrows(s: State, run: seq<Action>)
    requires Inv(s) && Acts(s, run).Some?
    requires forall i :: 0 <= i < |run| ==> !run[i].Begin?
    ensures GrowsTo(s, Acts(s, run).value)
    decreases |run|
  {
    if run != [] {
      ActKeeps(s, run[0]);
      ActGrows(s, run[0]);
      PrefixOnlyGrows(Act(s, run[0]).value, run[1..]);
    }
  }

  /** What can happen when, exactly: a refresh can begin whenever none is under way, the producer goes on, or panics,
      whatever the consumer is doing, a metric is taken unless a full chunk waits to be merged, and a scrape is possible
      at any time and changes nothing. */
  lemma PossibleIff(s: State, plan: seq<Metric>, e: Event)
    requires AllFresh(plan)
    ensures Act(s, Begin(plan)).Some? <==> s.phase == Idle
    ensures Act(s, Produce(e)).Some? <==> s.phase == Collecting && e != Receive && Step(s.pipe, e).Some?
    ensures Act(s, Take).Some? <==> s.phase == Collecting && |s.pending| < 100 && s.pipe.buffer != []
    ensures Act(s, MergeChunk).Some? <==> s.phase == Collecting && |s.pending| >= 100
    ensures Act(s, MergeRest).Some? <==>
      s.phase == Collecting && |s.pending| < 100 && s.pipe.closed && s.pipe.buffer == []
    ensures Act(s, Scrape) == Some(s)
  {
  }

  /** Actions left before the refresh is over, at most. */
  function Left(s: State): nat
    requires s.pipe.next <= |s.pipe.plan|
  {
    match s.phase
    case Idle => 0
    case Sweeping => 1
    case Collecting => 2 * s.pipe.Measure() + (if |s.pending| >= CHUNK then 1 else 0) + 2
  }

  /** A refresh in progress can always go on, without a panic, and each of its actions brings its end nearer. */
  lemma RefreshAdvances(s: State) returns (a: Action)
    requires Inv(s) && s.phase != Idle
    ensures Act(s, a).Some? && !a.Scrape? && a != Produce(Panic)
    ensures forall b :: Act(s, b).Some? && b != Scrape ==> Inv(Act(s, b).value) && Left(Act(s, b).value) < Left(s)
  {
    a := Sweep;
    if s.phase == Collecting {
      if |s.pending| >= CHUNK {
        a := MergeChunk;
      } else if s.pipe.Finished() {
        a := MergeRest;
      } else {
        var e := NeverStuck(s.pipe);
        a := if e == Receive then Take else Produce(e);
      }
    }
    forall b | Act(s, b).Some? && b != Scrape
      ensures Inv(Act(s, b).value) && Left(Act(s, b).value) < Left(s)
    {
      ActKeeps(s, b);
      if s.phase == Collecting && b.Produce? {
        StepKeeps(s.pipe, b.e);
      } else if s.phase == Collecting && b.Take? {
        StepKeeps(s.pipe, Receive);
      }
    }
  }

  /** After a completed refresh, whether or not its producer panicked, prefetch and synchronous scrapes of the metrics
      the producer emitted show the same samples, whatever the map held before. */
  lemma PrefetchEqualsSync(run: seq<Action>, s: State, prefetched: seq<Sample>, direct: seq<Sample>)
    requires Acts(INITIAL, run) == Some(s) && s.phase == Idle
    requires Lists(prefetched, s.metrics)
    requires s.pipe.next <= |s.pipe.plan| && Lists(direct, LastWins(s.pipe.Sent()))
    ensures multiset(prefetched) == multiset(direct)
    ensures forall k :: k in s.metrics ==> !s.metrics[k].deprecated
  {
    ActsKeep(INITIAL, run);
    LastWinsKeyed(s.pipe.received);
    ListingsAgree(prefetched, direct, s.metrics);
  }
}
