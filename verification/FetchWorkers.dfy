/** The prefetch workers of all handlers, sharing one semaphore of broker connections. */
module FetchWorkers {
  import opened Results
  import opened Metrics
  import opened Channel

  type Id = nat

  /** `Reading` is inside `readMetrics`; `Leaving` is between it and the release. */
  datatype Phase = Acquiring | Reading(pipe: Pipe<Metric>) | Leaving | Resting | BackingOff | Stopped
  {
    predicate Holds() { Reading? || Leaving? }
  }

  datatype State = State(capacity: nat, held: int, cancelled: bool, workers: map<Id, Phase>)

  datatype Action =
    | Register(w: Id)
    | Grant(w: Id, plan: seq<Metric>)
    | Refuse(w: Id)
    | Work(w: Id, e: Event)
    | Leave(w: Id)
    | Release(w: Id)
    | Again(w: Id)
    | Quit(w: Id)
    | CancelAll

  /** How the configured number of connections becomes the capacity: a number that makes sense is kept. */
  function Capacity(configured: int): (c: nat)
    ensures c >= 1
    ensures configured >= 1 ==> c == configured
    ensures configured < 1 ==> c == 2
  {
    if configured < 1 then 2 else configured
  }

  function Initial(configured: int): State {
    State(Capacity(configured), 0, false, map[])
  }

  function Set(s: State, w: Id, phase: Phase): State {
    s.(workers := s.workers[w := phase])
  }

  predicate In(s: State, w: Id, phase: Phase) {
    w in s.workers && s.workers[w] == phase
  }

  /** One atomic action. Acquiring succeeds while a permit is free, and fails only once the context is done. */
  function Act(s: State, a: Action): Option<State> {
    match a
    case Register(w) => if w !in s.workers then Some(Set(s, w, Acquiring)) else None
    case Grant(w, plan) =>
      if In(s, w, Acquiring) && s.held + 1 <= s.capacity
      then Some(Set(s.(held := s.held + 1), w, Reading(Open(plan)))) else None
    case Refuse(w) => if In(s, w, Acquiring) && s.cancelled then Some(Set(s, w, BackingOff)) else None
    case Work(w, e) =>
      if w in s.workers && s.workers[w].Reading? && Step(s.workers[w].pipe, e).Some?
      then Some(Set(s, w, Reading(Step(s.workers[w].pipe, e).value))) else None
    case Leave(w) =>
      if w in s.workers && s.workers[w].Reading? && s.workers[w].pipe.Finished() then Some(Set(s, w, Leaving)) else None
    case Release(w) => if In(s, w, Leaving) then Some(Set(s.(held := s.held - 1), w, Resting)) else None
    case Again(w) => if In(s, w, Resting) || In(s, w, BackingOff) then Some(Set(s, w, Acquiring)) else None
    case Quit(w) =>
      if (In(s, w, Resting) || In(s, w, BackingOff)) && s.cancelled then Some(Set(s, w, Stopped)) else None
    case CancelAll => Some(s.(cancelled := true))
  }

  function Run(s: State, run: seq<Action>): Option<State>
    decreases |run|
  {
    if run == [] then Some(s)
    else match Act(s, run[0])
      case None => None
      case Some(t) => Run(t, run[1..])
  }

  function Holders(workers: map<Id, Phase>): set<Id> {
    set w | w in workers && workers[w].Holds()
  }

  function Inside(workers: map<Id, Phase>): set<Id> {
    set w | w in workers && workers[w].Reading?
  }

  ghost predicate Inv(s: State) {
    && s.capacity >= 1
    && s.held == |Holders(s.workers)| <= s.capacity
    && forall w :: w in s.workers && s.workers[w].Reading? ==> s.workers[w].pipe.Valid()
  }

  lemma HoldersUpdate(workers: map<Id, Phase>, w: Id, phase: Phase)
    ensures Holders(workers[w := phase]) == if phase.Holds() then Holders(workers) + {w} else Holders(workers) - {w}
  {
  }

  /** One worker changes phase, and the permits held change with whether it holds one. */
  lemma SetKeeps(s: State, w: Id, phase: Phase, held: int)
    requires Inv(s)
    requires phase.Reading? ==> phase.pipe.Valid()
    requires held == s.held + (if phase.Holds() then 1 else 0) - Holding(s, w)
    requires held <= s.capacity
    ensures Inv(Set(s.(held := held), w, phase))
  {
    HoldersUpdate(s.workers, w, phase);
    assert w in Holders(s.workers) <==> w in s.workers && s.workers[w].Holds();
  }

  lemma WorkKeeps(s: State, w: Id, e: Event)
    requires Inv(s) && Act(s, Work(w, e)).Some?
    ensures Inv(Act(s, Work(w, e)).value)
  {
    StepKeeps(s.workers[w].pipe, e);
    SetKeeps(s, w, Reading(Step(s.workers[w].pipe, e).value), s.held);
    assert s.(held := s.held) == s;
  }

  lemma OpenIsValid(plan: seq<Metric>)
    ensures Open(plan).Valid()
  {
  }

  lemma ActKeeps(s: State, a: Action)
    requires Inv(s) && Act(s, a).Some?
    ensures Inv(Act(s, a).value)
  {
    assert s.(held := s.held) == s;
    match a
    case Register(w) => SetKeeps(s, w, Acquiring, s.held);
    case Grant(w, plan) =>
      OpenIsValid(plan);
      SetKeeps(s, w, Reading(Open(plan)), s.held + 1);
    case Refuse(w) => SetKeeps(s, w, BackingOff, s.held);
    case Work(w, e) => WorkKeeps(s, w, e);
    case Leave(w) => SetKeeps(s, w, Leaving, s.held);
    case Release(w) => SetKeeps(s, w, Resting, s.held - 1);
    case Again(w) => SetKeeps(s, w, Acquiring, s.held);
    case Quit(w) => SetKeeps(s, w, Stopped, s.held);
    case CancelAll =>
  }

  lemma {:induction false} RunKeeps(s: State, run: seq<Action>)
    requires Inv(s) && Run(s, run).Some?
    ensures Inv(Run(s, run).value)
    decreases |run|
  {
    if run != [] {
      ActKeeps(s, run[0]);
      RunKeeps(Act(s, run[0]).value, run[1..]);
    }
  }

  ghost predicate Reachable(s: State) {
    exists configured, run :: Run(Initial(configured), run) == Some(s)
  }

  lemma ReachableKeeps(s: State)
    requires Reachable(s)
    ensures Inv(s)
  {
    var configured, run :| Run(Initial(configured), run) == Some(s);
    assert Holders(map[]) == {};
    RunKeeps(Initial(configured), run);
  }

  /** The permits out are exactly the workers between acquire and release, never more than the capacity, so at most that
      many are inside `readMetrics`, and no release exceeds what is held. */
  lemma PermitsAreHolders(s: State)
    requires Reachable(s)
    ensures |Inside(s.workers)| <= |Holders(s.workers)| == s.held <= s.capacity
    ensures forall w :: Act(s, Release(w)).Some? ==> s.held >= 1
  {
    ReachableKeeps(s);
    SubsetSize(Inside(s.workers), Holders(s.workers));
    forall w | Act(s, Release(w)).Some?
      ensures s.held >= 1
    {
      assert w in Holders(s.workers);
    }
  }

  lemma {:induction false} SubsetSize<T>(a: set<T>, b: set<T>)
    requires a <= b
    ensures |a| <= |b|
  {
    if a != {} {
      var x :| x in a;
      SubsetSize(a - {x}, b - {x});
    }
  }

  /** Permits granted to a worker minus permits it gave back. */
  function Balance(run: seq<Action>, w: Id): int {
    if run == [] then 0
    else Balance(run[1..], w) + (if run[0].Grant? && run[0].w == w then 1 else if run[0] == Release(w) then -1 else 0)
  }

  function Holding(s: State, w: Id): int {
    if w in s.workers && s.workers[w].Holds() then 1 else 0
  }

  /** Over every run a worker's grants exceed its releases by one while it holds a permit and by none otherwise: none
      holds two, and a failed acquire leaves it with none. */
  lemma {:induction false} NobodyHoldsTwo(s: State, run: seq<Action>, w: Id)
    requires Run(s, run).Some?
    ensures Holding(Run(s, run).value, w) == Holding(s, w) + Balance(run, w)
    decreases |run|
  {
    if run != [] {
      NobodyHoldsTwo(Act(s, run[0]).value, run[1..], w);
    }
  }

  predicate OnlyBy(run: seq<Action>, w: Id) {
    forall i :: 0 <= i < |run| ==> run[i] != CancelAll && run[i].w == w
  }

  /** A worker with a permit can always give it back on its own, whatever the others do not do, and in a bounded number
      of actions; this includes every fetch whose producer has panicked. */
  lemma {:induction false} PermitComesBack(s: State, w: Id) returns (run: seq<Action>)
    requires Inv(s) && w in s.workers && s.workers[w].Holds()
    ensures OnlyBy(run, w)
    ensures |run| <= WorkLeft(s.workers[w])
    ensures Run(s, run) == Some(Set(s, w, Resting).(held := s.held - 1))
    decreases if s.workers[w].Reading? then 1 + s.workers[w].pipe.Measure() else 0
  {
    if s.workers[w].Leaving? {
      run := [Release(w)];
    } else {
      var first, next := WorkerMovesOn(s, w);
      var t := Set(s, w, next);
      var rest := PermitComesBack(t, w);
      assert t.workers[w := Resting] == s.workers[w := Resting];
      run := [first] + rest;
      assert run[1..] == rest;
    }
  }

  /** A worker inside `readMetrics` can take one of the actions left to it, and is then nearer to leaving. */
  lemma WorkerMovesOn(s: State, w: Id) returns (a: Action, next: Phase)
    requires Inv(s) && w in s.workers && s.workers[w].Reading?
    ensures a != CancelAll && a.w == w
    ensures Act(s, a) == Some(Set(s, w, next)) && Inv(Set(s, w, next)) && next.Holds()
    ensures next.Reading? ==> next.pipe.Valid() && next.pipe.Measure() < s.workers[w].pipe.Measure()
  {
    var pipe := s.workers[w].pipe;
    if pipe.Finished() {
      a, next := Leave(w), Leaving;
    } else {
      var e := NeverStuck(pipe);
      StepKeeps(pipe, e);
      a, next := Work(w, e), Reading(Step(pipe, e).value);
    }
    ActKeeps(s, a);
  }

  lemma {:induction false} RunConcat(s: State, run: seq<Action>, a: Action)
    requires Run(s, run).Some?
    ensures Run(s, run + [a]) == Act(Run(s, run).value, a)
    decreases |run|
  {
    if run == [] {
      assert run + [a] == [a];
    } else {
      assert (run + [a])[1..] == run[1..] + [a];
      RunConcat(Act(s, run[0]).value, run[1..], a);
    }
  }

  /** Actions one worker needs at most to give its permit back. */
  function WorkLeft(phase: Phase): nat
    requires phase.Reading? ==> phase.pipe.Valid()
  {
    if phase.Reading? then 2 + phase.pipe.Measure() else 1
  }

  /** Whoever waits for a permit can be granted one: right away, or after one worker has given its permit back by its
      own actions, of which there are at most as many as its fetch still needs. */
  lemma WaiterCanBeGranted(s: State, w: Id, plan: seq<Metric>) returns (v: Id, run: seq<Action>)
    requires Reachable(s) && In(s, w, Acquiring)
    ensures OnlyBy(run, v) && v != w
    ensures run != [] ==>
      v in s.workers && (s.workers[v].Reading? ==> s.workers[v].pipe.Valid()) && |run| <= WorkLeft(s.workers[v])
    ensures var last := Run(s, run + [Grant(w, plan)]); last.Some? && In(last.value, w, Reading(Open(plan)))
  {
    ReachableKeeps(s);
    v, run := w + 1, [];
    if s.held + 1 > s.capacity {
      assert Holders(s.workers) != {};
      v :| v in Holders(s.workers);
      run := PermitComesBack(s, v);
    }
    RunConcat(s, run, Grant(w, plan));
  }

  /** What can happen when, exactly. A new handler may register at any time; a permit is granted while one is free; an
      acquire fails only once the context is done, which it may be at any time; a fetch runs and may panic at any time;
      a worker that is not fetching tries again, or stops once the context is done. */
  lemma PossibleIff(s: State, w: Id, plan: seq<Metric>, e: Event)
    ensures Act(s, Register(w)).Some? <==> w !in s.workers
    ensures Act(s, Grant(w, plan)).Some? <==> In(s, w, Acquiring) && s.held < s.capacity
    ensures Act(s, Refuse(w)).Some? <==> In(s, w, Acquiring) && s.cancelled
    ensures Act(s, Work(w, e)).Some? <==>
      w in s.workers && s.workers[w].Reading? && Step(s.workers[w].pipe, e).Some?
    ensures Act(s, Again(w)).Some? <==> In(s, w, Resting) || In(s, w, BackingOff)
    ensures Act(s, Quit(w)).Some? <==> (In(s, w, Resting) || In(s, w, BackingOff)) && s.cancelled
    ensures Act(s, CancelAll) == Some(s.(cancelled := true))
  {
  }
}
