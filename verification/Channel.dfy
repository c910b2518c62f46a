/** The buffered channel between one scraping goroutine and the loop that drains it, in every interleaving. */
module Channel {
  import opened Results

  const CAPACITY: nat := 1000

  datatype Producer = Running | Returned | Panicked

  /** `plan` is what the producer sends if it never panics; `next` of it has been sent. */
  datatype Pipe<T> = Pipe(
    plan: seq<T>, next: nat, buffer: seq<T>, received: seq<T>, producer: Producer, closed: bool)
  {
    function Sent(): seq<T>
      requires next <= |plan|
    {
      plan[..next]
    }

    predicate Finished() {
      closed && buffer == []
    }

    ghost predicate Valid() {
      && next <= |plan|
      && |buffer| <= CAPACITY
      && received + buffer == Sent()
      && (closed ==> producer != Running)
      && (producer == Returned ==> next == |plan|)
    }

    function Measure(): nat
      requires next <= |plan|
    {
      2 * (|plan| - next) + |buffer| + (if producer == Running then 2 else if !closed then 1 else 0)
    }
  }

  /** Panic may strike at any point; recovery and the deferred close follow it. */
  datatype Event = Send | Return | Panic | Close | Receive

  function Open<T>(plan: seq<T>): Pipe<T> {
    Pipe(plan, 0, [], [], Running, false)
  }

  /** One atomic action, or `None` where Go would block. */
  function Step<T>(p: Pipe<T>, e: Event): Option<Pipe<T>> {
    match e
    case Send =>
      if p.producer == Running && p.next < |p.plan| && |p.buffer| < CAPACITY
      then Some(p.(buffer := p.buffer + [p.plan[p.next]], next := p.next + 1)) else None
    case Return =>
      if p.producer == Running && p.next == |p.plan| then Some(p.(producer := Returned)) else None
    case Panic =>
      if p.producer == Running then Some(p.(producer := Panicked)) else None
    case Close =>
      if p.producer != Running && !p.closed then Some(p.(closed := true)) else None
    case Receive =>
      if p.buffer != [] then Some(p.(received := p.received + [p.buffer[0]], buffer := p.buffer[1..])) else None
  }

  function Run<T>(p: Pipe<T>, es: seq<Event>): Option<Pipe<T>>
    decreases |es|
  {
    if es == [] then Some(p)
    else match Step(p, es[0])
      case None => None
      case Some(q) => Run(q, es[1..])
  }

  lemma StepKeeps<T>(p: Pipe<T>, e: Event)
    requires p.Valid() && Step(p, e).Some?
    ensures Step(p, e).value.Valid()
    ensures Step(p, e).value.plan == p.plan
    ensures Step(p, e).value.Measure() < p.Measure()
    ensures p.closed ==> Step(p, e).value.closed && Step(p, e).value.Sent() == p.Sent()
    ensures p.received <= Step(p, e).value.received
  {
    var q := Step(p, e).value;
    if e == Receive {
      assert q.received + q.buffer == p.received + p.buffer;
    } else if e == Send {
      assert q.received + q.buffer == p.received + p.buffer + [p.plan[p.next]];
    }
  }

  /** In every run: conservation, the capacity bound, no close before the producer is done, no send after close,
      and no more than twice the plan plus two actions. */
  lemma {:induction false} RunKeeps<T>(p: Pipe<T>, es: seq<Event>)
    requires p.Valid() && Run(p, es).Some?
    ensures var q := Run(p, es).value;
      && q.Valid() && q.plan == p.plan && |q.buffer| <= 1000
      && |es| + q.Measure() <= p.Measure()
      && (p.closed ==> q.Sent() == p.Sent())
    decreases |es|
  {
    if es != [] {
      StepKeeps(p, es[0]);
      RunKeeps(Step(p, es[0]).value, es[1..]);
    }
  }

  /** No reachable state is stuck before the consumer has drained a closed channel. */
  lemma NeverStuck<T>(p: Pipe<T>) returns (e: Event)
    requires p.Valid() && !p.Finished()
    ensures Step(p, e).Some? && e != Panic
  {
    e := if p.buffer != [] then Receive
         else if p.producer != Running then Close
         else if p.next < |p.plan| then Send
         else Return;
  }

  ghost predicate Stuck<T>(p: Pipe<T>) {
    forall e :: Step(p, e) == None
  }

  lemma StuckIsFinished<T>(p: Pipe<T>)
    requires p.Valid() && Stuck(p)
    ensures p.Finished() && p.received == p.Sent()
  {
    if !p.Finished() {
      var _ := NeverStuck(p);
    }
  }

  /** Every run that cannot go on has delivered exactly what was sent: the whole plan, or a panic's prefix of it. */
  lemma MaximalRunDelivers<T>(plan: seq<T>, es: seq<Event>, q: Pipe<T>)
    requires Run(Open(plan), es) == Some(q) && Stuck(q)
    ensures q.Finished()
    ensures q.received <= plan
    ensures q.producer == Returned ==> q.received == plan
    ensures |es| <= 2 * |plan| + 2
  {
    RunKeeps(Open(plan), es);
    StuckIsFinished(q);
  }

  /* ---------- exactly the valid states are reachable ---------- */

  lemma {:induction false} RunConcat<T>(p: Pipe<T>, es: seq<Event>, e: Event)
    requires Run(p, es).Some?
    ensures Run(p, es + [e]) == Step(Run(p, es).value, e)
    decreases |es|
  {
    if es == [] {
      assert es + [e] == [e];
    } else {
      assert (es + [e])[1..] == es[1..] + [e];
      RunConcat(Step(p, es[0]).value, es[1..], e);
    }
  }

  ghost predicate Reached<T>(p: Pipe<T>) {
    exists es :: Run(Open(p.plan), es) == Some(p)
  }

  lemma ReachNext<T>(p: Pipe<T>, e: Event, q: Pipe<T>)
    requires Reached(p) && Step(p, e) == Some(q) && q.plan == p.plan
    ensures Reached(q)
  {
    var es :| Run(Open(p.plan), es) == Some(p);
    RunConcat(Open(p.plan), es, e);
    assert Run(Open(q.plan), es + [e]) == Some(q);
  }

  /** The pipe after r metrics were received and b more buffered, its producer still running. */
  function Flowing<T>(plan: seq<T>, r: nat, b: nat): Pipe<T>
    requires r + b <= |plan|
  {
    Pipe(plan, r + b, plan[r..r + b], plan[..r], Running, false)
  }

  lemma {:induction false} FlowingReached<T>(plan: seq<T>, r: nat, b: nat)
    requires r + b <= |plan| && b <= 1000
    ensures Reached(Flowing(plan, r, b))
    decreases r, b
  {
    if b > 0 {
      FlowingReached(plan, r, b - 1);
      assert plan[r..r + b - 1] + [plan[r + b - 1]] == plan[r..r + b];
      ReachNext(Flowing(plan, r, b - 1), Send, Flowing(plan, r, b));
    } else if r > 0 {
      FlowingReached(plan, r - 1, 1);
      var p, q := Flowing(plan, r - 1, 1), Flowing(plan, r, 0);
      assert p.buffer == [plan[r - 1]] && p.buffer[1..] == [] == q.buffer;
      assert p.received + [plan[r - 1]] == q.received;
      ReachNext(p, Receive, q);
    } else {
      assert Run(Open(plan), []) == Some(Flowing(plan, 0, 0));
    }
  }

  /** Every state with what was sent received or buffered in order, at most 1000 of it buffered, and a close that
      follows the end of the producer, which may have panicked anywhere, can come about; and no other. */
  lemma ReachedIff<T>(p: Pipe<T>)
    ensures Reached(p) <==>
      && p.next <= |p.plan| && |p.buffer| <= 1000 && p.received + p.buffer == p.plan[..p.next]
      && (p.closed ==> p.producer != Running)
      && (p.producer == Returned ==> p.next == |p.plan|)
  {
    if Reached(p) {
      var es :| Run(Open(p.plan), es) == Some(p);
      RunKeeps(Open(p.plan), es);
    } else if p.Valid() {
      ValidReached(p);
    }
  }

  lemma ValidReached<T>(p: Pipe<T>)
    requires p.Valid()
    ensures Reached(p)
  {
    var r, b := |p.received|, |p.buffer|;
    assert p.received == p.plan[..r] && p.buffer == p.plan[r..r + b] by {
      assert p.received == (p.received + p.buffer)[..r] && p.buffer == (p.received + p.buffer)[r..];
    }
    FlowingReached(p.plan, r, b);
    var running := Flowing(p.plan, r, b);
    if p.producer != Running {
      var ended := running.(producer := p.producer);
      ReachNext(running, if p.producer == Panicked then Panic else Return, ended);
      if p.closed {
        ReachNext(ended, Close, p);
      }
    }
  }
}
