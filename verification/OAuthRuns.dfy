/** Any number of callers of `getOAuthToken`, through any clones, contending for the read-write lock. */
module OAuthRuns {
  import opened Results
  import opened OAuthToken

  type Id = nat

  /** A token the provider granted to a request that was decided on at time `since`. */
  datatype Grant = Grant(token: string, expiry: int, since: int)

  datatype Outcome =
    | FromCache(token: string, at: int, grant: int)
    | FromFetch(token: string, grant: int)
    | Failed(error: string)

  datatype Phase =
    // under no lock
    | Arrived
    // under the read lock: before the check, after it either way, and with the token copied
    | Reading
    | ReadFresh(at: int)
    | ReadCopied(token: string, at: int)
    | ReadStale
    // between the locks
    | WantWrite
    // under the write lock
    | Writing
    | WriteFresh(at: int)
    | Fetching(since: int)
    | Replied(grant: nat)
    | TokenWritten(grant: nat)
    | Written(grant: nat)
    | FetchFailed(error: string)
    // done
    | Returned(outcome: Outcome)
  {
    predicate HoldsRead() { Reading? || ReadFresh? || ReadCopied? || ReadStale? }

    predicate HoldsWrite() {
      Writing? || WriteFresh? || Fetching? || Replied? || TokenWritten? || Written? || FetchFailed?
    }
  }

  datatype State = State(
    now: int, token: string, expiry: int, readers: set<Id>, writer: Option<Id>, callers: map<Id, Phase>,
    grants: seq<Grant>)

  datatype Action = Arrive(c: Id) | Proceed(c: Id) | Answer(c: Id, reply: Reply) | Tick(elapsed: nat)

  function Initial(now: int): State {
    State(now, "", 0, {}, None, map[], [])
  }

  function Move(s: State, c: Id, phase: Phase): State {
    s.(callers := s.callers[c := phase])
  }

  /** The next atomic action of a caller that does not wait for the provider; `None` while a lock is taken. */
  function Advance(s: State, c: Id): Option<State>
    requires c in s.callers
  {
    match s.callers[c]
    case Arrived => if s.writer.None? then Some(Move(s.(readers := s.readers + {c}), c, Reading)) else None
    case Reading => Some(Move(s, c, if Fresh(s.token, s.expiry, s.now) then ReadFresh(s.now) else ReadStale))
    case ReadFresh(at) => Some(Move(s, c, ReadCopied(s.token, at)))
    case ReadCopied(token, at) =>
      Some(Move(s.(readers := s.readers - {c}), c, Returned(FromCache(token, at, |s.grants| - 1))))
    case ReadStale => Some(Move(s.(readers := s.readers - {c}), c, WantWrite))
    case WantWrite =>
      if s.writer.None? && s.readers == {} then Some(Move(s.(writer := Some(c)), c, Writing)) else None
    case Writing => Some(Move(s, c, if Fresh(s.token, s.expiry, s.now) then WriteFresh(s.now) else Fetching(s.now)))
    case WriteFresh(at) => Some(Move(s.(writer := None), c, Returned(FromCache(s.token, at, |s.grants| - 1))))
    case Fetching(_) => None
    case Replied(n) => if n < |s.grants| then Some(Move(s.(token := s.grants[n].token), c, TokenWritten(n))) else None
    case TokenWritten(n) => if n < |s.grants| then Some(Move(s.(expiry := s.grants[n].expiry), c, Written(n))) else None
    case Written(n) => Some(Move(s.(writer := None), c, Returned(FromFetch(s.token, n))))
    case FetchFailed(e) => Some(Move(s.(writer := None), c, Returned(Failed(e))))
    case Returned(_) => None
  }

  function Act(s: State, a: Action): Option<State> {
    match a
    case Arrive(c) => if c in s.callers then None else Some(Move(s, c, Arrived))
    case Proceed(c) => if c in s.callers then Advance(s, c) else None
    case Answer(c, reply) =>
      if c in s.callers && s.callers[c].Fetching? then
        match reply
        case Granted(token, expiry) =>
          var grant := Grant(token, expiry, s.callers[c].since);
          Some(Move(s.(grants := s.grants + [grant]), c, Replied(|s.grants|)))
        case Refused(e) => Some(Move(s, c, FetchFailed(e)))
      else None
    case Tick(elapsed) => Some(s.(now := s.now + elapsed))
  }

  function Run(s: State, run: seq<Action>): Option<State>
    decreases |run|
  {
    if run == [] then Some(s)
    else match Act(s, run[0])
      case None => None
      case Some(t) => Run(t, run[1..])
  }

  /* ---------- what every action keeps ---------- */

  ghost predicate LocksOk(s: State) {
    && (forall c :: c in s.readers <==> c in s.callers && s.callers[c].HoldsRead())
    && (forall c :: s.writer == Some(c) <==> c in s.callers && s.callers[c].HoldsWrite())
    && (s.writer.Some? ==> s.readers == {})
  }

  /** The phase of whoever holds the write lock. */
  function Holder(s: State): Option<Phase> {
    if s.writer.Some? && s.writer.value in s.callers then Some(s.callers[s.writer.value]) else None
  }

  predicate MidStore(holder: Option<Phase>) {
    holder.Some? && (holder.value.Replied? || holder.value.TokenWritten?)
  }

  /** The cache holds the latest grant, or the one before it while the latest is being stored, the token first. */
  ghost predicate CacheOk(s: State) {
    var n := if MidStore(Holder(s)) then |s.grants| - 1 else |s.grants|;
    && 0 <= n
    && s.expiry == (if n == 0 then 0 else s.grants[n - 1].expiry)
    && (|| s.token == (if n == 0 then "" else s.grants[n - 1].token)
        || (MidStore(Holder(s)) && Holder(s).value.TokenWritten?))
  }

  predicate PhaseOk(s: State, phase: Phase) {
    match phase
    case ReadFresh(at) => Fresh(s.token, s.expiry, at) && at <= s.now
    case ReadCopied(token, at) => token == s.token && Fresh(s.token, s.expiry, at) && at <= s.now
    case WriteFresh(at) => Fresh(s.token, s.expiry, at) && at <= s.now
    case Fetching(since) => !Fresh(s.token, s.expiry, since) && since <= s.now
    case Replied(n) => n == |s.grants| - 1
    case TokenWritten(n) => n == |s.grants| - 1 && s.token == s.grants[n].token
    case Written(n) => n == |s.grants| - 1
    case Returned(FromCache(token, at, n)) =>
      0 <= n < |s.grants| && token == s.grants[n].token && Fresh(token, s.grants[n].expiry, at) && at <= s.now
    case Returned(FromFetch(token, n)) => 0 <= n < |s.grants| && token == s.grants[n].token
    case _ => true
  }

  /** No request was decided on while the grant before it was fresh. */
  ghost predicate GrantsOk(s: State) {
    && (forall i :: 0 <= i < |s.grants| ==> s.grants[i].since <= s.now)
    && (forall i {:trigger s.grants[i]} :: 0 < i < |s.grants| ==>
          !Fresh(s.grants[i - 1].token, s.grants[i - 1].expiry, s.grants[i].since))
  }

  ghost predicate Inv(s: State) {
    LocksOk(s) && CacheOk(s) && GrantsOk(s) && forall c :: c in s.callers ==> PhaseOk(s, s.callers[c])
  }

  lemma ProceedKeepsReaders(s: State, c: Id)
    requires LocksOk(s) && c in s.callers && Advance(s, c).Some?
    ensures var t := Advance(s, c).value;
      forall d :: d in t.readers <==> d in t.callers && t.callers[d].HoldsRead()
  {
  }

  lemma ProceedKeepsWriter(s: State, c: Id)
    requires LocksOk(s) && c in s.callers && Advance(s, c).Some?
    ensures var t := Advance(s, c).value;
      && (forall d :: t.writer == Some(d) <==> d in t.callers && t.callers[d].HoldsWrite())
      && (t.writer.Some? ==> t.readers == {})
  {
  }

  lemma LocksKept(s: State, a: Action)
    requires LocksOk(s) && Act(s, a).Some?
    ensures LocksOk(Act(s, a).value)
  {
    if a.Proceed? {
      ProceedKeepsReaders(s, a.c);
      ProceedKeepsWriter(s, a.c);
    }
  }

  lemma CacheUntouched(s: State, t: State)
    requires CacheOk(s) && t.token == s.token && t.expiry == s.expiry && t.grants == s.grants
    requires Holder(s) == Holder(t) || (!MidStore(Holder(s)) && !MidStore(Holder(t)))
    ensures CacheOk(t)
  {
  }

  /** A caller outside a store does not disturb one. */
  lemma HolderStays(s: State, a: Action, c: Id)
    requires Inv(s) && a == Proceed(c) && Act(s, a).Some?
    requires !s.callers[c].HoldsWrite() && s.callers[c] != WantWrite
    ensures Holder(Act(s, a).value) == Holder(s)
  {
  }

  lemma AnswerCacheKept(s: State, c: Id, reply: Reply)
    requires Inv(s) && Act(s, Answer(c, reply)).Some?
    ensures CacheOk(Act(s, Answer(c, reply)).value)
  {
    assert s.writer == Some(c) && !MidStore(Holder(s));
  }

  lemma ProceedCacheKept(s: State, c: Id)
    requires Inv(s) && Act(s, Proceed(c)).Some?
    ensures CacheOk(Act(s, Proceed(c)).value)
  {
    if s.callers[c].HoldsWrite() || s.callers[c] == WantWrite {
      HolderCacheKept(s, c);
    } else {
      HolderStays(s, Proceed(c), c);
      CacheUntouched(s, Act(s, Proceed(c)).value);
    }
  }

  lemma ArriveOrTickCacheKept(s: State, a: Action)
    requires Inv(s) && Act(s, a).Some? && (a.Arrive? || a.Tick?)
    ensures CacheOk(Act(s, a).value)
  {
    CacheUntouched(s, Act(s, a).value);
  }

  lemma CacheKept(s: State, a: Action)
    requires Inv(s) && Act(s, a).Some?
    ensures CacheOk(Act(s, a).value)
  {
    match a
    case Answer(c, reply) => AnswerCacheKept(s, c, reply);
    case Proceed(c) => ProceedCacheKept(s, c);
    case _ => ArriveOrTickCacheKept(s, a);
  }

  lemma HolderCacheKept(s: State, c: Id)
    requires Inv(s) && c in s.callers && Advance(s, c).Some?
    requires s.callers[c].HoldsWrite() || s.callers[c] == WantWrite
    ensures CacheOk(Advance(s, c).value)
  {
    if s.callers[c].Replied? || s.callers[c].TokenWritten? {
      StoringCacheKept(s, c);
    } else {
      assert s.callers[c].HoldsWrite() ==> s.writer == Some(c) && Holder(s) == Some(s.callers[c]);
      CacheUntouched(s, Advance(s, c).value);
    }
  }

  lemma StoringCacheKept(s: State, c: Id)
    requires Inv(s) && c in s.callers && Advance(s, c).Some?
    requires s.callers[c].Replied? || s.callers[c].TokenWritten?
    ensures CacheOk(Advance(s, c).value)
  {
    assert s.writer == Some(c) && Holder(s) == Some(s.callers[c]);
    assert PhaseOk(s, s.callers[c]);
  }

  lemma GrantAnswered(s: State, c: Id, reply: Reply)
    requires Inv(s) && Act(s, Answer(c, reply)).Some?
    ensures GrantsOk(Act(s, Answer(c, reply)).value)
  {
    assert PhaseOk(s, s.callers[c]);
    assert s.writer == Some(c) && !MidStore(Holder(s));
    if reply.Granted? {
      OneMoreGrant(s, Grant(reply.token, reply.expiry, s.callers[c].since));
    }
  }

  lemma OneMoreGrant(s: State, grant: Grant)
    requires GrantsOk(s) && grant.since <= s.now
    requires forall i :: i == |s.grants| - 1 >= 0 ==> !Fresh(s.grants[i].token, s.grants[i].expiry, grant.since)
    ensures GrantsOk(s.(grants := s.grants + [grant]))
  {
  }

  lemma GrantsKept(s: State, a: Action)
    requires Inv(s) && Act(s, a).Some?
    ensures GrantsOk(Act(s, a).value)
  {
    if a.Answer? {
      GrantAnswered(s, a.c, a.reply);
    } else {
      assert Act(s, a).value.grants == s.grants;
    }
  }

  lemma ReaderMovesKept(s: State, c: Id)
    requires Inv(s) && c in s.callers && Advance(s, c).Some? && !s.callers[c].HoldsWrite()
    ensures PhaseOk(Advance(s, c).value, Advance(s, c).value.callers[c])
  {
    assert PhaseOk(s, s.callers[c]);
    assert s.callers[c].HoldsRead() ==> s.writer.None?;
  }

  lemma WriterMovesKept(s: State, c: Id)
    requires Inv(s) && c in s.callers && Advance(s, c).Some? && s.callers[c].HoldsWrite()
    ensures PhaseOk(Advance(s, c).value, Advance(s, c).value.callers[c])
  {
    assert PhaseOk(s, s.callers[c]);
    assert s.writer == Some(c) && Holder(s) == Some(s.callers[c]);
  }

  lemma MoverKept(s: State, c: Id)
    requires Inv(s) && c in s.callers && Advance(s, c).Some?
    ensures PhaseOk(Advance(s, c).value, Advance(s, c).value.callers[c])
  {
    if s.callers[c].HoldsWrite() {
      WriterMovesKept(s, c);
    } else {
      ReaderMovesKept(s, c);
    }
  }

  /** A caller that does not move keeps its facts: whoever could touch the cache or the grants has the lock to
      itself. */
  lemma BystanderKept(s: State, a: Action, d: Id)
    requires Inv(s) && Act(s, a).Some? && d in s.callers && Act(s, a).value.callers[d] == s.callers[d]
    ensures PhaseOk(Act(s, a).value, s.callers[d])
  {
    assert PhaseOk(s, s.callers[d]);
  }

  lemma AnswerMovesKept(s: State, c: Id, reply: Reply)
    requires Inv(s) && Act(s, Answer(c, reply)).Some?
    ensures var t := Act(s, Answer(c, reply)).value; PhaseOk(t, t.callers[c])
  {
  }

  lemma MoversKept(s: State, a: Action, d: Id)
    requires Inv(s) && Act(s, a).Some? && d in Act(s, a).value.callers
    requires d !in s.callers || Act(s, a).value.callers[d] != s.callers[d]
    ensures PhaseOk(Act(s, a).value, Act(s, a).value.callers[d])
  {
    match a
    case Proceed(c) =>
      assert c == d;
      MoverKept(s, d);
    case Answer(c, reply) =>
      assert c == d;
      AnswerMovesKept(s, d, reply);
    case _ =>
  }

  lemma ActKeeps(s: State, a: Action)
    requires Inv(s) && Act(s, a).Some?
    ensures Inv(Act(s, a).value)
  {
    LocksKept(s, a);
    CacheKept(s, a);
    GrantsKept(s, a);
    var t := Act(s, a).value;
    forall d | d in t.callers
      ensures PhaseOk(t, t.callers[d])
    {
      if d in s.callers && t.callers[d] == s.callers[d] {
        BystanderKept(s, a, d);
      } else {
        MoversKept(s, a, d);
      }
    }
  }

  lemma {:induction false} RunKeeps(s: State, run: seq<Action>)
    requires Inv(s) && Run(s, run).Some?
    ensures Inv(Run(s, run).value)
    decreases |run|
  {
    if run != [] {
      ActKeeps(s, run[0]);
      RunKeeps(Act(s, run[0]).value, run[1..]);
    }
  }

  ghost predicate Reachable(s: State) {
    exists now, run :: Run(Initial(now), run) == Some(s)
  }

  lemma ReachableKeeps(s: State)
    requires Reachable(s)
    ensures Inv(s)
  {
    var now, run :| Run(Initial(now), run) == Some(s);
    RunKeeps(Initial(now), run);
  }

  /* ---------- what callers can rely on ---------- */

  /** A request to the provider is made by one caller at a time, alone under the write lock, and was decided on when the
      cached token was missing or inside the margin. */
  lemma FetchOnlyWhenStale(s: State, c: Id)
    requires Reachable(s) && c in s.callers && s.callers[c].Fetching?
    ensures s.writer == Some(c) && s.readers == {}
    ensures forall d :: d in s.callers && d != c ==> !s.callers[d].HoldsRead() && !s.callers[d].HoldsWrite()
    ensures s.token == "" || s.callers[c].since >= s.expiry - 300_000_000_000
  {
    ReachableKeeps(s);
    assert PhaseOk(s, s.callers[c]);
  }

  /** Every token handed out was granted by the provider, and was either fetched by that very caller or had more than
      the margin left when that caller checked. */
  lemma ReturnedTokensAreGood(s: State, c: Id)
    requires Reachable(s) && c in s.callers && s.callers[c].Returned?
    ensures match s.callers[c].outcome
      case FromCache(token, at, n) =>
        0 <= n < |s.grants| && token == s.grants[n].token && token != "" && at < s.grants[n].expiry - 300_000_000_000
      case FromFetch(token, n) => 0 <= n < |s.grants| && token == s.grants[n].token
      case Failed(_) => true
  {
    ReachableKeeps(s);
    assert PhaseOk(s, s.callers[c]);
  }

  /** Until the provider grants a token, nothing that anybody does, refusals included, changes the cache. */
  lemma {:induction false} OnlyGrantsChangeTheCache(s: State, run: seq<Action>)
    requires Inv(s) && !MidStore(Holder(s)) && Run(s, run).Some?
    requires forall i :: 0 <= i < |run| ==> !(run[i].Answer? && run[i].reply.Granted?)
    ensures var t := Run(s, run).value; t.token == s.token && t.expiry == s.expiry && t.grants == s.grants
    decreases |run|
  {
    if run != [] {
      var t := Act(s, run[0]).value;
      ActKeeps(s, run[0]);
      RefusalKeepsCache(s, run[0]);
      OnlyGrantsChangeTheCache(t, run[1..]);
    }
  }

  lemma RefusalKeepsCache(s: State, a: Action)
    requires Inv(s) && !MidStore(Holder(s)) && Act(s, a).Some?
    requires !(a.Answer? && a.reply.Granted?)
    ensures var t := Act(s, a).value;
      t.token == s.token && t.expiry == s.expiry && t.grants == s.grants && !MidStore(Holder(t))
  {
    assert forall c :: c in s.callers && s.callers[c].HoldsWrite() ==> s.writer == Some(c);
  }

  /** No needless fetch: of all grants so far only the latest can be fresh now, and while it is, nobody is fetching. */
  lemma NoNeedlessFetch(s: State)
    requires Reachable(s)
    ensures forall i :: 0 <= i < |s.grants| && Fresh(s.grants[i].token, s.grants[i].expiry, s.now) ==>
      && i == |s.grants| - 1
      && forall c :: c in s.callers ==> !s.callers[c].Fetching?
  {
    ReachableKeeps(s);
    forall i | 0 <= i < |s.grants| && Fresh(s.grants[i].token, s.grants[i].expiry, s.now)
      ensures i == |s.grants| - 1 && forall c :: c in s.callers ==> !s.callers[c].Fetching?
    {
      assert i + 1 < |s.grants| ==> !Fresh(s.grants[i].token, s.grants[i].expiry, s.grants[i + 1].since);
      forall c | c in s.callers
        ensures !s.callers[c].Fetching?
      {
        assert PhaseOk(s, s.callers[c]);
      }
    }
  }

  /** While the first token stays outside the margin, exactly one fetch has succeeded. */
  lemma OneFetchPerFreshToken(s: State)
    requires Reachable(s) && |s.grants| >= 1
    requires Fresh(s.grants[0].token, s.grants[0].expiry, s.now)
    ensures |s.grants| == 1
  {
    NoNeedlessFetch(s);
  }

  /** The callers that wait for nobody, and those that have the lock they want free: readers share it, a writer has it
      alone. */
  predicate MayProceed(s: State, phase: Phase) {
    match phase
    case Arrived => s.writer == None
    case WantWrite => s.writer == None && s.readers == {}
    case Fetching(_) => false
    case Returned(_) => false
    case _ => true
  }

  /** Who can move when, exactly. A caller may come at any time, and the provider may answer whoever waits for it. */
  lemma MovesIff(s: State, c: Id, reply: Reply)
    requires Inv(s)
    ensures Act(s, Arrive(c)).Some? <==> c !in s.callers
    ensures Act(s, Answer(c, reply)).Some? <==> c in s.callers && s.callers[c].Fetching?
    ensures Act(s, Proceed(c)).Some? <==> c in s.callers && MayProceed(s, s.callers[c])
  {
    if c in s.callers {
      assert PhaseOk(s, s.callers[c]);
    }
  }

  /** The locks never deadlock: while any caller is unfinished, one can move or is waiting for the provider. */
  lemma SomebodyCanMove(s: State, c: Id) returns (d: Id)
    requires Reachable(s) && c in s.callers && !s.callers[c].Returned?
    ensures d in s.callers && (Advance(s, d).Some? || s.callers[d].Fetching?)
  {
    ReachableKeeps(s);
    d := if s.writer.Some? then s.writer.value
         else if r :| r in s.readers then r
         else c;
    assert PhaseOk(s, s.callers[d]);
  }

  /* ---------- the undisturbed caller ---------- */

  lemma {:induction false} RunThen(s: State, run: seq<Action>, a: Action)
    requires Run(s, run).Some?
    ensures Run(s, run + [a]) == Act(Run(s, run).value, a)
    decreases |run|
  {
    if run != [] {
      assert (run + [a])[1..] == run[1..] + [a];
      RunThen(Act(s, run[0]).value, run[1..], a);
    } else {
      assert run + [a] == [a];
    }
  }

  lemma Then(s: State, a: Action) returns (t: State)
    requires Reachable(s) && Act(s, a).Some?
    ensures t == Act(s, a).value && Reachable(t)
  {
    t := Act(s, a).value;
    var now, run :| Run(Initial(now), run) == Some(s);
    RunThen(Initial(now), run, a);
    assert Run(Initial(now), run + [a]) == Some(t);
  }

  lemma CheckAlone(s: State, c: Id) returns (t: State)
    requires Reachable(s) && s.writer.None? && s.readers == {} && c !in s.callers
    ensures Reachable(t) && c in t.callers && t == s.(callers := t.callers, readers := {c})
    ensures t.callers[c] == if Fresh(s.token, s.expiry, s.now) then ReadFresh(s.now) else ReadStale
  {
    t := Then(s, Arrive(c));
    t := Then(t, Proceed(c));
    t := Then(t, Proceed(c));
  }

  lemma FetchAlone(s: State, c: Id) returns (t: State)
    requires Reachable(s) && s.writer.None? && s.readers == {} && c !in s.callers
    requires !Fresh(s.token, s.expiry, s.now)
    ensures Reachable(t) && c in t.callers && t.callers[c].Fetching? && t.token == s.token && t.expiry == s.expiry
  {
    t := CheckAlone(s, c);
    t := Then(t, Proceed(c));
    t := Then(t, Proceed(c));
    t := Then(t, Proceed(c));
  }

  lemma RefuseAlone(s: State, c: Id, e: string) returns (t: State)
    requires Reachable(s) && c in s.callers && s.callers[c].Fetching?
    ensures Reachable(t) && c in t.callers && t.callers[c] == Returned(Failed(e))
    ensures t.token == s.token && t.expiry == s.expiry
  {
    t := Then(s, Answer(c, Refused(e)));
    t := Then(t, Proceed(c));
  }

  lemma GrantAlone(s: State, c: Id, token: string, expiry: int) returns (t: State)
    requires Reachable(s) && c in s.callers && s.callers[c].Fetching?
    ensures Reachable(t) && t == s.(callers := t.callers, grants := t.grants)
    ensures |t.grants| > 0 && t.callers == s.callers[c := Replied(|t.grants| - 1)]
    ensures t.grants[|t.grants| - 1].token == token && t.grants[|t.grants| - 1].expiry == expiry
  {
    t := Then(s, Answer(c, Granted(token, expiry)));
  }

  lemma StoreAlone(s: State, c: Id, token: string, expiry: int) returns (t: State)
    requires Reachable(s) && c in s.callers && s.callers[c].Fetching?
    ensures Reachable(t) && t.callers.Keys == s.callers.Keys && t.token == token && t.expiry == expiry
    ensures t.callers[c].Returned? && t.callers[c].outcome.FromFetch? && t.callers[c].outcome.token == token
  {
    t := GrantAlone(s, c, token, expiry);
    t := Then(t, Proceed(c));
    t := Then(t, Proceed(c));
    t := Then(t, Proceed(c));
  }

  /** From any reachable state with both locks free, the machine can run one caller undisturbed, and it then returns and
      leaves what `GetOAuthToken` does. */
  lemma AloneIsARun(s: State, c: Id, reply: Reply) returns (t: State)
    requires Reachable(s) && s.writer.None? && s.readers == {} && c !in s.callers
    ensures Reachable(t) && c in t.callers && t.callers[c].Returned?
    ensures Fresh(s.token, s.expiry, s.now) ==>
      t.callers[c].outcome == FromCache(s.token, s.now, |s.grants| - 1) && t.token == s.token && t.expiry == s.expiry
    ensures !Fresh(s.token, s.expiry, s.now) && reply.Granted? ==>
      && t.callers[c].outcome.FromFetch? && t.callers[c].outcome.token == reply.token
      && t.token == reply.token && t.expiry == reply.expiry
    ensures !Fresh(s.token, s.expiry, s.now) && reply.Refused? ==>
      t.callers[c].outcome == Failed(reply.error) && t.token == s.token && t.expiry == s.expiry
  {
    if Fresh(s.token, s.expiry, s.now) {
      t := CheckAlone(s, c);
      t := Then(t, Proceed(c));
      t := Then(t, Proceed(c));
    } else {
      t := FetchAlone(s, c);
      match reply
      case Granted(token, expiry) => t := StoreAlone(t, c, token, expiry);
      case Refused(e) => t := RefuseAlone(t, c, e);
    }
  }
}
