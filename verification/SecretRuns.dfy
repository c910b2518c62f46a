/** Any number of concurrent `Resolve` calls: the lookups, the coalesced backend reads, the waiters that store,
    cancellation and the clock, in every interleaving. `DoChan` is taken as a primitive that joins the call in flight
    for a reference or starts one, and whose completion removes the call and hands its result to every waiter. */
module SecretRuns {
  import opened Results
  import opened Text
  import opened SecretResolver

  type Id = nat

  /** A successful backend reply, when it came, and for what. */
  datatype Read = Read(path: string, field: string, value: string, ttl: int, at: int)

  /** A waiter put the value of read number `read` under `ref`. */
  datatype Store = Store(ref: string, read: nat, at: int)

  /** `store` numbers the store that put the value there. */
  datatype CallResult =
    | Fetched(read: nat)
    | FromCache(value: string, at: int, store: Option<nat>)
    | Failed(error: string)

  datatype CallPhase = Rechecking | Reading | Completed(result: CallResult) | Delivered(result: CallResult)

  datatype Call = Call(ref: string, path: string, field: string, phase: CallPhase)

  datatype Source = Direct | Hit(at: int, store: Option<nat>) | Shared(call: Id) | ByCancel

  datatype CallerPhase =
    | Entered
    | Missed
    | Waiting(call: Id)
    | Storing(call: Id, read: nat)
    | Returned(result: Result<string, Error>, source: Source)

  datatype Caller = Caller(cfg: string, phase: CallerPhase)

  /** `table` is the coalescing table: the call in flight for each reference. */
  datatype State = State(
    hasBackend: bool, now: int, cache: Cache, table: map<string, Id>, calls: map<Id, Call>, callers: map<Id, Caller>,
    history: seq<Read>, stores: seq<Store>)

  datatype Action =
    | Enter(c: Id, cfg: string)
    | Look(c: Id)
    | Join(c: Id, k: Id)
    | Recheck(k: Id)
    | Answer(k: Id, reply: Reply)
    | Complete(k: Id)
    | Collect(c: Id)
    | Put(c: Id)
    | Cancel(c: Id)
    | Tick(elapsed: nat)

  function Initial(hasBackend: bool, now: int): State {
    State(hasBackend, now, map[], map[], map[], map[], [], [])
  }

  /** The number of the latest store under a reference. */
  function LastStore(stores: seq<Store>, ref: string): Option<nat> {
    if stores == [] then None
    else if stores[|stores| - 1].ref == ref then Some(|stores| - 1)
    else LastStore(stores[..|stores| - 1], ref)
  }

  predicate HasRef(s: State, c: Id) {
    c in s.callers && Parse(s.callers[c].cfg).Ref?
  }

  function SetCaller(s: State, c: Id, phase: CallerPhase): State
    requires c in s.callers
  {
    s.(callers := s.callers[c := s.callers[c].(phase := phase)])
  }

  function SetCall(s: State, k: Id, phase: CallPhase): State
    requires k in s.calls
  {
    s.(calls := s.calls[k := s.calls[k].(phase := phase)])
  }

  function DoEnter(s: State, c: Id, cfg: string): State {
    var phase := match Parse(cfg)
      case Literal => Returned(Ok(cfg), Direct)
      case Invalid => Returned(Err(InvalidRef), Direct)
      case Ref(_, _, _) => Entered;
    s.(callers := s.callers[c := Caller(cfg, phase)])
  }

  function DoLook(s: State, c: Id): State
    requires HasRef(s, c)
  {
    var ref := Parse(s.callers[c].cfg).ref;
    var (found, cache) := Get(s.cache, ref, s.now);
    var phase := match found
      case Some(v) => Returned(Ok(v), Hit(s.now, LastStore(s.stores, ref)))
      case None => if s.hasBackend then Missed else Returned(Err(NoBackend), Direct);
    SetCaller(s.(cache := cache), c, phase)
  }

  function DoJoin(s: State, c: Id, k: Id): Option<State>
    requires HasRef(s, c)
  {
    var p := Parse(s.callers[c].cfg);
    if p.ref in s.table then
      if s.table[p.ref] == k then Some(SetCaller(s, c, Waiting(k))) else None
    else if k in s.calls then None
    else
      var t := s.(calls := s.calls[k := Call(p.ref, p.path, p.field, Rechecking)], table := s.table[p.ref := k]);
      Some(SetCaller(t, c, Waiting(k)))
  }

  function DoRecheck(s: State, k: Id): State
    requires k in s.calls
  {
    var ref := s.calls[k].ref;
    var (found, cache) := Get(s.cache, ref, s.now);
    var phase := match found
      case Some(v) => Completed(FromCache(v, s.now, LastStore(s.stores, ref)))
      case None => Reading;
    SetCall(s.(cache := cache), k, phase)
  }

  function DoAnswer(s: State, k: Id, reply: Reply): State
    requires k in s.calls
  {
    match reply
    case Secret(v, ttl) =>
      var t := s.(history := s.history + [Read(s.calls[k].path, s.calls[k].field, v, ttl, s.now)]);
      SetCall(t, k, Completed(Fetched(|s.history|)))
    case Failure(e) => SetCall(s, k, Completed(Failed(e)))
  }

  function DoComplete(s: State, k: Id): State
    requires k in s.calls && s.calls[k].phase.Completed?
  {
    SetCall(s.(table := s.table - {s.calls[k].ref}), k, Delivered(s.calls[k].phase.result))
  }

  function DoCollect(s: State, c: Id, k: Id, r: CallResult): State
    requires c in s.callers
  {
    var phase := match r
      case Fetched(i) => Storing(k, i)
      case FromCache(v, _, _) => Returned(Ok(v), Shared(k))
      case Failed(e) => Returned(Err(Backend(e)), Shared(k));
    SetCaller(s, c, phase)
  }

  function DoPut(s: State, c: Id, k: Id, i: nat): State
    requires HasRef(s, c) && i < |s.history|
  {
    var ref := Parse(s.callers[c].cfg).ref;
    var cache := Set(s.cache, ref, s.history[i].value, s.history[i].ttl, s.now);
    var t := s.(cache := cache, stores := s.stores + [Store(ref, i, s.now)]);
    SetCaller(t, c, Returned(Ok(s.history[i].value), Shared(k)))
  }

  /** One atomic action, or `None` where it cannot happen. */
  function Act(s: State, a: Action): Option<State> {
    match a
    case Enter(c, cfg) => if c in s.callers then None else Some(DoEnter(s, c, cfg))
    case Look(c) => if HasRef(s, c) && s.callers[c].phase == Entered then Some(DoLook(s, c)) else None
    case Join(c, k) => if HasRef(s, c) && s.callers[c].phase == Missed then DoJoin(s, c, k) else None
    case Recheck(k) => if k in s.calls && s.calls[k].phase == Rechecking then Some(DoRecheck(s, k)) else None
    case Answer(k, reply) => if k in s.calls && s.calls[k].phase == Reading then Some(DoAnswer(s, k, reply)) else None
    case Complete(k) => if k in s.calls && s.calls[k].phase.Completed? then Some(DoComplete(s, k)) else None
    case Collect(c) =>
      if c in s.callers && s.callers[c].phase.Waiting? then
        var k := s.callers[c].phase.call;
        if k in s.calls && s.calls[k].phase.Delivered? then Some(DoCollect(s, c, k, s.calls[k].phase.result)) else None
      else None
    case Put(c) =>
      if HasRef(s, c) && s.callers[c].phase.Storing? && s.callers[c].phase.read < |s.history|
      then Some(DoPut(s, c, s.callers[c].phase.call, s.callers[c].phase.read)) else None
    case Cancel(c) =>
      if c in s.callers && s.callers[c].phase.Waiting?
      then Some(SetCaller(s, c, Returned(Err(Cancelled), ByCancel))) else None
    case Tick(elapsed) => Some(s.(now := s.now + elapsed))
  }

  function Run(s: State, run: seq<Action>): Option<State>
    decreases |run|
  {
    if run == [] then Some(s)
    else match Act(s, run[0])
      case None => None
      case Some(t) => Run(t, run[1..])
  }

  /* ---------- what every action keeps ---------- */

  /** The reference whose first `#` separates this path from this field. */
  predicate Splits(ref: string, path: string, field: string) {
    ref == path + "#" + field && Free(path, '#')
  }

  predicate ReadFor(s: State, i: nat, ref: string) {
    i < |s.history| && Splits(ref, s.history[i].path, s.history[i].field)
  }

  /** Store number `j` put a value read for `ref` under `ref`, no earlier than it was read. */
  predicate StoreOk(s: State, j: nat) {
    && j < |s.stores|
    && ReadFor(s, s.stores[j].read, s.stores[j].ref)
    && s.history[s.stores[j].read].at <= s.stores[j].at <= s.now
  }

  predicate LiveAt(s: State, j: nat, at: int) {
    StoreOk(s, j) && s.history[s.stores[j].read].ttl > 0 && at <= s.stores[j].at + s.history[s.stores[j].read].ttl
  }

  /** At time `at` the value came out of the cache, from store number `j`, within the TTL counted from that store. */
  predicate HitOk(s: State, ref: string, value: string, at: int, store: Option<nat>) {
    && store.Some?
    && LiveAt(s, store.value, at)
    && s.stores[store.value].ref == ref
    && s.history[s.stores[store.value].read].value == value
    && s.stores[store.value].at <= at <= s.now
  }

  predicate ResultOk(s: State, ref: string, r: CallResult) {
    match r
    case Fetched(i) => ReadFor(s, i, ref)
    case FromCache(v, at, store) => HitOk(s, ref, v, at, store)
    case Failed(_) => true
  }

  predicate CallOk(s: State, k: Id) {
    k in s.calls &&
    var call := s.calls[k];
    && Splits(call.ref, call.path, call.field)
    && (!call.phase.Delivered? ==> call.ref in s.table && s.table[call.ref] == k)
    && (call.phase.Completed? || call.phase.Delivered? ==> ResultOk(s, call.ref, call.phase.result))
  }

  /** The value a finished call hands to a waiter. */
  function Handed(s: State, r: CallResult): Result<string, Error>
    requires r.Fetched? ==> r.read < |s.history|
  {
    match r
    case Fetched(i) => Ok(s.history[i].value)
    case FromCache(v, _, _) => Ok(v)
    case Failed(e) => Err(Backend(e))
  }

  predicate CallerOk(s: State, c: Id) {
    c in s.callers &&
    var p := Parse(s.callers[c].cfg);
    match s.callers[c].phase
    case Entered => p.Ref?
    case Missed => p.Ref?
    case Waiting(k) => p.Ref? && CallOk(s, k) && s.calls[k].ref == p.ref
    case Storing(k, i) => p.Ref? && CallOk(s, k) && s.calls[k].ref == p.ref && s.calls[k].phase == Delivered(Fetched(i))
    case Returned(result, source) =>
      match source
      case Direct =>
        result == if p.Literal? then Ok(s.callers[c].cfg) else Err(if p.Invalid? then InvalidRef else NoBackend)
      case Hit(at, store) => p.Ref? && result.Ok? && HitOk(s, p.ref, result.value, at, store)
      case Shared(k) =>
        && p.Ref? && CallOk(s, k) && s.calls[k].ref == p.ref && s.calls[k].phase.Delivered?
        && result == Handed(s, s.calls[k].phase.result)
      case ByCancel => p.Ref? && result == Err(Cancelled)
  }

  /** The cached entry for `ref` is that of its last store, and it is there for as long as that store lives. */
  predicate EntryOk(s: State, ref: string) {
    var last := LastStore(s.stores, ref);
    && (ref in s.cache ==>
          && last.Some? && StoreOk(s, last.value)
          && s.history[s.stores[last.value].read].ttl > 0
          && s.cache[ref] == EntryOf(s, last.value))
    && (last.Some? && LiveAt(s, last.value, s.now) ==> ref in s.cache)
  }

  function EntryOf(s: State, j: nat): CachedSecret
    requires StoreOk(s, j)
  {
    var r := s.history[s.stores[j].read];
    CachedSecret(r.value, s.stores[j].at + r.ttl)
  }

  ghost predicate CallsOk(s: State) {
    && (forall k :: k in s.calls ==> CallOk(s, k))
    && (forall r :: r in s.table ==>
          s.table[r] in s.calls && s.calls[s.table[r]].ref == r && !s.calls[s.table[r]].phase.Delivered?)
  }

  ghost predicate CallersOk(s: State) {
    forall c :: c in s.callers ==> CallerOk(s, c)
  }

  ghost predicate StoresOk(s: State) {
    && (forall j :: 0 <= j < |s.stores| ==> StoreOk(s, j))
    && (forall i :: 0 <= i < |s.history| ==> s.history[i].at <= s.now)
  }

  ghost predicate EntriesOk(s: State) {
    forall ref :: EntryOk(s, ref)
  }

  ghost predicate Inv(s: State) {
    CallsOk(s) && CallersOk(s) && StoresOk(s) && EntriesOk(s)
  }

  lemma {:induction false} LastStoreIs(stores: seq<Store>, ref: string)
    ensures var last := LastStore(stores, ref); last.Some? ==> last.value < |stores| && stores[last.value].ref == ref
  {
    if stores != [] {
      LastStoreIs(stores[..|stores| - 1], ref);
    }
  }

  lemma LastStoreAppend(stores: seq<Store>, x: Store, ref: string)
    ensures LastStore(stores + [x], ref) == if x.ref == ref then Some(|stores|) else LastStore(stores, ref)
  {
    assert (stores + [x])[..|stores|] == stores;
  }

  lemma LookKeepsEntries(s: State, r: string)
    requires Inv(s)
    ensures EntriesOk(s.(cache := Get(s.cache, r, s.now).1))
    ensures var found := Get(s.cache, r, s.now).0;
      found.Some? ==> HitOk(s, r, found.value, s.now, LastStore(s.stores, r))
  {
    LastStoreIs(s.stores, r);
    assert EntryOk(s, r);
    var t := s.(cache := Get(s.cache, r, s.now).1);
    forall ref
      ensures EntryOk(t, ref)
    {
      assert EntryOk(s, ref);
      LastStoreIs(s.stores, ref);
    }
  }

  lemma PutKeepsStores(s: State, c: Id, k: Id, i: nat)
    requires Inv(s) && HasRef(s, c) && s.callers[c].phase == Storing(k, i) && i < |s.history|
    ensures StoresOk(DoPut(s, c, k, i)) && ReadFor(s, i, Parse(s.callers[c].cfg).ref)
  {
    var t := DoPut(s, c, k, i);
    assert CallerOk(s, c);
    assert StoreOk(t, |s.stores|);
    forall j | 0 <= j < |s.stores|
      ensures StoreOk(t, j)
    {
      assert StoreOk(s, j);
    }
  }

  lemma PutKeepsEntry(s: State, c: Id, k: Id, i: nat, ref: string)
    requires HasRef(s, c) && i < |s.history| && EntryOk(s, ref) && StoresOk(DoPut(s, c, k, i))
    ensures EntryOk(DoPut(s, c, k, i), ref)
  {
    var t := DoPut(s, c, k, i);
    LastStoreAppend(s.stores, t.stores[|s.stores|], ref);
    LastStoreIs(s.stores, ref);
    assert StoreOk(t, |s.stores|);
  }

  lemma PutKeepsEntries(s: State, c: Id, k: Id, i: nat)
    requires Inv(s) && HasRef(s, c) && s.callers[c].phase == Storing(k, i) && i < |s.history|
    ensures EntriesOk(DoPut(s, c, k, i)) && StoresOk(DoPut(s, c, k, i))
  {
    PutKeepsStores(s, c, k, i);
    forall ref
      ensures EntryOk(DoPut(s, c, k, i), ref)
    {
      PutKeepsEntry(s, c, k, i, ref);
    }
  }

  /** Further records and a later clock leave the entries in order, as long as cache and stores stay. */
  lemma EntriesOutlast(s: State, t: State)
    requires EntriesOk(s) && StoresOk(s)
    requires t.cache == s.cache && t.stores == s.stores && s.history <= t.history && s.now <= t.now
    ensures EntriesOk(t)
  {
    forall ref
      ensures EntryOk(t, ref)
    {
      EntryOutlasts(s, t, ref);
    }
  }

  lemma EntryOutlasts(s: State, t: State, ref: string)
    requires EntryOk(s, ref) && StoresOk(s)
    requires t.cache == s.cache && t.stores == s.stores && s.history <= t.history && s.now <= t.now
    ensures EntryOk(t, ref)
  {
    LastStoreIs(s.stores, ref);
    var last := LastStore(s.stores, ref);
    if last.Some? {
      assert StoreOk(s, last.value);
      assert t.history[s.stores[last.value].read] == s.history[s.stores[last.value].read];
    }
  }

  lemma EntriesDependOn(s: State, t: State)
    requires t.cache == s.cache && t.stores == s.stores && t.history == s.history && t.now == s.now
    requires EntriesOk(s)
    ensures EntriesOk(t)
  {
    forall ref
      ensures EntryOk(t, ref)
    {
      assert EntryOk(s, ref);
    }
  }

  /** Records are only added, and the clock only advances. */
  ghost predicate Extends(s: State, t: State) {
    s.history <= t.history && s.stores <= t.stores && s.now <= t.now
  }

  lemma LogsGrow(s: State, a: Action)
    requires Act(s, a).Some?
    ensures Extends(s, Act(s, a).value)
    ensures forall j :: StoreOk(s, j) ==> StoreOk(Act(s, a).value, j)
  {
  }

  lemma ResultFrame(s: State, t: State, ref: string, r: CallResult)
    requires Extends(s, t) && ResultOk(s, ref, r)
    ensures ResultOk(t, ref, r)
    ensures r.Fetched? ==> Handed(t, r) == Handed(s, r)
  {
  }

  /** All calls but `k` are as before. */
  lemma CallsFrame(s: State, t: State, k: Id)
    requires CallsOk(s) && Extends(s, t)
    requires forall l :: l in t.calls && l != k ==> l in s.calls && t.calls[l] == s.calls[l]
    requires forall l :: l in t.calls && l != k && !t.calls[l].phase.Delivered? ==>
      t.calls[l].ref in t.table && t.table[t.calls[l].ref] == l
    requires k in t.calls ==> CallOk(t, k)
    ensures forall l :: l in t.calls ==> CallOk(t, l)
  {
    forall l | l in t.calls
      ensures CallOk(t, l)
    {
      if l != k {
        assert CallOk(s, l);
        var phase := s.calls[l].phase;
        if phase.Completed? || phase.Delivered? {
          ResultFrame(s, t, s.calls[l].ref, phase.result);
        }
      }
    }
  }

  lemma ActKeepsEntries(s: State, a: Action)
    requires Inv(s) && Act(s, a).Some?
    ensures EntriesOk(Act(s, a).value)
  {
    var t := Act(s, a).value;
    match a
    case Look(c) =>
      LookKeepsEntries(s, Parse(s.callers[c].cfg).ref);
      EntriesDependOn(s.(cache := t.cache), t);
    case Recheck(k) =>
      LookKeepsEntries(s, s.calls[k].ref);
      EntriesDependOn(s.(cache := t.cache), t);
    case Answer(k, reply) => EntriesOutlast(s, t);
    case Put(c) => PutKeepsEntries(s, c, s.callers[c].phase.call, s.callers[c].phase.read);
    case Tick(_) => EntriesOutlast(s, t);
    case _ => EntriesDependOn(s, t);
  }

  lemma ActKeepsStores(s: State, a: Action)
    requires Inv(s) && Act(s, a).Some?
    ensures StoresOk(Act(s, a).value)
  {
    LogsGrow(s, a);
    if a.Put? {
      PutKeepsEntries(s, a.c, s.callers[a.c].phase.call, s.callers[a.c].phase.read);
    }
  }

  lemma JoinKeepsCalls(s: State, c: Id, k: Id)
    requires Inv(s) && HasRef(s, c) && DoJoin(s, c, k).Some?
    ensures CallsOk(DoJoin(s, c, k).value)
  {
    var p := Parse(s.callers[c].cfg);
    ParseIsExact(s.callers[c].cfg, p.ref, p.path, p.field);
    assert p.ref in s.table ==> CallOk(s, k);
    CallsFrame(s, DoJoin(s, c, k).value, k);
  }

  lemma RecheckKeepsCalls(s: State, k: Id)
    requires Inv(s) && k in s.calls && s.calls[k].phase == Rechecking
    ensures CallsOk(DoRecheck(s, k))
  {
    assert CallOk(s, k);
    LookKeepsEntries(s, s.calls[k].ref);
    CallsFrame(s, DoRecheck(s, k), k);
  }

  lemma AnswerKeepsCalls(s: State, k: Id, reply: Reply)
    requires Inv(s) && k in s.calls && s.calls[k].phase == Reading
    ensures CallsOk(DoAnswer(s, k, reply))
  {
    assert CallOk(s, k);
    CallsFrame(s, DoAnswer(s, k, reply), k);
  }

  lemma CompleteKeepsCalls(s: State, k: Id)
    requires Inv(s) && k in s.calls && s.calls[k].phase.Completed?
    ensures CallsOk(DoComplete(s, k))
  {
    assert CallOk(s, k);
    CallsFrame(s, DoComplete(s, k), k);
  }

  lemma SameCallsKeep(s: State, t: State)
    requires CallsOk(s) && Extends(s, t) && t.calls == s.calls && t.table == s.table
    ensures CallsOk(t)
  {
    if k :| k in s.calls {
      assert CallOk(s, k);
      if s.calls[k].phase.Completed? || s.calls[k].phase.Delivered? {
        ResultFrame(s, t, s.calls[k].ref, s.calls[k].phase.result);
      }
      CallsFrame(s, t, k);
    }
  }

  lemma ActKeepsCalls(s: State, a: Action)
    requires Inv(s) && Act(s, a).Some?
    ensures CallsOk(Act(s, a).value)
  {
    match a
    case Join(c, k) => JoinKeepsCalls(s, c, k);
    case Recheck(k) => RecheckKeepsCalls(s, k);
    case Answer(k, reply) => AnswerKeepsCalls(s, k, reply);
    case Complete(k) => CompleteKeepsCalls(s, k);
    case _ => SameCallsKeep(s, Act(s, a).value);
  }

  /** Calls keep their reference, and what one has handed out stays. */
  ghost predicate CallsAdvance(s: State, t: State) {
    forall k :: k in s.calls ==>
      k in t.calls && t.calls[k].ref == s.calls[k].ref && (s.calls[k].phase.Delivered? ==> t.calls[k] == s.calls[k])
  }

  lemma ActAdvancesCalls(s: State, a: Action)
    requires Act(s, a).Some?
    ensures CallsAdvance(s, Act(s, a).value)
  {
  }

  lemma CallerFrame(s: State, t: State, c: Id)
    requires CallerOk(s, c) && c in t.callers && t.callers[c] == s.callers[c]
    requires CallsOk(t) && Extends(s, t) && CallsAdvance(s, t)
    ensures CallerOk(t, c)
  {
    var phase := s.callers[c].phase;
    if phase.Returned? && phase.source.Shared? {
      var r := s.calls[phase.source.call].phase.result;
      ResultFrame(s, t, Parse(s.callers[c].cfg).ref, r);
    }
  }

  lemma LookMovesCaller(s: State, c: Id)
    requires Inv(s) && HasRef(s, c) && s.callers[c].phase == Entered
    ensures CallerOk(DoLook(s, c), c)
  {
    LookKeepsEntries(s, Parse(s.callers[c].cfg).ref);
  }

  lemma CollectMovesCaller(s: State, c: Id, k: Id)
    requires Inv(s) && c in s.callers && s.callers[c].phase == Waiting(k) && k in s.calls && s.calls[k].phase.Delivered?
    requires CallsOk(DoCollect(s, c, k, s.calls[k].phase.result))
    ensures CallerOk(DoCollect(s, c, k, s.calls[k].phase.result), c)
  {
    assert CallerOk(s, c);
  }

  lemma PutMovesCaller(s: State, c: Id, k: Id, i: nat)
    requires Inv(s) && HasRef(s, c) && s.callers[c].phase == Storing(k, i) && i < |s.history|
    requires CallsOk(DoPut(s, c, k, i))
    ensures CallerOk(DoPut(s, c, k, i), c)
  {
    assert CallerOk(s, c);
  }

  lemma JoinMovesCaller(s: State, c: Id, k: Id)
    requires Inv(s) && HasRef(s, c) && DoJoin(s, c, k).Some? && CallsOk(DoJoin(s, c, k).value)
    ensures CallerOk(DoJoin(s, c, k).value, c)
  {
  }

  /** Whose caller record an action changes. */
  predicate Touches(a: Action, c: Id) {
    match a
    case Enter(d, _) => c == d
    case Look(d) => c == d
    case Join(d, _) => c == d
    case Collect(d) => c == d
    case Put(d) => c == d
    case Cancel(d) => c == d
    case _ => false
  }

  lemma ActMovesCaller(s: State, a: Action, c: Id)
    requires Inv(s) && Act(s, a).Some? && Touches(a, c) && CallsOk(Act(s, a).value)
    ensures CallerOk(Act(s, a).value, c)
  {
    match a
    case Look(_) => LookMovesCaller(s, c);
    case Join(_, k) => JoinMovesCaller(s, c, k);
    case Collect(_) => CollectMovesCaller(s, c, s.callers[c].phase.call);
    case Put(_) => PutMovesCaller(s, c, s.callers[c].phase.call, s.callers[c].phase.read);
    case Cancel(_) => assert CallerOk(s, c);
    case _ =>
  }

  lemma ActLeavesCallers(s: State, a: Action)
    requires Act(s, a).Some?
    ensures forall c :: c in Act(s, a).value.callers && !Touches(a, c) ==>
      c in s.callers && Act(s, a).value.callers[c] == s.callers[c]
  {
  }

  lemma ActKeepsCallers(s: State, a: Action)
    requires Inv(s) && Act(s, a).Some? && CallsOk(Act(s, a).value)
    ensures CallersOk(Act(s, a).value)
  {
    var t := Act(s, a).value;
    LogsGrow(s, a);
    ActAdvancesCalls(s, a);
    ActLeavesCallers(s, a);
    forall c | c in t.callers
      ensures CallerOk(t, c)
    {
      if Touches(a, c) {
        ActMovesCaller(s, a, c);
      } else {
        CallerFrame(s, t, c);
      }
    }
  }

  lemma ActKeeps(s: State, a: Action)
    requires Inv(s) && Act(s, a).Some?
    ensures Inv(Act(s, a).value)
  {
    ActKeepsEntries(s, a);
    ActKeepsStores(s, a);
    ActKeepsCalls(s, a);
    ActKeepsCallers(s, a);
  }

  lemma {:induction false} RunKeeps(s: State, run: seq<Action>)
    requires Inv(s) && Run(s, run).Some?
    ensures Inv(Run(s, run).value)
    decreases |run|
  {
    if run != [] {
      ActKeeps(s, run[0]);
      RunKeeps(Act(s, run[0]).value, run[1..]);
    }
  }

  ghost predicate Reachable(s: State) {
    exists hasBackend, now, run :: Run(Initial(hasBackend, now), run) == Some(s)
  }

  lemma ReachableKeeps(s: State)
    requires Reachable(s)
    ensures Inv(s)
  {
    var hasBackend, now, run :| Run(Initial(hasBackend, now), run) == Some(s);
    RunKeeps(Initial(hasBackend, now), run);
  }

  /* ---------- what callers and operators can rely on ---------- */

  /** At most one shared call per reference is unfinished, so at most one backend read per reference is in flight. */
  lemma OneReadInFlight(s: State, k: Id, l: Id)
    requires Reachable(s)
    requires k in s.calls && l in s.calls && s.calls[k].ref == s.calls[l].ref
    requires !s.calls[k].phase.Delivered? && !s.calls[l].phase.Delivered?
    ensures k == l
  {
    ReachableKeeps(s);
    assert CallOk(s, k) && CallOk(s, l);
  }

  /** The backend returned this value for this path and field. */
  ghost predicate WasRead(s: State, path: string, field: string, value: string) {
    exists i :: 0 <= i < |s.history| &&
      s.history[i].path == path && s.history[i].field == field && s.history[i].value == value
  }

  lemma ReadForMeans(s: State, i: nat, cfg: string)
    requires Parse(cfg).Ref? && ReadFor(s, i, Parse(cfg).ref)
    ensures WasRead(s, Parse(cfg).path, Parse(cfg).field, s.history[i].value)
  {
    var p := Parse(cfg);
    ParseIsExact(cfg, p.ref, p.path, p.field);
    FirstOccurrence(p.path, p.field, s.history[i].path, s.history[i].field, '#');
  }

  /** Every value a caller gets for a reference, and every value held for one, was returned by the backend for that
      very path and field. */
  lemma ValuesComeFromTheBackend(s: State)
    requires Reachable(s)
    ensures forall c :: HasRef(s, c) && s.callers[c].phase.Returned? && s.callers[c].phase.result.Ok? ==>
      WasRead(s, Parse(s.callers[c].cfg).path, Parse(s.callers[c].cfg).field, s.callers[c].phase.result.value)
    ensures forall cfg :: Parse(cfg).Ref? && Parse(cfg).ref in s.cache ==>
      WasRead(s, Parse(cfg).path, Parse(cfg).field, s.cache[Parse(cfg).ref].value)
  {
    ReachableKeeps(s);
    forall c | HasRef(s, c) && s.callers[c].phase.Returned? && s.callers[c].phase.result.Ok?
      ensures WasRead(s, Parse(s.callers[c].cfg).path, Parse(s.callers[c].cfg).field, s.callers[c].phase.result.value)
    {
      assert CallerOk(s, c);
      var source, cfg := s.callers[c].phase.source, s.callers[c].cfg;
      if source.Hit? {
        ReadForMeans(s, s.stores[source.store.value].read, cfg);
      } else {
        var r := s.calls[source.call].phase.result;
        ReadForMeans(s, if r.Fetched? then r.read else s.stores[r.store.value].read, cfg);
      }
    }
    forall cfg | Parse(cfg).Ref? && Parse(cfg).ref in s.cache
      ensures WasRead(s, Parse(cfg).path, Parse(cfg).field, s.cache[Parse(cfg).ref].value)
    {
      var ref := Parse(cfg).ref;
      assert EntryOk(s, ref);
      LastStoreIs(s.stores, ref);
      ReadForMeans(s, s.stores[LastStore(s.stores, ref).value].read, cfg);
    }
  }

  /** The latest store under `ref` had a positive TTL that has not run out, counted from the store. */
  predicate Live(s: State, ref: string) {
    var last := LastStore(s.stores, ref);
    last.Some? && LiveAt(s, last.value, s.now)
  }

  /** The reply whose value the latest store under the reference put there. */
  function LatestReply(s: State, ref: string): Read
    requires Live(s, ref)
  {
    s.history[s.stores[LastStore(s.stores, ref).value].read]
  }

  /** A lookup finds a value exactly while the latest store lives, and it finds that store's value. */
  lemma HitIffLive(s: State, ref: string)
    requires Reachable(s)
    ensures Get(s.cache, ref, s.now).0.Some? <==> Live(s, ref)
    ensures Live(s, ref) ==> Get(s.cache, ref, s.now).0 == Some(LatestReply(s, ref).value)
  {
    ReachableKeeps(s);
    assert EntryOk(s, ref);
  }

  /** A shared call goes to the backend exactly when the latest store under its reference is not alive. */
  lemma ReadStartsIffNotLive(s: State, k: Id)
    requires Reachable(s) && k in s.calls && s.calls[k].phase == Rechecking
    ensures DoRecheck(s, k).calls[k].phase == Reading <==> !Live(s, s.calls[k].ref)
  {
    HitIffLive(s, s.calls[k].ref);
  }

  /** Every value served from the cache, to a caller or inside a shared call, was stored for its reference no more than
      its positive TTL before. The bound runs from the store, which itself came no earlier than the backend's reply. */
  lemma HitsAreFresh(s: State)
    requires Reachable(s)
    ensures forall c :: c in s.callers && s.callers[c].phase.Returned? && s.callers[c].phase.source.Hit? ==>
      var at, j := s.callers[c].phase.source.at, s.callers[c].phase.source.store;
      && s.callers[c].phase.result.Ok? && Parse(s.callers[c].cfg).Ref?
      && HitOk(s, Parse(s.callers[c].cfg).ref, s.callers[c].phase.result.value, at, j)
    ensures forall k :: k in s.calls && s.calls[k].phase.Delivered? && s.calls[k].phase.result.FromCache? ==>
      var r := s.calls[k].phase.result; HitOk(s, s.calls[k].ref, r.value, r.at, r.store)
  {
    ReachableKeeps(s);
    assert forall c :: c in s.callers ==> CallerOk(s, c);
    assert forall k :: k in s.calls ==> CallOk(s, k);
  }

  ghost predicate NoNewEntries(s: State, t: State) {
    forall ref :: ref in t.cache ==> ref in s.cache && t.cache[ref] == s.cache[ref]
  }

  lemma ActAddsNoEntry(s: State, a: Action)
    requires Act(s, a).Some? && !a.Put?
    ensures NoNewEntries(s, Act(s, a).value)
  {
  }

  /** Only a waiter's store can add an entry or move an expiry: no lookup, re-check or tick does. */
  lemma {:induction false} OnlyStoresMoveExpiries(s: State, run: seq<Action>)
    requires Run(s, run).Some?
    requires forall i :: 0 <= i < |run| ==> !run[i].Put?
    ensures NoNewEntries(s, Run(s, run).value)
    decreases |run|
  {
    if run != [] {
      ActAddsNoEntry(s, run[0]);
      OnlyStoresMoveExpiries(Act(s, run[0]).value, run[1..]);
    }
  }

  /** With caching switched off by every reply, nothing is ever held. */
  lemma NothingHeldWithoutTtl(s: State)
    requires Reachable(s)
    requires forall i :: 0 <= i < |s.history| ==> s.history[i].ttl <= 0
    ensures s.cache == map[]
  {
    ReachableKeeps(s);
    forall ref
      ensures ref !in s.cache
    {
      assert EntryOk(s, ref);
    }
  }

  /** Everyone who waited for the same shared call to the end got the same result. */
  lemma WaitersAgree(s: State, c: Id, d: Id, k: Id)
    requires Reachable(s) && c in s.callers && d in s.callers
    requires s.callers[c].phase.Returned? && s.callers[c].phase.source == Shared(k)
    requires s.callers[d].phase.Returned? && s.callers[d].phase.source == Shared(k)
    ensures s.callers[c].phase.result == s.callers[d].phase.result
    ensures Parse(s.callers[c].cfg) == Parse(s.callers[d].cfg)
  {
    ReachableKeeps(s);
    assert CallerOk(s, c) && CallerOk(s, d);
    var p, q := Parse(s.callers[c].cfg), Parse(s.callers[d].cfg);
    ParseIsExact(s.callers[c].cfg, p.ref, p.path, p.field);
    ParseIsExact(s.callers[d].cfg, q.ref, q.path, q.field);
  }

  /** The two states differ at most in the phase of caller `c`. */
  ghost predicate SameBut(s: State, t: State, c: Id) {
    && t == s.(callers := t.callers)
    && t.callers.Keys == s.callers.Keys
    && (forall d :: d in s.callers && d != c ==> t.callers[d] == s.callers[d])
  }

  /** Actions on shared calls, and the clock, do not look at callers. */
  lemma CallActIgnores(s: State, t: State, a: Action, c: Id)
    requires c in s.callers && SameBut(s, t, c)
    requires a.Recheck? || a.Answer? || a.Complete? || a.Tick?
    ensures Act(s, a).Some? <==> Act(t, a).Some?
    ensures Act(s, a).Some? ==> SameBut(Act(s, a).value, Act(t, a).value, c) && c in Act(s, a).value.callers
  {
  }

  /** Actions of one caller look at no other. */
  lemma CallerActIgnores(s: State, t: State, a: Action, c: Id)
    requires c in s.callers && SameBut(s, t, c) && !Touches(a, c)
    requires a.Enter? || a.Look?
    ensures Act(s, a).Some? <==> Act(t, a).Some?
    ensures Act(s, a).Some? ==> SameBut(Act(s, a).value, Act(t, a).value, c) && c in Act(s, a).value.callers
  {
  }

  lemma JoinIgnores(s: State, t: State, a: Action, c: Id)
    requires c in s.callers && SameBut(s, t, c) && !Touches(a, c)
    requires a.Join?
    ensures Act(s, a).Some? <==> Act(t, a).Some?
    ensures Act(s, a).Some? ==> SameBut(Act(s, a).value, Act(t, a).value, c) && c in Act(s, a).value.callers
  {
  }

  lemma WaiterActIgnores(s: State, t: State, a: Action, c: Id)
    requires c in s.callers && SameBut(s, t, c) && !Touches(a, c)
    requires a.Collect? || a.Put? || a.Cancel?
    ensures Act(s, a).Some? <==> Act(t, a).Some?
    ensures Act(s, a).Some? ==> SameBut(Act(s, a).value, Act(t, a).value, c) && c in Act(s, a).value.callers
  {
  }

  /** Actions of others neither see nor change a caller's record. */
  lemma ActIgnores(s: State, t: State, a: Action, c: Id)
    requires c in s.callers && SameBut(s, t, c) && !Touches(a, c)
    ensures Act(s, a).Some? <==> Act(t, a).Some?
    ensures Act(s, a).Some? ==> SameBut(Act(s, a).value, Act(t, a).value, c) && c in Act(s, a).value.callers
  {
    if a.Recheck? || a.Answer? || a.Complete? || a.Tick? {
      CallActIgnores(s, t, a, c);
    } else if a.Enter? || a.Look? {
      CallerActIgnores(s, t, a, c);
    } else if a.Join? {
      JoinIgnores(s, t, a, c);
    } else {
      WaiterActIgnores(s, t, a, c);
    }
  }

  /** A caller can give up exactly while it waits, whatever its shared call is doing, and nothing but its own phase
      changes. */
  lemma CancelPossibleIff(s: State, c: Id)
    ensures Act(s, Cancel(c)).Some? <==> c in s.callers && s.callers[c].phase.Waiting?
    ensures c in s.callers && s.callers[c].phase.Waiting? ==>
      Act(s, Cancel(c)).value ==
        s.(callers := s.callers[c := Caller(s.callers[c].cfg, Returned(Err(Cancelled), ByCancel))])
  {
  }

  /** A new caller can come at any time, and the clock can advance by any time. */
  lemma EnterAndTickPossibleIff(s: State, c: Id, cfg: string, elapsed: nat)
    ensures Act(s, Enter(c, cfg)).Some? <==> c !in s.callers
    ensures Act(s, Tick(elapsed)) == Some(s.(now := s.now + elapsed))
  {
  }

  /** Cancelling a waiting caller changes nothing for anybody else: whatever the others, the backend and the clock do
      next, they can still do, and the cache, the calls and every other caller end up as if it had gone on waiting. */
  lemma CancelIsInvisible(s: State, c: Id, run: seq<Action>)
    requires c in s.callers && s.callers[c].phase.Waiting?
    requires forall i :: 0 <= i < |run| ==> !Touches(run[i], c)
    ensures Act(s, Cancel(c)).Some?
    ensures Run(s, run).Some? <==> Run(Act(s, Cancel(c)).value, run).Some?
    ensures Run(s, run).Some? ==> SameBut(Run(s, run).value, Run(Act(s, Cancel(c)).value, run).value, c)
  {
    CancelPossibleIff(s, c);
    IgnoredThroughout(s, Act(s, Cancel(c)).value, c, run);
  }

  lemma {:induction false} IgnoredThroughout(s: State, t: State, c: Id, run: seq<Action>)
    requires c in s.callers && SameBut(s, t, c)
    requires forall i :: 0 <= i < |run| ==> !Touches(run[i], c)
    ensures Run(s, run).Some? <==> Run(t, run).Some?
    ensures Run(s, run).Some? ==> SameBut(Run(s, run).value, Run(t, run).value, c)
    decreases |run|
  {
    if run != [] {
      ActIgnores(s, t, run[0], c);
      if Act(s, run[0]).Some? {
        IgnoredThroughout(Act(s, run[0]).value, Act(t, run[0]).value, c, run[1..]);
      }
    }
  }

  /* ---------- what they cannot rely on ---------- */

  lemma {:induction false} RunThen(s: State, run: seq<Action>, a: Action)
    requires Run(s, run).Some?
    ensures Run(s, run + [a]) == Act(Run(s, run).value, a)
    decreases |run|
  {
    if run != [] {
      assert (run + [a])[1..] == run[1..] + [a];
      RunThen(Act(s, run[0]).value, run[1..], a);
    } else {
      assert run + [a] == [a];
    }
  }

  lemma Then(s: State, a: Action) returns (t: State)
    requires Reachable(s) && Act(s, a).Some?
    ensures t == Act(s, a).value && Reachable(t)
  {
    t := Act(s, a).value;
    var hasBackend, now, run :| Run(Initial(hasBackend, now), run) == Some(s);
    RunThen(Initial(hasBackend, now), run, a);
    assert Run(Initial(hasBackend, now), run + [a]) == Some(t);
  }

  lemma EnterWithRef(s: State, c: Id, cfg: string) returns (t: State)
    requires Reachable(s) && c !in s.callers && Parse(cfg).Ref?
    ensures Reachable(t) && t == s.(callers := s.callers[c := Caller(cfg, Entered)])
  {
    t := Then(s, Enter(c, cfg));
  }

  /** A new caller looks the reference up and finds nothing. */
  lemma LookAndMiss(s: State, c: Id, cfg: string) returns (t: State)
    requires Reachable(s) && s.hasBackend && c !in s.callers
    requires Parse(cfg).Ref? && Get(s.cache, Parse(cfg).ref, s.now).0.None?
    ensures Reachable(t) && t == s.(callers := s.callers[c := Caller(cfg, Missed)], cache := s.cache - {Parse(cfg).ref})
  {
    t := EnterWithRef(s, c, cfg);
    t := Then(t, Look(c));
    assert t.callers == s.callers[c := Caller(cfg, Missed)];
    assert t.cache == s.cache - {Parse(cfg).ref};
  }

  /** With no call in flight, it starts one, which goes to the backend. */
  lemma JoinAndRead(s: State, c: Id, k: Id) returns (t: State)
    requires Reachable(s) && HasRef(s, c) && s.callers[c].phase == Missed && k !in s.calls
    requires Parse(s.callers[c].cfg).ref !in s.cache && Parse(s.callers[c].cfg).ref !in s.table
    ensures Reachable(t) && t == s.(calls := t.calls, callers := t.callers, table := t.table)
    ensures var p := Parse(s.callers[c].cfg);
      t.calls == s.calls[k := Call(p.ref, p.path, p.field, Reading)] && t.table == s.table[p.ref := k]
    ensures t.callers == s.callers[c := s.callers[c].(phase := Waiting(k))]
  {
    t := Then(s, Join(c, k));
    t := Then(t, Recheck(k));
  }

  /** The backend answers, and the caller is about to store. */
  lemma FinishRead(s: State, c: Id, k: Id, v: string, ttl: int) returns (t: State)
    requires Reachable(s) && k in s.calls && s.calls[k].phase == Reading
    requires c in s.callers && s.callers[c].phase == Waiting(k)
    ensures Reachable(t) && t == s.(calls := t.calls, callers := t.callers, table := t.table, history := t.history)
    ensures t.history == s.history + [Read(s.calls[k].path, s.calls[k].field, v, ttl, s.now)]
    ensures t.table == s.table - {s.calls[k].ref} && t.calls.Keys == s.calls.Keys
    ensures t.callers == s.callers[c := s.callers[c].(phase := Storing(k, |s.history|))]
  {
    t := Then(s, Answer(k, Secret(v, ttl)));
    t := Then(t, Complete(k));
    t := Then(t, Collect(c));
  }

  /** A first caller that has its value in hand but has not stored it yet. */
  lemma AboutToStore(cfg: string, v: string, ttl: int) returns (s: State)
    requires Parse(cfg).Ref?
    ensures Reachable(s) && s.hasBackend && s.now == 0 && s.cache == map[] && s.table == map[] && s.stores == []
    ensures s.history == [Read(Parse(cfg).path, Parse(cfg).field, v, ttl, 0)]
    ensures s.callers == map[0 := Caller(cfg, Storing(0, 0))] && s.calls.Keys == {0}
  {
    s := Initial(true, 0);
    assert Run(s, []) == Some(s);
    s := LookAndMiss(s, 0, cfg);
    s := JoinAndRead(s, 0, 0);
    s := FinishRead(s, 0, 0, v, ttl);
  }

  lemma PutBoth(s: State, c: Id, d: Id) returns (t: State)
    requires Reachable(s) && c != d && HasRef(s, c) && HasRef(s, d)
    requires s.callers[c].phase.Storing? && s.callers[c].phase.read < |s.history|
    requires s.callers[d].phase.Storing? && s.callers[d].phase.read < |s.history|
    ensures Reachable(t) && t.history == s.history && t.now == s.now
    ensures var r, ref := s.history[s.callers[d].phase.read], Parse(s.callers[d].cfg).ref;
      r.ttl > 0 ==> ref in t.cache && t.cache[ref] == CachedSecret(r.value, s.now + r.ttl)
  {
    t := Then(s, Put(c));
    t := Then(t, Put(d));
  }

  /** Coalescing does not bound the reads per TTL window: a second caller can slip in between completion and store, and
      the slower waiter then puts the older value back. This holds for every reference and every positive TTL. */
  lemma TwoReadsInOneWindow(cfg: string, older: string, newer: string, ttl: int) returns (s: State)
    requires Parse(cfg).Ref? && ttl > 0
    ensures Reachable(s) && |s.history| == 2
    ensures s.history[0] == Read(Parse(cfg).path, Parse(cfg).field, older, ttl, 0)
    ensures s.history[1] == Read(Parse(cfg).path, Parse(cfg).field, newer, ttl, 0)
    ensures Get(s.cache, Parse(cfg).ref, s.now).0 == Some(older)
  {
    s := AboutToStore(cfg, older, ttl);
    s := LookAndMiss(s, 1, cfg);
    s := JoinAndRead(s, 1, 1);
    s := FinishRead(s, 1, 1, newer, ttl);
    s := PutBoth(s, 1, 0);
  }

  /** Counted from the backend's reply, a hit can be older than the TTL by any delay of the waiter that stored it. */
  lemma HitOlderThanItsTtl(cfg: string, v: string, ttl: int, delay: nat) returns (s: State)
    requires Parse(cfg).Ref? && ttl > 0
    ensures Reachable(s) && |s.history| == 1
    ensures s.now == s.history[0].at + s.history[0].ttl + delay
    ensures Get(s.cache, Parse(cfg).ref, s.now).0 == Some(s.history[0].value)
  {
    s := AboutToStore(cfg, v, ttl);
    s := Then(s, Tick(delay));
    s := Then(s, Put(0));
    s := Then(s, Tick(ttl));
  }

  /** Left to itself, the cache serves the value at some time past its TTL, counted from the backend's reply. */
  ghost predicate OutlivesReply(s: State, ref: string)
    requires Live(s, ref)
  {
    var r := LatestReply(s, ref);
    exists at :: s.now <= at && Get(s.cache, ref, at).0 == Some(r.value) && at > r.at + r.ttl
  }

  /** That happens exactly when the value was stored later than the reply came. */
  lemma HitOutlivesReplyIff(s: State, ref: string)
    requires Reachable(s) && Live(s, ref)
    ensures OutlivesReply(s, ref) <==> s.stores[LastStore(s.stores, ref).value].at > LatestReply(s, ref).at
  {
    ReachableKeeps(s);
    assert EntryOk(s, ref);
    var j := LastStore(s.stores, ref).value;
    var last := s.stores[j].at + LatestReply(s, ref).ttl;
    assert s.cache[ref].expiresAt == last && s.now <= last;
    assert Get(s.cache, ref, last).0 == Some(LatestReply(s, ref).value);
  }

  /* ---------- when a store goes back to an older read ---------- */

  /** Successive stores under the reference never go back to an earlier read. */
  ghost predicate InOrder(stores: seq<Store>, ref: string) {
    forall i, j :: 0 <= i < j < |stores| && stores[i].ref == ref && stores[j].ref == ref ==>
      stores[i].read <= stores[j].read
  }

  ghost predicate StoredUpTo(stores: seq<Store>, ref: string, read: nat) {
    forall j :: 0 <= j < |stores| && stores[j].ref == ref ==> stores[j].read <= read
  }

  /** The read that a caller holds, or is about to be handed by a finished call, and has not stored yet. */
  function Unstored(s: State, c: Id): Option<nat>
    requires c in s.callers
  {
    match s.callers[c].phase
    case Storing(_, i) => Some(i)
    case Waiting(k) =>
      if k in s.calls && s.calls[k].phase.Delivered? && s.calls[k].phase.result.Fetched?
      then Some(s.calls[k].phase.result.read) else None
    case _ => None
  }

  predicate Owes(s: State, c: Id, ref: string, i: nat) {
    HasRef(s, c) && Parse(s.callers[c].cfg).ref == ref && Unstored(s, c) == Some(i)
  }

  ghost predicate NobodyOwes(s: State, ref: string) {
    forall c, i :: !Owes(s, c, ref, i)
  }

  /** The action starts a shared call for the reference. */
  predicate Starts(s: State, a: Action, ref: string) {
    a.Join? && HasRef(s, a.c) && Parse(s.callers[a.c].cfg).ref == ref && ref !in s.table
  }

  /** Whenever the run starts a shared call for the reference, nobody has an earlier read of it still to store. */
  ghost predicate StartsWhenSettled(s: State, run: seq<Action>, ref: string)
    decreases |run|
  {
    run != [] && Act(s, run[0]).Some? ==>
      && (Starts(s, run[0], ref) ==> NobodyOwes(s, ref))
      && StartsWhenSettled(Act(s, run[0]).value, run[1..], ref)
  }

  ghost predicate StartsNone(s: State, run: seq<Action>, ref: string)
    decreases |run|
  {
    run != [] && Act(s, run[0]).Some? ==>
      !Starts(s, run[0], ref) && StartsNone(Act(s, run[0]).value, run[1..], ref)
  }

  ghost predicate AnsweredInOrder(s: State, ref: string) {
    forall k :: k in s.calls && s.calls[k].ref == ref && s.calls[k].phase.Completed? ==>
      (s.calls[k].phase.result.Fetched? ==> StoredUpTo(s.stores, ref, s.calls[k].phase.result.read))
  }

  /** Whoever still has to store holds the same read, no store is later than it, and no call is in flight. */
  ghost predicate Tidy(s: State, ref: string) {
    && InOrder(s.stores, ref)
    && AnsweredInOrder(s, ref)
    && (ref in s.table ==> NobodyOwes(s, ref))
    && (forall c, i :: Owes(s, c, ref, i) ==> StoredUpTo(s.stores, ref, i))
    && (forall c, d, i, j :: Owes(s, c, ref, i) && Owes(s, d, ref, j) ==> i == j)
  }

  ghost predicate OwesNoMore(s: State, t: State, ref: string) {
    forall c, i :: Owes(t, c, ref, i) ==> Owes(s, c, ref, i)
  }

  lemma TidyFrame(s: State, t: State, ref: string)
    requires Tidy(s, ref) && t.stores == s.stores && OwesNoMore(s, t, ref) && AnsweredInOrder(t, ref)
    requires ref in t.table ==> NobodyOwes(t, ref)
    ensures Tidy(t, ref)
  {
  }

  /** Actions that neither start a call, nor finish one, nor store. */
  predicate Quiet(a: Action) {
    a.Enter? || a.Look? || a.Recheck? || a.Cancel? || a.Tick? || a.Collect?
  }

  lemma QuietOwesNoMore(s: State, a: Action, ref: string)
    requires Act(s, a).Some? && Quiet(a)
    ensures OwesNoMore(s, Act(s, a).value, ref)
  {
  }

  lemma QuietAnswersNone(s: State, a: Action, ref: string)
    requires Act(s, a).Some? && Quiet(a) && AnsweredInOrder(s, ref)
    ensures AnsweredInOrder(Act(s, a).value, ref)
    ensures Act(s, a).value.stores == s.stores && Act(s, a).value.table == s.table
  {
  }

  lemma QuietStaysTidy(s: State, a: Action, ref: string)
    requires Tidy(s, ref) && Act(s, a).Some? && Quiet(a)
    ensures Tidy(Act(s, a).value, ref)
  {
    QuietOwesNoMore(s, a, ref);
    QuietAnswersNone(s, a, ref);
    TidyFrame(s, Act(s, a).value, ref);
  }

  lemma JoinOwesNothing(s: State, c: Id, k: Id, ref: string)
    requires Inv(s) && HasRef(s, c) && s.callers[c].phase == Missed && DoJoin(s, c, k).Some?
    ensures OwesNoMore(s, DoJoin(s, c, k).value, ref)
  {
    var t := DoJoin(s, c, k).value;
    forall d, i | Owes(t, d, ref, i)
      ensures Owes(s, d, ref, i)
    {
      if d != c {
        assert CallerOk(s, d) && t.callers[d] == s.callers[d];
      }
    }
  }

  lemma JoinStaysTidy(s: State, c: Id, k: Id, ref: string)
    requires Inv(s) && HasRef(s, c) && s.callers[c].phase == Missed && DoJoin(s, c, k).Some?
    requires Tidy(s, ref) && (Starts(s, Join(c, k), ref) ==> NobodyOwes(s, ref))
    ensures Tidy(DoJoin(s, c, k).value, ref)
  {
    JoinOwesNothing(s, c, k, ref);
    TidyFrame(s, DoJoin(s, c, k).value, ref);
  }

  lemma AnswerStaysTidy(s: State, k: Id, reply: Reply, ref: string)
    requires Inv(s) && Tidy(s, ref) && Act(s, Answer(k, reply)).Some?
    ensures Tidy(Act(s, Answer(k, reply)).value, ref)
  {
    forall j | 0 <= j < |s.stores|
      ensures s.stores[j].read < |s.history|
    {
      assert StoreOk(s, j);
    }
    TidyFrame(s, Act(s, Answer(k, reply)).value, ref);
  }

  /** Who owes a read after a call is delivered owed it before, or waited for that call. */
  lemma CompleteHandsOut(s: State, k: Id, ref: string, c: Id, i: nat)
    requires Inv(s) && k in s.calls && s.calls[k].phase.Completed? && Owes(DoComplete(s, k), c, ref, i)
    ensures Owes(s, c, ref, i) || (s.calls[k].ref == ref && s.calls[k].phase.result == Fetched(i))
  {
    assert CallerOk(s, c);
  }

  lemma CompleteStaysTidy(s: State, k: Id, ref: string)
    requires Inv(s) && Tidy(s, ref) && Act(s, Complete(k)).Some?
    ensures Tidy(Act(s, Complete(k)).value, ref)
  {
    var t := DoComplete(s, k);
    assert CallOk(s, k);
    forall c, i | Owes(t, c, ref, i)
      ensures Owes(s, c, ref, i) || (s.calls[k].ref == ref && s.calls[k].phase.result == Fetched(i))
    {
      CompleteHandsOut(s, k, ref, c, i);
    }
    if s.calls[k].ref != ref {
      TidyFrame(s, t, ref);
    }
  }

  lemma PutOwesNoMore(s: State, c: Id, k: Id, i: nat, ref: string)
    requires HasRef(s, c) && i < |s.history|
    ensures OwesNoMore(s, DoPut(s, c, k, i), ref)
  {
  }

  lemma InOrderSnoc(stores: seq<Store>, x: Store, ref: string)
    requires InOrder(stores, ref) && (x.ref == ref ==> StoredUpTo(stores, ref, x.read))
    ensures InOrder(stores + [x], ref)
    ensures x.ref != ref ==> forall i :: StoredUpTo(stores, ref, i) ==> StoredUpTo(stores + [x], ref, i)
    ensures x.ref == ref ==> StoredUpTo(stores + [x], ref, x.read)
  {
  }

  lemma NoneInFlight(s: State, ref: string)
    requires Inv(s) && ref !in s.table
    ensures forall k :: k in s.calls && s.calls[k].ref == ref ==> !s.calls[k].phase.Completed?
  {
    assert forall k :: k in s.calls ==> CallOk(s, k);
  }

  lemma PutStaysTidy(s: State, c: Id, k: Id, i: nat, ref: string)
    requires Inv(s) && Tidy(s, ref) && HasRef(s, c) && s.callers[c].phase == Storing(k, i) && i < |s.history|
    ensures Tidy(DoPut(s, c, k, i), ref)
  {
    var x := Store(Parse(s.callers[c].cfg).ref, i, s.now);
    PutOwesNoMore(s, c, k, i, ref);
    if x.ref == ref {
      assert Owes(s, c, ref, i);
      NoneInFlight(s, ref);
    }
    InOrderSnoc(s.stores, x, ref);
  }

  lemma ActStaysTidy(s: State, a: Action, ref: string)
    requires Inv(s) && Tidy(s, ref) && Act(s, a).Some?
    requires Starts(s, a, ref) ==> NobodyOwes(s, ref)
    ensures Tidy(Act(s, a).value, ref)
  {
    match a
    case Join(c, k) => JoinStaysTidy(s, c, k, ref);
    case Answer(k, reply) => AnswerStaysTidy(s, k, reply, ref);
    case Complete(k) => CompleteStaysTidy(s, k, ref);
    case Put(c) => PutStaysTidy(s, c, s.callers[c].phase.call, s.callers[c].phase.read, ref);
    case _ => QuietStaysTidy(s, a, ref);
  }

  lemma {:induction false} RunStaysTidy(s: State, run: seq<Action>, ref: string)
    requires Inv(s) && Tidy(s, ref) && Run(s, run).Some? && StartsWhenSettled(s, run, ref)
    ensures Tidy(Run(s, run).value, ref)
    decreases |run|
  {
    if run != [] {
      ActKeeps(s, run[0]);
      ActStaysTidy(s, run[0], ref);
      RunStaysTidy(Act(s, run[0]).value, run[1..], ref);
    }
  }

  /** Over whole runs: if no call for a reference is started while somebody still has an earlier read of it to store,
      no store under the reference ever puts an older read over a newer one. */
  lemma StoresStayInOrder(hasBackend: bool, now: int, run: seq<Action>, ref: string)
    requires Run(Initial(hasBackend, now), run).Some? && StartsWhenSettled(Initial(hasBackend, now), run, ref)
    ensures InOrder(Run(Initial(hasBackend, now), run).value.stores, ref)
  {
    RunStaysTidy(Initial(hasBackend, now), run, ref);
  }

  /** Whatever happens from here on without starting a further call for the reference, its stores stay in order. */
  ghost predicate StaysInOrder(s: State, ref: string) {
    forall run :: Run(s, run).Some? && StartsNone(s, run, ref) ==> InOrder(Run(s, run).value.stores, ref)
  }

  /** The caller has missed, no call for its reference is in flight, and it may start call `k`. */
  predicate CanStart(s: State, c: Id, k: Id, ref: string) {
    && HasRef(s, c) && s.callers[c].phase == Missed && Parse(s.callers[c].cfg).ref == ref
    && ref !in s.table && k !in s.calls
  }

  /** The condition is exact: starting a call is harmless if and only if nobody has an earlier read still to store. */
  lemma StartIsSafeIff(s: State, c: Id, k: Id, ref: string)
    requires Reachable(s) && InOrder(s.stores, ref) && CanStart(s, c, k, ref)
    ensures Act(s, Join(c, k)).Some? && (StaysInOrder(Act(s, Join(c, k)).value, ref) <==> NobodyOwes(s, ref))
  {
    ReachableKeeps(s);
    var t := Act(s, Join(c, k)).value;
    assert DoJoin(s, c, k) == Some(t);
    if NobodyOwes(s, ref) {
      NoneInFlight(s, ref);
      JoinStaysTidy(s, c, k, ref);
      ActKeeps(s, Join(c, k));
      TidyGoesOn(t, ref);
    } else {
      var d, i :| Owes(s, d, ref, i);
      var u := GoesBack(s, t, c, k, ref, d, i);
    }
  }

  lemma TidyGoesOn(s: State, ref: string)
    requires Inv(s) && Tidy(s, ref)
    ensures StaysInOrder(s, ref)
  {
    forall run | Run(s, run).Some? && StartsNone(s, run, ref)
      ensures InOrder(Run(s, run).value.stores, ref)
    {
      NoneIsSettled(s, run, ref);
      RunStaysTidy(s, run, ref);
    }
  }

  lemma {:induction false} NoneIsSettled(s: State, run: seq<Action>, ref: string)
    requires StartsNone(s, run, ref)
    ensures StartsWhenSettled(s, run, ref)
    decreases |run|
  {
    if run != [] && Act(s, run[0]).Some? {
      NoneIsSettled(Act(s, run[0]).value, run[1..], ref);
    }
  }

  /** `t` comes after `s` without another call for the reference being started. */
  ghost predicate Onward(s: State, t: State, ref: string) {
    exists run :: Run(s, run) == Some(t) && StartsNone(s, run, ref)
  }

  lemma {:induction false} NoneThen(s: State, run: seq<Action>, a: Action, ref: string)
    requires Run(s, run).Some? && StartsNone(s, run, ref) && !Starts(Run(s, run).value, a, ref)
    ensures StartsNone(s, run + [a], ref)
    decreases |run|
  {
    if run != [] {
      assert (run + [a])[1..] == run[1..] + [a];
      NoneThen(Act(s, run[0]).value, run[1..], a, ref);
    } else {
      assert run + [a] == [a];
    }
  }

  lemma GoOn(s: State, t: State, ref: string, a: Action) returns (u: State)
    requires Onward(s, t, ref) && Act(t, a).Some? && !a.Join?
    ensures u == Act(t, a).value && Onward(s, u, ref)
  {
    u := Act(t, a).value;
    var run :| Run(s, run) == Some(t) && StartsNone(s, run, ref);
    RunThen(s, run, a);
    NoneThen(s, run, a, ref);
    assert Run(s, run + [a]) == Some(u);
  }

  /** The call waits until the cache has nothing live, and goes to the backend. */
  lemma GoRead(s: State, t: State, ref: string, k: Id) returns (u: State)
    requires Onward(s, t, ref) && k in t.calls && t.calls[k].ref == ref && t.calls[k].phase == Rechecking
    ensures Onward(s, u, ref) && u == t.(calls := u.calls, cache := u.cache, now := u.now)
    ensures u.calls == t.calls[k := t.calls[k].(phase := Reading)]
  {
    var wait := if ref in t.cache && t.cache[ref].expiresAt >= t.now then t.cache[ref].expiresAt - t.now + 1 else 0;
    u := GoOn(s, t, ref, Tick(wait));
    assert Get(u.cache, ref, u.now).0.None?;
    u := GoOn(s, u, ref, Recheck(k));
  }

  /** The backend answers, and the waiter takes the reply. */
  lemma GoAnswer(s: State, t: State, ref: string, c: Id, k: Id) returns (u: State)
    requires Onward(s, t, ref) && k in t.calls && t.calls[k].phase == Reading
    requires c in t.callers && t.callers[c].phase == Waiting(k)
    ensures Onward(s, u, ref) && u.stores == t.stores && |u.history| == |t.history| + 1
    ensures u.callers == t.callers[c := t.callers[c].(phase := Storing(k, |t.history|))]
    ensures forall l :: l in t.calls && l != k ==> l in u.calls && u.calls[l] == t.calls[l]
  {
    u := GoOn(s, t, ref, Answer(k, Secret("", 1)));
    u := GoOn(s, u, ref, Complete(k));
    u := GoOn(s, u, ref, Collect(c));
  }

  /** Somebody who owes a read stores it. */
  lemma GoStore(s: State, t: State, ref: string, d: Id, i: nat) returns (u: State)
    requires Onward(s, t, ref) && Owes(t, d, ref, i) && i < |t.history|
    ensures Onward(s, u, ref) && u.history == t.history && u.calls == t.calls
    ensures exists at :: u.stores == t.stores + [Store(ref, i, at)]
    ensures forall e :: e in t.callers && e != d ==> e in u.callers && u.callers[e] == t.callers[e]
  {
    u := t;
    if t.callers[d].phase.Waiting? {
      u := GoOn(s, t, ref, Collect(d));
    }
    assert Owes(u, d, ref, i);
    u := GoOn(s, u, ref, Put(d));
    assert u.stores == t.stores + [Store(ref, i, t.now)];
  }

  /** The started call reads before anybody stores, and its starter then has the newest read to store. */
  lemma GoNewer(s: State, t: State, c: Id, k: Id, ref: string) returns (u: State)
    requires CanStart(s, c, k, ref) && DoJoin(s, c, k) == Some(t)
    ensures Onward(t, u, ref) && u.stores == s.stores
    ensures Owes(u, c, ref, |s.history|) && |s.history| < |u.history|
    ensures forall d, i :: Owes(s, d, ref, i) ==> d != c && Owes(u, d, ref, i)
  {
    assert Run(t, []) == Some(t) && StartsNone(t, [], ref);
    u := GoRead(t, t, ref, k);
    u := GoAnswer(t, u, ref, c, k);
  }

  lemma OwedWasRead(s: State, d: Id, ref: string, i: nat)
    requires Inv(s) && Owes(s, d, ref, i)
    ensures i < |s.history|
  {
    assert CallerOk(s, d);
  }

  lemma TwoStoresGoBack(stores: seq<Store>, ref: string, newer: Store, older: Store)
    requires newer.ref == older.ref == ref && newer.read > older.read
    ensures !InOrder(stores + [newer] + [older], ref)
  {
    var all := stores + [newer] + [older];
    assert all[|stores|] == newer && all[|stores| + 1] == older;
  }

  /** The new call's starter stores first, and whoever owed an older read stores it afterwards. */
  lemma GoesBack(s: State, t: State, c: Id, k: Id, ref: string, d: Id, i: nat) returns (u: State)
    requires Inv(s) && CanStart(s, c, k, ref) && DoJoin(s, c, k) == Some(t) && Owes(s, d, ref, i)
    ensures Onward(t, u, ref) && !InOrder(u.stores, ref)
  {
    OwedWasRead(s, d, ref, i);
    u := GoNewer(s, t, c, k, ref);
    var v := GoStore(t, u, ref, c, |s.history|);
    u := GoStore(t, v, ref, d, i);
    var x, y := v.stores[|s.stores|], u.stores[|v.stores|];
    TwoStoresGoBack(s.stores, ref, x, y);
    assert u.stores == s.stores + [x] + [y];
  }

  /* ---------- progress ---------- */

  /** Actions left until the caller returns, when nobody delays it. */
  function Rank(s: State, c: Id): nat
    requires c in s.callers
  {
    match s.callers[c].phase
    case Entered => 7
    case Missed => 6
    case Waiting(k) =>
      if k !in s.calls then 0
      else (match s.calls[k].phase
            case Rechecking => 5
            case Reading => 4
            case Completed(_) => 3
            case Delivered(_) => 2)
    case Storing(_, _) => 1
    case Returned(_, _) => 0
  }

  /** An action of the caller itself, of a call or of the backend, other than giving up. */
  predicate Helps(a: Action, c: Id) {
    match a
    case Look(d) => d == c
    case Join(d, _) => d == c
    case Collect(d) => d == c
    case Put(d) => d == c
    case Recheck(_) => true
    case Answer(_, _) => true
    case Complete(_) => true
    case _ => false
  }

  lemma {:induction false} FreshId(ids: set<Id>) returns (k: Id)
    ensures forall i :: i in ids ==> i < k
  {
    k := 0;
    if i :| i in ids {
      k := FreshId(ids - {i});
      k := if i < k then k else i + 1;
      assert forall j :: j in ids ==> j == i || j in ids - {i};
    }
  }

  lemma CallMoves(s: State, c: Id, k: Id, reply: Reply) returns (a: Action)
    requires Inv(s) && c in s.callers && s.callers[c].phase == Waiting(k)
    ensures Helps(a, c) && (a.Answer? ==> a.reply == reply)
    ensures Act(s, a).Some? && c in Act(s, a).value.callers && Rank(Act(s, a).value, c) < Rank(s, c)
  {
    assert CallerOk(s, c);
    match s.calls[k].phase
    case Rechecking => a := Recheck(k);
    case Reading => a := Answer(k, reply);
    case Completed(_) => a := Complete(k);
    case Delivered(_) => a := Collect(c);
  }

  lemma MissedMoves(s: State, c: Id) returns (k: Id)
    requires Inv(s) && HasRef(s, c) && s.callers[c].phase == Missed
    ensures DoJoin(s, c, k).Some? && c in DoJoin(s, c, k).value.callers && Rank(DoJoin(s, c, k).value, c) < Rank(s, c)
  {
    var ref := Parse(s.callers[c].cfg).ref;
    if ref in s.table {
      k := s.table[ref];
    } else {
      k := FreshId(s.calls.Keys);
    }
  }

  /** Nobody is ever stuck: there is an action that brings the caller nearer to its return. */
  lemma NextMove(s: State, c: Id, reply: Reply) returns (a: Action)
    requires Inv(s) && c in s.callers && !s.callers[c].phase.Returned?
    ensures Helps(a, c) && (a.Answer? ==> a.reply == reply)
    ensures Act(s, a).Some? && c in Act(s, a).value.callers && Rank(Act(s, a).value, c) < Rank(s, c)
  {
    assert CallerOk(s, c);
    match s.callers[c].phase
    case Entered => a := Look(c);
    case Missed =>
      var k := MissedMoves(s, c);
      a := Join(c, k);
    case Waiting(k) => a := CallMoves(s, c, k, reply);
    case Storing(_, _) => a := Put(c);
  }

  lemma RunFirst(s: State, a: Action, rest: seq<Action>)
    requires Act(s, a).Some?
    ensures Run(s, [a] + rest) == Run(Act(s, a).value, rest)
  {
    assert ([a] + rest)[1..] == rest;
  }

  /** Every caller can be brought to its return, by at most seven actions of its own, its call and the backend, whatever
      the backend answers and whatever the other callers do not do. */
  lemma {:induction false} CallerCanReturn(s: State, c: Id, reply: Reply) returns (run: seq<Action>)
    requires Inv(s) && c in s.callers
    ensures Run(s, run).Some? && c in Run(s, run).value.callers && Run(s, run).value.callers[c].phase.Returned?
    ensures |run| <= Rank(s, c) <= 7
    ensures forall i :: 0 <= i < |run| ==> Helps(run[i], c)
    decreases Rank(s, c)
  {
    if s.callers[c].phase.Returned? {
      run := [];
    } else {
      var a := NextMove(s, c, reply);
      ActKeeps(s, a);
      var rest := CallerCanReturn(Act(s, a).value, c, reply);
      RunFirst(s, a, rest);
      run := [a] + rest;
    }
  }

  /* ---------- the undisturbed caller ---------- */

  predicate Undisturbed(s: State, c: Id, k: Id, cfg: string) {
    c !in s.callers && k !in s.calls && (Parse(cfg).Ref? ==> Parse(cfg).ref !in s.table)
  }

  /** The backend refuses, and the caller returns its error. */
  lemma FailRead(s: State, c: Id, k: Id, e: string) returns (t: State)
    requires Reachable(s) && k in s.calls && s.calls[k].phase == Reading
    requires c in s.callers && s.callers[c].phase == Waiting(k)
    ensures Reachable(t) && t.cache == s.cache
    ensures t.callers == s.callers[c := s.callers[c].(phase := Returned(Err(Backend(e)), Shared(k)))]
  {
    t := Then(s, Answer(k, Failure(e)));
    t := Then(t, Complete(k));
    t := Then(t, Collect(c));
  }

  lemma ReadAlone(s: State, c: Id, k: Id, cfg: string, toRecheck: nat) returns (t: State)
    requires Reachable(s) && Undisturbed(s, c, k, cfg)
    requires Parse(cfg).Ref? && s.hasBackend && Get(s.cache, Parse(cfg).ref, s.now).0.None?
    ensures Reachable(t) && c in t.callers && t.callers[c] == Caller(cfg, Waiting(k))
    ensures k in t.calls && t.calls[k].phase == Reading
    ensures t.cache == s.cache - {Parse(cfg).ref} && t.now == s.now + toRecheck
  {
    t := LookAndMiss(s, c, cfg);
    t := Then(t, Tick(toRecheck));
    t := JoinAndRead(t, c, k);
  }

  lemma StoreAlone(s: State, c: Id, k: Id, v: string, ttl: int, toStore: nat) returns (t: State)
    requires Reachable(s) && HasRef(s, c) && s.callers[c].phase == Waiting(k)
    requires k in s.calls && s.calls[k].phase == Reading
    ensures Reachable(t) && c in t.callers && t.callers[c].phase.Returned? && t.callers[c].phase.result == Ok(v)
    ensures t.cache == Set(s.cache, Parse(s.callers[c].cfg).ref, v, ttl, s.now + toStore)
  {
    t := FinishRead(s, c, k, v, ttl);
    t := Then(t, Tick(toStore));
    t := Then(t, Put(c));
  }

  lemma MissAlone(s: State, c: Id, k: Id, cfg: string, reply: Reply, toRecheck: nat, toStore: nat) returns (t: State)
    requires Reachable(s) && Undisturbed(s, c, k, cfg)
    requires Parse(cfg).Ref? && s.hasBackend && Get(s.cache, Parse(cfg).ref, s.now).0.None?
    ensures Reachable(t) && c in t.callers && t.callers[c].phase.Returned?
    ensures t.callers[c].phase.result == match reply { case Secret(v, _) => Ok(v) case Failure(e) => Err(Backend(e)) }
    ensures t.cache == match reply {
      case Secret(v, ttl) => Set(s.cache - {Parse(cfg).ref}, Parse(cfg).ref, v, ttl, s.now + toRecheck + toStore)
      case Failure(_) => s.cache - {Parse(cfg).ref} }
  {
    t := ReadAlone(s, c, k, cfg, toRecheck);
    match reply
    case Secret(v, ttl) =>
      t := StoreAlone(t, c, k, v, ttl, toStore);
    case Failure(e) =>
      t := FailRead(t, c, k, e);
  }

  /** From any reachable state without a call in flight for the reference, the machine can run one caller undisturbed,
      and it then returns and stores what the `Resolve` method of the class does. */
  lemma AloneIsARun(s: State, c: Id, k: Id, cfg: string, reply: Reply, toRecheck: nat, toStore: nat) returns (t: State)
    requires Reachable(s) && Undisturbed(s, c, k, cfg)
    ensures Reachable(t) && c in t.callers && t.callers[c].phase.Returned?
    ensures t.callers[c].phase.result == Alone(s.cache, s.hasBackend, cfg, s.now, reply)
    ensures t.cache == AfterAlone(s.cache, s.hasBackend, cfg, s.now, reply, s.now + toRecheck + toStore)
  {
    if Parse(cfg).Ref? && s.hasBackend && Get(s.cache, Parse(cfg).ref, s.now).0.None? {
      t := MissAlone(s, c, k, cfg, reply, toRecheck, toStore);
      assert Get(s.cache, Parse(cfg).ref, s.now).1 == s.cache - {Parse(cfg).ref};
    } else {
      t := Then(s, Enter(c, cfg));
      if Parse(cfg).Ref? {
        t := Then(t, Look(c));
      }
    }
  }
}
