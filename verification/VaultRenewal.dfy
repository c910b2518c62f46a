/** The background renewal of the Vault token, and the TTL a secret is cached for. Durations are in nanoseconds. */
module VaultRenewal {
  import opened Results

  const SECOND: int := 1_000_000_000
  const MIN_RENEW_SLACK: int := 5 * SECOND
  const FALLBACK_TTL: int := 60 * SECOND
  const BASE_DELAY: int := 30 * SECOND
  const MAX_DELAY: int := 600 * SECOND

  function Pow2(n: nat): nat {
    if n == 0 then 1 else 2 * Pow2(n - 1)
  }

  function Min(a: int, b: int): int {
    if a < b then a else b
  }

  /** The backoff curve after n consecutive failures. */
  function Backoff(n: int): int {
    Min(BASE_DELAY * Pow2(if n < 1 then 0 else n - 1), MAX_DELAY)
  }

  lemma {:induction false} Pow2Grows(m: nat, n: nat)
    requires m <= n
    ensures 1 <= Pow2(m) <= Pow2(n)
    decreases n
  {
    if m < n {
      Pow2Grows(m, n - 1);
    } else if n > 0 {
      Pow2Grows(n - 1, n - 1);
    }
  }

  /** More failures never shorten the wait, and it stays between the base and the cap. */
  lemma BackoffMonotone(m: int, n: int)
    requires m <= n
    ensures BASE_DELAY <= Backoff(m) <= Backoff(n) <= MAX_DELAY
  {
    Pow2Grows(if m < 1 then 0 else m - 1, if n < 1 then 0 else n - 1);
  }

  /** The curve in seconds: 30, 60, 120, 240, 480, and 600 from the sixth failure on. */
  lemma BackoffInSeconds(n: int)
    ensures Backoff(n) == (if n <= 1 then 30 else if n == 2 then 60 else if n == 3 then 120 else if n == 4 then 240
                           else if n == 5 then 480 else 600) * 1_000_000_000
  {
    SmallPowers();
    if n >= 6 {
      Pow2Grows(5, n - 1);
    }
  }

  /** `nextRenewalRetryDelay`. At most five doublings are made, so the delay stays at or below 960 s before the cap. */
  method NextRenewalRetryDelay(consecutiveFailures: int) returns (delay: int, ghost doublings: nat)
    ensures delay == Backoff(consecutiveFailures)
    ensures doublings <= 5 && BASE_DELAY * Pow2(doublings) <= 960 * SECOND
    ensures delay == Min(BASE_DELAY * Pow2(doublings), MAX_DELAY)
  {
    var failures := if consecutiveFailures < 1 then 1 else consecutiveFailures;
    delay, doublings := BASE_DELAY, 0;
    var i := 1;
    while i < failures && delay < MAX_DELAY
      invariant 1 <= i <= failures && doublings == i - 1 <= 5
      invariant delay == BASE_DELAY * Pow2(doublings) <= 960 * SECOND
      invariant doublings < 5 ==> delay < MAX_DELAY
      decreases failures - i
    {
      SmallPowers();
      delay := delay * 2;
      i, doublings := i + 1, doublings + 1;
    }
    Pow2Grows(i - 1, failures - 1);
    if delay > MAX_DELAY {
      delay := MAX_DELAY;
    }
  }

  lemma SmallPowers()
    ensures Pow2(0) == 1 && Pow2(1) == 2 && Pow2(2) == 4 && Pow2(3) == 8 && Pow2(4) == 16 && Pow2(5) == 32
  {
    assert Pow2(1) == 2 && Pow2(2) == 4 && Pow2(3) == 8 && Pow2(4) == 16;
  }

  /** A fraction of a positive quantity is less than all of it. */
  lemma FractionOf(x: real, r: real)
    requires x > 0.0 && 0.0 <= r < 1.0
    ensures 0.0 <= x * r < x
  {
    assert x * (1.0 - r) > 0.0;
  }

  /** A random share of the spread. */
  function Share(spread: real, rnd: real): (part: real)
    requires spread > 0.0 && 0.0 <= rnd < 1.0
    ensures 0.0 <= part < spread
  {
    FractionOf(spread, rnd);
    spread * rnd
  }

  /** The wait for a share of the spread, truncated like a float-to-integer conversion. */
  function WaitFor(d: int, part: real): int {
    (d as real - d as real * 0.2 + 2.0 * part).Floor
  }

  /** `applyJitter` over the reals. */
  method ApplyJitter(d: int, rnd: real) returns (r: int)
    requires 0.0 <= rnd < 1.0 && d > 0
    ensures r == WaitFor(d, Share(d as real * 0.2, rnd))
    ensures 4 * d < 5 * r + 5 && 5 * r < 6 * d
    ensures d % 5 == 0 ==> 4 * d <= 5 * r
  {
    var spread := d as real * 0.2;
    var part := Share(spread, rnd);
    r := (d as real - spread + 2.0 * part).Floor;
    JitterBounds(d, part);
  }

  lemma JitterBounds(d: int, part: real)
    requires d > 0 && 0.0 <= part < d as real * 0.2
    ensures var r := WaitFor(d, part); 4 * d < 5 * r + 5 && 5 * r < 6 * d && (d % 5 == 0 ==> 4 * d <= 5 * r)
  {
    var x := d as real - d as real * 0.2 + 2.0 * part;
    var r := x.Floor;
    assert r as real <= x < r as real + 1.0;
    assert 0.8 * d as real <= x < 1.2 * d as real;
    assert (5 * r) as real < (6 * d) as real;
    assert (4 * d) as real < (5 * r + 5) as real;
    if d % 5 == 0 {
      var n := d / 5;
      assert d == 5 * n;
      assert x >= (4 * n) as real;
    }
  }

  /** The jitter spreads over the whole of that range: every wait in it comes up for some random number. */
  lemma EveryWaitComesUp(d: int, wait: int) returns (rnd: real)
    requires d > 0 && 4 * d <= 5 * wait < 6 * d
    ensures 0.0 <= rnd < 1.0 && WaitFor(d, Share(d as real * 0.2, rnd)) == wait
  {
    var spread := d as real * 0.2;
    var part := (wait as real - 0.8 * d as real) / 2.0;
    assert (4 * d) as real <= (5 * wait) as real < (6 * d) as real;
    assert 0.0 <= part < spread;
    rnd := ShareReaches(spread, part);
    assert d as real - spread + 2.0 * part == wait as real;
  }

  lemma ShareReaches(spread: real, part: real) returns (rnd: real)
    requires 0.0 <= part < spread
    ensures 0.0 <= rnd < 1.0 && Share(spread, rnd) == part
  {
    rnd := part / spread;
    assert spread * rnd == part;
    SmallerFactor(spread, rnd);
  }

  lemma SmallerFactor(x: real, r: real)
    requires x > 0.0 && 0.0 <= x * r < x
    ensures 0.0 <= r < 1.0
  {
  }

  /** What one renewal attempt brings: an error, or a lease in seconds that may be missing. */
  datatype Attempt = RenewalFailed | Renewed(leaseSeconds: Option<int>)

  /** Conversion to 64-bit nanoseconds, with the wrap-around of the multiplication. */
  function Wrap64(x: int): int {
    (x + 0x8000_0000_0000_0000) % 0x1_0000_0000_0000_0000 - 0x8000_0000_0000_0000
  }

  function LeaseTtl(lease: Option<int>): int {
    if lease.Some? && lease.value > 0 then Wrap64(lease.value * SECOND) else FALLBACK_TTL
  }

  /** Go's `/ 2`, which truncates toward zero. */
  function Half(x: int): int {
    if x >= 0 then x / 2 else -(-x / 2)
  }

  function Max(a: int, b: int): int {
    if a < b then b else a
  }

  /** Failures since the last success. */
  function ConsecutiveFailures(attempts: seq<Attempt>): nat {
    if attempts == [] || attempts[|attempts| - 1].Renewed? then 0
    else 1 + ConsecutiveFailures(attempts[..|attempts| - 1])
  }

  /** `n` is the length of the unbroken run of failures at the end: no shorter, no longer. */
  lemma {:induction false} ConsecutiveFailuresIs(attempts: seq<Attempt>)
    ensures var n := ConsecutiveFailures(attempts);
      && n <= |attempts|
      && (forall i :: |attempts| - n <= i < |attempts| ==> attempts[i].RenewalFailed?)
      && (n < |attempts| ==> attempts[|attempts| - n - 1].Renewed?)
  {
    if attempts != [] && attempts[|attempts| - 1].RenewalFailed? {
      ConsecutiveFailuresIs(attempts[..|attempts| - 1]);
    }
  }

  /** The wait after the last of these attempts is what the renewal loop promises. */
  predicate WaitOk(attempts: seq<Attempt>, wait: int)
    requires attempts != []
  {
    match attempts[|attempts| - 1]
    case RenewalFailed =>
      var d := Backoff(ConsecutiveFailures(attempts));
      4 * d <= 5 * wait && 5 * wait < 6 * d
    case Renewed(lease) => wait == Max(Half(LeaseTtl(lease)), MIN_RENEW_SLACK)
  }

  /** The waits after renewals in seconds: half of a lease of at least ten, five for a shorter one, thirty without
      one. */
  predicate LeaseWait(attempt: Attempt, wait: int) {
    attempt.Renewed? ==>
      match attempt.leaseSeconds
      case None => wait == 30 * 1_000_000_000
      case Some(n) =>
        && (n <= 0 ==> wait == 30 * 1_000_000_000)
        && (0 < n < 10 ==> wait == 5 * 1_000_000_000)
        && (10 <= n <= 9_223_372_036 ==> wait == n * 500_000_000)
  }

  lemma LeaseWaits(attempts: seq<Attempt>, wait: int)
    requires attempts != [] && WaitOk(attempts, wait)
    ensures LeaseWait(attempts[|attempts| - 1], wait)
  {
  }

  /** The renewal loop, until its context is done after the last of the given attempts. */
  method RenewalLoop(attempts: seq<Attempt>, rnd: nat -> real) returns (waits: seq<int>)
    requires forall i :: 0.0 <= rnd(i) < 1.0
    ensures |waits| == |attempts|
    ensures forall i :: 0 <= i < |attempts| ==> WaitOk(attempts[..i + 1], waits[i])
    ensures forall i :: 0 <= i < |attempts| ==> LeaseWait(attempts[i], waits[i])
  {
    waits := [];
    var consecutiveFailures := 0;
    for i := 0 to |attempts|
      invariant |waits| == i
      invariant consecutiveFailures == ConsecutiveFailures(attempts[..i])
      invariant forall j :: 0 <= j < i ==> WaitOk(attempts[..j + 1], waits[j])
    {
      assert attempts[..i + 1][..i] == attempts[..i];
      match attempts[i]
      case RenewalFailed =>
        consecutiveFailures := consecutiveFailures + 1;
        var delay, _ := NextRenewalRetryDelay(consecutiveFailures);
        BackoffMonotone(consecutiveFailures, consecutiveFailures);
        BackoffWholeSeconds(consecutiveFailures);
        delay := ApplyJitter(delay, rnd(i));
        waits := waits + [delay];
      case Renewed(lease) =>
        consecutiveFailures := 0;
        var sleep := Half(LeaseTtl(lease));
        if sleep < MIN_RENEW_SLACK {
          sleep := MIN_RENEW_SLACK;
        }
        waits := waits + [sleep];
    }
    forall i | 0 <= i < |attempts|
      ensures LeaseWait(attempts[i], waits[i])
    {
      LeaseWaits(attempts[..i + 1], waits[i]);
    }
  }

  lemma BackoffWholeSeconds(n: int)
    ensures Backoff(n) % 5 == 0
  {
    var p := Pow2(if n < 1 then 0 else n - 1);
    assert BASE_DELAY * p == 5 * (6 * SECOND * p);
  }

  /** After a renewal the next try comes by half the lease exactly when the lease is at least ten seconds. */
  lemma RenewsByHalfLeaseIff(leaseSeconds: int)
    requires leaseSeconds > 0
    ensures 2 * Max(Half(LeaseTtl(Some(leaseSeconds))), MIN_RENEW_SLACK) <= leaseSeconds * SECOND
       <==> leaseSeconds >= 10
  {
    assert Wrap64(leaseSeconds * SECOND) <= leaseSeconds * SECOND;
  }

  /** The TTL `ReadSecret` recommends: half of a lease, or the configured TTL where there is none. */
  function SecretTtl(cacheTtl: int, leaseSeconds: int): int {
    if leaseSeconds > 0 then Half(Wrap64(leaseSeconds * SECOND)) else cacheTtl
  }

  /** It is half the lease, and so positive, exactly as long as the lease fits 64-bit nanoseconds. Without a lease it is
      the configured TTL. */
  lemma SecretTtlIsHalfLeaseIff(cacheTtl: int, leaseSeconds: int)
    ensures leaseSeconds <= 0 ==> SecretTtl(cacheTtl, leaseSeconds) == cacheTtl
    ensures leaseSeconds > 0 ==>
      (SecretTtl(cacheTtl, leaseSeconds) == leaseSeconds * 500_000_000 <==> leaseSeconds <= 9_223_372_036)
  {
    var x := leaseSeconds * SECOND;
    assert x / 2 == leaseSeconds * 500_000_000;
    if 0 < leaseSeconds <= 9_223_372_036 {
      assert Wrap64(x) == x;
    } else if leaseSeconds > 0 {
      assert Wrap64(x) < 0x8000_0000_0000_0000;
    }
  }
}
