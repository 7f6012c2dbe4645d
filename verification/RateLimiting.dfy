/** The per-client rate limiter: one bucket a client, and a cleanup of idle buckets. */
module RateLimiting {
  import opened TokenBuckets
  import opened Wrappers

  type ClientId = string

  datatype Limiter = Limiter(
    capacity: real, rate: real, buckets: map<ClientId, Bucket>, requests: nat, rejections: nat)

  /** The bucket a check uses: the client's own, or one created for it at `created`. */
  function BucketOf(l: Limiter, client: ClientId, created: real): (b: Bucket) {
    if client in l.buckets then l.buckets[client] else Fresh(l.capacity, l.rate, created)
  }

  function Checked(l: Limiter, client: ClientId, created: real, now: real): (r: Limiter) {
    var b := BucketOf(l, client, created);
    l.(buckets := l.buckets[client := After(b, now)],
       requests := l.requests + 1,
       rejections := l.rejections + (if Grants(b, now) then 0 else 1))
  }

  /** The locked section of check: the client has a bucket from now on. */
  function Ensured(l: Limiter, client: ClientId, created: real): (r: Limiter) {
    l.(buckets := l.buckets[client := BucketOf(l, client, created)])
  }

  function Acquired(l: Limiter, client: ClientId, now: real): (r: Limiter)
    requires client in l.buckets
  {
    l.(buckets := l.buckets[client := After(l.buckets[client], now)])
  }

  datatype LookupError = KeyError

  predicate Idle(b: Bucket, now: real, maxIdle: real) {
    now - b.last > maxIdle
  }

  function Cleaned(l: Limiter, now: real, maxIdle: real): (r: Limiter) {
    l.(buckets := map c | c in l.buckets && !Idle(l.buckets[c], now, maxIdle) :: l.buckets[c])
  }

  // ----------------------------------------------------------------- the object

  /** RateLimiter; check creates the bucket and acquires from it at two readings of the clock. */
  class RateLimiter {
    var buckets: map<ClientId, TokenBucket>
    const capacity: real
    const refillRate: real
    var totalRequests: nat
    var totalRejections: nat

    ghost predicate Valid()
      reads this, buckets.Values
    {
      forall c, d :: c in buckets && d in buckets && buckets[c] == buckets[d] ==> c == d
    }

    ghost function View(): (l: Limiter)
      reads this, buckets.Values
    {
      Limiter(capacity, refillRate, map c | c in buckets :: buckets[c].View(), totalRequests, totalRejections)
    }

    constructor (capacity: real, refillRate: real)
      ensures Valid() && View() == Limiter(capacity, refillRate, map[], 0, 0)
      ensures fresh(buckets.Values)
    {
      this.capacity, this.refillRate, buckets, totalRequests, totalRejections := capacity, refillRate, map[], 0, 0;
    }

    /** The locked section of check: the client's bucket is created when it has none. */
    method Ensure(client: ClientId, created: real)
      requires Valid()
      modifies this`buckets
      ensures Valid() && client in buckets
      ensures View() == Ensured(old(View()), client, created)
      ensures fresh(buckets.Values - old(buckets.Values))
    {
      if client !in buckets {
        var n := new TokenBucket(capacity, refillRate, created);
        buckets := buckets[client := n];
      }
    }

    /** What follows the lock: the bucket is looked up again, which fails if it was removed meanwhile. */
    method Acquire(client: ClientId, now: real) returns (r: Result<bool, LookupError>)
      requires Valid()
      modifies if client in buckets then {buckets[client]} else {}
      ensures Valid() && (r.Success? <==> client in old(View()).buckets)
      ensures r.Success? ==>
                && r.value == Grants(old(View()).buckets[client], now)
                && View() == Acquired(old(View()), client, now)
      ensures r.Failure? ==> View() == old(View())
    {
      if client !in buckets { return Failure(KeyError); }
      var allowed := buckets[client].Acquire(now);
      return Success(allowed);
    }

    /** check, when nothing comes between its two parts. */
    method Check(client: ClientId, created: real, now: real) returns (allowed: bool)
      requires Valid()
      modifies this, buckets.Values
      ensures Valid() && fresh(buckets.Values - old(buckets.Values))
      ensures allowed == Grants(BucketOf(old(View()), client, created), now)
      ensures View() == Checked(old(View()), client, created, now)
    {
      Ensure(client, created);
      assert buckets[client] in buckets.Values;
      var r := Acquire(client, now);
      allowed := r.value;
      CountCheck(allowed);
    }

    method CountCheck(allowed: bool)
      requires Valid()
      modifies this`totalRequests, this`totalRejections
      ensures Valid()
      ensures View() == old(View()).(requests := old(View()).requests + 1,
                                     rejections := old(View()).rejections + (if allowed then 0 else 1))
    {
      totalRequests := totalRequests + 1;
      if !allowed { totalRejections := totalRejections + 1; }
    }

    method Cleanup(now: real, maxIdle: real) returns (removed: nat)
      requires Valid()
      modifies this`buckets
      ensures Valid() && buckets.Values <= old(buckets.Values)
      ensures View() == Cleaned(old(View()), now, maxIdle)
      ensures forall c :: c in buckets <==> c in old(buckets) && now - old(buckets)[c].lastRefill <= maxIdle
      ensures forall c :: c in buckets ==> buckets[c] == old(buckets)[c]
      ensures removed == |old(buckets)| - |buckets|
    {
      var stale := set k | k in buckets && now - buckets[k].lastRefill > maxIdle;
      removed := |stale|;
      SizeWithout(buckets, stale);
      CleanedIs(View(), now, maxIdle, stale);
      Drop(stale);
    }

    method Drop(stale: set<ClientId>)
      requires Valid()
      modifies this`buckets
      ensures Valid() && buckets == old(buckets) - stale && buckets.Values <= old(buckets.Values)
      ensures View() == old(View()).(buckets := old(View()).buckets - stale)
    {
      buckets := buckets - stale;
    }
  }

  lemma CleanedIs(l: Limiter, now: real, maxIdle: real, stale: set<ClientId>)
    requires forall c :: c in stale <==> c in l.buckets && Idle(l.buckets[c], now, maxIdle)
    ensures Cleaned(l, now, maxIdle) == l.(buckets := l.buckets - stale)
  {
  }

  lemma SizeWithout<T>(m: map<ClientId, T>, stale: set<ClientId>)
    requires stale <= m.Keys
    ensures |m - stale| == |m| - |stale|
  {
    assert (m - stale).Keys == m.Keys - stale;
    assert |(m - stale).Keys| == |m - stale| && |m.Keys| == |m|;
  }

  // ----------------------------------------------------- runs with and without

  /** A check reads the clock when it creates a bucket and again when it acquires. */
  datatype Call =
    | Check(client: ClientId, created: real, now: real)
    | Cleanup(now: real, maxIdle: real)

  function Apply(l: Limiter, c: Call): (r: Limiter) {
    match c
    case Check(client, created, now) => Checked(l, client, created, now)
    case Cleanup(now, maxIdle) => Cleaned(l, now, maxIdle)
  }

  function Answer(l: Limiter, c: Call): (r: seq<bool>) {
    if c.Check? then [Grants(BucketOf(l, c.client, c.created), c.now)] else []
  }

  function Run(l: Limiter, calls: seq<Call>): (r: Limiter) {
    if calls == [] then l else Apply(Run(l, calls[..|calls| - 1]), calls[|calls| - 1])
  }

  /** What the clients see of these calls. */
  function Seen(l: Limiter, calls: seq<Call>): (r: seq<bool>) {
    if calls == [] then []
    else
      var front := calls[..|calls| - 1];
      Seen(l, front) + Answer(Run(l, front), calls[|calls| - 1])
  }

  /** The two counters count the checks and the refusals among them. */
  lemma {:induction false} CountersCount(l: Limiter, calls: seq<Call>)
    ensures var seen := Seen(l, calls);
            && Run(l, calls).requests == l.requests + |seen|
            && Run(l, calls).rejections + Count(seen, 0, |seen|) == l.rejections + |seen|
  {
    if calls != [] {
      var front, c := calls[..|calls| - 1], calls[|calls| - 1];
      CountersCount(l, front);
      if c.Check? {
        CountOneMore(Seen(l, front), Grants(BucketOf(Run(l, front), c.client, c.created), c.now));
      } else {
        assert Seen(l, calls) == Seen(l, front);
      }
    }
  }

  lemma CountOneMore(seen: seq<bool>, granted: bool)
    ensures Count(seen + [granted], 0, |seen| + 1) == Count(seen, 0, |seen|) + (if granted then 1 else 0)
  {
    CountInFront(seen, granted, |seen|);
  }

  lemma {:induction false} CountInFront(seen: seq<bool>, granted: bool, j: nat)
    requires j <= |seen|
    ensures Count(seen + [granted], 0, j) == Count(seen, 0, j)
  {
    if j > 0 { CountInFront(seen, granted, j - 1); }
  }

  function WithoutCleanups(calls: seq<Call>): (r: seq<Call>) {
    if calls == [] then []
    else
      var front, c := calls[..|calls| - 1], calls[|calls| - 1];
      WithoutCleanups(front) + (if c.Check? then [c] else [])
  }

  /** The clock does not run back, within a call or between calls. */
  predicate Ordered(calls: seq<Call>) {
    && (forall i :: 0 <= i < |calls| && calls[i].Check? ==> calls[i].created <= calls[i].now)
    && (forall i, j :: 0 <= i < j < |calls| ==>
          calls[i].now <= (if calls[j].Check? then calls[j].created else calls[j].now))
  }

  predicate Thorough(calls: seq<Call>, maxIdle: real) {
    forall c :: c in calls && c.Cleanup? ==> c.maxIdle == maxIdle
  }

  function New(capacity: real, rate: real): (l: Limiter) {
    Limiter(capacity, rate, map[], 0, 0)
  }

  /** Cleanups with this idle limit change no answer of any run of a limiter. */
  ghost predicate CleanupUnobservable(capacity: real, rate: real, maxIdle: real) {
    forall calls :: Ordered(calls) && Thorough(calls, maxIdle) ==>
                      Seen(New(capacity, rate), calls) == Seen(New(capacity, rate), WithoutCleanups(calls))
  }

  // ------------------------------------------------------------ the simulation

  /** Nobody can tell this bucket from one created at `now`. */
  predicate Full(b: Bucket, now: real) {
    Level(b, now) == b.capacity
  }

  predicate BucketFits(l: Limiter, client: ClientId, now: real) {
    client in l.buckets ==>
      var b := l.buckets[client];
      b.capacity == l.capacity && b.rate == l.rate && 0.0 <= b.tokens <= b.capacity && b.last <= now
  }

  /** `kept` never removed a bucket, `cleaned` did: they agree but for removed buckets, and those are full. */
  predicate Agree(kept: Limiter, cleaned: Limiter, client: ClientId, now: real) {
    && BucketFits(kept, client, now)
    && (client in cleaned.buckets ==> client in kept.buckets && kept.buckets[client] == cleaned.buckets[client])
    && (client in kept.buckets && client !in cleaned.buckets ==> Full(kept.buckets[client], now))
  }

  ghost predicate Simulates(kept: Limiter, cleaned: Limiter, now: real) {
    && kept.capacity == cleaned.capacity && kept.rate == cleaned.rate
    && forall client {:trigger Agree(kept, cleaned, client, now)} :: Agree(kept, cleaned, client, now)
  }

  lemma LevelGrows(b: Bucket, s: real, t: real)
    requires 0.0 <= b.rate && s <= t
    ensures Level(b, s) <= Level(b, t) <= b.capacity
  {
    Scale(b.rate, s - b.last, t - b.last);
  }

  lemma TimePasses(kept: Limiter, cleaned: Limiter, s: real, t: real)
    requires Simulates(kept, cleaned, s) && s <= t && 0.0 <= kept.rate
    ensures Simulates(kept, cleaned, t)
  {
    forall client ensures Agree(kept, cleaned, client, t) {
      assert Agree(kept, cleaned, client, s);
      if client in kept.buckets { LevelGrows(kept.buckets[client], s, t); }
    }
  }

  lemma SameAnswer(kept: Limiter, cleaned: Limiter, client: ClientId, created: real, now: real)
    requires Simulates(kept, cleaned, created) && created <= now && 0.0 <= kept.rate
    ensures Level(BucketOf(kept, client, created), now) == Level(BucketOf(cleaned, client, created), now)
    ensures After(BucketOf(kept, client, created), now) == After(BucketOf(cleaned, client, created), now)
  {
    assert Agree(kept, cleaned, client, created);
    if client in kept.buckets && client !in cleaned.buckets {
      LevelGrows(kept.buckets[client], created, now);
      LevelGrows(Fresh(kept.capacity, kept.rate, created), created, now);
      Scale(kept.rate, 0.0, 0.0);
    }
  }

  lemma CheckSimulates(kept: Limiter, cleaned: Limiter, client: ClientId, created: real, now: real)
    requires Simulates(kept, cleaned, created) && created <= now && 0.0 <= kept.rate && 0.0 <= kept.capacity
    ensures Simulates(Checked(kept, client, created, now), Checked(cleaned, client, created, now), now)
    ensures Grants(BucketOf(kept, client, created), now) == Grants(BucketOf(cleaned, client, created), now)
  {
    SameAnswer(kept, cleaned, client, created, now);
    TimePasses(kept, cleaned, created, now);
    var k, c := Checked(kept, client, created, now), Checked(cleaned, client, created, now);
    assert Agree(kept, cleaned, client, created);
    TokensAfter(BucketOf(kept, client, created), now);
    forall d ensures Agree(k, c, d, now) {
      assert Agree(kept, cleaned, d, now);
    }
  }

  /** An idle bucket has had the time to fill. */
  lemma IdleIsFull(b: Bucket, now: real, maxIdle: real)
    requires 0.0 <= b.tokens && 0.0 <= b.rate && Idle(b, now, maxIdle) && b.capacity <= Earned(b.rate, maxIdle)
    ensures Full(b, now)
  {
    Scale(b.rate, maxIdle, now - b.last);
  }

  lemma CleanupSimulates(kept: Limiter, cleaned: Limiter, now: real, maxIdle: real)
    requires Simulates(kept, cleaned, now) && 0.0 <= kept.rate && kept.capacity <= Earned(kept.rate, maxIdle)
    ensures Simulates(kept, Cleaned(cleaned, now, maxIdle), now)
  {
    forall client ensures Agree(kept, Cleaned(cleaned, now, maxIdle), client, now) {
      assert Agree(kept, cleaned, client, now);
      if client in cleaned.buckets && Idle(cleaned.buckets[client], now, maxIdle) {
        IdleIsFull(kept.buckets[client], now, maxIdle);
      }
    }
  }

  function Started(c: Call): (t: real) {
    if c.Check? then c.created else c.now
  }

  lemma {:induction false} RunsSimulate(capacity: real, rate: real, calls: seq<Call>, maxIdle: real)
    requires 0.0 <= capacity <= Earned(rate, maxIdle) && 0.0 <= rate
    requires Ordered(calls) && Thorough(calls, maxIdle)
    ensures var kept, cleaned := Run(New(capacity, rate), WithoutCleanups(calls)), Run(New(capacity, rate), calls);
            && (calls != [] ==> Simulates(kept, cleaned, calls[|calls| - 1].now))
            && kept.capacity == capacity && kept.rate == rate
    ensures Seen(New(capacity, rate), calls) == Seen(New(capacity, rate), WithoutCleanups(calls))
  {
    if calls != [] {
      var l := New(capacity, rate);
      var front, c := calls[..|calls| - 1], calls[|calls| - 1];
      RunsSimulate(capacity, rate, front, maxIdle);
      var kept, cleaned := Run(l, WithoutCleanups(front)), Run(l, front);
      if front == [] {
        assert forall client :: Agree(kept, cleaned, client, Started(c));
      } else {
        assert calls[|front| - 1] == front[|front| - 1];
        TimePasses(kept, cleaned, front[|front| - 1].now, Started(c));
      }
      match c
      case Check(client, created, now) =>
        CheckSimulates(kept, cleaned, client, created, now);
        assert (WithoutCleanups(front) + [c])[..|WithoutCleanups(front)|] == WithoutCleanups(front);
      case Cleanup(now, idle) =>
        assert c in calls;
        CleanupSimulates(kept, cleaned, now, idle);
        assert WithoutCleanups(calls) == WithoutCleanups(front);
    }
  }
}
