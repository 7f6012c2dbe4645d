/** Exactly when the cleanup of idle buckets cannot be observed. */
module CleanupTheorem {
  import opened TokenBuckets
  import opened RateLimiting

  // ------------------------------------------------- telling two buckets apart

  function Repeat(t: real, n: nat): (r: seq<real>)
    ensures |r| == n && forall k :: 0 <= k < n ==> r[k] == t
  {
    if n == 0 then [] else Repeat(t, n - 1) + [t]
  }

  lemma NoTimeNoTokens(b: Bucket)
    requires b.tokens <= b.capacity
    ensures Level(b, b.last) == b.tokens
  {
    assert Earned(b.rate, 0.0) == 0.0;
  }

  lemma {:induction false} Burst(b: Bucket, n: nat)
    requires n as real <= b.tokens <= b.capacity
    ensures Final(b, Repeat(b.last, n)) == b.(tokens := b.tokens - n as real)
    ensures forall k :: 0 <= k < n ==> Answers(b, Repeat(b.last, n))[k]
  {
    if n > 0 {
      Burst(b, n - 1);
      NoTimeNoTokens(Final(b, Repeat(b.last, n - 1)));
      OneMore(b, Repeat(b.last, n - 1), b.last);
    }
  }

  /** The time in which this many tokens are earned. */
  lemma TimeToEarn(rate: real, tokens: real) returns (t: real)
    requires 0.0 < rate && 0.0 <= tokens
    ensures 0.0 <= t && Earned(rate, t) == tokens
  {
    t := tokens / rate;
  }

  /** The same answers but for the last, which only b grants. */
  predicate GrantsMore(a: seq<bool>, b: seq<bool>) {
    a != [] && |a| == |b| && !a[|a| - 1] && b[|b| - 1] && a[..|a| - 1] == b[..|b| - 1]
  }

  /** Two buckets with different tokens at the same moment answer some later calls differently, the fuller
      one granting more: what a bucket holds is exactly what its clients can find out. */
  lemma Distinguish(p: Bucket, q: Bucket) returns (times: seq<real>)
    requires p == q.(tokens := p.tokens) && 0.0 <= p.tokens < q.tokens <= q.capacity && 1.0 <= q.capacity
    requires 0.0 < p.rate || (p.rate == 0.0 && p.tokens < 1.0 <= q.tokens)
    ensures times != [] && ClockStartsAt(p.last, times) && GrantsMore(Answers(p, times), Answers(q, times))
  {
    var n: nat := p.tokens.Floor;
    Burst(p, n);
    Burst(q, n);
    var wait := 0.0;
    if q.tokens - n as real < 1.0 { wait := TimeToEarn(p.rate, 1.0 - (q.tokens - n as real)); }
    var burst := Repeat(p.last, n);
    assert forall k :: 0 <= k < n ==> Answers(p, burst)[k] == Answers(q, burst)[k];
    times := TellAfter(p, q, burst, wait);
  }

  lemma TellAfter(p: Bucket, q: Bucket, burst: seq<real>, wait: real) returns (times: seq<real>)
    requires p.last == q.last && 0.0 <= wait && forall k :: 0 <= k < |burst| ==> burst[k] == p.last
    requires Answers(p, burst) == Answers(q, burst)
    requires var x, y := Final(p, burst), Final(q, burst);
             && x.last == y.last == p.last && x.rate == y.rate && x.capacity == y.capacity >= 1.0
             && 0.0 <= x.tokens < 1.0 && x.tokens < y.tokens
             && if y.tokens < 1.0 then Earned(y.rate, wait) == 1.0 - y.tokens else wait == 0.0
    ensures times != [] && ClockStartsAt(p.last, times) && GrantsMore(Answers(p, times), Answers(q, times))
  {
    var t := p.last + wait;
    times := burst + [t];
    OneMore(p, burst, t);
    OneMore(q, burst, t);
    LastCallTells(Final(p, burst), Final(q, burst), wait);
    assert Answers(p, times) == Answers(p, burst) + [false];
    assert Answers(q, times) == Answers(q, burst) + [true];
  }

  lemma LastCallTells(p: Bucket, q: Bucket, wait: real)
    requires p.last == q.last && p.rate == q.rate && p.capacity == q.capacity >= 1.0
    requires 0.0 <= p.tokens < 1.0 && p.tokens < q.tokens
    requires if q.tokens < 1.0 then Earned(q.rate, wait) == 1.0 - q.tokens else wait == 0.0
    ensures !Grants(p, p.last + wait) && Grants(q, p.last + wait)
  {
    assert p.last + wait - p.last == wait;
    Scale(0.0, 0.0, 0.0);
  }

  /** A bucket may be brought up to date at any moment before its next call. */
  lemma {:induction false} UpToDate(b: Bucket, now: real, times: seq<real>)
    requires 0.0 <= b.rate && b.last <= now && ClockStartsAt(now, times)
    ensures var s := b.(tokens := Level(b, now), last := now);
            Answers(b, times) == Answers(s, times) && (times != [] ==> Final(b, times) == Final(s, times))
  {
    var s := b.(tokens := Level(b, now), last := now);
    if times != [] {
      var front, t := times[..|times| - 1], times[|times| - 1];
      UpToDate(b, now, front);
      if front == [] {
        assert times[0] == t;
        Elapsed(b.rate, now - b.last, t - b.last);
        Scale(b.rate, 0.0, t - now);
      }
    }
  }

  /** A full bucket can be brought below one token, and to none at all if it ever refills. */
  lemma Drain(capacity: real, rate: real) returns (times: seq<real>)
    requires 1.0 <= capacity && 0.0 <= rate
    ensures times != [] && ClockStartsAt(0.0, times)
    ensures var b := Final(Fresh(capacity, rate, 0.0), times);
            0.0 <= b.tokens < 1.0 && (0.0 < rate ==> b.tokens == 0.0)
  {
    var b := Fresh(capacity, rate, 0.0);
    var n: nat := capacity.Floor;
    times := Repeat(0.0, n);
    Burst(b, n);
    if 0.0 < rate { times := DrainLast(b, times); }
  }

  lemma DrainLast(b: Bucket, burst: seq<real>) returns (times: seq<real>)
    requires 0.0 < b.rate && 1.0 <= b.capacity && (forall k :: 0 <= k < |burst| ==> burst[k] == 0.0)
    requires var left := Final(b, burst);
             && 0.0 <= left.tokens < 1.0 && left.last == 0.0
             && left.capacity == b.capacity && left.rate == b.rate
    ensures times != [] && ClockStartsAt(0.0, times) && Final(b, times).tokens == 0.0
  {
    var left := Final(b, burst);
    var wait := TimeToEarn(b.rate, 1.0 - left.tokens);
    OneMore(b, burst, wait);
    LastToken(left, wait);
    times := burst + [wait];
  }

  lemma LastToken(b: Bucket, wait: real)
    requires b.last == 0.0 && 1.0 <= b.capacity && Earned(b.rate, wait) == 1.0 - b.tokens
    ensures After(b, wait).tokens == 0.0
  {
    assert wait - b.last == wait;
  }

  // ------------------------------------------------------- one client's checks

  function Checks(client: ClientId, times: seq<real>): (r: seq<Call>)
    ensures |r| == |times| && forall k :: 0 <= k < |r| ==> r[k] == Check(client, times[k], times[k])
  {
    seq(|times|, k requires 0 <= k < |times| => Check(client, times[k], times[k]))
  }

  lemma {:induction false} ClientSeesItsBucket(l: Limiter, client: ClientId, times: seq<real>)
    requires times != []
    ensures var b := BucketOf(l, client, times[0]);
            var r := Run(l, Checks(client, times));
            && Seen(l, Checks(client, times)) == Answers(b, times)
            && client in r.buckets && r.buckets[client] == Final(b, times)
            && r.capacity == l.capacity && r.rate == l.rate
  {
    var front := times[..|times| - 1];
    assert Checks(client, times)[..|times| - 1] == Checks(client, front);
    if front != [] { ClientSeesItsBucket(l, client, front); }
  }

  lemma {:induction false} CallsSplit(l: Limiter, a: seq<Call>, b: seq<Call>)
    ensures Run(l, a + b) == Run(Run(l, a), b)
    ensures Seen(l, a + b) == Seen(l, a) + Seen(Run(l, a), b)
    decreases |b|
  {
    if b == [] {
      assert a + b == a;
    } else {
      var front := b[..|b| - 1];
      assert (a + b)[..|a + b| - 1] == a + front;
      CallsSplit(l, a, front);
    }
  }

  lemma {:induction false} CleanupsSplit(a: seq<Call>, b: seq<Call>)
    ensures WithoutCleanups(a + b) == WithoutCleanups(a) + WithoutCleanups(b)
    decreases |b|
  {
    if b == [] {
      assert a + b == a;
    } else {
      var front := b[..|b| - 1];
      assert (a + b)[..|a + b| - 1] == a + front;
      CleanupsSplit(a, front);
    }
  }

  lemma {:induction false} ChecksStay(client: ClientId, times: seq<real>)
    ensures WithoutCleanups(Checks(client, times)) == Checks(client, times)
  {
    if times != [] {
      var front := times[..|times| - 1];
      assert Checks(client, times)[..|times| - 1] == Checks(client, front);
      ChecksStay(client, front);
    }
  }

  // ------------------------------------------------------------------ the theorem

  /** A pause after which an idle bucket is removed although it is not full. */
  lemma Pause(capacity: real, rate: real, maxIdle: real) returns (d: real)
    requires 0.0 <= rate && Earned(rate, maxIdle) < capacity && 1.0 <= capacity
    ensures maxIdle < d && 0.0 <= d && Earned(rate, d) < capacity
  {
    var m := if maxIdle < 0.0 then 0.0 else maxIdle;
    if rate == 0.0 {
      d := m + 1.0;
    } else {
      var full := TimeToEarn(rate, capacity);
      d := (m + full) / 2.0;
      assert d * rate == (m * rate + full * rate) / 2.0;
      if full <= m { Scale(rate, full, m); }
    }
  }

  /** A bucket created before its first call answers as one created at that call. */
  lemma CreationTimeIsHidden(capacity: real, rate: real, created: real, times: seq<real>)
    requires times != [] && ClockStartsAt(created, times) && 0.0 <= rate
    ensures Answers(Fresh(capacity, rate, times[0]), times) == Answers(Fresh(capacity, rate, created), times)
    ensures Final(Fresh(capacity, rate, times[0]), times) == Final(Fresh(capacity, rate, created), times)
  {
    var b := Fresh(capacity, rate, created);
    Scale(rate, 0.0, times[0] - created);
    UpToDate(b, times[0], times);
  }

  /** One client drains its bucket, pauses, and calls again: a bucket created then gives more. */
  lemma DrainAndReturn(capacity: real, rate: real, maxIdle: real) returns (early: seq<real>, now: real, late: seq<real>)
    requires 0.0 <= rate && Earned(rate, maxIdle) < capacity && 1.0 <= capacity
    ensures early != [] && late != [] && ClockStartsAt(0.0, early) && ClockStartsAt(now, late)
    ensures early[|early| - 1] + maxIdle < now && early[|early| - 1] <= now
    ensures GrantsMore(Answers(Final(Fresh(capacity, rate, 0.0), early), late),
        Answers(Fresh(capacity, rate, now), late))
  {
    early := Drain(capacity, rate);
    var d := Pause(capacity, rate, maxIdle);
    var b := Final(Fresh(capacity, rate, 0.0), early);
    FinalKeepsParameters(Fresh(capacity, rate, 0.0), early);
    now := b.last + d;
    LevelAfterPause(b, d);
    late := Distinguish(b.(tokens := Level(b, now), last := now), Fresh(capacity, rate, now));
    UpToDate(b, now, late);
  }

  lemma LevelAfterPause(b: Bucket, d: real)
    requires 0.0 <= b.rate && 0.0 <= d && Earned(b.rate, d) < b.capacity && 0.0 <= b.tokens < 1.0 <= b.capacity
    requires 0.0 < b.rate ==> b.tokens == 0.0
    ensures 0.0 <= Level(b, b.last + d) < b.capacity
    ensures b.rate == 0.0 ==> Level(b, b.last + d) < 1.0
  {
    assert b.last + d - b.last == d;
    Scale(b.rate, 0.0, d);
  }

  lemma RunIsOrdered(client: ClientId, early: seq<real>, now: real, maxIdle: real, late: seq<real>)
    requires early != [] && ClockStartsAt(0.0, early) && early[|early| - 1] <= now && ClockStartsAt(now, late)
    ensures var calls := Checks(client, early) + [Cleanup(now, maxIdle)] + Checks(client, late);
            Ordered(calls) && Thorough(calls, maxIdle)
  {
    var calls := Checks(client, early) + [Cleanup(now, maxIdle)] + Checks(client, late);
    var times := early + [now] + late;
    assert forall k :: 0 <= k < |calls| ==>
        calls[k].now == times[k] && (calls[k].Check? ==> calls[k].created == times[k]);
    assert Nondecreasing(times);
  }

  lemma OneCall(l: Limiter, c: Call)
    ensures Run(l, [c]) == Apply(l, c) && Seen(l, [c]) == Answer(l, c)
  {
    assert [c][..0] == [];
  }

  lemma SeenAround(l: Limiter, a: seq<Call>, c: Call, z: seq<Call>)
    requires c.Cleanup?
    ensures Seen(l, a + [c] + z) == Seen(l, a) + Seen(Cleaned(Run(l, a), c.now, c.maxIdle), z)
  {
    CallsSplit(l, a, [c]);
    CallsSplit(l, a + [c], z);
    OneCall(Run(l, a), c);
  }

  lemma KeptAround(client: ClientId, early: seq<real>, c: Call, late: seq<real>)
    requires c.Cleanup?
    ensures WithoutCleanups(Checks(client, early) + [c] + Checks(client, late))
        == Checks(client, early) + Checks(client, late)
  {
    var a, z := Checks(client, early), Checks(client, late);
    ChecksStay(client, early);
    ChecksStay(client, late);
    CleanupsSplit(a + [c], z);
    assert (a + [c])[..|a|] == a;
  }

  lemma MoreAfter(x: seq<bool>, u: seq<bool>, v: seq<bool>)
    requires GrantsMore(u, v)
    ensures GrantsMore(x + u, x + v)
  {
    assert (x + u)[..|x + u| - 1] == x + u[..|u| - 1];
    assert (x + v)[..|x + v| - 1] == x + v[..|v| - 1];
  }

  lemma LateAnswers(l: Limiter, client: ClientId, early: seq<real>, now: real, maxIdle: real, late: seq<real>)
    requires late != []
    requires client in l.buckets && Idle(l.buckets[client], now, maxIdle)
    ensures Seen(Cleaned(l, now, maxIdle), Checks(client, late)) == Answers(Fresh(l.capacity, l.rate, late[0]), late)
    ensures Seen(l, Checks(client, late)) == Answers(l.buckets[client], late)
  {
    ClientSeesItsBucket(l, client, late);
    ClientSeesItsBucket(Cleaned(l, now, maxIdle), client, late);
  }

  /** With the cleanup that client's last call is granted, without it that call is refused. */
  lemma CleanupShows(capacity: real, rate: real, maxIdle: real, client: ClientId)
    returns (calls: seq<Call>, times: seq<real>)
    requires 0.0 <= rate && Earned(rate, maxIdle) < capacity && 1.0 <= capacity
    ensures Ordered(calls) && Thorough(calls, maxIdle) && ClockStartsAt(0.0, times)
    ensures WithoutCleanups(calls) == Checks(client, times)
    ensures GrantsMore(Seen(New(capacity, rate), WithoutCleanups(calls)), Seen(New(capacity, rate), calls))
  {
    var l := New(capacity, rate);
    var early, now, late := DrainAndReturn(capacity, rate, maxIdle);
    var a, c, z := Checks(client, early), Cleanup(now, maxIdle), Checks(client, late);
    calls, times := a + [c] + z, early + late;
    RunIsOrdered(client, early, now, maxIdle, late);
    SeenAround(l, a, c, z);
    KeptAround(client, early, c, late);
    assert Checks(client, times) == a + z;
    CallsSplit(l, a, z);
    LateRuns(capacity, rate, client, early, now, maxIdle, late);
    MoreAfter(Seen(l, a), Seen(Run(l, a), z), Seen(Cleaned(Run(l, a), now, maxIdle), z));
  }

  lemma LateRuns(capacity: real, rate: real, client: ClientId, early: seq<real>, now: real, maxIdle: real,
                 late: seq<real>)
    requires 0.0 <= rate && early != [] && late != [] && ClockStartsAt(0.0, early) && ClockStartsAt(now, late)
    requires early[|early| - 1] + maxIdle < now
    requires GrantsMore(Answers(Final(Fresh(capacity, rate, 0.0), early), late),
        Answers(Fresh(capacity, rate, now), late))
    ensures var kept := Run(New(capacity, rate), Checks(client, early));
            GrantsMore(Seen(kept, Checks(client, late)), Seen(Cleaned(kept, now, maxIdle), Checks(client, late)))
  {
    var l := New(capacity, rate);
    CreationTimeIsHidden(capacity, rate, 0.0, early);
    CreationTimeIsHidden(capacity, rate, now, late);
    ClientSeesItsBucket(l, client, early);
    FinalKeepsParameters(Fresh(capacity, rate, 0.0), early);
    LateAnswers(Run(l, Checks(client, early)), client, early, now, maxIdle, late);
  }

  /** Capacity below one: every call is refused, whatever is removed. */
  lemma {:induction false} AlwaysRefused(l: Limiter, calls: seq<Call>)
    requires l.capacity < 1.0 && forall c :: c in l.buckets ==> l.buckets[c].capacity == l.capacity
    ensures var r := Run(l, calls);
            r.capacity == l.capacity && forall c :: c in r.buckets ==> r.buckets[c].capacity == l.capacity
    ensures forall k :: 0 <= k < |Seen(l, calls)| ==> !Seen(l, calls)[k]
    ensures |Seen(l, calls)| == |WithoutCleanups(calls)|
  {
    if calls != [] { AlwaysRefused(l, calls[..|calls| - 1]); }
  }

  lemma {:induction false} OnlyChecksLeft(calls: seq<Call>)
    ensures WithoutCleanups(WithoutCleanups(calls)) == WithoutCleanups(calls)
  {
    if calls != [] {
      var front, c := calls[..|calls| - 1], calls[|calls| - 1];
      OnlyChecksLeft(front);
      var kept := WithoutCleanups(front);
      if c.Check? {
        assert WithoutCleanups(calls) == kept + [c];
        assert (kept + [c])[..|kept|] == kept;
      } else {
        assert WithoutCleanups(calls) == kept;
      }
    }
  }

  /** Removing buckets idle for longer than maxIdle is unobservable exactly if no bucket ever grants, or a
      bucket always fills within maxIdle. */
  lemma CleanupUnobservableExactly(capacity: real, rate: real, maxIdle: real)
    requires 0.0 <= rate
    ensures CleanupUnobservable(capacity, rate, maxIdle) <==> capacity < 1.0 || capacity <= maxIdle * rate
  {
    var l := New(capacity, rate);
    assert Earned(rate, maxIdle) == maxIdle * rate;
    if capacity < 1.0 {
      forall calls | Ordered(calls) && Thorough(calls, maxIdle)
        ensures Seen(l, calls) == Seen(l, WithoutCleanups(calls))
      {
        AlwaysRefused(l, calls);
        AlwaysRefused(l, WithoutCleanups(calls));
        OnlyChecksLeft(calls);
      }
    } else if capacity <= Earned(rate, maxIdle) {
      forall calls | Ordered(calls) && Thorough(calls, maxIdle)
        ensures Seen(l, calls) == Seen(l, WithoutCleanups(calls))
      {
        RunsSimulate(capacity, rate, calls, maxIdle);
      }
    } else {
      var calls, times := CleanupShows(capacity, rate, maxIdle, "client");
    }
  }
}
