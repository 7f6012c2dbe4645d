/** What one client gets from the limiter, over whole runs of checks by everybody and of cleanups. */
module ClientWindows {
  import opened TokenBuckets
  import opened RateLimiting
  import opened CleanupTheorem

  predicate IsCheckOf(c: Call, client: ClientId) {
    c.Check? && c.client == client
  }

  /** The times of this client's checks. */
  function Times(calls: seq<Call>, client: ClientId): (r: seq<real>) {
    if calls == [] then []
    else
      var front, c := calls[..|calls| - 1], calls[|calls| - 1];
      Times(front, client) + (if IsCheckOf(c, client) then [c.now] else [])
  }

  /** The answers this client gets. */
  function AnswersTo(l: Limiter, calls: seq<Call>, client: ClientId): (r: seq<bool>)
    ensures |r| == |Times(calls, client)|
  {
    if calls == [] then []
    else
      var front, c := calls[..|calls| - 1], calls[|calls| - 1];
      AnswersTo(l, front, client) + (if IsCheckOf(c, client) then Answer(Run(l, front), c) else [])
  }

  /** The clock reading with which the client's first check would create a bucket. */
  function FirstCreated(calls: seq<Call>, client: ClientId): (t: real) {
    if calls == [] then 0.0
    else
      var front, c := calls[..|calls| - 1], calls[|calls| - 1];
      if Times(front, client) != [] then FirstCreated(front, client)
      else if IsCheckOf(c, client) then c.created else 0.0
  }

  lemma {:induction false} TimesAreOrdered(calls: seq<Call>, client: ClientId)
    requires Ordered(calls)
    ensures ClockStartsAt(FirstCreated(calls, client), Times(calls, client))
    ensures forall k :: 0 <= k < |Times(calls, client)| ==> Times(calls, client)[k] <= calls[|calls| - 1].now
  {
    if calls != [] {
      var front, c := calls[..|calls| - 1], calls[|calls| - 1];
      TimesAreOrdered(front, client);
      if front != [] { assert calls[|front| - 1] == front[|front| - 1]; }
    }
  }

  /** The one bucket the client would have if none was ever removed. */
  function OwnBucket(capacity: real, rate: real, calls: seq<Call>, client: ClientId): (b: Bucket) {
    Fresh(capacity, rate, FirstCreated(calls, client))
  }

  ghost predicate Kept(capacity: real, rate: real, calls: seq<Call>, client: ClientId) {
    var kept := Run(New(capacity, rate), WithoutCleanups(calls));
    && (client in kept.buckets <==> Times(calls, client) != [])
    && (client in kept.buckets ==>
          kept.buckets[client] == Final(OwnBucket(capacity, rate, calls, client), Times(calls, client)))
  }

  /** A client sees one bucket all along, whatever the others do and whatever is removed in between. */
  lemma {:induction false} ClientSeesOneBucket(capacity: real, rate: real, calls: seq<Call>, maxIdle: real,
                                               client: ClientId)
    requires 0.0 <= capacity <= Earned(rate, maxIdle) && 0.0 <= rate
    requires Ordered(calls) && Thorough(calls, maxIdle)
    ensures Kept(capacity, rate, calls, client)
    ensures AnswersTo(New(capacity, rate), calls, client)
              == Answers(OwnBucket(capacity, rate, calls, client), Times(calls, client))
  {
    if calls != [] {
      var front, c := calls[..|calls| - 1], calls[|calls| - 1];
      ClientSeesOneBucket(capacity, rate, front, maxIdle, client);
      if c.Check? {
        SameAnswerNow(capacity, rate, calls, maxIdle);
        KeptAfterCheck(capacity, rate, calls, client);
        if !IsCheckOf(c, client) { NothingNew(capacity, rate, calls, client); }
      } else {
        NothingNew(capacity, rate, calls, client);
        assert WithoutCleanups(calls) == WithoutCleanups(front);
      }
    }
  }

  lemma NothingNew(capacity: real, rate: real, calls: seq<Call>, client: ClientId)
    requires calls != [] && !IsCheckOf(calls[|calls| - 1], client)
    ensures var front := calls[..|calls| - 1];
            && Times(calls, client) == Times(front, client)
            && AnswersTo(New(capacity, rate), calls, client) == AnswersTo(New(capacity, rate), front, client)
            && (Times(front, client) != [] ==>
                OwnBucket(capacity, rate, calls, client) == OwnBucket(capacity, rate, front, client))
  {
  }

  /** The last check is answered as without cleanups. */
  lemma SameAnswerNow(capacity: real, rate: real, calls: seq<Call>, maxIdle: real)
    requires 0.0 <= capacity <= Earned(rate, maxIdle) && 0.0 <= rate
    requires Ordered(calls) && Thorough(calls, maxIdle) && calls != [] && calls[|calls| - 1].Check?
    ensures var front, c := calls[..|calls| - 1], calls[|calls| - 1];
            Answer(Run(New(capacity, rate), front), c) == Answer(Run(New(capacity, rate), WithoutCleanups(front)), c)
  {
    var front, c := calls[..|calls| - 1], calls[|calls| - 1];
    RunsSimulate(capacity, rate, front, maxIdle);
    var kept, cleaned := Run(New(capacity, rate), WithoutCleanups(front)), Run(New(capacity, rate), front);
    if front == [] {
      assert kept == cleaned;
    } else {
      assert calls[|front| - 1] == front[|front| - 1];
      TimePasses(kept, cleaned, front[|front| - 1].now, c.created);
      CheckSimulates(kept, cleaned, c.client, c.created, c.now);
    }
  }

  lemma KeptAfterCheck(capacity: real, rate: real, calls: seq<Call>, client: ClientId)
    requires calls != [] && calls[|calls| - 1].Check? && Kept(capacity, rate, calls[..|calls| - 1], client)
    ensures Kept(capacity, rate, calls, client)
    ensures var front, c := calls[..|calls| - 1], calls[|calls| - 1];
            IsCheckOf(c, client) ==>
              var b := OwnBucket(capacity, rate, calls, client);
              && Answer(Run(New(capacity, rate), WithoutCleanups(front)), c)
                  == [Grants(Final(b, Times(front, client)), c.now)]
              && (Times(front, client) != [] ==> b == OwnBucket(capacity, rate, front, client))
              && Answers(b, Times(calls, client))
                  == Answers(b, Times(front, client)) + [Grants(Final(b, Times(front, client)), c.now)]
  {
    var front, c := calls[..|calls| - 1], calls[|calls| - 1];
    var l, rest := New(capacity, rate), WithoutCleanups(front);
    var kept := Run(l, rest);
    assert WithoutCleanups(calls) == rest + [c];
    CallsSplit(l, rest, [c]);
    OneCall(kept, c);
    LimiterKeepsParameters(l, rest);
    if IsCheckOf(c, client) {
      OneMore(OwnBucket(capacity, rate, calls, client), Times(front, client), c.now);
    } else {
      NothingNew(capacity, rate, calls, client);
    }
  }

  lemma {:induction false} LimiterKeepsParameters(l: Limiter, calls: seq<Call>)
    ensures Run(l, calls).capacity == l.capacity && Run(l, calls).rate == l.rate
  {
    if calls != [] { LimiterKeepsParameters(l, calls[..|calls| - 1]); }
  }

  // --------------------------------------------------------- the window, exactly

  /** What this client is granted in the window from its check i to its check j keeps the bound. */
  predicate WindowHolds(capacity: real, rate: real, calls: seq<Call>, client: ClientId, i: nat, j: nat)
    requires i <= j < |Times(calls, client)|
  {
    var times := Times(calls, client);
    Count(AnswersTo(New(capacity, rate), calls, client), i, j + 1) as real
        <= capacity + rate * (times[j] - times[i])
  }

  ghost predicate WindowsHold(capacity: real, rate: real, maxIdle: real) {
    forall calls, client, i: nat, j: nat ::
      Ordered(calls) && Thorough(calls, maxIdle) && i <= j < |Times(calls, client)| ==>
        WindowHolds(capacity, rate, calls, client, i, j)
  }

  predicate WindowKept(capacity: real, rate: real, calls: seq<Call>, client: ClientId, i: nat, j: nat)
    requires i <= j < |Times(calls, client)|
  {
    var times := Times(calls, client);
    Count(AnswersTo(New(capacity, rate), calls, client), i, j + 1) as real
      <= Allowance(capacity, rate, times[i], times[j])
  }

  lemma KeptIsHeld(capacity: real, rate: real, calls: seq<Call>, client: ClientId, i: nat, j: nat)
    requires i <= j < |Times(calls, client)|
    ensures WindowKept(capacity, rate, calls, client, i, j) <==> WindowHolds(capacity, rate, calls, client, i, j)
  {
    AllowanceIs(capacity, rate, Times(calls, client)[i], Times(calls, client)[j]);
  }

  lemma ClientWindowBound(capacity: real, rate: real, calls: seq<Call>, maxIdle: real, client: ClientId, i: nat, j: nat)
    requires 0.0 <= capacity && 0.0 <= rate && (capacity < 1.0 || capacity <= maxIdle * rate)
    requires Ordered(calls) && Thorough(calls, maxIdle) && i <= j < |Times(calls, client)|
    ensures WindowHolds(capacity, rate, calls, client, i, j)
  {
    FillsWhileIdle(capacity, rate, maxIdle);
    ClientWindowKept(capacity, rate, calls, maxIdle, client, i, j);
    KeptIsHeld(capacity, rate, calls, client, i, j);
  }

  lemma FillsWhileIdle(capacity: real, rate: real, maxIdle: real)
    ensures capacity <= Earned(rate, maxIdle) <==> capacity <= maxIdle * rate
  {
  }

  lemma ClientWindowKept(capacity: real, rate: real, calls: seq<Call>, maxIdle: real, client: ClientId, i: nat, j: nat)
    requires 0.0 <= capacity && 0.0 <= rate && (capacity < 1.0 || capacity <= Earned(rate, maxIdle))
    requires Ordered(calls) && Thorough(calls, maxIdle) && i <= j < |Times(calls, client)|
    ensures WindowKept(capacity, rate, calls, client, i, j)
  {
    TimesAreOrdered(calls, client);
    var times := Times(calls, client);
    if capacity < 1.0 {
      NeverGranted(New(capacity, rate), calls, client);
      NoneCounted(AnswersTo(New(capacity, rate), calls, client), i, j + 1);
      Scale(rate, 0.0, times[j] - times[i]);
    } else {
      ClientSeesOneBucket(capacity, rate, calls, maxIdle, client);
      WindowWithinAllowance(capacity, rate, FirstCreated(calls, client), times, i, j);
    }
  }

  lemma {:induction false} NeverGranted(l: Limiter, calls: seq<Call>, client: ClientId)
    requires l.capacity < 1.0 && forall c :: c in l.buckets ==> l.buckets[c].capacity == l.capacity
    ensures forall k :: 0 <= k < |AnswersTo(l, calls, client)| ==> !AnswersTo(l, calls, client)[k]
  {
    if calls != [] {
      NeverGranted(l, calls[..|calls| - 1], client);
      AlwaysRefused(l, calls[..|calls| - 1]);
    }
  }

  lemma {:induction false} NoneCounted(answers: seq<bool>, i: nat, j: nat)
    requires i <= j <= |answers| && forall k :: 0 <= k < |answers| ==> !answers[k]
    ensures Count(answers, i, j) == 0
  {
    if i < j { NoneCounted(answers, i, j - 1); }
  }

  lemma {:induction false} CountOfPrefix(a: seq<bool>, b: seq<bool>, i: nat, j: nat)
    requires i <= j <= |a| == |b| && a[..j] == b[..j]
    ensures Count(a, i, j) == Count(b, i, j)
  {
    if i < j {
      assert a[..j][..j - 1] == a[..j - 1] && b[..j][..j - 1] == b[..j - 1];
      assert a[j - 1] == a[..j][j - 1] && b[j - 1] == b[..j][j - 1];
      CountOfPrefix(a, b, i, j - 1);
    }
  }

  lemma {:induction false} OnlyClient(l: Limiter, calls: seq<Call>, client: ClientId, times: seq<real>)
    requires WithoutCleanups(calls) == Checks(client, times)
    ensures Times(calls, client) == times && AnswersTo(l, calls, client) == Seen(l, calls)
  {
    if calls != [] {
      var front, c := calls[..|calls| - 1], calls[|calls| - 1];
      if c.Check? {
        var rest := WithoutCleanups(front);
        assert rest + [c] == Checks(client, times);
        assert rest == Checks(client, times)[..|times| - 1] == Checks(client, times[..|times| - 1]);
        OnlyClient(l, front, client, times[..|times| - 1]);
        assert c == Checks(client, times)[|times| - 1];
      } else {
        assert WithoutCleanups(calls) == WithoutCleanups(front);
        OnlyClient(l, front, client, times);
      }
    }
  }

  /** A grant where a bucket refuses breaks the bound of some window. */
  lemma ExtraGrantBreaks(capacity: real, rate: real, times: seq<real>, more: seq<bool>) returns (i: nat)
    requires times != [] && ClockStartsAt(0.0, times) && 0.0 <= rate
    requires GrantsMore(Answers(Fresh(capacity, rate, 0.0), times), more)
    ensures i < |times| && Count(more, i, |times|) as real > Allowance(capacity, rate, times[i], times[|times| - 1])
  {
    var own, j := Answers(Fresh(capacity, rate, 0.0), times), |times| - 1;
    Scale(rate, 0.0, times[0]);
    GrantedWithinAllowance(capacity, rate, 0.0, times, j);
    i :| i <= j && Count(own, i, j) as real + 1.0 > Allowance(capacity, rate, times[i], times[j]);
    CountOfPrefix(own, more, i, j);
  }

  /** With cleanups, every window of every client keeps the bound of a single bucket exactly if the
      cleanups cannot be observed. */
  lemma WindowsHoldExactly(capacity: real, rate: real, maxIdle: real)
    requires 0.0 <= capacity && 0.0 <= rate
    ensures WindowsHold(capacity, rate, maxIdle) <==> capacity < 1.0 || capacity <= maxIdle * rate
  {
    FillsWhileIdle(capacity, rate, maxIdle);
    if capacity < 1.0 || capacity <= maxIdle * rate {
      forall calls, client, i: nat, j: nat |
        Ordered(calls) && Thorough(calls, maxIdle) && i <= j < |Times(calls, client)|
        ensures WindowHolds(capacity, rate, calls, client, i, j)
      {
        ClientWindowBound(capacity, rate, calls, maxIdle, client, i, j);
      }
    } else {
      BrokenWindow(capacity, rate, maxIdle, "client");
    }
  }

  lemma BrokenWindow(capacity: real, rate: real, maxIdle: real, client: ClientId)
    requires 0.0 <= rate && 1.0 <= capacity && Earned(rate, maxIdle) < capacity
    ensures !WindowsHold(capacity, rate, maxIdle)
  {
    var l := New(capacity, rate);
    var calls, times := CleanupShows(capacity, rate, maxIdle, client);
    OnlyClient(l, calls, client, times);
    assert times != [];
    ClientSeesItsBucket(l, client, times);
    CreationTimeIsHidden(capacity, rate, 0.0, times);
    var i := ExtraGrantBreaks(capacity, rate, times, Seen(l, calls));
    assert !WindowKept(capacity, rate, calls, client, i, |times| - 1);
    KeptIsHeld(capacity, rate, calls, client, i, |times| - 1);
  }

  // ------------------------------------------------------ between the two sections

  predicate Removes(c: Call, b: Bucket) {
    c.Cleanup? && Idle(b, c.now, c.maxIdle)
  }

  /** check looks the bucket up again after it released the lock. Whatever other clients and cleanups do in
      between, the lookup fails exactly if one of those cleanups finds the client's bucket idle. */
  lemma {:induction false} LookupFailsExactly(l: Limiter, client: ClientId, created: real, between: seq<Call>)
    requires forall c :: c in between ==> !IsCheckOf(c, client)
    ensures var r, b := Run(Ensured(l, client, created), between), BucketOf(l, client, created);
            && (client !in r.buckets <==> exists c :: c in between && Removes(c, b))
            && (client in r.buckets ==> r.buckets[client] == b)
  {
    if between != [] {
      var front, last := between[..|between| - 1], between[|between| - 1];
      var b := BucketOf(l, client, created);
      LookupFailsExactly(l, client, created, front);
      assert between == front + [last];
      var before := Run(Ensured(l, client, created), front);
      var r := Run(Ensured(l, client, created), between);
      assert r == Apply(before, last);
      assert last in between && !IsCheckOf(last, client);
      if client !in before.buckets {
        var c :| c in front && Removes(c, b);
        assert c in between;
        assert client !in r.buckets;
      } else if Removes(last, b) {
        assert client !in r.buckets;
      } else {
        assert forall c :: c in front ==> !Removes(c, b);
        assert client in r.buckets && r.buckets[client] == b;
      }
    }
  }

  /** It happens under the defaults: a client comes back after an hour and a second, and the hourly cleanup
      runs between the lock and the lookup of its check. */
  lemma LookupFails(client: ClientId)
    ensures Ordered([Check(client, 0.0, 0.0), Cleanup(3601.0, 3600.0)])
    ensures var l := Run(New(60.0, 1.0), [Check(client, 0.0, 0.0)]);
            client !in Run(Ensured(l, client, 3601.0), [Cleanup(3601.0, 3600.0)]).buckets
  {
    var cleanup := Cleanup(3601.0, 3600.0);
    var l := Run(New(60.0, 1.0), [Check(client, 0.0, 0.0)]);
    OneCall(New(60.0, 1.0), Check(client, 0.0, 0.0));
    LookupFailsExactly(l, client, 3601.0, [cleanup]);
    assert BucketOf(l, client, 3601.0).last == 0.0;
    assert cleanup in [cleanup] && Removes(cleanup, BucketOf(l, client, 3601.0));
  }
}
