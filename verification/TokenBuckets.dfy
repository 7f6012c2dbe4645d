/** The token bucket that three rate limiters of the system share, with time and tokens as reals. */
module TokenBuckets {

  datatype Bucket = Bucket(capacity: real, rate: real, tokens: real, last: real)

  function Fresh(capacity: real, rate: real, now: real): (b: Bucket) {
    Bucket(capacity, rate, capacity, now)
  }

  /** The tokens earned in this time. */
  function Earned(rate: real, elapsed: real): (tokens: real) {
    elapsed * rate
  }

  /** The tokens an acquire at `now` finds. */
  function Level(b: Bucket, now: real): (tokens: real) {
    var refilled := b.tokens + Earned(b.rate, now - b.last);
    if refilled < b.capacity then refilled else b.capacity
  }

  predicate Grants(b: Bucket, now: real) {
    Level(b, now) >= 1.0
  }

  function After(b: Bucket, now: real): (s: Bucket) {
    b.(tokens := Level(b, now) - (if Grants(b, now) then 1.0 else 0.0), last := now)
  }

  function Final(b: Bucket, times: seq<real>): (s: Bucket) {
    if times == [] then b else After(Final(b, times[..|times| - 1]), times[|times| - 1])
  }

  /** The answers to acquires at these times. */
  function Answers(b: Bucket, times: seq<real>): (r: seq<bool>)
    ensures |r| == |times|
  {
    if times == [] then []
    else
      var front := times[..|times| - 1];
      Answers(b, front) + [Grants(Final(b, front), times[|times| - 1])]
  }

  predicate Nondecreasing(times: seq<real>) {
    forall i, j :: 0 <= i <= j < |times| ==> times[i] <= times[j]
  }

  lemma {:induction false} AnswersOfPrefix(b: Bucket, times: seq<real>, j: nat)
    requires j <= |times|
    ensures Answers(b, times)[..j] == Answers(b, times[..j])
    ensures j < |times| ==> Answers(b, times)[j] == Grants(Final(b, times[..j]), times[j])
    ensures j < |times| ==> Final(b, times[..j + 1]) == After(Final(b, times[..j]), times[j])
    decreases |times|
  {
    if j < |times| {
      assert times[..j + 1][..j] == times[..j];
      var front := times[..|times| - 1];
      if j == |times| - 1 {
        assert times[..j + 1] == times;
      } else {
        AnswersOfPrefix(b, front, j);
        assert front[..j] == times[..j];
      }
    } else {
      assert times[..j] == times;
    }
  }

  /** A run splits at any call. */
  lemma {:induction false} RunSplits(b: Bucket, s: seq<real>, t: seq<real>)
    ensures Final(b, s + t) == Final(Final(b, s), t)
    ensures Answers(b, s + t) == Answers(b, s) + Answers(Final(b, s), t)
    decreases |t|
  {
    if t == [] {
      assert s + t == s;
    } else {
      var front, now := t[..|t| - 1], t[|t| - 1];
      RunSplits(b, s, front);
      assert s + t == (s + front) + [now] && t == front + [now];
      SplitOneMore(b, s, front, now, s + t, t);
    }
  }

  lemma SplitOneMore(b: Bucket, s: seq<real>, front: seq<real>, now: real, whole: seq<real>, t: seq<real>)
    requires whole == (s + front) + [now] && t == front + [now]
    requires Final(b, s + front) == Final(Final(b, s), front)
    requires Answers(b, s + front) == Answers(b, s) + Answers(Final(b, s), front)
    ensures Final(b, whole) == Final(Final(b, s), t)
    ensures Answers(b, whole) == Answers(b, s) + Answers(Final(b, s), t)
  {
    OneMore(b, s + front, now);
    OneMore(Final(b, s), front, now);
  }

  lemma OneMore(b: Bucket, s: seq<real>, now: real)
    ensures Final(b, s + [now]) == After(Final(b, s), now)
    ensures Answers(b, s + [now]) == Answers(b, s) + [Grants(Final(b, s), now)]
  {
    assert (s + [now])[..|s|] == s;
  }

  lemma {:induction false} FinalKeepsParameters(b: Bucket, times: seq<real>)
    ensures Final(b, times).capacity == b.capacity && Final(b, times).rate == b.rate
    ensures times != [] ==> Final(b, times).last == times[|times| - 1]
  {
    if times != [] { FinalKeepsParameters(b, times[..|times| - 1]); }
  }

  // ------------------------------------------------------- the window bound

  function Count(answers: seq<bool>, i: nat, j: nat): (n: nat)
    requires i <= j <= |answers|
  {
    if i == j then 0 else Count(answers, i, j - 1) + (if answers[j - 1] then 1 else 0)
  }

  /** The tokens the calls find when time is counted in tokens: credits[k] is the rate times the time of
      call k. Every statement about these is linear. */
  function Found(capacity: real, start: real, credits: seq<real>, j: nat): (tokens: real)
    requires j < |credits|
  {
    var refilled := if j == 0 then capacity + (credits[0] - start)
                    else Left(Found(capacity, start, credits, j - 1)) + (credits[j] - credits[j - 1]);
    if refilled < capacity then refilled else capacity
  }

  function Left(tokens: real): (r: real) {
    if tokens >= 1.0 then tokens - 1.0 else tokens
  }

  predicate AnswersMatch(capacity: real, start: real, credits: seq<real>, answers: seq<bool>) {
    && |answers| == |credits|
    && forall k :: 0 <= k < |credits| ==> answers[k] == (Found(capacity, start, credits, k) >= 1.0)
  }

  /** What the window from call i up to call j still allows when call j comes. */
  function Room(capacity: real, credits: seq<real>, answers: seq<bool>, i: nat, j: nat): (r: real)
    requires i <= j < |credits| == |answers|
  {
    capacity + (credits[j] - credits[i]) - Count(answers, i, j) as real
  }

  /** The tokens a call finds are exactly the room of the tightest window that ends at it. */
  lemma {:induction false} FoundIsTightestRoom(capacity: real, start: real, credits: seq<real>, answers: seq<bool>,
                                               j: nat)
      returns (tightest: nat)
    requires j < |credits| && start <= credits[0] && AnswersMatch(capacity, start, credits, answers)
    ensures forall i: nat :: i <= j ==> Found(capacity, start, credits, j) <= Room(capacity, credits, answers, i, j)
    ensures tightest <= j && Found(capacity, start, credits, j) == Room(capacity, credits, answers, tightest, j)
  {
    tightest := j;
    if j > 0 {
      var before := FoundIsTightestRoom(capacity, start, credits, answers, j - 1);
      assert Count(answers, before, j) == Count(answers, before, j - 1) + (if answers[j - 1] then 1 else 0);
      forall i: nat | i <= j
        ensures Found(capacity, start, credits, j) <= Room(capacity, credits, answers, i, j)
      {
        if i < j {
          assert Found(capacity, start, credits, j - 1) <= Room(capacity, credits, answers, i, j - 1);
        }
      }
      if Found(capacity, start, credits, j) < capacity { tightest := before; }
    }
  }

  function Credits(rate: real, times: seq<real>): (r: seq<real>)
    ensures |r| == |times|
    ensures forall k :: 0 <= k < |r| ==> r[k] == Earned(rate, times[k])
  {
    seq(|times|, k requires 0 <= k < |times| => Earned(rate, times[k]))
  }

  lemma Elapsed(rate: real, from: real, to: real)
    ensures Earned(rate, to - from) == Earned(rate, to) - Earned(rate, from)
  {
  }

  /** The bucket depends on rate and clock only through the credits. */
  lemma {:induction false} LevelIsFound(capacity: real, rate: real, created: real, times: seq<real>, j: nat)
    requires j < |times|
    ensures Level(Final(Fresh(capacity, rate, created), times[..j]), times[j])
              == Found(capacity, Earned(rate, created), Credits(rate, times), j)
  {
    var b := Fresh(capacity, rate, created);
    FinalKeepsParameters(b, times[..j]);
    if j == 0 {
      Elapsed(rate, created, times[0]);
    } else {
      LevelIsFound(capacity, rate, created, times, j - 1);
      FinalKeepsParameters(b, times[..j - 1]);
      AnswersOfPrefix(b, times, j - 1);
      Elapsed(rate, times[j - 1], times[j]);
    }
  }

  lemma AnswersMatchCredits(capacity: real, rate: real, created: real, times: seq<real>)
    ensures AnswersMatch(capacity, Earned(rate, created), Credits(rate, times),
        Answers(Fresh(capacity, rate, created), times))
  {
    forall k | 0 <= k < |times|
      ensures Answers(Fresh(capacity, rate, created), times)[k]
          == (Found(capacity, Earned(rate, created), Credits(rate, times), k) >= 1.0)
    {
      LevelIsFound(capacity, rate, created, times, k);
      AnswersOfPrefix(Fresh(capacity, rate, created), times, k);
    }
  }

  /** The most calls a window of this length may grant. */
  function Allowance(capacity: real, rate: real, from: real, to: real): (r: real) {
    capacity + Earned(rate, to - from)
  }

  lemma RoomIsAllowance(capacity: real, rate: real, times: seq<real>, answers: seq<bool>, i: nat, j: nat)
    requires i <= j < |times| == |answers|
    ensures Room(capacity, Credits(rate, times), answers, i, j)
              == Allowance(capacity, rate, times[i], times[j]) - Count(answers, i, j) as real
  {
    Elapsed(rate, times[i], times[j]);
  }

  lemma AllowanceIs(capacity: real, rate: real, from: real, to: real)
    ensures Allowance(capacity, rate, from, to) == capacity + rate * (to - from)
  {
  }

  lemma GrantedWithinAllowance(capacity: real, rate: real, created: real, times: seq<real>, j: nat)
    requires j < |times| && Earned(rate, created) <= Earned(rate, times[0])
    ensures Answers(Fresh(capacity, rate, created), times)[j] <==>
            forall i: nat :: i <= j ==>
              Count(Answers(Fresh(capacity, rate, created), times), i, j) as real + 1.0
                  <= Allowance(capacity, rate, times[i], times[j])
  {
    var answers := Answers(Fresh(capacity, rate, created), times);
    var credits := Credits(rate, times);
    AnswersMatchCredits(capacity, rate, created, times);
    var tightest := FoundIsTightestRoom(capacity, Earned(rate, created), credits, answers, j);
    RoomIsAllowance(capacity, rate, times, answers, tightest, j);
    if answers[j] {
      forall i: nat | i <= j
        ensures Count(answers, i, j) as real + 1.0 <= Allowance(capacity, rate, times[i], times[j])
      {
        RoomIsAllowance(capacity, rate, times, answers, i, j);
        assert Found(capacity, Earned(rate, created), credits, j) <= Room(capacity, credits, answers, i, j);
      }
    }
  }

  /** A call is granted exactly if, with it, every window that ends at it stays within
      capacity + rate * length grants: the bucket refuses only what the bound forbids. Neither clock nor
      rate nor capacity is restricted beyond the first refill not being negative. */
  lemma GrantedExactly(capacity: real, rate: real, created: real, times: seq<real>, j: nat)
    requires j < |times| && created * rate <= times[0] * rate
    ensures Answers(Fresh(capacity, rate, created), times)[j] <==>
            forall i: nat :: i <= j ==>
              Count(Answers(Fresh(capacity, rate, created), times), i, j) as real + 1.0
                <= capacity + rate * (times[j] - times[i])
  {
    GrantedWithinAllowance(capacity, rate, created, times, j);
    forall i: nat | i <= j
      ensures Allowance(capacity, rate, times[i], times[j]) == capacity + rate * (times[j] - times[i])
    {
      AllowanceIs(capacity, rate, times[i], times[j]);
    }
  }

  predicate ClockStartsAt(created: real, times: seq<real>) {
    Nondecreasing(times) && (times != [] ==> created <= times[0])
  }

  lemma Scale(rate: real, x: real, y: real)
    requires 0.0 <= rate && x <= y
    ensures Earned(rate, x) <= Earned(rate, y) && Earned(rate, 0.0) == 0.0
  {
  }

  lemma {:induction false} WindowWithinAllowance(capacity: real, rate: real, created: real, times: seq<real>,
                                                 i: nat, j: nat)
    requires 0.0 <= capacity && 0.0 <= rate && ClockStartsAt(created, times)
    requires i <= j < |times|
    ensures Count(Answers(Fresh(capacity, rate, created), times), i, j + 1) as real
        <= Allowance(capacity, rate, times[i], times[j])
    decreases j
  {
    var answers := Answers(Fresh(capacity, rate, created), times);
    Scale(rate, created, times[0]);
    GrantedWithinAllowance(capacity, rate, created, times, j);
    Scale(rate, 0.0, times[j] - times[i]);
    if answers[j] {
      assert Count(answers, i, j) as real + 1.0 <= Allowance(capacity, rate, times[i], times[j]);
    } else if i < j {
      WindowWithinAllowance(capacity, rate, created, times, i, j - 1);
      Scale(rate, times[j - 1] - times[i], times[j] - times[i]);
    }
  }

  /** In every window of every run whose clock does not run back, at most capacity + rate * length calls
      are granted. */
  lemma WindowBound(capacity: real, rate: real, created: real, times: seq<real>, i: nat, j: nat)
    requires 0.0 <= capacity && 0.0 <= rate && ClockStartsAt(created, times)
    requires i <= j < |times|
    ensures Count(Answers(Fresh(capacity, rate, created), times), i, j + 1) as real
              <= capacity + rate * (times[j] - times[i])
  {
    WindowWithinAllowance(capacity, rate, created, times, i, j);
    AllowanceIs(capacity, rate, times[i], times[j]);
  }

  lemma TokensAfter(b: Bucket, now: real)
    requires 0.0 <= b.tokens <= b.capacity && 0.0 <= b.rate && b.last <= now
    ensures 0.0 <= After(b, now).tokens <= b.capacity
  {
    Scale(b.rate, 0.0, now - b.last);
  }

  /** Tokens never leave [0, capacity]. */
  lemma {:induction false} TokensStayInRange(b: Bucket, times: seq<real>)
    requires 0.0 <= b.tokens <= b.capacity && 0.0 <= b.rate && ClockStartsAt(b.last, times)
    ensures 0.0 <= Final(b, times).tokens <= b.capacity
  {
    if times != [] {
      var front := times[..|times| - 1];
      TokensStayInRange(b, front);
      FinalKeepsParameters(b, front);
      TokensAfter(Final(b, front), times[|times| - 1]);
    }
  }

  // ----------------------------------------------------------- the three objects

  /** An acquire written out: the seconds since the last one earn `rate` tokens each, up to the capacity, and
      the call is granted exactly if a whole token is there, which it takes. */
  predicate Refills(b: Bucket, now: real, allowed: bool, r: Bucket) {
    Takes(b, b.rate * (now - b.last), now, allowed, r)
  }

  predicate Takes(b: Bucket, earned: real, now: real, allowed: bool, r: Bucket) {
    var level := if b.tokens + earned < b.capacity then b.tokens + earned else b.capacity;
    && (allowed <==> level >= 1.0)
    && r == Bucket(b.capacity, b.rate, level - (if allowed then 1.0 else 0.0), now)
  }

  lemma EarnedIs(rate: real, elapsed: real)
    ensures Earned(rate, elapsed) == rate * elapsed
  {
  }

  lemma StepTakes(b: Bucket, now: real, earned: real)
    requires earned == Earned(b.rate, now - b.last)
    ensures Takes(b, earned, now, Grants(b, now), After(b, now))
  {
  }

  lemma StepRefills(b: Bucket, now: real)
    ensures Refills(b, now, Grants(b, now), After(b, now))
  {
    EarnedIs(b.rate, now - b.last);
    StepTakes(b, now, b.rate * (now - b.last));
  }

  /** TokenBucket of the Python remote API. */
  class TokenBucket {
    var capacity: real
    var refillRate: real
    var tokens: real
    var lastRefill: real

    function View(): (b: Bucket)
      reads this
    {
      Bucket(capacity, refillRate, tokens, lastRefill)
    }

    constructor (capacity: real, refillRate: real, now: real)
      ensures View() == Fresh(capacity, refillRate, now)
    {
      this.capacity, this.refillRate, tokens, lastRefill := capacity, refillRate, capacity, now;
    }

    method Acquire(now: real) returns (allowed: bool)
      modifies this
      ensures allowed == Grants(old(View()), now) && View() == After(old(View()), now)
      ensures Refills(old(View()), now, allowed, View())
    {
      StepRefills(View(), now);
      var elapsed := now - lastRefill;
      var refilled := tokens + Earned(refillRate, elapsed);
      tokens := if refilled < capacity then refilled else capacity;
      lastRefill := now;
      if tokens >= 1.0 {
        tokens := tokens - 1.0;
        return true;
      }
      return false;
    }
  }

  /** _RateLimiter of the run service; the clock reading is stored before the refill. */
  class ServiceRateLimiter {
    const capacity: real
    const rate: real
    var tokens: real
    var last: real

    function View(): (b: Bucket)
      reads this
    {
      Bucket(capacity, rate, tokens, last)
    }

    constructor (capacity: int, rate: real, now: real)
      ensures View() == Fresh(capacity as real, rate, now)
    {
      this.capacity, this.rate, tokens, last := capacity as real, rate, capacity as real, now;
    }

    method Acquire(now: real) returns (allowed: bool)
      modifies this
      ensures allowed == Grants(old(View()), now) && View() == After(old(View()), now)
      ensures Refills(old(View()), now, allowed, View())
    {
      StepRefills(View(), now);
      var elapsed := now - last;
      last := now;
      var refilled := tokens + Earned(rate, elapsed);
      tokens := if refilled < capacity then refilled else capacity;
      if tokens >= 1.0 {
        tokens := tokens - 1.0;
        return true;
      }
      return false;
    }
  }

  /** RateLimiter of the Rust runner: capacity and rate are the same number. */
  class RunnerRateLimiter {
    var tokens: real
    var maxTokens: real
    var refillRate: real
    var lastRefill: real

    function View(): (b: Bucket)
      reads this
    {
      Bucket(maxTokens, refillRate, tokens, lastRefill)
    }

    constructor (rps: nat, now: real)
      ensures View() == Fresh(rps as real, rps as real, now)
    {
      tokens, maxTokens, refillRate, lastRefill := rps as real, rps as real, rps as real, now;
    }

    method TryAcquire(now: real) returns (allowed: bool)
      modifies this
      ensures allowed == Grants(old(View()), now) && View() == After(old(View()), now)
      ensures Refills(old(View()), now, allowed, View())
    {
      StepRefills(View(), now);
      var elapsed := now - lastRefill;
      var refilled := tokens + Earned(refillRate, elapsed);
      tokens := if refilled < maxTokens then refilled else maxTokens;
      lastRefill := now;
      if tokens >= 1.0 {
        tokens := tokens - 1.0;
        return true;
      } else {
        return false;
      }
    }
  }
}
