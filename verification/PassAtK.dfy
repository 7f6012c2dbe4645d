/** The pass@k estimator of the evaluation harness, in exact arithmetic. */
module PassAtK {
  import opened FiniteSets
  import opened Wrappers

  type Sample = nat

  datatype EvalError = KExceedsN | NegativeComb

  /** Binomial coefficients by Pascal's rule. */
  function Comb(n: nat, k: nat): (r: nat)
    ensures k <= n <==> r > 0
  {
    if k == 0 then 1 else if n == 0 then 0 else Comb(n - 1, k - 1) + Comb(n - 1, k)
  }

  /** math.comb, which refuses negative arguments. */
  function MathComb(n: int, k: int): (r: Result<nat, EvalError>) {
    if n < 0 || k < 0 then Failure(NegativeComb) else Success(Comb(n, k))
  }

  /** pass_at_k */
  function Estimate(n: int, c: int, k: int): (r: Result<real, EvalError>)
    ensures r.Failure? <==> k > n || (k < 0 && c != 0 && c < n)
    ensures r == Failure(KExceedsN) <==> k > n
  {
    if k > n then Failure(KExceedsN)
    else if c == 0 then Success(0.0)
    else if c >= n then Success(1.0)
    else match MathComb(n, k)
      case Failure(e) => Failure(e)
      case Success(denom) =>
        if denom == 0 then Success(0.0)
        else match MathComb(n - c, k)
          case Failure(e) => Failure(e)
          case Success(misses) => Success(1.0 - misses as real / denom as real)
  }

  // ------------------------------------------------------------------- subsets

  /** The k-element subsets of u. */
  ghost function Draws(u: set<Sample>, k: nat): (r: set<set<Sample>>) {
    set s: set<Sample> | s <= u && |s| == k
  }

  ghost function With(draws: set<set<Sample>>, x: Sample): (r: set<set<Sample>>) {
    set s | s in draws :: s + {x}
  }

  lemma {:induction false} WithIsOneToOne(draws: set<set<Sample>>, x: Sample)
    requires forall s :: s in draws ==> x !in s
    ensures |With(draws, x)| == |draws|
    decreases |draws|
  {
    if draws != {} {
      var d :| d in draws;
      var rest := draws - {d};
      WithIsOneToOne(rest, x);
      assert With(draws, x) == With(rest, x) + {d + {x}};
      assert d + {x} !in With(rest, x) by {
        forall s | s in rest ensures s + {x} != d + {x} {
          assert s == (s + {x}) - {x} && d == (d + {x}) - {x};
        }
      }
    }
  }

  lemma DrawsSplit(u: set<Sample>, x: Sample, k: nat)
    requires x in u && k > 0
    ensures Draws(u, k) == Draws(u - {x}, k) + With(Draws(u - {x}, k - 1), x)
    ensures Draws(u - {x}, k) !! With(Draws(u - {x}, k - 1), x)
  {
    forall s | s in Draws(u, k) ensures s in Draws(u - {x}, k) + With(Draws(u - {x}, k - 1), x) {
      if x in s {
        var t := s - {x};
        assert t in Draws(u - {x}, k - 1) && s == t + {x};
      }
    }
  }

  lemma EmptyDraw(u: set<Sample>)
    ensures Draws(u, 0) == {{}}
  {
    forall s: set<Sample> | s in Draws(u, 0) ensures s == {} {
    }
    assert {} in Draws(u, 0);
  }

  lemma DrawsAdd(u: set<Sample>, x: Sample, k: nat)
    requires x in u && k > 0
    ensures |Draws(u, k)| == |Draws(u - {x}, k)| + |Draws(u - {x}, k - 1)|
  {
    DrawsSplit(u, x, k);
    WithIsOneToOne(Draws(u - {x}, k - 1), x);
  }

  /** The binomial coefficient counts the draws. */
  lemma {:induction false} CombCounts(u: set<Sample>, k: nat)
    ensures |Draws(u, k)| == Comb(|u|, k)
    decreases |u|, k
  {
    if k == 0 {
      EmptyDraw(u);
    } else if u == {} {
      NoDraw(k);
    } else {
      var x :| x in u;
      CombCounts(u - {x}, k);
      CombCounts(u - {x}, k - 1);
      DrawsAdd(u, x, k);
    }
  }

  lemma NoDraw(k: nat)
    requires k > 0
    ensures Draws({}, k) == {}
  {
    assert forall s: set<Sample> :: s <= {} ==> |s| == 0;
  }

  /** The draws with at least one good element. */
  ghost function Hits(u: set<Sample>, good: set<Sample>, k: nat): (r: set<set<Sample>>) {
    set s | s in Draws(u, k) && s * good != {}
  }

  lemma HitsAndMisses(u: set<Sample>, good: set<Sample>, k: nat)
    requires good <= u
    ensures |good| <= |u| && |Hits(u, good, k)| == Comb(|u|, k) - Comb(|u| - |good|, k)
  {
    SubsetSize(good, u);
    CombCounts(u, k);
    CombCounts(u - good, k);
    assert Draws(u, k) == Hits(u, good, k) + Draws(u - good, k) by {
      forall s | s in Draws(u, k) ensures s in Hits(u, good, k) + Draws(u - good, k) {
        if s * good == {} { assert s <= u - good; }
      }
    }
    assert Hits(u, good, k) !! Draws(u - good, k);
    assert |u - good| == |u| - |good|;
  }

  /** The probability that k samples drawn from u without replacement hit a good one. */
  ghost function HitRate(u: set<Sample>, good: set<Sample>, k: nat): (r: real)
    requires k <= |u|
  {
    CombCounts(u, k);
    |Hits(u, good, k)| as real / |Draws(u, k)| as real
  }

  /** The estimate is the exact probability, except for k = 0 with every sample good, where the second
      shortcut returns 1 although the empty draw hits nothing. */
  lemma EstimateIsExact(u: set<Sample>, good: set<Sample>, k: nat)
    requires good <= u && k <= |u|
    ensures Estimate(|u|, |good|, k) == Success(HitRate(u, good, k)) <==> (k >= 1 || good == {} || |good| < |u|)
  {
    CombCounts(u, k);
    HitsAndMisses(u, good, k);
    SubsetSize(good, u);
    if good == {} {
      Nothing(Comb(|u|, k));
    } else if |good| == |u| {
      Everything(Comb(|u|, k));
    } else {
      Quotient(Comb(|u|, k), Comb(|u| - |good|, k));
    }
  }

  lemma Nothing(all: nat)
    requires all > 0
    ensures 0 as real / all as real == 0.0
  {
  }

  lemma Everything(all: nat)
    requires all > 0
    ensures all as real / all as real == 1.0
  {
  }

  lemma Quotient(all: nat, misses: nat)
    requires misses <= all && all > 0
    ensures (all - misses) as real / all as real == 1.0 - misses as real / all as real
  {
    var a, m := all as real, misses as real;
    assert (all - misses) as real == a - m;
    assert (a - m) / a == a / a - m / a;
  }

  /** The failing input: one sample, good, and no draw. */
  lemma NothingDrawnStillPasses()
    ensures Estimate(1, 1, 0) == Success(1.0) && HitRate({0}, {0}, 0) == 0.0
  {
    HitsAndMisses({0}, {0}, 0);
    CombCounts({0}, 0);
  }

  // ------------------------------------------------------------ range and order

  lemma {:induction false} CombGrows(m: nat, n: nat, k: nat)
    requires m <= n
    ensures Comb(m, k) <= Comb(n, k)
    decreases n
  {
    if m < n && k > 0 { CombGrows(m, n - 1, k); }
  }

  lemma {:induction false} Absorb(n: nat, k: nat)
    requires k <= n
    ensures (k + 1) * Comb(n, k + 1) == (n - k) * Comb(n, k)
    decreases n
  {
    if k < n {
      Absorb(n - 1, k);
      if k > 0 {
        Absorb(n - 1, k - 1);
        AbsorbStep(n, k, Comb(n - 1, k - 1), Comb(n - 1, k), Comb(n - 1, k + 1));
      }
    }
  }

  lemma AbsorbStep(n: int, k: int, a: int, b: int, c: int)
    requires k * b == (n - k) * a && (k + 1) * c == (n - 1 - k) * b
    ensures (k + 1) * (b + c) == (n - k) * (a + b)
  {
    assert (k + 1) * (b + c) == k * b + b + (k + 1) * c;
    assert (n - 1 - k) * b == (n - k) * b - b;
    assert (n - k) * (a + b) == (n - k) * a + (n - k) * b;
  }

  lemma Fractions(a: nat, b: nat, c: nat, d: nat)
    requires b > 0 && d > 0
    ensures a as real / b as real <= c as real / d as real <==> a * d <= c * b
  {
    var x, y := a as real / b as real, c as real / d as real;
    assert x * b as real == a as real && y * d as real == c as real;
    assert (a * d) as real == a as real * d as real && (c * b) as real == c as real * b as real;
    assert a as real * d as real == x * (b as real * d as real);
    assert c as real * b as real == y * (b as real * d as real);
    var p := b as real * d as real;
    assert p > 0.0;
    if x <= y { assert x * p <= y * p; } else { assert x * p > y * p; }
  }

  /** The estimate is a probability. */
  lemma EstimateInRange(n: nat, c: nat, k: nat)
    requires k <= n
    ensures Estimate(n, c, k).Success? && 0.0 <= Estimate(n, c, k).value <= 1.0
  {
    if 0 < c < n {
      CombGrows(n - c, n, k);
      Fractions(Comb(n - c, k), Comb(n, k), 1, 1);
      Fractions(0, 1, Comb(n - c, k), Comb(n, k));
    }
  }

  /** More correct samples never lower it. */
  lemma EstimateGrowsInC(n: nat, c: nat, k: nat)
    requires k <= n
    ensures Estimate(n, c, k).value <= Estimate(n, c + 1, k).value
  {
    EstimateInRange(n, c, k);
    EstimateInRange(n, c + 1, k);
    if 0 < c && c + 1 < n {
      var low, high, all := Comb(n - c - 1, k), Comb(n - c, k), Comb(n, k);
      CombGrows(n - c - 1, n - c, k);
      Fractions(low, all, high, all);
      assert low * all <= high * all;
    }
  }

  /** Nor do more draws. */
  lemma EstimateGrowsInK(n: nat, c: nat, k: nat)
    requires k < n
    ensures Estimate(n, c, k).value <= Estimate(n, c, k + 1).value
  {
    if 0 < c < n {
      var m := n - c;
      MissesShrink(n, m, k);
      Fractions(Comb(m, k + 1), Comb(n, k + 1), Comb(m, k), Comb(n, k));
    }
  }

  lemma MissesShrink(n: nat, m: nat, k: nat)
    requires m <= n && k < n
    ensures Comb(m, k + 1) * Comb(n, k) <= Comb(m, k) * Comb(n, k + 1)
  {
    var a, b, p, q := Comb(m, k), Comb(m, k + 1), Comb(n, k), Comb(n, k + 1);
    if k < m {
      Absorb(m, k);
      Absorb(n, k);
      Cross(k + 1, m - k, n - k, a, b, p, q);
    } else {
      assert b == 0;
    }
  }

  lemma Cross(s: nat, x: nat, y: nat, a: nat, b: nat, p: nat, q: nat)
    requires s > 0 && x <= y && s * b == x * a && s * q == y * p
    ensures b * p <= a * q
  {
    Across(s, b, x, a, p);
    Across(s, q, y, p, a);
    Compare(s, x, y, b * p, q * a, a * p);
  }

  lemma Across(s: nat, b: nat, x: nat, a: nat, p: nat)
    requires s * b == x * a
    ensures s * (b * p) == x * (a * p)
  {
    assert s * (b * p) == (s * b) * p;
    assert x * (a * p) == (x * a) * p;
  }

  lemma Compare(s: nat, x: nat, y: nat, u: nat, v: nat, w: nat)
    requires s > 0 && x <= y && s * u == x * w && s * v == y * w
    ensures u <= v
  {
    if u > v { Scale(s, v, u); }
    if x < y && w > 0 { Scale(w, x, y); }
  }

  lemma Scale(s: nat, x: nat, y: nat)
    requires s > 0 && x < y
    ensures s * x < s * y
  {
  }
}
