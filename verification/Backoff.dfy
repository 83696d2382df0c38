/** `utils/backoff.ts`: a retry loop with capped geometric delays, over exact reals. */
module Backoff {
  function Pow(factor: real, n: nat): real {
    if n == 0 then 1.0 else factor * Pow(factor, n - 1)
  }

  /** `Math.round` rounds halves up. */
  function Round(x: real): int {
    (x + 0.5).Floor
  }

  function Min(x: real, y: real): real {
    if x <= y then x else y
  }

  /** What is waited for a raw delay. */
  function Capped(max: real, raw: real): real {
    Min(max, Round(raw) as real)
  }

  datatype Opts = Opts(retries: int, base: real, factor: real, max: real)

  const DEFAULTS := Opts(5, 200.0, 1.8, 10000.0)

  /** The raw delay after each failure, counted from 0: the base times a power of the factor. */
  function Raw(o: Opts): nat -> real {
    (k: nat) => o.base * Pow(o.factor, k)
  }

  /** The wait after the `attempt`-th failure, counted from 1. */
  function Delay(o: Opts, attempt: nat): real
    requires 0 < attempt
  {
    Capped(o.max, Raw(o)(attempt - 1))
  }

  function Waits(max: real, raw: nat -> real, n: nat): seq<real> {
    seq(n, i requires 0 <= i < n => Capped(max, raw(i)))
  }

  function Delays(o: Opts, n: nat): seq<real> {
    Waits(o.max, Raw(o), n)
  }

  function Sum(delays: seq<real>): real {
    if delays == [] then 0.0 else Sum(delays[..|delays| - 1]) + delays[|delays| - 1]
  }

  /** The first call that succeeds among the first `n`, or `n`. */
  function FirstSuccess(fails: nat -> bool, n: nat): (k: nat)
    ensures k <= n && (forall i: nat :: i < k ==> fails(i)) && (k < n ==> !fails(k))
  {
    if n == 0 then 0
    else
      var k := FirstSuccess(fails, n - 1);
      if k < n - 1 || !fails(n - 1) then k else n
  }

  lemma FirstIs(fails: nat -> bool, n: nat, k: nat)
    requires k <= n && (forall i: nat :: i < k ==> fails(i)) && (k < n ==> !fails(k))
    ensures FirstSuccess(fails, n) == k
  {
    assert FirstSuccess(fails, n) < n ==> !fails(FirstSuccess(fails, n));
    assert k < n ==> !fails(k);
  }

  lemma DelaysSnoc(o: Opts, n: nat)
    ensures Delays(o, n) + [Delay(o, n + 1)] == Delays(o, n + 1)
  {}

  /** Each wait is the base times a power of the factor, rounded halves up, and then capped. */
  lemma DelayAt(o: Opts, n: nat, i: nat, raw: real)
    requires i < n && raw == o.base * Pow(o.factor, i)
    ensures Delays(o, n)[i] == if (raw + 0.5).Floor as real < o.max then (raw + 0.5).Floor as real else o.max
  {
    assert Raw(o)(i) == raw;
  }

  function Allowed(o: Opts): nat {
    if o.retries < 0 then 1 else o.retries + 1
  }

  /** `fails(i)` says whether call `i` of the function throws. One call more than the retries at most, and
      a wait between any two calls. */
  method ExponentialBackoff(fails: nat -> bool, o: Opts) returns (ok: bool, calls: nat, delays: seq<real>)
    ensures 1 <= calls <= if o.retries < 0 then 1 else o.retries + 1
    ensures ok <==> !fails(calls - 1)
    ensures forall i: nat :: i < calls - 1 ==> fails(i)
    ensures !ok ==> calls == if o.retries < 0 then 1 else o.retries + 1
    ensures calls == if ok then FirstSuccess(fails, Allowed(o)) + 1 else Allowed(o)
    ensures delays == Delays(o, calls - 1) && |delays| == calls - 1
  {
    var attempt := 0;
    delays := [];
    while true
      invariant 0 <= attempt < Allowed(o)
      invariant forall i: nat :: i < attempt ==> fails(i)
      invariant delays == Delays(o, attempt)
      decreases Allowed(o) - attempt
    {
      if !fails(attempt) {
        return true, attempt + 1, delays;
      }
      attempt := attempt + 1;
      if attempt > o.retries {
        return false, attempt, delays;
      }
      delays := delays + [Delay(o, attempt)];
    }
  }

  // ----- The delays --------------------------------------------------------------------------------

  lemma MulMono(x: real, y: real, z: real)
    requires x <= y && z >= 0.0
    ensures z * x <= z * y
  {}

  lemma {:induction false} PowGrows(factor: real, n: nat)
    requires factor >= 1.0
    ensures 1.0 <= Pow(factor, n) <= factor * Pow(factor, n)
  {
    if n == 0 {
    } else {
      PowGrows(factor, n - 1);
    }
    var p := Pow(factor, n);
    assert p <= factor * p by {
      ScaleUp(p, factor);
    }
  }

  lemma ScaleUp(p: real, factor: real)
    requires p >= 0.0 && factor >= 1.0
    ensures p <= factor * p
  {
    MulMono(1.0, factor, p);
  }

  lemma RoundBounds(x: real, y: real)
    ensures x - 0.5 < Round(x) as real <= x + 0.5
    ensures x <= y ==> Round(x) <= Round(y)
  {}

  lemma CappedGrows(max: real, x: real, y: real)
    requires 0.0 <= x <= y
    ensures Capped(max, x) <= Capped(max, y) <= max
    ensures max >= 0.0 ==> Capped(max, x) >= 0.0
  {
    RoundBounds(x, y);
    RoundBounds(0.0, x);
  }

  ghost predicate Growing(raw: nat -> real) {
    forall k: nat :: 0.0 <= raw(k) <= raw(k + 1)
  }

  lemma ScaledGrows(base: real, p: real, q: real)
    requires base >= 0.0 && 0.0 <= p <= q
    ensures 0.0 <= base * p <= base * q
  {
    MulMono(p, q, base);
    MulMono(0.0, p, base);
  }

  lemma RawStep(o: Opts, k: nat, p: real, q: real)
    requires o.base >= 0.0 && p == Pow(o.factor, k) && q == Pow(o.factor, k + 1) && 0.0 <= p <= q
    ensures 0.0 <= Raw(o)(k) <= Raw(o)(k + 1)
  {
    ScaledGrows(o.base, p, q);
    assert Raw(o)(k) == o.base * p;
    assert Raw(o)(k + 1) == o.base * q;
  }

  lemma RawGrows(o: Opts)
    requires o.base >= 0.0 && o.factor >= 1.0
    ensures Growing(Raw(o))
  {
    forall k: nat ensures 0.0 <= Raw(o)(k) <= Raw(o)(k + 1) {
      PowGrows(o.factor, k);
      RawStep(o, k, Pow(o.factor, k), Pow(o.factor, k + 1));
    }
  }

  /** The waits never shrink, never exceed the cap, and are never negative under a cap that is not. */
  lemma DelaysGrow(o: Opts, n: nat)
    requires o.base >= 0.0 && o.factor >= 1.0
    ensures var d := Delays(o, n);
            && (forall i, j :: 0 <= i <= j < n ==> d[i] <= d[j])
            && (forall i :: 0 <= i < n ==> d[i] <= o.max && (o.max >= 0.0 ==> d[i] >= 0.0))
  {
    RawGrows(o);
    WaitsGrow(o.max, Raw(o), n);
  }

  lemma {:induction false} WaitsGrow(max: real, raw: nat -> real, n: nat)
    requires Growing(raw)
    ensures var d := Waits(max, raw, n);
            && (forall i, j :: 0 <= i <= j < n ==> d[i] <= d[j])
            && (forall i :: 0 <= i < n ==> d[i] <= max && (max >= 0.0 ==> d[i] >= 0.0))
  {
    forall i: nat, j: nat | i <= j < n ensures Waits(max, raw, n)[i] <= Waits(max, raw, n)[j] {
      RawOrder(raw, i, j);
      CappedGrows(max, raw(i), raw(j));
    }
    forall i: nat | i < n ensures Waits(max, raw, n)[i] <= max && (max >= 0.0 ==> Waits(max, raw, n)[i] >= 0.0) {
      CappedGrows(max, raw(i), raw(i));
    }
  }

  lemma {:induction false} RawOrder(raw: nat -> real, i: nat, j: nat)
    requires i <= j && Growing(raw)
    ensures raw(i) <= raw(j)
    decreases j
  {
    if i < j {
      RawOrder(raw, i, j - 1);
      assert raw(j - 1) <= raw(j - 1 + 1);
    }
  }

  function Geometric(base: real, factor: real, n: nat): real {
    if n == 0 then 0.0 else Geometric(base, factor, n - 1) + base * Pow(factor, n - 1)
  }

  lemma {:induction false} GeometricClosed(base: real, factor: real, n: nat)
    ensures (factor - 1.0) * Geometric(base, factor, n) == base * (Pow(factor, n) - 1.0)
  {
    if n == 0 {
    } else {
      GeometricClosed(base, factor, n - 1);
      OneMoreTerm(base, factor, Geometric(base, factor, n - 1), Pow(factor, n - 1),
                  Geometric(base, factor, n), Pow(factor, n));
    }
  }

  lemma OneMoreTerm(base: real, factor: real, g: real, p: real, g': real, p': real)
    requires (factor - 1.0) * g == base * (p - 1.0)
    requires g' == g + base * p && p' == factor * p
    ensures (factor - 1.0) * g' == base * (p' - 1.0)
  {
    calc {
      (factor - 1.0) * (g + base * p);
      (factor - 1.0) * g + (factor - 1.0) * (base * p);
      base * (p - 1.0) + (factor * (base * p) - base * p);
      base * (factor * p - 1.0);
    }
  }

  lemma SumLast(max: real, raw: nat -> real, n: nat)
    ensures Sum(Waits(max, raw, n + 1)) == Sum(Waits(max, raw, n)) + Capped(max, raw(n))
  {
    assert Waits(max, raw, n + 1)[..n] == Waits(max, raw, n);
  }

  function SumTo(raw: nat -> real, n: nat): real {
    if n == 0 then 0.0 else SumTo(raw, n - 1) + raw(n - 1)
  }

  lemma {:induction false} SumToIsGeometric(o: Opts, n: nat)
    ensures SumTo(Raw(o), n) == Geometric(o.base, o.factor, n)
  {
    if n == 0 {
    } else {
      SumToIsGeometric(o, n - 1);
    }
  }

  function Times(n: nat, x: real): real {
    if n == 0 then 0.0 else Times(n - 1, x) + x
  }

  lemma {:induction false} TimesIsProduct(n: nat, x: real)
    ensures Times(n, x) == n as real * x
  {
    if n == 0 {
    } else {
      TimesIsProduct(n - 1, x);
      OneMore((n - 1) as real, x);
      assert (n - 1) as real + 1.0 == n as real;
    }
  }

  lemma OneMore(k: real, x: real)
    ensures k * x + x == (k + 1.0) * x
  {}

  lemma CappedBounds(max: real, raw: real)
    ensures Capped(max, raw) <= max && Capped(max, raw) <= raw + 0.5
  {
    RoundBounds(raw, raw);
  }

  lemma {:induction false} SumBound(max: real, raw: nat -> real, n: nat)
    ensures Sum(Waits(max, raw, n)) <= Times(n, max)
    ensures Sum(Waits(max, raw, n)) <= SumTo(raw, n) + Times(n, 0.5)
  {
    if n == 0 {
    } else {
      SumBound(max, raw, n - 1);
      SumLast(max, raw, n - 1);
      CappedBounds(max, raw(n - 1));
    }
  }

  lemma CapBound(o: Opts, n: nat)
    ensures Sum(Delays(o, n)) <= n as real * o.max
  {
    SumBound(o.max, Raw(o), n);
    TimesIsProduct(n, o.max);
  }

  lemma SeriesBound(o: Opts, n: nat)
    ensures Sum(Delays(o, n)) <= Geometric(o.base, o.factor, n) + n as real / 2.0
  {
    SumBound(o.max, Raw(o), n);
    SumToIsGeometric(o, n);
    TimesIsProduct(n, 0.5);
  }

  /** All the waits together stay below both the cap times the retries and the geometric series, each
      rounding adding at most a half. */
  lemma TotalWaitBound(o: Opts, n: nat)
    requires o.factor > 1.0
    ensures Sum(Delays(o, n)) <= n as real * o.max
    ensures Sum(Delays(o, n)) <= o.base * (Pow(o.factor, n) - 1.0) / (o.factor - 1.0) + n as real / 2.0
  {
    CapBound(o, n);
    SeriesBound(o, n);
    GeometricQuotient(o.base, o.factor, n);
  }

  lemma GeometricQuotient(base: real, factor: real, n: nat)
    requires factor > 1.0
    ensures base * (Pow(factor, n) - 1.0) / (factor - 1.0) == Geometric(base, factor, n)
  {
    GeometricClosed(base, factor, n);
    Divide(Geometric(base, factor, n), factor - 1.0, base * (Pow(factor, n) - 1.0));
  }

  lemma Divide(g: real, d: real, x: real)
    requires d > 0.0 && d * g == x
    ensures x / d == g
  {}

  lemma {:induction false} SumOfWaitsGrows(max: real, raw: nat -> real, n: nat, m: nat)
    requires n <= m && max >= 0.0 && Growing(raw)
    ensures Sum(Waits(max, raw, n)) <= Sum(Waits(max, raw, m))
    decreases m
  {
    if n < m {
      SumOfWaitsGrows(max, raw, n, m - 1);
      SumLast(max, raw, m - 1);
      CappedGrows(max, raw(m - 1), raw(m - 1));
    }
  }

  /** Fewer failures wait less, so the bound for all the retries bounds every call of the loop. */
  lemma SumGrows(o: Opts, n: nat, m: nat)
    requires n <= m && o.base >= 0.0 && o.factor >= 1.0 && o.max >= 0.0
    ensures Sum(Delays(o, n)) <= Sum(Delays(o, m))
  {
    RawGrows(o);
    SumOfWaitsGrows(o.max, Raw(o), n, m);
  }

  /** With the emitter's settings the five waits are 200, 360, 648, 1166 and 2100 milliseconds. */
  lemma EmitterWaits()
    ensures Delays(DEFAULTS, 5) == [200.0, 360.0, 648.0, 1166.0, 2100.0]
    ensures Sum(Delays(DEFAULTS, 5)) == 4474.0
  {
    var d := DEFAULTS;
    PowSteps();
    assert Delay(d, 1) == 200.0;
    assert Delay(d, 2) == 360.0;
    assert Delay(d, 3) == 648.0;
    assert Delay(d, 4) == 1166.0;
    assert Delay(d, 5) == 2100.0;
    SumLast(d.max, Raw(d), 0);
    SumLast(d.max, Raw(d), 1);
    SumLast(d.max, Raw(d), 2);
    SumLast(d.max, Raw(d), 3);
    SumLast(d.max, Raw(d), 4);
    assert Sum(Waits(d.max, Raw(d), 0)) == 0.0;
  }

  /** However a call of the loop goes, its waits sum to no more than the bounds for all the retries. */
  lemma LoopWaitBound(o: Opts, calls: nat, retries: nat)
    requires 1 <= calls <= Allowed(o) && retries == o.retries
    requires o.base >= 0.0 && o.factor > 1.0 && o.max >= 0.0
    ensures Sum(Delays(o, calls - 1)) <= retries as real * o.max
    ensures Sum(Delays(o, calls - 1)) <=
            o.base * (Pow(o.factor, retries) - 1.0) / (o.factor - 1.0) + retries as real / 2.0
  {
    SumGrows(o, calls - 1, retries);
    TotalWaitBound(o, retries);
  }

  lemma EmitterLoopWait(calls: nat)
    requires 1 <= calls <= Allowed(DEFAULTS)
    ensures Sum(Delays(DEFAULTS, calls - 1)) <= 4474.0
  {
    SumGrows(DEFAULTS, calls - 1, 5);
    EmitterWaits();
  }

  lemma EmitterDelays(delays: seq<real>)
    requires |delays| <= 5 && delays == Delays(DEFAULTS, |delays|)
    ensures Sum(delays) <= 4474.0
  {
    EmitterLoopWait(|delays| + 1);
  }

  lemma PowSteps()
    ensures Pow(1.8, 0) == 1.0 && Pow(1.8, 1) == 1.8 && Pow(1.8, 2) == 3.24
    ensures Pow(1.8, 3) == 5.832 && Pow(1.8, 4) == 10.4976
  {}
}
