/** internal/cloudutil/retry.go: exponential back-off with full jitter, computed in 64-bit integers. */
module Backoff {
  import opened MachineInt

  /** time.Duration(1) << n */
  function Shl(n: nat): int { if n < 64 then Wrap64(Pow2(n)) else 0 }

  /** The upper end of the jitter, as computed: the product may wrap around. */
  function Ceiling(base: int, maxDelay: int, attempt: nat): int
  {
    var c := Wrap64(base * Shl(attempt));
    if c > maxDelay || c <= 0 then maxDelay else c
  }

  function Min(a: int, b: int): int { if a <= b then a else b }

  // ------------------------------------------------------------ when wrap-around does no harm

  function OddPart(n: nat): (o: nat)
    requires n > 0
    ensures o > 0
  {
    if n % 2 == 1 then n else OddPart(n / 2)
  }

  function Twos(n: nat): nat
    requires n > 0
  {
    if n % 2 == 1 then 0 else 1 + Twos(n / 2)
  }

  lemma {:induction false} OddTimesTwos(n: nat)
    requires n > 0
    ensures n == OddPart(n) * Pow2(Twos(n))
  {
    if n % 2 == 0 {
      OddTimesTwos(n / 2);
      var o, p := OddPart(n / 2), Pow2(Twos(n / 2));
      assert n == 2 * (o * p) == o * (2 * p);
    }
  }

  lemma {:induction false} Doubles(n: nat)
    requires n > 0
    ensures Pow2(n) == 2 * Pow2(n - 1)
  {
  }

  lemma {:induction false} Pow2Sum(a: nat, b: nat)
    ensures Pow2(a + b) == Pow2(a) * Pow2(b)
  {
    if a == 0 {
      assert Pow2(0) == 1;
    } else {
      Pow2Sum(a - 1, b);
      Doubles(a);
      Doubles(a + b);
      hide Pow2;
      assert a - 1 + b == a + b - 1;
      Associate(2, Pow2(a - 1), Pow2(b));
    }
  }

  lemma {:induction false} Pow2Mono(a: nat, b: nat)
    requires a <= b
    ensures Pow2(a) <= Pow2(b)
  {
    if a < b {
      Pow2Mono(a, b - 1);
    }
  }

  lemma {:induction false} Pow2Values()
    ensures Pow2(62) == 0x4000_0000_0000_0000 && Pow2(63) == TWO63 && Pow2(64) == TWO64
  {
    assert Pow2(8) == 0x100;
    Pow2Sum(8, 8);
    Pow2Sum(16, 16);
    Pow2Sum(32, 32);
    Pow2Sum(62, 2);
    Pow2Sum(62, 1);
    assert Pow2(1) == 2 && Pow2(2) == 4;
  }

  /** The shifted one is 2^n modulo 2^64, also from 64 on. */
  lemma {:induction false} ShlIsPower(n: nat) returns (m: int)
    ensures Shl(n) == Pow2(n) + m * TWO64
  {
    Pow2Values();
    if n < 63 {
      Pow2Mono(n, 62);
      m := 0;
    } else if n == 63 {
      m := -1;
      assert Wrap64(TWO63) == -TWO63;
    } else {
      Pow2Sum(64, n - 64);
      m := -(Pow2(n - 64) as int);
    }
  }

  lemma {:induction false} ProductWraps(base: int, n: nat)
    ensures Wrap64(base * Shl(n)) == Wrap64(base * Pow2(n))
  {
    var m := ShlIsPower(n);
    assert base * (Pow2(n) + m * TWO64) == base * Pow2(n) + (base * m) * TWO64 by {
      Distribute(base, Pow2(n), m * TWO64);
      Associate(base, m, TWO64);
    }
    WrapPeriod(base * Pow2(n), base * m);
  }

  lemma {:induction false} Distribute(a: int, b: int, c: int)
    ensures a * (b + c) == a * b + a * c
  {
  }

  lemma {:induction false} Associate(a: int, b: int, c: int)
    ensures a * (b * c) == (a * b) * c
  {
  }

  /** Per attempt: the ceiling is the intended one exactly when the product fits, or wraps to something
      that is not positive or not below the cap. */
  lemma {:induction false} CeilingIsExactIff(base: int, maxDelay: int, attempt: nat)
    requires 0 < base && 0 < maxDelay < TWO63
    ensures Ceiling(base, maxDelay, attempt) == Min(maxDelay, base * Pow2(attempt))
            <==> base * Pow2(attempt) < TWO63 || !(0 < Wrap64(base * Pow2(attempt)) < maxDelay)
  {
    ProductWraps(base, attempt);
    assert base * Pow2(attempt) >= base by { Grows(base, Pow2(attempt)); }
  }

  lemma {:induction false} Grows(a: int, b: int)
    requires a > 0 && b >= 1
    ensures a * b >= a && a * b >= b
  {
    assert a * (b - 1) >= 0 && (a - 1) * b >= 0;
  }

  lemma {:induction false} WrapSubtracts(x: int) returns (q: int)
    ensures Wrap64(x) == x - q * TWO64
  {
    q := (x + TWO63) / TWO64;
  }

  lemma {:induction false} FactorOut(odd: int, p: int, q: int, rest: int)
    ensures odd * p - q * (p * rest) == (odd - q * rest) * p
  {
    Distribute(p, odd, -(q * rest));
    Associate(q, rest, p);
  }

  /** A multiple of 2^k wraps to at least 2^k when it wraps to something positive. */
  lemma {:induction false} WrapIsMultiple(odd: int, k: nat)
    requires k < 64
    ensures Wrap64(odd * Pow2(k)) > 0 ==> Wrap64(odd * Pow2(k)) >= Pow2(k)
  {
    Pow2Sum(k, 64 - k);
    Pow2Values();
    hide Pow2, Wrap64;
    var p, rest := Pow2(k), Pow2(64 - k);
    var q := WrapSubtracts(odd * p);
    FactorOut(odd, p, q, rest);
    var d := odd - q * rest;
    assert Wrap64(odd * p) == d * p;
    if d >= 1 {
      Grows(d, p);
    } else {
      NotPositive(d, p);
    }
  }

  lemma {:induction false} NotPositive(d: int, p: int)
    requires d <= 0 && p > 0
    ensures d * p <= 0
  {
  }

  lemma {:induction false} ZeroModulo(odd: int, k: nat)
    requires k >= 64
    ensures Wrap64(odd * Pow2(k)) == 0
  {
    Pow2Values();
    Pow2Sum(64, k - 64);
    assert odd * (TWO64 * Pow2(k - 64)) == 0 + (odd * Pow2(k - 64)) * TWO64;
    WrapPeriod(0, odd * Pow2(k - 64));
  }

  lemma {:induction false} PowerExceedsCap(odd: int, p: int, maxDelay: int)
    requires odd > 0 && odd * maxDelay < TWO63 <= odd * p
    ensures p > maxDelay
  {
    assert odd * (p - maxDelay) > 0 by { Distribute(odd, p, -maxDelay); }
  }

  /** A product that does not fit wraps to zero or below, or beyond the cap. */
  lemma {:induction false} WrapIsHarmless(odd: int, k: nat, maxDelay: int)
    requires odd > 0 && odd * maxDelay < TWO63 <= odd * Pow2(k)
    ensures !(0 < Wrap64(odd * Pow2(k)) < maxDelay)
  {
    hide Wrap64, Pow2;
    PowerExceedsCap(odd, Pow2(k), maxDelay);
    if k < 64 {
      WrapIsMultiple(odd, k);
    } else {
      ZeroModulo(odd, k);
    }
  }

  lemma {:induction false} OddForm(base: int, attempt: nat)
    requires base > 0
    ensures base * Pow2(attempt) == OddPart(base) * Pow2(Twos(base) + attempt)
  {
    OddTimesTwos(base);
    Pow2Sum(Twos(base), attempt);
    hide Pow2, OddPart, Twos;
    Associate(OddPart(base), Pow2(Twos(base)), Pow2(attempt));
  }

  lemma {:induction false} CapIsSmall(odd: int, maxDelay: int)
    requires odd > 0 && maxDelay > 0 && odd * maxDelay < TWO63
    ensures maxDelay < TWO63
  {
    Grows(maxDelay, odd);
    assert odd * maxDelay == maxDelay * odd;
  }

  /** Despite wrap-around the ceiling is the intended one at every attempt, when the odd part of the
      base times the cap is below 2^63. */
  lemma {:induction false} CeilingIsMinimum(base: int, maxDelay: int, attempt: nat)
    requires 0 < base && 0 < maxDelay && OddPart(base) * maxDelay < TWO63
    ensures Ceiling(base, maxDelay, attempt) == Min(maxDelay, base * Pow2(attempt))
  {
    hide Ceiling, Wrap64, Pow2, OddPart, Twos, Min;
    OddForm(base, attempt);
    CapIsSmall(OddPart(base), maxDelay);
    CeilingIsExactIff(base, maxDelay, attempt);
    if base * Pow2(attempt) >= TWO63 {
      WrapIsHarmless(OddPart(base), Twos(base) + attempt, maxDelay);
    }
  }

  /** The product of this attempt fits, or wraps to something that the ceiling replaces by the cap. */
  predicate Harmless(base: int, maxDelay: int, attempt: nat)
  {
    base * Pow2(attempt) < TWO63 || !(0 < Wrap64(base * Pow2(attempt)) < maxDelay)
  }

  /** The ceiling is the intended one at every attempt exactly when the first 63 attempts are harmless. */
  lemma {:induction false} CeilingIsMinimumIff(base: int, maxDelay: int)
    requires 0 < base && 0 < maxDelay < TWO63
    ensures (forall n: nat :: Ceiling(base, maxDelay, n) == Min(maxDelay, base * Pow2(n)))
            <==> forall n: nat | n < 63 :: Harmless(base, maxDelay, n)
  {
    forall n: nat
      ensures Ceiling(base, maxDelay, n) == Min(maxDelay, base * Pow2(n)) <==> Harmless(base, maxDelay, n)
    {
      CeilingIsExactIff(base, maxDelay, n);
    }
    forall n: nat | n >= 63
      ensures Harmless(base, maxDelay, n)
    {
      LateAttemptsAreHarmless(base, maxDelay, n);
    }
    hide Ceiling, Harmless, Min, Pow2;
  }

  lemma {:induction false} LateAttemptsAreHarmless(base: int, maxDelay: int, n: nat)
    requires n >= 63
    ensures Harmless(base, maxDelay, n)
  {
    hide Wrap64, Pow2;
    if n >= 64 {
      ZeroModulo(base, n);
    } else {
      Pow2Values();
      WrapIsMultiple(base, 63);
    }
  }

  const DEFAULT_MAX_RETRIES := 3
  const SECOND := 1_000_000_000
  const DEFAULT_BASE_DELAY := SECOND
  const DEFAULT_MAX_DELAY := 30 * SECOND

  /** The defaults satisfy the condition: the odd part of a second is 5^9. */
  lemma {:induction false} DefaultsAreSafe(attempt: nat)
    ensures Ceiling(1_000_000_000, 30_000_000_000, attempt) == Min(30_000_000_000, 1_000_000_000 * Pow2(attempt))
  {
    OddStep(1_000_000_000);
    OddStep(500_000_000);
    OddStep(250_000_000);
    OddStep(125_000_000);
    OddStep(62_500_000);
    OddStep(31_250_000);
    OddStep(15_625_000);
    OddStep(7_812_500);
    OddStep(3_906_250);
    assert OddPart(1_953_125) == 1_953_125;
    CeilingIsMinimum(DEFAULT_BASE_DELAY, DEFAULT_MAX_DELAY, attempt);
  }

  lemma {:induction false} OddStep(n: nat)
    requires n > 0 && n % 2 == 0
    ensures OddPart(n) == OddPart(n / 2)
  {
  }

  /** Without the condition it can fail: 5 * 2^62 wraps to 2^62, which is below this cap. */
  lemma {:induction false} WrapCanShortenTheDelay()
    ensures Ceiling(5, Pow2(62) + 1, 62) == Pow2(62) < Min(Pow2(62) + 1, 5 * Pow2(62))
  {
    Pow2Values();
    ProductWraps(5, 62);
    WrapPeriod(Pow2(62), 1);
    assert 5 * Pow2(62) == Pow2(62) + 1 * TWO64;
  }

  // ------------------------------------------------------------ the program

  /** What a call of fn returns; a failure says whether it may be retried and, if the server asked
      for it, after how long. */
  datatype Outcome<+T, +E> = Success(value: T) | Failure(error: E, retryable: bool, retryAfter: int)

  datatype CallResult<+T, +E> = Returned(value: T) | Rejected(error: E) | Exhausted(attempts: int, last: E) | Cancelled

  /** The default for a setting that is not positive. */
  function OrDefault(v: int, default_: int): int { if v <= 0 then default_ else v }

  /** Uniform in [0, ceiling): any value of the range may come out. */
  method ComputeDelay(baseDelay: int, maxDelay: int, attempt: nat) returns (delay: int)
    requires maxDelay > 0
    ensures 0 <= delay < Ceiling(baseDelay, maxDelay, attempt)
  {
    var ceiling := Wrap64(baseDelay * Shl(attempt));
    if ceiling > maxDelay || ceiling <= 0 {
      ceiling := maxDelay;
    }
    assert 0 <= 0 < ceiling;
    delay :| 0 <= delay < ceiling;
  }

  predicate Retried<T, E>(o: Outcome<T, E>) { o.Failure? && o.retryable }

  /** A delay the server asked for, or a jitter below the ceiling. */
  predicate ProperDelay<T, E>(o: Outcome<T, E>, delay: int, baseDelay: int, maxDelay: int, attempt: nat)
  {
    o.Failure? && if o.retryAfter > 0 then delay == o.retryAfter else 0 <= delay < Ceiling(baseDelay, maxDelay, attempt)
  }

  /** `fn(i)` is what the call of attempt i returns and `done(i)` whether the context ends during the
      sleep after it. All calls but the last were retryable failures, and each was followed by one
      proper delay. */
  method CallWithBackoff<T, E>(fn: nat -> Outcome<T, E>, done: nat -> bool, maxRetries: int, baseDelay: int,
                               maxDelay: int)
    returns (r: CallResult<T, E>, calls: nat, delays: seq<int>)
    ensures 1 <= calls <= (if maxRetries > 0 then maxRetries else 3) + 1
    ensures forall i | 0 <= i < calls - 1 :: Retried(fn(i)) && !done(i)
    ensures |delays| == calls - (if r.Cancelled? then 0 else 1)
    ensures forall i | 0 <= i < |delays| ::
              ProperDelay(fn(i), delays[i], if baseDelay > 0 then baseDelay else 1_000_000_000,
                          if maxDelay > 0 then maxDelay else 30_000_000_000, i)
    ensures match r
            case Returned(v) => fn(calls - 1) == Success(v)
            case Rejected(e) => fn(calls - 1).Failure? && !fn(calls - 1).retryable && fn(calls - 1).error == e
            case Exhausted(n, e) => n == calls == (if maxRetries > 0 then maxRetries else 3) + 1
                                    && Retried(fn(calls - 1)) && fn(calls - 1).error == e
            case Cancelled => Retried(fn(calls - 1)) && done(calls - 1)
                              && calls <= if maxRetries > 0 then maxRetries else 3
  {
    hide Ceiling, Wrap64, Pow2;
    var retries := OrDefault(maxRetries, DEFAULT_MAX_RETRIES);
    var base, cap := OrDefault(baseDelay, DEFAULT_BASE_DELAY), OrDefault(maxDelay, DEFAULT_MAX_DELAY);
    delays := [];
    var attempt := 0;
    while true
      invariant 0 <= attempt <= retries && |delays| == attempt
      invariant forall i | 0 <= i < attempt :: Retried(fn(i)) && !done(i) && ProperDelay(fn(i), delays[i], base, cap, i)
      decreases retries - attempt
    {
      var result := fn(attempt);
      if result.Success? {
        return Returned(result.value), attempt + 1, delays;
      }
      if !result.retryable {
        return Rejected(result.error), attempt + 1, delays;
      }
      if attempt == retries {
        return Exhausted(retries + 1, result.error), attempt + 1, delays;
      }
      var delay := ComputeDelay(base, cap, attempt);
      if result.retryAfter > 0 {
        delay := result.retryAfter;
      }
      delays := delays + [delay];
      if done(attempt) {
        return Cancelled, attempt + 1, delays;
      }
      attempt := attempt + 1;
    }
  }
}
