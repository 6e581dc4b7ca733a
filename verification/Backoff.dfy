/**
 The three exponential backoffs: the consumer's and the outbox worker's `backoffFor`, which
 are the same loop, and `nextBackoff` as iterated by `database.Connect`. Durations are Go
 int64 nanosecond counts, so every doubling is written with its two's-complement wrap.
 */
module Backoff {
  import opened Prelude

  const TWO62: int := 0x4000_0000_0000_0000
  const TWO63: int := 0x8000_0000_0000_0000
  const TWO64: int := 0x1_0000_0000_0000_0000

  /** A time.Duration. */
  type Duration = x: int | -TWO63 <= x < TWO63

  function Wrap64(x: int): (r: Duration)
    ensures (r - x) % TWO64 == 0
    ensures -TWO63 <= x < TWO63 ==> r == x
  {
    var m := x % TWO64;
    if m < TWO63 then m else m - TWO64
  }

  function Pow2(n: nat): (r: nat)
    ensures r >= 1
  {
    if n == 0 then 1 else 2 * Pow2(n - 1)
  }

  /** The closed form both packages document: double per attempt, capped. */
  function Capped(attempt: nat, initial: int, maximum: int): int
    requires attempt >= 1
  {
    Min(initial * Pow2(attempt - 1), maximum)
  }

  /** `n` rounds of the `backoffFor` loop starting from `backoff`. */
  function Doublings(n: nat, backoff: Duration, maximum: Duration): Duration
  {
    if n == 0 then backoff
    else
      var b := Wrap64(2 * backoff);
      if b >= maximum then maximum else Doublings(n - 1, b, maximum)
  }

  /** What `backoffFor` computes, wrap-around included. */
  function BackoffOf(attempt: int, initial: Duration, maximum: Duration): Duration
  {
    if attempt <= 1 then initial else Doublings(attempt - 1, initial, maximum)
  }

  method BackoffFor(attempt: int, initial: Duration, maximum: Duration) returns (backoff: Duration)
    ensures backoff == BackoffOf(attempt, initial, maximum)
    ensures 0 < initial <= maximum && Lossless(initial, maximum) && attempt >= 1
            ==> backoff == Capped(attempt, initial, maximum)
  {
    if 0 < initial <= maximum && Lossless(initial, maximum) && attempt >= 1 {
      LosslessIsCapped(attempt, initial, maximum);
    }
    if attempt <= 1 {
      return initial;
    }
    backoff := initial;
    for i := 0 to attempt - 1
      invariant Doublings(attempt - 1, initial, maximum) == Doublings(attempt - 1 - i, backoff, maximum)
    {
      backoff := Wrap64(2 * backoff);
      if backoff >= maximum {
        return maximum;
      }
    }
  }

  /** `nextBackoff` of pkg/database. */
  function NextBackoff(current: Duration, maximum: Duration): Duration
  {
    var next := Wrap64(current * 2);
    if next > maximum then maximum else next
  }

  function IteratedNext(n: nat, initial: Duration, maximum: Duration): Duration
  {
    if n == 0 then initial else NextBackoff(IteratedNext(n - 1, initial, maximum), maximum)
  }

  /**
   No value the loop doubles reaches 2^62: checkable by the caller from the two settings
   alone, and implied by a maximum of at most 2^62 (146 years) with initial < 2^62.
   */
  ghost predicate Lossless(initial: int, maximum: int)
  {
    initial < TWO62 &&
    forall k: nat :: !(TWO62 <= initial * Pow2(k) < maximum)
  }

  lemma SmallMaximumIsLossless(initial: int, maximum: int)
    requires initial <= maximum < TWO62
    ensures Lossless(initial, maximum)
  {
  }

  lemma Pow2Step(initial: int, k: nat)
    ensures initial * Pow2(k + 1) == 2 * (initial * Pow2(k))
  {
  }

  lemma {:induction false} ScaledPositive(initial: int, k: nat)
    requires 0 < initial
    ensures 0 < initial * Pow2(k)
  {
    if k > 0 {
      ScaledPositive(initial, k - 1);
      Pow2Step(initial, k - 1);
    } else {
      assert initial * Pow2(0) == initial;
    }
  }

  lemma {:induction false} ScaledMonotone(initial: int, a: nat, b: nat)
    requires 0 < initial && a <= b
    ensures initial * Pow2(a) <= initial * Pow2(b)
    decreases b
  {
    if a < b {
      ScaledMonotone(initial, a, b - 1);
      Pow2Step(initial, b - 1);
      ScaledPositive(initial, b - 1);
    }
  }

  /** From the k-th doubled value on, the loop follows the closed form. */
  lemma {:induction false} DoublingsFromK(k: nat, n: nat, initial: Duration, maximum: Duration)
    requires 0 < initial <= maximum && Lossless(initial, maximum)
    requires k == 0 || initial * Pow2(k) < maximum
    ensures initial * Pow2(k) < TWO62
    ensures Doublings(n, initial * Pow2(k), maximum) ==
            if n == 0 then initial * Pow2(k) else Min(initial * Pow2(k + n), maximum)
    decreases n
  {
    if k == 0 { assert Pow2(0) == 1; assert initial * Pow2(0) == initial; }
    var v := initial * Pow2(k);
    assert v < TWO62;
    if n > 0 {
      Pow2Step(initial, k);
      ScaledMonotone(initial, k + 1, k + n);
      ScaledMonotone(initial, 0, k);
      assert Wrap64(2 * v) == 2 * v;
      if 2 * v < maximum {
        DoublingsFromK(k + 1, n - 1, initial, maximum);
        assert k + 1 + (n - 1) == k + n;
      }
    }
  }

  lemma LosslessIsCapped(attempt: nat, initial: Duration, maximum: Duration)
    requires 0 < initial <= maximum && Lossless(initial, maximum) && attempt >= 1
    ensures BackoffOf(attempt, initial, maximum) == Capped(attempt, initial, maximum)
  {
    assert initial * Pow2(0) == initial;
    DoublingsFromK(0, attempt - 1, initial, maximum);
  }

  /** The first doubled value at or above 2^62, found below any given one. */
  lemma {:induction false} FirstHigh(k: nat, initial: int) returns (j: nat)
    requires 0 < initial && TWO62 <= initial * Pow2(k)
    ensures j <= k && TWO62 <= initial * Pow2(j)
    ensures j == 0 || initial * Pow2(j - 1) < TWO62
  {
    if k == 0 || initial * Pow2(k - 1) < TWO62 {
      j := k;
    } else {
      j := FirstHigh(k - 1, initial);
    }
  }

  /** Up to the first high value nothing is capped, so the loop reaches it unharmed. */
  lemma {:induction false} DoublingsReach(i: nat, j: nat, n: nat, initial: Duration, maximum: Duration)
    requires 0 < initial && i <= j <= i + n
    requires initial * Pow2(j) < maximum || i == j
    requires j == 0 || initial * Pow2(j - 1) < TWO62
    requires initial * Pow2(j) < TWO63
    ensures initial * Pow2(i) < TWO63
    ensures Doublings(n, initial * Pow2(i), maximum) == Doublings(n - (j - i), initial * Pow2(j), maximum)
    decreases j - i
  {
    ScaledMonotone(initial, i, j);
    ScaledMonotone(initial, 0, i);
    if i < j {
      Pow2Step(initial, i);
      ScaledMonotone(initial, i, j - 1);
      ScaledMonotone(initial, i + 1, j);
      var v := initial * Pow2(i);
      assert Wrap64(2 * v) == 2 * v;
      DoublingsReach(i + 1, j, n - 1, initial, maximum);
    }
  }

  /** Doubling a value in the top quarter of int64 turns it negative. */
  lemma HighWraps(v: int)
    requires TWO62 <= v < TWO63
    ensures Wrap64(2 * v) == 2 * v - TWO64 < 0
  {
  }

  lemma HighOnce(v: Duration, maximum: Duration)
    requires TWO62 <= v && 0 < maximum
    ensures Doublings(1, v, maximum) < 0
  {
    HighWraps(v);
    var b := Wrap64(2 * v);
    assert Doublings(0, b, maximum) == b;
  }

  /** Where the settings are not lossless, some attempt comes back negative. */
  lemma LossyAttempt(initial: Duration, maximum: Duration) returns (attempt: nat)
    requires 0 < initial <= maximum && !Lossless(initial, maximum)
    ensures attempt >= 2
    ensures BackoffOf(attempt, initial, maximum) < 0
  {
    var j: nat;
    assert initial * Pow2(0) == initial;
    if initial >= TWO62 {
      j := 0;
    } else {
      var k: nat :| TWO62 <= initial * Pow2(k) < maximum;
      j := FirstHigh(k, initial);
      ScaledMonotone(initial, j, k);
    }
    var v := initial * Pow2(j);
    assert TWO62 <= v < TWO63;
    attempt := j + 2;
    DoublingsReach(0, j, j + 1, initial, maximum);
    HighOnce(v, maximum);
  }

  /** The closed form holds on every attempt exactly for lossless settings. */
  lemma BackoffIsCappedIffLossless(initial: Duration, maximum: Duration)
    requires 0 < initial <= maximum
    ensures Lossless(initial, maximum) <==>
            forall attempt: nat :: attempt >= 1 ==> BackoffOf(attempt, initial, maximum) == Capped(attempt, initial, maximum)
  {
    if Lossless(initial, maximum) {
      forall attempt: nat | attempt >= 1
        ensures BackoffOf(attempt, initial, maximum) == Capped(attempt, initial, maximum)
      {
        LosslessIsCapped(attempt, initial, maximum);
      }
    } else {
      var attempt := LossyAttempt(initial, maximum);
      ScaledMonotone(initial, 0, attempt - 1);
      assert initial * Pow2(0) == initial;
      assert BackoffOf(attempt, initial, maximum) != Capped(attempt, initial, maximum);
    }
  }

  /** A later attempt never waits less. */
  lemma CappedMonotone(a: nat, b: nat, initial: int, maximum: int)
    requires 0 < initial && 1 <= a <= b
    ensures Capped(a, initial, maximum) <= Capped(b, initial, maximum) <= maximum
  {
    ScaledMonotone(initial, a - 1, b - 1);
  }

  /** The startup backoff, stepped one wait at a time, is the same sequence after the first wait. */
  lemma {:induction false} IteratedNextIsCapped(n: nat, initial: Duration, maximum: Duration)
    requires 0 < initial < TWO62 && 0 < maximum < TWO62
    ensures IteratedNext(n, initial, maximum) == if n == 0 then initial else Capped(n + 1, initial, maximum)
    ensures initial <= maximum ==> IteratedNext(n, initial, maximum) == Capped(n + 1, initial, maximum)
  {
    assert initial * Pow2(0) == initial;
    if n > 0 {
      IteratedNextIsCapped(n - 1, initial, maximum);
      Pow2Step(initial, n - 1);
      ScaledPositive(initial, n - 1);
      ScaledMonotone(initial, 0, n - 1);
    }
  }

  lemma {:induction false} ScaledGrows(initial: int, k: nat)
    requires 0 < initial
    ensures initial * Pow2(k) > k
  {
    if k > 0 {
      ScaledGrows(initial, k - 1);
      Pow2Step(initial, k - 1);
    } else {
      assert initial * Pow2(0) == initial;
    }
  }

  /** A wait of 2^62 or more is followed by a negative one, even at the cap. */
  lemma NextWraps(v: Duration, maximum: Duration)
    requires TWO62 <= v && 0 < maximum
    ensures NextBackoff(v, maximum) < 0
  {
    HighWraps(v);
  }

  lemma CappedPositive(attempt: nat, initial: int, maximum: int)
    requires attempt >= 1 && 0 < initial && 0 < maximum
    ensures Capped(attempt, initial, maximum) > 0
  {
    ScaledPositive(initial, attempt - 1);
  }

  /** Where a setting reaches 2^62 the startup backoff leaves the documented sequence. */
  lemma StartupOverflows(initial: Duration, maximum: Duration) returns (n: nat)
    requires 0 < initial && 0 < maximum && (initial >= TWO62 || maximum >= TWO62)
    ensures n >= 1 && IteratedNext(n, initial, maximum) != Capped(n + 1, initial, maximum)
  {
    if initial >= TWO62 {
      n := 1;
      assert IteratedNext(0, initial, maximum) == initial;
      NextWraps(initial, maximum);
      CappedPositive(2, initial, maximum);
    } else {
      ScaledGrows(initial, TWO62);
      var j := FirstHigh(TWO62, initial);
      assert initial * Pow2(0) == initial;
      var v := IteratedNext(j, initial, maximum);
      if v != Capped(j + 1, initial, maximum) {
        return j;
      }
      n := j + 1;
      NextWraps(v, maximum);
      CappedPositive(n + 1, initial, maximum);
    }
  }

  /**
   The waits after the first follow the closed form exactly when both settings are below
   2^62. Unlike `backoffFor`, which stops at the cap, `nextBackoff` doubles the cap again.
   */
  lemma StartupIsCappedIff(initial: Duration, maximum: Duration)
    requires 0 < initial && 0 < maximum
    ensures initial < TWO62 && maximum < TWO62 <==>
            forall n: nat :: n >= 1 ==> IteratedNext(n, initial, maximum) == Capped(n + 1, initial, maximum)
  {
    if initial < TWO62 && maximum < TWO62 {
      forall n: nat | n >= 1 ensures IteratedNext(n, initial, maximum) == Capped(n + 1, initial, maximum) {
        IteratedNextIsCapped(n, initial, maximum);
      }
    } else {
      var n := StartupOverflows(initial, maximum);
    }
  }

  /** The first `n` waits of the startup loop. */
  function Waits(n: nat, initial: Duration, maximum: Duration): (r: seq<Duration>)
    ensures |r| == n
  {
    if n == 0 then [] else Waits(n - 1, initial, maximum) + [IteratedNext(n - 1, initial, maximum)]
  }

  /** Each wait is the documented one when the settings are below 2^62. */
  lemma {:induction false} WaitsAt(n: nat, i: nat, initial: Duration, maximum: Duration)
    requires i < n && 0 < initial < TWO62 && 0 < maximum < TWO62
    ensures Waits(n, initial, maximum)[i] == if i == 0 then initial else Capped(i + 1, initial, maximum)
  {
    if i == n - 1 {
      IteratedNextIsCapped(i, initial, maximum);
    } else {
      WaitsAt(n - 1, i, initial, maximum);
    }
  }

  datatype Connected = Connected(attempt: nat) | Unreachable(attempts: nat) | Canceled(after: nat)

  /** No attempt before the k-th got through, and no wait was cut short. */
  predicate InVain(k: nat, answers: nat -> bool, canceled: nat -> bool)
  {
    forall i :: 1 <= i < k ==> !answers(i) && !canceled(i)
  }

  /**
   `database.Connect`. `answers(i)` is whether attempt `i` reaches the database and
   `canceled(i)` whether the context ends during the wait after it; `WaitsAt` says what
   the waits are.
   */
  method Connect(maxRetries: nat, initial: Duration, maximum: Duration, answers: nat -> bool, canceled: nat -> bool)
    returns (r: Connected, waits: seq<Duration>)
    requires maxRetries >= 1 && 0 < initial && 0 < maximum
    ensures waits == Waits(|waits|, initial, maximum)
    ensures match r
            case Connected(k) =>
              1 <= k <= maxRetries && |waits| == k - 1 && InVain(k, answers, canceled) && answers(k)
            case Unreachable(n) =>
              n == maxRetries && |waits| == n - 1 && InVain(n, answers, canceled) && !answers(n)
            case Canceled(k) =>
              1 <= k < maxRetries && |waits| == k && InVain(k, answers, canceled) && !answers(k) && canceled(k)
  {
    waits := [];
    var backoff := initial;
    var attempt := 1;
    while attempt <= maxRetries
      invariant 1 <= attempt <= maxRetries
      invariant |waits| == attempt - 1
      invariant backoff == IteratedNext(attempt - 1, initial, maximum)
      invariant waits == Waits(attempt - 1, initial, maximum)
      invariant InVain(attempt, answers, canceled)
      decreases maxRetries - attempt
    {
      if answers(attempt) {
        return Connected(attempt), waits;
      }
      if attempt == maxRetries {
        break;
      }
      waits := waits + [backoff];
      if canceled(attempt) {
        return Canceled(attempt), waits;
      }
      backoff := NextBackoff(backoff, maximum);
      attempt := attempt + 1;
    }
    return Unreachable(maxRetries), waits;
  }
}
