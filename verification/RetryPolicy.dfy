/** The consumer's retry policy: `decide`, `attemptsOf`, `retryHeaders`, `truncate`. */
module RetryPolicy {
  import opened Prelude
  import opened Decimal
  import Backoff

  const HEADER_ATTEMPTS := "x-dizen-attempts"
  const HEADER_FIRST_FAILURE := "x-dizen-first-failure"
  const HEADER_LAST_ERROR := "x-dizen-last-error"

  const MAX_ERROR_LENGTH: nat := 512

  /** A header value as the wire format can carry it. */
  datatype Value = Int32(i: int) | Int64(l: int) | Int(n: int) | Float64(f: real) | Str(s: string) | Other

  type Headers = map<string, Value>

  function Wrap32(x: int): (r: int)
    ensures MIN_INT32 <= r <= MAX_INT32 && (MIN_INT32 <= x <= MAX_INT32 ==> r == x) && (r - x) % 0x1_0000_0000 == 0
  {
    var m := x % 0x1_0000_0000;
    if m <= MAX_INT32 then m else m - 0x1_0000_0000
  }

  function Truncated(f: real): int { if f >= 0.0 then f.Floor else -((-f).Floor) }

  /**
   `attemptsOf`. What Go makes of a float outside int32 is up to the implementation, so it
   is a parameter.
   */
  function AttemptsOf(headers: Headers, oddFloat: real -> int): int
  {
    if HEADER_ATTEMPTS !in headers then 0
    else
      match headers[HEADER_ATTEMPTS]
      case Int32(i) => i
      case Int64(l) => Wrap32(l)
      case Int(n) => Wrap32(n)
      case Float64(f) =>
        var t := Truncated(f);
        if MIN_INT32 <= t <= MAX_INT32 then t else oddFloat(f)
      case Str(s) => (match ParseInt32(s) case None => 0 case Some(v) => v)
      case Other => 0
  }

  /** Whatever width or form wrote an int32 count, it reads the same. */
  lemma EveryWidthReadsTheSame(headers: Headers, n: int, oddFloat: real -> int)
    requires MIN_INT32 <= n <= MAX_INT32
    ensures AttemptsOf(headers[HEADER_ATTEMPTS := Int32(n)], oddFloat) == n
    ensures AttemptsOf(headers[HEADER_ATTEMPTS := Int64(n)], oddFloat) == n
    ensures AttemptsOf(headers[HEADER_ATTEMPTS := Int(n)], oddFloat) == n
    ensures AttemptsOf(headers[HEADER_ATTEMPTS := Float64(n as real)], oddFloat) == n
    ensures AttemptsOf(headers[HEADER_ATTEMPTS := Str(Itoa(n))], oddFloat) == n
  {
    ParseOfItoa(n);
    if n < 0 { assert -(n as real) == (-n) as real; }
  }

  /** No header, an unreadable text or a value of another kind count as no attempts; a fraction is cut off. */
  lemma UnreadableCountsAsNone(headers: Headers, oddFloat: real -> int, s: string, n: int, fraction: real)
    ensures HEADER_ATTEMPTS !in headers ==> AttemptsOf(headers, oddFloat) == 0
    ensures ParseInt32(s).None? ==> AttemptsOf(headers[HEADER_ATTEMPTS := Str(s)], oddFloat) == 0
    ensures AttemptsOf(headers[HEADER_ATTEMPTS := Other], oddFloat) == 0
    ensures 0 <= n <= MAX_INT32 && 0.0 <= fraction < 1.0 ==>
              && AttemptsOf(headers[HEADER_ATTEMPTS := Float64(n as real + fraction)], oddFloat) == n
              && AttemptsOf(headers[HEADER_ATTEMPTS := Float64(-(n as real + fraction))], oddFloat) == -n
  {
    if 0 <= n <= MAX_INT32 && 0.0 <= fraction < 1.0 {
      assert (n as real + fraction).Floor == n;
      assert Truncated(n as real + fraction) == n;
      assert Truncated(-(n as real + fraction)) == -n;
    }
  }

  datatype Action = ActionAck | ActionRetry | ActionDeadLetter

  datatype Outcome = Outcome(action: Action, attempt: int, delay: Backoff.Duration)

  /** `decide`, with its int32 increment. */
  function Decide(failed: bool, prior: int, maxAttempts: int, initial: Backoff.Duration, maximum: Backoff.Duration): Outcome
  {
    var attempt := Wrap32(prior + 1);
    if !failed then Outcome(ActionAck, attempt, 0)
    else if attempt >= maxAttempts then Outcome(ActionDeadLetter, attempt, 0)
    else Outcome(ActionRetry, attempt, Backoff.BackoffOf(attempt, initial, maximum))
  }

  /**
   The attempt just made counts, and a failure is final exactly from the maxAttempts-th on;
   this holds of every count but the largest int32, which wraps and is retried.
   */
  lemma DecideCountsUp(prior: int, maxAttempts: int, initial: Backoff.Duration, maximum: Backoff.Duration)
    requires 0 <= prior <= MAX_INT32 && 1 <= maxAttempts <= MAX_INT32 && 0 < initial <= maximum < Backoff.TWO62
    ensures var o := Decide(true, prior, maxAttempts, initial, maximum);
            && (o.attempt == prior + 1 <==> prior != MAX_INT32)
            && (prior != MAX_INT32 ==>
                  && (o.action == ActionDeadLetter <==> prior + 1 >= maxAttempts)
                  && (o.action == ActionRetry ==> o.delay == Backoff.Capped(prior + 1, initial, maximum)))
            && (prior == MAX_INT32 ==> o.action == ActionRetry && o.attempt == MIN_INT32)
  {
    Backoff.SmallMaximumIsLossless(initial, maximum);
    if prior != MAX_INT32 {
      Backoff.LosslessIsCapped(prior + 1, initial, maximum);
    }
  }

  function Truncate(s: string, n: nat): (r: string)
    ensures |r| <= n + 3
    ensures |s| <= n ==> r == s
    ensures |s| > n ==> |r| == n + 3 && s[..n] <= r && "..." == r[n..]
  {
    if |s| <= n then s else s[..n] + "..."
  }

  function RetryHeaders(headers: Headers, attempts: int, reason: string, now: string): Headers
  {
    var counted := headers[HEADER_ATTEMPTS := Int32(attempts)][HEADER_LAST_ERROR := Str(Truncate(reason, MAX_ERROR_LENGTH))];
    if HEADER_FIRST_FAILURE in counted then counted else counted[HEADER_FIRST_FAILURE := Str(now)]
  }

  /** `retryHeaders`, filling a fresh table in place. */
  method BuildRetryHeaders(headers: Headers, attempts: int, reason: string, now: string) returns (table: Headers)
    ensures table == RetryHeaders(headers, attempts, reason, now)
  {
    table := map[];
    var rest := headers.Keys;
    while rest != {}
      invariant rest <= headers.Keys
      invariant table == map k | k in headers && k !in rest :: headers[k]
      decreases |rest|
    {
      var k :| k in rest;
      table := table[k := headers[k]];
      rest := rest - {k};
    }
    assert table == headers;
    table := table[HEADER_ATTEMPTS := Int32(attempts)];
    table := table[HEADER_LAST_ERROR := Str(Truncate(reason, MAX_ERROR_LENGTH))];
    if HEADER_FIRST_FAILURE !in table {
      table := table[HEADER_FIRST_FAILURE := Str(now)];
    }
  }

  // ----- along a chain of failures -----

  datatype Message = Message(body: string, headers: Headers)

  datatype Failure = Failure(reason: string, at: string)

  /** The copy that `scheduleRetry` or `deadLetter` publishes. */
  function Copy(m: Message, f: Failure, maxAttempts: int, oddFloat: real -> int): Message
  {
    Message(m.body, RetryHeaders(m.headers, Decide(true, AttemptsOf(m.headers, oddFloat), maxAttempts, 1, 1).attempt, f.reason, f.at))
  }

  function Chain(m: Message, fs: seq<Failure>, maxAttempts: int, oddFloat: real -> int): Message
  {
    if fs == [] then m
    else Copy(Chain(m, fs[..|fs| - 1], maxAttempts, oddFloat), fs[|fs| - 1], maxAttempts, oddFloat)
  }

  predicate IsPolicyHeader(k: string) { k == HEADER_ATTEMPTS || k == HEADER_FIRST_FAILURE || k == HEADER_LAST_ERROR }

  /**
   However often a message bounces, its body and the producer's headers are unchanged, the
   first-failure stamp is the first one, the last error is the last reason within 515
   bytes, and the count read back is the failures on the chain on top of what it came with.
   */
  lemma {:induction false} ChainPreserves(m: Message, fs: seq<Failure>, maxAttempts: int, oddFloat: real -> int)
    requires 0 <= AttemptsOf(m.headers, oddFloat) && AttemptsOf(m.headers, oddFloat) + |fs| <= MAX_INT32
    ensures var r := Chain(m, fs, maxAttempts, oddFloat);
            && r.body == m.body
            && AttemptsOf(r.headers, oddFloat) == AttemptsOf(m.headers, oddFloat) + |fs|
            && (forall k :: !IsPolicyHeader(k) ==>
                  (k in r.headers <==> k in m.headers) && (k in m.headers ==> r.headers[k] == m.headers[k]))
            && (fs != [] ==>
                  && HEADER_FIRST_FAILURE in r.headers && HEADER_LAST_ERROR in r.headers
                  && r.headers[HEADER_FIRST_FAILURE] ==
                       (if HEADER_FIRST_FAILURE in m.headers then m.headers[HEADER_FIRST_FAILURE] else Str(fs[0].at))
                  && r.headers[HEADER_LAST_ERROR] == Str(Truncate(fs[|fs| - 1].reason, 512))
                  && |r.headers[HEADER_LAST_ERROR].s| <= 515)
    decreases |fs|
  {
    if fs != [] {
      ChainPreserves(m, fs[..|fs| - 1], maxAttempts, oddFloat);
      assert HEADER_ATTEMPTS != HEADER_LAST_ERROR && HEADER_ATTEMPTS != HEADER_FIRST_FAILURE && HEADER_LAST_ERROR != HEADER_FIRST_FAILURE by {
        assert |HEADER_ATTEMPTS| == 16 && |HEADER_LAST_ERROR| == 18 && |HEADER_FIRST_FAILURE| == 21;
      }
    }
  }

  /** The k-th failure of a message published without the header reads k. */
  lemma FreshMessageCountsFromOne(m: Message, fs: seq<Failure>, maxAttempts: int, oddFloat: real -> int)
    requires HEADER_ATTEMPTS !in m.headers && |fs| <= MAX_INT32
    ensures AttemptsOf(Chain(m, fs, maxAttempts, oddFloat).headers, oddFloat) == |fs|
  {
    ChainPreserves(m, fs, maxAttempts, oddFloat);
  }
}
