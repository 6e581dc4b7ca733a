/**
 The retry queue: nobody consumes it, each message carries its own TTL in milliseconds, and
 the broker expires only the message at the head. Expired messages go back to the main
 queue at once; time is in milliseconds.
 */
module RetryQueue {
  import opened Prelude
  import Backoff
  import Decimal

  const NANOS_PER_MILLI: int := 1_000_000

  datatype Entry = Entry(at: int, ttl: nat)

  /** Everything ever published to the queue, in order; the first `|left|` have gone back. */
  datatype State = State(now: int, arrived: seq<Entry>, left: seq<int>)

  datatype Step = Arrive(ttl: nat) | Tick | Expire

  predicate HeadExpired(s: State)
  {
    |s.left| < |s.arrived| && s.arrived[|s.left|].at + s.arrived[|s.left|].ttl <= s.now
  }

  predicate Enabled(limit: nat, s: State, step: Step)
  {
    match step
    case Arrive(ttl) => ttl <= limit
    case Tick => !HeadExpired(s)
    case Expire => HeadExpired(s)
  }

  function Apply(s: State, step: Step): State
  {
    match step
    case Arrive(ttl) => s.(arrived := s.arrived + [Entry(s.now, ttl)])
    case Tick => s.(now := s.now + 1)
    case Expire => s.(left := s.left + [s.now])
  }

  /** When the i-th message leaves: no earlier than its own TTL, nor than those before it. */
  function Departure(arrived: seq<Entry>, i: nat): int
    requires i < |arrived|
  {
    var own := arrived[i].at + arrived[i].ttl;
    if i == 0 then own else Max(own, Departure(arrived, i - 1))
  }

  ghost predicate Inv(limit: nat, s: State)
  {
    && |s.left| <= |s.arrived|
    && (forall i :: 0 <= i < |s.arrived| ==> s.arrived[i].at <= s.now && s.arrived[i].ttl <= limit)
    && (forall i, j :: 0 <= i < j < |s.arrived| ==> s.arrived[i].at <= s.arrived[j].at)
    && (forall i :: 0 <= i < |s.left| ==> s.left[i] == Departure(s.arrived, i) <= s.now)
    && (|s.left| < |s.arrived| ==> s.now <= Max(Departure(s.arrived, |s.left|), s.arrived[|s.left|].at))
  }

  lemma {:induction false} DepartureOfPrefix(arrived: seq<Entry>, e: Entry, i: nat)
    requires i < |arrived|
    ensures Departure(arrived + [e], i) == Departure(arrived, i)
  {
    if i > 0 { DepartureOfPrefix(arrived, e, i - 1); }
  }

  lemma InvArrive(limit: nat, s: State, ttl: nat)
    requires Inv(limit, s) && ttl <= limit
    ensures Inv(limit, Apply(s, Arrive(ttl)))
  {
    var e := Entry(s.now, ttl);
    var t := Apply(s, Arrive(ttl));
    assert forall i :: 0 <= i < |s.arrived| ==> t.arrived[i] == s.arrived[i];
    forall i | 0 <= i < |s.arrived| ensures Departure(t.arrived, i) == Departure(s.arrived, i) {
      DepartureOfPrefix(s.arrived, e, i);
    }
  }

  lemma InvExpire(limit: nat, s: State)
    requires Inv(limit, s) && HeadExpired(s)
    ensures Inv(limit, Apply(s, Expire))
  {
    var n := |s.left|;
    assert n > 0 ==> s.left[n - 1] == Departure(s.arrived, n - 1);
    assert Departure(s.arrived, n) == s.now;
  }

  lemma InvStep(limit: nat, s: State, step: Step)
    requires Inv(limit, s) && Enabled(limit, s, step)
    ensures Inv(limit, Apply(s, step))
  {
    match step
    case Arrive(ttl) => InvArrive(limit, s, ttl);
    case Expire => InvExpire(limit, s);
    case Tick =>
  }

  predicate IsRun(limit: nat, s: State, steps: seq<Step>)
    decreases |steps|
  {
    steps == [] || (Enabled(limit, s, steps[0]) && IsRun(limit, Apply(s, steps[0]), steps[1..]))
  }

  function After(limit: nat, s: State, steps: seq<Step>): State
    requires IsRun(limit, s, steps)
    decreases |steps|
  {
    if steps == [] then s else After(limit, Apply(s, steps[0]), steps[1..])
  }

  lemma {:induction false} InvRun(limit: nat, s: State, steps: seq<Step>)
    requires Inv(limit, s) && IsRun(limit, s, steps)
    ensures Inv(limit, After(limit, s, steps))
    decreases |steps|
  {
    if steps != [] {
      InvStep(limit, s, steps[0]);
      InvRun(limit, Apply(s, steps[0]), steps[1..]);
    }
  }

  /** The wait is bounded by the cap even behind longer TTLs: those arrived earlier. */
  lemma {:induction false} DepartureBounds(limit: nat, arrived: seq<Entry>, i: nat)
    requires i < |arrived|
    requires forall j :: 0 <= j <= i ==> arrived[j].ttl <= limit
    requires forall j, k :: 0 <= j < k <= i ==> arrived[j].at <= arrived[k].at
    ensures arrived[i].at + arrived[i].ttl <= Departure(arrived, i) <= arrived[i].at + limit
  {
    if i > 0 { DepartureBounds(limit, arrived, i - 1); }
  }

  lemma {:induction false} DepartureMonotone(arrived: seq<Entry>, i: nat, j: nat)
    requires i <= j < |arrived|
    ensures Departure(arrived, i) <= Departure(arrived, j)
  {
    if i < j { DepartureMonotone(arrived, i, j - 1); }
  }

  /**
   For any mix of TTLs, every message waits at least its own TTL and at most the cap: one
   that left did so exactly when the slowest of itself and those before it was over, and one
   still queued has not reached that moment, which is within the cap.
   */
  lemma EveryWaitIsWithinBounds(limit: nat, start: int, steps: seq<Step>, i: nat)
    requires IsRun(limit, State(start, [], []), steps)
    requires i < |After(limit, State(start, [], []), steps).arrived|
    ensures var s := After(limit, State(start, [], []), steps);
            && s.arrived[i].at + s.arrived[i].ttl <= Departure(s.arrived, i) <= s.arrived[i].at + limit
            && (if i < |s.left| then s.left[i] == Departure(s.arrived, i) else s.now <= Departure(s.arrived, i))
  {
    InvRun(limit, State(start, [], []), steps);
    var s := After(limit, State(start, [], []), steps);
    DepartureBounds(limit, s.arrived, i);
    if |s.left| <= i {
      DepartureBounds(limit, s.arrived, |s.left|);
      DepartureMonotone(s.arrived, |s.left|, i);
    }
  }

  /** `outcome.Delay.Milliseconds()` of a delay that is not negative: whole milliseconds, rounded down. */
  function TtlOf(delay: Backoff.Duration): (ttl: nat)
    requires delay >= 0
    ensures ttl * 1_000_000 <= delay < (ttl + 1) * 1_000_000
  {
    delay / NANOS_PER_MILLI
  }

  /** The expiration property a retry is published with. */
  function Expiration(delay: Backoff.Duration): string
    requires delay >= 0
  {
    Decimal.Itoa(TtlOf(delay))
  }

  /** The broker reads back the delay, less than a millisecond short. */
  lemma ExpirationReadsBack(delay: Backoff.Duration)
    requires delay >= 0
    ensures Decimal.ParseDigits(Expiration(delay)) == Some(TtlOf(delay))
    ensures delay - 1_000_000 < TtlOf(delay) * 1_000_000 <= delay
  {
    Decimal.ParseDigitsOfDigits(TtlOf(delay));
  }

  /** Every TTL the policy asks for is within the configured cap exactly when the first one is. */
  lemma TtlsAreCapped(initial: Backoff.Duration, maximum: Backoff.Duration)
    requires 0 < initial < Backoff.TWO62 && 0 < maximum < Backoff.TWO62
    ensures (forall attempt: nat :: attempt >= 1 ==> Backoff.BackoffOf(attempt, initial, maximum) <= maximum) <==> initial <= maximum
    ensures initial <= maximum ==>
              forall attempt: nat :: attempt >= 1 ==>
                0 < Backoff.BackoffOf(attempt, initial, maximum) && TtlOf(Backoff.BackoffOf(attempt, initial, maximum)) <= TtlOf(maximum)
  {
    if initial <= maximum {
      Backoff.SmallMaximumIsLossless(initial, maximum);
      forall attempt: nat | attempt >= 1
        ensures 0 < Backoff.BackoffOf(attempt, initial, maximum) <= maximum
      {
        Backoff.LosslessIsCapped(attempt, initial, maximum);
        Backoff.ScaledMonotone(initial, 0, attempt - 1);
        assert initial * Backoff.Pow2(0) == initial;
      }
    } else {
      assert Backoff.BackoffOf(1, initial, maximum) > maximum;
    }
  }

  /** The TTL the policy asks for after the given attempt. */
  ghost predicate IsTtlAfter(ttl: nat, attempt: nat, initial: Backoff.Duration, maximum: Backoff.Duration)
  {
    attempt >= 1 && var delay := Backoff.BackoffOf(attempt, initial, maximum); delay >= 0 && ttl == TtlOf(delay)
  }

  ghost predicate IsPolicyTtl(ttl: nat, initial: Backoff.Duration, maximum: Backoff.Duration)
  {
    exists attempt: nat :: IsTtlAfter(ttl, attempt, initial, maximum)
  }

  /** Every message published to the queue is a retry the policy asked for. */
  ghost predicate ByPolicy(steps: seq<Step>, initial: Backoff.Duration, maximum: Backoff.Duration)
  {
    forall i :: 0 <= i < |steps| && steps[i].Arrive? ==> IsPolicyTtl(steps[i].ttl, initial, maximum)
  }

  /** The limit only bounds the TTLs: a run whose TTLs meet a smaller one is the same run under it. */
  lemma {:induction false} RunWithin(limit: nat, wide: nat, s: State, steps: seq<Step>)
    requires IsRun(wide, s, steps) && forall i :: 0 <= i < |steps| && steps[i].Arrive? ==> steps[i].ttl <= limit
    ensures IsRun(limit, s, steps) && After(limit, s, steps) == After(wide, s, steps)
    decreases |steps|
  {
    if steps != [] {
      RunWithin(limit, wide, Apply(s, steps[0]), steps[1..]);
    }
  }

  /** What arrived, arrived with the TTL it was published with. */
  lemma {:induction false} ArrivedByPolicy(limit: nat, s: State, steps: seq<Step>, initial: Backoff.Duration, maximum: Backoff.Duration)
    requires IsRun(limit, s, steps) && ByPolicy(steps, initial, maximum)
    requires forall i :: 0 <= i < |s.arrived| ==> IsPolicyTtl(s.arrived[i].ttl, initial, maximum)
    ensures var t := After(limit, s, steps);
            forall i :: 0 <= i < |t.arrived| ==> IsPolicyTtl(t.arrived[i].ttl, initial, maximum)
    decreases |steps|
  {
    if steps != [] {
      var next := Apply(s, steps[0]);
      assert steps[0].Arrive? ==> IsPolicyTtl(steps[0].ttl, initial, maximum);
      forall i | 0 <= i < |next.arrived| ensures IsPolicyTtl(next.arrived[i].ttl, initial, maximum) {
        assert i < |s.arrived| ==> next.arrived[i] == s.arrived[i];
      }
      ArrivedByPolicy(limit, next, steps[1..], initial, maximum);
      assert After(limit, s, steps) == After(limit, next, steps[1..]);
    }
  }

  /**
   With InitialBackoff at most MaxBackoff, a message retried after its k-th attempt waits for
   min(initial * 2^(k-1), maximum), at most a millisecond less of it, and never longer than
   MaxBackoff, although only the head of the queue expires. In nanoseconds.
   */
  lemma RetriesWaitAtMostMaxBackoff(initial: Backoff.Duration, maximum: Backoff.Duration, wide: nat, start: int, steps: seq<Step>, i: nat)
    returns (attempt: nat)
    requires 0 < initial <= maximum < Backoff.TWO62
    requires IsRun(wide, State(start, [], []), steps) && ByPolicy(steps, initial, maximum)
    requires i < |After(wide, State(start, [], []), steps).arrived|
    ensures var s := After(wide, State(start, [], []), steps);
            var waited := (Departure(s.arrived, i) - s.arrived[i].at) * 1_000_000;
            && attempt >= 1 && Backoff.Capped(attempt, initial, maximum) - 1_000_000 < waited <= maximum
            && s.arrived[i].ttl * 1_000_000 <= Backoff.Capped(attempt, initial, maximum) < (s.arrived[i].ttl + 1) * 1_000_000
            && (if i < |s.left| then s.left[i] == Departure(s.arrived, i) else s.now <= Departure(s.arrived, i))
  {
    var origin := State(start, [], []);
    TtlsAreCapped(initial, maximum);
    forall j | 0 <= j < |steps| && steps[j].Arrive? ensures steps[j].ttl <= TtlOf(maximum) {
      assert IsPolicyTtl(steps[j].ttl, initial, maximum);
    }
    RunWithin(TtlOf(maximum), wide, origin, steps);
    EveryWaitIsWithinBounds(TtlOf(maximum), start, steps, i);
    ArrivedByPolicy(wide, origin, steps, initial, maximum);
    var s := After(wide, origin, steps);
    attempt :| IsTtlAfter(s.arrived[i].ttl, attempt, initial, maximum);
    Backoff.SmallMaximumIsLossless(initial, maximum);
    Backoff.LosslessIsCapped(attempt, initial, maximum);
  }
}
