/**
 The outbox worker's code: `Run`, `ProcessBatch`, `publishOne`, `reschedule`. Every store
 and broker call it makes is a step of the `Outbox` transition system, so whatever holds of
 all runs there holds of this code; what is proved here is what the code itself computes.
 */
module OutboxWorker {
  import opened Prelude
  import opened OutboxTable
  import opened Outbox
  import Publisher

  /** What the broker and the store do with one event. */
  datatype Fate = Fate(
    writes: bool,            // the message can be written
    answer: Option<bool>,    // a confirmation that arrives meanwhile
    drops: bool,             // the connection is lost during the wait
    expires: bool,           // the deadline comes first
    stored: bool,            // the store call that follows takes effect
    reason: string)

  /**
   The environment of one run: the context is done from the `cancelAt`-th time it is looked
   at, and the n-th round and the n-th publication meet the given luck.
   */
  datatype Env = Env(cancelAt: nat, claimFails: nat -> bool, fate: nat -> Fate, elapsed: nat -> nat)

  datatype Round = Round(published: nat, slept: bool, cut: bool)

  /** Where a run started: the database, what was sent and marked before, and whether no fault is to come. */
  datatype Opening = Opening(db: Db, sent: seq<nat>, marks: nat, smooth: bool)

  predicate Smooth(f: Fate) { f.writes && f.answer == Some(true) && !f.drops && !f.expires && f.stored }

  ghost predicate FaultFree(env: Env)
  {
    (forall n :: !env.claimFails(n)) && forall n :: Smooth(env.fate(n))
  }

  /** Nothing is outstanding on the channel. */
  predicate Clear(ch: Publisher.Chan<nat>)
  {
    ch.open && ch.waiting == {} && ch.exits == 0 && ch.read == |ch.verdicts| == |ch.sent|
  }

  /** The answers on the channel once a message is written and `answer` has had its chance to arrive. */
  function Heard(ch: Publisher.Chan<nat>, answer: Option<bool>): seq<bool>
  {
    if answer.Some? && |ch.verdicts| <= |ch.sent| then ch.verdicts + [answer.value] else ch.verdicts
  }

  /** Exactly when a publish on the channel returns nil. */
  predicate Confirmed(ch: Publisher.Chan<nat>, f: Fate)
  {
    f.writes && ch.open && !f.expires && ch.read < |Heard(ch, f.answer)| && Heard(ch, f.answer)[ch.read]
  }

  predicate IsMark(step: Step) { step.ByWorker? && step.b.Mark? }

  /** How often the worker went on to mark an event as published. */
  ghost function Marks(trace: seq<Step>): nat
  {
    if trace == [] then 0 else Marks(trace[..|trace| - 1]) + if IsMark(trace[|trace| - 1]) then 1 else 0
  }

  /** What is due, oldest first. */
  function Backlog(db: Db): seq<nat> { DueFrom(db.rows, db.now, {}, 0, db.nextId) }

  ghost predicate AllDue(db: Db) { forall id :: Pending(db.rows, id) ==> db.rows[id].availableAt <= db.now }

  function Ceil(n: nat, b: nat): nat
    requires b > 0
  {
    (n + b - 1) / b
  }

  /** The size of the i-th batch of a backlog of n. */
  function BatchOf(n: nat, b: nat, i: nat): nat { Min(Max(n - i * b, 0), b) }

  lemma MulMonotone(a: nat, c: nat, b: nat)
    requires a <= c
    ensures a * b <= c * b
  {
  }

  lemma BatchNonEmpty(n: nat, b: nat, i: nat)
    requires b > 0
    ensures BatchOf(n, b, i) > 0 <==> i < Ceil(n, b)
    ensures i >= Ceil(n, b) ==> i * b >= n
  {
    var c := Ceil(n, b);
    assert c * b <= n + b - 1 < c * b + b;
    if i < c {
      MulMonotone(i + 1, c, b);
      assert (i + 1) * b == i * b + b;
    } else {
      MulMonotone(c, i, b);
    }
  }

  lemma BatchesAddUp(n: nat, b: nat, i: nat)
    requires b > 0
    ensures Min(n, i * b) + BatchOf(n, b, i) == Min(n, (i + 1) * b)
  {
  }

  /** The rows of `ids` are marked published; every other row, and the rest of these, is as it was. */
  predicate OnlyMarks(before: Rows, after: Rows, ids: seq<nat>)
  {
    && after.Keys == before.Keys
    && forall id :: id in before ==>
         if id in ids then after[id].publishedAt.Some? && after[id] == before[id].(publishedAt := after[id].publishedAt)
         else after[id] == before[id]
  }

  lemma OnlyMarksOneMore(a: Rows, b: Rows, ids: seq<nat>, id: nat, at: int)
    requires OnlyMarks(a, b, ids) && id in b
    ensures OnlyMarks(a, Marked(b, id, at), ids + [id])
  {
  }

  lemma OnlyMarksOnAndOn(a: Rows, b: Rows, c: Rows, x: seq<nat>, y: seq<nat>)
    requires OnlyMarks(a, b, x) && OnlyMarks(b, c, y)
    ensures OnlyMarks(a, c, x + y)
  {
  }

  /** The first `i` events of the backlog `all` found at `start` are marked; nothing else changed. */
  ghost predicate Progress(start: Db, db: Db, all: seq<nat>, i: nat)
  {
    i <= |all| && Backlog(db) == all[i..] && OnlyMarks(start.rows, db.rows, all[..i])
  }

  lemma ProgressStep(start: Db, db: Db, all: seq<nat>, i: nat)
    requires Progress(start, db, all, i) && i < |all|
    ensures Progress(start, db.(rows := Marked(db.rows, all[i], db.now)), all, i + 1)
  {
    DueFromIsExact(db.rows, db.now, {}, 0, db.nextId);
    assert all[i] == Backlog(db)[0];
    DueAfterMark(db.rows, db.now, db.now, all[i], 0, db.nextId);
    assert all[i..][1..] == all[i + 1..];
    OnlyMarksOneMore(start.rows, db.rows, all[..i], all[i], db.now);
    assert all[..i] + [all[i]] == all[..i + 1];
  }

  /** The events all rounds together reported as published. */
  function Published(rounds: seq<Round>): nat
  {
    if rounds == [] then 0 else Published(rounds[..|rounds| - 1]) + rounds[|rounds| - 1].published
  }

  /** Rounds that ran to their end; only the last can have been cut short. */
  function Uncut(rounds: seq<Round>): nat
  {
    if |rounds| > 0 && rounds[|rounds| - 1].cut then |rounds| - 1 else |rounds|
  }

  predicate Habits(rounds: seq<Round>, live: bool)
  {
    && (forall i :: 0 <= i < |rounds| && rounds[i].cut ==> i == |rounds| - 1 && !live)
    && (forall i :: 0 <= i < |rounds| && !rounds[i].cut ==> (rounds[i].slept <==> rounds[i].published == 0))
  }

  /** The rounds so far took the backlog of `n` batch by batch, `done` events in all. */
  predicate Log(rounds: seq<Round>, n: nat, b: nat, done: nat, live: bool)
  {
    && (live ==> done == Min(n, |rounds| * b))
    && done >= Min(n, Uncut(rounds) * b)
    && (forall i :: 0 <= i < |rounds| && !rounds[i].cut ==> rounds[i].published == BatchOf(n, b, i))
  }

  lemma LogFull(rounds: seq<Round>, n: nat, b: nat, done: nat, r: Round)
    requires b > 0 && Log(rounds, n, b, done, true) && Habits(rounds, true)
    requires r.published == Min(n - done, b) && !r.cut && done <= n
    ensures Log(rounds + [r], n, b, done + r.published, true)
  {
    BatchesAddUp(n, b, |rounds|);
    assert BatchOf(n, b, |rounds|) == r.published;
  }

  lemma LogCut(rounds: seq<Round>, n: nat, b: nat, done: nat, r: Round)
    requires Log(rounds, n, b, done, true) && Habits(rounds, true) && r.cut
    ensures Log(rounds + [r], n, b, done + r.published, false)
  {
  }

  /** How far a fault-free run has come with the backlog it found. */
  ghost predicate Drained(env: Env, o: Opening, done: nat, chan: Publisher.Chan<nat>, db: Db)
  {
    var all := Backlog(o.db);
    && FaultFree(env) && Clear(chan) && done <= |all| && chan.sent == o.sent + all[..done]
    && AllDue(db) && Backlog(db) == all[done..] && OnlyMarks(o.db.rows, db.rows, all[..done])
  }

  /** The time that passed in the rounds: what each took, and a poll interval after each that slept. */
  function Passed(env: Env, pollInterval: nat, rounds: seq<Round>): nat
  {
    if rounds == [] then 0
    else
      var n := |rounds| - 1;
      Passed(env, pollInterval, rounds[..n]) + env.elapsed(n) + if rounds[n].slept then pollInterval else 0
  }

  lemma OneMoreRound(env: Env, pollInterval: nat, rounds: seq<Round>, r: Round)
    ensures Published(rounds + [r]) == Published(rounds) + r.published
    ensures Passed(env, pollInterval, rounds + [r]) ==
            Passed(env, pollInterval, rounds) + env.elapsed(|rounds|) + if r.slept then pollInterval else 0
  {
    assert (rounds + [r])[..|rounds|] == rounds;
  }

  /**
   The loop of Run as far as it can be counted, with a backlog of `n` to begin with. While
   something is left, the context was looked at once per round and once per event.
   */
  predicate Tally(env: Env, n: nat, b: nat, done: nat, rounds: seq<Round>, checks: nat)
  {
    && Log(rounds, n, b, done, checks <= env.cancelAt)
    && (done < n ==> Min(checks, env.cancelAt) <= done + |rounds|)
  }

  lemma HabitsRound(rounds: seq<Round>, r: Round)
    requires Habits(rounds, true) && (!r.cut ==> (r.slept <==> r.published == 0))
    ensures Habits(rounds + [r], !r.cut)
  {
  }

  /** A round that began with one look at the context and took one per event. */
  lemma TallyRound(env: Env, n: nat, b: nat, done: nat, rounds: seq<Round>, r: Round, checks: nat, mid: nat, now: nat)
    requires b > 0 && Tally(env, n, b, done, rounds, checks) && Habits(rounds, true) && checks < env.cancelAt
    requires done + r.published <= n && Min(mid, env.cancelAt) <= checks + 1 + r.published
    requires mid <= env.cancelAt ==> r.published == Min(n - done, b)
    requires now == mid + (if r.published == 0 then 1 else 0) && r.cut == (now > env.cancelAt)
    ensures Tally(env, n, b, done + r.published, rounds + [r], now)
  {
    LogRound(rounds, n, b, done, r);
  }

  lemma LogRound(rounds: seq<Round>, n: nat, b: nat, done: nat, r: Round)
    requires b > 0 && Log(rounds, n, b, done, true) && Habits(rounds, true) && done + r.published <= n
    requires r.cut || r.published == Min(n - done, b)
    ensures Log(rounds + [r], n, b, done + r.published, !r.cut)
  {
    if r.cut { LogCut(rounds, n, b, done, r); } else { LogFull(rounds, n, b, done, r); }
  }

  class Worker {
    const me: nat
    const cfg: Config
    const batchSize: nat
    const pollInterval: nat
    const env: Env
    ghost const origin: Sys

    var sys: Sys
    var checks: nat
    var tries: nat
    var rounds: seq<Round>
    ghost var trace: seq<Step>

    constructor (me: nat, cfg: Config, batchSize: nat, pollInterval: nat, env: Env, sys: Sys)
      requires me in sys.workers && batchSize >= 1
      ensures Valid() && this.sys == sys && this.env == env && this.batchSize == batchSize && this.me == me
      ensures rounds == [] && checks == 0 && tries == 0 && origin == sys
    {
      this.me, this.cfg, this.batchSize, this.pollInterval, this.env := me, cfg, batchSize, pollInterval, env;
      this.sys, this.origin, this.trace := sys, sys, [];
      this.checks, this.tries, this.rounds := 0, 0, [];
    }

    /** The world is where the steps made so far lead from where it started. */
    ghost predicate Valid()
      reads this
    {
      && batchSize >= 1 && me in sys.workers
      && IsRun(cfg, origin, trace) && After(cfg, origin, trace) == sys
    }

    /** A worker started in a safe world keeps it safe, whatever it meets. */
    lemma StaysSafe()
      requires Valid() && Inv(origin)
      ensures Inv(sys)
    {
      InvRun(cfg, origin, trace);
    }

    function Me(): WorkerState
      reads this
      requires me in sys.workers
    {
      sys.workers[me]
    }

    method Perform(step: Step)
      requires Valid() && Enabled(sys, step) && step != ByWorker(me, Crash)
      requires !step.InTx? && (step.ByWorker? ==> step.w == me)
      modifies this`sys, this`trace
      ensures Valid() && sys == Apply(cfg, old(sys), step) && trace == old(trace) + [step]
      ensures Marks(trace) == Marks(old(trace)) + if IsMark(step) then 1 else 0
    {
      Extend(cfg, origin, trace, step);
      sys := Apply(cfg, sys, step);
      trace := trace + [step];
      assert trace[..|trace| - 1] == old(trace);
    }

    /** Writes the head of the batch and lets a confirmation arrive. */
    method WriteAndHear(answer: Option<bool>)
      requires Valid() && Me().pc.Looping? && |Me().pc.batch| > 0 && Me().chan.open
      modifies this`sys, this`trace
      ensures Valid() && sys.db == old(sys.db) && Marks(trace) == Marks(old(trace))
      ensures var ch, ch' := old(Me().chan), Me().chan;
              && Me().pc == Publishing(old(Me().pc.batch), |ch.sent|) && ch'.waiting == ch.waiting + {|ch.sent|} && ch'.open
              && ch'.sent == ch.sent + [old(Me().pc.batch)[0].id]
              && ch'.read == ch.read && ch'.exits == ch.exits && ch'.lost == ch.lost
              && ch'.verdicts == Heard(ch, answer)
    {
      Perform(ByWorker(me, Write));
      if answer.Some? && Publisher.Can(Me().chan, Publisher.Answered(answer.value)) {
        Perform(ByWorker(me, Answer(answer.value)));
      }
    }

    /** The connection may be lost during the wait; what has arrived can still be read. */
    method LoseConnection()
      requires Valid() && Me().chan.open
      modifies this`sys, this`trace
      ensures Valid() && sys.db == old(sys.db) && Marks(trace) == Marks(old(trace))
      ensures Me().pc == old(Me().pc) && Me().chan == old(Me().chan).(open := false)
    {
      Perform(ByWorker(me, Drop));
    }

    /** `waitForConfirm` as the worker sees it. */
    method AwaitConfirm(expires: bool) returns (ok: bool)
      requires Valid() && Me().pc.Publishing? && |Me().pc.batch| > 0 && Me().pc.tag in Me().chan.waiting
      modifies this`sys, this`trace
      ensures Valid() && sys.db == old(sys.db) && Marks(trace) == Marks(old(trace))
      ensures Me().pc == if ok then Marking(old(Me().pc.batch)) else Failing(old(Me().pc.batch))
      ensures ok ==> old(Me().pc.batch)[0].id in sys.ledger.reported
      ensures var ch := old(Me().chan);
              (ok <==> !expires && ch.Unread() && ch.verdicts[ch.read]) && Me().chan.sent == ch.sent
      ensures var ch := old(Me().chan);
              !expires && ch.Unread() ==>
                Me().chan == ch.(read := ch.read + 1, waiting := ch.waiting - {old(Me().pc.tag)})
    {
      if !expires && !Me().chan.Unread() && !Me().chan.open {
        Perform(ByWorker(me, ReportsClosed));
        return false;
      }
      if expires || !Me().chan.Unread() {
        Perform(ByWorker(me, Expire));
        return false;
      }
      ok := Me().chan.verdicts[Me().chan.read];
      Perform(ByWorker(me, Take));
    }

    /** `Publish` of pkg/amqp as seen from the worker. */
    method Publish() returns (ok: bool)
      requires Valid() && Me().pc.Looping? && |Me().pc.batch| > 0
      modifies this`sys, this`trace
      ensures Valid() && sys.db == old(sys.db) && Marks(trace) == Marks(old(trace))
      ensures Me().pc == if ok then Marking(old(Me().pc.batch)) else Failing(old(Me().pc.batch))
      ensures ok <==> Confirmed(old(Me().chan), env.fate(tries))
      ensures Me().chan.sent ==
                old(Me().chan.sent) + if env.fate(tries).writes && old(Me().chan).open then [old(Me().pc.batch)[0].id] else []
      ensures ok ==> old(Me().pc.batch)[0].id in sys.ledger.reported
      ensures Smooth(env.fate(tries)) && Clear(old(Me().chan)) ==>
                ok && Clear(Me().chan) && Me().chan.sent == old(Me().chan.sent) + [old(Me().pc.batch)[0].id]
    {
      var fate := env.fate(tries);
      if !fate.writes || !Me().chan.open {
        Perform(ByWorker(me, WriteFails));
        return false;
      }
      WriteAndHear(fate.answer);
      if fate.drops {
        LoseConnection();
      }
      ok := AwaitConfirm(fate.expires);
    }

    /** `publishOne`: mark only after Publish returned nil, otherwise reschedule with backoff. */
    method PublishOne() returns (ok: bool)
      requires Valid() && Me().pc.Looping? && |Me().pc.batch| > 0
      modifies this`sys, this`trace, this`tries
      ensures Valid() && tries == old(tries) + 1
      ensures Me().pc == Looping(old(Me().pc.batch)[1..])
      ensures ok <==> Confirmed(old(Me().chan), env.fate(old(tries)))
      ensures Marks(trace) == Marks(old(trace)) + if ok then 1 else 0
      ensures var c, fate := old(Me().pc.batch)[0], env.fate(old(tries));
              var rows := old(sys.db.rows);
              sys.db == old(sys.db).(rows :=
                if !fate.stored then rows
                else if ok then Marked(rows, c.id, old(sys.db.now))
                else if CanReschedule(rows, c.id) then Rescheduled(rows, c.id, fate.reason, RetryAt(cfg, old(sys.db.now), c))
                else rows)
      ensures ok ==> old(Me().pc.batch)[0].id in sys.ledger.reported
      ensures Smooth(env.fate(old(tries))) && Clear(old(Me().chan)) ==>
                && ok && Clear(Me().chan) && Me().chan.sent == old(Me().chan.sent) + [old(Me().pc.batch)[0].id]
                && sys.db.rows == Marked(old(sys.db.rows), old(Me().pc.batch)[0].id, old(sys.db.now))
    {
      var fate := env.fate(tries);
      ok := Publish();
      tries := tries + 1;
      if ok {
        Perform(ByWorker(me, Mark(fate.stored)));
      } else {
        var applies := fate.stored && CanReschedule(sys.db.rows, Me().pc.batch[0].id);
        Perform(ByWorker(me, Reschedule(applies, fate.reason)));
      }
    }

    /** The loop over the claimed events; `all` is the backlog they were claimed from. */
    method PublishEach(ghost start: Db, ghost all: seq<nat>) returns (published: nat, failed: bool)
      requires Valid() && Me().pc.Looping? && sys.db == start && |Me().pc.batch| <= |all| && all == Backlog(start)
      requires forall i :: 0 <= i < |Me().pc.batch| ==> Me().pc.batch[i].id == all[i]
      modifies this`sys, this`trace, this`tries, this`checks
      ensures Valid() && Me().pc.Looping?
      ensures checks >= old(checks) && (old(checks) <= env.cancelAt ==> (failed <==> checks > env.cancelAt))
      ensures sys.db == start.(rows := sys.db.rows)
      ensures published <= |old(Me().pc.batch)| && Marks(trace) == Marks(old(trace)) + published
      ensures !failed ==> tries == old(tries) + |old(Me().pc.batch)|
      ensures FaultFree(env) && Clear(old(Me().chan)) ==>
                && Clear(Me().chan) && Progress(start, sys.db, all, published)
                && Me().chan.sent == old(Me().chan.sent) + all[..published]
                && (!failed ==> published == |old(Me().pc.batch)|)
                && Min(checks, env.cancelAt) <= old(checks) + published
    {
      published, failed := 0, false;
      var events := Me().pc.batch;
      ghost var sent0 := Me().chan.sent;
      ghost var smooth := FaultFree(env) && Clear(Me().chan);
      assert events[0..] == events;
      assert all[..0] == [] && all[0..] == all;
      for i := 0 to |events|
        invariant checks >= old(checks) && (old(checks) <= env.cancelAt ==> checks <= env.cancelAt)
        invariant tries == old(tries) + i && Marks(trace) == Marks(old(trace)) + published
        invariant checks == old(checks) + i
        invariant Midway(start, all, events, i, published, sent0, smooth)
      {
        checks := checks + 1;
        if checks > env.cancelAt {
          return published, true;
        }
        published := PublishNext(start, all, events, i, published, sent0, smooth);
      }
    }

    /** The loop of ProcessBatch after `i` events. */
    ghost predicate Midway(start: Db, all: seq<nat>, events: seq<Claim>, i: nat, published: nat, sent0: seq<nat>, smooth: bool)
      reads this
    {
      && Valid() && i <= |events| <= |all| && published <= i
      && Me().pc == Looping(events[i..]) && sys.db == start.(rows := sys.db.rows)
      && (forall j :: 0 <= j < |events| ==> events[j].id == all[j])
      && (smooth ==>
            && FaultFree(env) && Clear(Me().chan) && published == i
            && Me().chan.sent == sent0 + all[..i] && Progress(start, sys.db, all, i))
    }

    method PublishNext(ghost start: Db, ghost all: seq<nat>, ghost events: seq<Claim>, ghost i: nat, count: nat,
                       ghost sent0: seq<nat>, ghost smooth: bool) returns (published: nat)
      requires Midway(start, all, events, i, count, sent0, smooth) && i < |events|
      modifies this`sys, this`trace, this`tries
      ensures Midway(start, all, events, i + 1, published, sent0, smooth)
      ensures tries == old(tries) + 1 && Marks(trace) == Marks(old(trace)) + published - count && published >= count
    {
      if smooth {
        ProgressStep(start, sys.db, all, i);
        assert all[..i + 1] == all[..i] + [all[i]];
      }
      assert events[i..][1..] == events[i + 1..];
      var ok := PublishOne();
      published := if ok then count + 1 else count;
    }

    /**
     `ProcessBatch`. With no faults it publishes and marks the oldest due events, in order,
     each once, up to the batch size or to where the context ended.
     */
    method ProcessBatch() returns (published: nat, failed: bool)
      requires Valid() && Me().pc.Idle? && checks <= env.cancelAt
      modifies this`sys, this`trace, this`tries, this`checks
      ensures Valid() && Me().pc.Idle?
      ensures checks >= old(checks) && (failed <==> env.claimFails(|rounds|) || checks > env.cancelAt)
      ensures sys.db == old(sys.db).(rows := sys.db.rows)
      ensures published <= batchSize && Marks(trace) == Marks(old(trace)) + published
      ensures env.claimFails(|rounds|) ==> published == 0 && sys == old(sys) && tries == old(tries) && checks == old(checks)
      ensures !failed ==> tries == old(tries) + Min(|Backlog(old(sys.db))|, batchSize)
      ensures FaultFree(env) && Clear(old(Me().chan)) ==>
                var all := Backlog(old(sys.db));
                && Clear(Me().chan) && Progress(old(sys.db), sys.db, all, published)
                && Me().chan.sent == old(Me().chan.sent) + all[..published]
                && (!failed ==> published == Min(|all|, batchSize))
                && Min(checks, env.cancelAt) <= old(checks) + published
    {
      if env.claimFails(|rounds|) {
        return 0, true;
      }
      ghost var all := Backlog(sys.db);
      Perform(ByWorker(me, ClaimBatch(batchSize, {})));
      assert |Me().pc.batch| == Min(|all|, batchSize);
      published, failed := PublishEach(old(sys.db), all);
      Perform(ByWorker(me, EndBatch));
    }

    /** A fault-free, uninterrupted round moves the backlog on by one batch. */
    lemma RoundAdvances(start: Rows, before: Db, all: seq<nat>, done: nat, published: nat, sent0: seq<nat>)
      requires Valid() && done <= |all| && AllDue(before) && OnlyMarks(start, before.rows, all[..done])
      requires Progress(before, sys.db, all[done..], published) && sys.db == before.(rows := sys.db.rows)
      requires Me().chan.sent == sent0 + all[..done] + all[done..][..published]
      ensures done + published <= |all|
      ensures Me().chan.sent == sent0 + all[..done + published] && Backlog(sys.db) == all[done + published..]
      ensures AllDue(sys.db) && OnlyMarks(start, sys.db.rows, all[..done + published])
    {
      OnlyMarksOnAndOn(start, before.rows, sys.db.rows, all[..done], all[done..][..published]);
      assert all[..done] + all[done..][..published] == all[..done + published];
    }

    /**
     `Run`. It returns only once the context is done. With no faults, no new events and
     everything pending due, a backlog of n is published exactly once and in order, in
     ceil(n / batchSize) rounds that publish something, and the worker sleeps after exactly
     the rounds that found nothing. What was sent is marked in the table, what was not is
     still the backlog, and no other row changed. A context that lasts for one look per round
     and one per event is enough for all of it.
     */
    method Run()
      requires Valid() && Me().pc.Idle? && rounds == [] && checks == 0
      modifies this
      ensures Valid() && checks > env.cancelAt
      ensures forall i :: 0 <= i < |rounds| - 1 ==> !rounds[i].cut
      ensures forall i :: 0 <= i < |rounds| && !rounds[i].cut ==> (rounds[i].slept <==> rounds[i].published == 0)
      ensures sys.db.now == old(sys.db.now) + Passed(env, pollInterval, rounds)
      ensures Marks(trace) == Marks(old(trace)) + Published(rounds)
      ensures FaultFree(env) && Clear(old(Me().chan)) && AllDue(old(sys.db)) ==>
                var all := old(Backlog(sys.db));
                && (forall i :: 0 <= i < |rounds| && !rounds[i].cut ==>
                      rounds[i].published == BatchOf(|all|, batchSize, i) && (rounds[i].published > 0 <==> i < Ceil(|all|, batchSize)))
                && (exists m: nat :: m <= |all| && (|rounds| > Ceil(|all|, batchSize) ==> m == |all|)
                      && Me().chan.sent == old(Me().chan.sent) + all[..m]
                      && Backlog(sys.db) == all[m..] && OnlyMarks(old(sys.db.rows), sys.db.rows, all[..m]))
      ensures FaultFree(env) && Clear(old(Me().chan)) && AllDue(old(sys.db)) ==>
                var all := old(Backlog(sys.db));
                env.cancelAt >= |all| + Ceil(|all|, batchSize) ==>
                  && Me().chan.sent == old(Me().chan.sent) + all
                  && OnlyMarks(old(sys.db.rows), sys.db.rows, all) && Backlog(sys.db) == []
    {
      ghost var o := Opening(sys.db, Me().chan.sent, Marks(trace), FaultFree(env) && Clear(Me().chan) && AllDue(sys.db));
      ghost var all := Backlog(o.db);
      ghost var done: nat := 0;
      var live := true;
      assert all[..0] == [] && all[0..] == all;
      while live
        invariant Between(o, done)
        invariant !live ==> checks > env.cancelAt
        decreases live, env.cancelAt - checks
      {
        if checks + 1 > env.cancelAt {
          checks := checks + 1;
          live := false;
        } else {
          live, done := Turn(o, done);
        }
      }
      if o.smooth {
        forall i | 0 <= i < |rounds| { BatchNonEmpty(|all|, batchSize, i); }
        BatchNonEmpty(|all|, batchSize, Uncut(rounds));
        assert done == |all| ==> all[..done] == all && all[done..] == [];
      }
    }

    /** The loop of Run between two rounds. */
    ghost predicate Between(o: Opening, done: nat)
      reads this
    {
      && Valid() && Me().pc.Idle?
      && Habits(rounds, checks <= env.cancelAt)
      && sys.db.now == o.db.now + Passed(env, pollInterval, rounds) && Marks(trace) == o.marks + Published(rounds)
      && (o.smooth ==> Drained(env, o, done, Me().chan, sys.db) && Tally(env, |Backlog(o.db)|, batchSize, done, rounds, checks))
    }

    /** The claimed and published part of a round, before it is recorded. */
    method Work(ghost o: Opening, ghost done: nat) returns (published: nat)
      requires Valid() && Me().pc.Idle? && checks <= env.cancelAt
      requires o.smooth ==> Drained(env, o, done, Me().chan, sys.db)
      modifies this`sys, this`trace, this`tries, this`checks
      ensures Valid() && Me().pc.Idle? && checks >= old(checks)
      ensures sys.db.now == old(sys.db.now) + env.elapsed(|rounds|) && Marks(trace) == Marks(old(trace)) + published
      ensures o.smooth ==>
                && Drained(env, o, done + published, Me().chan, sys.db) && Min(checks, env.cancelAt) <= old(checks) + published
                && (checks <= env.cancelAt ==> published == Min(|Backlog(o.db)| - done, batchSize))
    {
      Elapse(env.elapsed(|rounds|));
      ghost var before := sys.db;
      var failed;
      published, failed := ProcessBatch();
      if o.smooth {
        RoundAdvances(o.db.rows, before, Backlog(o.db), done, published, o.sent);
      }
    }

    /** The select that ends a round: nothing after a round that published, otherwise the poll interval or the context. */
    method Pause(ghost o: Opening, ghost done: nat, published: nat) returns (round: Round)
      requires Valid() && Me().pc.Idle? && (o.smooth ==> Drained(env, o, done, Me().chan, sys.db))
      modifies this`sys, this`trace, this`checks
      ensures Valid() && Me().pc.Idle? && (o.smooth ==> Drained(env, o, done, Me().chan, sys.db)) && Marks(trace) == Marks(old(trace))
      ensures checks == old(checks) + if published == 0 then 1 else 0
      ensures round == Round(published, published == 0 && checks <= env.cancelAt, checks > env.cancelAt)
      ensures sys.db.now == old(sys.db.now) + if round.slept then pollInterval else 0
    {
      if published > 0 {
        return Round(published, false, checks > env.cancelAt);
      }
      checks := checks + 1;
      if checks > env.cancelAt {
        return Round(0, false, true);
      }
      Elapse(pollInterval);
      return Round(0, true, false);
    }

    /** A look at the context, a round of Run and the wait after it; false when the context ended it. */
    method Turn(ghost o: Opening, ghost done: nat) returns (live: bool, ghost done': nat)
      requires Between(o, done) && checks < env.cancelAt
      modifies this
      ensures checks > old(checks) && (!live ==> checks > env.cancelAt)
      ensures Between(o, done')
    {
      checks := checks + 1;
      var published := Work(o, done);
      ghost var mid := checks;
      done' := done + published;
      var round := Pause(o, done', published);
      OneMoreRound(env, pollInterval, rounds, round);
      HabitsRound(rounds, round);
      if o.smooth {
        TallyRound(env, |Backlog(o.db)|, batchSize, done, rounds, round, old(checks), mid, checks);
      }
      live := published > 0 || !round.cut;
      rounds := rounds + [round];
    }

    /** Time passes; with everything pending already due, the backlog stays what it is. */
    method Elapse(time: nat)
      requires Valid()
      modifies this`sys, this`trace
      ensures Valid() && sys == old(sys).(db := old(sys).db.(now := old(sys).db.now + time))
      ensures Marks(trace) == Marks(old(trace))
      ensures AllDue(old(sys.db)) ==> AllDue(sys.db) && Backlog(sys.db) == old(Backlog(sys.db))
    {
      if AllDue(sys.db) {
        DueLater(sys.db.rows, sys.db.now, sys.db.now + time, 0, sys.db.nextId);
      }
      Perform(Tick(time));
    }
  }
}
