/**
 The event pipeline up to the broker as one labelled transition system: transactions that
 change state and record an event, any number of polling workers whose claims may overlap
 (the row lock ends with the claiming statement), each with its own confirm channel, and
 crashes and failing store or broker calls everywhere. A store call that reports an error
 may or may not have taken effect; both are steps.
 */
module Outbox {
  import opened Prelude
  import opened OutboxTable
  import Publisher
  import Backoff

  datatype Config = Config(initial: Backoff.Duration, maximum: Backoff.Duration)

  /** An open transaction: what it would commit. `half` is a change whose event is not recorded yet. */
  datatype Tx = Tx(half: Option<nat>, ops: set<nat>, events: Rows)

  /** The database as committed, and the transactions still open on it. */
  datatype Db = Db(
    now: int,
    rows: Rows,
    changes: set<nat>,        // state changes that are committed
    nextId: nat,
    nextOp: nat,
    txs: map<nat, Tx>)

  datatype WorkerPc =
    | Idle
    | Looping(batch: seq<Claim>)      // about to publish batch[0]
    | Publishing(batch: seq<Claim>, tag: nat)   // batch[0] is written with this tag, its confirmation awaited
    | Marking(batch: seq<Claim>)      // Publish returned nil for batch[0]
    | Failing(batch: seq<Claim>)      // Publish returned an error for batch[0]

  datatype WorkerState = WorkerState(pc: WorkerPc, chan: Publisher.Chan<nat>)

  /** What happened so far, for stating the guarantees. */
  datatype Ledger = Ledger(
    committed: map<nat, nat>,   // every event ever committed, with its state change
    written: set<nat>,          // events written to a broker channel
    reported: set<nat>,         // events for which a Publish returned nil
    accepted: set<nat>,         // events the broker positively confirmed
    failures: map<nat, nat>,    // stored failures per event
    failedAt: map<nat, int>)    // when the last stored failure was computed

  datatype Sys = Sys(db: Db, workers: map<nat, WorkerState>, ledger: Ledger)

  const INIT := Sys(Db(0, map[], {}, 0, 0, map[]), map[], Ledger(map[], {}, {}, {}, map[], map[]))

  datatype TxStep =
    | Begin | Change | Record
    | Commit   // fn returned nil; also when the commit took effect but its answer was lost
    | Abort    // fn failed or panicked, the commit failed, or the process died

  datatype WorkerStep =
    | Start | Crash
    | ClaimBatch(limit: nat, locked: set<nat>) | EndBatch
    | Write | WriteFails | Answer(ack: bool) | Take | Expire | Drop | ReportsClosed
    | Mark(applied: bool) | Reschedule(applied: bool, reason: string)

  datatype Step =
    | Tick(elapsed: nat) | Prune(before: int)
    | InTx(t: nat, a: TxStep)
    | ByWorker(w: nat, b: WorkerStep)

  // ----- transactions -----

  predicate TxEnabled(db: Db, t: nat, a: TxStep)
  {
    if a.Begin? then t !in db.txs
    else
      t in db.txs &&
      match a
      case Change => db.txs[t].half.None?
      case Record => db.txs[t].half.Some?
      case Commit => db.txs[t].half.None?
      case _ => true
  }

  function Ops(events: Rows): set<nat> { set id | id in events :: events[id].op }

  function TxApply(db: Db, t: nat, a: TxStep): Db
    requires TxEnabled(db, t, a)
  {
    match a
    case Begin => db.(txs := db.txs[t := Tx(None, {}, map[])])
    case Change => db.(nextOp := db.nextOp + 1, txs := db.txs[t := db.txs[t].(half := Some(db.nextOp))])
    case Record =>
      var tx := db.txs[t];
      var row := Row(tx.half.value, None, 0, "", db.now);
      db.(nextId := db.nextId + 1,
          txs := db.txs[t := Tx(None, tx.ops + {tx.half.value}, tx.events[db.nextId := row])])
    case Commit =>
      db.(rows := db.rows + db.txs[t].events, changes := db.changes + db.txs[t].ops, txs := db.txs - {t})
    case Abort => db.(txs := db.txs - {t})
  }

  function CommitEntry(l: Ledger, events: Rows): Ledger
  {
    l.(committed := l.committed + map id | id in events :: events[id].op)
  }

  // ----- workers -----

  predicate WorkerEnabled(s: Sys, w: nat, b: WorkerStep)
  {
    if b.Start? then w !in s.workers
    else
      w in s.workers &&
      var pc, chan := s.workers[w].pc, s.workers[w].chan;
      match b
      case ClaimBatch(_, _) => pc.Idle?
      case EndBatch => pc.Looping?
      case Write => pc.Looping? && |pc.batch| > 0 && Publisher.Can(chan, Publisher.Wrote(pc.batch[0].id))
      case WriteFails => pc.Looping? && |pc.batch| > 0
      case Answer(ack) => Publisher.Can(chan, Publisher.Answered(ack))
      case Take => pc.Publishing? && |pc.batch| > 0 && Publisher.Can(chan, Publisher.Took(pc.tag))
      case Expire => pc.Publishing? && |pc.batch| > 0 && Publisher.Can(chan, Publisher.Expired(pc.tag))
      case Drop => chan.open
      case ReportsClosed => pc.Publishing? && |pc.batch| > 0 && Publisher.Can(chan, Publisher.FoundClosed(pc.tag))
      case Mark(_) => pc.Marking? && |pc.batch| > 0
      case Reschedule(applied, _) =>
        pc.Failing? && |pc.batch| > 0 && (applied ==> CanReschedule(s.db.rows, pc.batch[0].id))
      case _ => true
  }

  function Get(m: map<nat, nat>, id: nat): nat { if id in m then m[id] else 0 }

  function RetryAt(cfg: Config, now: int, c: Claim): int
  {
    now + Backoff.BackoffOf(c.attempts + 1, cfg.initial, cfg.maximum)
  }

  /** The worker's own part of a step: position and channel. */
  function Moved(s: Sys, w: nat, b: WorkerStep): WorkerState
    requires WorkerEnabled(s, w, b) && !b.Start? && !b.Crash?
  {
    var wk := s.workers[w];
    match b
    case ClaimBatch(limit, locked) =>
      wk.(pc := Looping(Claims(s.db.rows, s.db.now, locked, s.db.nextId, limit)))
    case EndBatch => wk.(pc := Idle)
    case Write => WorkerState(Publishing(wk.pc.batch, |wk.chan.sent|), Publisher.Do(wk.chan, Publisher.Wrote(wk.pc.batch[0].id)))
    case WriteFails => wk.(pc := Failing(wk.pc.batch))
    case Answer(ack) => wk.(chan := Publisher.Do(wk.chan, Publisher.Answered(ack)))
    case Take =>
      WorkerState(if wk.chan.verdicts[wk.chan.read] then Marking(wk.pc.batch) else Failing(wk.pc.batch),
             Publisher.Do(wk.chan, Publisher.Took(wk.pc.tag)))
    case Expire => WorkerState(Failing(wk.pc.batch), Publisher.Do(wk.chan, Publisher.Expired(wk.pc.tag)))
    case Drop => wk.(chan := wk.chan.(open := false))
    case ReportsClosed => WorkerState(Failing(wk.pc.batch), Publisher.Do(wk.chan, Publisher.FoundClosed(wk.pc.tag)))
    case Mark(_) => wk.(pc := Looping(wk.pc.batch[1..]))
    case Reschedule(_, _) => wk.(pc := Looping(wk.pc.batch[1..]))
  }

  function WorkerLedger(s: Sys, w: nat, b: WorkerStep): Ledger
    requires WorkerEnabled(s, w, b)
  {
    var l := s.ledger;
    match b
    case Write => l.(written := l.written + {s.workers[w].pc.batch[0].id})
    case Answer(ack) =>
      var chan := s.workers[w].chan;
      if ack then l.(accepted := l.accepted + {chan.sent[|chan.verdicts|]}) else l
    case Take =>
      var wk := s.workers[w];
      if wk.chan.verdicts[wk.chan.read] then l.(reported := l.reported + {wk.pc.batch[0].id}) else l
    case Reschedule(applied, _) =>
      var c := s.workers[w].pc.batch[0];
      if applied && c.id in s.db.rows
      then l.(failures := l.failures[c.id := Get(l.failures, c.id) + 1], failedAt := l.failedAt[c.id := s.db.now])
      else l
    case _ => l
  }

  function WorkerRows(cfg: Config, s: Sys, w: nat, b: WorkerStep): Rows
    requires WorkerEnabled(s, w, b)
  {
    match b
    case Mark(applied) => if applied then Marked(s.db.rows, s.workers[w].pc.batch[0].id, s.db.now) else s.db.rows
    case Reschedule(applied, reason) =>
      var c := s.workers[w].pc.batch[0];
      if applied then Rescheduled(s.db.rows, c.id, reason, RetryAt(cfg, s.db.now, c)) else s.db.rows
    case _ => s.db.rows
  }

  function WorkerApply(cfg: Config, s: Sys, w: nat, b: WorkerStep): Sys
    requires WorkerEnabled(s, w, b)
  {
    match b
    case Start => s.(workers := s.workers[w := WorkerState(Idle, Publisher.Fresh())])
    case Crash => s.(workers := s.workers - {w})
    case _ =>
      Sys(s.db.(rows := WorkerRows(cfg, s, w, b)), s.workers[w := Moved(s, w, b)], WorkerLedger(s, w, b))
  }

  predicate Enabled(s: Sys, step: Step)
  {
    match step
    case InTx(t, a) => TxEnabled(s.db, t, a)
    case ByWorker(w, b) => WorkerEnabled(s, w, b)
    case _ => true
  }

  function Apply(cfg: Config, s: Sys, step: Step): Sys
    requires Enabled(s, step)
  {
    match step
    case Tick(elapsed) => s.(db := s.db.(now := s.db.now + elapsed))
    case Prune(before) => s.(db := s.db.(rows := Pruned(s.db.rows, before)))
    case InTx(t, a) =>
      Sys(TxApply(s.db, t, a), s.workers,
          if a.Commit? then CommitEntry(s.ledger, s.db.txs[t].events) else s.ledger)
    case ByWorker(w, b) => WorkerApply(cfg, s, w, b)
  }

  predicate IsRun(cfg: Config, s: Sys, steps: seq<Step>)
    decreases |steps|
  {
    steps == [] || (Enabled(s, steps[0]) && IsRun(cfg, Apply(cfg, s, steps[0]), steps[1..]))
  }

  function After(cfg: Config, s: Sys, steps: seq<Step>): Sys
    requires IsRun(cfg, s, steps)
    decreases |steps|
  {
    if steps == [] then s else After(cfg, Apply(cfg, s, steps[0]), steps[1..])
  }

  // ----- the database and its transactions -----

  /** The state changes present are exactly those whose event was committed with them. */
  ghost predicate TxInv(db: Db, committed: map<nat, nat>)
  {
    && (forall id :: id in committed ==> id < db.nextId)
    && (forall op :: op in db.changes <==> exists id :: id in committed && committed[id] == op)
    && (forall t :: t in db.txs ==> OpenTxInv(db.txs[t], db.nextId, committed))
    && (forall t, u, id :: t in db.txs && u in db.txs && t != u && id in db.txs[t].events ==> id !in db.txs[u].events)
  }

  ghost predicate OpenTxInv(tx: Tx, nextId: nat, committed: map<nat, nat>)
  {
    && (forall id :: id in tx.events ==> id < nextId && id !in committed)
    && (forall id :: id in tx.events ==> tx.events[id].publishedAt.None? && tx.events[id].attempts == 0)
    && tx.ops == Ops(tx.events)
  }

  lemma OpsOfRecorded(events: Rows, id: nat, row: Row)
    requires id !in events
    ensures Ops(events[id := row]) == Ops(events) + {row.op}
  {
    var more := events[id := row];
    forall op | op in Ops(events) ensures op in Ops(more) {
      var x :| x in events && events[x].op == op;
      assert x in more && more[x].op == op;
    }
    assert id in more && more[id].op == row.op;
  }

  lemma RecordKeepsTxInv(s: Sys, t: nat)
    requires TxInv(s.db, s.ledger.committed) && TxEnabled(s.db, t, Record)
    ensures TxInv(TxApply(s.db, t, Record), s.ledger.committed)
  {
    var tx := s.db.txs[t];
    assert OpenTxInv(tx, s.db.nextId, s.ledger.committed);
    OpsOfRecorded(tx.events, s.db.nextId, Row(tx.half.value, None, 0, "", s.db.now));
    var db := TxApply(s.db, t, Record);
    forall u | u in db.txs ensures OpenTxInv(db.txs[u], db.nextId, s.ledger.committed) {
      assert OpenTxInv(s.db.txs[u], s.db.nextId, s.ledger.committed);
    }
  }

  lemma TxInvStep(s: Sys, t: nat, a: TxStep)
    requires TxInv(s.db, s.ledger.committed) && TxEnabled(s.db, t, a) && !a.Commit?
    ensures TxInv(TxApply(s.db, t, a), s.ledger.committed)
  {
    var db := TxApply(s.db, t, a);
    if a.Record? {
      RecordKeepsTxInv(s, t);
    } else {
      forall u | u in db.txs ensures OpenTxInv(db.txs[u], db.nextId, s.ledger.committed) {
        assert u in s.db.txs ==> OpenTxInv(s.db.txs[u], s.db.nextId, s.ledger.committed);
      }
    }
  }

  lemma CommitKeepsTxInv(s: Sys, t: nat)
    requires TxInv(s.db, s.ledger.committed) && TxEnabled(s.db, t, Commit)
    ensures TxInv(TxApply(s.db, t, Commit), CommitEntry(s.ledger, s.db.txs[t].events).committed)
  {
    var tx := s.db.txs[t];
    assert OpenTxInv(tx, s.db.nextId, s.ledger.committed);
    var before := s.ledger.committed;
    var after := CommitEntry(s.ledger, tx.events).committed;
    var db := TxApply(s.db, t, Commit);
    forall op ensures op in db.changes <==> exists id :: id in after && after[id] == op {
      if op in s.db.changes {
        var id :| id in before && before[id] == op;
        assert id in after && after[id] == op;
      }
      if op in tx.ops {
        var id :| id in tx.events && tx.events[id].op == op;
        assert id in after && after[id] == op;
      }
      if exists id :: id in after && after[id] == op {
        var id :| id in after && after[id] == op;
        if id in tx.events { assert op in Ops(tx.events); } else { assert id in before && before[id] == op; }
      }
    }
    forall u | u in db.txs ensures OpenTxInv(db.txs[u], db.nextId, after) {
      assert OpenTxInv(s.db.txs[u], s.db.nextId, before);
    }
  }

  // ----- no event is lost -----

  /** The worker waits for its own last message and for nothing else: it publishes one at a time. */
  predicate ChanInv(wk: WorkerState, l: Ledger)
  {
    && Publisher.Valid(wk.chan)
    && (forall i :: 0 <= i < |wk.chan.sent| ==> wk.chan.sent[i] in l.written)
    && (forall i :: 0 <= i < |wk.chan.verdicts| && wk.chan.verdicts[i] ==> wk.chan.sent[i] in l.accepted)
    && (!wk.pc.Publishing? ==> wk.chan.waiting == {})
    && (wk.pc.Publishing? ==>
          && |wk.pc.batch| > 0 && wk.chan.waiting == {wk.pc.tag} && wk.chan.lost == 0
          && wk.pc.tag + 1 == |wk.chan.sent| && wk.chan.sent[wk.pc.tag] == wk.pc.batch[0].id)
  }

  predicate BatchInv(wk: WorkerState, l: Ledger)
  {
    && (!wk.pc.Idle? ==> forall i :: 0 <= i < |wk.pc.batch| ==> wk.pc.batch[i].id in l.committed)
    && (wk.pc.Marking? ==> |wk.pc.batch| > 0 && wk.pc.batch[0].id in l.reported)
  }

  predicate WorkerInv(wk: WorkerState, l: Ledger) { ChanInv(wk, l) && BatchInv(wk, l) }

  /** Pending, or passed to a Publish that returned nil. */
  predicate Accounted(rows: Rows, l: Ledger, id: nat)
  {
    id in l.reported || Pending(rows, id)
  }

  predicate RowInv(rows: Rows, l: Ledger)
  {
    && (forall id :: id in rows ==> id in l.committed)
    && (forall id :: id in l.committed ==> Accounted(rows, l, id))
    && (forall id :: id in rows && rows[id].publishedAt.Some? ==> id in l.reported)
    && (forall id :: id in rows ==> rows[id].attempts == Get(l.failures, id))
    && (forall id :: id in l.failures ==> id in l.committed)
    && l.reported <= l.written
    && (forall id :: id in l.written ==> id in l.committed)
  }

  ghost predicate Inv(s: Sys)
  {
    && TxInv(s.db, s.ledger.committed)
    && RowInv(s.db.rows, s.ledger)
    && (forall w :: w in s.workers ==> WorkerInv(s.workers[w], s.ledger))
  }

  lemma CommitKeepsRowInv(s: Sys, t: nat)
    requires TxInv(s.db, s.ledger.committed) && RowInv(s.db.rows, s.ledger) && TxEnabled(s.db, t, Commit)
    ensures RowInv(TxApply(s.db, t, Commit).rows, CommitEntry(s.ledger, s.db.txs[t].events))
  {
  }

  /** A worker's step only ever adds to the ledger. */
  predicate Grows(a: Ledger, b: Ledger)
  {
    && a.written <= b.written && a.reported <= b.reported && a.accepted <= b.accepted
    && (forall id :: id in a.committed ==> id in b.committed && b.committed[id] == a.committed[id])
  }

  lemma WorkerInvGrows(wk: WorkerState, a: Ledger, b: Ledger)
    requires WorkerInv(wk, a) && Grows(a, b)
    ensures WorkerInv(wk, b)
  {
  }

  lemma WorkerRowInv(cfg: Config, s: Sys, w: nat, b: WorkerStep)
    requires Inv(s) && WorkerEnabled(s, w, b)
    ensures RowInv(WorkerRows(cfg, s, w, b), WorkerLedger(s, w, b))
    ensures Grows(s.ledger, WorkerLedger(s, w, b))
    ensures WorkerLedger(s, w, b).committed == s.ledger.committed
  {
    if !b.Start? {
      assert WorkerInv(s.workers[w], s.ledger);
    }
  }

  lemma WrittenChan(s: Sys, w: nat)
    requires w in s.workers && ChanInv(s.workers[w], s.ledger) && WorkerEnabled(s, w, Write)
    ensures ChanInv(Moved(s, w, Write), WorkerLedger(s, w, Write))
  {
  }

  lemma AnsweredChan(s: Sys, w: nat, ack: bool)
    requires w in s.workers && ChanInv(s.workers[w], s.ledger) && WorkerEnabled(s, w, Answer(ack))
    ensures ChanInv(Moved(s, w, Answer(ack)), WorkerLedger(s, w, Answer(ack)))
  {
  }

  lemma MovedChan(s: Sys, w: nat, b: WorkerStep)
    requires w in s.workers && ChanInv(s.workers[w], s.ledger) && WorkerEnabled(s, w, b) && !b.Start? && !b.Crash?
    ensures ChanInv(Moved(s, w, b), WorkerLedger(s, w, b))
  {
    match b
    case Write => WrittenChan(s, w);
    case Answer(ack) => AnsweredChan(s, w, ack);
    case _ =>
  }

  lemma MovedBatch(s: Sys, w: nat, b: WorkerStep)
    requires w in s.workers && RowInv(s.db.rows, s.ledger) && BatchInv(s.workers[w], s.ledger)
    requires WorkerEnabled(s, w, b) && !b.Start? && !b.Crash?
    ensures BatchInv(Moved(s, w, b), WorkerLedger(s, w, b))
  {
  }

  lemma WorkerKeepsInv(cfg: Config, s: Sys, w: nat, b: WorkerStep)
    requires Inv(s) && WorkerEnabled(s, w, b)
    ensures Inv(WorkerApply(cfg, s, w, b))
  {
    WorkerRowInv(cfg, s, w, b);
    var t := WorkerApply(cfg, s, w, b);
    if !b.Start? && !b.Crash? {
      assert WorkerInv(s.workers[w], s.ledger);
      MovedChan(s, w, b);
      MovedBatch(s, w, b);
    }
    forall v | v in t.workers ensures WorkerInv(t.workers[v], t.ledger) {
      if v != w {
        WorkerInvGrows(s.workers[v], s.ledger, t.ledger);
      }
    }
  }

  lemma InvStep(cfg: Config, s: Sys, step: Step)
    requires Inv(s) && Enabled(s, step)
    ensures Inv(Apply(cfg, s, step))
  {
    match step
    case InTx(t, a) =>
      if a.Commit? {
        CommitKeepsTxInv(s, t);
        CommitKeepsRowInv(s, t);
        var l := CommitEntry(s.ledger, s.db.txs[t].events);
        assert OpenTxInv(s.db.txs[t], s.db.nextId, s.ledger.committed);
        forall w | w in s.workers ensures WorkerInv(s.workers[w], l) {
          WorkerInvGrows(s.workers[w], s.ledger, l);
        }
      } else {
        TxInvStep(s, t, a);
      }
    case ByWorker(w, b) => WorkerKeepsInv(cfg, s, w, b);
    case _ =>
  }

  lemma {:induction false} InvRun(cfg: Config, s: Sys, steps: seq<Step>)
    requires Inv(s) && IsRun(cfg, s, steps)
    ensures Inv(After(cfg, s, steps))
    decreases |steps|
  {
    if steps != [] {
      InvStep(cfg, s, steps[0]);
      InvRun(cfg, Apply(cfg, s, steps[0]), steps[1..]);
    }
  }

  /**
   At-least-once, in every interleaving: a committed event is still pending or was passed to
   a Publish that returned nil, a row marked published is one of the latter, nothing was ever
   written to the broker but events of committed transactions, and a state change is present
   exactly when the event recorded with it was committed.
   */
  lemma NoEventIsLost(cfg: Config, steps: seq<Step>)
    requires IsRun(cfg, INIT, steps)
    ensures var s := After(cfg, INIT, steps);
            && (forall id :: id in s.ledger.committed ==> Accounted(s.db.rows, s.ledger, id))
            && (forall id :: id in s.db.rows && s.db.rows[id].publishedAt.Some? ==> id in s.ledger.reported)
            && (forall id :: id in s.ledger.written ==> id in s.ledger.committed)
            && (forall t, id :: t in s.db.txs && id in s.db.txs[t].events ==> id !in s.ledger.written)
            && (forall op :: op in s.db.changes <==> exists id :: id in s.ledger.committed && s.ledger.committed[id] == op)
            && (forall id :: id in s.db.rows ==> s.db.rows[id].attempts == Get(s.ledger.failures, id))
  {
    InvRun(cfg, INIT, steps);
    var s := After(cfg, INIT, steps);
    forall t, id | t in s.db.txs && id in s.db.txs[t].events ensures id !in s.ledger.written {
      assert OpenTxInv(s.db.txs[t], s.db.nextId, s.ledger.committed);
    }
  }

  /** Whatever its state, a row leaves the table exactly by a prune after it was marked before the cut; then it was reported. */
  lemma RowsLeaveOnlyByPruning(cfg: Config, s: Sys, step: Step, id: nat)
    requires Inv(s) && Enabled(s, step) && id in s.db.rows
    ensures id !in Apply(cfg, s, step).db.rows <==>
            step.Prune? && s.db.rows[id].publishedAt.Some? && s.db.rows[id].publishedAt.value < step.before
    ensures id !in Apply(cfg, s, step).db.rows ==> id in s.ledger.reported
  {
  }

  /** A single step never makes a settled event pending again. */
  lemma SettledStep(cfg: Config, s: Sys, step: Step, id: nat)
    requires Inv(s) && Enabled(s, step) && id in s.ledger.committed && !Pending(s.db.rows, id)
    ensures id in Apply(cfg, s, step).ledger.committed && !Pending(Apply(cfg, s, step).db.rows, id)
  {
    match step
    case InTx(t, a) =>
      if a.Commit? { assert OpenTxInv(s.db.txs[t], s.db.nextId, s.ledger.committed); }
    case ByWorker(w, b) => WorkerRowInv(cfg, s, w, b);
    case _ =>
  }

  /** `published_at` never reverts, over whole runs and across pruning. */
  lemma {:induction false} PublishedIsForever(cfg: Config, s: Sys, steps: seq<Step>, id: nat)
    requires Inv(s) && IsRun(cfg, s, steps) && id in s.ledger.committed && !Pending(s.db.rows, id)
    ensures var t := After(cfg, s, steps); id in t.ledger.committed && !Pending(t.db.rows, id)
    decreases |steps|
  {
    if steps != [] {
      SettledStep(cfg, s, steps[0], id);
      InvStep(cfg, s, steps[0]);
      PublishedIsForever(cfg, Apply(cfg, s, steps[0]), steps[1..], id);
    }
  }

  /** An event is due from the moment its transaction commits, if no time was stored for later. */
  lemma CommittedIsDue(cfg: Config, s: Sys, t: nat, id: nat)
    requires Inv(s) && TxEnabled(s.db, t, Commit) && id in s.db.txs[t].events
    requires s.db.txs[t].events[id].availableAt <= s.db.now
    ensures var db := Apply(cfg, s, InTx(t, Commit)).db; Due(db.rows, db.now, id)
  {
    assert OpenTxInv(s.db.txs[t], s.db.nextId, s.ledger.committed);
  }

  /** Recording puts in one new pending row, available at once, for the change just made. */
  lemma RecordedIsNew(s: Sys, t: nat)
    requires Inv(s) && TxEnabled(s.db, t, Record)
    ensures var db := TxApply(s.db, t, Record);
            var id := s.db.nextId;
            && id !in s.ledger.committed && id !in s.db.rows && db.rows == s.db.rows
            && t in db.txs && id in db.txs[t].events && Due(db.txs[t].events, s.db.now, id)
            && db.txs[t].events[id].op == s.db.txs[t].half.value && db.txs[t].events[id].attempts == 0
  {
  }

  // ----- a transaction that was rolled back -----

  /** The event was recorded, is in no open transaction and was not committed. */
  predicate Gone(s: Sys, id: nat)
  {
    id < s.db.nextId && id !in s.ledger.committed && forall t :: t in s.db.txs ==> id !in s.db.txs[t].events
  }

  lemma AbortedIsGone(cfg: Config, s: Sys, t: nat, id: nat)
    requires Inv(s) && TxEnabled(s.db, t, Abort) && id in s.db.txs[t].events
    ensures Gone(Apply(cfg, s, InTx(t, Abort)), id)
    ensures var u := Apply(cfg, s, InTx(t, Abort)); u.db.rows == s.db.rows && u.db.changes == s.db.changes
  {
    assert OpenTxInv(s.db.txs[t], s.db.nextId, s.ledger.committed);
  }

  lemma GoneStep(cfg: Config, s: Sys, step: Step, id: nat)
    requires Gone(s, id) && Enabled(s, step)
    ensures Gone(Apply(cfg, s, step), id)
  {
  }

  lemma {:induction false} GoneRun(cfg: Config, s: Sys, steps: seq<Step>, id: nat)
    requires Inv(s) && Gone(s, id) && IsRun(cfg, s, steps)
    ensures Gone(After(cfg, s, steps), id) && Inv(After(cfg, s, steps))
    decreases |steps|
  {
    if steps != [] {
      GoneStep(cfg, s, steps[0], id);
      InvStep(cfg, s, steps[0]);
      GoneRun(cfg, Apply(cfg, s, steps[0]), steps[1..], id);
    }
  }

  /** What a transaction recorded before it was rolled back is never committed, stored or written to the broker. */
  lemma RolledBackIsNeverPublished(cfg: Config, s: Sys, t: nat, id: nat, steps: seq<Step>)
    requires Inv(s) && TxEnabled(s.db, t, Abort) && id in s.db.txs[t].events
    requires IsRun(cfg, Apply(cfg, s, InTx(t, Abort)), steps)
    ensures var u := After(cfg, Apply(cfg, s, InTx(t, Abort)), steps);
            id !in u.ledger.committed && id !in u.db.rows && id !in u.ledger.written
  {
    AbortedIsGone(cfg, s, t, id);
    InvStep(cfg, s, InTx(t, Abort));
    GoneRun(cfg, Apply(cfg, s, InTx(t, Abort)), steps, id);
  }

  // ----- a channel that dropped -----

  predicate SpareWorker(step: Step, w: nat) { step.ByWorker? && step.w == w ==> !step.b.Crash? }

  /** A worker whose channel dropped writes nothing more on it, however often it tries. */
  lemma {:induction false} ClosedSendsNoMore(cfg: Config, s: Sys, steps: seq<Step>, w: nat)
    requires w in s.workers && !s.workers[w].chan.open && IsRun(cfg, s, steps)
    requires forall i :: 0 <= i < |steps| ==> SpareWorker(steps[i], w)
    ensures var t := After(cfg, s, steps);
            w in t.workers && !t.workers[w].chan.open && t.workers[w].chan.sent == s.workers[w].chan.sent
    decreases |steps|
  {
    if steps != [] {
      assert SpareWorker(steps[0], w);
      ClosedSendsNoMore(cfg, Apply(cfg, s, steps[0]), steps[1..], w);
    }
  }

  lemma DroppedSendsNoMore(cfg: Config, s: Sys, w: nat, steps: seq<Step>)
    requires WorkerEnabled(s, w, Drop) && IsRun(cfg, Apply(cfg, s, ByWorker(w, Drop)), steps)
    requires forall i :: 0 <= i < |steps| ==> SpareWorker(steps[i], w)
    ensures var t := After(cfg, Apply(cfg, s, ByWorker(w, Drop)), steps);
            w in t.workers && t.workers[w].chan.sent == s.workers[w].chan.sent
  {
    ClosedSendsNoMore(cfg, Apply(cfg, s, ByWorker(w, Drop)), steps, w);
  }

  /** A worker that died starts again idle, on a fresh channel, and the database knows nothing of it. */
  lemma RestartIsClean(cfg: Config, s: Sys, w: nat)
    requires WorkerEnabled(s, w, Crash)
    ensures var t := Apply(cfg, s, ByWorker(w, Crash));
            && WorkerEnabled(t, w, Start)
            && var u := Apply(cfg, t, ByWorker(w, Start));
               u.db == s.db && u.ledger == s.ledger && u.workers == s.workers[w := WorkerState(Idle, Publisher.Fresh())]
  {
  }

  // ----- marked means accepted, channel by channel -----

  /** The step reads a confirmation for the event on a channel some publish has left by its deadline. */
  predicate Doubtful(s: Sys, step: Step, id: nat)
  {
    && step.ByWorker? && step.b.Take? && WorkerEnabled(s, step.w, Take)
    && s.workers[step.w].chan.exits > 0 && s.workers[step.w].pc.batch[0].id == id
  }

  predicate NeverDoubtful(cfg: Config, s: Sys, steps: seq<Step>, id: nat)
    requires IsRun(cfg, s, steps)
    decreases |steps|
  {
    steps == [] || (!Doubtful(s, steps[0], id) && NeverDoubtful(cfg, Apply(cfg, s, steps[0]), steps[1..], id))
  }

  /** On a channel no publish has left by its deadline, a positive confirmation is the event's own. */
  lemma TakenMeansAccepted(s: Sys, w: nat)
    requires Inv(s) && WorkerEnabled(s, w, Take) && s.workers[w].chan.exits == 0
    requires s.workers[w].chan.verdicts[s.workers[w].chan.read]
    ensures s.workers[w].pc.batch[0].id in s.ledger.accepted
  {
    assert WorkerInv(s.workers[w], s.ledger);
  }

  lemma AcceptedStep(cfg: Config, s: Sys, step: Step, id: nat)
    requires Inv(s) && Enabled(s, step) && !Doubtful(s, step, id)
    requires id in s.ledger.reported ==> id in s.ledger.accepted
    ensures var l := Apply(cfg, s, step).ledger; id in l.reported ==> id in l.accepted
  {
    if step.ByWorker? && step.b.Take? {
      var wk := s.workers[step.w];
      if wk.pc.batch[0].id == id && wk.chan.verdicts[wk.chan.read] {
        TakenMeansAccepted(s, step.w);
      }
    }
  }

  lemma {:induction false} AcceptedRun(cfg: Config, s: Sys, steps: seq<Step>, id: nat)
    requires Inv(s) && IsRun(cfg, s, steps) && NeverDoubtful(cfg, s, steps, id)
    requires id in s.ledger.reported ==> id in s.ledger.accepted
    ensures var t := After(cfg, s, steps); Inv(t) && (id in t.ledger.reported ==> id in t.ledger.accepted)
    decreases |steps|
  {
    if steps != [] {
      InvStep(cfg, s, steps[0]);
      AcceptedStep(cfg, s, steps[0], id);
      AcceptedRun(cfg, Apply(cfg, s, steps[0]), steps[1..], id);
    }
  }

  /**
   An event ever marked or pruned was positively confirmed itself, unless a confirmation was
   read for it on a channel with a deadline exit behind it; what other channels did is
   immaterial.
   */
  lemma MarkedMeansAccepted(cfg: Config, steps: seq<Step>, id: nat)
    requires IsRun(cfg, INIT, steps) && NeverDoubtful(cfg, INIT, steps, id)
    ensures var s := After(cfg, INIT, steps);
            id in s.ledger.committed ==> Pending(s.db.rows, id) || id in s.ledger.accepted
  {
    AcceptedRun(cfg, INIT, steps, id);
  }

  predicate Expires(step: Step) { step.ByWorker? && step.b.Expire? }

  predicate Punctual(s: Sys) { forall w :: w in s.workers ==> s.workers[w].chan.exits == 0 }

  /** In particular no event is in doubt in a run without deadline exits. */
  lemma {:induction false} PunctualIsNeverDoubtful(cfg: Config, s: Sys, steps: seq<Step>, id: nat)
    requires Punctual(s) && IsRun(cfg, s, steps) && forall i :: 0 <= i < |steps| ==> !Expires(steps[i])
    ensures NeverDoubtful(cfg, s, steps, id)
    decreases |steps|
  {
    if steps != [] {
      assert Punctual(Apply(cfg, s, steps[0]));
      PunctualIsNeverDoubtful(cfg, Apply(cfg, s, steps[0]), steps[1..], id);
    }
  }

  lemma {:induction false} Extend(cfg: Config, s: Sys, steps: seq<Step>, step: Step)
    requires IsRun(cfg, s, steps) && Enabled(After(cfg, s, steps), step)
    ensures IsRun(cfg, s, steps + [step])
    ensures After(cfg, s, steps + [step]) == Apply(cfg, After(cfg, s, steps), step)
    decreases |steps|
  {
    if steps == [] {
      assert ([] + [step])[1..] == [];
    } else {
      Extend(cfg, Apply(cfg, s, steps[0]), steps[1..], step);
      assert (steps + [step])[1..] == steps[1..] + [step];
    }
  }

  ghost predicate Reachable(cfg: Config, s: Sys)
  {
    exists steps :: IsRun(cfg, INIT, steps) && After(cfg, INIT, steps) == s
  }

  lemma Go(cfg: Config, s: Sys, step: Step) returns (t: Sys)
    requires Reachable(cfg, s) && Enabled(s, step)
    ensures t == Apply(cfg, s, step) && Reachable(cfg, t)
  {
    var steps :| IsRun(cfg, INIT, steps) && After(cfg, INIT, steps) == s;
    Extend(cfg, INIT, steps, step);
    t := Apply(cfg, s, step);
  }

  lemma OneEventRecorded(cfg: Config) returns (s: Sys)
    ensures Reachable(cfg, s)
    ensures s == INIT.(db := INIT.db.(nextId := 1, nextOp := 1, txs := map[0 := Tx(None, {0}, map[0 := Row(0, None, 0, "", 0)])]))
  {
    assert IsRun(cfg, INIT, []) && After(cfg, INIT, []) == INIT;
    s := Go(cfg, INIT, InTx(0, Begin));
    s := Go(cfg, s, InTx(0, Change));
    s := Go(cfg, s, InTx(0, Record));
    assert s.db.txs[0].ops == {0} && s.db.txs[0].events == map[0 := Row(0, None, 0, "", 0)];
  }

  lemma TwoEventsCommitted(cfg: Config) returns (s: Sys)
    ensures Reachable(cfg, s) && s.workers == map[] && s.ledger.accepted == {}
    ensures s.db.now == 0 && s.db.nextId == 2 && s.db.rows == map[0 := Row(0, None, 0, "", 0), 1 := Row(1, None, 0, "", 0)]
  {
    s := OneEventRecorded(cfg);
    s := Go(cfg, s, InTx(0, Change));
    s := Go(cfg, s, InTx(0, Record));
    s := Go(cfg, s, InTx(0, Commit));
  }

  lemma BothClaimed(cfg: Config) returns (s: Sys)
    ensures Reachable(cfg, s) && s.ledger.accepted == {} && Pending(s.db.rows, 0) && Pending(s.db.rows, 1)
    ensures s.db.rows[0].attempts == 0
    ensures s.workers == map[0 := WorkerState(Looping([Claim(0, 0), Claim(1, 0)]), Publisher.Fresh())]
  {
    s := TwoEventsCommitted(cfg);
    s := Go(cfg, s, ByWorker(0, Start));
    var rows := s.db.rows;
    assert DueFrom(rows, 0, {}, 2, 2) == [];
    assert DueFrom(rows, 0, {}, 1, 2) == [1];
    assert DueFrom(rows, 0, {}, 0, 2) == [0, 1];
    s := Go(cfg, s, ByWorker(0, ClaimBatch(2, {})));
    assert s.workers[0].pc.batch == [Claim(0, 0), Claim(1, 0)];
  }

  lemma FirstWaitsInVain(cfg: Config) returns (s: Sys)
    ensures Reachable(cfg, s) && Pending(s.db.rows, 1) && s.ledger.accepted == {}
    ensures Pending(s.db.rows, 0) && s.db.rows[0].attempts == 0
    ensures s.workers == map[0 := WorkerState(Failing([Claim(0, 0), Claim(1, 0)]), Publisher.Chan([0], [], 0, 1, 0, {}, true))]
  {
    s := BothClaimed(cfg);
    s := Go(cfg, s, ByWorker(0, Write));
    s := Go(cfg, s, ByWorker(0, Expire));
    assert s.workers[0].chan.sent == [0];
  }

  /** The first publish leaves by its deadline and its confirmation arrives afterwards. */
  lemma FirstExpires(cfg: Config) returns (s: Sys)
    ensures Reachable(cfg, s) && Pending(s.db.rows, 1) && s.ledger.accepted == {0}
    ensures s.workers == map[0 := WorkerState(Looping([Claim(1, 0)]), Publisher.Chan([0], [true], 0, 1, 0, {}, true))]
  {
    s := FirstWaitsInVain(cfg);
    s := Go(cfg, s, ByWorker(0, Answer(true)));
    s := Go(cfg, s, ByWorker(0, Reschedule(true, "")));
    assert [Claim(0, 0), Claim(1, 0)][1..] == [Claim(1, 0)];
    assert s.workers[0].chan.sent == [0] && s.workers[0].chan.verdicts == [true];
    assert s.workers[0] == WorkerState(Looping([Claim(1, 0)]), Publisher.Chan([0], [true], 0, 1, 0, {}, true));
  }

  /**
   With deadline exits the guarantee is lost: after one late confirmation the next event is
   marked on the strength of it, although the broker refused that event.
   */
  lemma LateConfirmationMarksARefusedEvent(cfg: Config) returns (s: Sys)
    ensures Reachable(cfg, s)
    ensures 1 in s.db.rows && s.db.rows[1].publishedAt.Some?
    ensures 1 !in s.ledger.accepted && 0 in s.workers && s.workers[0].chan.sent == [0, 1] && s.workers[0].chan.verdicts == [true, false]
  {
    s := FirstExpires(cfg);
    s := Go(cfg, s, ByWorker(0, Write));
    s := Go(cfg, s, ByWorker(0, Take));
    s := Go(cfg, s, ByWorker(0, Mark(true)));
    s := Go(cfg, s, ByWorker(0, Answer(false)));
  }

  // ----- one worker, one clock: the backoff is respected -----

  predicate Mine(step: Step) { step.ByWorker? ==> step.w == 0 }

  function Wait(cfg: Config, k: nat): int { Backoff.BackoffOf(k, cfg.initial, cfg.maximum) }

  /** A stored failure holds its event back until its own backoff has passed. */
  predicate Spaced(cfg: Config, rows: Rows, l: Ledger)
  {
    forall id :: id in rows && rows[id].attempts > 0 ==>
      id in l.failedAt && rows[id].availableAt == l.failedAt[id] + Wait(cfg, rows[id].attempts)
  }

  /** What the only worker has claimed is still as it claimed it. */
  predicate Untouched(rows: Rows, now: int, batch: seq<Claim>)
  {
    && (forall i, j :: 0 <= i < j < |batch| ==> batch[i].id < batch[j].id)
    && (forall i :: 0 <= i < |batch| ==> Due(rows, now, batch[i].id) && rows[batch[i].id].attempts == batch[i].attempts)
  }

  predicate Solo(cfg: Config, s: Sys)
  {
    && Spaced(cfg, s.db.rows, s.ledger)
    && (forall w :: w in s.workers ==> w == 0)
    && (0 in s.workers && !s.workers[0].pc.Idle? ==> Untouched(s.db.rows, s.db.now, s.workers[0].pc.batch))
  }

  lemma UntouchedRest(a: Rows, b: Rows, now: int, batch: seq<Claim>)
    requires Untouched(a, now, batch) && |batch| > 0
    requires forall id :: id != batch[0].id && id in a ==> id in b && b[id] == a[id]
    ensures Untouched(b, now, batch[1..])
  {
  }

  lemma SoloMark(cfg: Config, s: Sys, applied: bool)
    requires Inv(s) && Solo(cfg, s) && WorkerEnabled(s, 0, Mark(applied))
    ensures Solo(cfg, WorkerApply(cfg, s, 0, Mark(applied)))
  {
    UntouchedRest(s.db.rows, WorkerRows(cfg, s, 0, Mark(applied)), s.db.now, s.workers[0].pc.batch);
  }

  lemma SoloReschedule(cfg: Config, s: Sys, applied: bool, reason: string)
    requires Inv(s) && Solo(cfg, s) && WorkerEnabled(s, 0, Reschedule(applied, reason))
    ensures Solo(cfg, WorkerApply(cfg, s, 0, Reschedule(applied, reason)))
  {
    UntouchedRest(s.db.rows, WorkerRows(cfg, s, 0, Reschedule(applied, reason)), s.db.now, s.workers[0].pc.batch);
  }

  lemma SoloWorker(cfg: Config, s: Sys, b: WorkerStep)
    requires Inv(s) && Solo(cfg, s) && WorkerEnabled(s, 0, b) && !b.Start? && !b.Crash?
    ensures Solo(cfg, WorkerApply(cfg, s, 0, b))
  {
    match b
    case Mark(applied) => SoloMark(cfg, s, applied);
    case Reschedule(applied, reason) => SoloReschedule(cfg, s, applied, reason);
    case _ =>
  }

  lemma SoloCommit(cfg: Config, s: Sys, t: nat)
    requires Inv(s) && Solo(cfg, s) && TxEnabled(s.db, t, Commit)
    ensures Solo(cfg, Apply(cfg, s, InTx(t, Commit)))
  {
    assert OpenTxInv(s.db.txs[t], s.db.nextId, s.ledger.committed);
  }

  lemma SoloStep(cfg: Config, s: Sys, step: Step)
    requires Inv(s) && Solo(cfg, s) && Enabled(s, step) && Mine(step)
    ensures Solo(cfg, Apply(cfg, s, step))
  {
    match step
    case InTx(t, a) => if a.Commit? { SoloCommit(cfg, s, t); }
    case ByWorker(w, b) => if !b.Start? && !b.Crash? { SoloWorker(cfg, s, b); }
    case _ =>
  }

  lemma {:induction false} SoloRun(cfg: Config, s: Sys, steps: seq<Step>)
    requires Inv(s) && Solo(cfg, s) && IsRun(cfg, s, steps)
    requires forall i :: 0 <= i < |steps| ==> Mine(steps[i])
    ensures Inv(After(cfg, s, steps)) && Solo(cfg, After(cfg, s, steps))
    decreases |steps|
  {
    if steps != [] {
      InvStep(cfg, s, steps[0]);
      SoloStep(cfg, s, steps[0]);
      SoloRun(cfg, Apply(cfg, s, steps[0]), steps[1..]);
    }
  }

  /**
   With one worker, an event whose k-th failure was stored is not written to the broker
   again before min(initial * 2^(k-1), maximum) has passed since that failure.
   */
  lemma BackoffIsRespected(cfg: Config, steps: seq<Step>)
    requires IsRun(cfg, INIT, steps) && forall i :: 0 <= i < |steps| ==> Mine(steps[i])
    requires 0 < cfg.initial <= cfg.maximum && Backoff.Lossless(cfg.initial, cfg.maximum)
    requires WorkerEnabled(After(cfg, INIT, steps), 0, Write)
    ensures var s := After(cfg, INIT, steps);
            var id := s.workers[0].pc.batch[0].id;
            var k := Get(s.ledger.failures, id);
            k > 0 ==> id in s.ledger.failedAt
                      && s.ledger.failedAt[id] + Backoff.Capped(k, cfg.initial, cfg.maximum) <= s.db.now
  {
    SoloRun(cfg, INIT, steps);
    var s := After(cfg, INIT, steps);
    var id := s.workers[0].pc.batch[0].id;
    var k := Get(s.ledger.failures, id);
    if k > 0 {
      Backoff.LosslessIsCapped(k, cfg.initial, cfg.maximum);
    }
  }
}
