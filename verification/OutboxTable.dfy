/**
 The outbox table and the five statements that change or read it. Identifiers grow with
 every insert, so `order by id` is insertion order.
 */
module OutboxTable {
  import opened Prelude

  datatype Row = Row(
    op: nat,                    // the state change the event belongs to
    publishedAt: Option<int>,
    attempts: nat,
    lastError: string,
    availableAt: int)

  type Rows = map<nat, Row>

  /** An event as the store hands it out. */
  datatype Claim = Claim(id: nat, attempts: nat)

  predicate Pending(rows: Rows, id: nat) { id in rows && rows[id].publishedAt.None? }

  predicate Due(rows: Rows, now: int, id: nat) { Pending(rows, id) && rows[id].availableAt <= now }

  /** The identifiers in [lo, hi) that are due and not locked, ascending. */
  function DueFrom(rows: Rows, now: int, locked: set<nat>, lo: nat, hi: nat): seq<nat>
    decreases hi - lo
  {
    if lo >= hi then []
    else
      var rest := DueFrom(rows, now, locked, lo + 1, hi);
      if Due(rows, now, lo) && lo !in locked then [lo] + rest else rest
  }

  /** `r` holds exactly the due and unlocked identifiers of [lo, hi), ascending. */
  predicate Lists(r: seq<nat>, rows: Rows, now: int, locked: set<nat>, lo: nat, hi: nat)
  {
    && (forall i :: 0 <= i < |r| ==> lo <= r[i] < hi && Due(rows, now, r[i]) && r[i] !in locked)
    && (forall i, j :: 0 <= i < j < |r| ==> r[i] < r[j])
    && (forall id :: lo <= id < hi && Due(rows, now, id) && id !in locked ==> id in r)
  }

  lemma ListsPrepend(rest: seq<nat>, rows: Rows, now: int, locked: set<nat>, lo: nat, hi: nat)
    requires Lists(rest, rows, now, locked, lo + 1, hi) && lo < hi && Due(rows, now, lo) && lo !in locked
    ensures Lists([lo] + rest, rows, now, locked, lo, hi)
  {
    var r := [lo] + rest;
    forall i | 0 <= i < |r| ensures lo <= r[i] < hi && Due(rows, now, r[i]) && r[i] !in locked {
      assert r[i] == if i == 0 then lo else rest[i - 1];
    }
    forall i, j | 0 <= i < j < |r| ensures r[i] < r[j] {
      assert r[j] == rest[j - 1] && r[i] == if i == 0 then lo else rest[i - 1];
    }
    forall id | lo <= id < hi && Due(rows, now, id) && id !in locked ensures id in r {
      if id == lo { assert r[0] == id; } else { assert id in rest; }
    }
  }

  lemma {:induction false} DueFromIsExact(rows: Rows, now: int, locked: set<nat>, lo: nat, hi: nat)
    ensures Lists(DueFrom(rows, now, locked, lo, hi), rows, now, locked, lo, hi)
    decreases hi - lo
  {
    if lo < hi {
      DueFromIsExact(rows, now, locked, lo + 1, hi);
      if Due(rows, now, lo) && lo !in locked {
        ListsPrepend(DueFrom(rows, now, locked, lo + 1, hi), rows, now, locked, lo, hi);
      }
    }
  }

  function First(s: seq<nat>, limit: nat): seq<nat> { if |s| <= limit then s else s[..limit] }

  predicate Bounded(rows: Rows, hi: nat) { forall id :: id in rows ==> id < hi }

  /** `ClaimPendingOutboxEvents`; `locked` are the rows other statements hold meanwhile. */
  function ClaimedIds(rows: Rows, now: int, locked: set<nat>, hi: nat, limit: nat): seq<nat>
  {
    First(DueFrom(rows, now, locked, 0, hi), limit)
  }

  function Events(rows: Rows, ids: seq<nat>): (r: seq<Claim>)
    requires forall i :: 0 <= i < |ids| ==> ids[i] in rows
    ensures |r| == |ids| && forall i :: 0 <= i < |r| ==> r[i] == Claim(ids[i], rows[ids[i]].attempts)
  {
    seq(|ids|, i requires 0 <= i < |ids| => Claim(ids[i], rows[ids[i]].attempts))
  }

  function Claims(rows: Rows, now: int, locked: set<nat>, hi: nat, limit: nat): (r: seq<Claim>)
    ensures |r| <= limit
    ensures forall i :: 0 <= i < |r| ==> Due(rows, now, r[i].id) && r[i].id < hi && r[i].attempts == rows[r[i].id].attempts
    ensures forall i, j :: 0 <= i < j < |r| ==> r[i].id < r[j].id
  {
    DueFromIsExact(rows, now, locked, 0, hi);
    var ids := ClaimedIds(rows, now, locked, hi, limit);
    assert forall i :: 0 <= i < |ids| ==> ids[i] == DueFrom(rows, now, locked, 0, hi)[i];
    Events(rows, ids)
  }

  /**
   What a claim returns, without saying how: ascending, due, unlocked, at most `limit`, and
   every due unlocked row it leaves out comes after all it takes, with the batch full.
   */
  lemma ClaimsAreTheOldestDue(rows: Rows, now: int, locked: set<nat>, hi: nat, limit: nat, id: nat)
    requires Bounded(rows, hi) && Due(rows, now, id) && id !in locked
    ensures var ids := ClaimedIds(rows, now, locked, hi, limit);
            id in ids || (|ids| == limit && forall x :: x in ids ==> x < id)
  {
    DueFromIsExact(rows, now, locked, 0, hi);
    var all := DueFrom(rows, now, locked, 0, hi);
    var k :| 0 <= k < |all| && all[k] == id;
    if |all| > limit {
      var ids := all[..limit];
      if k < limit {
        assert ids[k] == id;
      }
    }
  }

  /** `MarkOutboxEventPublished`; a missing row is not an error. */
  function Marked(rows: Rows, id: nat, now: int): Rows
  {
    if id in rows then rows[id := rows[id].(publishedAt := Some(now))] else rows
  }

  /** An increment past int32 is refused by the column's type. */
  predicate CanReschedule(rows: Rows, id: nat) { id in rows ==> rows[id].attempts < MAX_INT32 }

  /** `RescheduleOutboxEvent`. */
  function Rescheduled(rows: Rows, id: nat, reason: string, retryAt: int): Rows
  {
    if id in rows
    then rows[id := rows[id].(attempts := rows[id].attempts + 1, lastError := reason, availableAt := retryAt)]
    else rows
  }

  /** `DeletePublishedOutboxEventsBefore`. */
  function Pruned(rows: Rows, before: int): Rows
  {
    map id | id in rows && !(rows[id].publishedAt.Some? && rows[id].publishedAt.value < before) :: rows[id]
  }

  /** A mark records the clock's time and nothing else; it takes the row out of what is pending for good. */
  lemma MarkedRow(rows: Rows, id: nat, now: int, other: nat)
    requires id in rows
    ensures var t := Marked(rows, id, now);
            && t.Keys == rows.Keys && t[id].publishedAt == Some(now) && !Pending(t, id)
            && t[id].op == rows[id].op && t[id].attempts == rows[id].attempts
            && t[id].lastError == rows[id].lastError && t[id].availableAt == rows[id].availableAt
            && (other in rows && other != id ==> t[other] == rows[other])
  {
  }

  /** A reschedule counts one failure with its reason and holds the event back until exactly its time. */
  lemma RescheduledRow(rows: Rows, id: nat, reason: string, retryAt: int, now: int, other: nat)
    requires Pending(rows, id)
    ensures var t := Rescheduled(rows, id, reason, retryAt);
            && t.Keys == rows.Keys && t[id].attempts == rows[id].attempts + 1 && t[id].lastError == reason
            && t[id].op == rows[id].op && (Due(t, now, id) <==> retryAt <= now)
            && (other in rows && other != id ==> t[other] == rows[other])
  {
  }

  /** A prune keeps exactly the rows that are pending or were published at the cut or later, as they are. */
  lemma PrunedIffPublishedBefore(rows: Rows, before: int, id: nat)
    requires id in rows
    ensures id !in Pruned(rows, before) <==> !Pending(rows, id) && rows[id].publishedAt.value < before
    ensures id in Pruned(rows, before) ==> Pruned(rows, before)[id] == rows[id]
  {
  }

  /** One identifier at a time: in if due, skipped if not. */
  lemma DueHead(rows: Rows, now: int, lo: nat, hi: nat)
    requires lo < hi
    ensures Due(rows, now, lo) ==> DueFrom(rows, now, {}, lo, hi) == [lo] + DueFrom(rows, now, {}, lo + 1, hi)
    ensures !Due(rows, now, lo) ==> DueFrom(rows, now, {}, lo, hi) == DueFrom(rows, now, {}, lo + 1, hi)
  {
  }

  /** Marking the head of what is due leaves the rest due, in the same order. */
  lemma {:induction false} DueAfterMark(rows: Rows, now: int, at: int, id: nat, lo: nat, hi: nat)
    requires lo <= id && Due(rows, now, id)
    requires DueFrom(rows, now, {}, lo, hi) != [] && DueFrom(rows, now, {}, lo, hi)[0] == id
    ensures DueFrom(Marked(rows, id, at), now, {}, lo, hi) == DueFrom(rows, now, {}, lo, hi)[1..]
    decreases hi - lo
  {
    var marked := Marked(rows, id, at);
    if lo < hi {
      DueHead(rows, now, lo, hi);
      DueHead(marked, now, lo, hi);
      if lo == id {
        DueUnchangedAbove(rows, marked, now, lo + 1, hi);
      } else {
        DueAfterMark(rows, now, at, id, lo + 1, hi);
      }
    }
  }

  lemma {:induction false} DueUnchangedAbove(a: Rows, b: Rows, now: int, lo: nat, hi: nat)
    requires forall id :: lo <= id < hi ==> (Due(a, now, id) <==> Due(b, now, id))
    ensures DueFrom(a, now, {}, lo, hi) == DueFrom(b, now, {}, lo, hi)
    decreases hi - lo
  {
    if lo < hi {
      DueUnchangedAbove(a, b, now, lo + 1, hi);
    }
  }

  /** With everything pending already due, the passing of time changes nothing. */
  lemma {:induction false} DueLater(rows: Rows, now: int, later: int, lo: nat, hi: nat)
    requires now <= later && forall id :: Pending(rows, id) ==> rows[id].availableAt <= now
    ensures DueFrom(rows, now, {}, lo, hi) == DueFrom(rows, later, {}, lo, hi)
    decreases hi - lo
  {
    if lo < hi {
      DueLater(rows, now, later, lo + 1, hi);
    }
  }
}
