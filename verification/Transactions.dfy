/**
 `database.WithTx` and the repository's use of it. A call is described by a `Script`: what
 its function executed through the transactional handle, how it ended, and what the
 database answered. A nested `Repository.WithTx` begins a transaction of its own on the
 pool, so it is a script inside the body of another.
 */
module Transactions {

  /** The two halves of a domain operation. */
  datatype Item = StateChange(op: nat) | OutboxRow(op: nat)

  datatype Ending = ReturnsNil | ReturnsErr | Panics

  /** `AnswerLost`: the commit took effect and its acknowledgement did not arrive. */
  datatype CommitFate = Acknowledged | Refused | AnswerLost

  datatype Script = Script(begins: bool, body: seq<Stmt>, ending: Ending, commit: CommitFate, rollbackFails: bool)

  datatype Stmt = Exec(item: Item, ok: bool) | Nested(tx: Script)

  datatype Result =
    | Nil
    | BeginFailed
    | FnFailed(rollbackFailed: bool)
    | CommitFailed
    | Panicked

  // ----- what a call leaves behind -----

  /** What the function writes through its own handle. */
  function Own(body: seq<Stmt>): set<Item>
  {
    set i | 0 <= i < |body| && body[i].Exec? :: body[i].item
  }

  predicate AllExecuted(body: seq<Stmt>) { forall i :: 0 <= i < |body| && body[i].Exec? ==> body[i].ok }

  predicate Lands(s: Script)
  {
    s.begins && s.ending == ReturnsNil && AllExecuted(s.body) && s.commit != Refused
  }

  function Effects(s: Script): set<Item>
    decreases s, 1
  {
    if !s.begins then {}
    else NestedEffects(s.body) + if Lands(s) then Own(s.body) else {}
  }

  function NestedEffects(body: seq<Stmt>): set<Item>
    decreases body, 0
  {
    if body == [] then {}
    else (if body[0].Nested? then var st := body[0]; assert st.tx < st; Effects(st.tx) else {}) + NestedEffects(body[1..])
  }

  /** Everything a script writes if nothing goes wrong anywhere. */
  function Items(s: Script): set<Item>
    decreases s, 1
  {
    Own(s.body) + NestedItems(s.body)
  }

  function NestedItems(body: seq<Stmt>): set<Item>
    decreases body, 0
  {
    if body == [] then {}
    else (if body[0].Nested? then var st := body[0]; assert st.tx < st; Items(st.tx) else {}) + NestedItems(body[1..])
  }

  lemma {:induction false} NestedEffectsAppend(body: seq<Stmt>, st: Stmt)
    ensures NestedEffects(body + [st]) == NestedEffects(body) + if st.Nested? then Effects(st.tx) else {}
    decreases |body|
  {
    if body == [] {
      assert body + [st] == [st] && [st][1..] == [];
    } else {
      NestedEffectsAppend(body[1..], st);
      assert (body + [st])[1..] == body[1..] + [st];
    }
  }

  // ----- the code -----

  datatype Tx = Tx(writes: set<Item>, broken: bool)

  class Database {
    var committed: set<Item>
    var open: map<nat, Tx>
    var next: nat

    ghost predicate Valid()
      reads this
    {
      forall t :: t in open ==> t < next
    }

    constructor ()
      ensures Valid() && committed == {} && open == map[]
    {
      committed, open, next := {}, map[], 0;
    }

    method Begin() returns (t: nat)
      requires Valid()
      modifies this`open, this`next
      ensures Valid() && t == old(next) && next > old(next) && t !in old(open) && open == old(open)[t := Tx({}, false)]
    {
      t := next;
      open := open[t := Tx({}, false)];
      next := next + 1;
    }

    /** A commit ends the transaction whatever it answers; a broken one can only be refused. */
    method Commit(t: nat, fate: CommitFate) returns (ok: bool)
      requires Valid() && t in open
      modifies this`open, this`committed
      ensures Valid() && open == old(open) - {t}
      ensures committed == old(committed) + if !old(open)[t].broken && fate != Refused then old(open)[t].writes else {}
      ensures ok <==> !old(open)[t].broken && fate == Acknowledged
    {
      var tx := open[t];
      open := open - {t};
      if !tx.broken && fate != Refused {
        committed := committed + tx.writes;
      }
      ok := !tx.broken && fate == Acknowledged;
    }

    /** A rollback ends the transaction even when it reports an error: the connection is dropped. */
    method Rollback(t: nat, fails: bool) returns (failed: bool)
      requires Valid()
      modifies this`open
      ensures Valid() && open == old(open) - {t} && (failed <==> t in old(open) && fails)
    {
      failed := t in open && fails;   // on a finished transaction: ErrTxClosed, not reported
      open := open - {t};
    }

    /** The caller's function, run on the handle of transaction `t`. */
    method RunBody(t: nat, body: seq<Stmt>)
      requires Valid() && t in open && open[t] == Tx({}, false)
      modifies this
      ensures Valid() && next >= old(next)
      ensures t in open && open == old(open)[t := Tx(open[t].writes, !AllExecuted(body))]
      ensures AllExecuted(body) ==> open[t].writes == Own(body)
      ensures committed == old(committed) + NestedEffects(body)
      decreases body, 0
    {
      for i := 0 to |body|
        invariant Valid() && next >= old(next)
        invariant t in open && open == old(open)[t := Tx(open[t].writes, !AllExecuted(body[..i]))]
        invariant AllExecuted(body[..i]) ==> open[t].writes == Own(body[..i])
        invariant committed == old(committed) + NestedEffects(body[..i])
      {
        assert body[..i + 1] == body[..i] + [body[i]];
        NestedEffectsAppend(body[..i], body[i]);
        OwnAppend(body[..i], body[i]);
        match body[i]
        case Exec(item, ok) =>
          var tx := open[t];
          open := open[t := if ok then Tx(tx.writes + {item}, tx.broken) else Tx(tx.writes, true)];
        case Nested(sub) =>
          assert body[i].tx < body[i];
          var _ := WithTx(sub);
      }
      assert body[..|body|] == body;
    }

    /** `WithTx`: commit on nil, roll back on error or panic. */
    method WithTx(s: Script) returns (r: Result)
      requires Valid()
      modifies this
      ensures Valid() && next >= old(next)
      ensures open == old(open)
      ensures committed == old(committed) + Effects(s)
      ensures r == Nil <==> s.begins && s.ending == ReturnsNil && AllExecuted(s.body) && s.commit == Acknowledged
      ensures r == Nil ==> Own(s.body) <= committed
      ensures r == Panicked <==> s.begins && s.ending == Panics
      ensures r.FnFailed? <==> s.begins && s.ending == ReturnsErr
      ensures r.FnFailed? ==> (r.rollbackFailed <==> s.rollbackFails)
      ensures r == BeginFailed <==> !s.begins
      decreases s, 1
    {
      if !s.begins {
        return BeginFailed;
      }
      var t := Begin();
      RunBody(t, s.body);
      if s.ending == Panics {
        var _ := Rollback(t, s.rollbackFails);
        r := Panicked;
      } else if s.ending == ReturnsErr {
        var also := Rollback(t, s.rollbackFails);
        r := FnFailed(also);
      } else {
        var ok := Commit(t, s.commit);
        if ok {
          r := Nil;
        } else {
          var _ := Rollback(t, s.rollbackFails);
          r := CommitFailed;
        }
      }
      assert open == old(open);
    }
  }

  lemma OwnAppend(body: seq<Stmt>, st: Stmt)
    ensures Own(body + [st]) == Own(body) + if st.Exec? then {st.item} else {}
    ensures AllExecuted(body + [st]) <==> AllExecuted(body) && (st.Exec? ==> st.ok)
  {
    var more := body + [st];
    forall x | x in Own(body) ensures x in Own(more) {
      var i :| 0 <= i < |body| && body[i].Exec? && body[i].item == x;
      assert more[i] == body[i];
    }
    assert more[|body|] == st;
    assert forall i :: 0 <= i < |body| ==> more[i] == body[i];
  }

  // ----- atomicity -----

  /** A state change and its event are both in the database or both absent. */
  ghost predicate Paired(items: set<Item>)
  {
    forall op :: StateChange(op) in items <==> OutboxRow(op) in items
  }

  predicate Flat(s: Script) { forall i :: 0 <= i < |s.body| ==> s.body[i].Exec? }

  lemma {:induction false} FlatNestsNothing(body: seq<Stmt>)
    requires forall i :: 0 <= i < |body| ==> body[i].Exec?
    ensures NestedEffects(body) == {} && NestedItems(body) == {}
    decreases |body|
  {
    if body != [] {
      FlatNestsNothing(body[1..]);
    }
  }

  /**
   An un-nested call whose function returns nil only after recording the event of every
   change it made keeps the database paired, whatever fails.
   */
  lemma FlatKeepsPaired(s: Script, committed: set<Item>)
    requires Flat(s) && Paired(committed)
    requires s.ending == ReturnsNil ==> Paired(Own(s.body))
    ensures Paired(committed + Effects(s))
    ensures Effects(s) == {} || Effects(s) == Own(s.body)
  {
    FlatNestsNothing(s.body);
  }

  /** The same calls with every failure removed. */
  function Undisturbed(s: Script): Script
    decreases s, 1
  {
    Script(true, UndisturbedBody(s.body), ReturnsNil, Acknowledged, false)
  }

  function UndisturbedBody(body: seq<Stmt>): (r: seq<Stmt>)
    ensures |r| == |body|
    decreases body, 0
  {
    if body == [] then []
    else
      var st := body[0];
      [if st.Nested? then assert st.tx < st; Nested(Undisturbed(st.tx)) else Exec(st.item, true)] + UndisturbedBody(body[1..])
  }

  lemma {:induction false} UndisturbedAt(body: seq<Stmt>, i: nat)
    requires i < |body|
    ensures UndisturbedBody(body)[i] == if body[i].Nested? then Nested(Undisturbed(body[i].tx)) else Exec(body[i].item, true)
    decreases |body|
  {
    if i > 0 {
      UndisturbedAt(body[1..], i - 1);
    }
  }

  lemma UndisturbedOwn(body: seq<Stmt>)
    ensures Own(UndisturbedBody(body)) == Own(body) && AllExecuted(UndisturbedBody(body))
  {
    var calm := UndisturbedBody(body);
    forall i | 0 <= i < |body|
      ensures calm[i].Exec? == body[i].Exec? && (body[i].Exec? ==> calm[i] == Exec(body[i].item, true))
    {
      UndisturbedAt(body, i);
    }
    forall x | x in Own(body) ensures x in Own(calm) {
      var i :| 0 <= i < |body| && body[i].Exec? && body[i].item == x;
      assert calm[i].item == x;
    }
  }

  lemma {:induction false} UndisturbedLandsEverything(s: Script)
    ensures Effects(Undisturbed(s)) == Items(s)
    decreases s, 1
  {
    UndisturbedOwn(s.body);
    UndisturbedNested(s.body);
  }

  lemma {:induction false} UndisturbedNested(body: seq<Stmt>)
    ensures NestedEffects(UndisturbedBody(body)) == NestedItems(body)
    decreases body, 0
  {
    if body != [] {
      UndisturbedNested(body[1..]);
      assert UndisturbedBody(body)[1..] == UndisturbedBody(body[1..]);
      if body[0].Nested? {
        assert body[0].tx < body[0];
        UndisturbedLandsEverything(body[0].tx);
      }
    }
  }

  lemma {:induction false} UndisturbedIsIdempotent(s: Script)
    ensures Undisturbed(Undisturbed(s)) == Undisturbed(s)
    decreases s, 1
  {
    UndisturbedTwice(s.body);
  }

  lemma {:induction false} UndisturbedTwice(body: seq<Stmt>)
    ensures UndisturbedBody(UndisturbedBody(body)) == UndisturbedBody(body)
    decreases body, 0
  {
    if body != [] {
      UndisturbedTwice(body[1..]);
      assert UndisturbedBody(body)[1..] == UndisturbedBody(body[1..]);
      if body[0].Nested? {
        assert body[0].tx < body[0];
        UndisturbedIsIdempotent(body[0].tx);
      }
    }
  }

  /** Two executions of the same program under different luck. */
  predicate SameProgram(a: Script, b: Script) { Undisturbed(a) == Undisturbed(b) }

  ghost predicate AllOrNothing(s: Script)
  {
    forall t :: SameProgram(s, t) ==> Effects(t) == {} || Effects(t) == Items(s)
  }

  lemma {:induction false} EffectsWithin(s: Script)
    ensures Effects(s) <= Items(s)
    decreases s, 1
  {
    NestedEffectsWithin(s.body);
  }

  lemma {:induction false} NestedEffectsWithin(body: seq<Stmt>)
    ensures NestedEffects(body) <= NestedItems(body)
    decreases body, 0
  {
    if body != [] {
      NestedEffectsWithin(body[1..]);
      if body[0].Nested? {
        assert body[0].tx < body[0];
        EffectsWithin(body[0].tx);
      }
    }
  }

  lemma SameProgramSameItems(a: Script, b: Script)
    requires SameProgram(a, b)
    ensures Own(a.body) == Own(b.body) && NestedItems(a.body) == NestedItems(b.body)
  {
    UndisturbedOwn(a.body);
    UndisturbedOwn(b.body);
    UndisturbedNested(a.body);
    UndisturbedNested(b.body);
  }

  /**
   A transaction that writes something of its own is all-or-nothing under every fate exactly
   when it nests no transaction that writes: `Repository.WithTx` inside another escapes it.
   */
  lemma AtomicIffNothingNested(s: Script)
    requires Own(s.body) != {} && Own(s.body) !! NestedItems(s.body)
    ensures AllOrNothing(s) <==> NestedItems(s.body) == {}
  {
    if NestedItems(s.body) == {} {
      forall t | SameProgram(s, t) ensures Effects(t) == {} || Effects(t) == Items(s) {
        SameProgramSameItems(s, t);
        NestedEffectsWithin(t.body);
      }
    } else {
      var t := Undisturbed(s).(ending := ReturnsErr);
      UndisturbedTwice(s.body);
      UndisturbedNested(s.body);
      assert SameProgram(s, t);
      assert Effects(t) == NestedItems(s.body);
      var x :| x in Own(s.body);
      assert x in Items(s) && x !in Effects(t);
    }
  }
}
