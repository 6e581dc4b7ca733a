/**
 The consumer's shutdown protocol: `Consume`/`stop`/`cancel`/`drain` against a concurrent
 `Close`/`keepDrained`, over the library's single dispatcher. The dispatcher hands frames
 over synchronously and in order, so an unread delivery holds back every reply behind it.

 The model starts once the subscription has been confirmed. Handlers return, the broker
 answers, and the drain timer does not fire first. A critical section that cannot block
 inside (the `mu` field guard) is one step.

 `Design` switches off, one at a time, the three measures the code takes, so that what each
 of them buys can be stated.
 */
module Shutdown {
  import opened Prelude

  datatype Design = Design(
    serialized: bool,   // replies are awaited under the rpc mutex
    drainFirst: bool,   // stop starts its drain before it cancels
    closeDrains: bool)  // Close keeps the deliveries moving while it waits

  const AS_WRITTEN := Design(true, true, true)

  datatype ConsumePc =
    | Registered | Serving | Handling(id: nat)
    | Spawn | Lock | Check | Send | Wait | Unlock | Join | Returned

  datatype ClosePc = Idle | Read | CLock | CSend | CWait | CUnlock | Halt | CJoin | CReturned

  datatype Drainer = Absent | Running | Done

  datatype Holder = Nobody | Canceler | Closer

  /** Frames the client writes, in order. */
  datatype Out = Settle(id: nat) | CancelReq | CloseReq

  /** Frames the broker writes, in order. */
  datatype In = Deliver(id: nat) | CancelOk | CloseOk

  /** Where the goroutines of this process stand. */
  datatype Control = Control(
    ctxDone: bool,
    fieldSet: bool,        // Consume has stored the deliveries channel
    c: ConsumePc,
    k: ClosePc,
    d1: Drainer,           // the drain started by stop
    d2: Drainer,           // the drain started by keepDrained
    holder: Holder)        // the rpc mutex

  datatype Wire = Wire(
    outgoing: seq<Out>,
    incoming: seq<In>,
    subscribed: bool,      // the broker still delivers
    open: bool,            // the broker's end of the channel
    closed: bool,          // the client's end is known to be closed
    shut: bool)            // the deliveries channel is closed

  /** Where the delivered messages are. */
  datatype Books = Books(
    unacked: set<nat>,     // delivered and still the broker's
    settled: set<nat>,     // given up by the broker after an acknowledgement
    drained: set<nat>,     // read and discarded by a drainer
    acked: set<nat>,       // acknowledged by their handler while the channel was up
    next: nat)

  datatype State = State(g: Control, w: Wire, b: Books)

  datatype Reader = Loop | FirstDrain | SecondDrain

  datatype EnvStep = CancelContext | CallClose | BrokerDelivers | ConnectionDrops

  datatype ConsumeStep =
    | StoresField | SeesCancel | SeesShut | HandlerReturns(settles: bool)
    | SpawnsDrain | Locks | Checks | Sends | WaitFails | Unlocks | Joins | DrainEnds

  datatype CloseStep =
    | CloseReads | CloseLocks | CloseSends | CloseWaitFails | CloseUnlocks | CloseHalts | CloseJoins
    | KeepDrainedEnds

  /** The dispatcher, and the broker reading what was written to it. */
  datatype WireStep = HandsOver(to: Reader) | Discards | ReplyToCancel | ReplyToClose | BrokerReads

  datatype Step = Env(e: EnvStep) | ByConsume(c: ConsumeStep) | ByClose(k: CloseStep) | OnWire(f: WireStep)

  predicate Reads(g: Control, r: Reader)
  {
    match r
    case Loop => g.c == Serving
    case FirstDrain => g.d1 == Running
    case SecondDrain => g.d2 == Running
  }

  predicate Free(d: Design, g: Control) { !d.serialized || g.holder == Nobody }

  predicate EnvEnabled(p: nat, s: State, e: EnvStep)
  {
    match e
    case CancelContext => !s.g.ctxDone
    case CallClose => s.g.k == Idle
    case BrokerDelivers => s.w.open && s.w.subscribed && |s.b.unacked| < p
    case ConnectionDrops => !s.w.closed
  }

  function EnvApply(s: State, e: EnvStep): State
  {
    match e
    case CancelContext => s.(g := s.g.(ctxDone := true))
    case CallClose => s.(g := s.g.(k := Read))
    case BrokerDelivers =>
      s.(b := s.b.(unacked := s.b.unacked + {s.b.next}, next := s.b.next + 1),
         w := s.w.(incoming := s.w.incoming + [Deliver(s.b.next)]))
    case ConnectionDrops =>
      s.(w := Wire([], [], s.w.subscribed, false, true, true))
  }

  predicate ConsumeEnabled(d: Design, s: State, e: ConsumeStep)
  {
    match e
    case StoresField => s.g.c == Registered
    case SeesCancel => s.g.c == Serving && s.g.ctxDone
    case SeesShut => s.g.c == Serving && s.w.shut
    case HandlerReturns(_) => s.g.c.Handling?
    case SpawnsDrain => s.g.c == Spawn
    case Locks => s.g.c == Lock && Free(d, s.g)
    case Checks => s.g.c == Check
    case Sends => s.g.c == Send
    case WaitFails => s.g.c == Wait && s.w.closed
    case Unlocks => s.g.c == Unlock
    case Joins => s.g.c == Join && s.g.d1 == Done
    case DrainEnds => s.g.d1 == Running && s.w.shut
  }

  function ConsumeApply(d: Design, s: State, e: ConsumeStep): State
    requires ConsumeEnabled(d, s, e)
  {
    var g, w := s.g, s.w;
    match e
    case StoresField => s.(g := g.(fieldSet := true, c := Serving))
    case SeesCancel => s.(g := g.(c := if d.drainFirst then Spawn else Lock))
    case SeesShut => s.(g := g.(c := Returned))
    case HandlerReturns(settles) =>
      State(g.(c := Serving),
            if settles && !w.closed then w.(outgoing := w.outgoing + [Settle(g.c.id)]) else w,
            if settles && !w.closed then s.b.(acked := s.b.acked + {g.c.id}) else s.b)
    case SpawnsDrain => s.(g := g.(d1 := Running, c := if d.drainFirst then Lock else Join))
    case Locks => s.(g := g.(holder := Canceler, c := Check))
    case Checks => s.(g := g.(c := if w.closed then Unlock else Send))
    case Sends =>
      if w.closed then s.(g := g.(c := Unlock))
      else State(g.(c := Wait), w.(outgoing := w.outgoing + [CancelReq]), s.b)
    case WaitFails => s.(g := g.(c := Unlock))
    case Unlocks => s.(g := g.(holder := Nobody, c := if d.drainFirst then Join else Spawn))
    case Joins => s.(g := g.(c := Returned))
    case DrainEnds => s.(g := g.(d1 := Done))
  }

  predicate CloseEnabled(d: Design, s: State, e: CloseStep)
  {
    match e
    case CloseReads => s.g.k == Read
    case CloseLocks => s.g.k == CLock && Free(d, s.g)
    case CloseSends => s.g.k == CSend
    case CloseWaitFails => s.g.k == CWait && s.w.closed
    case CloseUnlocks => s.g.k == CUnlock
    case CloseHalts => s.g.k == Halt
    case CloseJoins => s.g.k == CJoin && s.g.d2 != Running
    case KeepDrainedEnds => s.g.d2 == Running && (s.w.shut || s.g.k == CJoin)
  }

  function CloseApply(d: Design, s: State, e: CloseStep): State
    requires CloseEnabled(d, s, e)
  {
    var g, w := s.g, s.w;
    match e
    case CloseReads => s.(g := g.(k := CLock, d2 := if d.closeDrains && g.fieldSet then Running else Absent))
    case CloseLocks => s.(g := g.(holder := Closer, k := CSend))
    case CloseSends =>
      if w.closed then s.(g := g.(k := CUnlock))
      else State(g.(k := CWait), w.(outgoing := w.outgoing + [CloseReq]), s.b)
    case CloseWaitFails => s.(g := g.(k := CUnlock))
    case CloseUnlocks => s.(g := g.(holder := Nobody, k := Halt))
    case CloseHalts => s.(g := g.(k := CJoin))
    case CloseJoins => s.(g := g.(k := CReturned))
    case KeepDrainedEnds => s.(g := g.(d2 := Done))
  }

  predicate WireEnabled(s: State, e: WireStep)
  {
    match e
    case HandsOver(to) => |s.w.incoming| > 0 && s.w.incoming[0].Deliver? && !s.w.shut && Reads(s.g, to)
    case Discards => |s.w.incoming| > 0 && s.w.incoming[0].Deliver? && s.w.shut
    case ReplyToCancel => |s.w.incoming| > 0 && !s.w.incoming[0].Deliver? && s.g.c == Wait
    case ReplyToClose => |s.w.incoming| > 0 && !s.w.incoming[0].Deliver? && s.g.k == CWait
    case BrokerReads => |s.w.outgoing| > 0
  }

  function WireApply(s: State, e: WireStep): State
    requires WireEnabled(s, e)
  {
    var g, w, b := s.g, s.w, s.b;
    match e
    case HandsOver(to) =>
      var id := w.incoming[0].id;
      if to == Loop then State(g.(c := Handling(id)), w.(incoming := w.incoming[1..]), b)
      else State(g, w.(incoming := w.incoming[1..]), b.(drained := b.drained + {id}))
    case Discards => s.(w := w.(incoming := w.incoming[1..]))
    case ReplyToCancel =>
      // A reply of the wrong kind is consumed and the caller gives up with an error.
      State(g.(c := Unlock), w.(incoming := w.incoming[1..], shut := w.shut || w.incoming[0] == CancelOk), b)
    case ReplyToClose =>
      var ok := w.incoming[0] == CloseOk;
      State(g.(k := CUnlock), w.(incoming := w.incoming[1..], closed := w.closed || ok, shut := w.shut || ok), b)
    case BrokerReads =>
      var rest := w.(outgoing := w.outgoing[1..]);
      if !w.open then s.(w := rest)
      else match w.outgoing[0]
        case Settle(id) => State(g, rest, b.(unacked := b.unacked - {id}, settled := b.settled + {id}))
        case CancelReq => s.(w := rest.(subscribed := false, incoming := w.incoming + [CancelOk]))
        case CloseReq => s.(w := rest.(open := false, incoming := w.incoming + [CloseOk]))
  }

  predicate Enabled(d: Design, p: nat, s: State, step: Step)
  {
    match step
    case Env(e) => EnvEnabled(p, s, e)
    case ByConsume(e) => ConsumeEnabled(d, s, e)
    case ByClose(e) => CloseEnabled(d, s, e)
    case OnWire(e) => WireEnabled(s, e)
  }

  function Apply(d: Design, p: nat, s: State, step: Step): State
    requires Enabled(d, p, s, step)
  {
    match step
    case Env(e) => EnvApply(s, e)
    case ByConsume(e) => ConsumeApply(d, s, e)
    case ByClose(e) => CloseApply(d, s, e)
    case OnWire(e) => WireApply(s, e)
  }

  const INIT := State(Control(false, false, Registered, Idle, Absent, Absent, Nobody),
                      Wire([], [], true, true, false, false),
                      Books({}, {}, {}, {}, 0))

  predicate IsRun(d: Design, p: nat, s: State, steps: seq<Step>)
    decreases |steps|
  {
    steps == [] || (Enabled(d, p, s, steps[0]) && IsRun(d, p, Apply(d, p, s, steps[0]), steps[1..]))
  }

  function After(d: Design, p: nat, s: State, steps: seq<Step>): State
    requires IsRun(d, p, s, steps)
    decreases |steps|
  {
    if steps == [] then s else After(d, p, Apply(d, p, s, steps[0]), steps[1..])
  }

  // ----- what every step keeps -----

  function IsCancelReq(o: Out): nat { if o == CancelReq then 1 else 0 }
  function IsCloseReq(o: Out): nat { if o == CloseReq then 1 else 0 }
  function IsCancelOk(i: In): nat { if i == CancelOk then 1 else 0 }
  function IsCloseOk(i: In): nat { if i == CloseOk then 1 else 0 }

  /** Cancel requests not yet answered to the caller, wherever they are on the wire. */
  function CancelsPending(w: Wire): nat { Sum(IsCancelReq, w.outgoing) + Sum(IsCancelOk, w.incoming) }
  function ClosesPending(w: Wire): nat { Sum(IsCloseReq, w.outgoing) + Sum(IsCloseOk, w.incoming) }

  /** The rpc mutex is held exactly around a reply-waiting call. */
  predicate LockInv(g: Control)
  {
    && (g.holder == Canceler <==> g.c.Check? || g.c.Send? || g.c.Wait? || g.c.Unlock?)
    && (g.holder == Closer <==> g.k.CSend? || g.k.CWait? || g.k.CUnlock?)
  }

  /** Every pending reply belongs to the one caller waiting for it. */
  predicate ReplyInv(s: State)
  {
    !s.w.closed ==>
      && CancelsPending(s.w) == (if s.g.c == Wait then 1 else 0)
      && ClosesPending(s.w) == (if s.g.k == CWait then 1 else 0)
      && (!s.w.open <==> Sum(IsCloseOk, s.w.incoming) == 1)
  }

  predicate BeforeStop(c: ConsumePc) { c.Registered? || c.Serving? || c.Handling? }

  predicate ControlInv(g: Control, w: Wire)
  {
    && (w.closed ==> w.shut && !w.open)
    && (g.c.Unlock? || g.c.Join? || g.c.Returned? ==> w.shut)
    && (BeforeStop(g.c) || g.c.Spawn? ==> g.d1 == Absent)
    && (g.d1 == Absent ==> BeforeStop(g.c) || g.c.Spawn? || g.c.Returned?)
    && (g.d1 == Done ==> w.shut)
    && (g.fieldSet <==> !g.c.Registered?)
    && (g.k.Idle? || g.k.Read? ==> g.d2 == Absent)
    && (g.d2 == Done ==> w.shut || g.k.CJoin? || g.k.CReturned?)
    && (g.d2 == Running ==> !g.k.CReturned?)
    && (g.d1 == Running ==> !g.c.Returned?)
  }

  /** Every delivered message is at one place only, and drained ones are never settled. */
  predicate IdInv(p: nat, s: State)
  {
    var w, b := s.w, s.b;
    && |b.unacked| <= p
    && (forall id :: id in b.unacked ==> id < b.next)
    && b.drained <= b.unacked
    && b.settled !! b.unacked
    && (forall id :: id in b.settled ==> id < b.next)
    && (forall i :: 0 <= i < |w.incoming| && w.incoming[i].Deliver? ==>
          w.incoming[i].id in b.unacked && w.incoming[i].id !in b.drained && Settle(w.incoming[i].id) !in w.outgoing)
    && (forall i, j :: 0 <= i < j < |w.incoming| && w.incoming[i].Deliver? ==> w.incoming[i] != w.incoming[j])
    && (s.g.c.Handling? ==>
          s.g.c.id in b.unacked && s.g.c.id !in b.drained
          && Deliver(s.g.c.id) !in w.incoming && Settle(s.g.c.id) !in w.outgoing)
    && (forall o :: o in w.outgoing && o.Settle? ==> o.id < b.next && o.id !in b.drained)
  }

  predicate Inv(p: nat, s: State)
  {
    LockInv(s.g) && ReplyInv(s) && ControlInv(s.g, s.w) && IdInv(p, s)
  }

  lemma InitInv(p: nat)
    ensures Inv(p, INIT)
  {
  }

  /** The two measures a deadlock-free shutdown rests on. */
  predicate Safe(d: Design) { d.serialized && d.drainFirst }

  lemma LockConsume(d: Design, s: State, e: ConsumeStep)
    requires Safe(d) && LockInv(s.g) && ConsumeEnabled(d, s, e)
    ensures LockInv(ConsumeApply(d, s, e).g)
  {
  }

  lemma LockClose(d: Design, s: State, e: CloseStep)
    requires Safe(d) && LockInv(s.g) && CloseEnabled(d, s, e)
    ensures LockInv(CloseApply(d, s, e).g)
  {
  }

  lemma ReplyEnv(p: nat, s: State, e: EnvStep)
    requires ReplyInv(s) && EnvEnabled(p, s, e)
    ensures ReplyInv(EnvApply(s, e))
  {
    SumAppend(IsCancelOk, s.w.incoming, Deliver(s.b.next));
    SumAppend(IsCloseOk, s.w.incoming, Deliver(s.b.next));
  }

  lemma ReplyConsume(d: Design, s: State, e: ConsumeStep)
    requires Safe(d) && LockInv(s.g) && ReplyInv(s) && ConsumeEnabled(d, s, e)
    ensures ReplyInv(ConsumeApply(d, s, e))
  {
    SumAppend(IsCancelReq, s.w.outgoing, CancelReq);
    SumAppend(IsCloseReq, s.w.outgoing, CancelReq);
    if s.g.c.Handling? {
      SumAppend(IsCancelReq, s.w.outgoing, Settle(s.g.c.id));
      SumAppend(IsCloseReq, s.w.outgoing, Settle(s.g.c.id));
    }
  }

  lemma ReplyClose(d: Design, s: State, e: CloseStep)
    requires Safe(d) && LockInv(s.g) && ReplyInv(s) && CloseEnabled(d, s, e)
    ensures ReplyInv(CloseApply(d, s, e))
  {
    SumAppend(IsCancelReq, s.w.outgoing, CloseReq);
    SumAppend(IsCloseReq, s.w.outgoing, CloseReq);
  }

  lemma ReplyDispatch(s: State, e: WireStep)
    requires LockInv(s.g) && ReplyInv(s) && WireEnabled(s, e) && !e.BrokerReads?
    ensures ReplyInv(WireApply(s, e))
  {
  }

  lemma ReplyBroker(s: State)
    requires LockInv(s.g) && ReplyInv(s) && |s.w.outgoing| > 0
    ensures ReplyInv(WireApply(s, BrokerReads))
  {
    var reply := if s.w.outgoing[0] == CancelReq then CancelOk else CloseOk;
    SumAppend(IsCancelOk, s.w.incoming, reply);
    SumAppend(IsCloseOk, s.w.incoming, reply);
  }

  lemma ControlConsume(d: Design, s: State, e: ConsumeStep)
    requires Safe(d) && ControlInv(s.g, s.w) && ConsumeEnabled(d, s, e)
    ensures var t := ConsumeApply(d, s, e); ControlInv(t.g, t.w)
  {
  }

  lemma ControlClose(d: Design, s: State, e: CloseStep)
    requires Safe(d) && ControlInv(s.g, s.w) && CloseEnabled(d, s, e)
    ensures var t := CloseApply(d, s, e); ControlInv(t.g, t.w)
  {
  }

  /** With one waiter, the reply at the head is the one it asked for. */
  lemma HeadReplyIsMine(s: State)
    requires LockInv(s.g) && ReplyInv(s) && !s.w.closed && |s.w.incoming| > 0
    ensures s.w.incoming[0] == CancelOk ==> s.g.c == Wait && s.g.k != CWait
    ensures s.w.incoming[0] == CloseOk ==> s.g.k == CWait && s.g.c != Wait
  {
  }

  lemma ControlWire(s: State, e: WireStep)
    requires LockInv(s.g) && ReplyInv(s) && ControlInv(s.g, s.w) && WireEnabled(s, e)
    ensures var t := WireApply(s, e); ControlInv(t.g, t.w)
  {
    if !s.w.closed && |s.w.incoming| > 0 {
      HeadReplyIsMine(s);
    }
  }

  lemma IdEnv(p: nat, s: State, e: EnvStep)
    requires IdInv(p, s) && EnvEnabled(p, s, e)
    ensures IdInv(p, EnvApply(s, e))
  {
  }

  lemma IdConsume(d: Design, p: nat, s: State, e: ConsumeStep)
    requires IdInv(p, s) && ConsumeEnabled(d, s, e)
    ensures IdInv(p, ConsumeApply(d, s, e))
  {
  }

  lemma IdClose(d: Design, p: nat, s: State, e: CloseStep)
    requires IdInv(p, s) && CloseEnabled(d, s, e)
    ensures IdInv(p, CloseApply(d, s, e))
  {
  }

  lemma IdDispatch(p: nat, s: State, e: WireStep)
    requires IdInv(p, s) && WireEnabled(s, e) && !e.BrokerReads?
    ensures IdInv(p, WireApply(s, e))
  {
  }

  lemma IdBroker(p: nat, s: State)
    requires IdInv(p, s) && |s.w.outgoing| > 0
    ensures IdInv(p, WireApply(s, BrokerReads))
  {
    if s.w.open && s.w.outgoing[0].Settle? { IdSettled(p, s); } else { IdAnswered(p, s); }
  }

  lemma IdSettled(p: nat, s: State)
    requires IdInv(p, s) && |s.w.outgoing| > 0 && s.w.open && s.w.outgoing[0].Settle?
    ensures IdInv(p, WireApply(s, BrokerReads))
  {
  }

  lemma IdAnswered(p: nat, s: State)
    requires IdInv(p, s) && |s.w.outgoing| > 0 && (!s.w.open || !s.w.outgoing[0].Settle?)
    ensures IdInv(p, WireApply(s, BrokerReads))
  {
  }

  lemma InvStep(d: Design, p: nat, s: State, step: Step)
    requires Safe(d) && Inv(p, s) && Enabled(d, p, s, step)
    ensures Inv(p, Apply(d, p, s, step))
  {
    match step
    case Env(e) => ReplyEnv(p, s, e); IdEnv(p, s, e);
    case ByConsume(e) => LockConsume(d, s, e); ReplyConsume(d, s, e); ControlConsume(d, s, e); IdConsume(d, p, s, e);
    case ByClose(e) => LockClose(d, s, e); ReplyClose(d, s, e); ControlClose(d, s, e); IdClose(d, p, s, e);
    case OnWire(e) =>
      ControlWire(s, e);
      if e.BrokerReads? {
        ReplyBroker(s);
        IdBroker(p, s);
      } else {
        ReplyDispatch(s, e);
        IdDispatch(p, s, e);
      }
  }

  lemma {:induction false} InvRun(d: Design, p: nat, s: State, steps: seq<Step>)
    requires Safe(d) && Inv(p, s) && IsRun(d, p, s, steps)
    ensures Inv(p, After(d, p, s, steps))
    decreases |steps|
  {
    if steps != [] {
      InvStep(d, p, s, steps[0]);
      InvRun(d, p, Apply(d, p, s, steps[0]), steps[1..]);
    }
  }

  /**
   In every interleaving at most one caller waits on the reply slot, and a reply the
   dispatcher holds is the one that caller asked for.
   */
  lemma RepliesReachTheirRequester(d: Design, p: nat, steps: seq<Step>)
    requires Safe(d) && IsRun(d, p, INIT, steps)
    ensures var s := After(d, p, INIT, steps);
            && !(s.g.c == Wait && s.g.k == CWait)
            && (!s.w.closed && |s.w.incoming| > 0 ==>
                  && (s.w.incoming[0] == CancelOk ==> s.g.c == Wait)
                  && (s.w.incoming[0] == CloseOk ==> s.g.k == CWait))
  {
    InitInv(p);
    InvRun(d, p, INIT, steps);
    var s := After(d, p, INIT, steps);
    if !s.w.closed && |s.w.incoming| > 0 {
      HeadReplyIsMine(s);
    }
  }

  /** Whatever a drainer discarded is unacknowledged and still the broker's. */
  lemma DrainedStaysWithTheBroker(d: Design, p: nat, steps: seq<Step>)
    requires Safe(d) && IsRun(d, p, INIT, steps)
    ensures var b := After(d, p, INIT, steps).b;
            b.drained <= b.unacked && b.drained !! b.settled && |b.drained| <= p
  {
    InitInv(p);
    InvRun(d, p, INIT, steps);
    var b := After(d, p, INIT, steps).b;
    SubsetSize(b.drained, b.unacked);
  }

  lemma {:induction false} SubsetSize(a: set<nat>, b: set<nat>)
    requires a <= b
    ensures |a| <= |b|
    decreases a
  {
    if a != {} {
      var x :| x in a;
      SubsetSize(a - {x}, b - {x});
    }
  }

  // ----- nothing acknowledged or delivered is forgotten on the way -----

  /** An acknowledgement is at the broker or on its way there, unless the channel was closed. */
  predicate AckInv(s: State)
  {
    forall id :: id in s.b.acked ==> id in s.b.settled || Settle(id) in s.w.outgoing || !s.w.open
  }

  predicate Quiet(w: Wire) { !w.subscribed || !w.open }

  /** A reply comes after the last delivery, and so does the end of the deliveries channel. */
  predicate LastInv(w: Wire)
  {
    && (forall i :: 0 <= i < |w.incoming| && !w.incoming[i].Deliver? ==> Quiet(w))
    && (forall i, j :: 0 <= i < j < |w.incoming| && !w.incoming[i].Deliver? ==> !w.incoming[j].Deliver?)
    && (w.shut ==> Quiet(w) && forall i :: 0 <= i < |w.incoming| ==> !w.incoming[i].Deliver?)
  }

  lemma AckStep(d: Design, p: nat, s: State, step: Step)
    requires AckInv(s) && Enabled(d, p, s, step)
    ensures AckInv(Apply(d, p, s, step))
  {
    var t := Apply(d, p, s, step);
    if step == OnWire(BrokerReads) {
      assert forall o :: o in s.w.outgoing ==> o == s.w.outgoing[0] || o in t.w.outgoing;
    }
  }

  lemma LastWire(s: State, e: WireStep)
    requires LastInv(s.w) && WireEnabled(s, e)
    ensures LastInv(WireApply(s, e).w)
  {
    var w, t := s.w, WireApply(s, e).w;
    if !e.BrokerReads? {
      assert forall i :: 0 <= i < |t.incoming| ==> t.incoming[i] == w.incoming[i + 1];
    }
  }

  lemma LastStep(d: Design, p: nat, s: State, step: Step)
    requires LastInv(s.w) && Enabled(d, p, s, step)
    ensures LastInv(Apply(d, p, s, step).w)
  {
    if step.OnWire? { LastWire(s, step.f); }
  }

  lemma {:induction false} KeptRun(d: Design, p: nat, s: State, steps: seq<Step>)
    requires AckInv(s) && LastInv(s.w) && IsRun(d, p, s, steps)
    ensures AckInv(After(d, p, s, steps)) && LastInv(After(d, p, s, steps).w)
    decreases |steps|
  {
    if steps != [] {
      AckStep(d, p, s, steps[0]);
      LastStep(d, p, s, steps[0]);
      KeptRun(d, p, Apply(d, p, s, steps[0]), steps[1..]);
    }
  }

  /**
   In every run of any design: what a handler acknowledged is settled as soon as the broker
   has read what was written to it, if the channel is still open by then; and once the
   deliveries channel is closed, the dispatcher holds no delivery it would have to discard.
   */
  lemma NothingIsForgotten(d: Design, p: nat, steps: seq<Step>)
    requires IsRun(d, p, INIT, steps)
    ensures var s := After(d, p, INIT, steps);
            && (s.w.open && s.w.outgoing == [] ==> s.b.acked <= s.b.settled)
            && (s.w.shut ==> forall i :: 0 <= i < |s.w.incoming| ==> !s.w.incoming[i].Deliver?)
            && !Enabled(d, p, s, OnWire(Discards))
  {
    KeptRun(d, p, INIT, steps);
  }

  /** Neither caller returns before the drain it started has ended. */
  lemma ReturnsAfterItsDrain(d: Design, p: nat, steps: seq<Step>)
    requires Safe(d) && IsRun(d, p, INIT, steps)
    ensures var g := After(d, p, INIT, steps).g;
            (g.c == Returned ==> g.d1 != Running) && (g.k == CReturned ==> g.d2 != Running)
  {
    InitInv(p);
    InvRun(d, p, INIT, steps);
  }

  // ----- deadlock freedom -----

  predicate Internal(step: Step) { !step.Env? }

  /** A stop or a Close has begun and has not returned. */
  predicate Unfinished(g: Control)
  {
    (!BeforeStop(g.c) && !g.c.Returned?) || !(g.k.Idle? || g.k.CReturned?)
  }

  ghost predicate Stuck(d: Design, p: nat, s: State)
  {
    Unfinished(s.g) && forall step :: Internal(step) ==> !Enabled(d, p, s, step)
  }

  ghost predicate DeadlockFree(d: Design, p: nat)
  {
    forall steps :: IsRun(d, p, INIT, steps) ==> !Stuck(d, p, After(d, p, INIT, steps))
  }

  /** Someone reads the delivery at the head, or is about to. */
  lemma DeliveryMoves(d: Design, p: nat, s: State) returns (step: Step)
    requires Safe(d) && Inv(p, s) && |s.w.incoming| > 0 && s.w.incoming[0].Deliver?
    ensures Internal(step) && Enabled(d, p, s, step)
  {
    if s.w.shut { return OnWire(Discards); }
    match s.g.c
    case Registered => return ByConsume(StoresField);
    case Serving => return OnWire(HandsOver(Loop));
    case Handling(_) => return ByConsume(HandlerReturns(true));
    case Spawn => return ByConsume(SpawnsDrain);
    case _ => return OnWire(HandsOver(FirstDrain));
  }

  /** A reply that is awaited is on its way, so the wire can move. */
  lemma WireMoves(d: Design, p: nat, s: State) returns (step: Step)
    requires Safe(d) && Inv(p, s) && !s.w.closed && (s.g.c == Wait || s.g.k == CWait)
    ensures Internal(step) && Enabled(d, p, s, step)
  {
    if |s.w.outgoing| > 0 { return OnWire(BrokerReads); }
    assert |s.w.incoming| > 0;
    HeadReplyIsMine(s);
    match s.w.incoming[0]
    case Deliver(_) => step := DeliveryMoves(d, p, s);
    case CancelOk => step := OnWire(ReplyToCancel);
    case CloseOk => step := OnWire(ReplyToClose);
  }

  lemma CancelerMoves(d: Design, p: nat, s: State) returns (step: Step)
    requires Safe(d) && Inv(p, s) && s.g.holder == Canceler
    ensures Internal(step) && Enabled(d, p, s, step)
  {
    match s.g.c
    case Check => step := ByConsume(Checks);
    case Send => step := ByConsume(Sends);
    case Unlock => step := ByConsume(Unlocks);
    case Wait => if s.w.closed { step := ByConsume(WaitFails); } else { step := WireMoves(d, p, s); }
  }

  lemma CloserMoves(d: Design, p: nat, s: State) returns (step: Step)
    requires Safe(d) && Inv(p, s) && s.g.holder == Closer
    ensures Internal(step) && Enabled(d, p, s, step)
  {
    match s.g.k
    case CSend => step := ByClose(CloseSends);
    case CUnlock => step := ByClose(CloseUnlocks);
    case CWait => if s.w.closed { step := ByClose(CloseWaitFails); } else { step := WireMoves(d, p, s); }
  }

  lemma StopMoves(d: Design, p: nat, s: State) returns (step: Step)
    requires Safe(d) && Inv(p, s) && s.g.holder == Nobody && !BeforeStop(s.g.c) && !s.g.c.Returned?
    ensures Internal(step) && Enabled(d, p, s, step)
  {
    match s.g.c
    case Spawn => step := ByConsume(SpawnsDrain);
    case Lock => step := ByConsume(Locks);
    case Join => step := if s.g.d1 == Done then ByConsume(Joins) else ByConsume(DrainEnds);
  }

  lemma CloseMoves(d: Design, p: nat, s: State) returns (step: Step)
    requires Safe(d) && Inv(p, s) && s.g.holder == Nobody && !(s.g.k.Idle? || s.g.k.CReturned?)
    ensures Internal(step) && Enabled(d, p, s, step)
  {
    match s.g.k
    case Read => step := ByClose(CloseReads);
    case CLock => step := ByClose(CloseLocks);
    case Halt => step := ByClose(CloseHalts);
    case CJoin => step := if s.g.d2 == Running then ByClose(KeepDrainedEnds) else ByClose(CloseJoins);
  }

  lemma SomethingMoves(d: Design, p: nat, s: State) returns (step: Step)
    requires Safe(d) && Inv(p, s) && Unfinished(s.g)
    ensures Internal(step) && Enabled(d, p, s, step)
  {
    match s.g.holder
    case Canceler => step := CancelerMoves(d, p, s);
    case Closer => step := CloserMoves(d, p, s);
    case Nobody =>
      if !BeforeStop(s.g.c) && !s.g.c.Returned? {
        step := StopMoves(d, p, s);
      } else {
        step := CloseMoves(d, p, s);
      }
  }

  // ----- termination -----

  function ConsumeRank(c: ConsumePc): nat
  {
    match c
    case Spawn => 7 case Lock => 6 case Check => 5 case Send => 4 case Wait => 3
    case Unlock => 2 case Join => 1 case Returned => 0 case _ => 8
  }

  function CloseRank(k: ClosePc): nat
  {
    match k
    case Idle => 8 case Read => 7 case CLock => 6 case CSend => 5 case CWait => 4
    case CUnlock => 3 case Halt => 2 case CJoin => 1 case CReturned => 0
  }

  function DrainerRank(d: Drainer): nat { match d case Absent => 2 case Running => 1 case Done => 0 }

  function OutWeight(o: Out): nat { if o.Settle? then 4 else 2 }

  function ControlMeasure(g: Control): nat
  {
    5 * ConsumeRank(g.c) + 5 * CloseRank(g.k) + DrainerRank(g.d1) + DrainerRank(g.d2)
    + (if g.ctxDone then 0 else 1)
  }

  function WireMeasure(w: Wire): nat
  {
    Sum(OutWeight, w.outgoing) + |w.incoming| + (if w.closed then 0 else 1)
  }

  /**
   Unread deliveries, requests and replies on the wire, the deliveries the prefetch still
   allows, and the callers' positions.
   */
  function Measure(p: nat, s: State): nat
    requires |s.b.unacked| <= p
  {
    ControlMeasure(s.g) + WireMeasure(s.w) + 3 * (p - |s.b.unacked|)
  }

  predicate Winding(s: State) { !BeforeStop(s.g.c) }

  lemma ConsumeFalls(d: Design, p: nat, s: State, e: ConsumeStep)
    requires Safe(d) && Inv(p, s) && Winding(s) && ConsumeEnabled(d, s, e)
    ensures var t := ConsumeApply(d, s, e);
            Winding(t) && t.b == s.b && ControlMeasure(t.g) + WireMeasure(t.w) < ControlMeasure(s.g) + WireMeasure(s.w)
  {
    if e.Sends? { SumAppend(OutWeight, s.w.outgoing, CancelReq); }
  }

  // Nobody but Consume itself can make it go back to serving, so the others need no hypothesis on it.

  lemma CloseFalls(d: Design, p: nat, s: State, e: CloseStep)
    requires Safe(d) && Inv(p, s) && CloseEnabled(d, s, e)
    ensures var t := CloseApply(d, s, e);
            t.g.c == s.g.c && t.b == s.b && ControlMeasure(t.g) + WireMeasure(t.w) < ControlMeasure(s.g) + WireMeasure(s.w)
  {
    if e.CloseSends? { SumAppend(OutWeight, s.w.outgoing, CloseReq); }
  }

  lemma DispatchFalls(p: nat, s: State, e: WireStep)
    requires Inv(p, s) && WireEnabled(s, e) && !e.BrokerReads?
    ensures var t := WireApply(s, e);
            && (Winding(s) ==> Winding(t)) && (s.g.c.Handling? ==> t.g.c == s.g.c) && t.b.unacked == s.b.unacked
            && ControlMeasure(t.g) + WireMeasure(t.w) < ControlMeasure(s.g) + WireMeasure(s.w)
  {
  }

  lemma BrokerFalls(p: nat, s: State)
    requires Inv(p, s) && |s.w.outgoing| > 0
    ensures var t := WireApply(s, BrokerReads);
            t.g == s.g && |t.b.unacked| <= p && Measure(p, t) < Measure(p, s)
  {
  }

  lemma EnvFalls(p: nat, s: State, e: EnvStep)
    requires Inv(p, s) && EnvEnabled(p, s, e)
    ensures var t := EnvApply(s, e);
            t.g.c == s.g.c && |t.b.unacked| <= p && Measure(p, t) < Measure(p, s)
  {
    if e.BrokerDelivers? {
      assert |s.b.unacked + {s.b.next}| == |s.b.unacked| + 1;
    }
  }

  /** Once stop has begun, every step of anybody brings the end closer. */
  lemma MeasureFalls(d: Design, p: nat, s: State, step: Step)
    requires Safe(d) && Inv(p, s) && Winding(s) && Enabled(d, p, s, step)
    ensures var t := Apply(d, p, s, step);
            Winding(t) && |t.b.unacked| <= p && Measure(p, t) < Measure(p, s)
  {
    match step
    case Env(e) => EnvFalls(p, s, e);
    case ByConsume(e) => ConsumeFalls(d, p, s, e);
    case ByClose(e) => CloseFalls(d, p, s, e);
    case OnWire(e) => if e.BrokerReads? { BrokerFalls(p, s); } else { DispatchFalls(p, s, e); }
  }

  /**
   From the moment stop begins every run is at most `Measure` long, whatever the broker,
   the connection and Close do; and where no goroutine can move, Consume has returned and
   so has any Close.
   */
  lemma {:induction false} ShutdownTerminates(d: Design, p: nat, s: State, steps: seq<Step>)
    requires Safe(d) && Inv(p, s) && Winding(s) && IsRun(d, p, s, steps)
    ensures |steps| <= Measure(p, s)
    ensures var t := After(d, p, s, steps);
            (forall step :: Internal(step) ==> !Enabled(d, p, t, step)) ==>
              t.g.c == Returned && (t.g.k == Idle || t.g.k == CReturned)
    decreases |steps|
  {
    if steps == [] {
      if Unfinished(s.g) {
        var step := SomethingMoves(d, p, s);
      }
    } else {
      InvStep(d, p, s, steps[0]);
      MeasureFalls(d, p, s, steps[0]);
      ShutdownTerminates(d, p, Apply(d, p, s, steps[0]), steps[1..]);
    }
  }

  // ----- the channel is closed: by Close, or because the connection dropped -----

  function ClosedRank(c: ConsumePc): nat
  {
    match c
    case Registered => 10 case Handling(_) => 9 case _ => ConsumeRank(c)
  }

  /** With no more deliveries to come, each frame still to be read pays for one turn of the loop. */
  function ClosedMeasure(s: State): nat
  {
    ControlMeasure(s.g) - 5 * ConsumeRank(s.g.c) + 5 * ClosedRank(s.g.c) + WireMeasure(s.w) + 5 * |s.w.incoming|
  }

  lemma ClosedServingFalls(d: Design, s: State, e: ConsumeStep)
    requires BeforeStop(s.g.c) && !s.w.open && ConsumeEnabled(d, s, e) && !e.DrainEnds?
    ensures var t := ConsumeApply(d, s, e); !t.w.open && ClosedMeasure(t) < ClosedMeasure(s)
  {
    if e.HandlerReturns? { SumAppend(OutWeight, s.w.outgoing, Settle(s.g.c.id)); }
  }

  lemma ClosedConsumeFalls(d: Design, p: nat, s: State, e: ConsumeStep)
    requires Safe(d) && Inv(p, s) && !s.w.open && ConsumeEnabled(d, s, e)
    ensures var t := ConsumeApply(d, s, e); !t.w.open && ClosedMeasure(t) < ClosedMeasure(s)
  {
    if Winding(s) { ConsumeFalls(d, p, s, e); } else { ClosedServingFalls(d, s, e); }
  }

  lemma ClosedCloseFalls(d: Design, p: nat, s: State, e: CloseStep)
    requires Safe(d) && Inv(p, s) && !s.w.open && CloseEnabled(d, s, e)
    ensures var t := CloseApply(d, s, e); !t.w.open && ClosedMeasure(t) < ClosedMeasure(s)
  {
    if e.CloseSends? { SumAppend(OutWeight, s.w.outgoing, CloseReq); }
  }

  lemma ClosedWireFalls(p: nat, s: State, e: WireStep)
    requires Inv(p, s) && !s.w.open && WireEnabled(s, e)
    ensures var t := WireApply(s, e); !t.w.open && ClosedMeasure(t) < ClosedMeasure(s)
  {
  }

  lemma ClosedFalls(d: Design, p: nat, s: State, step: Step)
    requires Safe(d) && Inv(p, s) && !s.w.open && Enabled(d, p, s, step)
    ensures var t := Apply(d, p, s, step); !t.w.open && ClosedMeasure(t) < ClosedMeasure(s)
  {
    match step
    case Env(e) =>
    case ByConsume(e) => ClosedConsumeFalls(d, p, s, e);
    case ByClose(e) => ClosedCloseFalls(d, p, s, e);
    case OnWire(e) => ClosedWireFalls(p, s, e);
  }

  /** A consumer whose channel is closed learns of it: it has a step until it has returned. */
  lemma ClosedMoves(d: Design, p: nat, s: State) returns (step: Step)
    requires Safe(d) && Inv(p, s) && !s.w.open && (s.g.c != Returned || Unfinished(s.g))
    ensures Internal(step) && Enabled(d, p, s, step)
  {
    if Unfinished(s.g) {
      step := SomethingMoves(d, p, s);
    } else if s.w.shut && s.g.c == Serving {
      step := ByConsume(SeesShut);
    } else {
      assert s.g.c == Serving ==> |s.w.incoming| > 0;
      if s.g.c == Serving { HeadReplyIsMine(s); }
      match s.g.c
      case Registered => step := ByConsume(StoresField);
      case Handling(_) => step := ByConsume(HandlerReturns(true));
      case Serving => step := OnWire(HandsOver(Loop));
    }
  }

  /**
   From the moment the broker's end is closed, because it took a Close or the connection
   dropped, every run is bounded whatever the context does, and where no goroutine can move
   Consume has returned and so has any Close.
   */
  lemma {:induction false} ClosedTerminates(d: Design, p: nat, s: State, steps: seq<Step>)
    requires Safe(d) && Inv(p, s) && !s.w.open && IsRun(d, p, s, steps)
    ensures |steps| <= ClosedMeasure(s)
    ensures var t := After(d, p, s, steps);
            (forall step :: Internal(step) ==> !Enabled(d, p, t, step)) ==>
              t.g.c == Returned && (t.g.k == Idle || t.g.k == CReturned)
    decreases |steps|
  {
    if steps == [] {
      if s.g.c != Returned || Unfinished(s.g) {
        var step := ClosedMoves(d, p, s);
      }
    } else {
      InvStep(d, p, s, steps[0]);
      ClosedFalls(d, p, s, steps[0]);
      ClosedTerminates(d, p, Apply(d, p, s, steps[0]), steps[1..]);
    }
  }

  /** In particular after a dropped connection. */
  lemma DroppedTerminates(d: Design, p: nat, s: State, steps: seq<Step>)
    requires Safe(d) && Inv(p, s) && EnvEnabled(p, s, ConnectionDrops) && IsRun(d, p, EnvApply(s, ConnectionDrops), steps)
    ensures var t := After(d, p, EnvApply(s, ConnectionDrops), steps);
            (forall step :: Internal(step) ==> !Enabled(d, p, t, step)) ==>
              t.g.c == Returned && (t.g.k == Idle || t.g.k == CReturned)
  {
    InvStep(d, p, s, Env(ConnectionDrops));
    ClosedTerminates(d, p, EnvApply(s, ConnectionDrops), steps);
  }

  // ----- what each measure is needed for -----

  lemma {:induction false} Extend(d: Design, p: nat, s: State, steps: seq<Step>, step: Step)
    requires IsRun(d, p, s, steps) && Enabled(d, p, After(d, p, s, steps), step)
    ensures IsRun(d, p, s, steps + [step])
    ensures After(d, p, s, steps + [step]) == Apply(d, p, After(d, p, s, steps), step)
    decreases |steps|
  {
    if steps == [] {
      assert ([] + [step])[1..] == [];
    } else {
      Extend(d, p, Apply(d, p, s, steps[0]), steps[1..], step);
      assert (steps + [step])[1..] == steps[1..] + [step];
    }
  }

  ghost predicate Reachable(d: Design, p: nat, s: State)
  {
    exists steps :: IsRun(d, p, INIT, steps) && After(d, p, INIT, steps) == s
  }

  lemma Go(d: Design, p: nat, s: State, step: Step) returns (t: State)
    requires Reachable(d, p, s) && Enabled(d, p, s, step)
    ensures t == Apply(d, p, s, step) && Reachable(d, p, t)
  {
    var steps :| IsRun(d, p, INIT, steps) && After(d, p, INIT, steps) == s;
    Extend(d, p, INIT, steps, step);
    t := Apply(d, p, s, step);
  }

  lemma Started(d: Design, p: nat) returns (s: State)
    ensures s == INIT.(g := INIT.g.(fieldSet := true, c := Serving)) && Reachable(d, p, s)
  {
    assert IsRun(d, p, INIT, []) && After(d, p, INIT, []) == INIT;
    s := Go(d, p, INIT, ByConsume(StoresField));
  }

  /** A Serving consumer up to the point where cancel has written its request. */
  lemma CancelWritten(d: Design, p: nat, s: State) returns (t: State)
    requires Reachable(d, p, s) && s.g.c == Serving && s.g.ctxDone && Free(d, s.g) && !s.w.closed && !d.drainFirst
    ensures t == State(s.g.(c := Wait, holder := Canceler), s.w.(outgoing := s.w.outgoing + [CancelReq]), s.b)
    ensures Reachable(d, p, t)
  {
    t := Go(d, p, s, ByConsume(SeesCancel));
    t := Go(d, p, t, ByConsume(Locks));
    t := Go(d, p, t, ByConsume(Checks));
    t := Go(d, p, t, ByConsume(Sends));
  }

  /** Canceling before draining: the confirmation queues behind a delivery nobody reads. */
  lemma CancelFirstDeadlocks(d: Design, p: nat) returns (s: State)
    requires !d.drainFirst && p >= 1
    ensures Reachable(d, p, s) && Stuck(d, p, s)
  {
    s := Started(d, p);
    s := Go(d, p, s, Env(CancelContext));
    s := Go(d, p, s, Env(BrokerDelivers));
    s := CancelWritten(d, p, s);
    s := Go(d, p, s, OnWire(BrokerReads));
    assert s.w.incoming == [Deliver(0), CancelOk];
  }

  /** Close has written its request; a stop that starts now would wait for the mutex. */
  lemma CloseWritten(d: Design, p: nat, s: State) returns (t: State)
    requires Reachable(d, p, s) && s.g.k == Idle && s.g.holder == Nobody && !s.w.closed
    ensures t == State(s.g.(k := CWait, holder := Closer, d2 := if d.closeDrains && s.g.fieldSet then Running else Absent),
                       s.w.(outgoing := s.w.outgoing + [CloseReq]), s.b)
    ensures Reachable(d, p, t)
  {
    t := Go(d, p, s, Env(CallClose));
    t := Go(d, p, t, ByClose(CloseReads));
    t := Go(d, p, t, ByClose(CloseLocks));
    t := Go(d, p, t, ByClose(CloseSends));
  }

  /** Without the mutex the cancel can be handed the reply to the close, for which Close waits on. */
  lemma UnserializedDeadlocks(d: Design, p: nat) returns (s: State)
    requires !d.serialized && d.drainFirst
    ensures Reachable(d, p, s) && Stuck(d, p, s)
  {
    s := Started(d, p);
    s := CloseWritten(d, p, s);
    s := Go(d, p, s, Env(CancelContext));
    s := Go(d, p, s, ByConsume(SeesCancel));
    s := Go(d, p, s, ByConsume(SpawnsDrain));
    s := Go(d, p, s, ByConsume(Locks));
    s := Go(d, p, s, ByConsume(Checks));
    s := CrossedReplies(d, p, s);
  }

  lemma CrossedReplies(d: Design, p: nat, s: State) returns (t: State)
    requires Reachable(d, p, s) && d.drainFirst && s.g.c == Send && s.g.k == CWait && s.g.d1 == Running
    requires s.w == Wire([CloseReq], [], true, true, false, false)
    ensures Reachable(d, p, t) && Stuck(d, p, t)
  {
    t := Go(d, p, s, ByConsume(Sends));
    t := Go(d, p, t, OnWire(BrokerReads));
    t := Go(d, p, t, OnWire(BrokerReads));
    assert t.w == Wire([], [CloseOk], true, false, false, false);
    t := WrongReply(d, p, t);
  }

  lemma WrongReply(d: Design, p: nat, s: State) returns (t: State)
    requires Reachable(d, p, s) && d.drainFirst && s.g.c == Wait && s.g.k == CWait && s.g.d1 == Running
    requires s.w == Wire([], [CloseOk], true, false, false, false)
    ensures Reachable(d, p, t) && Stuck(d, p, t)
  {
    t := Go(d, p, s, OnWire(ReplyToCancel));
    t := Go(d, p, t, ByConsume(Unlocks));
    assert t.w.incoming == [] && t.w.outgoing == [];
  }

  lemma SafeIsDeadlockFree(d: Design, p: nat)
    requires Safe(d)
    ensures DeadlockFree(d, p)
  {
    forall steps | IsRun(d, p, INIT, steps) ensures !Stuck(d, p, After(d, p, INIT, steps)) {
      InitInv(p);
      InvRun(d, p, INIT, steps);
      var s := After(d, p, INIT, steps);
      if Unfinished(s.g) {
        var step := SomethingMoves(d, p, s);
      }
    }
  }

  /** The shutdown is deadlock-free exactly when replies are serialized and stop drains first. */
  lemma DeadlockFreeIffSafe(d: Design, p: nat)
    requires p >= 1
    ensures DeadlockFree(d, p) <==> Safe(d)
    ensures DeadlockFree(AS_WRITTEN, p)
  {
    SafeIsDeadlockFree(AS_WRITTEN, p);
    if Safe(d) {
      SafeIsDeadlockFree(d, p);
    } else {
      var s: State;
      if d.drainFirst { s := UnserializedDeadlocks(d, p); } else { s := CancelFirstDeadlocks(d, p); }
      var steps :| IsRun(d, p, INIT, steps) && After(d, p, INIT, steps) == s;
    }
  }

  // ----- Close and a handler that never returns -----

  /** Anything but a step of Consume: the handler does not return and its loop reads nothing. */
  predicate Aside(step: Step) { !step.ByConsume? && step != OnWire(HandsOver(Loop)) }

  /**
   A handler is running, Close has begun, and nothing it waits for is behind the handler:
   it drains, or will, or the prefetch lets no second delivery past the one in the handler.
   */
  predicate Attended(d: Design, p: nat, s: State)
  {
    && s.g.c.Handling? && s.g.k != Idle
    && (p <= 1 || s.g.d2 != Absent || (s.g.k == Read && d.closeDrains))
  }

  lemma SoleMember(a: set<nat>, x: nat, y: nat)
    requires x in a && y in a && |a| <= 1
    ensures x == y
  {
    if x != y {
      var pair := {x, y};
      assert |pair| == 2;
      SubsetSize(pair, a);
    }
  }

  /** Something other than the handler's return is always possible until Close has returned. */
  lemma CloseMovesAside(d: Design, p: nat, s: State) returns (step: Step)
    requires Safe(d) && Inv(p, s) && Attended(d, p, s) && s.g.k != CReturned
    ensures Internal(step) && Aside(step) && Enabled(d, p, s, step)
  {
    match s.g.k
    case Read => step := ByClose(CloseReads);
    case CLock => step := ByClose(CloseLocks);
    case CSend => step := ByClose(CloseSends);
    case CUnlock => step := ByClose(CloseUnlocks);
    case Halt => step := ByClose(CloseHalts);
    case CJoin => step := if s.g.d2 == Running then ByClose(KeepDrainedEnds) else ByClose(CloseJoins);
    case CWait =>
      if s.w.closed { return ByClose(CloseWaitFails); }
      if |s.w.outgoing| > 0 { return OnWire(BrokerReads); }
      step := ReplyMovesAside(d, p, s);
  }

  lemma ReplyMovesAside(d: Design, p: nat, s: State) returns (step: Step)
    requires Safe(d) && Inv(p, s) && Attended(d, p, s) && s.g.k == CWait && !s.w.closed && s.w.outgoing == []
    ensures Internal(step) && Aside(step) && Enabled(d, p, s, step)
  {
    assert |s.w.incoming| > 0;
    HeadReplyIsMine(s);
    match s.w.incoming[0]
    case CloseOk => step := OnWire(ReplyToClose);
    case Deliver(id) =>
      if p <= 1 { SoleMember(s.b.unacked, id, s.g.c.id); }
      step := if s.w.shut then OnWire(Discards) else OnWire(HandsOver(SecondDrain));
  }

  lemma AsideFalls(d: Design, p: nat, s: State, step: Step)
    requires Safe(d) && Inv(p, s) && Attended(d, p, s) && Enabled(d, p, s, step) && Aside(step)
    ensures var t := Apply(d, p, s, step);
            Attended(d, p, t) && t.g.c == s.g.c && |t.b.unacked| <= p && Measure(p, t) < Measure(p, s)
  {
    match step
    case Env(e) => EnvFalls(p, s, e);
    case ByClose(e) => CloseFalls(d, p, s, e);
    case OnWire(e) => if e.BrokerReads? { BrokerFalls(p, s); } else { DispatchFalls(p, s, e); }
  }

  /**
   With its own drain, or at a prefetch of one, Close returns even if the handler never
   does: every run in which Consume makes no step is at most `Measure` long, and where
   nobody else can move Close has returned.
   */
  lemma {:induction false} CloseReturnsWithoutTheHandler(d: Design, p: nat, s: State, steps: seq<Step>)
    requires Safe(d) && Inv(p, s) && Attended(d, p, s) && IsRun(d, p, s, steps)
    requires forall i :: 0 <= i < |steps| ==> Aside(steps[i])
    ensures |steps| <= Measure(p, s)
    ensures var t := After(d, p, s, steps);
            && t.g.c == s.g.c
            && ((forall step :: Internal(step) && Aside(step) ==> !Enabled(d, p, t, step)) ==> t.g.k == CReturned)
    decreases |steps|
  {
    if steps == [] {
      if s.g.k != CReturned {
        var step := CloseMovesAside(d, p, s);
      }
    } else {
      InvStep(d, p, s, steps[0]);
      AsideFalls(d, p, s, steps[0]);
      CloseReturnsWithoutTheHandler(d, p, Apply(d, p, s, steps[0]), steps[1..]);
    }
  }

  /** A stop or a Close waits, and a handler's return is the only thing that can happen. */
  ghost predicate HangsOnTheHandler(d: Design, p: nat, s: State)
  {
    Unfinished(s.g) &&
    forall step :: Internal(step) && Enabled(d, p, s, step) ==> step.ByConsume? && step.c.HandlerReturns?
  }

  /** Close writes before Consume stores the channel, and then a delivery reaches the handler. */
  lemma ClosedInTheWindow(d: Design, p: nat) returns (s: State)
    requires p >= 1
    ensures Reachable(d, p, s)
    ensures s == State(Control(false, true, Handling(0), CWait, Absent, Absent, Closer),
                       Wire([CloseReq], [], true, true, false, false), Books({0}, {}, {}, {}, 1))
  {
    assert IsRun(d, p, INIT, []) && After(d, p, INIT, []) == INIT;
    s := CloseWritten(d, p, INIT);
    s := Go(d, p, s, ByConsume(StoresField));
    s := Go(d, p, s, Env(BrokerDelivers));
    assert s.b == Books({0}, {}, {}, {}, 1) && s.w.incoming == [Deliver(0)];
    s := Go(d, p, s, OnWire(HandsOver(Loop)));
    assert s.w == Wire([CloseReq], [], true, true, false, false);
  }

  /**
   Without that drain -- not started, or Close came in before Consume stored the channel --
   a reachable Close waits for a handler and for nothing else.
   */
  lemma UndrainedCloseNeedsTheHandler(d: Design, p: nat) returns (s: State)
    requires Safe(d) && p >= 2
    ensures Reachable(d, p, s) && HangsOnTheHandler(d, p, s)
  {
    s := ClosedInTheWindow(d, p);
    s := Go(d, p, s, Env(BrokerDelivers));
    s := Go(d, p, s, OnWire(BrokerReads));
    assert s.w.incoming == [Deliver(1), CloseOk] && s.w.outgoing == [];
  }

  lemma NarrowPrefetchMoves(d: Design, p: nat, s: State)
    requires Safe(d) && Inv(p, s) && p <= 1
    ensures !HangsOnTheHandler(d, p, s)
  {
    if Unfinished(s.g) {
      if s.g.c.Handling? {
        var step := CloseMovesAside(d, p, s);
      } else {
        var step := SomethingMoves(d, p, s);
      }
    }
  }

  /**
   The exact boundary: shutdown can come to hang on a handler if and only if the prefetch
   lets a second delivery in while the handler holds the first.
   */
  lemma HangsOnTheHandlerIff(d: Design, p: nat)
    requires Safe(d)
    ensures (exists s :: Reachable(d, p, s) && HangsOnTheHandler(d, p, s)) <==> p >= 2
  {
    if p >= 2 {
      var s := UndrainedCloseNeedsTheHandler(d, p);
    } else {
      forall s | Reachable(d, p, s) ensures !HangsOnTheHandler(d, p, s) {
        var steps :| IsRun(d, p, INIT, steps) && After(d, p, INIT, steps) == s;
        InitInv(p);
        InvRun(d, p, INIT, steps);
        NarrowPrefetchMoves(d, p, s);
      }
    }
  }
}
