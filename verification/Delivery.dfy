/**
 The copies of one published message between the broker and any number of consumer
 channels. A handled delivery is answered by frames written in order on its channel; the
 broker processes a prefix of them before the channel drops, and whatever it had not seen
 acknowledged goes back to the main queue.
 */
module Delivery {
  import opened Prelude
  import RetryPolicy
  import Backoff

  datatype Dest = ToRetry | ToDlq

  /** What `handle` writes for a delivery; `tag` is its delivery tag on the channel. */
  datatype Frame = Publish(to: Dest, attempts: int, tag: nat) | Ack(tag: nat) | Nack(tag: nat)

  datatype Stage =
    | Unhandled
    | Failed       // the handler failed and no copy of the message is at the broker yet
    | Copied       // the broker has taken the copy, the original is about to be acknowledged
    | Succeeded
    | Gone

  /** A delivery the broker counts as unacknowledged, unless gone. */
  datatype Held = Held(attempts: int, stage: Stage)

  datatype Chan = Chan(held: seq<Held>, frames: seq<Frame>)

  datatype State = State(
    main: seq<int>, retry: seq<int>, dlq: seq<int>,   // attempts headers of the copies queued
    chans: seq<Chan>,
    runs: nat,             // handler runs
    redeliveries: nat,     // deliveries put back because of a drop
    acked: bool)           // acknowledged after a handler success

  datatype Config = Config(maxAttempts: nat, initial: Backoff.Duration, maximum: Backoff.Duration)

  predicate ValidConfig(cfg: Config) { 1 <= cfg.maxAttempts <= MAX_INT32 }

  datatype Step =
    | Open
    | Deliver(c: nat, i: nat)
    | Handle(c: nat, tag: nat, fails: bool, publishes: bool, settles: bool)
    | Process(c: nat)
    | Drop(c: nat)
    | Expire(i: nat)

  predicate IsAt(s: State, c: nat, tag: nat)
  {
    c < |s.chans| && tag < |s.chans[c].held|
  }

  predicate Enabled(s: State, step: Step)
  {
    match step
    case Open => true
    case Deliver(c, i) => c < |s.chans| && i < |s.main|
    case Handle(c, tag, _, _, _) => IsAt(s, c, tag) && s.chans[c].held[tag].stage == Unhandled
    case Process(c) => c < |s.chans| && s.chans[c].frames != [] && s.chans[c].frames[0].tag < |s.chans[c].held|
    case Drop(c) => c < |s.chans|
    case Expire(i) => i < |s.retry|
  }

  function Remove(s: seq<int>, i: nat): seq<int>
    requires i < |s|
  {
    s[..i] + s[i + 1..]
  }

  /** The frames `handle` writes: copy before acknowledgement, nack when the copy cannot be written. */
  function Answer(cfg: Config, attempts: int, tag: nat, fails: bool, publishes: bool, settles: bool): (r: seq<Frame>)
    ensures forall f :: f in r ==> f.tag == tag
  {
    var o := RetryPolicy.Decide(fails, attempts, cfg.maxAttempts, cfg.initial, cfg.maximum);
    var ack := if settles then [Ack(tag)] else [];
    var nack := if settles then [Nack(tag)] else [];
    match o.action
    case ActionAck => ack
    case ActionRetry => if publishes then [Publish(ToRetry, o.attempt, tag)] + ack else nack
    case ActionDeadLetter => if publishes then [Publish(ToDlq, o.attempt, tag)] + ack else nack
  }

  /** The broker takes one frame off a channel. */
  function Taken(ch: Chan): Chan
    requires ch.frames != [] && ch.frames[0].tag < |ch.held|
  {
    var f := ch.frames[0];
    var stage := if f.Publish? then Copied else Gone;
    Chan(ch.held[f.tag := ch.held[f.tag].(stage := stage)], ch.frames[1..])
  }

  function Requeued(held: seq<Held>): seq<int>
  {
    if held == [] then []
    else (if held[0].stage == Gone then [] else [held[0].attempts]) + Requeued(held[1..])
  }

  function Apply(cfg: Config, s: State, step: Step): State
    requires Enabled(s, step)
  {
    match step
    case Open => s.(chans := s.chans + [Chan([], [])])
    case Deliver(c, i) =>
      var ch := s.chans[c];
      s.(main := Remove(s.main, i), chans := s.chans[c := ch.(held := ch.held + [Held(s.main[i], Unhandled)])])
    case Handle(c, tag, fails, publishes, settles) =>
      var ch := s.chans[c];
      var a := ch.held[tag].attempts;
      s.(runs := s.runs + 1,
         chans := s.chans[c := Chan(ch.held[tag := Held(a, if fails then Failed else Succeeded)],
                                    ch.frames + Answer(cfg, a, tag, fails, publishes, settles))])
    case Process(c) =>
      var ch := s.chans[c];
      var f := ch.frames[0];
      var t := s.(chans := s.chans[c := Taken(ch)]);
      (match f
       case Publish(ToRetry, a, _) => t.(retry := s.retry + [a])
       case Publish(ToDlq, a, _) => t.(dlq := s.dlq + [a])
       case Ack(tag) => if ch.held[tag].stage == Succeeded then t.(acked := true) else t
       case Nack(tag) => t.(dlq := s.dlq + [ch.held[tag].attempts]))
    case Drop(c) =>
      var back := Requeued(s.chans[c].held);
      s.(main := s.main + back, redeliveries := s.redeliveries + |back|, chans := s.chans[c := Chan([], [])])
    case Expire(i) => s.(retry := Remove(s.retry, i), main := s.main + [s.retry[i]])
  }

  predicate IsRun(cfg: Config, s: State, steps: seq<Step>)
    decreases |steps|
  {
    steps == [] || (Enabled(s, steps[0]) && IsRun(cfg, Apply(cfg, s, steps[0]), steps[1..]))
  }

  function After(cfg: Config, s: State, steps: seq<Step>): State
    requires IsRun(cfg, s, steps)
    decreases |steps|
  {
    if steps == [] then s else After(cfg, Apply(cfg, s, steps[0]), steps[1..])
  }

  /** One message, as published with the given attempts header. */
  function Published(attempts: int): State { State([attempts], [], [], [], 0, 0, false) }

  // ----- the frames on a channel are in order -----

  /**
   Each frame answers a delivery that is waiting for it: a copy goes out for a failed one,
   ahead of its acknowledgement, and nothing is written for an unhandled or a gone one.
   */
  predicate FrameOk(ch: Chan, j: nat)
    requires j < |ch.frames|
  {
    var f := ch.frames[j];
    f.tag < |ch.held| &&
    match f
    case Publish(_, a, tag) =>
      ch.held[tag].stage == Failed && a == ch.held[tag].attempts + 1
      && forall i :: 0 <= i < j ==> ch.frames[i].tag != tag
    case Ack(tag) =>
      (ch.held[tag].stage == Succeeded || ch.held[tag].stage == Copied
       || (ch.held[tag].stage == Failed && exists i :: 0 <= i < j && ch.frames[i].Publish? && ch.frames[i].tag == tag))
      && forall i :: 0 <= i < j && ch.frames[i].tag == tag ==> ch.frames[i].Publish?
    case Nack(tag) =>
      ch.held[tag].stage == Failed && forall i :: 0 <= i < j ==> ch.frames[i].tag != tag
  }

  predicate ChanInv(ch: Chan)
  {
    forall j :: 0 <= j < |ch.frames| ==> FrameOk(ch, j)
  }

  /** A count the policy can still increment. */
  predicate Sane(a: int) { 0 <= a < MAX_INT32 }

  predicate SaneFrame(f: Frame) { f.Publish? && f.to == ToRetry ==> Sane(f.attempts) }

  predicate SaneChan(ch: Chan)
  {
    (forall h :: h in ch.held ==> Sane(h.attempts)) && forall f :: f in ch.frames ==> SaneFrame(f)
  }

  predicate Inv(s: State)
  {
    && (forall c :: 0 <= c < |s.chans| ==> ChanInv(s.chans[c]) && SaneChan(s.chans[c]))
    && (forall a :: a in s.main ==> Sane(a))
    && (forall a :: a in s.retry ==> Sane(a))
  }

  lemma DeliveredInv(ch: Chan, a: int)
    requires ChanInv(ch) && SaneChan(ch) && Sane(a)
    ensures var t := ch.(held := ch.held + [Held(a, Unhandled)]); ChanInv(t) && SaneChan(t)
  {
    var t := ch.(held := ch.held + [Held(a, Unhandled)]);
    forall j | 0 <= j < |t.frames| ensures FrameOk(t, j) {
      assert FrameOk(ch, j);
    }
  }

  /** What the answer is, case by case, for a count that does not wrap. */
  lemma AnswerShape(cfg: Config, a: int, tag: nat, fails: bool, publishes: bool, settles: bool)
    requires ValidConfig(cfg) && Sane(a)
    ensures var r := Answer(cfg, a, tag, fails, publishes, settles);
            var ack := if settles then [Ack(tag)] else [];
            var nack := if settles then [Nack(tag)] else [];
            && (!fails ==> r == ack)
            && (fails && !publishes ==> r == nack)
            && (fails && publishes ==>
                  r == [Publish(if a + 1 >= cfg.maxAttempts then ToDlq else ToRetry, a + 1, tag)] + ack)
  {
  }

  lemma HandledInv(cfg: Config, ch: Chan, tag: nat, fails: bool, publishes: bool, settles: bool)
    requires ValidConfig(cfg) && ChanInv(ch) && SaneChan(ch) && tag < |ch.held| && ch.held[tag].stage == Unhandled
    ensures var a := ch.held[tag].attempts;
            var t := Chan(ch.held[tag := Held(a, if fails then Failed else Succeeded)],
                          ch.frames + Answer(cfg, a, tag, fails, publishes, settles));
            ChanInv(t) && SaneChan(t)
  {
    var a := ch.held[tag].attempts;
    assert ch.held[tag] in ch.held;
    AnswerShape(cfg, a, tag, fails, publishes, settles);
    var r := Answer(cfg, a, tag, fails, publishes, settles);
    var t := Chan(ch.held[tag := Held(a, if fails then Failed else Succeeded)], ch.frames + r);
    var n := |ch.frames|;
    forall j | 0 <= j < n ensures ch.frames[j].tag != tag { assert FrameOk(ch, j); }
    forall j | 0 <= j < |t.frames| ensures FrameOk(t, j) {
      if j < n {
        assert FrameOk(ch, j);
        assert forall i :: 0 <= i < n ==> t.frames[i] == ch.frames[i];
      } else {
        assert t.frames[j] == r[j - n];
        if j == n + 1 { assert t.frames[n] == r[0]; }
      }
    }
  }

  lemma TakenInv(ch: Chan)
    requires ChanInv(ch) && SaneChan(ch) && ch.frames != [] && ch.frames[0].tag < |ch.held|
    ensures ChanInv(Taken(ch)) && SaneChan(Taken(ch))
  {
    var t := Taken(ch);
    assert FrameOk(ch, 0);
    forall j | 0 <= j < |t.frames| ensures FrameOk(t, j) {
      assert t.frames[j] == ch.frames[j + 1];
      assert FrameOk(ch, j + 1);
      assert forall i :: 0 <= i < j ==> t.frames[i] == ch.frames[i + 1];
    }
    assert ch.held[ch.frames[0].tag] in ch.held;
  }

  lemma {:induction false} RequeuedSane(held: seq<Held>)
    requires forall h :: h in held ==> Sane(h.attempts)
    ensures forall a :: a in Requeued(held) ==> Sane(a)
  {
    if held != [] { RequeuedSane(held[1..]); }
  }

  lemma InvStep(cfg: Config, s: State, step: Step)
    requires ValidConfig(cfg) && Inv(s) && Enabled(s, step)
    ensures Inv(Apply(cfg, s, step))
  {
    match step
    case Open =>
    case Deliver(c, i) => DeliveredInv(s.chans[c], s.main[i]);
    case Handle(c, tag, fails, publishes, settles) => HandledInv(cfg, s.chans[c], tag, fails, publishes, settles);
    case Process(c) => assert s.chans[c].frames[0] in s.chans[c].frames; TakenInv(s.chans[c]);
    case Drop(c) => RequeuedSane(s.chans[c].held);
    case Expire(i) =>
  }

  // ----- weighing the copies of the message -----

  datatype Weights = Weights(main: int -> nat, retry: int -> nat, dlq: int -> nat, held: Held -> nat, frame: Frame -> nat)

  function ChanWeight(w: Weights): Chan -> nat
  {
    (ch: Chan) => Sum(w.held, ch.held) + Sum(w.frame, ch.frames)
  }

  function Total(w: Weights, s: State): nat
  {
    Sum(w.main, s.main) + Sum(w.retry, s.retry) + Sum(w.dlq, s.dlq) + Sum(ChanWeight(w), s.chans)
  }

  lemma OpenWeighs(cfg: Config, w: Weights, s: State)
    ensures Total(w, Apply(cfg, s, Open)) == Total(w, s)
  {
    SumAppend(ChanWeight(w), s.chans, Chan([], []));
  }

  lemma DeliverWeighs(cfg: Config, w: Weights, s: State, c: nat, i: nat)
    requires Enabled(s, Deliver(c, i))
    ensures Total(w, Apply(cfg, s, Deliver(c, i))) + w.main(s.main[i]) == Total(w, s) + w.held(Held(s.main[i], Unhandled))
  {
    var ch := s.chans[c];
    var t := ch.(held := ch.held + [Held(s.main[i], Unhandled)]);
    SumRemove(w.main, s.main, i);
    SumAppend(w.held, ch.held, Held(s.main[i], Unhandled));
    SumUpdate(ChanWeight(w), s.chans, c, t);
  }

  lemma HandleWeighs(cfg: Config, w: Weights, s: State, c: nat, tag: nat, fails: bool, publishes: bool, settles: bool)
    requires Enabled(s, Handle(c, tag, fails, publishes, settles))
    ensures var h := s.chans[c].held[tag];
            Total(w, Apply(cfg, s, Handle(c, tag, fails, publishes, settles))) + w.held(h)
            == Total(w, s) + w.held(Held(h.attempts, if fails then Failed else Succeeded))
               + Sum(w.frame, Answer(cfg, h.attempts, tag, fails, publishes, settles))
  {
    var ch := s.chans[c];
    var h := ch.held[tag];
    var h' := Held(h.attempts, if fails then Failed else Succeeded);
    var r := Answer(cfg, h.attempts, tag, fails, publishes, settles);
    SumUpdate(w.held, ch.held, tag, h');
    SumConcat(w.frame, ch.frames, r);
    SumUpdate(ChanWeight(w), s.chans, c, Chan(ch.held[tag := h'], ch.frames + r));
  }

  /** The weight that lands in a queue when a frame is processed. */
  function Landed(w: Weights, f: Frame, h: Held): nat
  {
    match f
    case Publish(ToRetry, a, _) => w.retry(a)
    case Publish(ToDlq, a, _) => w.dlq(a)
    case Ack(_) => 0
    case Nack(_) => w.dlq(h.attempts)
  }

  lemma ProcessWeighs(cfg: Config, w: Weights, s: State, c: nat)
    requires Enabled(s, Process(c))
    ensures var f := s.chans[c].frames[0];
            var h := s.chans[c].held[f.tag];
            Total(w, Apply(cfg, s, Process(c))) + w.frame(f) + w.held(h)
            == Total(w, s) + w.held(h.(stage := if f.Publish? then Copied else Gone)) + Landed(w, f, h)
  {
    var ch := s.chans[c];
    var f := ch.frames[0];
    var h := ch.held[f.tag];
    SumUpdate(w.held, ch.held, f.tag, h.(stage := if f.Publish? then Copied else Gone));
    SumUpdate(ChanWeight(w), s.chans, c, Taken(ch));
    SumAppend(w.retry, s.retry, if f.Publish? then f.attempts else 0);
    SumAppend(w.dlq, s.dlq, if f.Publish? then f.attempts else h.attempts);
  }

  lemma DropWeighs(cfg: Config, w: Weights, s: State, c: nat)
    requires Enabled(s, Drop(c))
    ensures Total(w, Apply(cfg, s, Drop(c))) + ChanWeight(w)(s.chans[c]) == Total(w, s) + Sum(w.main, Requeued(s.chans[c].held))
  {
    SumConcat(w.main, s.main, Requeued(s.chans[c].held));
    SumUpdate(ChanWeight(w), s.chans, c, Chan([], []));
  }

  lemma ExpireWeighs(cfg: Config, w: Weights, s: State, i: nat)
    requires Enabled(s, Expire(i))
    ensures Total(w, Apply(cfg, s, Expire(i))) + w.retry(s.retry[i]) == Total(w, s) + w.main(s.retry[i])
  {
    SumRemove(w.retry, s.retry, i);
    SumAppend(w.main, s.main, s.retry[i]);
  }

  function Unsettled(f: int -> nat): Held -> nat { (h: Held) => if h.stage == Gone then 0 else f(h.attempts) }

  /** A drop puts back every delivery not settled, once, with the header it came with: whatever is counted over them agrees. */
  lemma {:induction false} RequeuedIsWhatWasHeld(f: int -> nat, held: seq<Held>)
    ensures Sum(f, Requeued(held)) == Sum(Unsettled(f), held)
  {
    if held != [] {
      RequeuedIsWhatWasHeld(f, held[1..]);
      SumConcat(f, if held[0].stage == Gone then [] else [held[0].attempts], Requeued(held[1..]));
      SumOne(f, held[0].attempts);
    }
  }

  // ----- the message is never lost -----

  /** One for every copy that stands for the message; a copied original no longer does. */
  function HeldStands(h: Held): nat { if h.stage == Gone || h.stage == Copied then 0 else 1 }

  function One(a: int): nat { 1 }

  function NoFrame(f: Frame): nat { 0 }

  const STANDING := Weights(One, One, One, HeldStands, NoFrame)

  lemma {:induction false} RequeuedStands(held: seq<Held>)
    ensures Sum(One, Requeued(held)) >= Sum(HeldStands, held)
  {
    if held != [] {
      RequeuedStands(held[1..]);
      SumConcat(One, if held[0].stage == Gone then [] else [held[0].attempts], Requeued(held[1..]));
      SumOne(One, held[0].attempts);
    }
  }

  lemma {:induction false} SumNoFrame(fs: seq<Frame>)
    ensures Sum(NoFrame, fs) == 0
  {
    if fs != [] { SumNoFrame(fs[1..]); }
  }

  lemma StandingStep(cfg: Config, s: State, step: Step)
    requires ValidConfig(cfg) && Inv(s) && Enabled(s, step)
    ensures var t := Apply(cfg, s, step);
            Total(STANDING, t) >= Total(STANDING, s) || (t.acked && Total(STANDING, t) + 1 >= Total(STANDING, s))
    ensures s.acked ==> Apply(cfg, s, step).acked
  {
    match step
    case Open => OpenWeighs(cfg, STANDING, s);
    case Deliver(c, i) => DeliverWeighs(cfg, STANDING, s, c, i);
    case Handle(c, tag, fails, publishes, settles) =>
      HandleWeighs(cfg, STANDING, s, c, tag, fails, publishes, settles);
      SumNoFrame(Answer(cfg, s.chans[c].held[tag].attempts, tag, fails, publishes, settles));
    case Process(c) =>
      ProcessWeighs(cfg, STANDING, s, c);
      assert ChanInv(s.chans[c]) && FrameOk(s.chans[c], 0);
    case Drop(c) =>
      DropWeighs(cfg, STANDING, s, c);
      RequeuedStands(s.chans[c].held);
      SumNoFrame(s.chans[c].frames);
    case Expire(i) => ExpireWeighs(cfg, STANDING, s, i);
  }

  lemma {:induction false} StandingRun(cfg: Config, s: State, steps: seq<Step>)
    requires ValidConfig(cfg) && Inv(s) && IsRun(cfg, s, steps) && (s.acked || Total(STANDING, s) >= 1)
    ensures var t := After(cfg, s, steps); Inv(t) && (t.acked || Total(STANDING, t) >= 1)
    decreases |steps|
  {
    if steps != [] {
      InvStep(cfg, s, steps[0]);
      StandingStep(cfg, s, steps[0]);
      StandingRun(cfg, Apply(cfg, s, steps[0]), steps[1..]);
    }
  }

  lemma {:induction false} SumPositive<T>(f: T -> nat, s: seq<T>) returns (i: nat)
    requires Sum(f, s) > 0
    ensures i < |s| && f(s[i]) > 0
  {
    if f(s[0]) > 0 {
      i := 0;
    } else {
      i := SumPositive(f, s[1..]);
      i := i + 1;
    }
  }

  /** The broker holds the message unacknowledged on some channel. */
  ghost predicate Unacked(s: State)
  {
    exists c: nat, tag: nat :: IsAt(s, c, tag) && s.chans[c].held[tag].stage != Gone
  }

  /**
   Whatever prefix of each channel's frames the broker gets to see, and however often
   channels drop: the message is in the main queue, unacknowledged, in the retry queue or
   in the DLQ, or it was acknowledged after its handler succeeded.
   */
  lemma MessageIsNeverLost(cfg: Config, attempts: int, steps: seq<Step>)
    requires ValidConfig(cfg) && Sane(attempts) && IsRun(cfg, Published(attempts), steps)
    ensures var s := After(cfg, Published(attempts), steps);
            s.main != [] || Unacked(s) || s.retry != [] || s.dlq != [] || s.acked
  {
    SumOne(One, attempts);
    StandingRun(cfg, Published(attempts), steps);
    var s := After(cfg, Published(attempts), steps);
    if !s.acked && s.main == [] && s.retry == [] && s.dlq == [] {
      var c := SumPositive(ChanWeight(STANDING), s.chans);
      SumNoFrame(s.chans[c].frames);
      var tag := SumPositive(HeldStands, s.chans[c].held);
      assert IsAt(s, c, tag);
    }
  }

  // ----- how often the handler can run -----

  /** Handler runs a copy can still cause without a drop. */
  function Left(cfg: Config, a: int): nat { Max(1, cfg.maxAttempts - a) }

  function LeftOf(cfg: Config): int -> nat { (a: int) => Left(cfg, a) }

  function HeldLeft(cfg: Config): Held -> nat { (h: Held) => if h.stage == Unhandled then Left(cfg, h.attempts) else 0 }

  function FrameLeft(cfg: Config): Frame -> nat
  {
    (f: Frame) => if f.Publish? && f.to == ToRetry then Left(cfg, f.attempts) else 0
  }

  function None(a: int): nat { 0 }

  function Potential(cfg: Config): Weights { Weights(LeftOf(cfg), LeftOf(cfg), None, HeldLeft(cfg), FrameLeft(cfg)) }

  lemma {:induction false} SumBounded(f: int -> nat, s: seq<int>, k: nat)
    requires forall i :: 0 <= i < |s| ==> f(s[i]) <= k
    ensures Sum(f, s) <= k * |s|
  {
    if s != [] {
      var n := |s| - 1;
      SumBounded(f, s[1..], k);
      assert Sum(f, s[1..]) <= k * n;
      assert k * (n + 1) == k * n + k;
    }
  }

  lemma AnswerLeft(cfg: Config, a: int, tag: nat, fails: bool, publishes: bool, settles: bool)
    requires ValidConfig(cfg) && Sane(a)
    ensures Sum(FrameLeft(cfg), Answer(cfg, a, tag, fails, publishes, settles)) + 1 <= Left(cfg, a)
  {
    AnswerShape(cfg, a, tag, fails, publishes, settles);
    var r := Answer(cfg, a, tag, fails, publishes, settles);
    var f := FrameLeft(cfg);
    SumOne(f, Ack(tag));
    SumOne(f, Nack(tag));
    if fails && publishes {
      var p := Publish(if a + 1 >= cfg.maxAttempts then ToDlq else ToRetry, a + 1, tag);
      SumOne(f, p);
      SumConcat(f, [p], if settles then [Ack(tag)] else []);
    }
  }

  /** Without a drop, a handler run is paid for by the potential it uses up. */
  lemma PotentialSteady(cfg: Config, s: State, step: Step)
    requires ValidConfig(cfg) && Inv(s) && Enabled(s, step) && !step.Drop?
    ensures var t := Apply(cfg, s, step);
            t.runs + Total(Potential(cfg), t) <= s.runs + Total(Potential(cfg), s) && t.redeliveries == s.redeliveries
  {
    var w := Potential(cfg);
    match step
    case Open => OpenWeighs(cfg, w, s);
    case Deliver(c, i) => DeliverWeighs(cfg, w, s, c, i);
    case Handle(c, tag, fails, publishes, settles) =>
      HandleWeighs(cfg, w, s, c, tag, fails, publishes, settles);
      assert s.chans[c].held[tag] in s.chans[c].held;
      AnswerLeft(cfg, s.chans[c].held[tag].attempts, tag, fails, publishes, settles);
    case Process(c) =>
      ProcessWeighs(cfg, w, s, c);
      assert ChanInv(s.chans[c]) && FrameOk(s.chans[c], 0);
    case Expire(i) => ExpireWeighs(cfg, w, s, i);
  }

  /** A drop adds at most maxAttempts for each delivery it puts back. */
  lemma PotentialDrop(cfg: Config, s: State, c: nat)
    requires ValidConfig(cfg) && Inv(s) && Enabled(s, Drop(c))
    ensures var t := Apply(cfg, s, Drop(c));
            && t.runs == s.runs && t.redeliveries >= s.redeliveries
            && Total(Potential(cfg), t) <= Total(Potential(cfg), s) + cfg.maxAttempts * (t.redeliveries - s.redeliveries)
  {
    var back := Requeued(s.chans[c].held);
    DropWeighs(cfg, Potential(cfg), s, c);
    RequeuedSane(s.chans[c].held);
    assert forall i :: 0 <= i < |back| ==> back[i] in back;
    SumBounded(LeftOf(cfg), back, cfg.maxAttempts);
    assert Apply(cfg, s, Drop(c)).redeliveries - s.redeliveries == |back|;
  }

  lemma Allowance(m: nat, runs: nat, before: nat, after: nat, r: nat, t: nat)
    requires runs + before <= m * (1 + r) && after <= before + m * (t - r)
    ensures runs + after <= m * (1 + t)
  {
  }

  /** Runs made and runs still possible are within the allowance. */
  ghost predicate Paid(cfg: Config, s: State)
  {
    s.runs + Total(Potential(cfg), s) <= cfg.maxAttempts * (1 + s.redeliveries)
  }

  lemma PaidThroughDrop(cfg: Config, s: State, t: State)
    requires Paid(cfg, s) && t.runs == s.runs && t.redeliveries >= s.redeliveries
    requires Total(Potential(cfg), t) <= Total(Potential(cfg), s) + cfg.maxAttempts * (t.redeliveries - s.redeliveries)
    ensures Paid(cfg, t)
  {
    Allowance(cfg.maxAttempts, s.runs, Total(Potential(cfg), s), Total(Potential(cfg), t), s.redeliveries, t.redeliveries);
  }

  lemma PaidThroughout(cfg: Config, s: State, t: State)
    requires Paid(cfg, s) && t.redeliveries == s.redeliveries
    requires t.runs + Total(Potential(cfg), t) <= s.runs + Total(Potential(cfg), s)
    ensures Paid(cfg, t)
  {
  }

  lemma PotentialStep(cfg: Config, s: State, step: Step)
    requires ValidConfig(cfg) && Inv(s) && Enabled(s, step) && Paid(cfg, s)
    ensures Paid(cfg, Apply(cfg, s, step))
  {
    if step.Drop? {
      PotentialDrop(cfg, s, step.c);
      PaidThroughDrop(cfg, s, Apply(cfg, s, step));
    } else {
      PotentialSteady(cfg, s, step);
      PaidThroughout(cfg, s, Apply(cfg, s, step));
    }
  }

  lemma {:induction false} PotentialRun(cfg: Config, s: State, steps: seq<Step>)
    requires ValidConfig(cfg) && Inv(s) && IsRun(cfg, s, steps) && Paid(cfg, s)
    ensures Paid(cfg, After(cfg, s, steps))
    decreases |steps|
  {
    if steps != [] {
      InvStep(cfg, s, steps[0]);
      PotentialStep(cfg, s, steps[0]);
      PotentialRun(cfg, Apply(cfg, s, steps[0]), steps[1..]);
    }
  }

  /** The handler runs at most maxAttempts times, plus maxAttempts for every redelivery a drop caused. */
  lemma HandlerRunsAreBounded(cfg: Config, attempts: int, steps: seq<Step>)
    requires ValidConfig(cfg) && Sane(attempts) && IsRun(cfg, Published(attempts), steps)
    ensures var s := After(cfg, Published(attempts), steps);
            s.runs <= cfg.maxAttempts * (1 + s.redeliveries)
  {
    SumOne(LeftOf(cfg), attempts);
    PotentialRun(cfg, Published(attempts), steps);
  }

  // ----- without faults, and with a handler that always fails -----

  /** No drop, every write succeeds, the handler fails. */
  predicate Calm(step: Step)
  {
    match step
    case Drop(_) => false
    case Handle(_, _, fails, publishes, settles) => fails && publishes && settles
    case _ => true
  }

  predicate CalmFrame(cfg: Config, f: Frame)
  {
    match f
    case Publish(ToRetry, a, _) => a < cfg.maxAttempts
    case Publish(ToDlq, a, _) => a == cfg.maxAttempts
    case Ack(_) => true
    case Nack(_) => false
  }

  predicate CopyOut(ch: Chan, tag: nat)
  {
    exists j :: 0 <= j < |ch.frames| && ch.frames[j].Publish? && ch.frames[j].tag == tag
  }

  predicate CalmChan(cfg: Config, ch: Chan)
  {
    && (forall t :: 0 <= t < |ch.held| ==> ch.held[t].stage != Succeeded)
    && (forall t :: 0 <= t < |ch.held| && ch.held[t].stage == Unhandled ==> ch.held[t].attempts < cfg.maxAttempts)
    && (forall t :: 0 <= t < |ch.held| && ch.held[t].stage == Failed ==> CopyOut(ch, t))
    && (forall j :: 0 <= j < |ch.frames| ==> CalmFrame(cfg, ch.frames[j]))
  }

  predicate CalmInv(cfg: Config, s: State)
  {
    && Inv(s) && !s.acked
    && (forall c :: 0 <= c < |s.chans| ==> CalmChan(cfg, s.chans[c]))
    && (forall i :: 0 <= i < |s.main| ==> s.main[i] < cfg.maxAttempts)
    && (forall i :: 0 <= i < |s.retry| ==> s.retry[i] < cfg.maxAttempts)
    && (forall i :: 0 <= i < |s.dlq| ==> s.dlq[i] == cfg.maxAttempts)
  }

  lemma CalmHandled(cfg: Config, ch: Chan, tag: nat)
    requires ValidConfig(cfg) && CalmChan(cfg, ch) && SaneChan(ch) && tag < |ch.held| && ch.held[tag].stage == Unhandled
    ensures var a := ch.held[tag].attempts;
            CalmChan(cfg, Chan(ch.held[tag := Held(a, Failed)], ch.frames + Answer(cfg, a, tag, true, true, true)))
  {
    var a := ch.held[tag].attempts;
    assert ch.held[tag] in ch.held;
    AnswerShape(cfg, a, tag, true, true, true);
    var r := Answer(cfg, a, tag, true, true, true);
    var t := Chan(ch.held[tag := Held(a, Failed)], ch.frames + r);
    assert t.frames[|ch.frames|] == r[0];
    forall u | 0 <= u < |t.held| && t.held[u].stage == Failed ensures CopyOut(t, u) {
      if u != tag {
        assert CopyOut(ch, u);
        var j :| 0 <= j < |ch.frames| && ch.frames[j].Publish? && ch.frames[j].tag == u;
        assert t.frames[j] == ch.frames[j];
      }
    }
  }

  lemma CalmTaken(cfg: Config, ch: Chan)
    requires ChanInv(ch) && CalmChan(cfg, ch) && ch.frames != [] && ch.frames[0].tag < |ch.held|
    ensures CalmChan(cfg, Taken(ch))
  {
  }

  lemma CalmDelivered(cfg: Config, ch: Chan, a: int)
    requires CalmChan(cfg, ch) && a < cfg.maxAttempts
    ensures CalmChan(cfg, ch.(held := ch.held + [Held(a, Unhandled)]))
  {
  }

  lemma CalmStep(cfg: Config, s: State, step: Step)
    requires ValidConfig(cfg) && CalmInv(cfg, s) && Enabled(s, step) && Calm(step)
    ensures CalmInv(cfg, Apply(cfg, s, step))
  {
    InvStep(cfg, s, step);
    match step
    case Open =>
    case Deliver(c, i) => CalmDelivered(cfg, s.chans[c], s.main[i]);
    case Handle(c, tag, _, _, _) => CalmHandled(cfg, s.chans[c], tag);
    case Process(c) =>
      assert FrameOk(s.chans[c], 0);
      CalmTaken(cfg, s.chans[c]);
    case Expire(i) =>
  }

  // The age of a copy is the number of handler runs behind it.

  function AgeOf(a: int): nat { Max(0, a) }

  function HeldAge(h: Held): nat
  {
    match h.stage
    case Unhandled => AgeOf(h.attempts)
    case Failed => AgeOf(h.attempts + 1)
    case _ => 0
  }

  const AGE := Weights(AgeOf, AgeOf, AgeOf, HeldAge, NoFrame)

  /** A calm step conserves the copy that stands for the message. */
  lemma CalmStanding(cfg: Config, s: State, step: Step)
    requires ValidConfig(cfg) && CalmInv(cfg, s) && Enabled(s, step) && Calm(step)
    ensures Total(STANDING, Apply(cfg, s, step)) == Total(STANDING, s)
  {
    match step
    case Open => OpenWeighs(cfg, STANDING, s);
    case Deliver(c, i) => DeliverWeighs(cfg, STANDING, s, c, i);
    case Handle(c, tag, fails, publishes, settles) =>
      HandleWeighs(cfg, STANDING, s, c, tag, fails, publishes, settles);
      SumNoFrame(Answer(cfg, s.chans[c].held[tag].attempts, tag, fails, publishes, settles));
    case Process(c) =>
      ProcessWeighs(cfg, STANDING, s, c);
      assert FrameOk(s.chans[c], 0) && CalmFrame(cfg, s.chans[c].frames[0]);
    case Expire(i) => ExpireWeighs(cfg, STANDING, s, i);
  }

  lemma CalmAgeHandled(cfg: Config, s: State, c: nat, tag: nat)
    requires ValidConfig(cfg) && CalmInv(cfg, s) && Enabled(s, Handle(c, tag, true, true, true))
    ensures Total(AGE, Apply(cfg, s, Handle(c, tag, true, true, true))) == Total(AGE, s) + 1
  {
    HandleWeighs(cfg, AGE, s, c, tag, true, true, true);
    SumNoFrame(Answer(cfg, s.chans[c].held[tag].attempts, tag, true, true, true));
    assert s.chans[c].held[tag] in s.chans[c].held;
  }

  lemma CalmAgeProcessed(cfg: Config, s: State, c: nat)
    requires ValidConfig(cfg) && CalmInv(cfg, s) && Enabled(s, Process(c))
    ensures Total(AGE, Apply(cfg, s, Process(c))) == Total(AGE, s)
  {
    ProcessWeighs(cfg, AGE, s, c);
    assert FrameOk(s.chans[c], 0) && CalmFrame(cfg, s.chans[c].frames[0]);
  }

  /** Its age counts the handler runs. */
  lemma CalmAge(cfg: Config, s: State, step: Step)
    requires ValidConfig(cfg) && CalmInv(cfg, s) && Enabled(s, step) && Calm(step)
    ensures var t := Apply(cfg, s, step); Total(AGE, t) + s.runs == Total(AGE, s) + t.runs
  {
    match step
    case Open => OpenWeighs(cfg, AGE, s);
    case Deliver(c, i) => DeliverWeighs(cfg, AGE, s, c, i);
    case Handle(c, tag, _, _, _) => CalmAgeHandled(cfg, s, c, tag);
    case Process(c) => CalmAgeProcessed(cfg, s, c);
    case Expire(i) => ExpireWeighs(cfg, AGE, s, i);
  }

  // Every calm step but opening another channel uses something up.

  function Grade(cfg: Config, a: int, k: nat): nat { 6 * Max(0, cfg.maxAttempts - a) + k }

  function MainGrade(cfg: Config): int -> nat { (a: int) => Grade(cfg, a, 2) }
  function RetryGrade(cfg: Config): int -> nat { (a: int) => Grade(cfg, a, 3) }
  function HeldGrade(cfg: Config): Held -> nat { (h: Held) => if h.stage == Unhandled then Grade(cfg, h.attempts, 1) else 0 }
  function FrameGrade(cfg: Config): Frame -> nat
  {
    (f: Frame) => if f.Publish? && f.to == ToRetry then Grade(cfg, f.attempts, 4) else 1
  }

  function Remaining(cfg: Config): Weights { Weights(MainGrade(cfg), RetryGrade(cfg), None, HeldGrade(cfg), FrameGrade(cfg)) }

  lemma AnswerGrade(cfg: Config, a: int, tag: nat)
    requires ValidConfig(cfg) && Sane(a) && a < cfg.maxAttempts
    ensures Sum(FrameGrade(cfg), Answer(cfg, a, tag, true, true, true)) < Grade(cfg, a, 1)
  {
    AnswerShape(cfg, a, tag, true, true, true);
    var f := FrameGrade(cfg);
    var p := Publish(if a + 1 >= cfg.maxAttempts then ToDlq else ToRetry, a + 1, tag);
    SumOne(f, p);
    SumOne(f, Ack(tag));
    SumConcat(f, [p], [Ack(tag)]);
  }

  lemma CalmProgress(cfg: Config, s: State, step: Step)
    requires ValidConfig(cfg) && CalmInv(cfg, s) && Enabled(s, step) && Calm(step) && !step.Open?
    ensures Total(Remaining(cfg), Apply(cfg, s, step)) < Total(Remaining(cfg), s)
  {
    var w := Remaining(cfg);
    match step
    case Deliver(c, i) => DeliverWeighs(cfg, w, s, c, i);
    case Handle(c, tag, fails, publishes, settles) =>
      HandleWeighs(cfg, w, s, c, tag, fails, publishes, settles);
      assert s.chans[c].held[tag] in s.chans[c].held;
      AnswerGrade(cfg, s.chans[c].held[tag].attempts, tag);
    case Process(c) =>
      ProcessWeighs(cfg, w, s, c);
      assert FrameOk(s.chans[c], 0) && CalmFrame(cfg, s.chans[c].frames[0]);
    case Expire(i) => ExpireWeighs(cfg, w, s, i);
  }

  /** From `s` to `t`, `n` calm steps on. */
  ghost predicate CalmlyLeads(cfg: Config, s: State, t: State, n: nat)
  {
    && Total(STANDING, t) == Total(STANDING, s)
    && Total(AGE, t) + s.runs == Total(AGE, s) + t.runs
    && n + Total(Remaining(cfg), t) <= Total(Remaining(cfg), s)
    && |t.chans| == |s.chans|
  }

  lemma ChansKept(cfg: Config, s: State, step: Step)
    requires Enabled(s, step) && !step.Open?
    ensures |Apply(cfg, s, step).chans| == |s.chans|
  {
  }

  lemma CalmMove(cfg: Config, s: State, step: Step)
    requires ValidConfig(cfg) && CalmInv(cfg, s) && Enabled(s, step) && Calm(step) && !step.Open?
    ensures CalmlyLeads(cfg, s, Apply(cfg, s, step), 1)
  {
    CalmStanding(cfg, s, step);
    CalmAge(cfg, s, step);
    CalmProgress(cfg, s, step);
    ChansKept(cfg, s, step);
  }

  lemma CalmlyOn(cfg: Config, s: State, t: State, u: State, n: nat)
    requires CalmlyLeads(cfg, s, t, 1) && CalmlyLeads(cfg, t, u, n)
    ensures CalmlyLeads(cfg, s, u, n + 1)
  {
  }

  lemma {:induction false} CalmRun(cfg: Config, s: State, steps: seq<Step>)
    requires ValidConfig(cfg) && CalmInv(cfg, s) && IsRun(cfg, s, steps)
    requires forall i :: 0 <= i < |steps| ==> Calm(steps[i]) && !steps[i].Open?
    ensures CalmInv(cfg, After(cfg, s, steps)) && CalmlyLeads(cfg, s, After(cfg, s, steps), |steps|)
    decreases |steps|
  {
    if steps != [] {
      var t := Apply(cfg, s, steps[0]);
      CalmStep(cfg, s, steps[0]);
      CalmMove(cfg, s, steps[0]);
      CalmRun(cfg, t, steps[1..]);
      CalmlyOn(cfg, s, t, After(cfg, t, steps[1..]), |steps| - 1);
    }
  }

  ghost predicate AtRest(s: State)
  {
    forall step :: Enabled(s, step) ==> !Calm(step) || step.Open?
  }

  lemma RestingFrames(cfg: Config, s: State, c: nat)
    requires CalmInv(cfg, s) && AtRest(s) && c < |s.chans|
    ensures s.chans[c].frames == []
  {
    assert !Enabled(s, Process(c));
    assert s.chans[c].frames != [] ==> FrameOk(s.chans[c], 0);
  }

  lemma RestingHeld(cfg: Config, s: State, c: nat, tag: nat)
    requires CalmInv(cfg, s) && AtRest(s) && IsAt(s, c, tag) && s.chans[c].frames == []
    ensures var h := s.chans[c].held[tag]; h.stage == Copied || h.stage == Gone
  {
    assert CalmChan(cfg, s.chans[c]);
    assert !Enabled(s, Handle(c, tag, true, true, true));
  }

  lemma RestingChan(cfg: Config, s: State, c: nat)
    requires CalmInv(cfg, s) && AtRest(s) && c < |s.chans|
    ensures ChanWeight(STANDING)(s.chans[c]) == 0 && ChanWeight(AGE)(s.chans[c]) == 0
  {
    var ch := s.chans[c];
    RestingFrames(cfg, s, c);
    forall tag | 0 <= tag < |ch.held| ensures HeldStands(ch.held[tag]) == 0 && HeldAge(ch.held[tag]) == 0 {
      RestingHeld(cfg, s, c, tag);
    }
    SumZero(HeldStands, ch.held);
    SumZero(HeldAge, ch.held);
  }

  lemma {:induction false} SumZero<T>(f: T -> nat, s: seq<T>)
    requires forall i :: 0 <= i < |s| ==> f(s[i]) == 0
    ensures Sum(f, s) == 0
  {
    if s != [] { SumZero(f, s[1..]); }
  }

  lemma {:induction false} SumOnes(s: seq<int>)
    ensures Sum(One, s) == |s|
  {
    if s != [] { SumOnes(s[1..]); }
  }

  /** Where nothing can move any more, one copy is in the DLQ and the runs are accounted for. */
  lemma AtRestInDlq(cfg: Config, s: State)
    requires ValidConfig(cfg) && CalmInv(cfg, s) && AtRest(s) && |s.chans| > 0 && Total(STANDING, s) == 1
    ensures s.main == [] && s.retry == [] && s.dlq == [cfg.maxAttempts] && Total(AGE, s) == cfg.maxAttempts
  {
    assert !Enabled(s, Deliver(0, 0));
    assert !Enabled(s, Expire(0));
    forall c | 0 <= c < |s.chans|
      ensures ChanWeight(STANDING)(s.chans[c]) == 0 && ChanWeight(AGE)(s.chans[c]) == 0
    {
      RestingChan(cfg, s, c);
    }
    SumZero(ChanWeight(STANDING), s.chans);
    SumZero(ChanWeight(AGE), s.chans);
    SumOnes(s.dlq);
    assert s.dlq == [s.dlq[0]];
    SumOne(AgeOf, s.dlq[0]);
  }

  /** A freshly published message, with `n` consumer channels open. */
  function Start(n: nat): State { State([0], [], [], seq(n, _ => Chan([], [])), 0, 0, false) }

  lemma StartWeighs(w: Weights, n: nat)
    ensures Total(w, Start(n)) == w.main(0)
  {
    SumOne(w.main, 0);
    SumZero(ChanWeight(w), Start(n).chans);
  }

  lemma StartCalm(cfg: Config, n: nat)
    requires ValidConfig(cfg)
    ensures CalmInv(cfg, Start(n))
    ensures Total(STANDING, Start(n)) == 1 && Total(AGE, Start(n)) == 0
  {
    StartWeighs(STANDING, n);
    StartWeighs(AGE, n);
  }

  /**
   With no faults and a handler that always fails, no run goes on for ever, and one that has
   come to rest has run the handler exactly maxAttempts times and left exactly one copy of
   the message, in the DLQ.
   */
  lemma AlwaysFailingEndsInTheDlq(cfg: Config, n: nat, steps: seq<Step>)
    requires ValidConfig(cfg) && n > 0 && IsRun(cfg, Start(n), steps)
    requires forall i :: 0 <= i < |steps| ==> Calm(steps[i]) && !steps[i].Open?
    ensures |steps| <= 6 * cfg.maxAttempts + 2
    ensures var s := After(cfg, Start(n), steps);
            AtRest(s) ==> s.runs == cfg.maxAttempts && s.main == [] && s.retry == [] && s.dlq == [cfg.maxAttempts] && !s.acked
  {
    StartCalm(cfg, n);
    StartWeighs(Remaining(cfg), n);
    CalmRun(cfg, Start(n), steps);
    var s := After(cfg, Start(n), steps);
    if AtRest(s) {
      AtRestInDlq(cfg, s);
    }
  }
}
