/**
 Publisher confirms. The library hands confirmations to one Go channel in the order of the
 publishes; `waitForConfirm` takes whichever comes next and never looks at its tag. Nothing
 in the publisher keeps two goroutines from publishing at once: every waiting call may take
 the next confirmation.
 */
module Publisher {

  /**
   The publisher's channel. The delivery tag of `sent[i]` is `i`; `verdicts[i]` is the
   broker's answer to it, present once it has arrived.
   */
  datatype Chan<M> = Chan(
    sent: seq<M>,
    verdicts: seq<bool>,
    read: nat,            // confirmations taken off the shared Go channel
    exits: nat,           // publishes that left by their deadline
    lost: nat,            // publishes that found the channel closed
    waiting: set<nat>,    // tags of the calls that have written and are waiting
    open: bool)
  {
    predicate Unread() { read < |verdicts| }
  }

  function Fresh<M>(): Chan<M> { Chan([], [], 0, 0, 0, {}, true) }

  /** What can happen on the channel; `tag` says which waiting call. */
  datatype Event<M> =
    | Wrote(m: M) | Answered(ack: bool) | Dropped
    | Took(tag: nat) | Expired(tag: nat) | FoundClosed(tag: nat)

  predicate Can<M>(ch: Chan<M>, e: Event<M>)
  {
    match e
    case Wrote(_) => ch.open
    case Answered(_) => ch.open && |ch.verdicts| < |ch.sent|
    case Dropped => ch.open
    case Took(tag) => tag in ch.waiting && ch.Unread()
    case Expired(tag) => tag in ch.waiting
    case FoundClosed(tag) => tag in ch.waiting && !ch.open && !ch.Unread()
  }

  function Do<M>(ch: Chan<M>, e: Event<M>): Chan<M>
    requires Can(ch, e)
  {
    match e
    case Wrote(m) => ch.(sent := ch.sent + [m], waiting := ch.waiting + {|ch.sent|})
    case Answered(ack) => ch.(verdicts := ch.verdicts + [ack])
    case Dropped => ch.(open := false)
    case Took(tag) => ch.(read := ch.read + 1, waiting := ch.waiting - {tag})
    case Expired(tag) => ch.(exits := ch.exits + 1, waiting := ch.waiting - {tag})
    case FoundClosed(tag) => ch.(lost := ch.lost + 1, waiting := ch.waiting - {tag})
  }

  /** Every publish took one confirmation, left by its deadline, found the channel closed or is waiting. */
  predicate Valid<M>(ch: Chan<M>)
  {
    && ch.read <= |ch.verdicts| <= |ch.sent|
    && (forall tag :: tag in ch.waiting ==> tag < |ch.sent|)
    && ch.read + ch.exits + ch.lost + |ch.waiting| == |ch.sent|
    && (ch.lost > 0 ==> !ch.open)
  }

  lemma DoValid<M>(ch: Chan<M>, e: Event<M>)
    requires Valid(ch) && Can(ch, e)
    ensures Valid(Do(ch, e))
  {
  }

  predicate IsHistory<M>(ch: Chan<M>, es: seq<Event<M>>)
    decreases |es|
  {
    es == [] || (Can(ch, es[0]) && IsHistory(Do(ch, es[0]), es[1..]))
  }

  function Replay<M>(ch: Chan<M>, es: seq<Event<M>>): Chan<M>
    requires IsHistory(ch, es)
    decreases |es|
  {
    if es == [] then ch else Replay(Do(ch, es[0]), es[1..])
  }

  function Expiries<M>(es: seq<Event<M>>): nat
  {
    if es == [] then 0 else (if es[0].Expired? then 1 else 0) + Expiries(es[1..])
  }

  lemma {:induction false} ReplayValid<M>(ch: Chan<M>, es: seq<Event<M>>)
    requires Valid(ch) && IsHistory(ch, es)
    ensures Valid(Replay(ch, es)) && Replay(ch, es).exits == ch.exits + Expiries(es)
    decreases |es|
  {
    if es != [] {
      DoValid(ch, es[0]);
      ReplayValid(Do(ch, es[0]), es[1..]);
    }
  }

  // ----- one publish at a time -----

  /** Nobody writes while another call is waiting: how the outbox worker uses its publisher. */
  predicate Serialized<M>(ch: Chan<M>, es: seq<Event<M>>)
    requires IsHistory(ch, es)
    decreases |es|
  {
    es == [] || ((es[0].Wrote? ==> ch.waiting == {}) && Serialized(Do(ch, es[0]), es[1..]))
  }

  /** At most the last message is waited for, on a channel nobody has found closed. */
  predicate OneAtATime<M>(ch: Chan<M>)
  {
    ch.waiting == {} || (ch.sent != [] && ch.waiting == {|ch.sent| - 1} && ch.lost == 0)
  }

  lemma {:induction false} ReplaySerialized<M>(ch: Chan<M>, es: seq<Event<M>>)
    requires Valid(ch) && OneAtATime(ch) && IsHistory(ch, es) && Serialized(ch, es)
    ensures OneAtATime(Replay(ch, es))
    decreases |es|
  {
    if es != [] {
      DoValid(ch, es[0]);
      ReplaySerialized(Do(ch, es[0]), es[1..]);
    }
  }

  /**
   One publish at a time: the confirmation a waiting publish would take lags its own message
   by exactly the number of earlier publishes that left by their deadline; so it is its own
   if and only if none did.
   */
  lemma ConfirmationLag<M>(es: seq<Event<M>>, tag: nat)
    requires IsHistory(Fresh<M>(), es) && Serialized(Fresh<M>(), es) && tag in Replay(Fresh<M>(), es).waiting
    ensures var ch := Replay(Fresh<M>(), es);
            && tag == |ch.sent| - 1
            && tag - ch.read == Expiries(es)
            && (ch.read == tag <==> Expiries(es) == 0)
  {
    ReplayValid(Fresh<M>(), es);
    ReplaySerialized(Fresh<M>(), es);
  }

  // ----- when a call reads its own confirmation -----

  /** Every confirmation taken in the history is the taker's own. */
  predicate OwnTakes<M>(ch: Chan<M>, es: seq<Event<M>>)
    requires IsHistory(ch, es)
    decreases |es|
  {
    es == [] || ((es[0].Took? ==> es[0].tag == ch.read) && OwnTakes(Do(ch, es[0]), es[1..]))
  }

  /** What the callers of one publisher undertake. */
  datatype Use = Use(serialized: bool, punctual: bool)

  predicate Follows<M>(u: Use, es: seq<Event<M>>)
    requires IsHistory(Fresh<M>(), es)
  {
    (u.serialized ==> Serialized(Fresh<M>(), es)) && (u.punctual ==> Expiries(es) == 0)
  }

  ghost predicate AlwaysOwn<M(!new)>(u: Use)
  {
    forall es: seq<Event<M>> :: IsHistory(Fresh<M>(), es) && Follows(u, es) ==> OwnTakes(Fresh<M>(), es)
  }

  lemma {:induction false} CarefulTakesAreOwn<M>(ch: Chan<M>, es: seq<Event<M>>)
    requires Valid(ch) && OneAtATime(ch) && ch.exits == 0
    requires IsHistory(ch, es) && Serialized(ch, es) && Expiries(es) == 0
    ensures OwnTakes(ch, es)
    decreases |es|
  {
    if es != [] {
      DoValid(ch, es[0]);
      CarefulTakesAreOwn(Do(ch, es[0]), es[1..]);
    }
  }

  /** Putting an event in front of a history. */
  lemma InFront<M>(ch: Chan<M>, e: Event<M>, es: seq<Event<M>>)
    requires Can(ch, e) && IsHistory(Do(ch, e), es)
    ensures IsHistory(ch, [e] + es) && Replay(ch, [e] + es) == Replay(Do(ch, e), es)
    ensures Serialized(ch, [e] + es) <==> (e.Wrote? ==> ch.waiting == {}) && Serialized(Do(ch, e), es)
    ensures Expiries([e] + es) == (if e.Expired? then 1 else 0) + Expiries(es)
    ensures OwnTakes(ch, [e] + es) <==> (e.Took? ==> e.tag == ch.read) && OwnTakes(Do(ch, e), es)
  {
    assert ([e] + es)[1..] == es;
  }

  lemma {:induction false} ThenTakes<M>(ch: Chan<M>, es: seq<Event<M>>, tag: nat)
    requires IsHistory(ch, es) && Can(Replay(ch, es), Took(tag)) && Replay(ch, es).read != tag
    ensures var more := es + [Took(tag)];
            && IsHistory(ch, more) && !OwnTakes(ch, more) && Expiries(more) == Expiries(es)
            && (Serialized(ch, es) ==> Serialized(ch, more))
    decreases |es|
  {
    if es == [] {
      InFront(ch, Took(tag), []);
      assert es + [Took(tag)] == [Took(tag)] + [];
    } else {
      ThenTakes(Do(ch, es[0]), es[1..], tag);
      InFront(ch, es[0], es[1..] + [Took(tag)]);
      assert es + [Took(tag)] == [es[0]] + (es[1..] + [Took(tag)]);
    }
  }

  /** The call is about to return nil for a message the broker refused. */
  predicate Misreports<M>(ch: Chan<M>, tag: nat)
  {
    tag in ch.waiting && ch.Unread() && ch.verdicts[ch.read] && tag < |ch.verdicts| && !ch.verdicts[tag]
  }

  /** One at a time, but the first left by its deadline: its late confirmation is taken for the second's. */
  lemma RefusedYetReported<M>(m: M) returns (es: seq<Event<M>>)
    ensures IsHistory(Fresh<M>(), es) && Serialized(Fresh<M>(), es) && Misreports(Replay(Fresh<M>(), es), 1)
  {
    var c0 := Fresh<M>();
    var c1 := Do(c0, Wrote(m));
    var c2 := Do(c1, Expired(0));
    var c3 := Do(c2, Answered(true));
    var c4 := Do(c3, Wrote(m));
    es := [Answered(false)] + [];
    InFront(c4, Answered(false), []);
    InFront(c3, Wrote(m), es);
    es := [Wrote(m)] + es;
    InFront(c2, Answered(true), es);
    es := [Answered(true)] + es;
    InFront(c1, Expired(0), es);
    es := [Expired(0)] + es;
    InFront(c0, Wrote(m), es);
    es := [Wrote(m)] + es;
  }

  /** Two at once and none late: the second call takes the confirmation of the first. */
  lemma OverlapMisreports<M>(m: M) returns (es: seq<Event<M>>)
    ensures IsHistory(Fresh<M>(), es) && Expiries(es) == 0 && Misreports(Replay(Fresh<M>(), es), 1)
  {
    var c0 := Fresh<M>();
    var c1 := Do(c0, Wrote(m));
    var c2 := Do(c1, Wrote(m));
    var c3 := Do(c2, Answered(true));
    es := [Answered(false)] + [];
    InFront(c3, Answered(false), []);
    InFront(c2, Answered(true), es);
    es := [Answered(true)] + es;
    InFront(c1, Wrote(m), es);
    es := [Wrote(m)] + es;
    InFront(c0, Wrote(m), es);
    es := [Wrote(m)] + es;
  }

  /**
   Every call reads the answer to its own message, in every history, if and only if the
   callers publish one at a time and none of them leaves by its deadline.
   */
  lemma OwnIffSerializedAndPunctual<M(!new)>(u: Use, m: M)
    ensures AlwaysOwn<M>(u) <==> u.serialized && u.punctual
  {
    var start := Fresh<M>();
    if u.serialized && u.punctual {
      forall es: seq<Event<M>> | IsHistory(start, es) && Follows(u, es) ensures OwnTakes(start, es) {
        CarefulTakesAreOwn(start, es);
      }
    } else {
      var es: seq<Event<M>>;
      if u.serialized { es := RefusedYetReported(m); } else { es := OverlapMisreports(m); }
      ThenTakes(start, es, 1);
      assert Follows(u, es + [Took(1)]);
    }
  }

  // ----- the code -----

  const HEADER_TRACE_ID := "x-dizen-trace-id"

  datatype Publishing = Publishing(routingKey: string, headers: map<string, string>, payload: string)

  datatype Result = Nil | WriteFailed | ConnectionClosed | NotConfirmed | DeadlineExceeded

  /**
   What happens around one call: whether its message can be written, what the broker and
   other callers do while it waits, and whether its deadline comes first.
   */
  datatype Weather<M> = Weather(writes: bool, meanwhile: seq<Event<M>>, expires: bool)

  predicate Concerns<M>(e: Event<M>, tag: nat)
  {
    match e
    case Took(t) => t == tag
    case Expired(t) => t == tag
    case FoundClosed(t) => t == tag
    case _ => false
  }

  /** The others' events, those that are possible when their turn comes. */
  function Meanwhile<M>(ch: Chan<M>, es: seq<Event<M>>, tag: nat): Chan<M>
    decreases |es|
  {
    if es == [] then ch
    else Meanwhile(if Can(ch, es[0]) && !Concerns(es[0], tag) then Do(ch, es[0]) else ch, es[1..], tag)
  }

  /** Only the broker acts: no other call is made meanwhile. */
  predicate Alone<M>(es: seq<Event<M>>) { forall i :: 0 <= i < |es| ==> es[i].Answered? || es[i].Dropped? }

  lemma {:induction false} MeanwhileKeeps<M>(ch: Chan<M>, es: seq<Event<M>>, tag: nat)
    requires Valid(ch) && tag in ch.waiting
    ensures var t := Meanwhile(ch, es, tag);
            Valid(t) && tag in t.waiting && ch.sent <= t.sent
    decreases |es|
  {
    if es != [] {
      var next := if Can(ch, es[0]) && !Concerns(es[0], tag) then Do(ch, es[0]) else ch;
      MeanwhileKeeps(next, es[1..], tag);
    }
  }

  lemma {:induction false} AloneKeeps<M>(ch: Chan<M>, es: seq<Event<M>>, tag: nat)
    requires Alone(es)
    ensures var t := Meanwhile(ch, es, tag); t == ch.(verdicts := t.verdicts, open := t.open)
    decreases |es|
  {
    if es != [] {
      AloneKeeps(if Can(ch, es[0]) then Do(ch, es[0]) else ch, es[1..], tag);
    }
  }

  /** The channel as the wait of a call that wrote `m` finds it in the end. */
  function Awaited<M>(ch: Chan<M>, m: M, es: seq<Event<M>>): Chan<M>
  {
    if ch.open then Meanwhile(Do(ch, Wrote(m)), es, |ch.sent|) else ch
  }

  lemma AwaitedKeeps<M>(ch: Chan<M>, m: M, es: seq<Event<M>>)
    requires Valid(ch) && ch.open
    ensures var t := Awaited(ch, m, es); Valid(t) && |ch.sent| in t.waiting && ch.sent + [m] <= t.sent
  {
    DoValid(ch, Wrote(m));
    MeanwhileKeeps(Do(ch, Wrote(m)), es, |ch.sent|);
  }

  /** With nobody else publishing, the next confirmation is the one `exits` messages back. */
  lemma AloneLags<M>(ch: Chan<M>, m: M, es: seq<Event<M>>)
    requires Valid(ch) && ch.open && ch.waiting == {} && Alone(es)
    ensures Awaited(ch, m, es).read == |ch.sent| - ch.exits
  {
    AloneKeeps(Do(ch, Wrote(m)), es, |ch.sent|);
  }

  /** How a wait on `ch` can end, and what it leaves behind. */
  predicate Ended(ch: Chan<Publishing>, tag: nat, expires: bool, r: Result, after: Chan<Publishing>)
  {
    tag in ch.waiting &&
    match r
    case Nil => !expires && ch.Unread() && ch.verdicts[ch.read] && after == Do(ch, Took(tag))
    case NotConfirmed => !expires && ch.Unread() && !ch.verdicts[ch.read] && after == Do(ch, Took(tag))
    case ConnectionClosed => !expires && !ch.open && !ch.Unread() && after == Do(ch, FoundClosed(tag))
    case DeadlineExceeded => (expires || (ch.open && !ch.Unread())) && after == Do(ch, Expired(tag))
    case WriteFailed => false
  }

  /** The message `publishTo` sends. */
  function Stamped(routingKey: string, payload: string, headers: map<string, string>, traceID: string): Publishing
  {
    Publishing(routingKey, if traceID != "" then headers[HEADER_TRACE_ID := traceID] else headers, payload)
  }

  /** The caller's key, payload and headers go out as they are; the trace id, if there is one, with them. */
  lemma StampedKeeps(routingKey: string, payload: string, headers: map<string, string>, traceID: string)
    ensures var m := Stamped(routingKey, payload, headers, traceID);
            && m.routingKey == routingKey && m.payload == payload
            && (traceID == "" ==> m.headers == headers)
            && (traceID != "" ==> "x-dizen-trace-id" in m.headers && m.headers["x-dizen-trace-id"] == traceID)
            && (forall k :: k in headers && k != "x-dizen-trace-id" ==> k in m.headers && m.headers[k] == headers[k])
            && (forall k :: k in m.headers && k != "x-dizen-trace-id" ==> k in headers)
  {
  }

  class Publisher {
    var chan: Chan<Publishing>

    constructor ()
      ensures chan == Fresh<Publishing>()
    {
      chan := Fresh<Publishing>();
    }

    /**
     `publishTo`, whoever else is publishing. Each outcome says what was on the channel when
     the wait ended. Nil means a positive answer was read; with nobody else publishing it was
     the answer to the message sent `exits` publishes before this one.
     */
    method PublishTo(routingKey: string, payload: string, headers: map<string, string>, traceID: string,
                     weather: Weather<Publishing>)
      returns (r: Result)
      requires Valid(chan)
      modifies this
      ensures Valid(chan)
      ensures r == WriteFailed <==> !old(chan).open || !weather.writes
      ensures r == WriteFailed ==> chan == old(chan)
      ensures r != WriteFailed ==>
                var m := Stamped(routingKey, payload, headers, traceID);
                var ch := Awaited(old(chan), m, weather.meanwhile);
                old(chan).sent + [m] <= ch.sent && Ended(ch, |old(chan).sent|, weather.expires, r, chan)
      ensures r == Nil && old(chan).waiting == {} && Alone(weather.meanwhile) ==>
                var mine := |old(chan).sent| - old(chan).exits;
                0 <= mine < |chan.verdicts| && chan.read == mine + 1 && chan.verdicts[mine]
    {
      var table := headers;
      if traceID != "" {
        table := table[HEADER_TRACE_ID := traceID];
      }
      if !chan.open || !weather.writes {
        return WriteFailed;
      }
      ghost var m := Stamped(routingKey, payload, headers, traceID);
      AwaitedKeeps(chan, m, weather.meanwhile);
      if chan.waiting == {} && Alone(weather.meanwhile) {
        AloneLags(chan, m, weather.meanwhile);
      }
      var tag := |chan.sent|;
      chan := Do(chan, Wrote(Publishing(routingKey, table, payload)));
      chan := Meanwhile(chan, weather.meanwhile, tag);
      r := WaitForConfirm(tag, weather.expires);
    }

    method WaitForConfirm(tag: nat, expires: bool) returns (r: Result)
      requires Valid(chan) && tag in chan.waiting
      modifies this
      ensures Valid(chan) && tag !in chan.waiting
      ensures Ended(old(chan), tag, expires, r, chan)
    {
      if expires {
        chan := Do(chan, Expired(tag));
        return DeadlineExceeded;
      }
      if chan.Unread() {
        var ack := chan.verdicts[chan.read];
        chan := Do(chan, Took(tag));
        return if ack then Nil else NotConfirmed;
      }
      if !chan.open {
        chan := Do(chan, FoundClosed(tag));
        return ConnectionClosed;
      }
      // Nothing arrives: the deadline is what ends the wait.
      chan := Do(chan, Expired(tag));
      return DeadlineExceeded;
    }
  }
}
