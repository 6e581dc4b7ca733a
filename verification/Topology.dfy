/** `declareTopology` and `declareRetryQueue`: which queues exist and where they dead-letter to. */
module Topology {
  import opened Prelude

  const DLQ_SUFFIX := ".dlq"
  const RETRY_SUFFIX := ".retry"

  function DLQName(queue: string): string { queue + DLQ_SUFFIX }
  function RetryQueueName(queue: string): string { queue + RETRY_SUFFIX }

  datatype QueueSpec = QueueSpec(name: string, routingKeys: seq<string>, durable: bool)

  /** A queue's arguments; a dead-letter target is an exchange and a routing key. */
  datatype Queue = Queue(durable: bool, deadLetter: Option<(string, string)>)

  datatype Binding = Binding(queue: string, key: string, exchange: string)

  datatype Declared = Declared(exchanges: set<string>, queues: map<string, Queue>, bindings: set<Binding>)

  /** Where the broker moves a rejected or expired message; the default exchange routes by queue name. */
  function DeadLetterTo(d: Declared, queue: string): Option<string>
  {
    if queue in d.queues && d.queues[queue].deadLetter.Some?
       && d.queues[queue].deadLetter.value.0 == "" && d.queues[queue].deadLetter.value.1 in d.queues
    then Some(d.queues[queue].deadLetter.value.1)
    else None
  }

  predicate Compatible(d: Declared, spec: QueueSpec)
  {
    var q := spec.name;
    && (DLQName(q) in d.queues ==> d.queues[DLQName(q)] == Queue(true, None))
    && (q in d.queues ==> d.queues[q] == Queue(spec.durable, Some(("", DLQName(q)))))
    && (RetryQueueName(q) in d.queues ==> d.queues[RetryQueueName(q)] == Queue(true, Some(("", q))))
  }

  function Bindings(spec: QueueSpec, exchange: string, n: nat): set<Binding>
    requires n <= |spec.routingKeys|
  {
    set i | 0 <= i < n :: Binding(spec.name, spec.routingKeys[i], exchange)
  }

  /** Everything a consumer of `spec` needs is there, with the arguments it would declare. */
  predicate Ready(d: Declared, exchange: string, spec: QueueSpec)
  {
    && exchange in d.exchanges
    && (spec.name != "" ==>
          && Compatible(d, spec)
          && {spec.name, DLQName(spec.name), RetryQueueName(spec.name)} <= d.queues.Keys
          && Bindings(spec, exchange, |spec.routingKeys|) <= d.bindings)
  }

  lemma NamesDiffer(queue: string)
    ensures DLQName(queue) != queue && RetryQueueName(queue) != queue && DLQName(queue) != RetryQueueName(queue)
  {
  }

  class Channel {
    var d: Declared

    constructor (d: Declared)
      ensures this.d == d
    {
      this.d := d;
    }

    /** Re-declaring with the same arguments is a no-op; with others it is refused. */
    method QueueDeclare(name: string, q: Queue) returns (ok: bool)
      modifies this
      ensures ok <==> (name in old(d).queues ==> old(d).queues[name] == q)
      ensures d == if ok then old(d).(queues := old(d).queues[name := q]) else old(d)
    {
      if name in d.queues {
        ok := d.queues[name] == q;
        assert ok ==> d.queues[name := q] == d.queues;
      } else {
        d := d.(queues := d.queues[name := q]);
        ok := true;
      }
    }

    /**
     `declareTopology` followed by `declareRetryQueue`. Nothing already declared is lost; on
     success what a consumer rejects goes to its DLQ, what expires in its retry queue goes
     back to it, and the DLQ keeps what it gets. A second declaration, by a restart or another
     replica, finds everything ready: it succeeds and changes nothing.
     */
    method Declare(exchange: string, spec: QueueSpec) returns (ok: bool)
      modifies this
      ensures ok <==> spec.name == "" || Compatible(old(d), spec)
      ensures exchange in d.exchanges && old(d).exchanges <= d.exchanges && old(d).bindings <= d.bindings
      ensures forall q :: q in old(d).queues ==> q in d.queues && d.queues[q] == old(d).queues[q]
      ensures spec.name == "" ==> d == old(d).(exchanges := old(d).exchanges + {exchange})
      ensures ok && spec.name != "" ==>
                && d.queues.Keys == old(d).queues.Keys + {spec.name, DLQName(spec.name), RetryQueueName(spec.name)}
                && DeadLetterTo(d, spec.name) == Some(DLQName(spec.name))
                && DeadLetterTo(d, RetryQueueName(spec.name)) == Some(spec.name)
                && DeadLetterTo(d, DLQName(spec.name)) == None
                && d.bindings == old(d).bindings + Bindings(spec, exchange, |spec.routingKeys|)
      ensures ok ==> Ready(d, exchange, spec)
      ensures Ready(old(d), exchange, spec) ==> ok && d == old(d)
    {
      NamesDiffer(spec.name);
      d := d.(exchanges := d.exchanges + {exchange});
      if spec.name == "" {
        return true;
      }
      ok := QueueDeclare(DLQName(spec.name), Queue(true, None));
      if !ok { return; }
      ok := QueueDeclare(spec.name, Queue(spec.durable, Some(("", DLQName(spec.name)))));
      if !ok { return; }
      ghost var before := d;
      for i := 0 to |spec.routingKeys|
        invariant d == before.(bindings := before.bindings + Bindings(spec, exchange, i))
      {
        d := d.(bindings := d.bindings + {Binding(spec.name, spec.routingKeys[i], exchange)});
        assert Bindings(spec, exchange, i + 1) == Bindings(spec, exchange, i) + {Binding(spec.name, spec.routingKeys[i], exchange)};
      }
      ok := QueueDeclare(RetryQueueName(spec.name), Queue(true, Some(("", spec.name))));
    }
  }
}
