/** The AMQP 0-9-1 broker as the consumer sees it through one connection:
    exchanges, queues with their declaration arguments and ready messages,
    bindings, and the deliveries awaiting acknowledgement. A channel
    operation the broker refuses closes the channel (the broker's
    channel-level error), and any operation on a closed channel fails
    without reaching the broker. Refusals the model does not track (an
    existing exchange of another type, a missing permission) are a `denied`
    parameter. */
module Broker {
  import opened Wrappers

  /** The arguments a queue is declared with: `durable` and the
      `x-dead-letter-exchange` argument. */
  datatype QueueArgs = QueueArgs(durable: bool, deadLetterExchange: Option<string>)

  /** A message and the routing key it was published with. */
  datatype Message = Message(routingKey: string, body: string)

  datatype Queue = Queue(args: QueueArgs, ready: seq<Message>)

  /** A binding of a queue to an exchange for one routing key. */
  datatype Binding = Binding(exchange: string, queue: string, routingKey: string)

  /** A message handed to the consumer from `queue` and not yet settled. */
  datatype Delivery = Delivery(queue: string, msg: Message)

  /** How a channel operation ends, in pika's terms. */
  datatype Outcome =
    | Ok
    | ClosedByBroker  // `ChannelClosedByBroker`: the broker refused and closed the channel
    | WrongState      // `ChannelWrongStateError`: the channel was already closed

  /** The outcome of an operation on a channel that is open or not, and that
      the broker refuses or not. */
  function Answer(open: bool, refused: bool): (o: Outcome)
    ensures o == Ok <==> open && !refused
    ensures o == WrongState <==> !open
  {
    if !open then WrongState else if refused then ClosedByBroker else Ok
  }

  /** The queues that a message rejected without requeue from `d.queue` is
      routed to: those bound, with the message's routing key, to the
      exchange named by the queue's `x-dead-letter-exchange` argument. */
  predicate DeadLetterTarget(queues: map<string, Queue>, exchanges: set<string>, bindings: set<Binding>,
                             d: Delivery, target: string)
  {
    && d.queue in queues
    && queues[d.queue].args.deadLetterExchange.Some?
    && queues[d.queue].args.deadLetterExchange.value in exchanges
    && Binding(queues[d.queue].args.deadLetterExchange.value, target, d.msg.routingKey) in bindings
  }

  /** Every queue after dead-lettering `d`: each target gets the message at
      its tail, every other queue is as it was. */
  function DeadLetter(queues: map<string, Queue>, exchanges: set<string>, bindings: set<Binding>, d: Delivery)
    : (r: map<string, Queue>)
    ensures r.Keys == queues.Keys
    ensures forall name :: name in queues ==> r[name].args == queues[name].args
  {
    map name | name in queues ::
      if DeadLetterTarget(queues, exchanges, bindings, d, name)
      then queues[name].(ready := queues[name].ready + [d.msg])
      else queues[name]
  }

  /** A queue declared without the dead-letter argument drops what is
      rejected from it. */
  lemma DeadLetterWithoutExchange(queues: map<string, Queue>, exchanges: set<string>, bindings: set<Binding>,
                                  d: Delivery)
    requires d.queue in queues && queues[d.queue].args.deadLetterExchange.None?
    ensures DeadLetter(queues, exchanges, bindings, d) == queues
  {
  }

  /** A rejected message reaches a queue exactly when that queue is bound to
      the dead-letter exchange with the message's routing key, and then it
      is the last message there. */
  lemma DeadLetterReaches(queues: map<string, Queue>, exchanges: set<string>, bindings: set<Binding>,
                          d: Delivery, target: string)
    requires target in queues
    ensures var r := DeadLetter(queues, exchanges, bindings, d);
            |r[target].ready| == |queues[target].ready| + (if DeadLetterTarget(queues, exchanges, bindings, d, target) then 1 else 0)
    ensures var r := DeadLetter(queues, exchanges, bindings, d);
            DeadLetterTarget(queues, exchanges, bindings, d, target) <==> r[target].ready == queues[target].ready + [d.msg]
  {
    var r := DeadLetter(queues, exchanges, bindings, d);
    if !DeadLetterTarget(queues, exchanges, bindings, d, target) {
      assert |r[target].ready| != |queues[target].ready + [d.msg]|;
    }
  }

  class Channel {
    var isOpen: bool
    /** The `prefetch_count` last set by `basic_qos`; 0 means no limit. */
    var prefetch: nat

    /** `connection.channel()`: a fresh open channel. */
    constructor ()
      ensures isOpen && prefetch == 0
    {
      isOpen := true;
      prefetch := 0;
    }
  }

  class Server {
    var exchanges: set<string>
    var queues: map<string, Queue>
    var bindings: set<Binding>
    /** Deliveries awaiting acknowledgement, by delivery tag. */
    var unacked: map<nat, Delivery>

    /** A broker with nothing declared. */
    constructor ()
      ensures exchanges == {} && queues == map[] && bindings == {} && unacked == map[]
    {
      exchanges := {};
      queues := map[];
      bindings := {};
      unacked := map[];
    }

    /** `exchange_declare(exchange=name, exchange_type='direct', durable=True)`;
        declaring an existing exchange again is accepted. */
    method ExchangeDeclare(ch: Channel, name: string, denied: bool) returns (o: Outcome)
      modifies this, ch
      ensures o == Answer(old(ch.isOpen), denied)
      ensures ch.isOpen == (o == Ok) && ch.prefetch == old(ch.prefetch)
      ensures exchanges == if o == Ok then old(exchanges) + {name} else old(exchanges)
      ensures queues == old(queues) && bindings == old(bindings) && unacked == old(unacked)
    {
      o := Answer(ch.isOpen, denied);
      if o == Ok {
        exchanges := exchanges + {name};
      } else {
        ch.isOpen := false;
      }
    }

    /** `queue_declare(queue=name, durable=..., arguments=...)`: creates an
        absent queue, accepts an existing one declared with the same
        arguments and refuses one declared with others (the broker's
        PRECONDITION_FAILED). */
    method QueueDeclare(ch: Channel, name: string, args: QueueArgs, denied: bool) returns (o: Outcome)
      modifies this, ch
      ensures o == Answer(old(ch.isOpen), denied || (name in old(queues) && old(queues)[name].args != args))
      ensures ch.isOpen == (o == Ok) && ch.prefetch == old(ch.prefetch)
      ensures queues == if o == Ok && name !in old(queues) then old(queues)[name := Queue(args, [])] else old(queues)
      ensures exchanges == old(exchanges) && bindings == old(bindings) && unacked == old(unacked)
    {
      o := Answer(ch.isOpen, denied || (name in queues && queues[name].args != args));
      if o == Ok {
        if name !in queues {
          queues := queues[name := Queue(args, [])];
        }
      } else {
        ch.isOpen := false;
      }
    }

    /** `queue_declare(queue=name, passive=True)`: succeeds when the queue
        exists, whatever its arguments; otherwise the broker answers
        NOT_FOUND and closes the channel. */
    method QueueDeclarePassive(ch: Channel, name: string) returns (o: Outcome)
      modifies ch
      ensures o == Answer(old(ch.isOpen), name !in queues)
      ensures ch.isOpen == (o == Ok) && ch.prefetch == old(ch.prefetch)
    {
      o := Answer(ch.isOpen, name !in queues);
      if o != Ok {
        ch.isOpen := false;
      }
    }

    /** `queue_bind(exchange=..., queue=..., routing_key=...)`: both ends
        must exist. */
    method QueueBind(ch: Channel, exchange: string, queue: string, routingKey: string, denied: bool)
      returns (o: Outcome)
      modifies this, ch
      ensures o == Answer(old(ch.isOpen), denied || exchange !in old(exchanges) || queue !in old(queues))
      ensures ch.isOpen == (o == Ok) && ch.prefetch == old(ch.prefetch)
      ensures bindings == if o == Ok then old(bindings) + {Binding(exchange, queue, routingKey)} else old(bindings)
      ensures exchanges == old(exchanges) && queues == old(queues) && unacked == old(unacked)
    {
      o := Answer(ch.isOpen, denied || exchange !in exchanges || queue !in queues);
      if o == Ok {
        bindings := bindings + {Binding(exchange, queue, routingKey)};
      } else {
        ch.isOpen := false;
      }
    }

    /** `basic_qos(prefetch_count=n)`. */
    method BasicQos(ch: Channel, prefetchCount: nat, denied: bool) returns (o: Outcome)
      modifies ch
      ensures o == Answer(old(ch.isOpen), denied)
      ensures ch.isOpen == (o == Ok)
      ensures ch.prefetch == if o == Ok then prefetchCount else old(ch.prefetch)
    {
      o := Answer(ch.isOpen, denied);
      if o == Ok {
        ch.prefetch := prefetchCount;
      } else {
        ch.isOpen := false;
      }
    }

    /** A publisher's `basic_publish(exchange='', routing_key=key, body=...)`:
        the default exchange routes to the queue named by the key, and drops
        the message when there is none. */
    method Publish(routingKey: string, body: string)
      modifies this
      ensures queues == if routingKey in old(queues)
                        then old(queues)[routingKey := old(queues)[routingKey].(ready := old(queues)[routingKey].ready + [Message(routingKey, body)])]
                        else old(queues)
      ensures exchanges == old(exchanges) && bindings == old(bindings) && unacked == old(unacked)
    {
      if routingKey in queues {
        queues := queues[routingKey := queues[routingKey].(ready := queues[routingKey].ready + [Message(routingKey, body)])];
      }
    }

    /** The broker hands the head of `queue` to the consumer under `tag`. */
    method Deliver(queue: string, tag: nat)
      requires queue in queues && |queues[queue].ready| > 0 && tag !in unacked
      modifies this
      ensures queues == old(queues)[queue := old(queues)[queue].(ready := old(queues)[queue].ready[1..])]
      ensures unacked == old(unacked)[tag := Delivery(queue, old(queues)[queue].ready[0])]
      ensures exchanges == old(exchanges) && bindings == old(bindings)
    {
      var m := queues[queue].ready[0];
      queues := queues[queue := queues[queue].(ready := queues[queue].ready[1..])];
      unacked := unacked[tag := Delivery(queue, m)];
    }

    /** `basic_ack(delivery_tag=tag)`: the message is settled and gone. */
    method BasicAck(ch: Channel, tag: nat)
      requires ch.isOpen && tag in unacked
      modifies this
      ensures unacked == old(unacked) - {tag}
      ensures queues == old(queues) && exchanges == old(exchanges) && bindings == old(bindings)
    {
      unacked := unacked - {tag};
    }

    /** `basic_reject(delivery_tag=tag, requeue=...)`: with requeue the
        message goes back to the head of its queue, without it the message is
        dead-lettered. */
    method BasicReject(ch: Channel, tag: nat, requeue: bool)
      requires ch.isOpen && tag in unacked
      modifies this
      ensures unacked == old(unacked) - {tag}
      ensures !requeue ==> queues == DeadLetter(old(queues), exchanges, bindings, old(unacked)[tag])
      ensures requeue ==>
        var d := old(unacked)[tag];
        queues == if d.queue in old(queues)
                  then old(queues)[d.queue := old(queues)[d.queue].(ready := [d.msg] + old(queues)[d.queue].ready)]
                  else old(queues)
      ensures exchanges == old(exchanges) && bindings == old(bindings)
    {
      var d := unacked[tag];
      unacked := unacked - {tag};
      if requeue {
        if d.queue in queues {
          queues := queues[d.queue := queues[d.queue].(ready := [d.msg] + queues[d.queue].ready)];
        }
      } else {
        queues := DeadLetter(queues, exchanges, bindings, d);
      }
    }
  }
}
