/** The consumer's message tests and the dead-letter refusal case, run
    against a fresh broker. */
module ConsumerScenarios {
  import opened Wrappers
  import opened Broker
  import opened Consumer

  /** The queues `connect` declares on a fresh broker. */
  function Declared(q: string): map<string, Queue>
  {
    map[q := Queue(MainQueueArgs(q), []), DlqName(q) := Queue(DlqArgs, [])]
  }

  /** A fresh broker and a consumer connected to it without refusals. */
  method ConnectFresh(q: string, answers: seq<Attempt>) returns (server: Server, consumer: RabbitMQConsumer)
    requires |answers| >= MaxRetries && answers[0] == Opened
    ensures fresh(server) && fresh(consumer) && consumer.server == server && consumer.mailQueueName == q
    ensures consumer.channel != null && consumer.channel.isOpen
    ensures server.queues == Declared(q)
    ensures server.exchanges == {DlxName(q)} && server.bindings == {Binding(DlxName(q), DlqName(q), q)}
    ensures server.unacked == map[]
  {
    server := new Server();
    consumer := new RabbitMQConsumer(q, server);
    var r := consumer.Connect(answers, NoFaults);
    assert Connects(answers) by {
      assert FirstStop(answers, MaxRetries) == 0;
    }
    DeadLetterNames(q, q);
    assert server.queues.Keys == Declared(q).Keys;
  }

  /** test_consume_invalid_request_dlq: on a fresh broker the consumer
      creates the mail queue with its dead-letter exchange; a body that is
      not a request is rejected, leaving the mail queue empty and the
      message as the only one on `<q>_dlq`. */
  method InvalidMessageScenario(q: string, body: string, answers: seq<Attempt>)
    returns (mainReady: seq<Message>, dlqReady: seq<Message>)
    requires |answers| >= MaxRetries && answers[0] == Opened
    ensures mainReady == [] && dlqReady == [Message(q, body)]
  {
    var server, consumer := ConnectFresh(q, answers);
    var before := Declared(q);
    DeadLetterNames(q, q);
    server.Publish(q, body);
    server.Deliver(q, 1);
    var d := consumer.Callback(consumer.channel, 1, None, true, true);
    // After the delivery the queues are as declared again.
    assert DeadLetterTarget(before, server.exchanges, server.bindings, Delivery(q, Message(q, body)), DlqName(q));
    assert !DeadLetterTarget(before, server.exchanges, server.bindings, Delivery(q, Message(q, body)), q);
    mainReady := server.queues[q].ready;
    dlqReady := server.queues[DlqName(q)].ready;
  }

  /** test_consume_all_templates: one request for each built-in template
      leaves the mail queue empty. When the code-mail call returns normally
      every request is acknowledged and the dead-letter queue stays empty;
      when it raises, every request is rejected and ends, in order, on the
      dead-letter queue. */
  method AllTemplatesScenario(q: string, bodies: seq<string>, recipients: seq<string>, answers: seq<Attempt>,
                              codeMailSent: bool)
    returns (mainReady: seq<Message>, dlqReady: seq<Message>, settled: seq<Disposition>)
    requires |answers| >= MaxRetries && answers[0] == Opened
    requires |bodies| == 3 && |recipients| == 3
    ensures mainReady == []
    ensures dlqReady == if codeMailSent then [] else Messages(q, bodies)
    ensures settled == Repeat(if codeMailSent then Acked else Rejected(false), 3)
  {
    var server, consumer := ConnectFresh(q, answers);
    DeadLetterNames(q, q);
    PublishAll(server, q, bodies);
    assert bodies[0..] == bodies && bodies[..0] == [];
    settled := [];
    var i := 0;
    while i < 3
      invariant 0 <= i <= 3
      invariant consumer.channel != null && consumer.channel.isOpen && consumer.server == server
      invariant server.unacked == map[] && AsDeclared(server, q)
      invariant server.queues[q].ready == Messages(q, bodies[i..])
      invariant server.queues[DlqName(q)].ready == if codeMailSent then [] else Messages(q, bodies[..i])
      invariant settled == Repeat(if codeMailSent then Acked else Rejected(false), i)
      modifies server
    {
      assert BuiltInTemplates[i] in BuiltInTemplates;
      MessagesStep(q, bodies, i);
      var d := DeliverBuiltIn(consumer, q, i + 1, MailRequest(BuiltInTemplates[i], recipients[i]), codeMailSent);
      settled := settled + [d];
      i := i + 1;
    }
    assert bodies[..3] == bodies;
    mainReady := server.queues[q].ready;
    dlqReady := server.queues[DlqName(q)].ready;
  }

  /** The broker as `connect` leaves a fresh one, whatever the queues hold. */
  predicate AsDeclared(server: Server, q: string)
    reads server
  {
    && server.queues.Keys == {q, DlqName(q)}
    && server.queues[q].args == MainQueueArgs(q) && server.queues[DlqName(q)].args == DlqArgs
    && server.exchanges == {DlxName(q)} && server.bindings == {Binding(DlxName(q), DlqName(q), q)}
  }

  /** The broker delivers the head of the mail queue, and the consumer
      handles it as a built-in template request. The request is acknowledged
      when the code-mail call returns normally; otherwise it is rejected and
      dead-lettered to the tail of `<q>_dlq`. */
  method DeliverBuiltIn(consumer: RabbitMQConsumer, q: string, tag: nat, request: MailRequest, codeMailSent: bool)
    returns (d: Disposition)
    requires consumer.channel != null && consumer.channel.isOpen
    requires request.templateName in BuiltInTemplates
    requires AsDeclared(consumer.server, q) && |consumer.server.queues[q].ready| > 0 && tag !in consumer.server.unacked
    requires consumer.server.queues[q].ready[0].routingKey == q
    modifies consumer.server
    ensures d == if codeMailSent then Acked else Rejected(false)
    ensures consumer.channel.isOpen && AsDeclared(consumer.server, q)
    ensures consumer.server.unacked == old(consumer.server.unacked)
    ensures consumer.server.queues[q].ready == old(consumer.server.queues[q].ready)[1..]
    ensures consumer.server.queues[DlqName(q)].ready
         == old(consumer.server.queues[DlqName(q)].ready) + if codeMailSent then [] else [old(consumer.server.queues[q].ready)[0]]
  {
    DeadLetterNames(q, q);
    ghost var m := consumer.server.queues[q].ready[0];
    consumer.server.Deliver(q, tag);
    ghost var delivered := consumer.server.queues;
    d := consumer.Callback(consumer.channel, tag, Some(request), codeMailSent, false);
    if !codeMailSent {
      assert DeadLetterTarget(delivered, consumer.server.exchanges, consumer.server.bindings, Delivery(q, m), DlqName(q));
      assert !DeadLetterTarget(delivered, consumer.server.exchanges, consumer.server.bindings, Delivery(q, m), q);
    }
  }

  /** Delivering the head of `bodies[i..]` moves `bodies[i]` from the
      messages still ready to the messages handled. */
  lemma MessagesStep(q: string, bodies: seq<string>, i: nat)
    requires i < |bodies|
    ensures Messages(q, bodies[i..])[0] == Message(q, bodies[i])
    ensures Messages(q, bodies[i..])[1..] == Messages(q, bodies[i + 1..])
    ensures Messages(q, bodies[..i + 1]) == Messages(q, bodies[..i]) + [Message(q, bodies[i])]
  {
    assert bodies[i..][1..] == bodies[i + 1..];
    assert bodies[..i + 1] == bodies[..i] + [bodies[i]];
  }

  /** A publisher sends each body to the mail queue, in order. */
  method PublishAll(server: Server, q: string, bodies: seq<string>)
    requires q in server.queues && server.queues[q].ready == []
    modifies server
    ensures server.queues == old(server.queues)[q := old(server.queues)[q].(ready := Messages(q, bodies))]
    ensures server.exchanges == old(server.exchanges) && server.bindings == old(server.bindings)
    ensures server.unacked == old(server.unacked)
  {
    ghost var start := server.queues;
    ghost var args := start[q].args;
    assert start[q] == Queue(args, []);
    var i := 0;
    while i < |bodies|
      invariant 0 <= i <= |bodies|
      invariant server.queues == start[q := Queue(args, Messages(q, bodies[..i]))]
      invariant server.exchanges == old(server.exchanges) && server.bindings == old(server.bindings)
      invariant server.unacked == old(server.unacked)
    {
      ghost var ms := Messages(q, bodies[..i]);
      server.Publish(q, bodies[i]);
      assert Messages(q, bodies[..i + 1]) == ms + [Message(q, bodies[i])];
      assert server.queues == start[q := Queue(args, ms)][q := Queue(args, ms + [Message(q, bodies[i])])];
      i := i + 1;
    }
    assert bodies[..i] == bodies;
  }

  /** The messages a publisher's bodies become on queue `q`. */
  function Messages(q: string, bodies: seq<string>): (ms: seq<Message>)
    ensures |ms| == |bodies| && forall i :: 0 <= i < |bodies| ==> ms[i] == Message(q, bodies[i])
  {
    if bodies == [] then [] else [Message(q, bodies[0])] + Messages(q, bodies[1..])
  }

  /** `connect` as written on a fresh broker that refuses the dead-letter
      exchange: the refusal closes the channel, the passive check meets the
      closed channel, and `connect` raises. */
  method DlxRefusedAsWritten(q: string, answers: seq<Attempt>) returns (r: Result<(), ConnectError>)
    requires |answers| >= MaxRetries && answers[0] == Opened
    ensures r.Failure?
  {
    var server := new Server();
    var consumer := new RabbitMQConsumer(q, server);
    r := consumer.ConnectAsWritten(answers, NoFaults.(dlxDenied := true));
  }

  /** The same broker with the channel reopened after the tolerated
      refusal: `connect` succeeds and the mail queue is created. */
  method DlxRefusedReopening(q: string, answers: seq<Attempt>) returns (r: Result<(), ConnectError>, created: bool)
    requires |answers| >= MaxRetries && answers[0] == Opened
    ensures r.Success? && created
  {
    var server := new Server();
    var consumer := new RabbitMQConsumer(q, server);
    r := consumer.Connect(answers, NoFaults.(dlxDenied := true));
    assert Connects(answers) by {
      assert FirstStop(answers, MaxRetries) == 0;
    }
    created := q in server.queues;
  }
}
