/** The mail worker's RabbitMQ consumer: connecting with retries, declaring
    the dead-letter topology around the mail queue, routing a request to
    the code-mail or the custom-template path, and settling every delivered
    message. Connection attempts, broker refusals, request decoding and the
    two mail-service calls are parameters: their outcomes are given, the
    decisions taken on them are modelled. */
module Consumer {
  import opened Wrappers
  import opened Broker

  // The three built-in templates of `TemplateName`.
  const EmailVerification: string := "email_verification"
  const EmailChangeVerification: string := "email_change_verification"
  const ForgotPasswordVerification: string := "forgot_password_verification"

  const BuiltInTemplates: seq<string> := [EmailVerification, EmailChangeVerification, ForgotPasswordVerification]

  /** `_connect_with_retry`'s defaults, the values `connect` uses. */
  const MaxRetries: nat := 10
  const RetryDelay: nat := 5

  /** The fields of a mail request that the consumer itself looks at. */
  datatype MailRequest = MailRequest(templateName: string, recipient: string)

  /** The mail-service call a request is handed to. */
  datatype Handler = SendCodeMail | SendCustomTemplateMail

  /** `handle_request`'s choice: the three built-in templates carry a code,
      every other name is a custom template. */
  function Route(templateName: string): (h: Handler)
    ensures h == SendCodeMail <==> templateName in BuiltInTemplates
    ensures h == SendCustomTemplateMail <==> templateName !in BuiltInTemplates
  {
    if templateName == EmailVerification
       || templateName == EmailChangeVerification
       || templateName == ForgotPasswordVerification
    then SendCodeMail
    else SendCustomTemplateMail
  }

  /** Whether the handler a request is routed to returns normally, given
      how each of the two mail-service calls ends. */
  function HandleRequest(request: MailRequest, codeMailSucceeds: bool, customMailSucceeds: bool): (ok: bool)
    ensures request.templateName in BuiltInTemplates ==> (ok <==> codeMailSucceeds)
    ensures request.templateName !in BuiltInTemplates ==> (ok <==> customMailSucceeds)
  {
    match Route(request.templateName)
    case SendCodeMail => codeMailSucceeds
    case SendCustomTemplateMail => customMailSucceeds
  }

  /** How `callback` settles a message. */
  datatype Disposition = Acked | Rejected(requeue: bool)

  /** `callback`'s decision: acknowledge when the body decodes to a request
      and handling it returns normally; otherwise reject without requeue. */
  function Settle(decoded: Option<MailRequest>, codeMailSucceeds: bool, customMailSucceeds: bool): (d: Disposition)
    ensures d == Acked <==> decoded.Some? && HandleRequest(decoded.value, codeMailSucceeds, customMailSucceeds)
    ensures d != Acked ==> d == Rejected(false)
  {
    if decoded.Some? && HandleRequest(decoded.value, codeMailSucceeds, customMailSucceeds) then Acked
    else Rejected(false)
  }

  /** A request for a built-in template is settled by the code-mail call
      alone, any other by the custom-template call alone. */
  lemma SettleDependsOnRoutedCallOnly(request: MailRequest, code: bool, custom: bool, code2: bool, custom2: bool)
    ensures request.templateName in BuiltInTemplates ==>
              Settle(Some(request), code, custom) == Settle(Some(request), code, custom2)
    ensures request.templateName !in BuiltInTemplates ==>
              Settle(Some(request), code, custom) == Settle(Some(request), code2, custom)
  {
  }

  /** A body that does not decode is rejected whatever the mail service
      would do. */
  lemma UndecodableRejected(code: bool, custom: bool)
    ensures Settle(None, code, custom) == Rejected(false)
  {
  }

  /** The dead-letter exchange and queue of a mail queue. */
  function DlxName(q: string): (n: string)
    ensures |n| == |q| + 4 && n[..|q|] == q && n[|q|..] == "_dlx"
  {
    q + "_dlx"
  }

  function DlqName(q: string): (n: string)
    ensures |n| == |q| + 4 && n[..|q|] == q && n[|q|..] == "_dlq"
  {
    q + "_dlq"
  }

  /** The names are distinct from the mail queue and from each other, and
      different mail queues get different dead-letter names. */
  lemma DeadLetterNames(q: string, q2: string)
    ensures DlqName(q) != q && DlxName(q) != DlqName(q)
    ensures DlqName(q) == DlqName(q2) ==> q == q2
    ensures DlxName(q) == DlxName(q2) ==> q == q2
  {
    assert |DlqName(q)| != |q|;
    assert DlxName(q)[|q| + 3] == 'x' && DlqName(q)[|q| + 3] == 'q';
    if DlqName(q) == DlqName(q2) {
      assert q == DlqName(q)[..|q|] == DlqName(q2)[..|q2|] == q2;
    }
    if DlxName(q) == DlxName(q2) {
      assert q == DlxName(q)[..|q|] == DlxName(q2)[..|q2|] == q2;
    }
  }

  /** The arguments of the dead-letter queue and of a mail queue that
      `connect` creates. */
  const DlqArgs: QueueArgs := QueueArgs(true, None)

  function MainQueueArgs(q: string): QueueArgs
  {
    QueueArgs(true, Some(DlxName(q)))
  }

  /** How one call of `pika.BlockingConnection` ends. */
  datatype Attempt = Opened | AmqpConnectionError | OtherError

  /** How `_connect_with_retry` ends: with the connection of the given
      attempt, by raising, or by falling out of an empty loop. */
  datatype RetryResult = Connection(attempt: nat) | Raised(error: Attempt) | NoConnection

  /** The first of the first `n` attempts that does not fail with a
      connection error, or `n` when all of them do. */
  function FirstStop(answers: seq<Attempt>, n: nat): (k: nat)
    requires n <= |answers|
    ensures k <= n
    ensures forall j :: 0 <= j < k ==> answers[j] == AmqpConnectionError
    ensures k < n ==> answers[k] != AmqpConnectionError
    decreases n
  {
    if n == 0 then 0
    else if answers[0] != AmqpConnectionError then 0
    else 1 + FirstStop(answers[1..], n - 1)
  }

  /** `n` copies of `x`. */
  function Repeat<T>(x: T, n: nat): (s: seq<T>)
    ensures |s| == n && forall i :: 0 <= i < n ==> s[i] == x
  {
    if n == 0 then [] else Repeat(x, n - 1) + [x]
  }

  /** The retry loop connects exactly when some attempt within the limit
      opens a connection and every attempt before it failed with a
      connection error. */
  lemma {:induction false} FirstStopOpens(answers: seq<Attempt>, n: nat)
    requires n <= |answers|
    ensures (FirstStop(answers, n) < n && answers[FirstStop(answers, n)] == Opened)
        <==> exists k :: 0 <= k < n && answers[k] == Opened
                         && forall j :: 0 <= j < k ==> answers[j] == AmqpConnectionError
  {
    var s := FirstStop(answers, n);
    if exists k :: 0 <= k < n && answers[k] == Opened && forall j :: 0 <= j < k ==> answers[j] == AmqpConnectionError {
      var k :| 0 <= k < n && answers[k] == Opened && forall j :: 0 <= j < k ==> answers[j] == AmqpConnectionError;
      assert answers[k] != AmqpConnectionError;
    }
  }

  /** Broker refusals `connect` may meet, one per broker call. */
  datatype Faults = Faults(
    dlxDenied: bool,       // declaring the dead-letter exchange
    dlqDenied: bool,       // declaring the dead-letter queue
    bindDenied: bool,      // binding the dead-letter queue
    createDenied: bool,    // creating the mail queue
    qosDenied: bool,       // the first `basic_qos`
    qosRetryDenied: bool)  // the second `basic_qos`

  const NoFaults: Faults := Faults(false, false, false, false, false, false)

  /** The exception `connect` ends with. */
  datatype ConnectError =
    | CannotConnect(result: RetryResult)
    | MainQueueFailed(outcome: Outcome)
    | QosFailed(outcome: Outcome)

  /** The retry loop opens a connection within `MaxRetries` attempts. */
  predicate Connects(answers: seq<Attempt>)
    requires |answers| >= MaxRetries
  {
    FirstStop(answers, MaxRetries) < MaxRetries && answers[FirstStop(answers, MaxRetries)] == Opened
  }

  /** The broker accepts the dead-letter queue declaration: it is not denied
      and no queue of that name exists with other arguments. */
  predicate DlqAccepted(queues: map<string, Queue>, q: string, f: Faults)
  {
    !f.dlqDenied && !(DlqName(q) in queues && queues[DlqName(q)].args != DlqArgs)
  }

  /** The mail queue exists, or the broker lets `connect` create it. */
  predicate MainQueueAvailable(queues: map<string, Queue>, q: string, f: Faults)
  {
    q in queues || !f.createDenied
  }

  /** One of the two `basic_qos` calls is accepted. */
  predicate QosAccepted(f: Faults)
  {
    !f.qosDenied || !f.qosRetryDenied
  }

  class RabbitMQConsumer {
    const mailQueueName: string
    const server: Server
    var connected: bool
    var channel: Channel?

    /** The consumer before `connect`; reading its configuration from the
        environment is not modelled. */
    constructor (mailQueueName: string, server: Server)
      ensures this.mailQueueName == mailQueueName && this.server == server
      ensures !connected && channel == null
    {
      this.mailQueueName := mailQueueName;
      this.server := server;
      connected := false;
      channel := null;
    }

    /** `_connect_with_retry`: at most `maxRetries` attempts; the first one
        that opens is returned, a connection error is followed by a sleep
        unless it was the last attempt, when it is raised, and any other
        error is raised at once. With no attempts at all, nothing is
        returned. `sleeps` lists the delays slept, in order. */
    method ConnectWithRetry(maxRetries: int, retryDelay: int, answers: seq<Attempt>)
      returns (r: RetryResult, sleeps: seq<int>)
      requires maxRetries <= |answers|
      ensures maxRetries <= 0 ==> r == NoConnection && sleeps == []
      ensures maxRetries > 0 ==>
        var k := FirstStop(answers, maxRetries);
        if k < maxRetries then
          && r == (if answers[k] == Opened then Connection(k) else Raised(answers[k]))
          && sleeps == Repeat(retryDelay, k)
        else
          && r == Raised(AmqpConnectionError)
          && sleeps == Repeat(retryDelay, maxRetries - 1)
    {
      sleeps := [];
      var attempt := 0;
      while attempt < maxRetries
        invariant 0 <= attempt <= |answers|
        invariant maxRetries > 0 ==> attempt < maxRetries
        invariant maxRetries <= 0 ==> attempt == 0
        invariant forall j :: 0 <= j < attempt ==> answers[j] == AmqpConnectionError
        invariant sleeps == Repeat(retryDelay, attempt)
        decreases maxRetries - attempt
      {
        match answers[attempt]
        case Opened =>
          return Connection(attempt), sleeps;
        case OtherError =>
          return Raised(OtherError), sleeps;
        case AmqpConnectionError =>
          if attempt < maxRetries - 1 {
            sleeps := sleeps + [retryDelay];
          } else {
            return Raised(AmqpConnectionError), sleeps;
          }
        attempt := attempt + 1;
      }
      return NoConnection, sleeps;
    }

    /** Opens the connection for `connect`. */
    method OpenConnection(answers: seq<Attempt>) returns (r: Result<(), ConnectError>)
      requires |answers| >= MaxRetries
      modifies this
      ensures r.Success? <==> Connects(answers)
      ensures r.Success? ==> connected && channel != null && fresh(channel) && channel.isOpen && channel.prefetch == 0
      ensures r.Failure? ==> connected == old(connected) && channel == old(channel)
    {
      var attempt, sleeps := ConnectWithRetry(MaxRetries, RetryDelay, answers);
      if !attempt.Connection? {
        return Failure(CannotConnect(attempt));
      }
      connected := true;
      channel := new Channel();
      r := Success(());
    }

    /** The dead-letter exchange declaration; a failure is logged and
        tolerated. */
    method DeclareDlx(f: Faults)
      requires channel != null
      modifies server, channel
      ensures channel.isOpen == (old(channel.isOpen) && !f.dlxDenied) && channel.prefetch == old(channel.prefetch)
      ensures server.exchanges == if channel.isOpen then old(server.exchanges) + {DlxName(mailQueueName)}
                                  else old(server.exchanges)
      ensures server.queues == old(server.queues) && server.bindings == old(server.bindings)
      ensures server.unacked == old(server.unacked)
    {
      var o := server.ExchangeDeclare(channel, DlxName(mailQueueName), f.dlxDenied);
    }

    /** The dead-letter queue declaration and, when it succeeds, its binding
        to the dead-letter exchange under the mail queue's name; failures
        are logged and tolerated. */
    method DeclareDlqAndBind(f: Faults)
      requires channel != null
      modifies server, channel
      ensures var q := mailQueueName;
              channel.isOpen == (old(channel.isOpen) && DlqAccepted(old(server.queues), q, f)
                                 && !f.bindDenied && DlxName(q) in old(server.exchanges))
      ensures channel.prefetch == old(channel.prefetch)
      ensures var q := mailQueueName;
              server.queues == if old(channel.isOpen) && DlqAccepted(old(server.queues), q, f) && DlqName(q) !in old(server.queues)
                               then old(server.queues)[DlqName(q) := Queue(DlqArgs, [])]
                               else old(server.queues)
      ensures server.bindings == if channel.isOpen
                                 then old(server.bindings) + {Binding(DlxName(mailQueueName), DlqName(mailQueueName), mailQueueName)}
                                 else old(server.bindings)
      ensures server.exchanges == old(server.exchanges) && server.unacked == old(server.unacked)
    {
      var q := mailQueueName;
      var o := server.QueueDeclare(channel, DlqName(q), DlqArgs, f.dlqDenied);
      if o == Ok {
        o := server.QueueBind(channel, DlxName(q), DlqName(q), q, f.bindDenied);
      }
    }

    /** The passive check of the mail queue: an existing queue is left as it
        is; when the broker closes the channel, a new channel creates the
        queue durable with the dead-letter exchange; any other error, and a
        failed creation, is raised. */
    method DeclareMainQueue(f: Faults) returns (r: Result<(), ConnectError>)
      requires channel != null
      modifies this, server, channel
      ensures r.Success? <==> old(channel.isOpen) && MainQueueAvailable(old(server.queues), mailQueueName, f)
      ensures r.Success? ==> channel != null && channel.isOpen
      ensures channel == old(channel) || fresh(channel)
      ensures server.queues == if r.Success? && mailQueueName !in old(server.queues)
                               then old(server.queues)[mailQueueName := Queue(MainQueueArgs(mailQueueName), [])]
                               else old(server.queues)
      ensures server.exchanges == old(server.exchanges) && server.bindings == old(server.bindings)
      ensures server.unacked == old(server.unacked) && connected == old(connected)
    {
      var q := mailQueueName;
      var o := server.QueueDeclarePassive(channel, q);
      if o == ClosedByBroker {
        channel := new Channel();
        o := server.QueueDeclare(channel, q, MainQueueArgs(q), f.createDenied);
        if o != Ok {
          return Failure(MainQueueFailed(o));
        }
      } else if o != Ok {
        return Failure(MainQueueFailed(o));
      }
      r := Success(());
    }

    /** `basic_qos(prefetch_count=1)`; after a failure the channel is
        reopened when it is closed and the call is made once more, whose
        failure is raised. */
    method SetPrefetch(f: Faults) returns (r: Result<(), ConnectError>)
      requires channel != null && channel.isOpen
      modifies this, channel
      ensures r.Success? <==> QosAccepted(f)
      ensures r.Success? ==> channel != null && channel.isOpen && channel.prefetch == 1
      ensures connected == old(connected)
    {
      var o := server.BasicQos(channel, 1, f.qosDenied);
      if o != Ok {
        if !channel.isOpen {
          channel := new Channel();
        }
        o := server.BasicQos(channel, 1, f.qosRetryDenied);
        if o != Ok {
          return Failure(QosFailed(o));
        }
      }
      r := Success(());
    }

    /** `connect` as written. Every refusal in the dead-letter steps closes
        the channel, the passive check then meets a closed channel, and the
        error it raises is not the one that leads to creating the queue: so
        a refusal meant to be tolerated makes `connect` fail. */
    method ConnectAsWritten(answers: seq<Attempt>, f: Faults) returns (r: Result<(), ConnectError>)
      requires |answers| >= MaxRetries
      modifies this, server
      ensures var q := mailQueueName;
        r.Success? <==>
          && Connects(answers)
          && !f.dlxDenied && DlqAccepted(old(server.queues), q, f) && !f.bindDenied
          && MainQueueAvailable(old(server.queues), q, f)
          && QosAccepted(f)
      ensures r.Success? ==> connected && channel != null && channel.isOpen && channel.prefetch == 1
      ensures r.Success? ==> mailQueueName in server.queues
    {
      var q := mailQueueName;
      r := OpenConnection(answers);
      if r.Failure? {
        return;
      }
      DeclareDlx(f);
      DeclareDlqAndBind(f);
      DeadLetterNames(q, q);
      r := DeclareMainQueue(f);
      if r.Failure? {
        return;
      }
      r := SetPrefetch(f);
    }

    /** Replaces a closed channel by a new one. */
    method ReopenIfClosed()
      requires channel != null
      modifies this
      ensures channel != null && channel.isOpen
      ensures old(channel.isOpen) ==> channel == old(channel)
      ensures !old(channel.isOpen) ==> fresh(channel) && channel.prefetch == 0
      ensures connected == old(connected)
    {
      if !channel.isOpen {
        channel := new Channel();
      }
    }

    /** The dead-letter steps of `connect`, with the channel reopened after
        each tolerated failure. */
    method DeclareDeadLetters(f: Faults)
      requires channel != null && channel.isOpen
      modifies this, server, channel
      ensures channel != null && channel.isOpen && (channel == old(channel) || fresh(channel))
      ensures connected == old(connected)
      ensures var q := mailQueueName;
              server.exchanges == if f.dlxDenied then old(server.exchanges) else old(server.exchanges) + {DlxName(q)}
      ensures var q := mailQueueName;
              server.queues == if DlqAccepted(old(server.queues), q, f) && DlqName(q) !in old(server.queues)
                               then old(server.queues)[DlqName(q) := Queue(DlqArgs, [])]
                               else old(server.queues)
      ensures var q := mailQueueName;
              server.bindings == if DlqAccepted(old(server.queues), q, f) && !f.bindDenied && DlxName(q) in server.exchanges
                                 then old(server.bindings) + {Binding(DlxName(q), DlqName(q), q)}
                                 else old(server.bindings)
      ensures server.unacked == old(server.unacked)
    {
      DeclareDlx(f);
      ReopenIfClosed();
      DeclareDlqAndBind(f);
      ReopenIfClosed();
    }

    /** `connect` with the channel reopened after each tolerated failure:
        the dead-letter steps can fail without taking `connect` down, an
        existing mail queue keeps its arguments, and an absent one is
        created with the dead-letter exchange. */
    method Connect(answers: seq<Attempt>, f: Faults) returns (r: Result<(), ConnectError>)
      requires |answers| >= MaxRetries
      modifies this, server
      ensures var q := mailQueueName;
        r.Success? <==> Connects(answers) && MainQueueAvailable(old(server.queues), q, f) && QosAccepted(f)
      ensures r.Success? ==> connected && channel != null && channel.isOpen && channel.prefetch == 1
      ensures r.Success? ==> mailQueueName in server.queues
      ensures r.Success? && mailQueueName !in old(server.queues) ==>
                server.queues[mailQueueName] == Queue(MainQueueArgs(mailQueueName), [])
      ensures forall name :: name in old(server.queues) ==> name in server.queues && server.queues[name] == old(server.queues)[name]
      ensures forall name :: name in server.queues && name !in old(server.queues) ==>
                name == mailQueueName || name == DlqName(mailQueueName)
      ensures old(server.exchanges) <= server.exchanges <= old(server.exchanges) + {DlxName(mailQueueName)}
      ensures old(server.bindings) <= server.bindings
              <= old(server.bindings) + {Binding(DlxName(mailQueueName), DlqName(mailQueueName), mailQueueName)}
      ensures Connects(answers) && !f.dlxDenied ==> DlxName(mailQueueName) in server.exchanges
      ensures Connects(answers) && DlqAccepted(old(server.queues), mailQueueName, f) ==>
                DlqName(mailQueueName) in server.queues
      ensures DlqName(mailQueueName) in server.queues && DlqName(mailQueueName) !in old(server.queues) ==>
                server.queues[DlqName(mailQueueName)] == Queue(DlqArgs, [])
      ensures Connects(answers) && !f.dlxDenied && DlqAccepted(old(server.queues), mailQueueName, f) && !f.bindDenied ==>
                Binding(DlxName(mailQueueName), DlqName(mailQueueName), mailQueueName) in server.bindings
      ensures server.unacked == old(server.unacked)
    {
      var q := mailQueueName;
      DeadLetterNames(q, q);
      r := OpenConnection(answers);
      if r.Failure? {
        return;
      }
      DeclareDeadLetters(f);
      r := DeclareMainQueue(f);
      if r.Failure? {
        return;
      }
      r := SetPrefetch(f);
    }

    /** `callback`: decode the body, handle the request, and acknowledge;
        on any error reject without requeue, which dead-letters the
        message. */
    method Callback(ch: Channel, tag: nat, decoded: Option<MailRequest>, codeMailSucceeds: bool, customMailSucceeds: bool)
      returns (d: Disposition)
      requires ch.isOpen && tag in server.unacked
      modifies server
      ensures d == Settle(decoded, codeMailSucceeds, customMailSucceeds)
      ensures server.unacked == old(server.unacked) - {tag}
      ensures d == Acked ==> server.queues == old(server.queues)
      ensures d != Acked ==> server.queues == DeadLetter(old(server.queues), server.exchanges, server.bindings, old(server.unacked)[tag])
      ensures server.exchanges == old(server.exchanges) && server.bindings == old(server.bindings)
    {
      if decoded.Some? && HandleRequest(decoded.value, codeMailSucceeds, customMailSucceeds) {
        server.BasicAck(ch, tag);
        d := Acked;
      } else {
        server.BasicReject(ch, tag, false);
        d := Rejected(false);
      }
    }
  }
}
