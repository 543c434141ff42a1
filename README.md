# mail-service core in Dafny

A model of the two decision-making parts of the `mail-service` worker.
The worker consumes mail requests from a RabbitMQ queue and sends
templated HTML mail.

**Template engine** (`src/mail_service.py`):
- `_process_variable_references` resolves `{key}` references between
  variables. It works in a bounded fixed-point loop over an
  insertion-ordered dictionary, and writes each value back as soon as it is
  rewritten.
- `_render_template` merges the branding fields under the request
  variables, resolves the result and replaces every `{{key}}` token of the
  template.
- `_load_template` picks the template directory and reads
  `<dir>/<name>.html`.
- `send_email_html` refuses a missing or empty template.

**Consumer** (`src/rmq_consumer.py`):
- `_connect_with_retry` is a bounded retry loop.
- `connect` declares the dead-letter exchange `<q>_dlx`, the dead-letter
  queue `<q>_dlq`, their binding, the mail queue and the prefetch count, over
  an abstract broker.
- `handle_request` routes a request to the code-mail or the custom-template
  call.
- `callback` acknowledges a message, or rejects it without requeue.

Python's ordered dictionaries are association lists (`Variables.Vars`):
- `d[k] = v` is `Variables.Assign`;
- `{**a, **b}` is `Renderer.Merge`;
- `str.replace` is `Text.Replace`, which scans left to right, replaces
  every occurrence and never overlaps them.

The loops of the source are methods proved against specification
functions:
- `ProcessVariableReferences`, `ProcessPass` and `SubstituteReferences`
  are proved against `Resolve`, `Pass` and `Substitute`;
- `RenderTemplate` is proved against `Render`.

The properties are proved about those functions. `Pieces` reads a text as
literal pieces and references. It gives the general theorems that turn
rendering and substitution into filling references with values.

The broker (`Broker.Server`, `Broker.Channel`) is a class whose methods
change exchanges, queues, bindings and unacknowledged deliveries in place.
A refused channel operation closes the channel, as AMQP's channel-level
errors do.

Several things are given as parameters rather than computed:
- the answers of the connection attempts;
- broker refusals that depend on state the model does not track;
- the decoding of a request;
- the outcome of the two mail-service calls.

Where the tests and the code disagree, the model follows the code:
- The nested-dictionary test (`tests/test_mail_service.py:23-30`) expects
  `"Hi {name}"` inside a nested dictionary to see the outer `name`. The
  recursion at `src/mail_service.py:67` passes only the nested dictionary,
  so the model proves the string is left as it is
  (`ResolverExamples.NestedSeesOnlyOwnKeys`).

## Model

| member | source | states |
|---|---|---|
| Text.ContainsIffOccurs | src/mail_service.py:59 | `placeholder in value` holds exactly when the placeholder occurs at some index of the value |
| Text.ReplaceAbsent | src/mail_service.py:59-60 | replacing a pattern that does not occur returns the string unchanged |
| Text.ReplaceBySelf | src/mail_service.py:60 | replacing a pattern by itself returns the string unchanged |
| Text.ReplaceLeading | src/mail_service.py:60 | a leading occurrence is replaced and the scan resumes right after it |
| Text.ReplaceSkipsPrefix | src/mail_service.py:60 | a prefix without the pattern's first character is copied unchanged, and does not change whether the pattern occurs |
| Text.ContainsPrefixOfPattern | src/mail_service.py:59 | a string that contains a pattern contains each prefix of it |
| Text.JoinSplit | src/mail_service.py:60 | joining `s.split(pat)` with `pat` gives back `s` |
| Text.ReplaceIsJoinOfSplit | src/mail_service.py:60 | `s.replace(pat, rep)` equals `rep.join(s.split(pat))` |
| Text.ReplaceConcat | src/mail_service.py:116 | when no occurrence of the pattern straddles the seam, replacing in `a + b` is replacing in `a` and in `b` |
| Text.SplitPartsAvoidPattern | src/mail_service.py:60 | no part of `s.split(pat)` contains `pat`, so every occurrence is replaced |
| Variables.Lookup | src/mail_service.py:108 | looking a key up finds nothing exactly when the key is absent; a value found is stored under that key |
| Variables.LookupUpdate | src/mail_service.py:63 | overwriting an existing key changes the lookup of that key only |
| Variables.LookupAt | src/mail_service.py:56 | in a dictionary with distinct keys, the key at a position looks up the value at that position |
| Variables.Assign | src/mail_service.py:63 | `d[key] = value` keeps the keys in place, appends only a new key, keeps the keys distinct, and makes that key map to the new value while every other key keeps its value |
| Variables.AssignAll | src/mail_service.py:108 | assigning entries in order keeps the old keys in place and keeps keys distinct; each key assigned ends with its last value, and every other key keeps its old value |
| Variables.AssignAllFresh | src/mail_service.py:108 | assigning entries whose keys are all new appends them in order |
| Variables.SameShapeHeight | src/mail_service.py:65-67 | dictionaries of the same shape have the same nesting height |
| Resolver.Substitute | src/mail_service.py:56-60 | the inner loop over the first `j` entries of the current dictionary |
| Resolver.Step | src/mail_service.py:51-70 | handling one entry rewrites at most that entry, keeps its key and kind of value, and the change flag is set exactly when the entry changed |
| Resolver.PassUpTo | src/mail_service.py:51-71 | the first `i` entries of a pass leave the later entries as they are, keep the shape, and `changes_made` is set exactly when the dictionary changed |
| Resolver.Pass | src/mail_service.py:49-74 | a pass keeps the shape and reports a change exactly when it made one |
| Resolver.ProcessVariableReferences | src/mail_service.py:44-76 | the method returns `Resolve(variables, max_iterations)` and makes `PassesRun` passes; the caller's dictionary is a value and is not changed |
| Resolver.ProcessPass | src/mail_service.py:49-71 | one outer iteration, writing each rewritten value back at once, equals `Pass` |
| Resolver.SubstituteReferences | src/mail_service.py:56-60 | the inner loop equals `Substitute` over the whole current dictionary |
| Resolver.StepOnString | src/mail_service.py:52-64 | a string entry is overwritten and flagged exactly when the inner loop changed it |
| Resolver.SubstituteOneMore | src/mail_service.py:57-60 | one inner-loop step skips the key itself and keys whose placeholder is absent, and otherwise replaces the placeholder |
| Resolver.NestedIsOnePass | src/mail_service.py:65-70 | a nested dictionary resolved with `max_iterations=1` gets exactly one pass over its own keys |
| Resolver.ResolveKeepsShape | src/mail_service.py:46-74 | resolution returns exactly the input's keys in the same order, each value of the same kind and nesting; other values pass through unchanged |
| Resolver.PassesBounded | src/mail_service.py:48-74 | at most `max_iterations` passes are made and at least one when it is positive; stopping early happens only at a fixed point |
| Resolver.OwnEntryIgnored | src/mail_service.py:57 | the value stored under a key never influences the rewriting of that key's own string |
| Resolver.SelfReferenceKept | src/mail_service.py:57 | `{"x": "{x}"}`, and any single string entry, resolves to itself |
| Resolver.SubstituteNothingToDo | src/mail_service.py:56-60 | a string holding no other key's placeholder survives the inner loop unchanged |
| Resolver.PassOnResolved | src/mail_service.py:49-74 | a pass over a resolved dictionary, nested ones included, changes nothing |
| Resolver.ResolveResolved | src/mail_service.py:49-76 | idempotence: a resolved dictionary is returned unchanged after a single pass |
| Resolver.NoBraceNoPlaceholder | src/mail_service.py:58-59 | a string without `{` holds no placeholder |
| Resolver.PassSkipsPlain | src/mail_service.py:52-64 | entries whose strings contain no `{` are left alone by a pass |
| ResolverExamples.GreetingExample | tests/test_mail_service.py:5-11 | `{name: "World", greeting: "Hello {name}"}` resolves `greeting` to "Hello World" in two passes |
| ResolverExamples.ChainExample | tests/test_mail_service.py:14-20 | `{a: "A", b: "{a}B", c: "{b}C"}` resolves to `b == "AB"`, `c == "ABC"`, with the first pass doing all the work |
| ResolverExamples.CycleExample | src/mail_service.py:48-74 | the cycle `{a: "{b}", b: "{a}"}` stops after two passes, with both values `"{a}"` |
| ResolverExamples.NestedSeesOnlyOwnKeys | src/mail_service.py:65-67 | `{name: "User", nested: {message: "Hi {name}"}}` resolves to itself: the nested dictionary does not see the outer key |
| ResolverExamples.NoBracesResolved | src/mail_service.py:52-64 | a flat dictionary whose strings hold no `{` is resolved |
| Chains.ChainStep | src/mail_service.py:52-64 | one step of a pass over a forward chain (every value refers only to earlier keys) writes back the entry's pieces filled with the already rewritten earlier values, which hold no `{` |
| Chains.ChainPassUpTo | src/mail_service.py:51-64 | after the first `i` steps of a pass over a forward chain, the keys are in place, the later entries are untouched and the earlier ones are filled and hold no `{` |
| Chains.ChainResolves | src/mail_service.py:48-74 | because each rewritten value is written back at once, a forward chain of any length is fully substituted by the first pass: the result is resolved, keeps the keys, every value is its pieces filled with the final values, and at most two passes run |
| Pieces.ReplaceInPieces | src/mail_service.py:60 | replacing the wrapped form of a brace-free key, by any text, turns exactly the references to that key into that text |
| Pieces.SubstAbsent | src/mail_service.py:60 | pieces with no reference to a key are not changed by substituting it |
| Pieces.FillOneMore | src/mail_service.py:56-60 | filling against one more, new key also turns the references to that key into its value |
| Pieces.FillUnknownRefs | src/mail_service.py:114-116 | references to keys the dictionary lacks stay references |
| Pieces.FillWellFormed | src/mail_service.py:56-60 | filling keeps the pieces well formed when the values the pieces refer to print without `{` |
| Pieces.PlainRefsPrefix | src/mail_service.py:56-60 | a condition on the values a text refers to, met by a dictionary, is met by each prefix of it |
| Pieces.FillStep | src/mail_service.py:56-60 | one more entry of the dictionary: replacing its wrapped key in the text filled from the entries before it gives the text filled from the entries up to it, and the key itself changes nothing |
| Pieces.ReplaceAroundToken | src/mail_service.py:116 | replacing the `{{key}}` token of a brace-free key leaves a `{{x}}` token of another brace-free name intact and replaces in the texts on either side of it as if they stood alone, whatever they hold |
| Pieces.SubstitutePieces | src/mail_service.py:56-60 | the resolver's inner loop, on a text of literals and `{key}` references, against a dictionary with distinct brace-free keys whose values referred to by the text print without `{`, replaces each reference to another key by that key's value and leaves the rest as it is |
| Pieces.SubstitutePlainPieces | src/mail_service.py:56-60 | the same over the whole dictionary, when no value but the key's own prints with `{` |
| Renderer.ModelDumpKeys | src/mail_service.py:108 | the branding fields have distinct, brace-free keys |
| Renderer.Merge | src/mail_service.py:108 | `{**branding, **variables}` has distinct keys, exactly the union of both key sets, the request value on collision, and the branding keys first in their order |
| Renderer.MergeDisjoint | src/mail_service.py:108 | without collisions the merge is the concatenation |
| Renderer.RenderTemplate | src/mail_service.py:103-118 | the method returns `Render`: the template with every `{{key}}` of the resolved merged dictionary replaced by `str(value)`, key by key |
| Renderer.ReplaceTokens | src/mail_service.py:114-116 | the loop over the resolved dictionary yields the template after replacing the tokens of every entry in dictionary order (`RenderWith` over the whole dictionary) |
| Renderer.RenderVariablesKeys | src/mail_service.py:108-111 | the dictionary a render substitutes has distinct keys, exactly the branding fields and the request variables |
| Renderer.RenderWithoutTokens | src/mail_service.py:114-116 | a template containing no `{{` is returned unchanged |
| Renderer.RenderPieces | src/mail_service.py:114-116 | on a template of literals and `{{key}}` tokens, against a dictionary with distinct brace-free keys whose values referred to by the template print without `{`, the template loop replaces every token of a known key by its value and leaves the rest as it is |
| Renderer.RenderPlainPieces | src/mail_service.py:114-116 | the same over the whole dictionary, when no value prints with `{` |
| Renderer.RenderKeepsUnknownToken | src/mail_service.py:114-116 | a `{{x}}` token whose name is not a key stays verbatim, and the text on either side renders as if it stood alone, for any text and any values, given brace-free keys |
| RenderExamples.WelcomeExample | tests/test_mail_service.py:42-56 | `{{app_name}}` and `{{username}}` render to the branding's app name and the request's user name, for all brace-free text around them |
| RenderExamples.MessageExample | tests/test_mail_service.py:58-72 | a `{{message}}` whose value refers to `{username}` and `{app_name}` renders with both references resolved |
| RenderExamples.RenderTemplateTest | tests/test_mail_service.py:42-56 | the test's template renders to "<h1>Welcome to TestApp</h1><p>Hello TestUser</p>" |
| RenderExamples.RenderReferencesTest | tests/test_mail_service.py:58-72 | the test's template renders to "<p>Hello TestUser, welcome to TestApp</p>" |
| TemplateStore.PathJoin | src/mail_service.py:88 | `os.path.join` ends with the joined name, and starts with the directory unless the name is absolute |
| TemplateStore.LoadTemplate | src/mail_service.py:79-100 | the template is found exactly when its file exists and can be read, and then it is that file's text |
| TemplateStore.TemplatePathShape | src/mail_service.py:81-88 | with the override set, the file is `<dir>/<name>.html` |
| TemplateStore.BundledPathShape | src/mail_service.py:84-88 | without the override, the file is `<module dir>/templates/<name>.html` |
| TemplateStore.OverrideConsultsOnlyItsDirectory | src/mail_service.py:81-91 | with the override set, the result depends only on that one file: not on the module directory, nor on any other file |
| TemplateStore.NoFallbackToBundled | src/mail_service.py:81-91 | a template missing under the override directory is not found, whatever the bundled directory holds |
| TemplateStore.LoadAfterStore | src/mail_service.py:88-97 | writing a template file and loading its name reads the text back |
| TemplateStore.CustomTemplateTest | tests/test_custom_templates.py:30-92 | a file written under the override directory is what loading its name returns |
| TemplateStore.SendEmailHtml | src/mail_service.py:121-149 | the call fails with "Template '<name>' not found" exactly when the template is missing or empty; otherwise the message carries the subject, the SMTP user as sender, the recipient and the rendered template |
| TemplateStore.PlainTemplateSentVerbatim | src/mail_service.py:131-139 | a stored template without `{{` is sent exactly as stored |
| Broker.Answer | src/rmq_consumer.py:137-156 | an operation succeeds exactly on an open channel that the broker accepts, and fails with a wrong-state error exactly on a closed one |
| Broker.DeadLetter | src/rmq_consumer.py:198-200 | dead-lettering keeps every queue and its arguments |
| Broker.DeadLetterWithoutExchange | src/rmq_consumer.py:133-139 | a queue declared without the dead-letter argument drops what is rejected from it |
| Broker.DeadLetterReaches | src/rmq_consumer.py:124-127 | a rejected message reaches exactly the queues bound to the dead-letter exchange with its routing key, at their tail |
| Broker.Server.ExchangeDeclare | src/rmq_consumer.py:116 | adds the exchange on success; a refusal closes the channel |
| Broker.Server.QueueDeclare | src/rmq_consumer.py:145-149 | creates an absent queue, accepts the same arguments, refuses other arguments and closes the channel |
| Broker.Server.QueueDeclarePassive | src/rmq_consumer.py:138 | succeeds when the queue exists, whatever its arguments, and otherwise closes the channel |
| Broker.Server.QueueBind | src/rmq_consumer.py:127 | adds the binding when both ends exist, and otherwise closes the channel |
| Broker.Server.BasicQos | src/rmq_consumer.py:160-165 | sets the prefetch count, or closes the channel on a refusal |
| Broker.Server.BasicAck | src/rmq_consumer.py:194 | settles the delivery and changes no queue |
| Broker.Server.BasicReject | src/rmq_consumer.py:200 | settles the delivery; without requeue the queues become `DeadLetter` of the message |
| Consumer.Route | src/rmq_consumer.py:179-186 | the code-mail call exactly for the three built-in template names, the custom-template call for every other name |
| Consumer.HandleRequest | src/rmq_consumer.py:174-186 | handling returns normally exactly when the one call the request is routed to does |
| Consumer.Settle | src/rmq_consumer.py:189-201 | acknowledge exactly when the body decodes and handling returns normally; otherwise reject with `requeue=False` |
| Consumer.SettleDependsOnRoutedCallOnly | src/rmq_consumer.py:179-186 | a built-in request is settled by the code-mail call alone, any other by the custom-template call alone |
| Consumer.UndecodableRejected | src/rmq_consumer.py:192-200 | a body that does not decode is rejected without requeue |
| Consumer.DlxName | src/rmq_consumer.py:111 | the dead-letter exchange is the queue name followed by `_dlx` |
| Consumer.DlqName | src/rmq_consumer.py:112 | the dead-letter queue is the queue name followed by `_dlq` |
| Consumer.DeadLetterNames | src/rmq_consumer.py:111-112 | the two names differ from each other and from the queue, and different queues get different names |
| Consumer.FirstStop | src/rmq_consumer.py:89-101 | the first attempt within the bound that does not fail with a connection error |
| Consumer.FirstStopOpens | src/rmq_consumer.py:89-94 | the retry loop connects exactly when some attempt within the bound opens and every earlier one failed with a connection error |
| Consumer.RabbitMQConsumer.ConnectWithRetry | src/rmq_consumer.py:78-101 | at most `max_retries` attempts; returns the first that opens; sleeps `retry_delay` after each failure but the last; re-raises the last failure; other errors are raised at once; with no attempts it returns None |
| Consumer.RabbitMQConsumer.OpenConnection | src/rmq_consumer.py:108-109 | a fresh open channel exactly when the retry loop connects |
| Consumer.RabbitMQConsumer.DeclareDlx | src/rmq_consumer.py:114-118 | the dead-letter exchange is declared, and a failure is tolerated |
| Consumer.RabbitMQConsumer.DeclareDlqAndBind | src/rmq_consumer.py:120-131 | the dead-letter queue is declared and then bound under the mail queue's name; a failed declaration skips the bind; failures are tolerated |
| Consumer.RabbitMQConsumer.DeclareDeadLetters | src/rmq_consumer.py:114-131 | the dead-letter steps on a channel reopened after each refusal: the exchange exists unless refused, the dead-letter queue is created when absent and accepted, the binding is added exactly when queue and exchange both went through and the bind was not refused; nothing else changes |
| Consumer.RabbitMQConsumer.DeclareMainQueue | src/rmq_consumer.py:133-156 | an existing mail queue is left untouched; an absent one is created durable with `x-dead-letter-exchange = <q>_dlx` on a new channel; any other error is raised |
| Consumer.RabbitMQConsumer.SetPrefetch | src/rmq_consumer.py:158-165 | the prefetch count is 1 unless both tries are refused; the channel is reopened before the second try |
| Consumer.RabbitMQConsumer.ConnectAsWritten | src/rmq_consumer.py:104-165 | as written, `connect` succeeds only if every dead-letter step is accepted as well as the mail queue and the prefetch |
| Consumer.RabbitMQConsumer.Connect | src/rmq_consumer.py:104-165 | success exactly when the connection opens, the mail queue exists or may be created, and one prefetch call is accepted. Existing queues keep their arguments; only `<q>`, `<q>_dlq`, `<q>_dlx` and the one binding are added |
| Consumer.RabbitMQConsumer.Callback | src/rmq_consumer.py:189-201 | every message is settled once, by `Settle`; a rejected one is dead-lettered, never requeued |
| ConsumerScenarios.InvalidMessageScenario | tests/test_rmq_consumer.py:93-132 | on a fresh broker, a body that is not a request leaves the mail queue empty and is the single message on `<q>_dlq` |
| ConsumerScenarios.AllTemplatesScenario | tests/test_rmq_consumer.py:8-85 | one request per built-in template leaves the mail queue empty; when the code-mail call returns normally all three are acknowledged and `<q>_dlq` stays empty, and when it raises all three are rejected and end on `<q>_dlq` in order |
| ConsumerScenarios.DeliverBuiltIn | tests/test_rmq_consumer.py:8-85 | a request naming a built-in template, delivered from the head of the queue, is acknowledged when the code-mail call returns normally and otherwise rejected and appended to `<q>_dlq`; the queue loses exactly its head and no delivery stays unacknowledged |
| ConsumerScenarios.DlxRefusedAsWritten | src/rmq_consumer.py:115-140 | as written, a refused dead-letter exchange makes `connect` raise |
| ConsumerScenarios.DlxRefusedReopening | src/rmq_consumer.py:115-150 | with the channel reopened, the same refusal is tolerated and the mail queue is created |

## Findings

| source | as written | input that shows it | evidently intended | confidence | as-written member | corrected member |
|---|---|---|---|---|---|---|
| src/rmq_consumer.py:115-140 | A refused DLX, DLQ or bind declaration closes the channel and is only logged. The passive declare then raises `ChannelWrongStateError`, which is not `ChannelClosedByBroker`, so `connect` raises. | A broker on which `<q>_dlx` already exists with another type, so that `exchange_declare` of `<q>_dlx` is refused. | The dead-letter steps are tolerated: `connect` carries on with an open channel and creates the mail queue. | not executed; medium. This relies on pika closing a channel on a channel-level error and raising `ChannelWrongStateError` on a closed one. | Consumer.RabbitMQConsumer.ConnectAsWritten, ConsumerScenarios.DlxRefusedAsWritten | Consumer.RabbitMQConsumer.Connect, ConsumerScenarios.DlxRefusedReopening |

## Left out

- SMTP delivery (`_send_message`), `send_email_plain_text` and MIME assembly are network I/O. `SendEmailHtml` stops at the message handed to SMTP.
- The three `send_*_verification_mail` wrappers are left out: they only merge a dictionary and call `send_email_html`.
- Environment reads in both constructors are parameters:
  - the override directory is an `Option`;
  - the module directory and the SMTP user are strings;
  - the queue name is given to the consumer's constructor.
- `socket.gethostbyname` is network I/O and is left out.
- `RabbitMQConsumer.constructor`: the constructor does not call `connect` as `__init__` does. The scenarios call `Connect` explicitly, because a constructor cannot report the exception `connect` may raise.
- `start`, `stop` and the blocking consume loop are concurrency. A delivery is the broker event `Broker.Server.Deliver`, and prefetch is recorded but not enforced.
- JSON decoding and pydantic validation (`request_json_to_dict`) are an `Option<MailRequest>` parameter. `MailRequest` keeps only the template name and the recipient, because `MailRequest` is not part of this model's sources.
- `send_code_mail` and `send_custom_template_mail` are called by `handle_request` but not defined on the `MailService` shown. Their outcomes are boolean parameters.
- `BrandingConfig` is not part of this model's sources. Its seven fields are the keys the bundled templates use. The defaults of the four optional fields are unknown, so the test lemmas take them as parameters with no `{`.
- `Variables.Show`: a nested dictionary prints in Python's `{'k': v}` form, without the quote escaping `repr` applies to strings that contain quotes. A value inside a nested dictionary that is neither a string nor a dictionary prints with its `str()` text, whereas Python's `str(dict)` uses `repr()` (a `datetime`, for example, prints differently).
- `TemplateStore.LoadTemplate`: `os.path.exists` and a failing `open`/`read` are one file map. Directories, permissions and bad UTF-8 are all `Unreadable`; symbolic links are not modelled.
- `Broker.Server.ExchangeDeclare`: exchange types are not tracked. A redeclaration with another type is the `denied` parameter.
- `Broker.Server.BasicAck` and `Broker.Server.BasicReject` require an open channel and a known delivery tag, as pika guarantees inside a callback. An acknowledgement that itself fails is not modelled.
- `Consumer.RabbitMQConsumer.OpenConnection`: opening a channel on a new connection always succeeds in the model.
- The tests' `load_template_values` and the merging of template default values do not exist in the code shown. They are not modelled.
