# Deferred and recurring job scheduler: verified model of the dispatch core

This project models the core of `betacraft/scheduler` in Dafny. The scheduler is
written in Go and runs deferred and recurring jobs on top of two message-queue
backends. The model covers:

- **Job model and executor dispatch** (`jobs/job.go`). The `Job` record and the
  process-wide registry from job type to prototype executor, where the last
  registration wins. Also `GetExecutor`, which marshals the payload, looks up the
  prototype, takes a fresh instance with `New()` and populates it from the payload.
- **Transport contract** (`jobs/doer.go`). The single slot that holds the active
  backend, where the last registration wins. `Enqueue` and `Monitor` forward to
  whatever backend is in the slot.
- **Poll backend** (`queue/sqs/sqsdoer.go`):
  - the clamp from interval to `DelaySeconds`;
  - `Enqueue` and the order in which its steps can fail;
  - one pass of the processing loop: decode, execution-time gate, `Execute`,
    recompute `ExecTime`, re-enqueue if recurring;
  - the receive loop, which deletes each message before it hands it on.
- **Push backend** (`queue/rmq/rmqdoer.go`):
  - `Enqueue` and its bounded publish retry: the publisher channel is recreated
    first, the connection only if that fails, and the publish is retried once;
  - the handler that runs for each delivery;
  - the `Monitor` loop, which restarts the connection, then the publisher channel,
    then the consumer channel every time consuming stops.

The model is functional. A job is an immutable datatype and every step is a pure
function. The outside world becomes explicit arguments:

- **Clock.** Every clock reading is a parameter, measured in nanoseconds.
- **Broker and queue service.** These become records of outcomes (`PublishIO`,
  `Round`, `ReceiveIO`, `Service`).
- **JSON encoding and reflection.** These become the partial functions of
  `Jobs.Codec` and `Jobs.Executors`.

Go panics are explicit results (`Outcome.Panicked`, `Dispatch.NilDereference`,
the `Crashed` and `crashed` results). They are not preconditions, because the
code does not guard against them.

Files: `base.dfy` (shared types, int64 wrap-around), `jobs.dfy`, `doers.dfy`,
`decimal.dfy` (the base-10 text written by `strconv.FormatInt`), `sqsdoer.dfy`,
`rmqdoer.dfy`.

Points where the code behaves in ways a reader might not expect. The model
follows the code as written:

- **Poll backend, `Execute` error.** A recurring job is re-enqueued even when
  `Execute` returns an error, although the comment at `queue/sqs/sqsdoer.go:83`
  says it is not; see `SqsBackend.ResubmittedDespiteExecuteError`. The push
  backend does skip the re-enqueue in this case (`queue/rmq/rmqdoer.go:103-106`);
  see `RmqBackend.ExecuteErrorSuppressesResubmit`.
- **Poll backend, job not yet due.** Only `Execute` and the recomputation of
  `ExecTime` sit inside the execution-time check
  (`queue/sqs/sqsdoer.go:80-89`). The re-enqueue after it does not, so a
  recurring job that is not yet due goes back unchanged, with the same
  `ExecTime`; a non-recurring one is dropped. See
  `SqsBackend.GateMissLeavesJobUnchanged`.
- **Missing executor.** Both backends call `Execute` straight on what
  `GetExecutor` returns, at the spots their comments mark as panic points
  (`queue/sqs/sqsdoer.go:81-82`, `queue/rmq/rmqdoer.go:101-102`). An
  unregistered type panics on the nil registry entry, but only after the
  payload has marshalled; a payload that fails to marshal gives nil first.
  Calling `Execute` on a nil executor also panics.
- **A job without a payload never runs.** A nil `JobData` marshals to `null`,
  and decoding `null` into the fresh instance sets it to nil without an error
  (`jobs/job.go:98-110`). Such a job therefore panics in `Execute`, whereas an
  empty payload `{}` can run. See `Jobs.NilPayloadNeverResolves`.
- **A `null` message body.** The poll backend decodes into a `Job` value, which
  `null` leaves at its zero value: no payload, due at once, so the process
  panics (`SqsBackend.NullBodyCrashes`). The push backend decodes into a
  `*Job`, which `null` sets to nil: dispatch dereferences it, and so does the
  deferred acknowledgement, which logs the job's ID before it acknowledges
  (`queue/rmq/rmqdoer.go:86-93`). That delivery is never acknowledged.
- **Per-delivery fault containment.** The push backend has none. The
  `defer rescue()` at `queue/rmq/rmqdoer.go:84` sits in the goroutine that
  receives deliveries, not in the goroutine that handles one, so a panic in a
  handler ends the process. In the model that panic shows as
  `Delivery.crashed`. The deferred acknowledgement still runs while the panic
  unwinds, except for a nil job.

## Model

| member | source | states |
|---|---|---|
| `Jobs.RegisterExecutor` | jobs/job.go:43-45 | registering adds the type to the registry and stores the prototype under it; every other entry is kept unchanged |
| `Jobs.LastRegistrationWins` | jobs/job.go:43-45 | two registrations under one type leave the same registry as the second one alone |
| `Jobs.RegistrationsCommute` | jobs/job.go:43-45 | registrations under different types give the same registry in either order |
| `Jobs.DecodeJob` | queue/sqs/sqsdoer.go:68-69 | decoding a body into a `Job` value fails exactly when the decoder fails; a `null` body leaves the zero job (no payload, zero execution time); any other body gives the decoded job |
| `Jobs.GetExecutor` | jobs/job.go:94-111 | a payload that fails to marshal gives nil; the call panics on the nil entry exactly when the payload marshals (a nil payload always does) and the type is unregistered; a result is always the fresh instance of the stored prototype populated from a non-nil payload |
| `Jobs.MarshalFailureIgnoresRegistry` | jobs/job.go:98-101 | when marshalling fails the result is nil whatever the registry holds, so even an unregistered type does not panic |
| `Jobs.PopulateFailureIsNil` | jobs/job.go:105-109 | a registered type whose fresh instance cannot be populated from the payload gives nil |
| `Jobs.DispatchReadsTypeAndData` | jobs/job.go:94-111 | dispatch depends only on the job's `Type` and `JobData` |
| `Jobs.DispatchAfterRegister` | jobs/job.go:102-110 | after registering `p` under `t`, a job of type `t` dispatches to `New()` of `p` populated from its payload |
| `Jobs.NilPayloadNeverResolves` | jobs/job.go:98-110 | a job whose payload is the nil map gets the nil executor, or a panic when its type is unregistered, and so always panics when run |
| `Jobs.OtherRegistrationsDoNotAffectDispatch` | jobs/job.go:102-103 | registering a different type does not change how a job dispatches |
| `Jobs.RunJob` | queue/sqs/sqsdoer.go:81-82 | dispatching and then calling `Execute` panics exactly when dispatch does not resolve; otherwise it is `Execute` on the resolved executor |
| `Doers.RegisterDoer` | jobs/doer.go:10-12 | after registration the slot holds a backend that behaves as the one registered |
| `Doers.Enqueue` | jobs/doer.go:14 | the job goes unchanged to the active backend and its outcome comes back unmodified; with no backend the call panics |
| `Doers.Monitor` | jobs/doer.go:15 | the configuration goes unchanged to the active backend's `Monitor`; with no backend the call panics |
| `Doers.LastDoerWins` | jobs/doer.go:10-15 | of two registrations the later receives every `Enqueue` and `Monitor` call |
| `Doers.UnregisteredPanics` | jobs/doer.go:8-15 | before any registration both entry points panic on the nil interface |
| `Decimal.FormatInt` | queue/sqs/sqsdoer.go:140 | the text is canonical base 10: digits without a superfluous leading zero, preceded by `-` exactly for negative numbers, never "-0" |
| `Decimal.ReadFormat` | queue/sqs/sqsdoer.go:140 | reading the decimal text back gives the original number |
| `Decimal.CanonicalIsFormat` | queue/sqs/sqsdoer.go:140 | every canonical text denoting a number is the text `FormatInt` writes for it, so that text is unique |
| `SqsBackend.GoDiv` | queue/sqs/sqsdoer.go:136 | integer division truncates toward zero, with the quotient bounds for each sign of the dividend |
| `SqsBackend.GetDelaySeconds` | queue/sqs/sqsdoer.go:134-141 | the text is "900" once the whole seconds reach 900; otherwise it is canonical base-10 text denoting the whole seconds truncated toward zero |
| `SqsBackend.DelayIsFormatted` | queue/sqs/sqsdoer.go:134-141 | the delay text is `FormatInt` of the whole seconds capped at 900 |
| `SqsBackend.DelayWithinWindow` | queue/sqs/sqsdoer.go:132-141 | for a non-negative interval the delay is within [0, 900]; below the cap it is the interval's whole seconds |
| `SqsBackend.DelayExamples` | queue/sqs/sqsdoer.go:134-141 | 1,000,000 ms gives "900", 5,000 ms gives "5", -1,500 ms gives "-1" |
| `SqsBackend.NextExecTime` | queue/sqs/sqsdoer.go:86 | the next execution time is the clock reading plus an int64 offset congruent to the interval in nanoseconds modulo 2^64; it is exact while the interval's nanoseconds fit in an int64 |
| `SqsBackend.NextExecTimeWraps` | queue/sqs/sqsdoer.go:86 | one millisecond beyond that range the next execution time is earlier than the clock reading |
| `SqsBackend.Resubmit` | queue/sqs/sqsdoer.go:91-98 | only a recurring job is re-enqueued; the process panics only if that enqueue panics |
| `SqsBackend.ProcessMessage` | queue/sqs/sqsdoer.go:65-99 | a body is dropped exactly when it does not decode; the process panics exactly when a due job has no executor or the re-enqueue of a job that is recurring after the step panics; otherwise the job runs exactly when now >= `ExecTime`; it is re-enqueued exactly when it is recurring after the step; a job that ran gets `ExecTime` = second clock reading + its interval; a job that did not run is unchanged |
| `SqsBackend.ResubmittedDespiteExecuteError` | queue/sqs/sqsdoer.go:82-98 | a due recurring job whose `Execute` fails is still re-enqueued, with a recomputed `ExecTime` |
| `SqsBackend.GateMissLeavesJobUnchanged` | queue/sqs/sqsdoer.go:80-98 | a job that is not yet due is not run; it is re-enqueued unchanged if recurring and dropped otherwise |
| `SqsBackend.RecurrenceAdvancesExecTime` | queue/sqs/sqsdoer.go:80-86 | a job that ran with a positive interval comes back due exactly interval ms after the second clock reading, strictly later than its previous `ExecTime` |
| `SqsBackend.UndecodableIsDropped` | queue/sqs/sqsdoer.go:69-73 | a body that does not decode runs nothing and enqueues nothing |
| `SqsBackend.NullBodyCrashes` | queue/sqs/sqsdoer.go:68-82 | a `null` body decodes into the zero job, which is due and has no payload, so the process panics |
| `SqsBackend.NilExecutorCrashes` | queue/sqs/sqsdoer.go:80-82 | a due job whose dispatch does not resolve makes the process panic |
| `SqsBackend.Enqueue` | queue/sqs/sqsdoer.go:102-130 | the steps run in the order region, queue, marshal, send; the first failure ends the call with that step's own error; a job is sent only after all three earlier steps succeed, with `DelaySeconds` derived from its interval |
| `SqsBackend.EnqueueSucceedsIffAllStagesDo` | queue/sqs/sqsdoer.go:102-130 | `Enqueue` returns nil exactly when the region and queue are found, the job marshals and the send succeeds |
| `SqsBackend.ReceiveIteration` | queue/sqs/sqsdoer.go:44-60 | one iteration starts with a receive that reports the service's answer; a failed or empty receive ends it, and so does a failed delete, with no further call; a message reaches the buffer exactly when the receive succeeds with a message and the first message's delete succeeds; it is always the first received message |
| `SqsBackend.DeleteBeforeBuffer` | queue/sqs/sqsdoer.go:43-61 | over any number of iterations, every buffered message comes right after a successful delete of that same message |
| `SqsBackend.AtMostOnePerIteration` | queue/sqs/sqsdoer.go:43-61 | the buffer receives at most one message per iteration |
| `SqsBackend.Monitor` | queue/sqs/sqsdoer.go:29-61 | `Monitor` returns exactly when the region or the queue lookup fails; otherwise it runs the receive loop |
| `RmqBackend.Enqueue` | queue/rmq/rmqdoer.go:22-49 | a job that fails to marshal is never published; every publish carries the job's routing key and its exact interval as `x-delay`; there are at most two publishes, the first call and the last call; a first success touches nothing else; recovery closes and reopens the publisher channel right after the failed publish, and retries at once when the reopen works; only if the reopen fails does it close and restart the connection; a restart that panics ends the call before any retry; after a successful restart a channel is opened and the same message published once more; a returned error after recovery is the retry's error |
| `RmqBackend.ChannelRecoveryRetriesOnce` | queue/rmq/rmqdoer.go:36-48 | when the channel comes back after a failed publish, the same message is published exactly twice, the connection is left alone, and the retry's error is returned |
| `RmqBackend.HandleDelivery` | queue/rmq/rmqdoer.go:85-125 | a `null` body panics without an acknowledgement; every other delivery is acknowledged exactly once, as its last effect; a body that does not decode is only acknowledged; `Execute` runs first, on the decoded job, exactly when the job has an executor; the handler panics exactly on a nil job, a missing executor or a panicking re-enqueue; there is at most one re-enqueue, right after `Execute`, and any stop signal comes right after it; re-enqueueing happens exactly after a successful `Execute` that leaves the job recurring, with the job as `Execute` left it; the consumer is told to stop exactly when that re-enqueue fails with an `amqp.Error` |
| `RmqBackend.ExecuteErrorSuppressesResubmit` | queue/rmq/rmqdoer.go:102-106 | an `Execute` error means no re-enqueue, even for a recurring job |
| `RmqBackend.NilExecutorPanicsAfterAck` | queue/rmq/rmqdoer.go:89-102 | a job whose dispatch does not resolve is acknowledged, nothing runs, and the handler panics |
| `RmqBackend.MonitorRound` | queue/rmq/rmqdoer.go:53-56 | a round consumes, then restarts the connection, the publisher channel and the consumer channel in that order; each restart is reached only when the earlier ones succeeded; the round crashes exactly when one fails |
| `RmqBackend.Monitor` | queue/rmq/rmqdoer.go:51-58 | the loop starts by consuming, and every return from consume is immediately followed by a connection restart |
| `RmqBackend.MonitorRestartOrder` | queue/rmq/rmqdoer.go:51-58 | across all rounds, step i is in position i mod 4 of the cycle consume, connection, publisher channel, consumer channel; the loop goes on exactly while every restart succeeds and then has 4 steps per round; a panic ends it in the first round with a failing restart, right after that restart |
| `RmqBackend.EachRoundStartsWithConsume` | queue/rmq/rmqdoer.go:53-56 | every round the loop reaches starts with a consume step that records whether that round's consumer started |

## Left out

- JSON encoding and reflection (`encoding/json`, `reflect`). Marshal, unmarshal
  and "populate the fresh instance" are arbitrary partial functions, except for
  JSON `null`, whose effect is modelled exactly: a nil payload marshals to
  `null`, populating from `null` gives nil, and a `null` body gives a nil
  `*Job` or the zero `Job`. Other facts of the library are not: the wire
  round-trip of a `Job` is not stated, and nothing says which other bodies
  fail to decode.
- Goroutines and channels:
  - the `processJob` goroutine and its buffered channel of `2*maxUsableProcs` messages (2*NumCPU once `Init` has run),
    including blocking on a full buffer;
  - the per-delivery goroutine and the `done` channel, including the leak when
    later handlers send on `done` after `consume` has returned;
  - `rescue`.

  Each step is modelled alone. No interleaving is modelled.
- The delivery loop inside `consume` (queue/rmq/rmqdoer.go:78-128). The
  per-delivery handler is modelled. The rest of `consume` is reduced to one fact:
  it returns, either when its consumer fails to start or on a stop signal.
- A panic inside a user's `Execute`. `Execute` is modelled as a function that
  always returns.
- `restartConn` internals: reading `config.ini`, the `ENV` section and dialing.
  They are one success flag, and failure is a panic. The restart's extra
  `conn.Close()` is folded into the `RestartConnection` step.
- Publishing on the nil channel left by a failed `conn.Channel()`. The model
  treats it as a panic because the broker library dereferences its receiver. That
  library is not part of this model.
- The broker library's error types. The handler distinguishes errors by
  `Error.AmqpError?`. The source switches on the value type `amqp.Error`; which
  errors the library returns as that value type, rather than as a pointer to it,
  is not modelled.
- Provisioning and credential setup: queue/rmq/setup.go, queue/sqs/setup.go,
  queue/sqs/regions.go, queue/rmq/config.go and queue/sqs/sqsutil.go. From
  sqsutil.go only the region lookup is kept, as `Service.regions` with the error
  "Region Name Not found". `GetPubChannel` and `GetConsumerChannel` return each
  other's channel (queue/rmq/setup.go:22-31); nothing in the core uses them.
- The repository's two example programs, and all logging.
- Time values. `time.Time` is reduced to the instant in nanoseconds; the
  location and the monotonic clock reading are dropped.
- Never-ending loops. `SqsBackend.Monitor` and `RmqBackend.Monitor` are
  modelled over a finite prefix of iterations or rounds. `SqsBackend.Monitor`
  does not model starting the processing goroutine.
- The two backends are not packaged as `Doers.Doer` values. A backend is known
  only by the outcome of its two methods, and the backends' re-enqueue goes
  through whatever backend the slot holds.
- The `ID` and `EnqueueTime` fields of a job and the error that `processJob`
  logs after a failed re-enqueue. They are carried, not interpreted.
