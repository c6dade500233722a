/**
 The push backend (queue/rmq/rmqdoer.go): `Enqueue` with its one-shot
 recovery of the publisher channel or connection, the handler each delivery
 runs, and the `Monitor` loop that rebuilds connection and channels whenever
 consuming stops.

 The broker is a record of outcomes, one per operation in the order the code
 asks for them; `restartConn`, `restartPubChannel` and
 `restartConsumerChannel` panic when they fail, and so does publishing on the
 nil channel that a failed `conn.Channel()` leaves behind.
 */
module RmqBackend {
  import opened Base
  import opened Jobs
  import Doers

  /** The delayed exchange every job is published to. */
  const ExchangeName: string := "droidcloud"

  /** An AMQP publishing as `Enqueue` builds it. */
  datatype Publishing = Publishing(
    exchange: string,
    routingKey: string,
    body: Bytes,
    xDelay: Int64,          // the "x-delay" header, in milliseconds
    contentType: string,
    persistent: bool)

  /** The operations `Enqueue` performs on the shared connection and
      publisher channel. */
  datatype BrokerCall = Publish(msg: Publishing) | CloseChannel | OpenChannel | CloseConnection | RestartConnection

  /** The broker's answers, in the order `Enqueue` may need them: the error
      of the first publish, whether reopening the publisher channel works,
      whether `restartConn` works (it panics otherwise), whether opening a
      channel on the new connection works, and the error of the retry. */
  datatype PublishIO = PublishIO(
    firstPublish: Option<Error>,
    reopenOk: bool,
    restartOk: bool,
    reopenAfterRestartOk: bool,
    retryPublish: Option<Error>)

  datatype Published = Published(calls: seq<BrokerCall>, outcome: Outcome)

  /** `rmqdoer.Enqueue`. */
  function Enqueue(codec: Codec, io: PublishIO, j: Job): (r: Published)
    // a job that cannot be marshalled is never published
    ensures codec.marshalJob(j).Err? ==> r == Published([], Returned(Some(codec.marshalJob(j).error)))
    // every publish carries the marshalled job, its routing key and its interval as the delay, unclamped
    ensures forall i :: 0 <= i < |r.calls| && r.calls[i].Publish? ==>
              && codec.marshalJob(j).Ok?
              && r.calls[i].msg.body == codec.marshalJob(j).value
              && r.calls[i].msg.exchange == ExchangeName
              && r.calls[i].msg.routingKey == j.routingKey
              && r.calls[i].msg.xDelay == j.interval
              && r.calls[i].msg.contentType == "text/json"
              && r.calls[i].msg.persistent
    // a marshalled job is published first; the only other publish is the last call, so at most two
    ensures codec.marshalJob(j).Ok? ==> |r.calls| >= 1 && r.calls[0].Publish?
    ensures forall i :: 0 <= i < |r.calls| && r.calls[i].Publish? ==> i == 0 || i == |r.calls| - 1
    // a first publish that succeeds is the whole story
    ensures codec.marshalJob(j).Ok? && io.firstPublish.None? ==> |r.calls| == 1 && r.outcome == Returned(None)
    // recovery starts with the publisher channel; the connection is touched only if that fails
    ensures (OpenChannel in r.calls) <==> codec.marshalJob(j).Ok? && io.firstPublish.Some?
    ensures (RestartConnection in r.calls) <==> codec.marshalJob(j).Ok? && io.firstPublish.Some? && !io.reopenOk
    // the failed publish is followed at once by closing and reopening the publisher channel
    ensures codec.marshalJob(j).Ok? && io.firstPublish.Some? ==>
              |r.calls| >= 4 && r.calls[1..3] == [CloseChannel, OpenChannel]
    // when the channel comes back, the retry follows at once
    ensures codec.marshalJob(j).Ok? && io.firstPublish.Some? && io.reopenOk ==> |r.calls| == 4
    // the connection is closed and restarted only right after that, and a restart
    // that panics ends the call before any retry
    ensures (CloseConnection in r.calls) <==> (RestartConnection in r.calls)
    ensures RestartConnection in r.calls ==> |r.calls| >= 5 && r.calls[3..5] == [CloseConnection, RestartConnection]
    ensures RestartConnection in r.calls && !io.restartOk ==> |r.calls| == 5 && r.outcome.Panicked?
    // after a successful restart a channel is opened on the new connection and the publish retried
    ensures RestartConnection in r.calls && io.restartOk ==>
              |r.calls| == 7 && r.calls[5] == OpenChannel && r.calls[6] == r.calls[0]
    // after a failed first publish, a call that returns has retried and reports the retry's error
    ensures codec.marshalJob(j).Ok? && io.firstPublish.Some? && r.outcome.Returned? ==>
              |r.calls| > 1 && r.calls[|r.calls| - 1].Publish? && r.outcome.err == io.retryPublish
    ensures r.outcome.Panicked? <==>
              codec.marshalJob(j).Ok? && io.firstPublish.Some? && !io.reopenOk && !(io.restartOk && io.reopenAfterRestartOk)
  {
    match codec.marshalJob(j)
    case Err(e) => Published([], Returned(Some(e)))
    case Ok(body) =>
      var msg := Publishing(ExchangeName, j.routingKey, body, j.interval, "text/json", true);
      if io.firstPublish.None? then
        Published([Publish(msg)], Returned(None))
      else if io.reopenOk then
        Published([Publish(msg), CloseChannel, OpenChannel, Publish(msg)], Returned(io.retryPublish))
      else if !io.restartOk then
        Published([Publish(msg), CloseChannel, OpenChannel, CloseConnection, RestartConnection], Panicked)
      else if !io.reopenAfterRestartOk then
        // the channel is nil: publishing on it dereferences nil
        Published([Publish(msg), CloseChannel, OpenChannel, CloseConnection, RestartConnection, OpenChannel, Publish(msg)], Panicked)
      else
        Published([Publish(msg), CloseChannel, OpenChannel, CloseConnection, RestartConnection, OpenChannel, Publish(msg)],
                  Returned(io.retryPublish))
  }

  /** When the first publish fails and the channel comes back, exactly two
      publishes of the same message happen, the connection is left alone,
      and the second publish decides the result. */
  lemma ChannelRecoveryRetriesOnce(codec: Codec, io: PublishIO, j: Job)
    requires codec.marshalJob(j).Ok? && io.firstPublish.Some? && io.reopenOk
    ensures var r := Enqueue(codec, io, j);
            && |r.calls| > 1
            && r.calls[0].Publish? && r.calls[0] == r.calls[|r.calls| - 1]
            && CloseConnection !in r.calls
            && r.outcome == Returned(io.retryPublish)
  {
  }

  // ---------------------------------------------------------------------
  // Per-delivery handler

  /** What the handler of one delivery does, in order: run the executor on
      the decoded job, re-enqueue the job, signal the consumer to stop, and
      acknowledge the delivery. */
  datatype Effect = Executed(job: Job) | Resubmitted(job: Job) | SignalledStop | Acked

  /** The effects of one delivery, and whether it ended in a panic (the
      deferred acknowledgement still runs while the panic unwinds). */
  datatype Delivery = Delivery(effects: seq<Effect>, crashed: bool)

  /** Whether re-enqueueing failed with an `amqp.Error`, the one kind of
      error that makes the consumer stop. */
  predicate IsBrokerFailure(o: Outcome) {
    o.Returned? && o.err.Some? && o.err.value.AmqpError?
  }

  /** Whether a body decodes into a job rather than into the nil `*Job` that
      a `null` body leaves. */
  predicate IsJob(codec: Codec, body: Bytes) {
    codec.unmarshalJob(body).Ok? && codec.unmarshalJob(body).value.Some?
  }

  function TheJob(codec: Codec, body: Bytes): Job
    requires IsJob(codec, body)
  {
    codec.unmarshalJob(body).value.value
  }

  /** The handler a delivery runs. `slot` is the active backend, through
      which `jobs.Enqueue` re-enqueues. The deferred acknowledgement reads the
      job's ID before it acknowledges. */
  function HandleDelivery<E>(env: Env<E>, slot: Doers.Slot, body: Bytes): (r: Delivery)
    // a `null` body leaves the job nil: dispatch dereferences it, and so does
    // the deferred acknowledgement, which therefore never acknowledges
    ensures env.codec.unmarshalJob(body) == Ok(None) ==> r == Delivery([], true)
    // every other body is acknowledged exactly once, as the last thing
    ensures env.codec.unmarshalJob(body) != Ok(None) ==> |r.effects| >= 1 && r.effects[|r.effects| - 1] == Acked
    ensures forall i :: 0 <= i < |r.effects| - 1 ==> r.effects[i] != Acked
    // a body that does not decode is acknowledged and nothing else
    ensures env.codec.unmarshalJob(body).Err? ==> r == Delivery([Acked], false)
    // `Execute` runs, first and on the decoded job, exactly when the job has an executor
    ensures (exists i :: 0 <= i < |r.effects| && r.effects[i].Executed?) <==>
              IsJob(env.codec, body) && RunJob(env, TheJob(env.codec, body)).Ran?
    ensures forall i :: 0 <= i < |r.effects| && r.effects[i].Executed? ==>
              i == 0 && r.effects[i].job == TheJob(env.codec, body)
    // at most one re-enqueue, right after `Execute`, and any stop signal right after it
    ensures forall i :: 0 <= i < |r.effects| && r.effects[i].Resubmitted? ==> i == 1
    ensures forall i :: 0 <= i < |r.effects| && r.effects[i] == SignalledStop ==> i == 2
    // re-enqueue happens exactly after a successful Execute that left the job recurring,
    // and carries the job as Execute left it
    ensures (exists i :: 0 <= i < |r.effects| && r.effects[i].Resubmitted?) <==>
              && IsJob(env.codec, body)
              && var ran := RunJob(env, TheJob(env.codec, body));
                 ran.Ran? && ran.err.None? && ran.job.isRecurring
    ensures forall i :: 0 <= i < |r.effects| && r.effects[i].Resubmitted? ==>
              r.effects[i].job == RunJob(env, TheJob(env.codec, body)).job
    // the consumer is told to stop exactly when that re-enqueue fails with an amqp.Error
    ensures (SignalledStop in r.effects) <==>
              && (exists i :: 0 <= i < |r.effects| && r.effects[i].Resubmitted?)
              && IsBrokerFailure(Doers.Enqueue(slot, RunJob(env, TheJob(env.codec, body)).job))
    // the handler panics exactly on a nil job, on a job without an executor,
    // and when the re-enqueue itself panics
    ensures r.crashed <==>
              || env.codec.unmarshalJob(body) == Ok(None)
              || (IsJob(env.codec, body) && RunJob(env, TheJob(env.codec, body)).RunPanicked?)
              || (&& (exists i :: 0 <= i < |r.effects| && r.effects[i].Resubmitted?)
                  && Doers.Enqueue(slot, RunJob(env, TheJob(env.codec, body)).job).Panicked?)
  {
    match env.codec.unmarshalJob(body)
    case Err(_) => Delivery([Acked], false)
    case Ok(None) => Delivery([], true)
    case Ok(Some(j)) =>
      match RunJob(env, j)
      case RunPanicked => Delivery([Acked], true)
      case Ran(after, err) =>
        if err.Some? || !after.isRecurring then
          var effects := [Executed(j), Acked];
          assert effects[0].Executed?;
          Delivery(effects, false)
        else
          var sent := Doers.Enqueue(slot, after);
          var effects := if IsBrokerFailure(sent) then [Executed(j), Resubmitted(after), SignalledStop, Acked]
                         else [Executed(j), Resubmitted(after), Acked];
          assert effects[0].Executed? && effects[1].Resubmitted?;
          Delivery(effects, sent.Panicked?)
  }

  /** An `Execute` error suppresses re-enqueueing even for a recurring job. */
  lemma ExecuteErrorSuppressesResubmit<E>(env: Env<E>, slot: Doers.Slot, body: Bytes)
    requires IsJob(env.codec, body)
    requires var ran := RunJob(env, TheJob(env.codec, body));
             ran.Ran? && ran.err.Some?
    ensures var j := TheJob(env.codec, body);
            HandleDelivery(env, slot, body) == Delivery([Executed(j), Acked], false)
  {
  }

  /** The nil executor is not guarded against: the handler panics after
      acknowledging, without running anything. */
  lemma NilExecutorPanicsAfterAck<E>(env: Env<E>, slot: Doers.Slot, body: Bytes)
    requires IsJob(env.codec, body)
    requires !GetExecutor(env, TheJob(env.codec, body)).Resolved?
    ensures HandleDelivery(env, slot, body) == Delivery([Acked], true)
  {
  }

  // ---------------------------------------------------------------------
  // Monitor

  /** The outcomes one round of the `Monitor` loop meets: whether `consume`
      got its consumer started (it returns either way: at once when it did
      not, on a stop signal when it did), and whether each of the three
      restarts succeeds. */
  datatype Round = Round(consumerStarted: bool, connOk: bool, pubChannelOk: bool, consumerChannelOk: bool)

  /** The steps of the loop, in the order it takes them. */
  datatype MonitorStep = Consumed(started: bool) | ConnectionRestarted | PubChannelRestarted | ConsumerChannelRestarted

  /** The steps taken, and whether a failing restart panicked. */
  datatype MonitorRun = MonitorRun(steps: seq<MonitorStep>, crashed: bool)

  /** The position of a step within one round. */
  function Phase(s: MonitorStep): nat {
    match s
    case Consumed(_) => 0
    case ConnectionRestarted => 1
    case PubChannelRestarted => 2
    case ConsumerChannelRestarted => 3
  }

  predicate RoundOk(rd: Round) {
    rd.connOk && rd.pubChannelOk && rd.consumerChannelOk
  }

  /** One round: consume, then restart the connection, the publisher channel
      and the consumer channel, stopping at the first restart that panics. */
  function MonitorRound(rd: Round): (r: MonitorRun)
    ensures 2 <= |r.steps| <= 4
    ensures forall i :: 0 <= i < |r.steps| ==> Phase(r.steps[i]) == i
    ensures r.steps[0] == Consumed(rd.consumerStarted)
    ensures r.crashed <==> !RoundOk(rd)
    ensures !r.crashed ==> |r.steps| == 4
    // each restart is reached only when every earlier one succeeded
    ensures |r.steps| > 2 <==> rd.connOk
    ensures |r.steps| > 3 <==> rd.connOk && rd.pubChannelOk
  {
    var consumed := [Consumed(rd.consumerStarted), ConnectionRestarted];
    if !rd.connOk then MonitorRun(consumed, true)
    else if !rd.pubChannelOk then MonitorRun(consumed + [PubChannelRestarted], true)
    else MonitorRun(consumed + [PubChannelRestarted, ConsumerChannelRestarted], !rd.consumerChannelOk)
  }

  /** `rmqdoer.Monitor` over its first `|rounds|` rounds. */
  function Monitor(rounds: seq<Round>): (r: MonitorRun)
    ensures |r.steps| <= 4 * |rounds|
    ensures |rounds| > 0 ==> |r.steps| >= 2 && r.steps[0] == Consumed(rounds[0].consumerStarted)
    // whenever consume returns, a connection restart follows
    ensures forall i :: 0 <= i < |r.steps| && r.steps[i].Consumed? ==>
              i + 1 < |r.steps| && r.steps[i + 1] == ConnectionRestarted
    decreases |rounds|
  {
    if |rounds| == 0 then MonitorRun([], false)
    else
      var first := MonitorRound(rounds[0]);
      if first.crashed then first
      else
        var rest := Monitor(rounds[1..]);
        var steps := first.steps + rest.steps;
        assert forall i :: |first.steps| <= i < |steps| ==> steps[i] == rest.steps[i - |first.steps|];
        MonitorRun(steps, rest.crashed)
  }

  /** Round `k` is the first whose restarts do not all succeed. */
  predicate FirstFailure(rounds: seq<Round>, k: nat) {
    && k < |rounds|
    && !RoundOk(rounds[k])
    && forall m :: 0 <= m < k ==> RoundOk(rounds[m])
  }

  /** Whatever the broker does, the loop cycles consume, connection,
      publisher channel, consumer channel, in that order; it keeps going
      exactly as long as every restart succeeds, and a panic cuts a round
      short right after the restart that failed. */
  lemma {:induction false} MonitorRestartOrder(rounds: seq<Round>)
    ensures var r := Monitor(rounds);
            forall i :: 0 <= i < |r.steps| ==> Phase(r.steps[i]) == i % 4
    ensures var r := Monitor(rounds);
            !r.crashed <==> forall k :: 0 <= k < |rounds| ==> RoundOk(rounds[k])
    ensures var r := Monitor(rounds);
            !r.crashed ==> |r.steps| == 4 * |rounds|
    ensures var r := Monitor(rounds);
            r.crashed ==> |r.steps| > 0 && Phase(r.steps[|r.steps| - 1]) != 0
    // a panic ends the loop in the first round with a failing restart,
    // right where that round stops
    ensures var r := Monitor(rounds);
            r.crashed ==> exists k: nat :: FirstFailure(rounds, k) && |r.steps| == 4 * k + |MonitorRound(rounds[k]).steps|
    decreases |rounds|
  {
    StepsCycle(rounds);
    RunsWhileRoundsSucceed(rounds);
    CrashInFirstFailingRound(rounds);
  }

  /** The steps cycle through the four phases of a round. */
  lemma {:induction false} StepsCycle(rounds: seq<Round>)
    ensures forall i :: 0 <= i < |Monitor(rounds).steps| ==> Phase(Monitor(rounds).steps[i]) == i % 4
    decreases |rounds|
  {
    if |rounds| > 0 {
      var first := MonitorRound(rounds[0]);
      if !first.crashed {
        StepsCycle(rounds[1..]);
        var rest := Monitor(rounds[1..]);
        var steps := first.steps + rest.steps;
        forall i | 0 <= i < |steps|
          ensures Phase(steps[i]) == i % 4
        {
          if i >= 4 {
            assert steps[i] == rest.steps[i - 4];
          } else {
            assert steps[i] == first.steps[i];
          }
        }
      }
    }
  }

  /** The loop survives exactly the runs in which every round succeeds, four
      steps each. */
  lemma {:induction false} RunsWhileRoundsSucceed(rounds: seq<Round>)
    ensures var r := Monitor(rounds);
            !r.crashed <==> forall k :: 0 <= k < |rounds| ==> RoundOk(rounds[k])
    ensures var r := Monitor(rounds);
            !r.crashed ==> |r.steps| == 4 * |rounds|
    decreases |rounds|
  {
    if |rounds| > 0 {
      var first := MonitorRound(rounds[0]);
      if !first.crashed {
        RunsWhileRoundsSucceed(rounds[1..]);
        forall k | 0 <= k < |rounds[1..]|
          ensures rounds[1..][k] == rounds[k + 1]
        {
        }
      }
    }
  }

  /** A crash happens in the first failing round, where that round stops. */
  lemma {:induction false} CrashInFirstFailingRound(rounds: seq<Round>)
    ensures var r := Monitor(rounds);
            r.crashed ==> exists k: nat :: FirstFailure(rounds, k) && |r.steps| == 4 * k + |MonitorRound(rounds[k]).steps|
    decreases |rounds|
  {
    if |rounds| > 0 {
      var first := MonitorRound(rounds[0]);
      if first.crashed {
        assert FirstFailure(rounds, 0);
      } else {
        CrashInFirstFailingRound(rounds[1..]);
        var rest := Monitor(rounds[1..]);
        if rest.crashed {
          var k: nat :| FirstFailure(rounds[1..], k) && |rest.steps| == 4 * k + |MonitorRound(rounds[1..][k]).steps|;
          assert rounds[1..][k] == rounds[k + 1];
          forall m | 0 <= m < k + 1
            ensures RoundOk(rounds[m])
          {
            if m > 0 {
              assert rounds[1..][m - 1] == rounds[m];
            }
          }
          assert FirstFailure(rounds, k + 1);
        }
      }
    }
  }

  /** Every round the loop reaches starts by consuming, and the consume step
      records that round's own outcome. */
  lemma {:induction false} EachRoundStartsWithConsume(rounds: seq<Round>)
    ensures var r := Monitor(rounds);
            forall k :: 0 <= k < |rounds| && 4 * k < |r.steps| ==> r.steps[4 * k] == Consumed(rounds[k].consumerStarted)
    decreases |rounds|
  {
    if |rounds| > 0 {
      var first := MonitorRound(rounds[0]);
      if !first.crashed {
        EachRoundStartsWithConsume(rounds[1..]);
        var rest := Monitor(rounds[1..]);
        var steps := first.steps + rest.steps;
        forall k | 0 < k < |rounds| && 4 * k < |steps|
          ensures steps[4 * k] == Consumed(rounds[k].consumerStarted)
        {
          assert steps[4 * k] == rest.steps[4 * (k - 1)];
          assert rounds[1..][k - 1] == rounds[k];
        }
      }
    }
  }
}
