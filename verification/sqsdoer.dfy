/**
 The poll backend (queue/sqs/sqsdoer.go): the delay attribute computed from a
 job's interval, `Enqueue` with its chain of failure points, one pass of the
 processing loop over a received message body, and the receive loop that
 deletes each message before handing it to that processing loop.

 The cloud-queue service is a `Service` record of outcomes; the clock is two
 explicit readings; the JSON codec and the executors come from `Jobs`.
 */
module SqsBackend {
  import opened Base
  import opened Jobs
  import Decimal
  import Doers

  /** The longest per-message delay, in seconds, that `Enqueue` asks for. */
  const MaxDelaySeconds: int := 900

  /** Dafny's `/` on a non-negative dividend, which truncates as Go's does. */
  lemma NonNegativeDivision(n: nat, b: int)
    requires b > 0
    ensures 0 <= n / b
    ensures (n / b) * b <= n < (n / b) * b + b
  {
    var q, m := n / b, n % b;
    assert n == b * q + m && 0 <= m < b;
    assert b * q == q * b;
  }

  /** Go's `/` on signed integers: the quotient truncated toward zero. */
  function GoDiv(a: int, b: int): (q: int)
    requires b > 0
    ensures a >= 0 ==> 0 <= q && q * b <= a < q * b + b
    ensures a < 0 ==> q <= 0 && q * b - b < a <= q * b
  {
    var n: nat := if a >= 0 then a else -a;
    NonNegativeDivision(n, b);
    if a >= 0 then n / b
    else
      assert (-(n / b)) * b == -((n / b) * b);
      -(n / b)
  }

  function Min(a: int, b: int): int {
    if a <= b then a else b
  }

  /** `getDelaySeconds`: the whole seconds in `interval` milliseconds, as
      decimal text, capped at "900". No lower bound is applied: a negative
      interval yields a negative number of seconds. */
  function GetDelaySeconds(interval: Int64): (r: string)
    ensures GoDiv(interval, 1000) >= MaxDelaySeconds ==> r == "900"
    ensures Decimal.Canonical(r)
    ensures Decimal.ReadInt(r) == Some(Min(GoDiv(interval, 1000), MaxDelaySeconds))
  {
    var inSeconds := GoDiv(interval, 1000);
    if inSeconds >= MaxDelaySeconds then
      assert Decimal.ValueOf("900") == 900 by {
        assert "900"[..2] == "90" && "90"[..1] == "9";
      }
      assert Decimal.CanonicalDigits("900");
      "900"
    else
      Decimal.ReadFormat(inSeconds);
      Decimal.FormatInt(inSeconds)
  }

  /** The delay text is exactly what `strconv.FormatInt` writes for the
      capped whole seconds: no other text is canonical for that number. */
  lemma DelayIsFormatted(interval: Int64)
    ensures GetDelaySeconds(interval) == Decimal.FormatInt(Min(GoDiv(interval, 1000), MaxDelaySeconds))
  {
  }

  /** For an interval that is not negative the delay lies in [0, 900]
      seconds and, below the cap, loses only the sub-second remainder. */
  lemma DelayWithinWindow(interval: Int64)
    requires 0 <= interval
    ensures Decimal.ReadInt(GetDelaySeconds(interval)).Some?
    ensures var d := Decimal.ReadInt(GetDelaySeconds(interval)).value;
            && 0 <= d <= MaxDelaySeconds
            && (interval < 900_000 ==> d * 1000 <= interval < d * 1000 + 1000)
  {
  }

  /** Worked values: 1,000,000 ms is capped, 5,000 ms is five seconds, and
      -1,500 ms truncates toward zero to minus one second. */
  lemma DelayExamples()
    ensures GetDelaySeconds(1_000_000) == "900"
    ensures GetDelaySeconds(5000) == "5"
    ensures GetDelaySeconds(-1500) == "-1"
  {
    assert GoDiv(5000, 1000) == 5;
    assert GoDiv(-1500, 1000) == -1;
  }

  /** Largest |interval| in milliseconds whose length in nanoseconds, a Go
      `time.Duration`, fits in an int64. */
  const MaxExactMillis: int := 9_223_372_036_854

  /** The next execution time: the clock reading `later` plus the interval
      converted to a nanosecond `time.Duration`, an int64 product that wraps
      around. */
  function NextExecTime(later: Time, interval: Int64): (t: Time)
    ensures (t - (later + interval * 1_000_000)) % TwoTo64 == 0
    ensures MinInt64 <= t - later <= MaxInt64
    ensures -MaxExactMillis <= interval <= MaxExactMillis ==> t == later + interval * 1_000_000
  {
    var nanos := interval * 1_000_000;
    var d := Wrap64(nanos);
    assert (later + d) - (later + nanos) == d - nanos;
    later + d
  }

  /** One millisecond past the exact range the product wraps, and the next
      execution time lands before the clock reading it was computed from. */
  lemma NextExecTimeWraps(later: Time)
    ensures NextExecTime(later, MaxExactMillis + 1) < later
  {
  }

  /** How one message taken from the buffer by `processJob` ends: the body is
      not a job (logged, skipped), the process panics, or the job was handled
      (`executed` when the execution-time gate was met; `job` is the job as
      it stands afterwards; `resubmitted` when it was passed to
      `jobs.Enqueue`, whose error is only logged). */
  datatype Processed =
    | Undecodable
    | Crashed
    | Handled(executed: bool, job: Job, resubmitted: bool)

  /** After the gate decision: a recurring job goes back through the active
      backend; a panic there ends the process. */
  function Resubmit(slot: Doers.Slot, j: Job, executed: bool): (r: Processed)
    ensures r.Handled? ==> r.executed == executed && r.job == j && r.resubmitted == j.isRecurring
    ensures r.Crashed? <==> j.isRecurring && Doers.Enqueue(slot, j).Panicked?
    ensures !r.Undecodable?
  {
    if !j.isRecurring then Handled(executed, j, false)
    else if Doers.Enqueue(slot, j).Panicked? then Crashed
    else Handled(executed, j, true)
  }

  /** One pass of the `processJob` loop. `now` and `later` are the two clock
      readings it takes: the one compared with `ExecTime`, and the one the
      next `ExecTime` is computed from. */
  function ProcessMessage<E>(env: Env<E>, slot: Doers.Slot, body: Bytes, now: Time, later: Time): (r: Processed)
    ensures r.Undecodable? <==> DecodeJob(env.codec, body).Err?
    // the process dies exactly when a due job has no executor, or when the
    // re-enqueue of a job that stays recurring panics
    ensures r.Crashed? <==>
              && DecodeJob(env.codec, body).Ok?
              && var j := DecodeJob(env.codec, body).value;
                 if now >= j.execTime then
                   var ran := RunJob(env, j);
                   || ran.RunPanicked?
                   || (var next := ran.job.(execTime := NextExecTime(later, ran.job.interval));
                       next.isRecurring && Doers.Enqueue(slot, next).Panicked?)
                 else j.isRecurring && Doers.Enqueue(slot, j).Panicked?
    ensures r.Handled? ==> (r.executed <==> now >= DecodeJob(env.codec, body).value.execTime)
    ensures r.Handled? ==> (r.resubmitted <==> r.job.isRecurring)
    ensures r.Handled? && !r.executed ==> r.job == DecodeJob(env.codec, body).value
    ensures r.Handled? && r.executed ==>
              var ran := RunJob(env, DecodeJob(env.codec, body).value);
              ran.Ran? && r.job == ran.job.(execTime := NextExecTime(later, ran.job.interval))
  {
    match DecodeJob(env.codec, body)
    case Err(_) => Undecodable
    case Ok(j) =>
      if now >= j.execTime then
        match RunJob(env, j)
        case RunPanicked => Crashed
        case Ran(after, _) => Resubmit(slot, after.(execTime := NextExecTime(later, after.interval)), true)
      else
        Resubmit(slot, j, false)
  }

  /** The active backend accepts every job without panicking. */
  ghost predicate EnqueueNeverPanics(slot: Doers.Slot) {
    slot.Some? && forall j :: slot.value.enqueue(j).Returned?
  }

  /** A recurring job whose `Execute` reports an error is still re-enqueued,
      with a fresh `ExecTime`: the error is only logged. */
  lemma ResubmittedDespiteExecuteError<E>(env: Env<E>, slot: Doers.Slot, body: Bytes, now: Time, later: Time)
    requires DecodeJob(env.codec, body).Ok?
    requires var j := DecodeJob(env.codec, body).value;
             var ran := RunJob(env, j);
             && now >= j.execTime
             && ran.Ran? && ran.err.Some? && ran.job.isRecurring
    requires EnqueueNeverPanics(slot)
    ensures var ran := RunJob(env, DecodeJob(env.codec, body).value);
            ProcessMessage(env, slot, body, now, later)
            == Handled(true, ran.job.(execTime := NextExecTime(later, ran.job.interval)), true)
  {
  }

  /** Before its execution time a job is not run and keeps its `ExecTime`;
      it is re-enqueued unchanged when recurring and dropped otherwise. */
  lemma GateMissLeavesJobUnchanged<E>(env: Env<E>, slot: Doers.Slot, body: Bytes, now: Time, later: Time)
    requires DecodeJob(env.codec, body).Ok?
    requires now < DecodeJob(env.codec, body).value.execTime
    requires EnqueueNeverPanics(slot)
    ensures var j := DecodeJob(env.codec, body).value;
            ProcessMessage(env, slot, body, now, later) == Handled(false, j, j.isRecurring)
  {
  }

  /** A job that runs and stays recurring with a positive interval (in the
      exact range) comes back due `interval` milliseconds after the second
      clock reading, hence strictly after its previous execution time when
      the clock does not run backwards. */
  lemma RecurrenceAdvancesExecTime<E>(env: Env<E>, slot: Doers.Slot, body: Bytes, now: Time, later: Time)
    requires now <= later
    requires var r := ProcessMessage(env, slot, body, now, later);
             r.Handled? && r.executed && 0 < r.job.interval <= MaxExactMillis
    ensures var r := ProcessMessage(env, slot, body, now, later);
            && r.job.execTime == later + r.job.interval * 1_000_000
            && r.job.execTime > DecodeJob(env.codec, body).value.execTime
  {
  }

  /** A body that does not decode runs nothing and enqueues nothing. */
  lemma UndecodableIsDropped<E>(env: Env<E>, slot: Doers.Slot, body: Bytes, now: Time, later: Time)
    requires DecodeJob(env.codec, body).Err?
    ensures ProcessMessage(env, slot, body, now, later) == Undecodable
  {
  }

  /** A `null` body decodes without error into the zero job, which is due at
      any clock reading after year 1 and has no payload, so no executor: the
      process dies. */
  lemma NullBodyCrashes<E>(env: Env<E>, slot: Doers.Slot, body: Bytes, now: Time, later: Time)
    requires env.codec.unmarshalJob(body) == Ok(None)
    requires now >= ZeroTime
    ensures ProcessMessage(env, slot, body, now, later) == Crashed
  {
  }

  /** The nil executor is not guarded against: a due job whose dispatch fails
      panics. */
  lemma NilExecutorCrashes<E>(env: Env<E>, slot: Doers.Slot, body: Bytes, now: Time, later: Time)
    requires DecodeJob(env.codec, body).Ok?
    requires now >= DecodeJob(env.codec, body).value.execTime
    requires !GetExecutor(env, DecodeJob(env.codec, body).value).Resolved?
    ensures ProcessMessage(env, slot, body, now, later) == Crashed
  {
  }

  // ---------------------------------------------------------------------
  // Enqueue

  /** A send as `SendMessageWithAttributes` receives it. */
  datatype SendRequest = SendRequest(region: string, queue: string, body: Bytes, delaySeconds: string)

  /** The queue service: the friendly region names that have a client, the
      error (if any) of looking up a queue by region and name, and the error
      (if any) of a send. */
  datatype Service = Service(
    regions: set<string>,
    getQueue: (string, string) -> Option<Error>,
    send: SendRequest -> Option<Error>)

  /** The error the region lookup reports for an unknown name. */
  const RegionNotFound: Error := GoError("Region Name Not found")

  /** The stages of `Enqueue`, in the order it performs them. */
  datatype Stage = RegionLookup | QueueLookup | Marshal | Send

  const EnqueueStages: seq<Stage> := [RegionLookup, QueueLookup, Marshal, Send]

  /** What `Enqueue` did: the stages it reached, the request it sent (if
      it got that far) and the error it returned. */
  datatype Sent = Sent(stages: seq<Stage>, request: Option<SendRequest>, err: Option<Error>)

  /** `sqsdoer.Enqueue`: the first failing stage ends the call with its own
      error, and only a job that passes the first three stages is sent, with
      the delay derived from its interval. */
  function Enqueue(svc: Service, codec: Codec, j: Job): (r: Sent)
    ensures 1 <= |r.stages| <= |EnqueueStages| && r.stages == EnqueueStages[..|r.stages|]
    ensures |r.stages| < |EnqueueStages| ==> r.err.Some? && r.request.None?
    ensures r.stages == [RegionLookup] <==> j.queueRegion !in svc.regions
    ensures r.stages == [RegionLookup] ==> r.err == Some(RegionNotFound)
    ensures |r.stages| == 2 ==> r.err == svc.getQueue(j.queueRegion, j.queue)
    ensures |r.stages| >= 3 ==> svc.getQueue(j.queueRegion, j.queue).None?
    ensures |r.stages| == 3 ==> codec.marshalJob(j).Err? && r.err == Some(codec.marshalJob(j).error)
    ensures r.request.Some? <==> |r.stages| == |EnqueueStages|
    ensures r.request.Some? ==>
              && codec.marshalJob(j).Ok?
              && r.request.value == SendRequest(j.queueRegion, j.queue, codec.marshalJob(j).value, GetDelaySeconds(j.interval))
              && r.err == svc.send(r.request.value)
  {
    if j.queueRegion !in svc.regions then Sent([RegionLookup], None, Some(RegionNotFound))
    else if svc.getQueue(j.queueRegion, j.queue).Some? then
      Sent([RegionLookup, QueueLookup], None, svc.getQueue(j.queueRegion, j.queue))
    else
      match codec.marshalJob(j)
      case Err(e) => Sent([RegionLookup, QueueLookup, Marshal], None, Some(e))
      case Ok(body) =>
        var req := SendRequest(j.queueRegion, j.queue, body, GetDelaySeconds(j.interval));
        Sent(EnqueueStages, Some(req), svc.send(req))
  }

  /** `Enqueue` succeeds exactly when every stage does. */
  lemma EnqueueSucceedsIffAllStagesDo(svc: Service, codec: Codec, j: Job)
    ensures Enqueue(svc, codec, j).err.None?
        <==> && j.queueRegion in svc.regions
             && svc.getQueue(j.queueRegion, j.queue).None?
             && codec.marshalJob(j).Ok?
             && svc.send(SendRequest(j.queueRegion, j.queue, codec.marshalJob(j).value, GetDelaySeconds(j.interval))).None?
  {
  }

  // ---------------------------------------------------------------------
  // Receive loop of Monitor

  /** A message as the receive call returns it. */
  datatype Message = Message(messageId: string, body: Bytes)

  /** What the service answers in one iteration: the result of receiving at
      most one message, and the error (if any) of deleting it. */
  datatype ReceiveIO = ReceiveIO(received: Result<seq<Message>>, deleteErr: Option<Error>)

  /** The calls one iteration makes: a receive (whether it succeeded and how
      many messages it returned), a delete of a message (whether it
      succeeded), and the hand-off of a message to the processing buffer. */
  datatype QueueCall = ReceiveCall(ok: bool, count: nat) | DeleteCall(m: Message, ok: bool) | Buffer(m: Message)

  /** The messages handed to the buffer, in order. */
  function Buffered(calls: seq<QueueCall>): (ms: seq<Message>)
    ensures |ms| <= |calls|
  {
    if |calls| == 0 then []
    else (if calls[0].Buffer? then [calls[0].m] else []) + Buffered(calls[1..])
  }

  lemma {:induction false} BufferedAppend(a: seq<QueueCall>, b: seq<QueueCall>)
    ensures Buffered(a + b) == Buffered(a) + Buffered(b)
    decreases |a|
  {
    if |a| == 0 {
      assert a + b == b;
    } else {
      var head := if a[0].Buffer? then [a[0].m] else [];
      assert (a + b)[0] == a[0];
      assert (a + b)[1..] == a[1..] + b;
      assert Buffered(a + b) == head + Buffered(a[1..] + b);
      BufferedAppend(a[1..], b);
    }
  }

  /** One iteration of the `for` loop of `Monitor`: receive; on an error or
      an empty answer, start over; otherwise delete the first message and,
      only when the delete succeeded, hand it to the buffer. */
  function ReceiveIteration(io: ReceiveIO): (calls: seq<QueueCall>)
    ensures 1 <= |calls| && calls[0] == ReceiveCall(io.received.Ok?, if io.received.Ok? then |io.received.value| else 0)
    // a failed or empty receive, and a failed delete, end the iteration
    ensures |calls| == (if io.received.Ok? && |io.received.value| >= 1
                        then (if io.deleteErr.None? then 3 else 2) else 1)
    ensures Buffered(calls)
         == (if io.received.Ok? && |io.received.value| >= 1 && io.deleteErr.None?
             then [io.received.value[0]] else [])
    ensures io.received.Ok? && |io.received.value| >= 1 ==>
              |calls| >= 2 && calls[1] == DeleteCall(io.received.value[0], io.deleteErr.None?)
    ensures forall k :: 0 <= k < |calls| && calls[k].Buffer? ==> k == 2 && calls[1] == DeleteCall(calls[k].m, true)
  {
    match io.received
    case Err(_) => [ReceiveCall(false, 0)]
    case Ok(msgs) =>
      if |msgs| < 1 then [ReceiveCall(true, 0)]
      else
        var m := msgs[0];
        if io.deleteErr.Some? then
          var calls := [ReceiveCall(true, |msgs|), DeleteCall(m, false)];
          assert Buffered(calls) == [] by {
            assert calls[1..][1..] == [];
          }
          calls
        else
          var calls := [ReceiveCall(true, |msgs|), DeleteCall(m, true), Buffer(m)];
          assert Buffered(calls) == [m] by {
            assert calls[1..] == [DeleteCall(m, true), Buffer(m)];
            assert calls[1..][1..] == [Buffer(m)];
            assert calls[1..][1..][1..] == [];
            assert Buffered(calls[1..][1..]) == [m] + Buffered(calls[1..][1..][1..]);
            assert Buffered(calls[1..]) == Buffered(calls[1..][1..]);
          }
          calls
  }

  /** The calls of successive iterations. */
  function ReceiveLoop(ios: seq<ReceiveIO>): (calls: seq<QueueCall>)
  {
    if |ios| == 0 then [] else ReceiveIteration(ios[0]) + ReceiveLoop(ios[1..])
  }

  /** Every hand-off to the buffer comes right after a successful delete of
      the same message. */
  ghost predicate BufferAfterDelete(calls: seq<QueueCall>) {
    forall k :: 0 <= k < |calls| && calls[k].Buffer? ==> 1 <= k && calls[k - 1] == DeleteCall(calls[k].m, true)
  }

  /** Over any number of iterations, every message reaches the buffer right
      after a successful delete of that same message. */
  lemma {:induction false} DeleteBeforeBuffer(ios: seq<ReceiveIO>)
    ensures BufferAfterDelete(ReceiveLoop(ios))
    decreases |ios|
  {
    if |ios| > 0 {
      var first := ReceiveIteration(ios[0]);
      var rest := ReceiveLoop(ios[1..]);
      DeleteBeforeBuffer(ios[1..]);
      assert BufferAfterDelete(rest);
      var calls := first + rest;
      assert ReceiveLoop(ios) == calls;
      forall k | 0 <= k < |calls| && calls[k].Buffer?
        ensures 1 <= k && calls[k - 1] == DeleteCall(calls[k].m, true)
      {
        if k < |first| {
          assert calls[k] == first[k];
          assert calls[k - 1] == first[k - 1];
        } else {
          var k' := k - |first|;
          assert calls[k] == rest[k'];
          assert rest[k'].Buffer?;
          assert 1 <= k' && rest[k' - 1] == DeleteCall(rest[k'].m, true);
          assert calls[k - 1] == rest[k' - 1];
        }
      }
    }
  }

  /** At most one message reaches the buffer per iteration. */
  lemma {:induction false} AtMostOnePerIteration(ios: seq<ReceiveIO>)
    ensures |Buffered(ReceiveLoop(ios))| <= |ios|
    decreases |ios|
  {
    if |ios| > 0 {
      BufferedAppend(ReceiveIteration(ios[0]), ReceiveLoop(ios[1..]));
      AtMostOnePerIteration(ios[1..]);
    }
  }

  /** How `Monitor` goes: it returns when the region or the queue cannot be
      found; otherwise it polls for ever, making the calls of its receive
      loop. */
  datatype Monitoring = SetupFailed(err: Error) | Polling(calls: seq<QueueCall>)

  /** `sqsdoer.Monitor` over the service answers of its first `|ios|`
      iterations. */
  function Monitor(svc: Service, c: Config, ios: seq<ReceiveIO>): (r: Monitoring)
    ensures c.regionName !in svc.regions ==> r == SetupFailed(RegionNotFound)
    ensures r.SetupFailed? <==> c.regionName !in svc.regions || svc.getQueue(c.regionName, c.queueName).Some?
    ensures r.Polling? ==> r.calls == ReceiveLoop(ios)
  {
    if c.regionName !in svc.regions then SetupFailed(RegionNotFound)
    else
      match svc.getQueue(c.regionName, c.queueName)
      case Some(e) => SetupFailed(e)
      case None => Polling(ReceiveLoop(ios))
  }
}
