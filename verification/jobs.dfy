/**
 The job record, the executor registry and the dispatch protocol that turns a
 job's type tag and opaque payload into a populated executor (jobs/job.go).

 The JSON encoder/decoder and the reflection behind it are foreign code: they
 appear here as the partial functions of a `Codec` and an `Executors` record.
 The two places where the core's behaviour hinges on JSON `null` are modelled
 explicitly instead: a nil `JobData` map encodes as `null`, which decodes into
 the nil executor; and a message body that is `null` decodes into a nil `*Job`
 or leaves a `Job` value at its zero value, depending on the target.
 */
module Jobs {
  import opened Base

  /** A value held in `JobData` (a Go `interface{}` built by encoding/json).
      `Unencodable` stands for a Go value encoding/json refuses to marshal
      (a channel, a function, a NaN). */
  datatype Json =
    | Null
    | Boolean(b: bool)
    | Number(n: int)
    | Text(s: string)
    | List(items: seq<Json>)
    | Object(fields: map<string, Json>)
    | Unencodable

  /** One unit of deferred work, as it travels in a queue message. */
  datatype Job = Job(
    id: string,
    enqueueTime: Time,
    jobType: string,        // key into the executor registry
    interval: Int64,        // milliseconds
    routingKey: string,
    queue: string,
    queueRegion: string,
    isRecurring: bool,
    execTime: Time,
    jobData: Option<map<string, Json>>)   // None is the nil map

  /** The argument of `Monitor`. */
  datatype Config = Config(queueName: string, regionName: string)

  /** The JSON calls the core makes, as partial functions. `marshalData`
      encodes a non-nil payload map (a nil one always encodes as `null`);
      `unmarshalJob` decodes a message body, giving `Ok(None)` exactly when
      the body is the JSON literal `null`. */
  datatype Codec = Codec(
    marshalData: map<string, Json> -> Result<Bytes>,
    marshalJob: Job -> Result<Bytes>,
    unmarshalJob: Bytes -> Result<Option<Job>>)

  /** Go's zero `time.Time`, January 1 of year 1, 00:00:00 UTC. */
  const ZeroTime: Time := -62_135_596_800_000_000_000

  /** The zero `Job`: every string empty, every flag false, no payload. */
  const ZeroJob: Job := Job("", ZeroTime, "", 0, "", "", "", false, ZeroTime, None)

  /** Decoding a message body into a `Job` value rather than a `*Job`: a
      `null` body leaves the value as it was declared, the zero job. */
  function DecodeJob(codec: Codec, body: Bytes): (r: Result<Job>)
    ensures r.Err? <==> codec.unmarshalJob(body).Err?
    ensures codec.unmarshalJob(body) == Ok(None) ==> r == Ok(ZeroJob)
    ensures codec.unmarshalJob(body).Ok? && codec.unmarshalJob(body).value.Some? ==>
              r == Ok(codec.unmarshalJob(body).value.value)
  {
    match codec.unmarshalJob(body)
    case Err(e) => Err(e)
    case Ok(None) => Ok(ZeroJob)
    case Ok(Some(j)) => Ok(j)
  }

  /** What the core does with executor values of dynamic type `E`:
      `New()`, decoding a payload into an instance through reflection, and
      `Execute`, which reports an error or nil and may change the job it is
      given (the job as `Execute` left it is the first component). */
  datatype Executors<!E> = Executors(
    newInstance: E -> E,
    populate: (E, Bytes) -> Option<E>,
    execute: (E, Job) -> (Job, Option<Error>))

  /** The process-wide state a consumer dispatches with: the registry of
      prototypes by job type, the executor behaviour and the codec. */
  datatype Env<!E> = Env(registry: map<string, E>, executors: Executors<E>, codec: Codec)

  /** `RegisterExecutor`: store `prototype` under `jobType`; no uniqueness
      check, so an earlier registration for the same type is overwritten. */
  function RegisterExecutor<E>(registry: map<string, E>, jobType: string, prototype: E): (r: map<string, E>)
    ensures r.Keys == registry.Keys + {jobType}
    ensures r[jobType] == prototype
    ensures forall t :: t in registry && t != jobType ==> r[t] == registry[t]
  {
    registry[jobType := prototype]
  }

  /** Registering twice under one type leaves only the second registration. */
  lemma LastRegistrationWins<E>(registry: map<string, E>, jobType: string, first: E, second: E)
    ensures RegisterExecutor(RegisterExecutor(registry, jobType, first), jobType, second)
         == RegisterExecutor(registry, jobType, second)
  {
  }

  /** Registrations under different types do not interfere: their order does
      not matter. */
  lemma RegistrationsCommute<E>(registry: map<string, E>, t1: string, e1: E, t2: string, e2: E)
    requires t1 != t2
    ensures RegisterExecutor(RegisterExecutor(registry, t1, e1), t2, e2)
         == RegisterExecutor(RegisterExecutor(registry, t2, e2), t1, e1)
  {
  }

  /** What `GetExecutor` produces: a populated fresh executor, the nil
      executor, or a panic from dereferencing the nil registry entry of an
      unregistered type. */
  datatype Dispatch<E> = Resolved(executor: E) | NilExecutor | NilDereference

  /** Whether the payload fails to encode. A nil payload always encodes, as
      `null`. */
  predicate MarshalFails(codec: Codec, j: Job) {
    j.jobData.Some? && codec.marshalData(j.jobData.value).Err?
  }

  /** `Job.GetExecutor`: marshal the payload, then look up the prototype,
      take a fresh instance with `New()` and populate it from the payload.
      Populating from `null` sets the instance to nil without an error. The
      registry is an argument, not a result: the call reads it and leaves it
      as it was. */
  function GetExecutor<E>(env: Env<E>, j: Job): (r: Dispatch<E>)
    ensures MarshalFails(env.codec, j) ==> r == NilExecutor
    ensures r == NilDereference <==> !MarshalFails(env.codec, j) && j.jobType !in env.registry
    ensures r.Resolved? ==>
              && j.jobData.Some?
              && env.codec.marshalData(j.jobData.value).Ok?
              && j.jobType in env.registry
              && env.executors.populate(env.executors.newInstance(env.registry[j.jobType]),
                                        env.codec.marshalData(j.jobData.value).value) == Some(r.executor)
  {
    match j.jobData
    case None =>
      if j.jobType !in env.registry then NilDereference else NilExecutor
    case Some(payload) =>
      match env.codec.marshalData(payload)
      case Err(_) => NilExecutor
      case Ok(data) =>
        if j.jobType !in env.registry then NilDereference
        else
          match env.executors.populate(env.executors.newInstance(env.registry[j.jobType]), data)
          case None => NilExecutor
          case Some(e) => Resolved(e)
  }

  /** A payload that cannot be marshalled yields the nil executor whatever
      the registry holds: the registry is not consulted, so not even an
      unregistered type panics. */
  lemma MarshalFailureIgnoresRegistry<E>(env: Env<E>, other: map<string, E>, j: Job)
    requires MarshalFails(env.codec, j)
    ensures GetExecutor(env, j) == GetExecutor(env.(registry := other), j) == NilExecutor
  {
  }

  /** A registered type whose payload marshals, but whose fresh instance
      cannot be populated from it, yields the nil executor. */
  lemma PopulateFailureIsNil<E>(env: Env<E>, j: Job)
    requires j.jobData.Some? && env.codec.marshalData(j.jobData.value).Ok?
    requires j.jobType in env.registry
    requires env.executors.populate(env.executors.newInstance(env.registry[j.jobType]),
                                    env.codec.marshalData(j.jobData.value).value).None?
    ensures GetExecutor(env, j) == NilExecutor
  {
  }

  /** Dispatch reads only the job's type and payload: jobs that agree on
      those two fields dispatch identically, whatever their other fields. */
  lemma DispatchReadsTypeAndData<E>(env: Env<E>, j1: Job, j2: Job)
    requires j1.jobType == j2.jobType && j1.jobData == j2.jobData
    ensures GetExecutor(env, j1) == GetExecutor(env, j2)
  {
  }

  /** After `RegisterExecutor(t, p)`, a job of type `t` whose payload
      marshals dispatches to a fresh instance of `p` populated from that
      payload (or to nil when populating fails). */
  lemma DispatchAfterRegister<E>(env: Env<E>, t: string, p: E, j: Job)
    requires j.jobType == t
    requires j.jobData.Some? && env.codec.marshalData(j.jobData.value).Ok?
    ensures var pop := env.executors.populate(env.executors.newInstance(p), env.codec.marshalData(j.jobData.value).value);
            GetExecutor(env.(registry := RegisterExecutor(env.registry, t, p)), j)
            == (if pop.Some? then Resolved(pop.value) else NilExecutor)
  {
  }

  /** A job without a payload never gets an executor: its nil map encodes as
      `null`, and populating the fresh instance from `null` sets it to nil.
      An empty payload is different: it encodes as `{}` and can resolve. */
  lemma NilPayloadNeverResolves<E>(env: Env<E>, j: Job)
    requires j.jobData.None?
    ensures GetExecutor(env, j) == (if j.jobType in env.registry then NilExecutor else NilDereference)
    ensures RunJob(env, j) == RunPanicked
  {
  }

  /** Registering another type leaves the dispatch of a job unchanged. */
  lemma OtherRegistrationsDoNotAffectDispatch<E>(env: Env<E>, t: string, p: E, j: Job)
    requires j.jobType != t
    ensures GetExecutor(env.(registry := RegisterExecutor(env.registry, t, p)), j) == GetExecutor(env, j)
  {
  }

  /** The result of dispatching a job and calling `Execute` on what dispatch
      returns, as both backends do: `Execute` runs on the resolved executor,
      and calling it on the nil executor (or reaching the nil registry entry)
      panics. */
  datatype Run = Ran(job: Job, err: Option<Error>) | RunPanicked

  function RunJob<E>(env: Env<E>, j: Job): (r: Run)
    ensures r.RunPanicked? <==> !GetExecutor(env, j).Resolved?
    ensures r.Ran? ==> (r.job, r.err) == env.executors.execute(GetExecutor(env, j).executor, j)
  {
    match GetExecutor(env, j)
    case Resolved(e) =>
      var (after, err) := env.executors.execute(e, j);
      Ran(after, err)
    case _ => RunPanicked
  }
}
