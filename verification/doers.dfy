/**
 The backend-neutral transport (jobs/doer.go): one process-wide slot holding
 the active backend, and `Enqueue` / `Monitor` forwarding to it.
 */
module Doers {
  import opened Base
  import opened Jobs

  /** A backend, by what its two methods do: `enqueue` with the outcome of
      `Enqueue(j)`, `monitor` with the way `Monitor(c)` ends. */
  datatype Doer = Doer(enqueue: Job -> Outcome, monitor: Config -> Outcome)

  /** The global `doer` variable: a nil interface until a backend registers. */
  type Slot = Option<Doer>

  const Unregistered: Slot := None

  /** `RegisterDoer`: the slot holds `d` from now on, whatever it held. */
  function RegisterDoer(slot: Slot, d: Doer): (r: Slot)
    ensures r.Some?
    ensures forall j :: r.value.enqueue(j) == d.enqueue(j)
    ensures forall c :: r.value.monitor(c) == d.monitor(c)
  {
    Some(d)
  }

  /** `jobs.Enqueue`: hands the job, unchanged, to the active backend and
      returns that backend's outcome unmodified; with no backend registered
      the method call on the nil interface panics. */
  function Enqueue(slot: Slot, j: Job): (r: Outcome)
    ensures slot.None? ==> r == Panicked
    ensures slot.Some? ==> r == slot.value.enqueue(j)
  {
    match slot
    case None => Panicked
    case Some(d) => d.enqueue(j)
  }

  /** `jobs.Monitor`: runs the active backend's `Monitor` with the same
      configuration; with no backend registered it panics. */
  function Monitor(slot: Slot, c: Config): (r: Outcome)
    ensures slot.None? ==> r == Panicked
    ensures slot.Some? ==> r == slot.value.monitor(c)
  {
    match slot
    case None => Panicked
    case Some(d) => d.monitor(c)
  }

  /** Of two registrations the later one receives every `Enqueue` and
      `Monitor` call, whatever was registered before. */
  lemma LastDoerWins(slot: Slot, first: Doer, second: Doer, j: Job, c: Config)
    ensures Enqueue(RegisterDoer(RegisterDoer(slot, first), second), j) == second.enqueue(j)
    ensures Monitor(RegisterDoer(RegisterDoer(slot, first), second), c) == second.monitor(c)
  {
  }

  /** Before any registration both entry points panic. */
  lemma UnregisteredPanics(j: Job, c: Config)
    ensures Enqueue(Unregistered, j) == Panicked
    ensures Monitor(Unregistered, c) == Panicked
  {
  }
}
