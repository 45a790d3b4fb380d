/** The limiter as a state machine. Each mutex section of the source is one atomic
    function on the shared state; each worker goroutine is a program counter. */
module LimiterSpec {
  import opened Options
  import opened JobQueue

  /** Zero maxInFlight means unlimited. */
  datatype Config = Config(maxInFlight: nat, workQueueLimit: nat)

  /** One jobState object. Objects are told apart by a number that is never reused,
      because the source compares them by pointer. `admitted` records whether the
      object was made by a worker's dequeue or by an informer event. */
  datatype Entry = Entry(attempt: nat, admitted: bool, observed: bool, finished: bool)

  /** What happened to the slots, in order. This is history: no step reads it. */
  datatype Event =
    | Occupied(id: string, attempt: nat, admitted: bool)
    | Vacated(id: string, attempt: nat)
    | Observed(id: string, attempt: nat)
    | Forgotten(id: string, attempt: nat, deleted: bool)

  /** The fields guarded by the mutex. `generation` counts replacements of the
      notification channel: a channel of an older generation is closed. */
  datatype Shared = Shared(
    queue: seq<Job>, paused: bool, stopping: bool, intakeDone: bool,
    jobs: map<string, Entry>, inFlight: int,
    generation: nat, nextAttempt: nat, log: seq<Event>)

  const DEFAULT_JOB_CREATION_CONCURRENCY := 25
  const DEFAULT_WORK_QUEUE_LIMIT := 1_000_000

  const INITIAL := Shared([], false, false, false, map[], 0, 0, 0, [])

  // ---- Mutex sections ----------------------------------------------------

  function Notify(s: Shared): Shared {
    s.(generation := s.generation + 1)
  }

  predicate AtCapacity(cfg: Config, s: Shared) {
    cfg.maxInFlight > 0 && s.inFlight >= cfg.maxInFlight
  }

  predicate Ready(cfg: Config, s: Shared) {
    !s.paused && !AtCapacity(cfg, s) && |s.queue| > 0
  }

  datatype Intake = Accepted | CallerCancelled | Refused

  function HandleMany(cfg: Config, s: Shared, callerDone: bool, jobs: seq<Job>): (Shared, Intake) {
    if callerDone then (s, CallerCancelled)
    else if s.stopping || s.intakeDone then (s, Refused)
    else if s.queue + jobs == [] then (s, Accepted)
    else (Notify(s.(queue := Enqueued(s.queue, jobs, cfg.workQueueLimit))), Accepted)
  }

  /** The rest of the queue from its first job without a known state. */
  function SkipKnown(q: seq<Job>, jobs: map<string, Entry>): (rest: seq<Job>)
    ensures rest == [] || rest[0].id !in jobs
  {
    if q == [] || q[0].id !in jobs then q else SkipKnown(q[1..], jobs)
  }

  /** A new state object for an id that has none. */
  function Begin(s: Shared, id: string, admitted: bool, finished: bool): Shared
    requires id !in s.jobs
  {
    s.(jobs := s.jobs[id := Entry(s.nextAttempt, admitted, false, finished)],
       inFlight := if finished then s.inFlight else s.inFlight + 1,
       nextAttempt := s.nextAttempt + 1,
       log := if finished then s.log else s.log + [Occupied(id, s.nextAttempt, admitted)])
  }

  function TryDequeue(cfg: Config, s: Shared): (Shared, Option<(Job, nat)>) {
    if s.stopping || s.intakeDone || s.paused || AtCapacity(cfg, s) then (s, None)
    else
      var q := SkipKnown(s.queue, s.jobs);
      if q == [] then (s.(queue := []), None)
      else (Notify(Begin(s.(queue := q[1..]), q[0].id, true, false)), Some((q[0], s.nextAttempt)))
  }

  function MarkObserved(s: Shared, id: string): Shared
    requires id in s.jobs
  {
    s.(jobs := s.jobs[id := s.jobs[id].(observed := true)], log := s.log + [Observed(id, s.jobs[id].attempt)])
  }

  function Finish(s: Shared, id: string): Shared
    requires id in s.jobs
  {
    s.(jobs := s.jobs[id := s.jobs[id].(finished := true)], inFlight := s.inFlight - 1,
       log := s.log + [Vacated(id, s.jobs[id].attempt)])
  }

  function Forget(s: Shared, id: string, deleted: bool): Shared
    requires id in s.jobs
  {
    s.(jobs := s.jobs - {id}, log := s.log + [Forgotten(id, s.jobs[id].attempt, deleted)])
  }

  /** The entry for id after Kubernetes reports its Job: created if unknown, and observed. */
  function Sighted(s: Shared, id: string, finished: bool): Shared {
    MarkObserved(if id in s.jobs then s else Begin(s, id, false, finished), id)
  }

  /** A terminal or deleted Job gives back its slot, once; a deleted one is forgotten. */
  function Concluded(s: Shared, id: string, finished: bool, deleted: bool): Shared
    requires id in s.jobs
  {
    var t := if !s.jobs[id].finished && (deleted || finished) then Finish(s, id) else s;
    if deleted then Forget(t, id, true) else t
  }

  /** An add, update or delete event for the Kubernetes Job labelled with id. */
  function Observe(s: Shared, id: string, finished: bool, deleted: bool): Shared {
    if id == "" || (id !in s.jobs && deleted) then s
    else
      var t := Concluded(Sighted(s, id, finished), id, finished, deleted);
      if t.inFlight != s.inFlight then Notify(t) else t
  }

  /** A worker returns with an error from the attempt it holds. */
  function HandlerFailed(s: Shared, id: string, attempt: nat): Shared {
    if id in s.jobs && s.jobs[id].attempt == attempt && !s.jobs[id].observed then
      Notify(Forget(s.(inFlight := s.inFlight - 1, log := s.log + [Vacated(id, attempt)]), id, false))
    else s
  }

  function Pause(s: Shared, paused: bool): Shared {
    Notify(s.(paused := paused))
  }

  function Drain(s: Shared): Shared {
    Notify(s.(stopping := true, queue := []))
  }

  // ---- Workers -----------------------------------------------------------

  /** Where a worker goroutine is: at the top of its loop, parked on the channel of
      one generation, past the wait, about to dequeue, in the next handler with the
      job and state it holds, or returned. */
  datatype Worker =
    | AtTop
    | Parked(generation: nat)
    | Woken
    | Dequeuing
    | Handling(job: Job, attempt: nat)
    | Exited

  datatype Outcome = Proceed | ContextDone | HandlerError

  /** One move of a worker, or None when it cannot make that move. */
  function Move(cfg: Config, s: Shared, w: Worker, outcome: Outcome): Option<(Shared, Worker)> {
    match (w, outcome)
    case (AtTop, Proceed) =>
      Some((s, if s.stopping then Exited else if Ready(cfg, s) then Woken else Parked(s.generation)))
    case (Parked(g), Proceed) => if g < s.generation then Some((s, Woken)) else None
    case (Parked(_), ContextDone) => if s.intakeDone then Some((s, Exited)) else None
    case (Woken, Proceed) => Some((s, if s.intakeDone then Exited else Dequeuing))
    case (Dequeuing, Proceed) =>
      var (t, got) := TryDequeue(cfg, s);
      Some((t, if got.None? then AtTop else Handling(got.value.0, got.value.1)))
    case (Handling(_, _), Proceed) => Some((s, AtTop))
    case (Handling(job, attempt), HandlerError) => Some((HandlerFailed(s, job.id, attempt), AtTop))
    case _ => None
  }

  // ---- Runs --------------------------------------------------------------

  datatype State = State(shared: Shared, workers: seq<Worker>)

  datatype Step =
    | Poll(callerDone: bool, jobs: seq<Job>)
    | SetPaused(paused: bool)
    | Informer(id: string, finished: bool, deleted: bool)
    | StartDrain
    | StopIntake
    | Work(w: nat, outcome: Outcome)

  function Start(workers: nat): State {
    State(INITIAL, seq(workers, _ => AtTop))
  }

  /** What New starts, or None where it panics. Whatever it is given, there is a worker and room for
      a job. */
  function New(maxInFlight: int, concurrency: int, workQueueLimit: int): (r: Option<(Config, State)>)
    ensures r.None? <==> maxInFlight < 0
    ensures r.Some? ==> r.value.1 == Start(|r.value.1.workers|) && |r.value.1.workers| > 0 && r.value.0.workQueueLimit > 0
  {
    if maxInFlight < 0 then None
    else Some((Config(maxInFlight, if workQueueLimit <= 0 then DEFAULT_WORK_QUEUE_LIMIT else workQueueLimit),
               Start(if concurrency <= 0 then DEFAULT_JOB_CREATION_CONCURRENCY else concurrency)))
  }

  predicate Enabled(cfg: Config, s: State, step: Step) {
    step.Work? ==> step.w < |s.workers| && Move(cfg, s.shared, s.workers[step.w], step.outcome).Some?
  }

  /** One atomic step. A worker move that is not possible changes nothing. */
  function Apply(cfg: Config, s: State, step: Step): State {
    match step
    case Poll(callerDone, jobs) => s.(shared := HandleMany(cfg, s.shared, callerDone, jobs).0)
    case SetPaused(paused) => s.(shared := Pause(s.shared, paused))
    case Informer(id, finished, deleted) => s.(shared := Observe(s.shared, id, finished, deleted))
    case StartDrain => s.(shared := Drain(s.shared))
    case StopIntake => s.(shared := s.shared.(intakeDone := true))
    case Work(w, outcome) =>
      if Enabled(cfg, s, step) then
        var m := Move(cfg, s.shared, s.workers[w], outcome).value;
        State(m.0, s.workers[w := m.1])
      else s
  }

  function Run(cfg: Config, s: State, steps: seq<Step>): State
    decreases |steps|
  {
    if steps == [] then s else Run(cfg, Apply(cfg, s, steps[0]), steps[1..])
  }
}
