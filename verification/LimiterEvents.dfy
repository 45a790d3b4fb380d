/** What the events mean: what an informer event, a poll, a dequeue, a control call and a worker's
    return do to the slots, the queue and the workers, stated about the inputs of the event. */
module LimiterEvents {
  import opened Options
  import opened JobQueue
  import opened LimiterSpec
  import opened LimiterInvariants
  import opened LimiterRuns

  // ---- Informer events ---------------------------------------------------

  /** id has a slot. */
  predicate Occupies(jobs: map<string, Entry>, id: string) {
    id in jobs && !jobs[id].finished
  }

  predicate KnownFinished(jobs: map<string, Entry>, id: string) {
    id in jobs && jobs[id].finished
  }

  /** What an event for id leaves of id: it has a slot exactly if its Job is there and not finished and
      was never known to be; it is known exactly if its Job is there, and is then observed, as the
      attempt it was. */
  ghost predicate EntryFollows(s: Shared, t: Shared, id: string, finished: bool, deleted: bool) {
    && (Occupies(t.jobs, id) <==> !finished && !deleted && !KnownFinished(s.jobs, id))
    && (id in t.jobs <==> !deleted)
    && (id in t.jobs ==>
          && t.jobs[id].observed
          && t.jobs[id].attempt == Concerned(s, id)
          && t.jobs[id].admitted == (id in s.jobs && s.jobs[id].admitted))
  }

  /** The entries of all other ids are as they were. */
  ghost predicate OthersStay(s: Shared, t: Shared, id: string) {
    forall o :: o != id ==> (o in t.jobs <==> o in s.jobs) && (o in t.jobs ==> t.jobs[o] == s.jobs[o])
  }

  /** The counter follows id's slot, and the workers are woken exactly if it moves. */
  ghost predicate CounterFollows(s: Shared, t: Shared, id: string) {
    && t.inFlight - s.inFlight == (if Occupies(t.jobs, id) then 1 else 0) - (if Occupies(s.jobs, id) then 1 else 0)
    && t.generation - s.generation == (if Occupies(t.jobs, id) == Occupies(s.jobs, id) then 0 else 1)
  }

  /** An informer event by what it says about id's Job, whatever the limiter knew before. Nothing but the
      entry, the counter and the channel moves. */
  lemma ObserveMeans(s: Shared, id: string, finished: bool, deleted: bool)
    requires id != ""
    ensures var t := Observe(s, id, finished, deleted);
            && EntryFollows(s, t, id, finished, deleted)
            && OthersStay(s, t, id)
            && CounterFollows(s, t, id)
            && t.queue == s.queue && t.paused == s.paused && t.stopping == s.stopping && t.intakeDone == s.intakeDone
  {
    ObserveEntry(s, id, finished, deleted);
    ObserveOthers(s, id, finished, deleted);
    ObserveCounter(s, id, finished, deleted);
  }

  lemma ObserveEntry(s: Shared, id: string, finished: bool, deleted: bool)
    requires id != ""
    ensures EntryFollows(s, Observe(s, id, finished, deleted), id, finished, deleted)
  {
  }

  lemma ObserveOthers(s: Shared, id: string, finished: bool, deleted: bool)
    requires id != ""
    ensures OthersStay(s, Observe(s, id, finished, deleted), id)
  {
    if id in s.jobs || !deleted {
      var sighted := Sighted(s, id, finished);
      assert OthersStay(s, sighted, id);
      assert OthersStay(sighted, Concluded(sighted, id, finished, deleted), id);
    }
  }

  lemma ObserveCounter(s: Shared, id: string, finished: bool, deleted: bool)
    requires id != ""
    ensures CounterFollows(s, Observe(s, id, finished, deleted), id)
  {
  }

  /** The attempt an event for id is about: the known one, or the one the event makes. */
  function Concerned(s: Shared, id: string): nat {
    if id in s.jobs then s.jobs[id].attempt else s.nextAttempt
  }

  lemma ObserveFrees(s: Shared, id: string, finished: bool, deleted: bool)
    requires Accounting(s) && id != "" && (finished || deleted) && (id in s.jobs || !deleted)
    ensures var t := Observe(s, id, finished, deleted);
            !Holds(t.jobs, Concerned(s, id)) && Concerned(s, id) < t.nextAttempt
  {
    ObserveMeans(s, id, finished, deleted);
  }

  lemma FreeStaysFree(s: Shared, t: Shared, a: nat)
    requires Evolves(s, t) && a < s.nextAttempt && !Holds(s.jobs, a)
    ensures !Holds(t.jobs, a) && a < t.nextAttempt
  {
    forall o | o in t.jobs && t.jobs[o].attempt == a ensures t.jobs[o].finished {
      assert o in s.jobs && s.jobs[o].attempt == a;
      assert s.jobs[o].finished;
    }
  }

  lemma StepEvolves(cfg: Config, s: State, step: Step)
    ensures Evolves(s.shared, Apply(cfg, s, step).shared)
  {
    match step
    case Informer(id, finished, deleted) => ObserveEvolves(s.shared, id, finished, deleted);
    case Work(w, outcome) =>
      if Enabled(cfg, s, step) {
        WorkApplies(cfg, s, step);
        MoveTouches(cfg, s.shared, s.workers[w], outcome);
        TryDequeueEvolves(cfg, s.shared);
        if s.workers[w].Handling? { HandlerFailedEvolves(s.shared, s.workers[w].job.id, s.workers[w].attempt); }
      }
    case Poll(_, _) =>
    case SetPaused(_) =>
    case StartDrain =>
    case StopIntake =>
  }

  lemma {:induction false} StaysFree(cfg: Config, workers: nat, steps: seq<Step>, n: nat, m: nat, a: nat)
    requires n <= m <= |steps|
    requires var s := Before(cfg, workers, steps, n).shared; a < s.nextAttempt && !Holds(s.jobs, a)
    ensures !Holds(Before(cfg, workers, steps, m).shared.jobs, a)
    decreases m - n
  {
    if n < m {
      BeforeNext(cfg, workers, steps, n);
      StepEvolves(cfg, Before(cfg, workers, steps, n), steps[n]);
      FreeStaysFree(Before(cfg, workers, steps, n).shared, Before(cfg, workers, steps, n + 1).shared, a);
      StaysFree(cfg, workers, steps, n + 1, m, a);
    }
  }

  /** Once a run contains an event that says a Job is finished or deleted, the attempt it was about never
      has a slot again. */
  lemma FinishedStaysFree(cfg: Config, workers: nat, steps: seq<Step>, n: nat, m: nat)
    requires n < m <= |steps| && steps[n].Informer? && steps[n].id != "" && (steps[n].finished || steps[n].deleted)
    requires steps[n].id in Before(cfg, workers, steps, n).shared.jobs || !steps[n].deleted
    ensures !Holds(Before(cfg, workers, steps, m).shared.jobs, Concerned(Before(cfg, workers, steps, n).shared, steps[n].id))
  {
    var s := Before(cfg, workers, steps, n);
    ReachedInv(cfg, workers, steps[..n]);
    BeforeNext(cfg, workers, steps, n);
    ObserveFrees(s.shared, steps[n].id, steps[n].finished, steps[n].deleted);
    StaysFree(cfg, workers, steps, n + 1, m, Concerned(s.shared, steps[n].id));
  }

  /** Worker w returns with an error from attempt a. */
  predicate FailsWith(s: State, step: Step, a: nat) {
    && step.Work? && step.outcome.HandlerError?
    && step.w < |s.workers| && s.workers[step.w].Handling? && s.workers[step.w].attempt == a
  }

  /** The attempt of id keeps its slot, its number and its entry. */
  predicate KeepsSlot(s: Shared, t: Shared, id: string)
    requires id in s.jobs
  {
    Occupies(t.jobs, id) && t.jobs[id].attempt == s.jobs[id].attempt
  }

  /** In every run a slot is given back by exactly two steps: an event that says its own Job is finished
      or deleted, and the error return of the worker that holds its attempt while nobody has seen the
      Job. No poll, pause, drain, dequeue or successful return gives one back. */
  lemma SlotReleasedIff(cfg: Config, workers: nat, steps: seq<Step>, step: Step, id: string)
    requires Occupies(Reached(cfg, workers, steps).shared.jobs, id)
    ensures var s := Reached(cfg, workers, steps);
            !KeepsSlot(s.shared, Apply(cfg, s, step).shared, id) <==>
              || (step.Informer? && step.id == id && id != "" && (step.finished || step.deleted))
              || (FailsWith(s, step, s.shared.jobs[id].attempt) && Observed(id, s.shared.jobs[id].attempt) !in s.shared.log)
  {
    var s := Reached(cfg, workers, steps);
    ReachedInv(cfg, workers, steps);
    match step
    case Informer(o, finished, deleted) => if o != "" { ObserveMeans(s.shared, o, finished, deleted); }
    case Work(w, outcome) => WorkReleases(cfg, s, step, id);
    case Poll(_, _) =>
    case SetPaused(_) =>
    case StartDrain =>
    case StopIntake =>
  }

  lemma WorkReleases(cfg: Config, s: State, step: Step, id: string)
    requires ObservationHistory(s.shared) && HeldAttempts(s) && Occupies(s.shared.jobs, id) && step.Work?
    ensures !KeepsSlot(s.shared, Apply(cfg, s, step).shared, id) <==>
              FailsWith(s, step, s.shared.jobs[id].attempt) && Observed(id, s.shared.jobs[id].attempt) !in s.shared.log
  {
    if Enabled(cfg, s, step) {
      var w := s.workers[step.w];
      WorkApplies(cfg, s, step);
      MoveTouches(cfg, s.shared, w, step.outcome);
      if w.Handling? { assert Held(s.shared, w.job.id, w.attempt); }
    }
  }

  // ---- Dequeues and polls ------------------------------------------------

  /** May a worker take work: no shutdown, no pause, and room, where a limit of zero is no limit. */
  predicate Open(cfg: Config, s: Shared) {
    !s.stopping && !s.intakeDone && !s.paused && (cfg.maxInFlight == 0 || s.inFlight < cfg.maxInFlight)
  }

  predicate FirstUnknown(q: seq<Job>, jobs: map<string, Entry>, k: nat) {
    k < |q| && q[k].id !in jobs && forall i :: 0 <= i < k ==> q[i].id in jobs
  }

  /** A dequeue takes the first queued job without a known state and nothing else: it and everything
      ahead of it leave the queue, and it gets a slot, unobserved, under a new number, and everyone is
      woken. Without such a job an open limiter's queue is emptied, and a closed one is left alone. */
  lemma DequeueTakesFirstUnknown(cfg: Config, s: Shared)
    ensures var (t, got) := TryDequeue(cfg, s);
            && (got.Some? <==> Open(cfg, s) && exists k: nat :: FirstUnknown(s.queue, s.jobs, k))
            && (got.Some? ==> exists k: nat :: FirstUnknown(s.queue, s.jobs, k) && got.value == (s.queue[k], s.nextAttempt) && t.queue == s.queue[k + 1..])
            && (got.Some? ==> t.jobs == s.jobs[got.value.0.id := Entry(s.nextAttempt, true, false, false)])
            && (got.Some? ==> t.inFlight == s.inFlight + 1 && t.nextAttempt == s.nextAttempt + 1 && t.generation == s.generation + 1)
            && (got.None? ==> t == s.(queue := if Open(cfg, s) then [] else s.queue))
            && (t.paused, t.stopping, t.intakeDone) == (s.paused, s.stopping, s.intakeDone)
  {
    var n := SkipKnownSuffix(s.queue, s.jobs);
    if n < |s.queue| {
      assert FirstUnknown(s.queue, s.jobs, n);
      assert s.queue[n..][1..] == s.queue[n + 1..];
    }
  }

  /** When a poll is taken: the caller's context is live and the limiter is neither draining nor shut.
      One that is not taken changes nothing. One that is wakes everyone unless the queue stays empty, and
      touches only the queue. */
  lemma PollTaken(cfg: Config, s: Shared, callerDone: bool, jobs: seq<Job>)
    ensures var (t, r) := HandleMany(cfg, s, callerDone, jobs);
            && (r.Accepted? <==> !callerDone && !s.stopping && !s.intakeDone)
            && (r.CallerCancelled? <==> callerDone)
            && (!r.Accepted? ==> t == s)
            && (r.Accepted? ==> t.queue == Enqueued(s.queue, jobs, cfg.workQueueLimit))
            && (r.Accepted? ==> t.generation == if s.queue == [] && jobs == [] then s.generation else s.generation + 1)
            && t == s.(queue := t.queue, generation := t.generation)
  {
    if s.queue + jobs == [] { assert Enqueued(s.queue, jobs, cfg.workQueueLimit) == []; }
    assert s.queue + jobs == [] <==> s.queue == [] && jobs == [];
  }

  // ---- Control -----------------------------------------------------------

  /** What the last call of Pause asked for. */
  function PausedLast(steps: seq<Step>): bool {
    if steps == [] then false
    else if steps[|steps| - 1].SetPaused? then steps[|steps| - 1].paused
    else PausedLast(steps[..|steps| - 1])
  }

  ghost predicate Occurs(steps: seq<Step>, step: Step) {
    exists k :: 0 <= k < |steps| && steps[k] == step
  }

  lemma OccursLast(steps: seq<Step>, last: Step, step: Step)
    ensures Occurs(steps + [last], step) <==> Occurs(steps, step) || last == step
  {
    var all := steps + [last];
    if Occurs(steps, step) {
      var k :| 0 <= k < |steps| && steps[k] == step;
      assert all[k] == step;
    }
    assert all[|steps|] == last;
  }

  lemma StepFlags(cfg: Config, s: State, step: Step)
    ensures var t := Apply(cfg, s, step);
            && (t.shared.stopping <==> s.shared.stopping || step.StartDrain?)
            && (t.shared.intakeDone <==> s.shared.intakeDone || step.StopIntake?)
            && t.shared.paused == (if step.SetPaused? then step.paused else s.shared.paused)
            && |t.workers| == |s.workers|
  {
    match step
    case Informer(id, finished, deleted) => if id != "" { ObserveMeans(s.shared, id, finished, deleted); }
    case Work(w, outcome) =>
      if Enabled(cfg, s, step) {
        WorkApplies(cfg, s, step);
        MoveTouches(cfg, s.shared, s.workers[w], outcome);
        DequeueTakesFirstUnknown(cfg, s.shared);
      }
    case Poll(_, _) =>
    case SetPaused(_) =>
    case StartDrain =>
    case StopIntake =>
  }

  /** The flags say what was asked for: the limiter is stopping once Drain was called, its intake is over
      once its context ended, it is paused as the last call of Pause said; no worker goroutine is ever
      added or removed, and none has returned in a limiter that is neither stopping nor ended. */
  lemma {:induction false} FlagsFollowTheRun(cfg: Config, workers: nat, steps: seq<Step>)
    ensures var s := Reached(cfg, workers, steps);
            && (s.shared.stopping <==> Occurs(steps, StartDrain))
            && (s.shared.intakeDone <==> Occurs(steps, StopIntake))
            && s.shared.paused == PausedLast(steps)
            && |s.workers| == workers
            && (forall w :: 0 <= w < workers && s.workers[w].Exited? ==> s.shared.stopping || s.shared.intakeDone)
    decreases |steps|
  {
    if steps != [] {
      var n := |steps| - 1;
      var last := steps[n];
      assert steps == steps[..n] + [last];
      FlagsFollowTheRun(cfg, workers, steps[..n]);
      BeforeNext(cfg, workers, steps, n);
      assert steps[..n + 1] == steps;
      StepFlags(cfg, Reached(cfg, workers, steps[..n]), last);
      OccursLast(steps[..n], last, StartDrain);
      OccursLast(steps[..n], last, StopIntake);
      ReturnsWhenOver(cfg, Reached(cfg, workers, steps[..n]), last);
    }
  }

  lemma ReturnsWhenOver(cfg: Config, s: State, step: Step)
    ensures var t := Apply(cfg, s, step);
            |t.workers| == |s.workers| && forall w :: 0 <= w < |s.workers| && t.workers[w].Exited? ==>
              s.workers[w].Exited? || s.shared.stopping || s.shared.intakeDone
  {
    if step.Work? && Enabled(cfg, s, step) { WorkApplies(cfg, s, step); }
  }

  // ---- Workers -----------------------------------------------------------

  /** What a limiter is started with: a limit and a number of workers that were not given, or make no
      sense, are a million queued jobs and 25 workers, and no maximum in flight means no limit. */
  lemma NewSettles(maxInFlight: int, concurrency: int, workQueueLimit: int)
    requires maxInFlight >= 0
    ensures var r := New(maxInFlight, concurrency, workQueueLimit);
            && r.Some? && r.value.0.maxInFlight == maxInFlight
            && r.value.0.workQueueLimit == (if workQueueLimit > 0 then workQueueLimit else 1_000_000)
            && |r.value.1.workers| == (if concurrency > 0 then concurrency else 25)
            && (maxInFlight == 0 ==> forall s: Shared :: !AtCapacity(r.value.0, s))
  {
  }

  /** When a worker waits: at the top of its loop it parks, on the channel of that moment, exactly if the
      limiter is not stopping and is paused, full or without a queued job. */
  lemma WaitsIff(cfg: Config, s: State, w: nat)
    requires w < |s.workers| && s.workers[w].AtTop?
    ensures var t := Apply(cfg, s, Work(w, Proceed));
            && t == s.(workers := t.workers)
            && (t.workers[w].Exited? <==> s.shared.stopping)
            && (t.workers[w] == Parked(s.shared.generation) <==>
                  !s.shared.stopping && (s.shared.paused || s.shared.queue == [] || (cfg.maxInFlight != 0 && s.shared.inFlight >= cfg.maxInFlight)))
  {
  }

  /** How many moves a worker can still make once the limiter's context has ended. */
  function LeavingRank(w: Worker): nat {
    match w
    case Exited => 0
    case Woken => 1
    case Parked(_) => 2
    case AtTop => 3
    case Dequeuing => 4
    case Handling(_, _) => 4
  }

  /** Once the limiter's context has ended, no worker takes a job, every move of a worker brings it
      closer to its return, and one that has not returned always has a move, even parked on a channel
      that nobody will close. */
  lemma ShutWorkersLeave(cfg: Config, s: State, w: nat, outcome: Outcome)
    requires s.shared.intakeDone && w < |s.workers|
    ensures Enabled(cfg, s, Work(w, outcome)) ==>
              var t := Apply(cfg, s, Work(w, outcome));
              t.shared.intakeDone && !t.workers[w].Handling? && LeavingRank(t.workers[w]) < LeavingRank(s.workers[w])
    ensures s.workers[w].Exited? || Enabled(cfg, s, Work(w, Proceed)) || Enabled(cfg, s, Work(w, ContextDone))
  {
    if Enabled(cfg, s, Work(w, outcome)) { WorkApplies(cfg, s, Work(w, outcome)); }
  }
}
