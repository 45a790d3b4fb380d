/** Properties of whole limiter runs: every interleaving of polls, pauses, informer
    events, shutdown and worker moves, from the start. */
module LimiterRuns {
  import opened Options
  import opened JobQueue
  import opened LimiterSpec
  import opened LimiterInvariants

  // ---- The invariant -----------------------------------------------------

  /** A worker parked on the channel that is still current has nothing to do. */
  ghost predicate NoLostWakeUp(cfg: Config, s: State) {
    forall w :: 0 <= w < |s.workers| && s.workers[w].Parked? ==>
      && s.workers[w].generation <= s.shared.generation
      && (s.workers[w].generation == s.shared.generation ==> !s.shared.stopping && !Ready(cfg, s.shared))
  }

  /** A worker in the next handler holds an attempt of its own that was admitted for its job. */
  ghost predicate HeldAttempts(s: State) {
    && (forall w :: 0 <= w < |s.workers| && s.workers[w].Handling? ==> Held(s.shared, s.workers[w].job.id, s.workers[w].attempt))
    && (forall v, w :: 0 <= v < w < |s.workers| && s.workers[v].Handling? && s.workers[w].Handling? ==>
          s.workers[v].attempt != s.workers[w].attempt)
  }

  ghost predicate Held(s: Shared, id: string, attempt: nat) {
    && attempt < s.nextAttempt
    && Occupied(id, attempt, true) in s.log
    && (forall o :: o in s.jobs && s.jobs[o].attempt == attempt ==> o == id && s.jobs[o].admitted)
  }

  ghost predicate Inv(cfg: Config, s: State) {
    SharedInv(cfg, s.shared) && NoLostWakeUp(cfg, s) && HeldAttempts(s)
  }

  // ---- One mutex section -------------------------------------------------

  /** Becoming ready or stopping always replaces the channel. */
  ghost predicate Wakes(cfg: Config, s: Shared, t: Shared) {
    && s.generation <= t.generation
    && (s.generation == t.generation ==> (t.stopping ==> s.stopping) && (Ready(cfg, t) ==> Ready(cfg, s)))
  }

  /** The log only grows, numbers are never reused, entries keep their identity and stay finished. */
  ghost predicate Evolves(s: Shared, t: Shared) {
    && s.log <= t.log
    && s.nextAttempt <= t.nextAttempt
    && (forall o :: o in t.jobs && t.jobs[o].attempt < s.nextAttempt ==>
          && o in s.jobs && s.jobs[o].attempt == t.jobs[o].attempt && s.jobs[o].admitted == t.jobs[o].admitted
          && (s.jobs[o].finished ==> t.jobs[o].finished))
  }

  lemma SectionsWake(cfg: Config, s: Shared, step: Step, id: string, attempt: nat)
    requires QueueInv(cfg, s)
    ensures step.Poll? ==> Wakes(cfg, s, HandleMany(cfg, s, step.callerDone, step.jobs).0)
    ensures step.SetPaused? ==> Wakes(cfg, s, Pause(s, step.paused))
    ensures step.Informer? ==> Wakes(cfg, s, Observe(s, step.id, step.finished, step.deleted))
    ensures Wakes(cfg, s, Drain(s))
    ensures Wakes(cfg, s, TryDequeue(cfg, s).0)
    ensures Wakes(cfg, s, HandlerFailed(s, id, attempt))
  {
  }

  lemma EvolvesTransitive(s: Shared, t: Shared, u: Shared)
    requires Evolves(s, t) && Evolves(t, u)
    ensures Evolves(s, u)
  {
  }

  lemma SightedEvolves(s: Shared, id: string, finished: bool)
    ensures Evolves(s, Sighted(s, id, finished))
  {
  }

  lemma ConcludedEvolves(s: Shared, id: string, finished: bool, deleted: bool)
    requires id in s.jobs
    ensures Evolves(s, Concluded(s, id, finished, deleted))
  {
  }

  lemma ObserveEvolves(s: Shared, id: string, finished: bool, deleted: bool)
    ensures Evolves(s, Observe(s, id, finished, deleted))
  {
    if id == "" || (id !in s.jobs && deleted) {
      assert Observe(s, id, finished, deleted) == s;
    } else {
      var sighted := Sighted(s, id, finished);
      SightedEvolves(s, id, finished);
      ConcludedEvolves(sighted, id, finished, deleted);
      EvolvesTransitive(s, sighted, Concluded(sighted, id, finished, deleted));
    }
  }

  lemma HandlerFailedEvolves(s: Shared, id: string, attempt: nat)
    ensures Evolves(s, HandlerFailed(s, id, attempt))
  {
  }

  lemma TryDequeueEvolves(cfg: Config, s: Shared)
    ensures Evolves(s, TryDequeue(cfg, s).0)
  {
  }

  /** Moving the shared state along keeps what is known about the other workers. */
  lemma WorkersKeep(cfg: Config, s: State, t: State)
    requires NoLostWakeUp(cfg, s) && HeldAttempts(s) && t.workers == s.workers
    requires Wakes(cfg, s.shared, t.shared) && Evolves(s.shared, t.shared)
    ensures NoLostWakeUp(cfg, t) && HeldAttempts(t)
  {
  }

  // ---- Steps -------------------------------------------------------------

  lemma InitialInv(cfg: Config, workers: nat)
    ensures Inv(cfg, Start(workers))
  {
  }

  ghost predicate GoodMove(cfg: Config, s: Shared, t: Shared) {
    SharedInv(cfg, t) && Wakes(cfg, s, t) && Evolves(s, t)
  }

  lemma DequeueShared(cfg: Config, s: Shared)
    requires SharedInv(cfg, s)
    ensures GoodMove(cfg, s, TryDequeue(cfg, s).0)
  {
    TryDequeueInv(cfg, s);
    SectionsWake(cfg, s, StartDrain, "", 0);
    TryDequeueEvolves(cfg, s);
  }

  lemma FailureShared(cfg: Config, s: Shared, id: string, attempt: nat)
    requires SharedInv(cfg, s)
    ensures GoodMove(cfg, s, HandlerFailed(s, id, attempt))
  {
    HandlerFailedInv(cfg, s, id, attempt);
    SectionsWake(cfg, s, StartDrain, id, attempt);
    HandlerFailedEvolves(s, id, attempt);
  }

  lemma UnmovedShared(cfg: Config, s: Shared)
    ensures Wakes(cfg, s, s) && Evolves(s, s)
  {
  }

  /** What a move does to the shared state: only a dequeue and a failed handler touch it. */
  lemma MoveTouches(cfg: Config, s: Shared, w: Worker, outcome: Outcome)
    requires Move(cfg, s, w, outcome).Some?
    ensures var t := Move(cfg, s, w, outcome).value.0;
            if w.Dequeuing? && outcome.Proceed? then t == TryDequeue(cfg, s).0
            else if w.Handling? && outcome.HandlerError? then t == HandlerFailed(s, w.job.id, w.attempt)
            else t == s
  {
  }

  lemma MoveShared(cfg: Config, s: Shared, w: Worker, outcome: Outcome)
    requires SharedInv(cfg, s) && Move(cfg, s, w, outcome).Some?
    ensures GoodMove(cfg, s, Move(cfg, s, w, outcome).value.0)
  {
    MoveTouches(cfg, s, w, outcome);
    if w.Dequeuing? && outcome.Proceed? {
      DequeueShared(cfg, s);
    } else if w.Handling? && outcome.HandlerError? {
      FailureShared(cfg, s, w.job.id, w.attempt);
    } else {
      UnmovedShared(cfg, s);
    }
  }

  /** Where a worker can be after its move. */
  lemma MoveWorker(cfg: Config, s: Shared, w: Worker, outcome: Outcome)
    requires Accounting(s) && Move(cfg, s, w, outcome).Some?
    ensures var m := Move(cfg, s, w, outcome).value;
            && (m.1.Parked? ==> m.0 == s && m.1.generation == s.generation && !s.stopping && !Ready(cfg, s))
            && (m.1.Handling? ==> m.1.attempt == s.nextAttempt && Held(m.0, m.1.job.id, m.1.attempt))
  {
  }

  /** One worker changes place; the others and the shared state stay. */
  lemma WorkerMoves(cfg: Config, s: State, i: nat, w: Worker)
    requires NoLostWakeUp(cfg, s) && HeldAttempts(s) && i < |s.workers|
    requires w.Parked? ==> w.generation == s.shared.generation && !s.shared.stopping && !Ready(cfg, s.shared)
    requires w.Handling? ==> Held(s.shared, w.job.id, w.attempt)
    requires w.Handling? ==> forall v :: 0 <= v < |s.workers| && s.workers[v].Handling? ==> s.workers[v].attempt != w.attempt
    ensures var t := s.(workers := s.workers[i := w]); NoLostWakeUp(cfg, t) && HeldAttempts(t)
  {
  }

  /** The worker moves first in the shared state, then to its new place. */
  lemma WorkApplies(cfg: Config, s: State, step: Step)
    requires step.Work? && Enabled(cfg, s, step)
    ensures var m := Move(cfg, s.shared, s.workers[step.w], step.outcome).value;
            Apply(cfg, s, step) == State(m.0, s.workers[step.w := m.1])
  {
  }

  lemma WorkSharedInv(cfg: Config, s: State, step: Step)
    requires SharedInv(cfg, s.shared) && step.Work? && Enabled(cfg, s, step)
    ensures SharedInv(cfg, Apply(cfg, s, step).shared)
  {
    WorkApplies(cfg, s, step);
    MoveShared(cfg, s.shared, s.workers[step.w], step.outcome);
  }

  lemma WorkWorkersInv(cfg: Config, s: State, step: Step)
    requires Inv(cfg, s) && step.Work? && Enabled(cfg, s, step)
    ensures NoLostWakeUp(cfg, Apply(cfg, s, step)) && HeldAttempts(Apply(cfg, s, step))
  {
    var w := s.workers[step.w];
    var m := Move(cfg, s.shared, w, step.outcome).value;
    WorkApplies(cfg, s, step);
    MoveShared(cfg, s.shared, w, step.outcome);
    MoveWorker(cfg, s.shared, w, step.outcome);
    OthersHoldOlder(s, m.1);
    WorkersKeep(cfg, s, State(m.0, s.workers));
    WorkerMoves(cfg, State(m.0, s.workers), step.w, m.1);
  }

  /** A new attempt is nobody's yet. */
  lemma OthersHoldOlder(s: State, w: Worker)
    requires HeldAttempts(s) && (w.Handling? ==> w.attempt == s.shared.nextAttempt)
    ensures w.Handling? ==> forall v :: 0 <= v < |s.workers| && s.workers[v].Handling? ==> s.workers[v].attempt != w.attempt
  {
  }

  lemma WorkInv(cfg: Config, s: State, step: Step)
    requires Inv(cfg, s) && step.Work? && Enabled(cfg, s, step)
    ensures Inv(cfg, Apply(cfg, s, step))
  {
    WorkSharedInv(cfg, s, step);
    WorkWorkersInv(cfg, s, step);
  }

  lemma PollStepInv(cfg: Config, s: State, step: Step)
    requires Inv(cfg, s) && step.Poll?
    ensures Inv(cfg, Apply(cfg, s, step))
  {
    PollInv(cfg, s.shared, step.callerDone, step.jobs);
    SectionsWake(cfg, s.shared, step, "", 0);
    WorkersKeep(cfg, s, Apply(cfg, s, step));
  }

  lemma InformerStepInv(cfg: Config, s: State, step: Step)
    requires Inv(cfg, s) && step.Informer?
    ensures Inv(cfg, Apply(cfg, s, step))
  {
    ObserveInv(cfg, s.shared, step.id, step.finished, step.deleted);
    SectionsWake(cfg, s.shared, step, "", 0);
    ObserveEvolves(s.shared, step.id, step.finished, step.deleted);
    WorkersKeep(cfg, s, Apply(cfg, s, step));
  }

  lemma ControlStepInv(cfg: Config, s: State, step: Step)
    requires Inv(cfg, s) && (step.SetPaused? || step.StartDrain? || step.StopIntake?)
    ensures Inv(cfg, Apply(cfg, s, step))
  {
    HistoryFrame(s.shared, Apply(cfg, s, step).shared);
    WorkersKeep(cfg, s, Apply(cfg, s, step));
  }

  lemma StepInv(cfg: Config, s: State, step: Step)
    requires Inv(cfg, s)
    ensures Inv(cfg, Apply(cfg, s, step))
  {
    match step
    case Poll(_, _) => PollStepInv(cfg, s, step);
    case Informer(_, _, _) => InformerStepInv(cfg, s, step);
    case Work(_, _) => if Enabled(cfg, s, step) { WorkInv(cfg, s, step); } else { assert Apply(cfg, s, step) == s; }
    case _ => ControlStepInv(cfg, s, step);
  }

  lemma {:induction false} RunInv(cfg: Config, s: State, steps: seq<Step>)
    requires Inv(cfg, s)
    ensures Inv(cfg, Run(cfg, s, steps))
    decreases |steps|
  {
    if steps != [] {
      StepInv(cfg, s, steps[0]);
      RunInv(cfg, Apply(cfg, s, steps[0]), steps[1..]);
    }
  }

  // ---- What every run guarantees -----------------------------------------

  /** The state after any sequence of steps from the start. */
  function Reached(cfg: Config, workers: nat, steps: seq<Step>): State {
    Run(cfg, Start(workers), steps)
  }

  lemma ReachedInv(cfg: Config, workers: nat, steps: seq<Step>)
    ensures Inv(cfg, Reached(cfg, workers, steps))
  {
    InitialInv(cfg, workers);
    RunInv(cfg, Start(workers), steps);
  }

  /** No lost wake-ups: whenever there is work to take, or the limiter is stopping, no
      worker is blocked on the channel; and a worker blocked on it has no work to take:
      dispatch is paused, all of a limited number of slots are in use, or nothing is queued. */
  lemma NoLostWakeUps(cfg: Config, workers: nat, steps: seq<Step>, w: nat)
    requires w < |Reached(cfg, workers, steps).workers|
    ensures var s := Reached(cfg, workers, steps);
            s.workers[w].Parked? ==>
              if Enabled(cfg, s, Work(w, Proceed)) then s.workers[w].generation < s.shared.generation
              else && !s.shared.stopping
                   && (s.shared.paused || s.shared.queue == []
                       || (cfg.maxInFlight != 0 && |Occupying(s.shared.jobs)| >= cfg.maxInFlight))
  {
    ReachedInv(cfg, workers, steps);
  }

  /** Slot accounting: the counter is the number of unfinished entries and the balance of
      the history; no attempt occupies a slot twice; a slot is given back exactly once,
      at the moment its attempt stops holding it; a finished entry has been observed. */
  lemma SlotAccounting(cfg: Config, workers: nat, steps: seq<Step>)
    ensures var s := Reached(cfg, workers, steps).shared;
            && s.inFlight == |Occupying(s.jobs)| == Balance(s.log)
            && (forall id :: id in s.jobs && s.jobs[id].finished ==> s.jobs[id].observed)
            && (forall a: nat :: Occupations(s.log, a) <= 1)
            && (forall a: nat :: Vacations(s.log, a) == if Occupations(s.log, a) == 1 && !Holds(s.jobs, a) then 1 else 0)
  {
    ReachedInv(cfg, workers, steps);
    var s := Reached(cfg, workers, steps).shared;
    forall a: nat
      ensures Vacations(s.log, a) == if Occupations(s.log, a) == 1 && !Holds(s.jobs, a) then 1 else 0
    {
      assert Occupations(s.log, a) == Vacations(s.log, a) + (if Holds(s.jobs, a) then 1 else 0);
    }
  }

  /** Capacity: admission alone never fills more than MaxInFlight slots, so the counter
      exceeds it only by jobs first seen through the informer. */
  lemma Capacity(cfg: Config, workers: nat, steps: seq<Step>)
    requires cfg.maxInFlight > 0
    ensures var s := Reached(cfg, workers, steps).shared;
            && |AdmittedSlots(s.jobs)| <= cfg.maxInFlight
            && s.inFlight <= cfg.maxInFlight + |ForeignSlots(s.jobs)|
  {
    ReachedInv(cfg, workers, steps);
    var s := Reached(cfg, workers, steps).shared;
    assert Occupying(s.jobs) == AdmittedSlots(s.jobs) + ForeignSlots(s.jobs);
  }

  /** Between two admissions of one id, the earlier attempt was dropped: either its Job
      was deleted, or its handler failed and nobody ever observed it. */
  lemma AttemptIdentity(cfg: Config, workers: nat, steps: seq<Step>, i: nat, j: nat)
    requires var log := Reached(cfg, workers, steps).shared.log;
             i < j < |log| && IsAdmission(log[i]) && IsAdmission(log[j]) && log[i].id == log[j].id
    ensures var log := Reached(cfg, workers, steps).shared.log;
            exists k :: && i < k < j && log[k].Forgotten? && log[k].id == log[i].id && log[k].attempt == log[i].attempt
                        && (log[k].deleted || Observed(log[k].id, log[k].attempt) !in log)
  {
    ReachedInv(cfg, workers, steps);
    var log := Reached(cfg, workers, steps).shared.log;
    var k :| i < k < j && log[k].Forgotten? && log[k].id == log[i].id && log[k].attempt == log[i].attempt;
    assert log[k] in log;
  }

  /** A worker's failure concerns the attempt it holds and no other: a newer attempt for the
      same id keeps its entry and its slot. It frees a slot exactly when its own attempt is
      still known and was never observed. */
  lemma StaleFailure(cfg: Config, workers: nat, steps: seq<Step>, w: nat)
    requires var s := Reached(cfg, workers, steps); w < |s.workers| && s.workers[w].Handling?
    ensures var s := Reached(cfg, workers, steps);
            var job, a := s.workers[w].job, s.workers[w].attempt;
            var t := Apply(cfg, s, Work(w, HandlerError)).shared;
            var mine := exists id :: id in s.shared.jobs && s.shared.jobs[id].attempt == a;
            && (forall id :: id in s.shared.jobs && s.shared.jobs[id].attempt != a ==>
                  id in t.jobs && t.jobs[id] == s.shared.jobs[id])
            && t.inFlight == (if mine && Observed(job.id, a) !in s.shared.log then s.shared.inFlight - 1 else s.shared.inFlight)
            && (t.inFlight != s.shared.inFlight ==> Holds(s.shared.jobs, a) && !Holds(t.jobs, a))
  {
    ReachedInv(cfg, workers, steps);
    var s := Reached(cfg, workers, steps);
    var job, a := s.workers[w].job, s.workers[w].attempt;
    assert Held(s.shared, job.id, a);
    if job.id in s.shared.jobs && s.shared.jobs[job.id].attempt == a && !s.shared.jobs[job.id].observed {
      assert !s.shared.jobs[job.id].finished;
    }
  }

  /** The queue never holds an id twice, is in descending priority and fits the limit. */
  lemma QueueAlwaysGood(cfg: Config, workers: nat, steps: seq<Step>)
    ensures GoodQueue(Reached(cfg, workers, steps).shared.queue, cfg.workQueueLimit)
  {
    ReachedInv(cfg, workers, steps);
  }

  // ---- Nothing is lost ---------------------------------------------------

  /** The first record for id that the poll finds is cut behind a full queue of no lower priority. */
  ghost predicate CutBehindFull(cfg: Config, queue: seq<Job>, jobs: seq<Job>, id: string) {
    var q := Enqueued(queue, jobs, cfg.workQueueLimit);
    exists x :: x in Dedup(queue + jobs) && x.id == id && |q| == cfg.workQueueLimit && forall y :: y in q ==> x.priority <= y.priority
  }

  /** A step may take id out of the queue: by admitting it, because a dequeue finds it known, by
      cutting it, or by draining. */
  ghost predicate MayLeave(cfg: Config, s: State, step: Step, id: string) {
    match step
    case Poll(_, jobs) => CutBehindFull(cfg, s.shared.queue, jobs, id)
    case StartDrain => true
    case Work(w, outcome) =>
      && w < |s.workers| && s.workers[w].Dequeuing? && outcome.Proceed?
      && (id in s.shared.jobs
          || var got := TryDequeue(cfg, s.shared).1; got.Some? && got.value.0.id == id)
    case _ => false
  }

  lemma PollKeeps(cfg: Config, queue: seq<Job>, jobs: seq<Job>, id: string)
    requires HasId(queue + jobs, id)
    ensures HasId(Enqueued(queue, jobs, cfg.workQueueLimit), id) || CutBehindFull(cfg, queue, jobs, id)
  {
    var q := Enqueued(queue, jobs, cfg.workQueueLimit);
    var x := RecordOf(queue + jobs, id);
    EnqueuedGood(queue, jobs, cfg.workQueueLimit);
    if x in q { HasIdOf(q, x); }
  }

  lemma HasIdCons(q: seq<Job>, id: string)
    requires q != []
    ensures HasId(q, id) ==> q[0].id == id || HasId(q[1..], id)
  {
    if HasId(q, id) && q[0].id != id {
      var i :| 0 <= i < |q| && q[i].id == id;
      assert q[1..][i - 1] == q[i];
    }
  }

  lemma {:induction false} SkipKnownKeeps(q: seq<Job>, jobs: map<string, Entry>, id: string)
    requires HasId(q, id) && id !in jobs
    ensures HasId(SkipKnown(q, jobs), id)
  {
    if q[0].id in jobs {
      HasIdCons(q, id);
      SkipKnownKeeps(q[1..], jobs, id);
    }
  }

  lemma DequeueKeeps(cfg: Config, s: Shared, id: string)
    requires HasId(s.queue, id)
    ensures || HasId(TryDequeue(cfg, s).0.queue, id) || id in s.jobs
            || (TryDequeue(cfg, s).1.Some? && TryDequeue(cfg, s).1.value.0.id == id)
  {
    if id !in s.jobs {
      SkipKnownKeeps(s.queue, s.jobs, id);
      HasIdCons(SkipKnown(s.queue, s.jobs), id);
    }
  }

  lemma StepKeepsOrLeaves(cfg: Config, s: State, step: Step, id: string)
    requires HasId(s.shared.queue, id)
    ensures HasId(Apply(cfg, s, step).shared.queue, id) || MayLeave(cfg, s, step, id)
  {
    match step
    case Poll(callerDone, jobs) =>
      HasIdAppend(s.shared.queue, jobs, id);
      PollKeeps(cfg, s.shared.queue, jobs, id);
    case Work(w, outcome) =>
      if w < |s.workers| && s.workers[w].Dequeuing? && outcome.Proceed? { DequeueKeeps(cfg, s.shared, id); }
    case _ =>
  }

  /** The state before step k of a run. */
  function Before(cfg: Config, workers: nat, steps: seq<Step>, k: nat): State
    requires k <= |steps|
  {
    Reached(cfg, workers, steps[..k])
  }

  lemma BeforeNext(cfg: Config, workers: nat, steps: seq<Step>, k: nat)
    requires k < |steps|
    ensures Before(cfg, workers, steps, k + 1) == Apply(cfg, Before(cfg, workers, steps, k), steps[k])
  {
    assert steps[..k + 1] == steps[..k] + [steps[k]];
    RunAppend(cfg, Start(workers), steps[..k], [steps[k]]);
    var s := Before(cfg, workers, steps, k);
    assert Run(cfg, s, [steps[k]]) == Run(cfg, Apply(cfg, s, steps[k]), []);
  }

  ghost predicate QueuedBefore(cfg: Config, workers: nat, steps: seq<Step>, k: nat, id: string)
    requires k <= |steps|
  {
    HasId(Before(cfg, workers, steps, k).shared.queue, id)
  }

  ghost predicate LeavesAt(cfg: Config, workers: nat, steps: seq<Step>, k: nat, id: string)
    requires k < |steps|
  {
    MayLeave(cfg, Before(cfg, workers, steps, k), steps[k], id)
  }

  lemma KeptOrLeavesNext(cfg: Config, workers: nat, steps: seq<Step>, k: nat, id: string)
    requires k < |steps| && QueuedBefore(cfg, workers, steps, k, id)
    ensures QueuedBefore(cfg, workers, steps, k + 1, id) || LeavesAt(cfg, workers, steps, k, id)
  {
    BeforeNext(cfg, workers, steps, k);
    StepKeepsOrLeaves(cfg, Before(cfg, workers, steps, k), steps[k], id);
  }

  lemma {:induction false} KeptOrLeft(cfg: Config, workers: nat, steps: seq<Step>, n: nat, m: nat, id: string) returns (k: nat)
    requires n <= m <= |steps| && QueuedBefore(cfg, workers, steps, n, id)
    ensures || QueuedBefore(cfg, workers, steps, m, id)
            || (n <= k < m && LeavesAt(cfg, workers, steps, k, id) && !QueuedBefore(cfg, workers, steps, k + 1, id))
    decreases m - n
  {
    k := n;
    if n < m {
      KeptOrLeavesNext(cfg, workers, steps, n, id);
      if QueuedBefore(cfg, workers, steps, n + 1, id) {
        k := KeptOrLeft(cfg, workers, steps, n + 1, m, id);
      }
    }
  }

  /** Nothing is lost: in every run, the id of a job that a poll handed in successfully is still queued,
      or some step from then on took it out: it admitted it, found it known, cut it behind a full queue
      of no lower priority, or drained the queue. */
  lemma NothingIsLost(cfg: Config, workers: nat, steps: seq<Step>, n: nat, x: Job)
    requires n < |steps| && steps[n].Poll? && x in steps[n].jobs
    requires HandleMany(cfg, Before(cfg, workers, steps, n).shared, steps[n].callerDone, steps[n].jobs).1.Accepted?
    ensures HasId(Reached(cfg, workers, steps).shared.queue, x.id)
         || exists k: nat :: n <= k < |steps| && LeavesAt(cfg, workers, steps, k, x.id) && !QueuedBefore(cfg, workers, steps, k + 1, x.id)
  {
    var s := Before(cfg, workers, steps, n);
    BeforeNext(cfg, workers, steps, n);
    HasIdOf(steps[n].jobs, x);
    HasIdAppend(s.shared.queue, steps[n].jobs, x.id);
    PollKeeps(cfg, s.shared.queue, steps[n].jobs, x.id);
    assert steps[..|steps|] == steps;
    if QueuedBefore(cfg, workers, steps, n + 1, x.id) {
      var k := KeptOrLeft(cfg, workers, steps, n + 1, |steps|, x.id);
    } else {
      assert LeavesAt(cfg, workers, steps, n, x.id);
    }
  }

  // ---- Progress ----------------------------------------------------------

  function Alone(w: nat, k: nat): seq<Step> {
    seq(k, _ => Work(w, Proceed))
  }

  lemma OneAlone(cfg: Config, s: State, w: nat, k: nat)
    requires k > 0
    ensures Run(cfg, s, Alone(w, k)) == Run(cfg, Apply(cfg, s, Work(w, Proceed)), Alone(w, k - 1))
  {
    assert Alone(w, k)[1..] == Alone(w, k - 1);
  }

  /** Only worker w has moved, and it has either started a new attempt for a queued job or
      emptied the queue because every job in it was already known. */
  ghost predicate Dequeued(s: State, t: State, w: nat) {
    && w < |s.workers| == |t.workers|
    && t.workers[w := AtTop] == s.workers[w := AtTop]
    && if t.workers[w].Handling? then t.workers[w].attempt == s.shared.nextAttempt && t.workers[w].job in s.shared.queue
       else t.shared.queue == [] && forall j :: j in s.shared.queue ==> j.id in s.shared.jobs
  }

  function Distance(w: Worker): nat {
    match w
    case Dequeuing => 1
    case Woken => 2
    case _ => 3
  }

  /** Work that can be taken is taken by any free worker left to itself: within three of its
      own moves it is in the next handler with a new attempt, or it found that every
      queued job is already known. */
  lemma FreeWorkerDequeues(cfg: Config, workers: nat, steps: seq<Step>, w: nat)
    requires var s := Reached(cfg, workers, steps);
             && w < |s.workers| && !s.workers[w].Handling? && !s.workers[w].Exited?
             && Ready(cfg, s.shared) && !s.shared.stopping && !s.shared.intakeDone
    ensures var s := Reached(cfg, workers, steps);
            exists k :: 0 < k <= 3 && Dequeued(s, Run(cfg, s, Alone(w, k)), w)
  {
    ReachedInv(cfg, workers, steps);
    var k := Dequeues(cfg, Reached(cfg, workers, steps), w);
  }

  lemma DequeuesNow(cfg: Config, s: State, w: nat)
    requires w < |s.workers| && s.workers[w].Dequeuing?
    requires Ready(cfg, s.shared) && !s.shared.stopping && !s.shared.intakeDone
    ensures Dequeued(s, Apply(cfg, s, Work(w, Proceed)), w)
  {
    var n := SkipKnownSuffix(s.shared.queue, s.shared.jobs);
  }

  /** A free worker that is not dequeuing yet comes closer without touching anything. */
  lemma ComesCloser(cfg: Config, s: State, w: nat)
    requires w < |s.workers| && (s.workers[w].AtTop? || s.workers[w].Woken? || s.workers[w].Parked?)
    requires s.workers[w].Parked? ==> s.workers[w].generation < s.shared.generation
    requires Ready(cfg, s.shared) && !s.shared.stopping && !s.shared.intakeDone
    ensures var t := Apply(cfg, s, Work(w, Proceed));
            && |t.workers| == |s.workers| && t == State(s.shared, s.workers[w := t.workers[w]])
            && (t.workers[w].Woken? || t.workers[w].Dequeuing?)
            && Distance(t.workers[w]) < Distance(s.workers[w])
  {
  }

  lemma Dequeues(cfg: Config, s: State, w: nat) returns (k: nat)
    requires w < |s.workers| && !s.workers[w].Handling? && !s.workers[w].Exited?
    requires s.workers[w].Parked? ==> s.workers[w].generation < s.shared.generation
    requires Ready(cfg, s.shared) && !s.shared.stopping && !s.shared.intakeDone
    ensures 0 < k <= Distance(s.workers[w]) && Dequeued(s, Run(cfg, s, Alone(w, k)), w)
    decreases Distance(s.workers[w])
  {
    var t := Apply(cfg, s, Work(w, Proceed));
    if s.workers[w].Dequeuing? {
      k := 1;
      DequeuesNow(cfg, s, w);
      OneAlone(cfg, s, w, 1);
      assert Run(cfg, t, Alone(w, 0)) == t;
    } else {
      ComesCloser(cfg, s, w);
      k := Dequeues(cfg, t, w);
      DequeuedFromBefore(s, t, Run(cfg, t, Alone(w, k)), w);
      k := k + 1;
      OneAlone(cfg, s, w, k);
    }
  }

  lemma DequeuedFromBefore(s: State, t: State, u: State, w: nat)
    requires w < |s.workers| && |t.workers| == |s.workers| && t == State(s.shared, s.workers[w := t.workers[w]])
    requires Dequeued(t, u, w)
    ensures Dequeued(s, u, w)
  {
    assert s.workers[w := AtTop] == t.workers[w := AtTop];
  }

  // ---- Draining ----------------------------------------------------------

  /** The attempts workers hold. */
  ghost function HeldBy(workers: seq<Worker>): set<nat> {
    set w | 0 <= w < |workers| && workers[w].Handling? :: workers[w].attempt
  }

  /** How many moves a worker of a stopping limiter can still make. */
  function Rank(w: Worker): nat {
    match w
    case Exited => 0
    case AtTop => 1
    case Dequeuing => 2
    case Handling(_, _) => 2
    case Woken => 3
    case Parked(_) => 4
  }

  function TotalRank(workers: seq<Worker>): nat {
    if workers == [] then 0 else TotalRank(workers[..|workers| - 1]) + Rank(workers[|workers| - 1])
  }

  lemma {:induction false} TotalRankUpdate(workers: seq<Worker>, i: nat, w: Worker)
    requires i < |workers|
    ensures TotalRank(workers[i := w]) == TotalRank(workers) - Rank(workers[i]) + Rank(w)
  {
    var last := |workers| - 1;
    if i == last {
      assert workers[i := w][..last] == workers[..last];
    } else {
      TotalRankUpdate(workers[..last], i, w);
      assert workers[i := w][..last] == workers[..last][i := w];
    }
  }

  ghost predicate Stopped(s: State) {
    s.shared.stopping && s.shared.queue == []
  }

  ghost predicate NoAdmissionAfter(log: seq<Event>, n: nat) {
    forall i :: n <= i < |log| ==> !IsAdmission(log[i])
  }

  /** The shared state moves on without an admission, and without touching the queue. */
  ghost predicate AdmitsNothing(s: Shared, t: Shared) {
    && t.stopping == s.stopping && t.queue == s.queue
    && s.log <= t.log && NoAdmissionAfter(t.log, |s.log|)
  }

  lemma SightedAdmitsNothing(s: Shared, id: string, finished: bool)
    ensures AdmitsNothing(s, Sighted(s, id, finished))
  {
  }

  lemma ConcludedAdmitsNothing(s: Shared, id: string, finished: bool, deleted: bool)
    requires id in s.jobs
    ensures AdmitsNothing(s, Concluded(s, id, finished, deleted))
  {
  }

  lemma AdmitsNothingTransitive(s: Shared, t: Shared, u: Shared)
    requires AdmitsNothing(s, t) && AdmitsNothing(t, u)
    ensures AdmitsNothing(s, u)
  {
    forall i | |s.log| <= i < |u.log| ensures !IsAdmission(u.log[i]) {
      if i < |t.log| { assert u.log[i] == t.log[i]; }
    }
  }

  lemma ObserveAdmitsNothing(s: Shared, id: string, finished: bool, deleted: bool)
    ensures AdmitsNothing(s, Observe(s, id, finished, deleted))
  {
    if id == "" || (id !in s.jobs && deleted) {
      assert Observe(s, id, finished, deleted) == s;
    } else {
      var sighted := Sighted(s, id, finished);
      SightedAdmitsNothing(s, id, finished);
      ConcludedAdmitsNothing(sighted, id, finished, deleted);
      AdmitsNothingTransitive(s, sighted, Concluded(sighted, id, finished, deleted));
    }
  }

  /** No mutex section of a stopping limiter queues or admits anything. */
  lemma StoppedShared(cfg: Config, s: State, step: Step)
    requires Stopped(s)
    ensures var t := Apply(cfg, s, step);
            Stopped(t) && s.shared.log <= t.shared.log && NoAdmissionAfter(t.shared.log, |s.shared.log|)
  {
    if step.Informer? { ObserveAdmitsNothing(s.shared, step.id, step.finished, step.deleted); }
  }

  lemma StoppedMove(cfg: Config, s: Shared, w: Worker, outcome: Outcome)
    requires s.stopping && Move(cfg, s, w, outcome).Some?
    ensures var m := Move(cfg, s, w, outcome).value.1; !m.Handling? && Rank(m) < Rank(w)
  {
  }

  /** One step of a stopping limiter. */
  lemma StoppedStep(cfg: Config, s: State, step: Step)
    requires Stopped(s)
    ensures var t := Apply(cfg, s, step);
            && HeldBy(t.workers) <= HeldBy(s.workers)
            && TotalRank(t.workers) + (if step.Work? && Enabled(cfg, s, step) then 1 else 0) <= TotalRank(s.workers)
  {
    if step.Work? && Enabled(cfg, s, step) {
      StoppedMove(cfg, s.shared, s.workers[step.w], step.outcome);
      var m := Move(cfg, s.shared, s.workers[step.w], step.outcome).value.1;
      TotalRankUpdate(s.workers, step.w, m);
      var ws := s.workers[step.w := m];
      assert Apply(cfg, s, step).workers == ws;
      forall a | a in HeldBy(ws) ensures a in HeldBy(s.workers) {
        var v :| 0 <= v < |ws| && ws[v].Handling? && ws[v].attempt == a;
        assert s.workers[v].Handling?;
      }
    } else {
      assert Apply(cfg, s, step).workers == s.workers;
    }
  }

  /** The worker moves of a run. */
  function Moves(cfg: Config, s: State, steps: seq<Step>): nat
    decreases |steps|
  {
    if steps == [] then 0
    else (if steps[0].Work? && Enabled(cfg, s, steps[0]) then 1 else 0) + Moves(cfg, Apply(cfg, s, steps[0]), steps[1..])
  }

  /** After Drain, in every continuation: the queue stays empty, every poll is refused, nothing
      is admitted, workers only let go of attempts, and every worker move uses up rank. */
  lemma {:induction false} AfterDrain(cfg: Config, s: State, steps: seq<Step>, jobs: seq<Job>)
    requires Stopped(s)
    ensures var t := Run(cfg, s, steps);
            && Stopped(t)
            && HandleMany(cfg, t.shared, false, jobs) == (t.shared, Refused)
            && HeldBy(t.workers) <= HeldBy(s.workers)
            && s.shared.log <= t.shared.log && NoAdmissionAfter(t.shared.log, |s.shared.log|)
            && Moves(cfg, s, steps) + TotalRank(t.workers) <= TotalRank(s.workers)
    decreases |steps|
  {
    if steps != [] {
      StoppedShared(cfg, s, steps[0]);
      StoppedStep(cfg, s, steps[0]);
      var u := Apply(cfg, s, steps[0]);
      AfterDrain(cfg, u, steps[1..], jobs);
      var t := Run(cfg, u, steps[1..]);
      forall i | |s.shared.log| <= i < |t.shared.log| ensures !IsAdmission(t.shared.log[i]) {
        if i < |u.shared.log| { assert t.shared.log[i] == u.shared.log[i]; }
      }
    }
  }

  lemma {:induction false} RankBound(workers: seq<Worker>)
    ensures TotalRank(workers) <= 4 * |workers|
    ensures TotalRank(workers) == 0 <==> forall w :: 0 <= w < |workers| ==> workers[w].Exited?
  {
    if workers != [] {
      RankBound(workers[..|workers| - 1]);
      assert workers == workers[..|workers| - 1] + [workers[|workers| - 1]];
    }
  }

  lemma {:induction false} RunAppend(cfg: Config, s: State, a: seq<Step>, b: seq<Step>)
    ensures Run(cfg, s, a + b) == Run(cfg, Run(cfg, s, a), b)
    decreases |a|
  {
    if a == [] {
      assert a + b == b;
    } else {
      assert (a + b)[1..] == a[1..] + b;
      RunAppend(cfg, Apply(cfg, s, a[0]), a[1..], b);
    }
  }

  /** Drain ends: from a drained limiter at most four moves per worker remain, and as long as
      a worker outside the next handler has not returned, it can move towards its return. */
  lemma DrainEnds(cfg: Config, workers: nat, before: seq<Step>, after: seq<Step>)
    ensures var s := Reached(cfg, workers, before + [StartDrain]);
            var t := Run(cfg, s, after);
            && Stopped(s)
            && Moves(cfg, s, after) <= 4 * |s.workers|
            && (forall w :: 0 <= w < |t.workers| && !t.workers[w].Exited? ==> Enabled(cfg, t, Work(w, Proceed)))
            && (HeldBy(s.workers) == {} ==> HeldBy(t.workers) == {})
  {
    var p := Reached(cfg, workers, before);
    var s := Reached(cfg, workers, before + [StartDrain]);
    RunAppend(cfg, Start(workers), before, [StartDrain]);
    assert s == Run(cfg, Apply(cfg, p, StartDrain), []);
    ReachedInv(cfg, workers, before + [StartDrain]);
    RunInv(cfg, s, after);
    AfterDrain(cfg, s, after, []);
    RankBound(s.workers);
  }
}
