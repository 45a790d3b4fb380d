/** The limiter object: fields behind one mutex, shared job states compared by
    reference, and a broadcast channel that is closed and replaced. Every method
    is one mutex section and computes exactly the section of LimiterSpec. */
module Limiter {
  import opened Options
  import opened JobQueue
  import opened LimiterSpec

  class Channel {
    ghost const generation: nat
    var closed: bool

    constructor (ghost generation: nat)
      ensures this.generation == generation && !closed
    {
      this.generation := generation;
      closed := false;
    }

    /** Closing a closed channel panics. */
    method Close()
      requires !closed
      modifies this
      ensures closed
    {
      closed := true;
    }
  }

  class JobState {
    ghost const id: string
    ghost const attempt: nat
    var observed: bool
    var finished: bool

    constructor (ghost id: string, ghost attempt: nat, finished: bool)
      ensures this.id == id && this.attempt == attempt && !observed && this.finished == finished
    {
      this.id := id;
      this.attempt := attempt;
      this.observed := false;
      this.finished := finished;
    }

    /** The object behind an entry of the specification. */
    ghost predicate Backs(id: string, e: Entry)
      reads this
    {
      this.id == id && attempt == e.attempt && observed == e.observed && finished == e.finished
    }
  }

  /** Deduplicates in place, sorts stably by descending priority and cuts from the end. */
  method Arrange(all: seq<Job>, limit: nat) returns (q: seq<Job>)
    ensures q == Cut(StableSort(Dedup(all)), limit)
  {
    var slice := new Job[|all|](i requires 0 <= i < |all| => all[i]);
    assert slice[..] == all;
    var n := InPlaceDedup(slice);
    var sorted := StableSort(slice[..n]);
    q := sorted[..if |sorted| <= limit then |sorted| else limit];
  }

  class Limiter {
    const maxInFlight: nat
    const workQueueLimit: nat
    var newWork: Channel
    var queue: seq<Job>
    var paused: bool
    var stopping: bool
    var jobs: map<string, JobState>
    var inFlight: int
    var intakeDone: bool

    /** The state of the specification this object is in. */
    ghost var view: Shared
    /** Every job state ever made, by attempt number. */
    ghost var made: map<nat, JobState>

    /** This limiter made the state object. */
    ghost predicate Made(state: JobState)
      reads this
    {
      state.attempt in made && made[state.attempt] == state
    }

    /** State objects keep their numbers. */
    ghost predicate StillMade(before: map<nat, JobState>)
      reads this
    {
      forall a :: a in before ==> a in made && made[a] == before[a]
    }

    ghost predicate Valid()
      reads this, newWork, jobs.Values
    {
      && !newWork.closed && newWork.generation == view.generation
      && queue == view.queue && paused == view.paused && stopping == view.stopping
      && intakeDone == view.intakeDone && inFlight == view.inFlight
      && jobs.Keys == view.jobs.Keys
      && (forall id :: id in jobs ==> jobs[id].Backs(id, view.jobs[id]) && Made(jobs[id]))
      && (forall a :: a in made ==> a < view.nextAttempt)
    }

    ghost function Cfg(): Config {
      Config(maxInFlight, workQueueLimit)
    }

    constructor (maxInFlight: nat, workQueueLimit: nat)
      ensures Valid() && view == INITIAL && Cfg() == Config(maxInFlight, workQueueLimit)
      ensures fresh(newWork) && jobs == map[]
    {
      this.maxInFlight := maxInFlight;
      this.workQueueLimit := workQueueLimit;
      newWork := new Channel(0);
      queue, paused, stopping, jobs, inFlight, intakeDone := [], false, false, map[], 0, false;
      view, made := INITIAL, map[];
    }

    /** Every worker that captured the old channel wakes. */
    method NotifyWorkers()
      requires Valid()
      modifies `newWork, `view, newWork
      ensures Valid() && view == Notify(old(view))
      ensures old(newWork).closed && fresh(newWork)
    {
      newWork.Close();
      newWork := new Channel(newWork.generation + 1);
      view := Notify(view);
    }

    method Pause(pause: bool)
      requires Valid()
      modifies this, newWork
      ensures Valid() && view == LimiterSpec.Pause(old(view), pause)
      ensures jobs == old(jobs) && made == old(made)
    {
      paused, view := pause, view.(paused := pause);
      NotifyWorkers();
    }

    method HandleMany(callerDone: bool, more: seq<Job>) returns (r: Intake)
      requires Valid()
      modifies this, newWork
      ensures Valid() && (view, r) == LimiterSpec.HandleMany(Cfg(), old(view), callerDone, more)
      ensures jobs == old(jobs) && made == old(made)
    {
      if callerDone {
        return CallerCancelled;
      }
      if stopping || intakeDone {
        return Refused;
      }
      queue := queue + more;
      if |queue| == 0 {
        return Accepted;
      }
      queue := Arrange(queue, workQueueLimit);
      view := view.(queue := queue);
      NotifyWorkers();
      return Accepted;
    }

    /** Enters a new state object for an id that has none, and takes its slot. */
    method Enter(id: string, state: JobState, ghost admitted: bool)
      requires Valid() && id !in jobs
      requires state.Backs(id, Entry(view.nextAttempt, admitted, false, state.finished))
      modifies `jobs, `inFlight, `view, `made
      ensures Valid() && view == Begin(old(view), id, admitted, state.finished)
      ensures jobs == old(jobs)[id := state] && Made(state) && StillMade(old(made))
    {
      jobs := jobs[id := state];
      made := made[state.attempt := state];
      inFlight := if state.finished then inFlight else inFlight + 1;
      view := Begin(view, id, admitted, state.finished);
      forall o | o in jobs && o != id ensures jobs[o].Backs(o, view.jobs[o]) && Made(jobs[o]) {
        assert old(jobs[o].Backs(o, view.jobs[o]) && Made(jobs[o]));
      }
    }

    method Admit(id: string) returns (state: JobState)
      requires Valid() && id !in jobs
      modifies this, newWork
      ensures Valid() && view == Notify(Begin(old(view), id, true, false))
      ensures fresh(state) && state.attempt == old(view.nextAttempt) && Made(state) && StillMade(old(made))
    {
      state := new JobState(id, view.nextAttempt, false);
      Enter(id, state, true);
      NotifyWorkers();
    }

    /** The job and the state to run it under, or nothing. */
    method TryDequeueWork() returns (job: Option<Job>, state: JobState?)
      requires Valid()
      modifies this, newWork
      ensures Valid() && StillMade(old(made))
      ensures view == TryDequeue(Cfg(), old(view)).0
      ensures var got := TryDequeue(Cfg(), old(view)).1;
              if got.None? then job == None && state == null
              else job == Some(got.value.0) && state != null && state.attempt == got.value.1 && Made(state) && fresh(state)
    {
      if stopping || intakeDone || paused || (maxInFlight > 0 && inFlight >= maxInFlight) {
        return None, null;
      }
      ghost var before := view;
      while |queue| > 0
        invariant Valid() && view == before.(queue := queue)
        invariant jobs == old(jobs) && made == old(made) && newWork == old(newWork)
        invariant SkipKnown(queue, before.jobs) == SkipKnown(before.queue, before.jobs)
        decreases |queue|
      {
        var next := queue[0];
        queue, view := queue[1..], view.(queue := queue[1..]);
        if next.id !in jobs {
          state := Admit(next.id);
          return Some(next), state;
        }
      }
      return None, null;
    }

    /** The top of the worker loop: return at once, or look at the channel to wait on. */
    method LoopTop() returns (done: bool, changed: Channel, ready: bool)
      requires Valid()
      ensures done == stopping && changed == newWork && !changed.closed
      ensures ready == Ready(Cfg(), view)
    {
      done := stopping;
      var atCapacity := maxInFlight > 0 && inFlight >= maxInFlight;
      changed := newWork;
      ready := !paused && !atCapacity && |queue| > 0;
    }

    /** A handler returned an error for a job and the state it was dequeued with. The
        entry is compared with that state by reference. */
    method HandlerReturnedError(id: string, state: JobState)
      requires Valid()
      requires Made(state)
      modifies this, newWork
      ensures Valid() && view == HandlerFailed(old(view), id, state.attempt)
      ensures made == old(made)
    {
      if id in jobs && jobs[id] == state && !state.observed {
        inFlight := inFlight - 1;
        view := view.(inFlight := inFlight, log := view.log + [Vacated(id, state.attempt)]);
        Remove(id, false);
        NotifyWorkers();
      }
    }

    method StartDrain()
      requires Valid()
      modifies this, newWork
      ensures Valid() && view == Drain(old(view))
      ensures jobs == old(jobs) && made == old(made)
    {
      stopping := true;
      queue := [];
      view := view.(stopping := true, queue := []);
      NotifyWorkers();
    }

    /** An informer event: id is the Job's UUID label, or empty. */
    method ObserveJob(id: string, finished: bool, deleted: bool)
      requires Valid()
      modifies this, newWork, jobs.Values
      ensures Valid() && StillMade(old(made))
      ensures view == Observe(old(view), id, finished, deleted)
    {
      if id == "" {
        return;
      }
      var previousInFlight := inFlight;
      if id !in jobs {
        if deleted {
          return;
        }
        var unseen := new JobState(id, view.nextAttempt, finished);
        Enter(id, unseen, false);
      }
      MarkAndConclude(id, finished, deleted);
      if inFlight != previousInFlight {
        NotifyWorkers();
      }
    }

    /** The rest of an informer event, once the id has a state. */
    method MarkAndConclude(id: string, finished: bool, deleted: bool)
      requires Valid() && id in jobs
      modifies `view, `inFlight, `jobs, jobs[id]
      ensures Valid() && view == Concluded(MarkObserved(old(view), id), id, finished, deleted)
    {
      SetObserved(id);
      if !jobs[id].finished && (deleted || finished) {
        GiveBack(id);
      }
      if deleted {
        Remove(id, true);
      }
    }

    method SetObserved(id: string)
      requires Valid() && id in jobs
      modifies `view, jobs[id]
      ensures Valid() && view == MarkObserved(old(view), id)
    {
      jobs[id].observed := true;
      view := MarkObserved(view, id);
    }

    method GiveBack(id: string)
      requires Valid() && id in jobs && !jobs[id].finished
      modifies `view, `inFlight, jobs[id]
      ensures Valid() && view == Finish(old(view), id)
    {
      jobs[id].finished := true;
      inFlight := inFlight - 1;
      view := Finish(view, id);
    }

    method Remove(id: string, ghost deleted: bool)
      requires Valid() && id in jobs
      modifies `view, `jobs
      ensures Valid() && view == Forget(old(view), id, deleted)
    {
      jobs := jobs - {id};
      view := Forget(view, id, deleted);
    }
  }

  /** Makes a limiter, and says how many workers to start. A negative maxInFlight is a panic. */
  method New(maxInFlight: int, concurrency: int, workQueueLimit: int) returns (l: Limiter?, workers: nat)
    ensures LimiterSpec.New(maxInFlight, concurrency, workQueueLimit).None? <==> l == null
    ensures l != null ==>
              var launched := LimiterSpec.New(maxInFlight, concurrency, workQueueLimit).value;
              && fresh(l) && l.Valid()
              && l.Cfg() == launched.0 && State(l.view, seq(workers, _ => AtTop)) == launched.1
  {
    if maxInFlight < 0 {
      return null, 0;
    }
    workers := if concurrency <= 0 then DEFAULT_JOB_CREATION_CONCURRENCY else concurrency;
    l := new Limiter(maxInFlight, if workQueueLimit <= 0 then DEFAULT_WORK_QUEUE_LIMIT else workQueueLimit);
  }
}
