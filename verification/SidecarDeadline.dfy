/** The deadline that ends a Job whose agent has exited while other containers still run: how it is
    computed, and the read-modify-write that stores it among other writers. */
module SidecarDeadline {
  import opened Options

  /** Times are in nanoseconds, deadlines in seconds from the Job's start. */
  datatype Job = Job(start: Option<int>, deadline: Option<int>)

  const SECOND := 1_000_000_000
  const BUFFER_SECONDS := 10

  function Min(a: int, b: int): int { if a < b then a else b }
  function Max(a: int, b: int): int { if a < b then b else a }

  /** The least whole number of seconds that is no less than ns. */
  function CeilSeconds(ns: int): (seconds: int)
    ensures (seconds - 1) * SECOND < ns <= seconds * SECOND
  {
    -(-ns / SECOND)
  }

  /** The deadline before an existing one is considered. */
  function Uncapped(start: Option<int>, grace: int, exit: int): int {
    if start.None? then grace else Max(grace, CeilSeconds(exit - start.value) + Min(grace, BUFFER_SECONDS))
  }

  /** Enough: the grace period from the start, and ten seconds after the agent's exit, or the grace
      period if that is shorter. */
  predicate Leaves(start: int, grace: int, exit: int, deadline: int) {
    grace <= deadline && exit + (if grace < 10 then grace else 10) * 1_000_000_000 <= start + deadline * 1_000_000_000
  }

  /** An existing deadline is never exceeded; otherwise, once the start is known, the deadline is
      the least that leaves the grace period from the start and the buffer after the agent's exit. */
  function Deadline(job: Job, grace: int, exit: int): (deadline: int)
    ensures job.deadline.Some? ==> deadline <= job.deadline.value
    ensures job.deadline != Some(deadline) && job.start.Some? ==> Leaves(job.start.value, grace, exit, deadline)
    ensures job.start.Some? ==> forall d :: Leaves(job.start.value, grace, exit, d) ==> deadline <= d
    ensures job.start.None? ==> deadline == if job.deadline.Some? && job.deadline.value < grace then job.deadline.value else grace
  {
    if job.deadline.Some? && job.deadline.value < Uncapped(job.start, grace, exit) then job.deadline.value
    else Uncapped(job.start, grace, exit)
  }

  // ---- Replays and other writers -----------------------------------------

  /** Another cleanup would change nothing. */
  predicate Settled(job: Job, grace: int, exit: int) {
    job.deadline == Some(Deadline(job, grace, exit))
  }

  /** What the others do to a Job: they set its start once, and they only lower its deadline. */
  predicate Lowered(job: Job, job': Job) {
    && (job.start.Some? ==> job'.start == job.start)
    && (job.deadline.Some? ==> job'.deadline.Some? && job'.deadline.value <= job.deadline.value)
  }

  /** A settled Job stays settled, whatever the others do and whichever later exit is replayed. */
  lemma SettledStays(job: Job, job': Job, grace: int, exit: int, exit': int)
    requires Settled(job, grace, exit) && Lowered(job, job') && exit <= exit'
    ensures Settled(job', grace, exit')
  {
  }

  datatype Step = Cleanup(exit: int) | Lower(to: int) | Begin(at: int)

  function Apply(job: Job, grace: int, step: Step): Job {
    match step
    case Cleanup(exit) => job.(deadline := Some(Deadline(job, grace, exit)))
    case Lower(to) => if job.deadline.None? || to < job.deadline.value then job.(deadline := Some(to)) else job
    case Begin(at) => if job.start.None? then job.(start := Some(at)) else job
  }

  function Run(job: Job, grace: int, steps: seq<Step>): Job
    decreases |steps|
  {
    if steps == [] then job else Run(Apply(job, grace, steps[0]), grace, steps[1..])
  }

  /** How often a cleanup of the run writes the Job. */
  function Writes(job: Job, grace: int, steps: seq<Step>): nat
    decreases |steps|
  {
    if steps == [] then 0
    else (if steps[0].Cleanup? && !Settled(job, grace, steps[0].exit) then 1 else 0)
         + Writes(Apply(job, grace, steps[0]), grace, steps[1..])
  }

  ghost predicate ExitsInOrder(steps: seq<Step>) {
    forall i, j :: 0 <= i < j < |steps| && steps[i].Cleanup? && steps[j].Cleanup? ==> steps[i].exit <= steps[j].exit
  }

  /** Over every run of cleanups and other writers, the deadline never rises. */
  lemma {:induction false} NeverRises(job: Job, grace: int, steps: seq<Step>)
    ensures Lowered(job, Run(job, grace, steps))
    decreases |steps|
  {
    if steps != [] {
      NeverRises(Apply(job, grace, steps[0]), grace, steps[1..]);
    }
  }

  // ---- Which cleanups write ----------------------------------------------

  /** The Job's start once these steps are done, if it is known by then. */
  function StartAfter(start: Option<int>, steps: seq<Step>): Option<int>
    decreases |steps|
  {
    if start.Some? || steps == [] then start
    else StartAfter(if steps[0].Begin? then Some(steps[0].at) else None, steps[1..])
  }

  /** The deadline that step i asks for, whatever is stored. */
  function Offer(job: Job, grace: int, steps: seq<Step>, i: nat): Option<int>
    requires i < |steps|
  {
    match steps[i]
    case Cleanup(exit) => Some(Uncapped(StartAfter(job.start, steps[..i]), grace, exit))
    case Lower(to) => Some(to)
    case Begin(_) => None
  }

  predicate Undercuts(offer: int, other: Option<int>) {
    other.None? || offer < other.value
  }

  /** Cleanup i asks for a lower deadline than the Job had and than everything asked for before. */
  ghost predicate IsRecord(job: Job, grace: int, steps: seq<Step>, i: nat)
    requires i < |steps|
  {
    && steps[i].Cleanup?
    && var offer := Offer(job, grace, steps, i).value;
       && Undercuts(offer, job.deadline)
       && forall k: nat :: k < i ==> Undercuts(offer, Offer(job, grace, steps, k))
  }

  lemma OfferNext(job: Job, grace: int, steps: seq<Step>, k: nat)
    requires 0 < k < |steps|
    ensures Offer(job, grace, steps, k) == Offer(Apply(job, grace, steps[0]), grace, steps[1..], k - 1)
  {
    assert steps[..k][0] == steps[0] && steps[..k][1..] == steps[1..][..k - 1];
  }

  /** What is stored after a step is undercut by what undercuts the step and what was stored. */
  lemma UndercutsNext(job: Job, grace: int, steps: seq<Step>, offer: int)
    requires steps != []
    ensures Undercuts(offer, Apply(job, grace, steps[0]).deadline) <==>
              Undercuts(offer, job.deadline) && Undercuts(offer, Offer(job, grace, steps, 0))
  {
    assert steps[..0] == [];
  }

  lemma RecordNext(job: Job, grace: int, steps: seq<Step>, i: nat)
    requires 0 < i < |steps|
    ensures IsRecord(job, grace, steps, i) <==> IsRecord(Apply(job, grace, steps[0]), grace, steps[1..], i - 1)
  {
    var next := Apply(job, grace, steps[0]);
    if steps[i].Cleanup? {
      OfferNext(job, grace, steps, i);
      var offer := Offer(job, grace, steps, i).value;
      UndercutsNext(job, grace, steps, offer);
      forall k: nat | k < i - 1
        ensures Undercuts(offer, Offer(next, grace, steps[1..], k)) <==> Undercuts(offer, Offer(job, grace, steps, k + 1))
      {
        OfferNext(job, grace, steps, k + 1);
      }
      if IsRecord(next, grace, steps[1..], i - 1) {
        forall k: nat | k < i ensures Undercuts(offer, Offer(job, grace, steps, k)) {
          if k > 0 { assert Undercuts(offer, Offer(next, grace, steps[1..], k - 1)); }
        }
      }
    }
  }

  /** A cleanup writes exactly if no deadline is stored, or a later one than it asks for. */
  lemma WritesIff(job: Job, grace: int, exit: int)
    ensures !Settled(job, grace, exit) <==> Undercuts(Uncapped(job.start, grace, exit), job.deadline)
  {
  }

  lemma FirstWrites(job: Job, grace: int, steps: seq<Step>)
    requires steps != []
    ensures IsRecord(job, grace, steps, 0) <==> steps[0].Cleanup? && !Settled(job, grace, steps[0].exit)
  {
    assert steps[..0] == [];
  }

  /** In every run, the cleanup at position i writes the Job exactly if it is a record. */
  lemma {:induction false} RecordsWrite(job: Job, grace: int, steps: seq<Step>, i: nat)
    requires i < |steps| && steps[i].Cleanup?
    ensures !Settled(Run(job, grace, steps[..i]), grace, steps[i].exit) <==> IsRecord(job, grace, steps, i)
    decreases i
  {
    if i == 0 {
      assert steps[..0] == [];
      FirstWrites(job, grace, steps);
    } else {
      assert steps[..i][0] == steps[0] && steps[..i][1..] == steps[1..][..i - 1];
      RecordsWrite(Apply(job, grace, steps[0]), grace, steps[1..], i - 1);
      RecordNext(job, grace, steps, i);
    }
  }

  lemma {:induction false} NoWritesIff(job: Job, grace: int, steps: seq<Step>)
    ensures Writes(job, grace, steps) == 0 <==> forall i: nat :: i < |steps| ==> !IsRecord(job, grace, steps, i)
    decreases |steps|
  {
    if steps != [] {
      var next := Apply(job, grace, steps[0]);
      FirstWrites(job, grace, steps);
      NoWritesIff(next, grace, steps[1..]);
      NoneAfter(job, grace, steps);
    }
  }

  lemma NoneAfter(job: Job, grace: int, steps: seq<Step>)
    requires steps != []
    ensures (forall i: nat :: i < |steps[1..]| ==> !IsRecord(Apply(job, grace, steps[0]), grace, steps[1..], i)) <==>
              forall i: nat :: 0 < i < |steps| ==> !IsRecord(job, grace, steps, i)
  {
    var next := Apply(job, grace, steps[0]);
    forall i: nat | 0 < i < |steps| ensures IsRecord(job, grace, steps, i) <==> IsRecord(next, grace, steps[1..], i - 1) {
      RecordNext(job, grace, steps, i);
    }
    forall i: nat | i < |steps[1..]| ensures IsRecord(next, grace, steps[1..], i) <==> IsRecord(job, grace, steps, i + 1) {
      RecordNext(job, grace, steps, i + 1);
    }
  }

  ghost predicate NoTwoRecords(job: Job, grace: int, steps: seq<Step>) {
    forall i: nat, j: nat :: i < j < |steps| ==> !(IsRecord(job, grace, steps, i) && IsRecord(job, grace, steps, j))
  }

  /** The Job is written at most once exactly if no two cleanups are records: after the first that
      writes, no other asks for less than all before it. */
  lemma {:induction false} WritesOnceIff(job: Job, grace: int, steps: seq<Step>)
    ensures Writes(job, grace, steps) <= 1 <==> NoTwoRecords(job, grace, steps)
    decreases |steps|
  {
    if steps != [] {
      var next := Apply(job, grace, steps[0]);
      FirstWrites(job, grace, steps);
      NoWritesIff(next, grace, steps[1..]);
      NoneAfter(job, grace, steps);
      WritesOnceIff(next, grace, steps[1..]);
      NoTwoAfter(job, grace, steps);
    }
  }

  lemma NoTwoAfter(job: Job, grace: int, steps: seq<Step>)
    requires steps != []
    ensures NoTwoRecords(job, grace, steps) <==>
              && NoTwoRecords(Apply(job, grace, steps[0]), grace, steps[1..])
              && (IsRecord(job, grace, steps, 0) ==> forall i: nat :: 0 < i < |steps| ==> !IsRecord(job, grace, steps, i))
  {
    var next := Apply(job, grace, steps[0]);
    forall i: nat | 0 < i < |steps| ensures IsRecord(job, grace, steps, i) <==> IsRecord(next, grace, steps[1..], i - 1) {
      RecordNext(job, grace, steps, i);
    }
    if NoTwoRecords(job, grace, steps) {
      forall i: nat, j: nat | i < j < |steps[1..]|
        ensures !(IsRecord(next, grace, steps[1..], i) && IsRecord(next, grace, steps[1..], j))
      {
        RecordNext(job, grace, steps, i + 1);
        RecordNext(job, grace, steps, j + 1);
      }
    }
  }

  // ---- Replays -----------------------------------------------------------

  /** A replay after a cleanup writes again exactly if it asks for less than the first one stored. */
  lemma ReplayWritesIff(job: Job, grace: int, exit: int, exit': int)
    ensures !Settled(Apply(job, grace, Cleanup(exit)), grace, exit') <==>
              Uncapped(job.start, grace, exit') < Deadline(job, grace, exit)
  {
  }

  lemma {:induction false} StartOnce(start: Option<int>, steps: seq<Step>, i: nat, j: nat)
    requires i <= j <= |steps|
    ensures StartAfter(start, steps[..i]).Some? ==> StartAfter(start, steps[..j]) == StartAfter(start, steps[..i])
    decreases i
  {
    if i > 0 && start.None? {
      var next := if steps[0].Begin? then Some(steps[0].at) else None;
      StartOnce(next, steps[1..], i - 1, j - 1);
      assert steps[..i][1..] == steps[1..][..i - 1] && steps[..j][1..] == steps[1..][..j - 1];
    }
  }

  /** Replays of the same or later exits write the Job at most once. */
  lemma ReplaysWriteOnce(job: Job, grace: int, steps: seq<Step>)
    requires ExitsInOrder(steps)
    ensures Writes(job, grace, steps) <= 1
  {
    forall i: nat, j: nat | i < j < |steps|
      ensures !(IsRecord(job, grace, steps, i) && IsRecord(job, grace, steps, j))
    {
      if steps[i].Cleanup? && steps[j].Cleanup? {
        StartOnce(job.start, steps, i, j);
        assert Offer(job, grace, steps, i).value <= Offer(job, grace, steps, j).value;
      }
    }
    WritesOnceIff(job, grace, steps);
  }

  /** The order can matter: an earlier exit seen later may write again. */
  lemma EarlierExitWritesAgain()
    ensures Writes(Job(Some(0), None), 1, [Cleanup(100 * SECOND), Cleanup(50 * SECOND)]) == 2
  {
    var job, steps := Job(Some(0), None), [Cleanup(100 * SECOND), Cleanup(50 * SECOND)];
    var next := Apply(job, 1, steps[0]);
    assert steps[1..][0] == steps[1] && steps[1..][1..] == [];
    assert next.deadline == Some(101) && Deadline(next, 1, 50 * SECOND) == 51;
    assert Writes(next, 1, steps[1..]) == 1;
  }

  // ---- The read-modify-write ---------------------------------------------

  datatype Outcome = Success | Conflict | Failure

  datatype Write = Write(before: Job, after: Job)

  /** The API server's copy of one Job, with the version that guards updates. */
  class JobStore {
    var stored: Option<Job>
    var version: nat
    ghost var log: seq<Write>
    /** How many reads and updates were answered with an error. */
    ghost var faults: nat
    /** How many of them were updates that met a newer version. */
    ghost var conflicts: nat

    constructor (job: Job)
      ensures stored == Some(job) && log == [] && faults == 0 && conflicts == 0
    {
      stored, version, log, faults, conflicts := Some(job), 0, [], 0, 0;
    }

    /** Others: they may delete the Job, start it, lower its deadline, or touch the rest of it. */
    method Others()
      modifies this`stored, this`version
      ensures stored.Some? ==> old(stored).Some? && Lowered(old(stored).value, stored.value)
      ensures version >= old(version) && (stored != old(stored) ==> version > old(version))
    {
      if * {
        stored, version := None, version + 1;
      } else if stored.Some? {
        var starts: bool, lowers: bool, at: int, to: int := *, *, *, *;
        var job := stored.value;
        if starts && job.start.None? {
          job := job.(start := Some(at));
        }
        if lowers && (job.deadline.None? || to < job.deadline.value) {
          job := job.(deadline := Some(to));
        }
        stored, version := Some(job), version + 1;
      }
    }

    method Get() returns (job: Option<Job>, seen: nat)
      modifies this`faults
      ensures job.Some? ==> job == stored && seen == version && faults == old(faults)
      ensures job.None? ==> faults == old(faults) + 1
    {
      job, seen := stored, version;
      if * {
        job := None;
      }
      faults := if job.None? then faults + 1 else faults;
    }

    /** An update of the version that was read. Its answer may be lost after it took effect. */
    method Update(job: Job, seen: nat) returns (outcome: Outcome)
      modifies this
      ensures outcome.Success? ==> old(version) == seen && stored == Some(job)
      ensures log == old(log) ==> stored == old(stored) && version == old(version)
      ensures log != old(log) ==> old(version) == seen && old(stored).Some? && stored == Some(job) && version > seen
      ensures log != old(log) ==> log == old(log) + [Write(old(stored).value, job)]
      ensures outcome.Success? ==> log != old(log)
      ensures faults == old(faults) + (if outcome.Success? then 0 else 1)
      ensures conflicts == old(conflicts) + (if outcome.Conflict? then 1 else 0)
      ensures outcome.Conflict? ==> log == old(log)
    {
      var fails, lost := *, *;
      if stored.None? {
        outcome := Failure;
      } else if version != seen {
        outcome := Conflict;
      } else if fails {
        outcome := Failure;
      } else {
        log := log + [Write(stored.value, job)];
        stored, version := Some(job), version + 1;
        outcome := if lost then Failure else Success;
      }
      faults := if outcome.Success? then faults else faults + 1;
      conflicts := if outcome.Conflict? then conflicts + 1 else conflicts;
    }

    /** One attempt: reads the Job and stores the deadline, unless it is there already. */
    method TryOnce(grace: int, exit: int) returns (outcome: Outcome, written: bool)
      modifies this
      ensures stored.Some? ==> old(stored).Some? && Lowered(old(stored).value, stored.value)
      ensures outcome.Conflict? ==> log == old(log)
      ensures OneGuardedWrite(old(log), log, grace, exit)
      ensures outcome.Success? ==> stored.None? || Settled(stored.value, grace, exit)
      ensures outcome.Success? ==> written == (log != old(log))
      ensures faults == old(faults) + (if outcome.Success? then 0 else 1)
      ensures conflicts == old(conflicts) + (if outcome.Conflict? then 1 else 0)
    {
      var job, seen := Get();
      if job.None? {
        return Failure, false;
      }
      var deadline := Deadline(job.value, grace, exit);
      if job.value.deadline == Some(deadline) {
        return Success, false;
      }
      Others();
      outcome := Update(job.value.(deadline := Some(deadline)), seen);
      written := outcome.Success?;
      ghost var mine := stored;
      Others();
      if outcome.Success? && stored.Some? {
        SettledStays(mine.value, stored.value, grace, exit, exit);
      }
    }

    /** Stores the cleanup deadline, retrying at most four times after a conflict. However the
        others interfere, the deadline never rises, at most one write takes effect, and it lowers
        the deadline of the Job it replaces; without an error the Job is settled or gone. */
    method CleanupSidecars(grace: int, exit: int) returns (ok: bool, written: bool)
      modifies this
      ensures stored.Some? ==> old(stored).Some? && Lowered(old(stored).value, stored.value)
      ensures OneGuardedWrite(old(log), log, grace, exit)
      ensures ok ==> stored.None? || Settled(stored.value, grace, exit)
      ensures ok ==> written == (log != old(log))
      ensures !ok ==> faults > old(faults)
      // a conflict is tried again, four times; any other error is not
      ensures !ok ==> conflicts == old(conflicts) + 5 || faults - old(faults) == conflicts - old(conflicts) + 1
      ensures ok ==> faults - old(faults) == conflicts - old(conflicts) <= 4
    {
      var outcome;
      outcome, written := TryOnce(grace, exit);
      var calls := 1;
      while outcome.Conflict? && calls < MAX_CALLS
        invariant stored.Some? ==> old(stored).Some? && Lowered(old(stored).value, stored.value)
        invariant OneGuardedWrite(old(log), log, grace, exit)
        invariant outcome.Conflict? ==> log == old(log)
        invariant outcome.Success? ==> stored.None? || Settled(stored.value, grace, exit)
        invariant outcome.Success? ==> written == (log != old(log))
        invariant 1 <= calls <= MAX_CALLS
        invariant faults == old(faults) + calls - (if outcome.Success? then 1 else 0)
        invariant conflicts == old(conflicts) + calls - (if outcome.Conflict? then 0 else 1)
      {
        Others();
        outcome, written := TryOnce(grace, exit);
        calls := calls + 1;
      }
      ok := outcome.Success?;
    }
  }

  const MAX_CALLS := 5

  /** At most one write, of the computed deadline, to a Job that had another one or none. */
  ghost predicate OneGuardedWrite(before: seq<Write>, after: seq<Write>, grace: int, exit: int) {
    || after == before
    || (|after| == |before| + 1 && after[..|before|] == before && LowersDeadline(after[|before|], grace, exit))
  }

  ghost predicate LowersDeadline(w: Write, grace: int, exit: int) {
    && w.after == w.before.(deadline := Some(Deadline(w.before, grace, exit)))
    && (w.before.deadline.None? || w.after.deadline.value < w.before.deadline.value)
  }

  // ---- Which pods are cleaned up -----------------------------------------

  datatype Phase = Pending | Running | Succeeded | Failed | Unknown

  /** `terminated` is None for a container that still runs or has not started; a finish time may
      be missing. */
  datatype ContainerStatus = ContainerStatus(name: string, terminated: Option<Option<int>>)

  const AGENT := "agent"

  function AgentTermination(statuses: seq<ContainerStatus>): Option<Option<int>> {
    if statuses == [] then None
    else if statuses[0].name == AGENT && statuses[0].terminated.Some? then statuses[0].terminated
    else AgentTermination(statuses[1..])
  }

  predicate OthersRunning(statuses: seq<ContainerStatus>) {
    exists c :: c in statuses && c.name != AGENT && c.terminated.None?
  }

  predicate NeedsCleanup(phase: Phase, statuses: seq<ContainerStatus>) {
    !phase.Succeeded? && !phase.Failed? && !phase.Unknown? && AgentTermination(statuses).Some? && OthersRunning(statuses)
  }

  /** Position i holds the first status of a container called "agent" that has exited. */
  ghost predicate FirstExit(statuses: seq<ContainerStatus>, i: nat) {
    && i < |statuses| && statuses[i].name == "agent" && statuses[i].terminated.Some?
    && forall k :: 0 <= k < i ==> statuses[k].name != "agent" || statuses[k].terminated.None?
  }

  /** The agent has exited exactly if some status of it says so, and the first that does counts. */
  lemma {:induction false} AgentTerminationIsFirstExit(statuses: seq<ContainerStatus>)
    ensures AgentTermination(statuses).Some? <==> exists i: nat :: FirstExit(statuses, i)
    ensures forall i: nat :: FirstExit(statuses, i) ==> AgentTermination(statuses) == statuses[i].terminated
  {
    if statuses != [] {
      var rest := statuses[1..];
      AgentTerminationIsFirstExit(rest);
      if statuses[0].name == "agent" && statuses[0].terminated.Some? {
        assert FirstExit(statuses, 0);
      } else {
        forall i: nat ensures FirstExit(statuses, i + 1) <==> FirstExit(rest, i) {
          FirstExitNext(statuses, i);
        }
        assert !FirstExit(statuses, 0);
        forall i: nat | FirstExit(statuses, i) ensures i > 0 && FirstExit(rest, i - 1) {
          assert FirstExit(statuses, (i - 1) + 1);
        }
        if i: nat :| FirstExit(rest, i) {
          assert FirstExit(statuses, i + 1);
        }
      }
    }
  }

  lemma FirstExitNext(statuses: seq<ContainerStatus>, i: nat)
    requires statuses != [] && (statuses[0].name != "agent" || statuses[0].terminated.None?)
    ensures FirstExit(statuses, i + 1) <==> FirstExit(statuses[1..], i)
  {
    assert forall k :: 0 <= k < |statuses| - 1 ==> statuses[1..][k] == statuses[k + 1];
    if FirstExit(statuses, i + 1) {
      forall k | 0 <= k < i ensures statuses[1..][k].name != "agent" || statuses[1..][k].terminated.None? {
        assert statuses[1..][k] == statuses[k + 1];
      }
    }
    if FirstExit(statuses[1..], i) {
      forall k | 0 <= k < i + 1 ensures statuses[k].name != "agent" || statuses[k].terminated.None? {
        if k > 0 { assert statuses[k] == statuses[1..][k - 1]; }
      }
    }
  }

  /** Which pods are cleaned up: those that still run or wait, whose agent has exited, and in which
      another container has not. */
  lemma CleanupNeededIff(phase: Phase, statuses: seq<ContainerStatus>)
    ensures NeedsCleanup(phase, statuses) <==>
              && (phase.Pending? || phase.Running?)
              && (exists i: nat :: FirstExit(statuses, i))
              && exists k :: 0 <= k < |statuses| && statuses[k].name != "agent" && statuses[k].terminated.None?
  {
    AgentTerminationIsFirstExit(statuses);
    if OthersRunning(statuses) {
      var c :| c in statuses && c.name != AGENT && c.terminated.None?;
      var k :| 0 <= k < |statuses| && statuses[k] == c;
    }
  }

  /** Handles a pod event. The Job of a pod that needs no cleanup is left alone; otherwise its
      deadline counts from the agent's exit, or from now if the pod does not tell. */
  method OnPod(store: JobStore, phase: Phase, statuses: seq<ContainerStatus>, grace: int, now: int) returns (ok: bool, written: bool)
    modifies store
    ensures !NeedsCleanup(phase, statuses) ==> ok && !written && store.log == old(store.log) && store.stored == old(store.stored)
    ensures !ok ==> store.faults > old(store.faults)
    ensures store.stored.Some? ==> old(store.stored).Some? && Lowered(old(store.stored).value, store.stored.value)
    ensures NeedsCleanup(phase, statuses) ==>
              var finished := AgentTermination(statuses).value;
              var exit := if finished.Some? then finished.value else now;
              && OneGuardedWrite(old(store.log), store.log, grace, exit)
              && (ok ==> store.stored.None? || Settled(store.stored.value, grace, exit))
  {
    if phase.Succeeded? || phase.Failed? || phase.Unknown? {
      return true, false;
    }
    var terminated := AgentTermination(statuses);
    if terminated.None? || !OthersRunning(statuses) {
      return true, false;
    }
    var exit := if terminated.value.Some? then terminated.value.value else now;
    ok, written := store.CleanupSidecars(grace, exit);
  }

  /** Handles an update event: only the one that first shows the agent's exit counts. */
  method OnUpdate(store: JobStore, before: seq<ContainerStatus>, phase: Phase, statuses: seq<ContainerStatus>, grace: int, now: int)
    returns (ok: bool, written: bool)
    modifies store
    ensures !NeedsCleanup(phase, statuses) || (exists i: nat :: FirstExit(before, i)) ==>
              ok && !written && store.log == old(store.log) && store.stored == old(store.stored)
    ensures !ok ==> store.faults > old(store.faults)
    ensures NeedsCleanup(phase, statuses) && (forall i: nat :: !FirstExit(before, i)) && ok ==>
              forall i: nat :: FirstExit(statuses, i) ==>
                var finished := statuses[i].terminated.value;
                store.stored.None? || Settled(store.stored.value, grace, if finished.Some? then finished.value else now)
  {
    AgentTerminationIsFirstExit(before);
    AgentTerminationIsFirstExit(statuses);
    if AgentTermination(before).Some? {
      return true, false;
    }
    ok, written := OnPod(store, phase, statuses, grace, now);
  }
}
