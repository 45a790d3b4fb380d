/** The cancellation checker: one table of what to delete for each Buildkite job, fed by pod events,
    by Job events and by polls that run at the same time. */
module CancelChecker {
  import opened Options

  datatype Target = PodTarget(name: string) | JobTarget(name: string)

  type Table = map<string, Target>

  datatype Phase = Pending | Running | Over

  // ---- The mutex sections ------------------------------------------------

  function AddPod(checking: Table, uuid: string, name: string): Table {
    checking[uuid := PodTarget(name)]
  }

  predicate HasPodTarget(checking: Table, uuid: string) {
    uuid in checking && checking[uuid].PodTarget?
  }

  /** A pod target is never replaced. */
  function AddK8sJob(checking: Table, uuid: string, name: string): Table {
    if HasPodTarget(checking, uuid) then checking else checking[uuid := JobTarget(name)]
  }

  // ---- Events ------------------------------------------------------------

  /** Whether the job controller ever saw a pod of the Job, by any of the counters it keeps. */
  datatype PodCounts = PodCounts(active: nat, failed: nat, succeeded: nat, terminating: Option<nat>, uncounted: Option<(nat, nat)>)

  predicate HasPod(c: PodCounts): (has: bool)
    ensures has <==> c.active > 0 || c.failed > 0 || c.succeeded > 0 || (c.terminating.Some? && c.terminating.value > 0)
                     || (c.uncounted.Some? && (c.uncounted.value.0 > 0 || c.uncounted.value.1 > 0))
  {
    var pods := c.active + c.failed + c.succeeded;
    var terminating := if c.terminating.Some? then c.terminating.value else 0;
    var uncounted := if c.uncounted.Some? then c.uncounted.value.0 + c.uncounted.value.1 else 0;
    pods + terminating + uncounted > 0
  }

  datatype JobState = Cancelled | Waiting | Elsewhere

  /** How a delete ended. */
  datatype Deletion = Deleted | NotFound | Failed

  /** The pod event handler runs on one goroutine; between its sections anything else may run. */
  datatype PodHandler = Idle | Looking(uuid: string, name: string) | Registering(uuid: string, name: string)

  datatype JobHandler = Rest | Stopping(uuid: string) | Adding(uuid: string, name: string)

  /** A registration is told apart from every other by the position of its event. */
  datatype Event =
    | Registered(uuid: string, target: Target)
    | PollStarted(table: Table)
    | DeleteAnswered(uuid: string, target: Target, outcome: Deletion)
    | FoundElsewhere(uuid: string)
    | Dropped(uuid: string, dropped: Option<Target>)

  /** `polled` holds the targets of the poll that is under way and still unanswered, and
      `dropping` the jobs whose registration its handlers are about to drop. */
  datatype State = State(
    checking: Table, latest: map<string, Phase>,
    podHandler: PodHandler, podIgnored: set<string>,
    jobHandler: JobHandler, jobIgnored: set<string>,
    polled: Table, dropping: set<string>, log: seq<Event>)

  datatype Step =
    | PodSeen(uuid: string, phase: Phase, name: string)
    | PodGone(uuid: string)
    | PodContinue
    | PodIgnore(uuid: string)
    | JobSeen(uuid: string, finished: bool, counts: PodCounts, name: string)
    | JobGone(uuid: string)
    | JobContinue
    | JobIgnore(uuid: string)
    | Poll
    | Answer(uuid: string, state: JobState, outcome: Deletion)
    | Drop(uuid: string)
    | EndPoll

  const START := State(map[], map[], Idle, {}, Rest, {}, map[], {}, [])

  function ApplyPod(s: State, step: Step): State
    requires step.PodSeen? || step.PodGone? || step.PodContinue? || step.PodIgnore?
  {
    match step
    case PodSeen(uuid, phase, name) =>
      if !s.podHandler.Idle? then s
      else s.(latest := s.latest[uuid := phase],
              checking := if phase.Pending? then s.checking else s.checking - {uuid},
              podHandler := if phase.Pending? then Looking(uuid, name) else Idle)
    case PodGone(uuid) =>
      if !s.podHandler.Idle? then s
      else s.(latest := s.latest - {uuid}, checking := s.checking - {uuid}, podIgnored := s.podIgnored - {uuid})
    case PodContinue => (
      match s.podHandler
      case Idle => s
      case Looking(uuid, name) => s.(podHandler := if uuid in s.podIgnored then Idle else Registering(uuid, name))
      case Registering(uuid, name) =>
        s.(checking := AddPod(s.checking, uuid, name), podHandler := Idle, log := s.log + [Registered(uuid, PodTarget(name))])
    )
    case PodIgnore(uuid) => s.(podIgnored := s.podIgnored + {uuid})
  }

  function ApplyJob(s: State, step: Step): State
    requires step.JobSeen? || step.JobGone? || step.JobContinue? || step.JobIgnore?
  {
    match step
    case JobSeen(uuid, finished, counts, name) =>
      if !s.jobHandler.Rest? || uuid in s.jobIgnored then s
      else if finished then s.(jobHandler := Stopping(uuid))
      else if !HasPod(counts) then s.(jobHandler := Adding(uuid, name))
      else s
    case JobGone(uuid) =>
      if !s.jobHandler.Rest? then s else s.(checking := s.checking - {uuid}, jobIgnored := s.jobIgnored - {uuid})
    case JobContinue => (
      match s.jobHandler
      case Rest => s
      case Stopping(uuid) => s.(checking := s.checking - {uuid}, jobHandler := Rest)
      case Adding(uuid, name) =>
        s.(checking := AddK8sJob(s.checking, uuid, name), jobHandler := Rest,
           log := if HasPodTarget(s.checking, uuid) then s.log else s.log + [Registered(uuid, JobTarget(name))])
    )
    case JobIgnore(uuid) => s.(jobIgnored := s.jobIgnored + {uuid})
  }

  function Find(m: Table, uuid: string): Option<Target> {
    if uuid in m then Some(m[uuid]) else None
  }

  function ApplyPoll(s: State, step: Step): State
    requires step.Poll? || step.Answer? || step.Drop? || step.EndPoll?
  {
    match step
    case Poll =>
      // the next poll waits for the handlers of the one before
      if s.polled != map[] || s.dropping != {} || s.checking == map[] then s
      else s.(polled := s.checking, log := s.log + [PollStarted(s.checking)])
    case Answer(uuid, state, outcome) =>
      if uuid !in s.polled then s
      else
        var t := s.(polled := s.polled - {uuid});
        (match state
         case Waiting => t
         case Cancelled =>
           t.(dropping := if outcome.Failed? then s.dropping else s.dropping + {uuid},
              log := s.log + [DeleteAnswered(uuid, s.polled[uuid], outcome)])
         case Elsewhere => t.(dropping := s.dropping + {uuid}, log := s.log + [FoundElsewhere(uuid)]))
    case Drop(uuid) =>
      if uuid !in s.dropping then s
      else s.(checking := s.checking - {uuid}, dropping := s.dropping - {uuid},
              log := s.log + [Dropped(uuid, Find(s.checking, uuid))])
    case EndPoll => s.(polled := map[])  // the rest was not answered
  }

  function Apply(s: State, step: Step): State {
    if step.PodSeen? || step.PodGone? || step.PodContinue? || step.PodIgnore? then ApplyPod(s, step)
    else if step.JobSeen? || step.JobGone? || step.JobContinue? || step.JobIgnore? then ApplyJob(s, step)
    else ApplyPoll(s, step)
  }

  function Run(s: State, steps: seq<Step>): State
    decreases |steps|
  {
    if steps == [] then s else Run(Apply(s, steps[0]), steps[1..])
  }

  // ---- The invariant -----------------------------------------------------

  predicate LastPending(s: State, uuid: string) {
    uuid in s.latest && s.latest[uuid].Pending?
  }

  ghost predicate PodTargetsPending(s: State) {
    && (forall u :: u in s.checking && s.checking[u].PodTarget? ==> LastPending(s, u))
    && (!s.podHandler.Idle? ==> LastPending(s, s.podHandler.uuid))
  }

  /** Where the last poll started. */
  function LastPollAt(log: seq<Event>): (p: Option<nat>)
    ensures p.Some? ==> p.value < |log| && log[p.value].PollStarted?
  {
    if log == [] then None
    else if log[|log| - 1].PollStarted? then Some(|log| - 1)
    else LastPollAt(log[..|log| - 1])
  }

  /** The last registration of uuid. */
  function LastRegistrationAt(log: seq<Event>, uuid: string): (r: Option<nat>)
    ensures r.Some? ==> r.value < |log| && log[r.value].Registered? && log[r.value].uuid == uuid
  {
    if log == [] then None
    else if log[|log| - 1].Registered? && log[|log| - 1].uuid == uuid then Some(|log| - 1)
    else LastRegistrationAt(log[..|log| - 1], uuid)
  }

  /** The last registration of uuid was for this target. */
  predicate RegisteredAs(log: seq<Event>, uuid: string, target: Target) {
    var r := LastRegistrationAt(log, uuid);
    r.Some? && log[r.value].target == target
  }

  /** The last poll started with this target for uuid. */
  predicate Polled(log: seq<Event>, uuid: string, target: Target) {
    var p := LastPollAt(log);
    p.Some? && Find(log[p.value].table, uuid) == Some(target)
  }

  predicate InLastPoll(log: seq<Event>, uuid: string) {
    var p := LastPollAt(log);
    p.Some? && uuid in log[p.value].table
  }

  /** Since the last poll started, a delete for uuid succeeded or found nothing, or its job turned
      out to be elsewhere. */
  predicate Justified(log: seq<Event>, uuid: string) {
    log != []
    && var e := log[|log| - 1];
       || e == FoundElsewhere(uuid)
       || (e.DeleteAnswered? && e.uuid == uuid && !e.outcome.Failed?)
       || (!e.PollStarted? && Justified(log[..|log| - 1], uuid))
  }

  /** What makes an event of a poll right, given what was logged before. */
  ghost predicate Legitimate(before: seq<Event>, e: Event) {
    match e
    case PollStarted(table) => forall u :: u in table ==> RegisteredAs(before, u, table[u])
    case DeleteAnswered(u, target, _) => Polled(before, u, target)
    case Dropped(u, dropped) =>
      Justified(before, u) && InLastPoll(before, u) && (dropped.Some? ==> RegisteredAs(before, u, dropped.value))
    case _ => true
  }

  ghost predicate AllLegitimate(log: seq<Event>) {
    forall i :: 0 <= i < |log| ==> Legitimate(log[..i], log[i])
  }

  ghost predicate TableLogged(s: State) {
    forall u :: u in s.checking ==> RegisteredAs(s.log, u, s.checking[u])
  }

  ghost predicate PollsLogged(s: State) {
    && (forall u :: u in s.polled ==> Polled(s.log, u, s.polled[u]))
    && (forall u :: u in s.dropping ==> Justified(s.log, u) && InLastPoll(s.log, u))
  }

  ghost predicate Inv(s: State) {
    PodTargetsPending(s) && TableLogged(s) && PollsLogged(s) && AllLegitimate(s.log)
  }

  /** What one more event changes for uuid. */
  lemma EventNext(log: seq<Event>, e: Event, uuid: string)
    ensures LastPollAt(log + [e]) == if e.PollStarted? then Some(|log|) else LastPollAt(log)
    ensures LastRegistrationAt(log + [e], uuid) == if e.Registered? && e.uuid == uuid then Some(|log|) else LastRegistrationAt(log, uuid)
    ensures !e.PollStarted? && Justified(log, uuid) ==> Justified(log + [e], uuid)
  {
    assert (log + [e])[..|log|] == log;
  }

  lemma LegitimateNext(log: seq<Event>, e: Event)
    requires AllLegitimate(log) && Legitimate(log, e)
    ensures AllLegitimate(log + [e])
  {
    var l := log + [e];
    forall i | 0 <= i < |l| ensures Legitimate(l[..i], l[i]) {
      if i < |log| {
        assert l[..i] == log[..i];
      } else {
        assert l[..i] == log;
      }
    }
  }

  /** One more event keeps what is logged about everything it does not concern. */
  lemma EventKeeps(s: State, t: State, e: Event)
    requires Inv(s) && t.log == s.log + [e] && Legitimate(s.log, e) && PodTargetsPending(t)
    requires forall u :: u in t.checking ==>
               if e.Registered? && e.uuid == u then t.checking[u] == e.target else u in s.checking && t.checking[u] == s.checking[u]
    requires if e.PollStarted? then t.polled == e.table && t.dropping == {}
             else forall u :: u in t.polled ==> u in s.polled && t.polled[u] == s.polled[u]
    requires forall u :: u in t.dropping && u !in s.dropping ==> Justified(t.log, u) && u in s.polled
    ensures Inv(t)
  {
    LegitimateNext(s.log, e);
    forall u { EventNext(s.log, e, u); }
  }

  /** Registrations and polls that end keep the invariant. */
  lemma NoEventKeeps(s: State, t: State)
    requires Inv(s) && t.log == s.log && PodTargetsPending(t)
    requires forall u :: u in t.checking ==> u in s.checking && t.checking[u] == s.checking[u]
    requires forall u :: u in t.polled ==> u in s.polled && t.polled[u] == s.polled[u]
    requires t.dropping <= s.dropping
    ensures Inv(t)
  {
  }

  lemma PodStepInv(s: State, step: Step)
    requires Inv(s) && (step.PodSeen? || step.PodGone? || step.PodContinue? || step.PodIgnore?)
    ensures Inv(ApplyPod(s, step))
  {
    var t := ApplyPod(s, step);
    if t.log != s.log { EventKeeps(s, t, t.log[|s.log|]); } else { NoEventKeeps(s, t); }
  }

  lemma JobContinueInv(s: State)
    requires Inv(s)
    ensures Inv(ApplyJob(s, JobContinue))
  {
    var t := ApplyJob(s, JobContinue);
    match s.jobHandler
    case Rest =>
    case Stopping(uuid) => NoEventKeeps(s, t);
    case Adding(uuid, name) =>
      if HasPodTarget(s.checking, uuid) { NoEventKeeps(s, t); } else { EventKeeps(s, t, Registered(uuid, JobTarget(name))); }
  }

  lemma JobStepInv(s: State, step: Step)
    requires Inv(s) && (step.JobSeen? || step.JobGone? || step.JobContinue? || step.JobIgnore?)
    ensures Inv(ApplyJob(s, step))
  {
    if step.JobContinue? { JobContinueInv(s); } else { NoEventKeeps(s, ApplyJob(s, step)); }
  }

  lemma AnswerInv(s: State, step: Step)
    requires Inv(s) && step.Answer?
    ensures Inv(ApplyPoll(s, step))
  {
    var t := ApplyPoll(s, step);
    var uuid := step.uuid;
    if uuid in s.polled {
      match step.state
      case Waiting => NoEventKeeps(s, t);
      case Cancelled => EventKeeps(s, t, DeleteAnswered(uuid, s.polled[uuid], step.outcome));
      case Elsewhere => EventKeeps(s, t, FoundElsewhere(uuid));
    }
  }

  lemma PollStepInv(s: State, step: Step)
    requires Inv(s) && (step.Poll? || step.Answer? || step.Drop? || step.EndPoll?)
    ensures Inv(ApplyPoll(s, step))
  {
    var t := ApplyPoll(s, step);
    match step
    case Answer(_, _, _) => AnswerInv(s, step);
    case Poll => if t != s { EventKeeps(s, t, PollStarted(s.checking)); }
    case Drop(uuid) => if t != s { EventKeeps(s, t, Dropped(uuid, Find(s.checking, uuid))); }
    case EndPoll => NoEventKeeps(s, t);
  }

  lemma StepInv(s: State, step: Step)
    requires Inv(s)
    ensures Inv(Apply(s, step))
  {
    if step.PodSeen? || step.PodGone? || step.PodContinue? || step.PodIgnore? { PodStepInv(s, step); }
    else if step.JobSeen? || step.JobGone? || step.JobContinue? || step.JobIgnore? { JobStepInv(s, step); }
    else { PollStepInv(s, step); }
  }

  lemma {:induction false} RunInv(s: State, steps: seq<Step>)
    requires Inv(s)
    ensures Inv(Run(s, steps))
    decreases |steps|
  {
    if steps != [] {
      StepInv(s, steps[0]);
      RunInv(Apply(s, steps[0]), steps[1..]);
    }
  }

  // ---- What every run guarantees -----------------------------------------

  /** A job that is to be cancelled through its pod had a pending pod at its last pod event. */
  lemma PodTargetMeansPending(steps: seq<Step>, uuid: string)
    requires var s := Run(START, steps); uuid in s.checking && s.checking[uuid].PodTarget?
    ensures LastPending(Run(START, steps), uuid)
  {
    RunInv(START, steps);
  }

  ghost predicate StaysRegistered(s: State, steps: seq<Step>, uuid: string) {
    forall n :: 0 <= n <= |steps| ==> uuid in Run(s, steps[..n]).checking
  }

  /** While a job stays registered, no event turns its pod target back into a Job target. */
  lemma {:induction false} PodTargetIsNotReplaced(s: State, steps: seq<Step>, uuid: string)
    requires StaysRegistered(s, steps, uuid) && uuid in s.checking && s.checking[uuid].PodTarget?
    ensures uuid in Run(s, steps).checking && Run(s, steps).checking[uuid].PodTarget?
    decreases |steps|
  {
    if steps != [] {
      var t := Apply(s, steps[0]);
      forall n | 0 <= n <= |steps[1..]| ensures uuid in Run(t, steps[1..][..n]).checking {
        assert steps[..n + 1][0] == steps[0] && steps[..n + 1][1..] == steps[1..][..n];
        assert uuid in Run(s, steps[..n + 1]).checking;
      }
      assert steps[1..][..0] == [];
      PodTargetIsNotReplaced(t, steps[1..], uuid);
    }
  }

  /** A poll deletes only what was registered for that job when it started. */
  lemma DeletesWereRegistered(steps: seq<Step>, i: nat)
    requires var log := Run(START, steps).log; i < |log| && log[i].DeleteAnswered?
    ensures var log := Run(START, steps).log; Polled(log[..i], log[i].uuid, log[i].target)
  {
    RunInv(START, steps);
  }

  /** A poll drops a registration only after it deleted the job's object or found it absent, or
      saw that the job is past cancelling here. */
  lemma DropsAreJustified(steps: seq<Step>, i: nat)
    requires var log := Run(START, steps).log; i < |log| && log[i].Dropped?
    ensures var log := Run(START, steps).log; Justified(log[..i], log[i].uuid)
  {
    RunInv(START, steps);
  }

  // ---- What the events do ------------------------------------------------

  /** No counter of the Job shows a pod. */
  predicate ShowsNoPod(c: PodCounts) {
    && c.active == 0 && c.failed == 0 && c.succeeded == 0
    && (c.terminating.Some? ==> c.terminating.value == 0)
    && (c.uncounted.Some? ==> c.uncounted.value == (0, 0))
  }

  ghost predicate Lacks(steps: seq<Step>, step: Step) {
    forall n :: 0 <= n < |steps| ==> steps[n] != step
  }

  /** Until its next section, the Job handler waits, whatever else happens. */
  lemma {:induction false} JobHandlerWaits(s: State, between: seq<Step>)
    requires Lacks(between, JobContinue) && !s.jobHandler.Rest?
    ensures Run(s, between).jobHandler == s.jobHandler
    decreases |between|
  {
    if between != [] {
      assert forall n :: 0 <= n < |between| - 1 ==> between[1..][n] == between[n + 1];
      assert between[0] != JobContinue;
      JobHandlerWaits(Apply(s, between[0]), between[1..]);
    }
  }

  /** A Job event, from the moment the handler takes it to the end of its last section, whatever happens
      in between. A job that is ignored, or whose Job is unfinished and shows a pod in some counter, is
      left alone. A finished Job unregisters its job. Any other registers it, unless a pod is
      registered for it by then. */
  lemma JobEventTakesEffect(s: State, step: Step, between: seq<Step>)
    requires step.JobSeen? && s.jobHandler.Rest? && Lacks(between, JobContinue)
    ensures step.uuid in s.jobIgnored || (!step.finished && !ShowsNoPod(step.counts)) ==> Apply(s, step) == s
    ensures step.uuid !in s.jobIgnored && step.finished ==>
              var t := Run(Apply(s, step), between);
              var r := Apply(t, JobContinue);
              r.jobHandler.Rest? && r.checking == t.checking - {step.uuid} && r.log == t.log
    ensures step.uuid !in s.jobIgnored && !step.finished && ShowsNoPod(step.counts) ==>
              var t := Run(Apply(s, step), between);
              var r := Apply(t, JobContinue);
              var kept := step.uuid in t.checking && t.checking[step.uuid].PodTarget?;
              && r.jobHandler.Rest?
              && r.checking == (if kept then t.checking else t.checking[step.uuid := JobTarget(step.name)])
              && r.log == (if kept then t.log else t.log + [Registered(step.uuid, JobTarget(step.name))])
  {
    if step.uuid !in s.jobIgnored && (step.finished || ShowsNoPod(step.counts)) {
      JobHandlerWaits(Apply(s, step), between);
    }
  }

  lemma {:induction false} PodHandlerWaits(s: State, between: seq<Step>)
    requires Lacks(between, PodContinue) && !s.podHandler.Idle?
    ensures Run(s, between).podHandler == s.podHandler
    decreases |between|
  {
    if between != [] {
      assert forall n :: 0 <= n < |between| - 1 ==> between[1..][n] == between[n + 1];
      assert between[0] != PodContinue;
      PodHandlerWaits(Apply(s, between[0]), between[1..]);
    }
  }

  /** A pod event, likewise. A pod that is not pending any more unregisters its job at once, ignored or
      not. A pending one registers it, in place of whatever is registered by then, unless the job is
      ignored when the handler looks. */
  lemma PodEventTakesEffect(s: State, step: Step, between: seq<Step>, further: seq<Step>)
    requires step.PodSeen? && s.podHandler.Idle? && Lacks(between, PodContinue) && Lacks(further, PodContinue)
    ensures !step.phase.Pending? ==>
              var t := Apply(s, step);
              t.podHandler.Idle? && t.checking == s.checking - {step.uuid} && t.log == s.log
    ensures step.phase.Pending? ==>
              var t := Run(Apply(s, step), between);
              var u := Apply(t, PodContinue);
              && Apply(s, step).checking == s.checking && u.checking == t.checking && u.log == t.log
              && (step.uuid in t.podIgnored ==> u.podHandler.Idle?)
              && (step.uuid !in t.podIgnored ==>
                    var v := Run(u, further);
                    var r := Apply(v, PodContinue);
                    && r.podHandler.Idle? && r.checking == v.checking[step.uuid := PodTarget(step.name)]
                    && r.log == v.log + [Registered(step.uuid, PodTarget(step.name))])
  {
    if step.phase.Pending? {
      PodHandlerWaits(Apply(s, step), between);
      var t := Run(Apply(s, step), between);
      if step.uuid !in t.podIgnored { PodHandlerWaits(Apply(t, PodContinue), further); }
    }
  }

  /** Deleted objects: the job is neither registered nor ignored any more. */
  lemma GoneTakesEffect(s: State, uuid: string)
    ensures s.podHandler.Idle? ==>
              var t := Apply(s, PodGone(uuid)); t.checking == s.checking - {uuid} && t.podIgnored == s.podIgnored - {uuid} && t.log == s.log
    ensures s.jobHandler.Rest? ==>
              var t := Apply(s, JobGone(uuid)); t.checking == s.checking - {uuid} && t.jobIgnored == s.jobIgnored - {uuid} && t.log == s.log
  {
  }

  /** An unfinished Job of that name, without a pod by any counter, was reported for uuid. */
  ghost predicate PodlessJobSeen(steps: seq<Step>, uuid: string, name: string) {
    exists n :: 0 <= n < |steps| && steps[n].JobSeen? && steps[n].uuid == uuid && steps[n].name == name
                && !steps[n].finished && ShowsNoPod(steps[n].counts)
  }

  ghost predicate PendingPodSeen(steps: seq<Step>, uuid: string, name: string) {
    exists n :: 0 <= n < |steps| && steps[n] == PodSeen(uuid, Pending, name)
  }

  lemma SeenNext(steps: seq<Step>, step: Step, uuid: string, name: string)
    ensures PodlessJobSeen(steps, uuid, name) ==> PodlessJobSeen(steps + [step], uuid, name)
    ensures PendingPodSeen(steps, uuid, name) ==> PendingPodSeen(steps + [step], uuid, name)
    ensures step.JobSeen? && step.uuid == uuid && step.name == name && !step.finished && ShowsNoPod(step.counts) ==>
              PodlessJobSeen(steps + [step], uuid, name)
    ensures step == PodSeen(uuid, Pending, name) ==> PendingPodSeen(steps + [step], uuid, name)
  {
    var all := steps + [step];
    assert all[|steps|] == step;
    if PodlessJobSeen(steps, uuid, name) {
      var n :| 0 <= n < |steps| && steps[n].JobSeen? && steps[n].uuid == uuid && steps[n].name == name
               && !steps[n].finished && ShowsNoPod(steps[n].counts);
      assert all[n] == steps[n];
    }
    if PendingPodSeen(steps, uuid, name) {
      var n :| 0 <= n < |steps| && steps[n] == PodSeen(uuid, Pending, name);
      assert all[n] == steps[n];
    }
  }

  /** The events that a registration may come from were there. */
  ghost predicate TargetSeen(steps: seq<Step>, uuid: string, target: Target) {
    match target
    case PodTarget(name) => PendingPodSeen(steps, uuid, name)
    case JobTarget(name) => PodlessJobSeen(steps, uuid, name)
  }

  ghost predicate HandlersSeen(s: State, steps: seq<Step>) {
    && (s.jobHandler.Adding? ==> PodlessJobSeen(steps, s.jobHandler.uuid, s.jobHandler.name))
    && (!s.podHandler.Idle? ==> PendingPodSeen(steps, s.podHandler.uuid, s.podHandler.name))
  }

  ghost predicate RegistrationsSeen(log: seq<Event>, steps: seq<Step>) {
    forall i :: 0 <= i < |log| && log[i].Registered? ==> TargetSeen(steps, log[i].uuid, log[i].target)
  }

  lemma {:induction false} RunNext(s: State, steps: seq<Step>, step: Step)
    ensures Run(s, steps + [step]) == Apply(Run(s, steps), step)
    decreases |steps|
  {
    if steps == [] {
      assert Run(s, [step]) == Run(Apply(s, step), []);
      assert steps + [step] == [step];
    } else {
      assert (steps + [step])[1..] == steps[1..] + [step];
      RunNext(Apply(s, steps[0]), steps[1..], step);
    }
  }

  /** One step: what it logs as registered, and what its handlers now hold, was reported. */
  lemma StepSeen(s: State, steps: seq<Step>, step: Step)
    requires HandlersSeen(s, steps) && RegistrationsSeen(s.log, steps)
    ensures HandlersSeen(Apply(s, step), steps + [step]) && RegistrationsSeen(Apply(s, step).log, steps + [step])
  {
    var t := Apply(s, step);
    forall uuid, name { SeenNext(steps, step, uuid, name); }
    forall i | 0 <= i < |t.log| && t.log[i].Registered? ensures TargetSeen(steps + [step], t.log[i].uuid, t.log[i].target) {
      if i < |s.log| {
        assert t.log[i] == s.log[i];
        assert TargetSeen(steps, s.log[i].uuid, s.log[i].target);
      }
    }
  }

  lemma {:induction false} RunSeen(steps: seq<Step>)
    ensures HandlersSeen(Run(START, steps), steps) && RegistrationsSeen(Run(START, steps).log, steps)
    decreases |steps|
  {
    if steps != [] {
      var front := steps[..|steps| - 1];
      assert steps == front + [steps[|steps| - 1]];
      RunSeen(front);
      RunNext(START, front, steps[|steps| - 1]);
      StepSeen(Run(START, front), front, steps[|steps| - 1]);
    }
  }

  /** In every run, whatever is or was registered for a job was reported for it: a Job by an event of an
      unfinished Job that shows no pod by any counter, a pod by an event of a pending pod. */
  lemma RegistrationsAreReported(steps: seq<Step>, uuid: string)
    ensures var log := Run(START, steps).log;
            forall i :: 0 <= i < |log| && log[i].Registered? ==> TargetSeen(steps, log[i].uuid, log[i].target)
    ensures var s := Run(START, steps); uuid in s.checking ==> TargetSeen(steps, uuid, s.checking[uuid])
  {
    RunSeen(steps);
    RunInv(START, steps);
    var s := Run(START, steps);
    if uuid in s.checking {
      assert RegisteredAs(s.log, uuid, s.checking[uuid]);
    }
  }

  // ---- What a poll does --------------------------------------------------

  /** A poll looks at everything registered, once the one before is done with. */
  lemma PollTakesAll(s: State)
    ensures var t := Apply(s, Poll);
            if s.polled == map[] && s.dropping == {} && s.checking != map[]
            then t == s.(polled := s.checking, log := s.log + [PollStarted(s.checking)]) else t == s
  {
  }

  /** The answer for a polled job: a delete of the polled target is tried exactly if the job is cancelled;
      the job is about to be dropped exactly if that delete did not fail, or the job is elsewhere; no
      registration moves yet, and no other job is concerned. */
  lemma AnswerActs(s: State, step: Step)
    requires step.Answer? && step.uuid in s.polled
    ensures var t := Apply(s, step);
            && t.checking == s.checking && t.polled == s.polled - {step.uuid}
            && (step.state.Cancelled? ==> t.log == s.log + [DeleteAnswered(step.uuid, s.polled[step.uuid], step.outcome)])
            && (!step.state.Cancelled? ==> forall i :: |s.log| <= i < |t.log| ==> !t.log[i].DeleteAnswered?)
            && t.dropping - s.dropping <= {step.uuid} && s.dropping <= t.dropping
            && (step.uuid in t.dropping <==>
                  step.uuid in s.dropping || step.state.Elsewhere? || (step.state.Cancelled? && step.outcome != Failed))
  {
  }

  /** A drop takes the job's registration off, and no other. */
  lemma DropActs(s: State, uuid: string)
    ensures var t := Apply(s, Drop(uuid));
            && t.checking == (if uuid in s.dropping then s.checking - {uuid} else s.checking)
            && t.dropping == s.dropping - {uuid} && t.polled == s.polled
  {
  }

  // ---- Registrations that arrive during a poll ---------------------------

  /** Nothing was registered for uuid from position p on. */
  ghost predicate NoneRegisteredSince(log: seq<Event>, p: nat, uuid: string) {
    forall k :: p <= k < |log| ==> !(log[k].Registered? && log[k].uuid == uuid)
  }

  lemma NoneRegisteredNext(log: seq<Event>, e: Event, p: nat, uuid: string)
    requires p <= |log|
    ensures NoneRegisteredSince(log + [e], p, uuid) <==> NoneRegisteredSince(log, p, uuid) && !(e.Registered? && e.uuid == uuid)
  {
    var l := log + [e];
    assert l[|log|] == e;
    assert forall k :: p <= k < |log| ==> l[k] == log[k];
  }

  lemma {:induction false} LastRegistrationSince(log: seq<Event>, p: nat, uuid: string)
    requires p <= |log|
    ensures NoneRegisteredSince(log, p, uuid) <==> LastRegistrationAt(log, uuid) == LastRegistrationAt(log[..p], uuid)
    decreases |log|
  {
    if p == |log| {
      assert log[..p] == log;
    } else {
      var front, e := log[..|log| - 1], log[|log| - 1];
      assert log == front + [e] && front[..p] == log[..p];
      LastRegistrationSince(front, p, uuid);
      NoneRegisteredNext(front, e, p, uuid);
      EventNext(front, e, uuid);
    }
  }

  /** Whenever a poll drops a registration: it is the last one registered, and the one the poll saw
      exactly if nothing was registered for the job since the poll started; then it has the target
      the poll acted on. */
  lemma DropTakesWhatThePollSaw(steps: seq<Step>, i: nat)
    requires var log := Run(START, steps).log; i < |log| && log[i].Dropped? && log[i].dropped.Some?
    ensures var log, u := Run(START, steps).log, Run(START, steps).log[i].uuid;
            var r, p := LastRegistrationAt(log[..i], u), LastPollAt(log[..i]);
            && r.Some? && p.Some? && u in log[p.value].table
            && log[i].dropped == Some(log[r.value].target)
            && (r == LastRegistrationAt(log[..p.value], u) <==> NoneRegisteredSince(log[..i], p.value, u))
            && (NoneRegisteredSince(log[..i], p.value, u) ==> log[i].dropped == Some(log[p.value].table[u]))
  {
    RunInv(START, steps);
    var log := Run(START, steps).log;
    var u := log[i].uuid;
    var p := LastPollAt(log[..i]).value;
    assert Legitimate(log[..i], log[i]) && Legitimate(log[..p], log[p]);
    LastRegistrationSince(log[..i], p, u);
    assert log[..i][..p] == log[..p];
  }

  /** What a step registers for uuid. */
  function Registers(s: State, step: Step, uuid: string): Option<Target> {
    if step.PodContinue? && s.podHandler.Registering? && s.podHandler.uuid == uuid then Some(PodTarget(s.podHandler.name))
    else if step.JobContinue? && s.jobHandler.Adding? && s.jobHandler.uuid == uuid && !HasPodTarget(s.checking, uuid)
    then Some(JobTarget(s.jobHandler.name))
    else None
  }

  /** What the steps register for uuid last, or `before` if nothing. */
  function LastRegistered(s: State, steps: seq<Step>, uuid: string, before: Option<Target>): Option<Target>
    decreases |steps|
  {
    if steps == [] then before
    else
      var now := Registers(s, steps[0], uuid);
      LastRegistered(Apply(s, steps[0]), steps[1..], uuid, if now.Some? then now else before)
  }

  lemma RegistersTarget(s: State, step: Step, uuid: string)
    ensures var now := Registers(s, step, uuid);
            uuid in Apply(s, step).checking ==>
              if now.Some? then Apply(s, step).checking[uuid] == now.value
              else uuid in s.checking && Apply(s, step).checking[uuid] == s.checking[uuid]
  {
  }

  /** A registered job has the target that was registered for it last. */
  lemma {:induction false} RegisteredLast(s: State, steps: seq<Step>, uuid: string, before: Option<Target>)
    requires uuid in s.checking ==> before == Some(s.checking[uuid])
    requires uuid in Run(s, steps).checking
    ensures LastRegistered(s, steps, uuid, before) == Some(Run(s, steps).checking[uuid])
    decreases |steps|
  {
    if steps != [] {
      var now := Registers(s, steps[0], uuid);
      RegistersTarget(s, steps[0], uuid);
      RegisteredLast(Apply(s, steps[0]), steps[1..], uuid, if now.Some? then now else before);
    }
  }

  /** From the start of a poll to a drop of a job that is registered then: the poll drops the target
      it saw exactly if the last registration in between, if there is one, has that target. */
  lemma DropAfterPoll(s: State, steps: seq<Step>, uuid: string)
    requires Apply(s, Poll) != s && uuid in Apply(s, Poll).polled
    requires var t := Run(Apply(s, Poll), steps); uuid in t.dropping && uuid in t.checking
    ensures var p := Apply(s, Poll);
            var t := Run(p, steps);
            Apply(t, Drop(uuid)).log == t.log + [Dropped(uuid, Some(p.polled[uuid]))] <==>
              LastRegistered(p, steps, uuid, Some(p.polled[uuid])) == Some(p.polled[uuid])
  {
    var p := Apply(s, Poll);
    var t := Run(p, steps);
    var target, dropped := p.polled[uuid], t.checking[uuid];
    RegisteredLast(p, steps, uuid, Some(target));
    assert Apply(t, Drop(uuid)).log == t.log + [Dropped(uuid, Some(dropped))];
    assert (t.log + [Dropped(uuid, Some(dropped))])[|t.log|] == Dropped(uuid, Some(dropped));
    assert (t.log + [Dropped(uuid, Some(target))])[|t.log|] == Dropped(uuid, Some(target));
  }

  /** Four steps of a run. */
  lemma FourSteps(s: State, a: Step, b: Step, c: Step, d: Step, rest: seq<Step>) returns (t: State)
    ensures t == Apply(Apply(Apply(Apply(s, a), b), c), d) && Run(s, [a, b, c, d] + rest) == Run(t, rest)
  {
    t := Apply(Apply(Apply(Apply(s, a), b), c), d);
    var steps := [a, b, c, d] + rest;
    assert steps[1..] == [b, c, d] + rest && steps[1..][1..] == [c, d] + rest && steps[1..][1..][1..] == [d] + rest;
    assert steps[1..][1..][1..][1..] == rest;
    assert Run(s, steps) == Run(Apply(s, a), steps[1..]) == Run(Apply(Apply(s, a), b), steps[1..][1..]);
    assert Run(Apply(Apply(s, a), b), steps[1..][1..]) == Run(Apply(Apply(Apply(s, a), b), c), steps[1..][1..][1..]);
  }

  /** It happens that a poll drops a registration it never saw: it finds the Job gone, and the pod that
      registered meanwhile is dropped with it although it is pending. */
  lemma LateRegistrationIsDropped(u: string, job: string, pod: string) returns (steps: seq<Step>)
    ensures var s := Run(START, steps);
            LastPending(s, u) && u !in s.checking
            && s.log == [Registered(u, JobTarget(job)), PollStarted(map[u := JobTarget(job)]), DeleteAnswered(u, JobTarget(job), NotFound),
                         Registered(u, PodTarget(pod)), Dropped(u, Some(PodTarget(pod)))]
  {
    var counts := PodCounts(0, 0, 0, None, None);
    var arrives := [PodSeen(u, Pending, pod), PodContinue, PodContinue, Drop(u)];
    steps := [JobSeen(u, false, counts, job), JobContinue, Poll, Answer(u, Cancelled, NotFound)] + arrives;
    var a := FourSteps(START, JobSeen(u, false, counts, job), JobContinue, Poll, Answer(u, Cancelled, NotFound), arrives);
    PollFindsJobGone(u, job, counts, a);
    var b := FourSteps(a, PodSeen(u, Pending, pod), PodContinue, PodContinue, Drop(u), []);
    PodArrivesAndIsDropped(u, job, pod, a, b);
    assert arrives + [] == arrives;
    assert Run(b, []) == b;
  }

  lemma PollFindsJobGone(u: string, job: string, counts: PodCounts, a: State)
    requires !HasPod(counts)
    requires a == Apply(Apply(Apply(Apply(START, JobSeen(u, false, counts, job)), JobContinue), Poll), Answer(u, Cancelled, NotFound))
    ensures a == START.(checking := map[u := JobTarget(job)], dropping := {u},
                        log := [Registered(u, JobTarget(job)), PollStarted(map[u := JobTarget(job)]), DeleteAnswered(u, JobTarget(job), NotFound)])
  {
    var table := map[u := JobTarget(job)];
    var s := Apply(Apply(START, JobSeen(u, false, counts, job)), JobContinue);
    assert s == START.(checking := table, log := [Registered(u, JobTarget(job))]);
    assert u in table && table - {u} == map[];
  }

  lemma PodArrivesAndIsDropped(u: string, job: string, pod: string, a: State, b: State)
    requires a.checking == map[u := JobTarget(job)] && a.podHandler.Idle? && a.podIgnored == {} && a.dropping == {u}
    requires b == Apply(Apply(Apply(Apply(a, PodSeen(u, Pending, pod)), PodContinue), PodContinue), Drop(u))
    ensures LastPending(b, u) && u !in b.checking
    ensures b.log == a.log + [Registered(u, PodTarget(pod)), Dropped(u, Some(PodTarget(pod)))]
  {
    var s := Apply(Apply(Apply(a, PodSeen(u, Pending, pod)), PodContinue), PodContinue);
    assert s.checking == a.checking[u := PodTarget(pod)] && s.log == a.log + [Registered(u, PodTarget(pod))];
  }
}
