/** The dispatch pipeline as one state machine: the limiter's workers carry each admitted
    attempt through reservation, token issue and deduplication to the scheduler, in any
    interleaving with each other, with the batches and with Kubernetes events. */
module Pipeline {
  import opened Options
  import opened JobQueue
  import opened LimiterSpec
  import LimiterRuns
  import LimiterEvents
  import Reserver
  import Issuer
  import Deduper

  /** `parse` is the UUID parser: it rejects some ids and may read different ids as one UUID. */
  datatype Settings = Settings(limiter: Config, tokensEnabled: bool, expirySeconds: int, parse: string -> Option<string>)

  /** How far the handler call of an attempt has come. A deadline is the end of the call's context. */
  datatype Stage =
    | Reserving(job: Job)
    | Issuing(job: Job, deadline: int)
    | Deduping(job: Job, deadline: int, token: Option<string>)
    | Scheduling(job: Job, uuid: string)
    | Returned(job: Job, ok: bool)

  datatype Event =
    | ReserveAnswered(reserved: seq<string>, failed: bool, expires: int, serverExpiry: Option<int>)
    | IssueAnswered(response: Option<Issuer.IssueResponse>, failed: bool)
    | Scheduled(attempt: nat, job: Job, deadline: int, token: Option<string>, uuid: string, mark: nat)

  /** The reserver's call that is under way: who waits for it, the end it worked out before asking,
      and the time the server began to hold what it reserves. */
  datatype Reservation = Reservation(batch: set<nat>, expires: int, held: Option<int>)

  datatype State = State(limiter: LimiterSpec.State, now: int, call: Option<Reservation>, stages: map<nat, Stage>,
                         history: seq<Deduper.Change>, trace: seq<Event>)

  datatype Step =
    | Limit(step: LimiterSpec.Step)
    | TimePasses(d: nat)
    | AskReserve(batch: set<nat>)
    | ServerHolds
    | AnswerReserve(reserved: seq<string>, failed: bool, ended: set<nat>)
    | Issue(batch: set<nat>, response: Option<Issuer.IssueResponse>, failed: bool, ended: set<nat>)
    | GiveUp(attempt: nat)
    | Dedup(attempt: nat)
    | SchedulerDone(attempt: nat, result: Deduper.HandOff)
    | Return(w: nat)
    | JobAdded(uuid: string, inInitialList: bool)
    | JobDeleted(uuid: string)

  // ---- One handler call --------------------------------------------------

  /** Reserver.Handle once its answer is there; `ended` says the context ended first. */
  function AfterReserve(cfg: Settings, s: Stage, answer: Reserver.ReservationResult, ended: bool): Stage {
    if !s.Reserving? then s
    else if ended || answer.failed || !answer.reserved then Returned(s.job, false)
    else if cfg.tokensEnabled then Issuing(s.job, answer.expires)
    else Deduping(s.job, answer.expires, None)
  }

  /** Issuer.Handle once its answer is there. */
  function AfterIssue(s: Stage, answer: Issuer.TokenResult, ended: bool): Stage {
    if !s.Issuing? then s
    else if ended || answer.err.Some? then Returned(s.job, false)
    else Deduping(s.job, s.deadline, Some(answer.token))
  }

  function Mark(history: seq<Deduper.Change>, uuid: string, x: bool): seq<Deduper.Change> {
    if Deduper.IsMarked(history, uuid) == x then history
    else history + [if x then Deduper.Marked(uuid) else Deduper.Unmarked(uuid)]
  }

  // ---- Steps -------------------------------------------------------------

  predicate InHandler(s: State, step: LimiterSpec.Step) {
    step.Work? && step.w < |s.limiter.workers| && s.limiter.workers[step.w].Handling?
  }

  /** The attempts whose handler call has begun: a dequeue starts one. */
  function Stages(before: LimiterSpec.State, after: LimiterSpec.State, step: LimiterSpec.Step, stages: map<nat, Stage>): map<nat, Stage> {
    if step.Work? && step.w < |after.workers| && after.workers[step.w].Handling? && step.w < |before.workers| && !before.workers[step.w].Handling?
    then stages[after.workers[step.w].attempt := Reserving(after.workers[step.w].job)]
    else stages
  }

  function Waiting(stages: map<nat, Stage>, batch: set<nat>): set<nat> {
    set a | a in batch && a in stages && stages[a].Reserving?
  }

  /** The server's own end of what it reserved. */
  function HeldUntil(cfg: Settings, c: Reservation): Option<int> {
    if c.held.None? then None else Some(Reserver.ServerExpiry(c.held.value, cfg.expirySeconds))
  }

  function Apply(cfg: Settings, s: State, step: Step): State {
    match step
    case Limit(l) =>
      // a worker leaves its handler only through Return
      if InHandler(s, l) then s
      else
        var after := LimiterSpec.Apply(cfg.limiter, s.limiter, l);
        s.(limiter := after, stages := Stages(s.limiter, after, l, s.stages))
    case TimePasses(d) => s.(now := s.now + d)
    case AskReserve(batch) =>
      // one call at a time, and none if nobody waits
      var waiting := Waiting(s.stages, batch);
      if s.call.Some? || waiting == {} then s
      else s.(call := Some(Reservation(waiting, s.now + Reserver.Lifetime(cfg.expirySeconds), None)))
    case ServerHolds =>
      if s.call.None? || s.call.value.held.Some? then s else s.(call := Some(s.call.value.(held := Some(s.now))))
    case AnswerReserve(reserved, failed, ended) =>
      // without an error the server has acted
      if s.call.None? || (!failed && s.call.value.held.None?) then s
      else
        var c := s.call.value;
        s.(call := None,
           stages := map a | a in s.stages ::
                       if a in c.batch then AfterReserve(cfg, s.stages[a], Reserver.Answer(reserved, c.expires, failed, s.stages[a].job.id), a in ended)
                       else s.stages[a],
           trace := s.trace + [ReserveAnswered(reserved, failed, c.expires, HeldUntil(cfg, c))])
    case Issue(batch, response, failed, ended) =>
      s.(stages := map a | a in s.stages ::
                     if a in batch then AfterIssue(s.stages[a], Issuer.Answer(response, failed, s.stages[a].job.id), a in ended)
                     else s.stages[a],
         trace := s.trace + [IssueAnswered(response, failed)])
    case GiveUp(a) =>
      if a in s.stages && (s.stages[a].Reserving? || s.stages[a].Issuing?)
      then s.(stages := s.stages[a := Returned(s.stages[a].job, false)]) else s
    case Dedup(a) =>
      if a !in s.stages || !s.stages[a].Deduping? then s
      else
        var g := s.stages[a];
        var uuid := cfg.parse(g.job.id);
        if uuid.None? || Deduper.IsMarked(s.history, uuid.value) then s.(stages := s.stages[a := Returned(g.job, false)])
        else s.(stages := s.stages[a := Scheduling(g.job, uuid.value)],
                history := Mark(s.history, uuid.value, true),
                trace := s.trace + [Scheduled(a, g.job, g.deadline, g.token, uuid.value, |s.history|)])
    case SchedulerDone(a, result) =>
      if a !in s.stages || !s.stages[a].Scheduling? then s
      else
        var g := s.stages[a];
        s.(stages := s.stages[a := Returned(g.job, result.Success?)],
           history := if result.OtherError? then Mark(s.history, g.uuid, false) else s.history)
    case Return(w) =>
      if w < |s.limiter.workers| && s.limiter.workers[w].Handling? && s.limiter.workers[w].attempt in s.stages
         && s.stages[s.limiter.workers[w].attempt].Returned? then
        var a := s.limiter.workers[w].attempt;
        s.(limiter := LimiterSpec.Apply(cfg.limiter, s.limiter, Work(w, if s.stages[a].ok then Proceed else HandlerError)),
           stages := s.stages - {a})
      else s
    case JobAdded(uuid, inInitialList) => if inInitialList then s.(history := Mark(s.history, uuid, true)) else s
    case JobDeleted(uuid) => s.(history := Mark(s.history, uuid, false))
  }

  function Run(cfg: Settings, s: State, steps: seq<Step>): State
    decreases |steps|
  {
    if steps == [] then s else Run(cfg, Apply(cfg, s, steps[0]), steps[1..])
  }

  function Start(workers: nat): State {
    State.State(LimiterSpec.Start(workers), 0, None, map[], [], [])
  }

  // ---- Where a stage may come from ---------------------------------------

  /** An error-free reservation answer listed the id, with an end no later than the server's. */
  ghost predicate Reserved(trace: seq<Event>, id: string, deadline: int) {
    exists k :: 0 <= k < |trace| && trace[k].ReserveAnswered? && !trace[k].failed && id in trace[k].reserved
                && trace[k].serverExpiry.Some? && deadline == trace[k].expires <= trace[k].serverExpiry.value
  }

  /** An error-free issue answer granted that token to the id, once. */
  ghost predicate Granted(trace: seq<Event>, id: string, token: string) {
    exists k :: 0 <= k < |trace| && trace[k].IssueAnswered? && !trace[k].failed && trace[k].response.Some?
                && Issuer.GrantedOnce(trace[k].response.value, id, token)
  }

  ghost predicate TokenOk(cfg: Settings, trace: seq<Event>, id: string, token: Option<string>) {
    cfg.tokensEnabled ==> token.Some? && Granted(trace, id, token.value)
  }

  ghost predicate StageOk(cfg: Settings, s: State, a: nat) {
    a in s.stages ==>
      var g := s.stages[a];
      && a < s.limiter.shared.nextAttempt
      && Occupied(g.job.id, a, true) in s.limiter.shared.log
      && (g.Issuing? || g.Deduping? ==> Reserved(s.trace, g.job.id, g.deadline))
      && (g.Deduping? ==> TokenOk(cfg, s.trace, g.job.id, g.token))
  }

  /** The hand-off at position i of the trace is legitimate. */
  ghost predicate HandOffOk(cfg: Settings, s: State, i: nat)
    requires i < |s.trace| && s.trace[i].Scheduled?
  {
    var e := s.trace[i];
    && e.attempt < s.limiter.shared.nextAttempt
    && Occupied(e.job.id, e.attempt, true) in s.limiter.shared.log
    && Reserved(s.trace[..i], e.job.id, e.deadline)
    && TokenOk(cfg, s.trace[..i], e.job.id, e.token)
    && cfg.parse(e.job.id) == Some(e.uuid)
    && e.mark < |s.history| && s.history[e.mark] == Deduper.Marked(e.uuid)
  }

  /** Earlier hand-offs have earlier marks and other attempts; whoever has been handed off is past
      the deduper. */
  ghost predicate HandOffsOrdered(s: State) {
    && (forall i, j :: 0 <= i < j < |s.trace| && s.trace[i].Scheduled? && s.trace[j].Scheduled? ==>
          s.trace[i].mark < s.trace[j].mark && s.trace[i].attempt != s.trace[j].attempt)
    && (forall i :: 0 <= i < |s.trace| && s.trace[i].Scheduled? && s.trace[i].attempt in s.stages ==>
          s.stages[s.trace[i].attempt].Scheduling? || s.stages[s.trace[i].attempt].Returned?)
  }

  /** The end worked out before asking is no later than any the server can come to. */
  ghost predicate CallOk(cfg: Settings, s: State) {
    s.call.Some? ==>
      var c := s.call.value;
      && c.expires <= s.now + Reserver.Lifetime(cfg.expirySeconds)
      && (c.held.Some? ==> c.expires <= HeldUntil(cfg, c).value)
  }

  ghost predicate Inv(cfg: Settings, s: State) {
    && CallOk(cfg, s)
    && LimiterRuns.Inv(cfg.limiter, s.limiter)
    && (forall a :: StageOk(cfg, s, a))
    && (forall i: nat :: i < |s.trace| && s.trace[i].Scheduled? ==> HandOffOk(cfg, s, i))
    && HandOffsOrdered(s)
    && Deduper.Alternates(s.history)
  }

  // ---- Growing -----------------------------------------------------------

  lemma TraceGrows(cfg: Settings, t: seq<Event>, u: seq<Event>, id: string, deadline: int, token: Option<string>)
    requires t <= u
    ensures Reserved(t, id, deadline) ==> Reserved(u, id, deadline)
    ensures TokenOk(cfg, t, id, token) ==> TokenOk(cfg, u, id, token)
  {
  }

  /** What no step undoes. */
  ghost predicate Grows(s: State, t: State) {
    && s.trace <= t.trace && s.history <= t.history
    && s.limiter.shared.log <= t.limiter.shared.log
    && s.limiter.shared.nextAttempt <= t.limiter.shared.nextAttempt
  }

  lemma StageKeeps(cfg: Settings, s: State, t: State, a: nat)
    requires StageOk(cfg, s, a) && Grows(s, t)
    requires a in t.stages ==> a in s.stages && t.stages[a] == s.stages[a]
    ensures StageOk(cfg, t, a)
  {
  }

  lemma HandOffKeeps(cfg: Settings, s: State, t: State, i: nat)
    requires Grows(s, t) && i < |s.trace| && s.trace[i].Scheduled? && HandOffOk(cfg, s, i)
    ensures t.trace[i] == s.trace[i] && HandOffOk(cfg, t, i)
  {
  }

  /** An attempt that is past the deduper stays past it, or its call is over. */
  ghost predicate PastStays(s: State, t: State) {
    forall a :: a in t.stages && a < s.limiter.shared.nextAttempt ==>
      && a in s.stages
      && (s.stages[a].Scheduling? || s.stages[a].Returned? ==> t.stages[a].Scheduling? || t.stages[a].Returned?)
  }

  /** A step without a hand-off. */
  lemma QuietStep(cfg: Settings, s: State, t: State)
    requires Inv(cfg, s) && Grows(s, t) && PastStays(s, t)
    requires forall i :: |s.trace| <= i < |t.trace| ==> !t.trace[i].Scheduled?
    requires LimiterRuns.Inv(cfg.limiter, t.limiter) && Deduper.Alternates(t.history)
    requires CallOk(cfg, t) && forall a :: StageOk(cfg, t, a)
    ensures Inv(cfg, t)
  {
    forall i: nat | i < |t.trace| && t.trace[i].Scheduled? ensures HandOffOk(cfg, t, i) && t.trace[i] == s.trace[i] {
      assert s.trace[i] == t.trace[i];
      HandOffKeeps(cfg, s, t, i);
    }
  }

  // ---- Steps keep the invariant ------------------------------------------

  lemma LimiterGrows(cfg: Config, s: LimiterSpec.State, step: LimiterSpec.Step)
    requires LimiterRuns.Inv(cfg, s)
    ensures LimiterRuns.Evolves(s.shared, LimiterSpec.Apply(cfg, s, step).shared)
  {
    match step
    case Informer(id, finished, deleted) => LimiterRuns.ObserveEvolves(s.shared, id, finished, deleted);
    case Work(w, outcome) =>
      if Enabled(cfg, s, step) { LimiterRuns.MoveShared(cfg, s.shared, s.workers[w], outcome); }
    case _ =>
  }

  /** A worker that enters the handler does so with a new, admitted attempt. */
  lemma EntersFresh(cfg: Config, s: LimiterSpec.State, step: LimiterSpec.Step)
    requires LimiterRuns.Inv(cfg, s) && step.Work? && step.w < |s.workers| && !s.workers[step.w].Handling?
    requires LimiterSpec.Apply(cfg, s, step).workers[step.w].Handling?
    ensures var t := LimiterSpec.Apply(cfg, s, step);
            var w := t.workers[step.w];
            s.shared.nextAttempt <= w.attempt < t.shared.nextAttempt && Occupied(w.job.id, w.attempt, true) in t.shared.log
  {
    LimiterRuns.MoveWorker(cfg, s.shared, s.workers[step.w], step.outcome);
  }

  lemma LimitInv(cfg: Settings, s: State, l: LimiterSpec.Step)
    requires Inv(cfg, s)
    ensures Inv(cfg, Apply(cfg, s, Limit(l)))
  {
    if InHandler(s, l) { return; }
    var t := Apply(cfg, s, Limit(l));
    LimiterRuns.StepInv(cfg.limiter, s.limiter, l);
    LimiterGrows(cfg.limiter, s.limiter, l);
    if t.stages != s.stages { EntersFresh(cfg.limiter, s.limiter, l); }
    forall a: nat ensures StageOk(cfg, t, a) {
      if a in t.stages && !(a in s.stages && t.stages[a] == s.stages[a]) {
        assert t.stages[a].Reserving?;
      } else {
        StageKeeps(cfg, s, t, a);
      }
    }
    QuietStep(cfg, s, t);
  }

  lemma AnswerReserveInv(cfg: Settings, s: State, step: Step)
    requires Inv(cfg, s) && step.AnswerReserve?
    ensures Inv(cfg, Apply(cfg, s, step))
  {
    var t := Apply(cfg, s, step);
    if t == s { return; }
    var c := s.call.value;
    forall a: nat ensures StageOk(cfg, t, a) {
      if a in s.stages && t.stages[a] != s.stages[a] {
        assert StageOk(cfg, s, a);
        assert t.trace[|s.trace|] == ReserveAnswered(step.reserved, step.failed, c.expires, HeldUntil(cfg, c));
      } else {
        StageKeeps(cfg, s, t, a);
      }
    }
    QuietStep(cfg, s, t);
  }

  /** Time, and the reserver's call before its answer, touch nothing else. */
  lemma CallInv(cfg: Settings, s: State, step: Step)
    requires Inv(cfg, s) && (step.TimePasses? || step.AskReserve? || step.ServerHolds?)
    ensures Inv(cfg, Apply(cfg, s, step))
  {
    var t := Apply(cfg, s, step);
    forall a: nat ensures StageOk(cfg, t, a) { StageKeeps(cfg, s, t, a); }
    QuietStep(cfg, s, t);
  }

  lemma IssueInv(cfg: Settings, s: State, step: Step)
    requires Inv(cfg, s) && step.Issue?
    ensures Inv(cfg, Apply(cfg, s, step))
  {
    var t := Apply(cfg, s, step);
    forall a: nat ensures StageOk(cfg, t, a) {
      if a in s.stages && t.stages[a] != s.stages[a] {
        var g := s.stages[a];
        assert StageOk(cfg, s, a);
        TraceGrows(cfg, s.trace, t.trace, g.job.id, g.deadline, None);
        var answer := Issuer.Answer(step.response, step.failed, g.job.id);
        Issuer.Correlation(step.response, step.failed, g.job.id, answer.token);
        assert t.trace[|s.trace|] == IssueAnswered(step.response, step.failed);
      } else {
        StageKeeps(cfg, s, t, a);
      }
    }
    QuietStep(cfg, s, t);
  }

  lemma MarkAlternates(history: seq<Deduper.Change>, uuid: string, x: bool)
    requires Deduper.Alternates(history)
    ensures Deduper.Alternates(Mark(history, uuid, x)) && history <= Mark(history, uuid, x)
  {
    if Deduper.IsMarked(history, uuid) != x {
      Deduper.AlternatesNext(history, if x then Deduper.Marked(uuid) else Deduper.Unmarked(uuid));
    }
  }

  /** A stage whose call has returned, or a mark that changed by an event. */
  lemma BookkeepingInv(cfg: Settings, s: State, t: State)
    requires Inv(cfg, s) && t.limiter == s.limiter && t.trace == s.trace && t.call == s.call && t.now == s.now
    requires s.history <= t.history && Deduper.Alternates(t.history)
    requires t.stages.Keys == s.stages.Keys
    requires forall a :: a in s.stages && t.stages[a] != s.stages[a] ==> t.stages[a].Returned? && t.stages[a].job == s.stages[a].job
    ensures Inv(cfg, t)
  {
    forall a: nat ensures StageOk(cfg, t, a) {
      assert StageOk(cfg, s, a);
    }
    QuietStep(cfg, s, t);
  }

  lemma DedupInv(cfg: Settings, s: State, a: nat)
    requires Inv(cfg, s)
    ensures Inv(cfg, Apply(cfg, s, Dedup(a)))
  {
    var t := Apply(cfg, s, Dedup(a));
    if a !in s.stages || !s.stages[a].Deduping? { return; }
    var uuid := cfg.parse(s.stages[a].job.id);
    if uuid.None? || Deduper.IsMarked(s.history, uuid.value) {
      BookkeepingInv(cfg, s, t);
    } else {
      MarkAlternates(s.history, uuid.value, true);
      forall b: nat ensures StageOk(cfg, t, b) {
        if b == a { assert StageOk(cfg, s, a); } else { StageKeeps(cfg, s, t, b); }
      }
      HandsOff(cfg, s, t, a, uuid.value);
    }
  }

  /** The new hand-off is legitimate. */
  lemma HandsOffOk(cfg: Settings, s: State, t: State, a: nat, uuid: string)
    requires Inv(cfg, s) && a in s.stages && s.stages[a].Deduping? && cfg.parse(s.stages[a].job.id) == Some(uuid)
    requires !Deduper.IsMarked(s.history, uuid) && t == Apply(cfg, s, Dedup(a))
    ensures |t.trace| == |s.trace| + 1 && t.trace[|s.trace|].Scheduled? && t.trace[|s.trace|].attempt == a
    ensures t.trace[|s.trace|].mark == |s.history| && HandOffOk(cfg, t, |s.trace|)
  {
    assert StageOk(cfg, s, a);
    assert t.trace[..|s.trace|] == s.trace;
    assert t.history[|s.history|] == Deduper.Marked(uuid);
  }

  /** The earlier ones come from other attempts, which are past the deduper already. */
  lemma HandsOffEarlier(cfg: Settings, s: State, t: State, a: nat, i: nat)
    requires Inv(cfg, s) && a in s.stages && s.stages[a].Deduping? && Grows(s, t) && i < |s.trace| && t.trace[i].Scheduled?
    ensures t.trace[i] == s.trace[i] && HandOffOk(cfg, t, i)
    ensures t.trace[i].attempt != a && t.trace[i].mark < |s.history|
  {
    assert t.trace[i] == s.trace[i];
    HandOffKeeps(cfg, s, t, i);
  }

  lemma OrderedNext(s: State, t: State, a: nat)
    requires HandOffsOrdered(s) && s.trace <= t.trace && |t.trace| == |s.trace| + 1
    requires t.trace[|s.trace|].Scheduled? && t.trace[|s.trace|].attempt == a && t.trace[|s.trace|].mark == |s.history|
    requires forall i: nat :: i < |s.trace| && t.trace[i].Scheduled? ==> t.trace[i].attempt != a && t.trace[i].mark < |s.history|
    requires a in t.stages && t.stages[a].Scheduling? && forall b :: b in t.stages && b != a ==> b in s.stages && t.stages[b] == s.stages[b]
    ensures HandOffsOrdered(t)
  {
    assert forall i: nat :: i < |s.trace| ==> t.trace[i] == s.trace[i];
  }

  lemma HandsOff(cfg: Settings, s: State, t: State, a: nat, uuid: string)
    requires Inv(cfg, s) && a in s.stages && s.stages[a].Deduping? && cfg.parse(s.stages[a].job.id) == Some(uuid)
    requires !Deduper.IsMarked(s.history, uuid) && t == Apply(cfg, s, Dedup(a))
    ensures forall i: nat :: i < |t.trace| && t.trace[i].Scheduled? ==> HandOffOk(cfg, t, i)
    ensures HandOffsOrdered(t)
  {
    HandsOffOk(cfg, s, t, a, uuid);
    forall i: nat | i < |s.trace| && t.trace[i].Scheduled?
      ensures HandOffOk(cfg, t, i) && t.trace[i].attempt != a && t.trace[i].mark < |s.history|
    {
      HandsOffEarlier(cfg, s, t, a, i);
    }
    OrderedNext(s, t, a);
  }

  lemma ReturnInv(cfg: Settings, s: State, w: nat)
    requires Inv(cfg, s)
    ensures Inv(cfg, Apply(cfg, s, Return(w)))
  {
    var t := Apply(cfg, s, Return(w));
    if t == s { return; }
    var step := Work(w, if s.stages[s.limiter.workers[w].attempt].ok then Proceed else HandlerError);
    LimiterRuns.StepInv(cfg.limiter, s.limiter, step);
    LimiterGrows(cfg.limiter, s.limiter, step);
    forall b: nat ensures StageOk(cfg, t, b) { StageKeeps(cfg, s, t, b); }
    QuietStep(cfg, s, t);
  }

  lemma StepInv(cfg: Settings, s: State, step: Step)
    requires Inv(cfg, s)
    ensures Inv(cfg, Apply(cfg, s, step))
  {
    match step
    case Limit(l) => LimitInv(cfg, s, l);
    case AnswerReserve(_, _, _) => AnswerReserveInv(cfg, s, step);
    case TimePasses(_) => CallInv(cfg, s, step);
    case AskReserve(_) => CallInv(cfg, s, step);
    case ServerHolds => CallInv(cfg, s, step);
    case Issue(_, _, _, _) => IssueInv(cfg, s, step);
    case GiveUp(a) => BookkeepingInv(cfg, s, Apply(cfg, s, step));
    case Dedup(a) => DedupInv(cfg, s, a);
    case SchedulerDone(a, _) =>
      if a in s.stages && s.stages[a].Scheduling? { MarkAlternates(s.history, s.stages[a].uuid, false); }
      BookkeepingInv(cfg, s, Apply(cfg, s, step));
    case Return(w) => ReturnInv(cfg, s, w);
    case JobAdded(uuid, _) =>
      MarkAlternates(s.history, uuid, true);
      BookkeepingInv(cfg, s, Apply(cfg, s, step));
    case JobDeleted(uuid) =>
      MarkAlternates(s.history, uuid, false);
      BookkeepingInv(cfg, s, Apply(cfg, s, step));
  }

  lemma {:induction false} RunInv(cfg: Settings, s: State, steps: seq<Step>)
    requires Inv(cfg, s)
    ensures Inv(cfg, Run(cfg, s, steps))
    decreases |steps|
  {
    if steps != [] {
      StepInv(cfg, s, steps[0]);
      RunInv(cfg, Apply(cfg, s, steps[0]), steps[1..]);
    }
  }

  function Reached(cfg: Settings, workers: nat, steps: seq<Step>): State {
    Run(cfg, Start(workers), steps)
  }

  lemma ReachedInv(cfg: Settings, workers: nat, steps: seq<Step>)
    ensures Inv(cfg, Reached(cfg, workers, steps))
  {
    LimiterRuns.InitialInv(cfg.limiter, workers);
    RunInv(cfg, Start(workers), steps);
  }

  // ---- What every run guarantees -----------------------------------------

  /** The scheduler is handed a job only from an attempt the limiter admitted for it, after an
      error-free reservation listed its id, with a deadline no later than the server's, and with
      tokens enabled after a token was issued for that very id. */
  lemma PipelineSafety(cfg: Settings, workers: nat, steps: seq<Step>, i: nat)
    requires var s := Reached(cfg, workers, steps); i < |s.trace| && s.trace[i].Scheduled?
    ensures var s := Reached(cfg, workers, steps);
            var e := s.trace[i];
            && Occupied(e.job.id, e.attempt, true) in s.limiter.shared.log
            && Reserved(s.trace[..i], e.job.id, e.deadline)
            && (cfg.tokensEnabled ==> e.token.Some? && e.token.value != "" && Granted(s.trace[..i], e.job.id, e.token.value))
  {
    ReachedInv(cfg, workers, steps);
    assert HandOffOk(cfg, Reached(cfg, workers, steps), i);
  }

  /** Marks and unmarks alternate, every hand-off comes from another attempt, and between two
      hand-offs of one UUID the mark was taken off. */
  lemma HandOffsSeparated(cfg: Settings, workers: nat, steps: seq<Step>, i: nat, j: nat)
    requires var s := Reached(cfg, workers, steps); i < j < |s.trace| && s.trace[i].Scheduled? && s.trace[j].Scheduled?
    ensures var s := Reached(cfg, workers, steps);
            var d, e := s.trace[i], s.trace[j];
            && Deduper.Alternates(s.history)
            && d.attempt != e.attempt
            && d.mark < e.mark < |s.history|
            && s.history[d.mark] == Deduper.Marked(d.uuid) && s.history[e.mark] == Deduper.Marked(e.uuid)
            && (d.uuid == e.uuid ==> exists k :: d.mark < k < e.mark && s.history[k] == Deduper.Unmarked(d.uuid))
  {
    ReachedInv(cfg, workers, steps);
    var s := Reached(cfg, workers, steps);
    assert HandOffOk(cfg, s, i) && HandOffOk(cfg, s, j);
    if s.trace[i].uuid == s.trace[j].uuid {
      Deduper.UnmarkBetweenMarks(s.history, s.trace[i].mark, s.trace[j].mark);
    }
  }

  // ---- What every answer leads to ----------------------------------------

  /** A call is made unless one is under way or nobody in the batch waits; it is for exactly those who
      wait, and counts the lifetime from before the server can begin to hold anything. */
  lemma AskTakesTheWaiting(cfg: Settings, s: State, batch: set<nat>, a: nat)
    ensures var t := Apply(cfg, s, AskReserve(batch));
            if s.call.None? && exists b :: b in batch && b in s.stages && s.stages[b].Reserving?
            then && t.call.Some? && t.call.value.held.None? && t.call.value.expires == Reserver.ServerExpiry(s.now, cfg.expirySeconds)
                 && (a in t.call.value.batch <==> a in batch && a in s.stages && s.stages[a].Reserving?)
            else t == s
  {
    if b :| b in batch && b in s.stages && s.stages[b].Reserving? {
      assert b in Waiting(s.stages, batch);
    }
  }

  /** A waiting attempt goes on exactly if the call succeeded, its id is anywhere in the response, and its
      context has not ended: to the issuer with tokens enabled, else to the deduper, with the reserver's
      own view of the end of the reservation. */
  lemma ListedGoesOn(cfg: Settings, s: State, step: Step, a: nat)
    requires step.AnswerReserve? && s.call.Some? && (step.failed || s.call.value.held.Some?)
    requires a in s.call.value.batch && a in s.stages && s.stages[a].Reserving?
    ensures var t := Apply(cfg, s, step);
            var job, end := s.stages[a].job, s.call.value.expires;
            && t.call.None? && a in t.stages
            && t.stages[a] == (if step.failed || a in step.ended || !Reserver.Listed(step.reserved, job.id) then Returned(job, false)
                               else if cfg.tokensEnabled then Issuing(job, end)
                               else Deduping(job, end, None))
  {
    Reserver.Correlation(step.reserved, s.call.value.expires, step.failed, s.stages[a].job.id);
  }

  ghost predicate GrantedBy(step: Step, id: string, token: string)
    requires step.Issue?
  {
    !step.failed && step.response.Some? && Issuer.GrantedOnce(step.response.value, id, token)
  }

  /** A waiting attempt goes on to the deduper exactly if the call granted its id one token and its context
      has not ended, and takes that token along with its deadline. */
  lemma GrantedGoesOn(cfg: Settings, s: State, step: Step, a: nat)
    requires step.Issue? && a in step.batch && a in s.stages && s.stages[a].Issuing?
    ensures var t := Apply(cfg, s, step);
            var g := s.stages[a];
            && a in t.stages
            && (forall token :: GrantedBy(step, g.job.id, token) && a !in step.ended ==> t.stages[a] == Deduping(g.job, g.deadline, Some(token)))
            && (a in step.ended || (forall token :: !GrantedBy(step, g.job.id, token)) ==> t.stages[a] == Returned(g.job, false))
  {
    var id := s.stages[a].job.id;
    forall token ensures GrantedBy(step, id, token) <==> Issuer.Answer(step.response, step.failed, id) == Issuer.TokenResult(token, None) {
      Issuer.Correlation(step.response, step.failed, id, token);
    }
    var answer := Issuer.Answer(step.response, step.failed, id);
    if answer.err.None? { assert GrantedBy(step, id, answer.token); }
  }

  lemma MarkMeans(history: seq<Deduper.Change>, uuid: string, x: bool, other: string)
    ensures Deduper.IsMarked(Mark(history, uuid, x), other) <==> if other == uuid then x else Deduper.IsMarked(history, other)
  {
    Deduper.LastChangeNext(history, if x then Deduper.Marked(uuid) else Deduper.Unmarked(uuid), other);
  }

  /** The marks of everyone but uuid are as they were. */
  ghost predicate OnlyMarks(s: State, t: State, uuid: string, x: bool) {
    forall u :: Deduper.IsMarked(t.history, u) <==> if u == uuid then x else Deduper.IsMarked(s.history, u)
  }

  /** The deduper hands a job on exactly if its id parses to a UUID that is not marked; then that UUID is
      marked, and no other mark moves. */
  lemma HandedOnIffUnmarked(cfg: Settings, s: State, a: nat)
    requires a in s.stages && s.stages[a].Deduping?
    ensures var t := Apply(cfg, s, Dedup(a));
            var g := s.stages[a];
            var uuid := cfg.parse(g.job.id);
            && a in t.stages
            && if uuid.Some? && !Deduper.IsMarked(s.history, uuid.value)
               then t.stages[a] == Scheduling(g.job, uuid.value) && OnlyMarks(s, t, uuid.value, true)
                    && |t.trace| == |s.trace| + 1 && t.trace[|s.trace|].Scheduled? && t.trace[|s.trace|].attempt == a
               else t == s.(stages := s.stages[a := Returned(g.job, false)])
  {
    var uuid := cfg.parse(s.stages[a].job.id);
    if uuid.Some? {
      forall u { MarkMeans(s.history, uuid.value, true, u); }
    }
  }

  /** When the scheduler is done, the limiter is told of a failure unless it succeeded; the mark stays
      unless it failed with an error that is not about a duplicate. */
  lemma SchedulerReports(cfg: Settings, s: State, a: nat, result: Deduper.HandOff)
    requires a in s.stages && s.stages[a].Scheduling?
    ensures var t := Apply(cfg, s, SchedulerDone(a, result));
            var g := s.stages[a];
            && a in t.stages && t.stages[a] == Returned(g.job, result.Success?)
            && OnlyMarks(s, t, g.uuid, Deduper.IsMarked(s.history, g.uuid) && !result.OtherError?)
  {
    forall u { MarkMeans(s.history, s.stages[a].uuid, false, u); }
  }

  /** Every worker in the handler has its call, and for its own job. */
  ghost predicate CallsUnderWay(s: State) {
    forall w :: 0 <= w < |s.limiter.workers| && s.limiter.workers[w].Handling? ==>
      s.limiter.workers[w].attempt in s.stages && s.stages[s.limiter.workers[w].attempt].job == s.limiter.workers[w].job
  }

  lemma LimitCallsUnderWay(cfg: Settings, s: State, l: LimiterSpec.Step)
    requires LimiterRuns.Inv(cfg.limiter, s.limiter) && CallsUnderWay(s)
    ensures CallsUnderWay(Apply(cfg, s, Limit(l)))
  {
    if InHandler(s, l) { return; }
    if l.Work? && Enabled(cfg.limiter, s.limiter, l) {
      LimiterRuns.WorkApplies(cfg.limiter, s.limiter, l);
      LimiterRuns.MoveWorker(cfg.limiter, s.limiter.shared, s.limiter.workers[l.w], l.outcome);
    }
  }

  lemma ReturnCallsUnderWay(cfg: Settings, s: State, w: nat)
    requires LimiterRuns.Inv(cfg.limiter, s.limiter) && CallsUnderWay(s)
    ensures CallsUnderWay(Apply(cfg, s, Return(w)))
  {
    var t := Apply(cfg, s, Return(w));
    if t != s {
      assert t.limiter.workers == s.limiter.workers[w := AtTop];
    }
  }

  lemma StepCallsUnderWay(cfg: Settings, s: State, step: Step)
    requires LimiterRuns.Inv(cfg.limiter, s.limiter) && CallsUnderWay(s)
    ensures CallsUnderWay(Apply(cfg, s, step))
  {
    match step
    case Limit(l) => LimitCallsUnderWay(cfg, s, l);
    case Return(w) => ReturnCallsUnderWay(cfg, s, w);
    case TimePasses(_) =>
    case AskReserve(_) =>
    case ServerHolds =>
    case AnswerReserve(_, _, _) =>
    case Issue(_, _, _, _) =>
    case GiveUp(_) =>
    case Dedup(_) =>
    case SchedulerDone(_, _) =>
    case JobAdded(_, _) =>
    case JobDeleted(_) =>
  }

  lemma {:induction false} RunCallsUnderWay(cfg: Settings, s: State, steps: seq<Step>)
    requires Inv(cfg, s) && CallsUnderWay(s)
    ensures CallsUnderWay(Run(cfg, s, steps))
    decreases |steps|
  {
    if steps != [] {
      StepCallsUnderWay(cfg, s, steps[0]);
      StepInv(cfg, s, steps[0]);
      RunCallsUnderWay(cfg, Apply(cfg, s, steps[0]), steps[1..]);
    }
  }

  /** In every run a worker in the handler has its call, for its own job. */
  lemma HandlerHasItsCall(cfg: Settings, workers: nat, steps: seq<Step>, w: nat)
    requires var s := Reached(cfg, workers, steps); w < |s.limiter.workers| && s.limiter.workers[w].Handling?
    ensures var s := Reached(cfg, workers, steps);
            var a := s.limiter.workers[w].attempt;
            a in s.stages && s.stages[a].job == s.limiter.workers[w].job
  {
    LimiterRuns.InitialInv(cfg.limiter, workers);
    RunCallsUnderWay(cfg, Start(workers), steps);
  }

  /** The only slot that attempt a's failure gives back is its own, and that while nobody has seen its Job. */
  ghost predicate OnlyItsSlot(s: Shared, t: Shared, a: nat, failed: bool) {
    forall id :: LimiterEvents.Occupies(s.jobs, id) ==>
      (!LimiterEvents.KeepsSlot(s, t, id) <==> failed && s.jobs[id].attempt == a && Observed(id, a) !in s.log)
  }

  lemma OutcomeSlots(cfg: Config, s: LimiterSpec.State, w: nat, ok: bool)
    requires LimiterRuns.Inv(cfg, s) && w < |s.workers| && s.workers[w].Handling?
    ensures var t := LimiterSpec.Apply(cfg, s, Work(w, if ok then Proceed else HandlerError));
            && t.workers == s.workers[w := AtTop]
            && (ok ==> t.shared == s.shared)
            && OnlyItsSlot(s.shared, t.shared, s.workers[w].attempt, !ok)
  {
    var step := Work(w, if ok then Proceed else HandlerError);
    forall id | LimiterEvents.Occupies(s.shared.jobs, id)
      ensures !LimiterEvents.KeepsSlot(s.shared, LimiterSpec.Apply(cfg, s, step).shared, id) <==>
                !ok && s.shared.jobs[id].attempt == s.workers[w].attempt && Observed(id, s.workers[w].attempt) !in s.shared.log
    {
      LimiterEvents.WorkReleases(cfg, s, step, id);
    }
  }

  /** When a worker's call is over, the worker goes back to the top of its loop. A call that went well
      leaves the limiter as it was; one that failed gives back the slot of its own attempt, exactly if
      nobody has seen its Job yet, and no other slot. */
  lemma ReturnGivesBack(cfg: Settings, workers: nat, steps: seq<Step>, w: nat)
    requires var s := Reached(cfg, workers, steps);
             w < |s.limiter.workers| && s.limiter.workers[w].Handling?
             && (s.limiter.workers[w].attempt in s.stages ==> s.stages[s.limiter.workers[w].attempt].Returned?)
    ensures var s := Reached(cfg, workers, steps);
            var a, t := s.limiter.workers[w].attempt, Apply(cfg, s, Return(w));
            && a in s.stages && a !in t.stages
            && t.limiter.workers == s.limiter.workers[w := AtTop]
            && (s.stages[a].ok ==> t.limiter.shared == s.limiter.shared)
            && OnlyItsSlot(s.limiter.shared, t.limiter.shared, a, !s.stages[a].ok)
  {
    ReachedInv(cfg, workers, steps);
    HandlerHasItsCall(cfg, workers, steps, w);
    var s := Reached(cfg, workers, steps);
    OutcomeSlots(cfg.limiter, s.limiter, w, s.stages[s.limiter.workers[w].attempt].ok);
  }
}
