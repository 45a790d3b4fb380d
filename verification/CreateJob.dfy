/** Creating a Job and its acquisition token Secret against an API server that loses
    answers and fails transiently: reconciliation, retries, and cleanup. */
module CreateJob {
  import opened Options
  import opened Cluster
  import opened Contexts

  const BACKOFF_STEPS := 5

  datatype Failure =
    | Api(e: ApiError)
    | ContextExpired
    | AttemptsExhausted
    | JobIdentityConflict
    | SecretIdentityConflict
    | Joined(first: Failure, second: Failure)

  datatype Result<+T> = Success(value: T) | Failed(error: Failure)

  /** The first API status in an error tree decides its class. */
  function FirstStatus(f: Failure): Option<ApiError> {
    match f
    case Api(e) => if e.NoStatus? then None else Some(e)
    case Joined(a, b) => if FirstStatus(a).Some? then FirstStatus(a) else FirstStatus(b)
    case _ => None
  }

  /** The API errors in an error tree, from left to right. */
  function Answers(f: Failure): seq<ApiError> {
    match f
    case Api(e) => [e]
    case Joined(a, b) => Answers(a) + Answers(b)
    case _ => []
  }

  ghost predicate IsFirstStatus(answers: seq<ApiError>, i: int, e: ApiError) {
    0 <= i < |answers| && answers[i] == e && !e.NoStatus? && forall k :: 0 <= k < i ==> answers[k].NoStatus?
  }

  lemma FirstStatusOfBoth(a: seq<ApiError>, b: seq<ApiError>, i: int, e: ApiError)
    ensures IsFirstStatus(a, i, e) ==> IsFirstStatus(a + b, i, e)
    ensures AllLost(a) && IsFirstStatus(b, i, e) ==> IsFirstStatus(a + b, |a| + i, e)
    ensures AllLost(a + b) <==> AllLost(a) && AllLost(b)
  {
    assert forall k :: 0 <= k < |b| ==> (a + b)[|a| + k] == b[k];
    assert forall k :: 0 <= k < |a| ==> (a + b)[k] == a[k];
  }

  ghost predicate AllLost(answers: seq<ApiError>) {
    forall k :: 0 <= k < |answers| ==> answers[k].NoStatus?
  }

  /** An error tree is classified by the first status in it, if there is any. */
  lemma {:induction false} FirstStatusIsFirst(f: Failure) returns (i: int)
    ensures FirstStatus(f).None? <==> AllLost(Answers(f))
    ensures FirstStatus(f).Some? ==> IsFirstStatus(Answers(f), i, FirstStatus(f).value)
  {
    i := 0;
    match f
    case Joined(a, b) =>
      var x := FirstStatusIsFirst(a);
      var y := FirstStatusIsFirst(b);
      i := if FirstStatus(a).Some? then x else |Answers(a)| + y;
      FirstStatusOfBoth(Answers(a), Answers(b), if FirstStatus(a).Some? then x else y,
                        if FirstStatus(f).Some? then FirstStatus(f).value else NoStatus);
      assert Answers(f) == Answers(a) + Answers(b);
    case Api(e) => assert Answers(f)[0] == e;
    case ContextExpired =>
    case AttemptsExhausted =>
    case JobIdentityConflict =>
    case SecretIdentityConflict =>
  }

  predicate IsPermanentFailure(f: Failure) {
    FirstStatus(f).Some? && IsPermanent(FirstStatus(f).value)
  }

  /** Whether waiting gave up: out of attempts, or the context ended. */
  predicate Interrupted(f: Failure) {
    f.ContextExpired? || f.AttemptsExhausted?
  }

  /** What the waiting loops return: an ended context hides the rest, and the last error met says more
      than that waiting gave up. */
  function Reported(expired: bool, err: Failure, last: Option<Failure>): Failure {
    if expired then ContextExpired else if Interrupted(err) && last.Some? then last.value else err
  }

  /** A failure that no retry can mend. */
  predicate Final(f: Failure) {
    f.JobIdentityConflict? || f.SecretIdentityConflict? || (f.Api? && (f.e.Conflict? || IsPermanent(f.e)))
  }

  // ---- Vocabulary --------------------------------------------------------

  /** The Secret reconcileJobAcquisitionTokenSecret asks for. */
  function TokenSecret(job: KJob, token: string): KSecret {
    KSecret(SecretName(job), 0, job.labels, [OwnerRef(BATCH_V1, "Job", job.name, job.uid, Some(true))],
            Some(true), map[AGENT_TOKEN_KEY := token])
  }

  /** An immutable Secret of that Job, holding exactly the token. */
  predicate HoldsToken(secret: KSecret, job: KJob, token: string) {
    && SecretControlledByJob(secret, job)
    && secret.immutable == Some(true)
    && Lookup(secret.data, AGENT_TOKEN_KEY) == token
    && (Lookup(job.labels, UUID_LABEL) != "" ==> HasSameJobIdentity(job.labels, secret.labels))
  }

  /** The log since `from` shows the server handing out job: as the answer to a create,
      or to a get whose identity was verified. */
  ghost predicate Vouched(expected: KJob, log: seq<Call>, from: nat, job: KJob) {
    exists j :: from <= j < |log| &&
      (log[j] == JobCreate(Ok(job)) || (log[j] == JobGet(Ok(job)) && IdentityVerified(expected, job)))
  }

  /** No other Job is vouched for. */
  ghost predicate OnlyVouched(expected: KJob, log: seq<Call>, from: nat, found: Option<KJob>) {
    forall job :: Vouched(expected, log, from, job) ==> found == Some(job)
  }

  predicate IsVainLook(expected: KJob, call: Call) {
    call.JobGet? && (call.job.Ok? ==> !IdentityVerified(expected, call.job.value))
  }

  /** The calls since `from` all looked for the Job, and found none of the expected identity. */
  ghost predicate VainLooks(expected: KJob, log: seq<Call>, from: nat) {
    forall i :: from <= i < |log| ==> IsVainLook(expected, log[i])
  }

  /** The calls since `from` all looked for the Job, and the last one found it. */
  ghost predicate FoundLast(expected: KJob, log: seq<Call>, from: nat, job: KJob) {
    && from < |log| && log[|log| - 1] == JobGet(Ok(job))
    && forall i :: from <= i < |log| - 1 ==> IsVainLook(expected, log[i])
  }

  /** None of the calls since `from` is about the Job, other than to delete it. */
  ghost predicate NoJobAnswers(log: seq<Call>, from: nat) {
    forall i :: from <= i < |log| ==> !log[i].JobCreate? && !log[i].JobGet?
  }

  lemma OneMoreLook(expected: KJob, log: seq<Call>, from: nat, got: Response<KJob>)
    requires from <= |log| && VainLooks(expected, log, from)
    ensures if IsVainLook(expected, JobGet(got)) then VainLooks(expected, log + [JobGet(got)], from)
            else FoundLast(expected, log + [JobGet(got)], from, got.value)
    ensures log[..from] == (log + [JobGet(got)])[..from]
  {
  }

  lemma OnlyVouchedVain(expected: KJob, log: seq<Call>, longer: seq<Call>, from: nat, found: Option<KJob>)
    requires OnlyVouched(expected, log, from, found) && log <= longer
    requires VainLooks(expected, longer, |log|) || NoJobAnswers(longer, |log|)
    ensures OnlyVouched(expected, longer, from, found)
  {
    forall job | Vouched(expected, longer, from, job) ensures found == Some(job) {
      var j :| from <= j < |longer| && (longer[j] == JobCreate(Ok(job)) || (longer[j] == JobGet(Ok(job)) && IdentityVerified(expected, job)));
      assert j < |log|;
      assert log[j] == longer[j];
      assert Vouched(expected, log, from, job);
    }
  }

  lemma VouchedLast(expected: KJob, log: seq<Call>, from: nat, call: Call, job: KJob)
    requires Vouched(expected, log + [call], from, job)
    ensures Vouched(expected, log, from, job) || call == JobCreate(Ok(job)) || call == JobGet(Ok(job))
  {
    var l := log + [call];
    var j :| from <= j < |l| && (l[j] == JobCreate(Ok(job)) || (l[j] == JobGet(Ok(job)) && IdentityVerified(expected, job)));
    if j < |log| { assert log[j] == l[j]; }
  }

  lemma OnlyVouchedFound(expected: KJob, log: seq<Call>, longer: seq<Call>, from: nat, job: KJob)
    requires OnlyVouched(expected, log, from, None) && log <= longer && FoundLast(expected, longer, |log|, job)
    ensures OnlyVouched(expected, longer, from, Some(job))
  {
    var vain := longer[..|longer| - 1];
    OnlyVouchedVain(expected, log, vain, from, None);
    assert longer == vain + [JobGet(Ok(job))];
    forall other | Vouched(expected, longer, from, other) ensures other == job {
      VouchedLast(expected, vain, from, JobGet(Ok(job)), other);
    }
  }

  /** A delete may only name the UID of a vouched-for Job, or of a Secret that such a Job controls,
      and what it removes has that UID. */
  ghost predicate GuardedCall(expected: KJob, log: seq<Call>, from: nat, call: Call) {
    match call
    case JobDelete(name, uid, gone) =>
      && (gone.Some? ==> gone.value.name == name && gone.value.uid == uid)
      && exists job :: Vouched(expected, log, from, job) && job.name == name && job.uid == uid
    case SecretDelete(name, uid, gone) =>
      && (gone.Some? ==> gone.value.name == name && gone.value.uid == uid)
      && exists job, secret :: Vouched(expected, log, from, job) && OwnedSecretSeen(log, from, job, secret)
                               && secret.name == name && secret.uid == uid
    case _ => true
  }

  ghost predicate OwnedSecretSeen(log: seq<Call>, from: nat, job: KJob, secret: KSecret) {
    && SecretControlledByJob(secret, job) && HasSameJobIdentity(job.labels, secret.labels)
    && exists j :: from <= j < |log| && log[j] == SecretGet(Ok(secret))
  }

  ghost predicate GuardedDeletes(expected: KJob, log: seq<Call>, from: nat) {
    from <= |log| && forall i :: from <= i < |log| ==> GuardedCall(expected, log[..i], from, log[i])
  }

  lemma GuardedAppend(expected: KJob, log: seq<Call>, from: nat, call: Call)
    requires GuardedDeletes(expected, log, from) && GuardedCall(expected, log, from, call)
    ensures GuardedDeletes(expected, log + [call], from)
  {
    var l := log + [call];
    forall i | from <= i < |l| ensures GuardedCall(expected, l[..i], from, l[i]) {
      if i < |log| {
        assert l[..i] == log[..i];
      } else {
        assert l[..i] == log;
      }
    }
  }

  lemma VouchedAppend(expected: KJob, log: seq<Call>, from: nat, job: KJob, call: Call)
    ensures Vouched(expected, log, from, job) ==> Vouched(expected, log + [call], from, job)
    ensures (call == JobCreate(Ok(job)) || (call == JobGet(Ok(job)) && IdentityVerified(expected, job))) && from <= |log| ==>
              Vouched(expected, log + [call], from, job)
  {
    var l := log + [call];
    assert l[|log|] == call;
    if Vouched(expected, log, from, job) {
      var j :| from <= j < |log| && (log[j] == JobCreate(Ok(job)) || (log[j] == JobGet(Ok(job)) && IdentityVerified(expected, job)));
      assert l[j] == log[j];
    }
  }

  lemma VouchedPrefix(expected: KJob, log: seq<Call>, longer: seq<Call>, from: nat, job: KJob)
    requires Vouched(expected, log, from, job) && log <= longer
    ensures Vouched(expected, longer, from, job)
  {
  }

  /** job's UID was handed out, and an object with it can only live under job's name. */
  ghost predicate Tracked(jobs: map<string, KJob>, next: nat, job: KJob) {
    job.uid < next && forall m :: m in jobs && jobs[m].uid == job.uid ==> m == job.name
  }

  ghost predicate JobGone(jobs: map<string, KJob>, uid: nat) {
    forall m :: m in jobs ==> jobs[m].uid != uid
  }

  ghost predicate SecretGone(secrets: map<string, KSecret>, uid: nat) {
    forall m :: m in secrets ==> secrets[m].uid != uid
  }

  /** The Secrets this call's creates stored, answered or not. */
  ghost function NewlyWritten(before: set<nat>, after: set<nat>): set<nat> {
    after - before
  }

  /** The answer shows a Secret that a cleanup of job must leave alone. */
  predicate ForeignRead(call: Call, job: KJob) {
    && call.SecretGet? && call.secret.Ok?
    && !(SecretControlledByJob(call.secret.value, job) && HasSameJobIdentity(job.labels, call.secret.value.labels))
  }

  /** The Secret written for job, under other labels: a cleanup leaves it alone exactly if those do
      not identify job any more. */
  lemma RelabelledIsForeign(job: KJob, token: string, uid: nat, labels: map<string, string>)
    ensures ForeignRead(SecretGet(Ok(TokenSecret(job, token).(uid := uid, labels := labels))), job) <==>
              !HasSameJobIdentity(job.labels, labels)
  {
    var owners := TokenSecret(job, token).owners;
    assert ControllerOf(owners) == Some(owners[0]);
  }

  ghost predicate DeletesAppended(log: seq<Call>, longer: seq<Call>) {
    log <= longer && OnlyDeletesSince(longer, |log|)
  }

  lemma DeletesAppendedTwice(a: seq<Call>, b: seq<Call>, c: seq<Call>)
    requires DeletesAppended(a, b) && DeletesAppended(b, c)
    ensures DeletesAppended(a, c)
  {
  }

  ghost predicate OnlyDeletesSince(log: seq<Call>, from: nat) {
    forall i :: from <= i < |log| ==> log[i].JobDelete? || log[i].SecretDelete?
  }

  /** The last Secret read since `from` found the one with this UID, and it was not job's. */
  ghost predicate LastReadForeign(log: seq<Call>, from: nat, job: KJob, uid: nat) {
    exists i: nat :: from <= i < |log| && ForeignRead(log[i], job) && log[i].secret.value.uid == uid && OnlyDeletesSince(log, i + 1)
  }

  /** Every one of these Secrets is gone, or was found not to be job's. */
  ghost predicate GoneOrForeign(secrets: map<string, KSecret>, log: seq<Call>, from: nat, job: KJob, uids: set<nat>) {
    forall u :: u in uids ==> SecretGone(secrets, u) || LastReadForeign(log, from, job, u)
  }

  lemma LastReadStays(log: seq<Call>, longer: seq<Call>, from: nat, job: KJob, uid: nat)
    requires LastReadForeign(log, from, job, uid) && log <= longer && OnlyDeletesSince(longer, |log|)
    ensures LastReadForeign(longer, from, job, uid)
  {
    var i: nat :| from <= i < |log| && ForeignRead(log[i], job) && log[i].secret.value.uid == uid && OnlyDeletesSince(log, i + 1);
    assert longer[i] == log[i];
    forall k | i + 1 <= k < |longer| ensures longer[k].JobDelete? || longer[k].SecretDelete? {
      if k < |log| { assert longer[k] == log[k]; }
    }
  }

  lemma GoneOrForeignStays(secrets: map<string, KSecret>, next: nat, secrets': map<string, KSecret>, log: seq<Call>, log': seq<Call>,
                           from: nat, job: KJob, uids: set<nat>)
    requires GoneOrForeign(secrets, log, from, job, uids) && log <= log' && OnlyDeletesSince(log', |log|)
    requires SecretUidsStay(secrets, next, secrets') && forall u :: u in uids ==> u < next
    ensures GoneOrForeign(secrets', log', from, job, uids)
  {
    forall u | u in uids ensures SecretGone(secrets', u) || LastReadForeign(log', from, job, u) {
      if LastReadForeign(log, from, job, u) { LastReadStays(log, log', from, job, u); }
    }
  }

  // ---- Scanning the Job spec ---------------------------------------------

  method JobReferencesSecret(job: KJob, secretName: string) returns (r: bool)
    ensures r == ReferencesSecret(job.containers, secretName)
  {
    for i := 0 to |job.containers|
      invariant !ReferencesSecret(job.containers[..i], secretName)
    {
      var container := job.containers[i];
      assert job.containers[..i + 1] == job.containers[..i] + [container];
      if container.name != AGENT_CONTAINER_NAME {
        continue;
      }
      for k := 0 to |container.env|
        invariant forall k' :: 0 <= k' < k ==> !IsTokenRef(container.env[k'], secretName)
      {
        if IsTokenRef(container.env[k], secretName) {
          return true;
        }
      }
    }
    assert job.containers[..|job.containers|] == job.containers;
    return false;
  }

  // ---- Reconciling -------------------------------------------------------

  /** What a look that did not find the Job is reported as. */
  function LookError(answer: Response<KJob>): Failure {
    if answer.Ok? then JobIdentityConflict else Api(answer.error)
  }

  ghost predicate LastLookFailed(log: seq<Call>, from: nat, f: Failure) {
    |log| > from && log[|log| - 1].JobGet? && f == LookError(log[|log| - 1].job)
  }

  /** One look for the Job. An error means that no further look is worth it. */
  method LookForJob(c: Cluster, expected: KJob, ghost from: nat) returns (got: Response<KJob>, err: Option<Failure>)
    requires c.Valid() && GuardedDeletes(expected, c.log, from)
    modifies c
    ensures c.Valid() && c.written == old(c.written) && c.refused == old(c.refused) && old(c.nextUid) <= c.nextUid
    ensures JobUidsStay(old(c.jobs), old(c.nextUid), c.jobs) && SecretUidsStay(old(c.secrets), old(c.nextUid), c.secrets)
    ensures c.quiet ==> c.jobs == old(c.jobs) && c.secrets == old(c.secrets)
    ensures c.log == old(c.log) + [JobGet(got)] && GuardedDeletes(expected, c.log, from)
    ensures c.faults == old(c.faults) + (if got.Err? then 1 else 0)
    ensures got.Ok? ==> expected.name in c.jobs && c.jobs[expected.name] == got.value
    ensures err == if (got.Ok? && !IdentityVerified(expected, got.value)) || (got.Err? && IsPermanent(got.error)) then Some(LookError(got)) else None
  {
    got := c.GetJob(expected.name);
    err := None;
    GuardedAppend(expected, old(c.log), from, JobGet(got));
    if got.Err? {
      if IsPermanent(got.error) {
        err := Some(Api(got.error));
      }
      return;
    }
    var job := got.value;
    var references := JobReferencesSecret(job, SecretName(job));
    if !HasSameJobIdentity(expected.labels, job.labels) || job.uid == 0 || SecretName(job) == "" || !references {
      err := Some(JobIdentityConflict);
    }
  }

  /** The live Job of the expected name is another one. */
  ghost predicate LiveUnverified(expected: KJob, jobs: map<string, KJob>) {
    expected.name in jobs && !IdentityVerified(expected, jobs[expected.name])
  }

  /** The answer settles that there is no point in looking on. */
  predicate IsFinalLook(expected: KJob, call: Call) {
    call.JobGet? && if call.job.Ok? then !IdentityVerified(expected, call.job.value) else IsPermanent(call.job.error)
  }

  ghost predicate LastLookFinal(expected: KJob, log: seq<Call>, from: nat) {
    |log| > from && IsFinalLook(expected, log[|log| - 1])
  }

  /** An answer since `from` showed another Job of that name. */
  ghost predicate ForeignSeen(expected: KJob, log: seq<Call>, from: nat) {
    exists i :: from <= i < |log| && log[i].JobGet? && log[i].job.Ok? && !IdentityVerified(expected, log[i].job.value)
  }

  /** Looks for the Job until it is found, nothing more can be expected, or patience ends. */
  method WaitForJob(c: Cluster, ctx: Context, expected: KJob, ghost from: nat) returns (job: Option<KJob>, err: Failure, last: Option<Failure>)
    requires c.Valid() && GuardedDeletes(expected, c.log, from)
    modifies c, ctx
    ensures c.Valid() && c.written == old(c.written) && c.refused == old(c.refused) && old(c.nextUid) <= c.nextUid
    ensures JobUidsStay(old(c.jobs), old(c.nextUid), c.jobs) && SecretUidsStay(old(c.secrets), old(c.nextUid), c.secrets)
    ensures c.quiet ==> c.jobs == old(c.jobs) && c.secrets == old(c.secrets)
    ensures |c.log| <= |old(c.log)| + BACKOFF_STEPS && old(c.log) <= c.log && GuardedDeletes(expected, c.log, from)
    ensures job.Some? ==> IdentityVerified(expected, job.value) && expected.name in c.jobs && c.jobs[expected.name] == job.value
    ensures if job.Some? then FoundLast(expected, c.log, |old(c.log)|, job.value) else VainLooks(expected, c.log, |old(c.log)|)
    ensures c.log == old(c.log) ==> ctx.done
    ensures c.faults >= old(c.faults)
    ensures job.None? ==> GaveUp(expected, c.log, |old(c.log)|, ctx.done, err, last)
    ensures job.None? && !ctx.done ==> c.faults > old(c.faults) || (LiveUnverified(expected, c.jobs) && ForeignSeen(expected, c.log, |old(c.log)|))
  {
    last := None;
    var steps := BACKOFF_STEPS;
    while true
      invariant 1 <= steps <= BACKOFF_STEPS
      invariant c.Valid() && c.written == old(c.written) && c.refused == old(c.refused) && old(c.nextUid) <= c.nextUid
      invariant JobUidsStay(old(c.jobs), old(c.nextUid), c.jobs) && SecretUidsStay(old(c.secrets), old(c.nextUid), c.secrets)
      invariant c.quiet ==> c.jobs == old(c.jobs) && c.secrets == old(c.secrets)
      invariant |c.log| == |old(c.log)| + BACKOFF_STEPS - steps && old(c.log) <= c.log && GuardedDeletes(expected, c.log, from)
      invariant VainLooks(expected, c.log, |old(c.log)|)
      invariant c.faults >= old(c.faults) && (last.Some? ==> c.faults > old(c.faults) && LastLookFailed(c.log, |old(c.log)|, last.value))
      invariant steps < BACKOFF_STEPS ==> last.Some?
      decreases steps
    {
      var expired := ctx.Expired();
      if expired {
        return None, ContextExpired, last;
      }
      ghost var before := c.log;
      var got, final := LookForJob(c, expected, from);
      OneMoreLook(expected, before, |old(c.log)|, got);
      if final.Some? {
        assert c.log[|before|] == JobGet(got);
        return None, final.value, last;
      }
      if got.Ok? {
        return Some(got.value), AttemptsExhausted, last;
      }
      last := Some(Api(got.error));
      if steps == 1 {
        return None, AttemptsExhausted, last;
      }
      expired := ctx.Expired();
      if expired {
        return None, ContextExpired, last;
      }
      steps := steps - 1;
    }
  }

  /** Why looking ended in vain: the context ended, the looks were used up, or the last look was final. */
  ghost predicate GaveUp(expected: KJob, log: seq<Call>, from: nat, done: bool, err: Failure, last: Option<Failure>) {
    match err
    case ContextExpired => done
    case AttemptsExhausted => |log| == from + BACKOFF_STEPS && last.Some? && LastLookFailed(log, from, last.value)
    case _ => Final(err) && LastLookFailed(log, from, err) && LastLookFinal(expected, log, from)
  }

  /** Finds the Job an unanswered create may have stored. */
  method ReconcileCreatedJob(c: Cluster, ctx: Context, expected: KJob, ghost from: nat) returns (r: Result<KJob>)
    requires c.Valid() && GuardedDeletes(expected, c.log, from)
    modifies c, ctx
    ensures c.Valid() && c.written == old(c.written)
    ensures JobUidsStay(old(c.jobs), old(c.nextUid), c.jobs) && SecretUidsStay(old(c.secrets), old(c.nextUid), c.secrets)
    ensures old(c.nextUid) <= c.nextUid
    ensures c.quiet ==> c.jobs == old(c.jobs) && c.secrets == old(c.secrets)
    ensures |c.log| <= |old(c.log)| + BACKOFF_STEPS && GuardedDeletes(expected, c.log, from)
    ensures r.Success? ==> IdentityVerified(expected, r.value) && Vouched(expected, c.log, from, r.value)
    ensures r.Success? ==> expected.name in c.jobs && c.jobs[expected.name] == r.value
    ensures c.refused == old(c.refused)
    ensures r.Failed? ==> ctx.done || Final(r.error) || |c.log| == |old(c.log)| + BACKOFF_STEPS
    // it does nothing but look, at least once in a live context, and returns the first Job that passes
    ensures old(c.log) <= c.log && (c.log == old(c.log) ==> ctx.done)
    ensures if r.Success? then FoundLast(expected, c.log, |old(c.log)|, r.value) else VainLooks(expected, c.log, |old(c.log)|)
    // it fails with what the last look met, and only if that or an earlier look met an error or another Job
    ensures r.Failed? ==> (ctx.done && r.error.ContextExpired?) || LastLookFailed(c.log, |old(c.log)|, r.error)
    ensures c.faults >= old(c.faults)
    ensures r.Failed? ==> ctx.done || c.faults > old(c.faults) || (LiveUnverified(expected, c.jobs) && ForeignSeen(expected, c.log, |old(c.log)|))
    ensures r.Failed? ==> ctx.done || LastLookFinal(expected, c.log, |old(c.log)|) || |c.log| == |old(c.log)| + 5
  {
    var job, err, last := WaitForJob(c, ctx, expected, from);
    if job.Some? {
      FoundIsVouched(expected, old(c.log), c.log, from, job.value);
      return Success(job.value);
    }
    var expired := ctx.Expired();
    return Failed(Reported(expired, err, last));
  }

  lemma FoundIsVouched(expected: KJob, log: seq<Call>, longer: seq<Call>, from: nat, job: KJob)
    requires from <= |log| && IdentityVerified(expected, job) && FoundLast(expected, longer, |log|, job)
    ensures Vouched(expected, longer, from, job)
  {
  }

  /** The Secrets are as before, or the asked-for Secret was stored under its free name. */
  ghost predicate OnlyTokenSecretAdded(before: map<string, KSecret>, wrote: set<nat>,
                                       after: map<string, KSecret>, written: set<nat>, job: KJob, token: string) {
    var name := SecretName(job);
    || (after == before && written == wrote)
    || (name !in before && name in after && after == before[name := TokenSecret(job, token).(uid := after[name].uid)]
        && written == wrote + {after[name].uid})
  }

  /** The Secret is job's own, immutable, and holds the token. */
  predicate IsOwnToken(secret: KSecret, job: KJob, token: string) {
    HoldsToken(secret, job, token) && HasSameJobIdentity(job.labels, secret.labels)
  }

  /** The Secret asked for is recognised as job's own, with its token and no other, unless job has no UUID label. */
  lemma AskedForIsOwn(job: KJob, token: string, uid: nat, other: string)
    ensures IsOwnToken(TokenSecret(job, token).(uid := uid), job, other) <==> other == token && Lookup(job.labels, UUID_LABEL) != ""
  {
    var owners := TokenSecret(job, token).owners;
    assert ControllerOf(owners) == Some(owners[0]);
  }

  /** The answer shows that job has its token Secret. */
  predicate ShowsSecret(call: Call, job: KJob, token: string) {
    || (call.SecretCreate? && call.secret.Ok?)
    || (call.SecretGet? && call.secret.Ok? && IsOwnToken(call.secret.value, job, token))
  }

  /** The calls since `from` asked for the Secret or for a look at it, and no answer shows it. */
  ghost predicate VainAsks(log: seq<Call>, from: nat, job: KJob, token: string) {
    forall i :: from <= i < |log| ==> (log[i].SecretCreate? || log[i].SecretGet?) && !ShowsSecret(log[i], job, token)
  }

  /** As above, except that the last answer shows it. */
  ghost predicate ShownLast(log: seq<Call>, from: nat, job: KJob, token: string) {
    && from < |log| && ShowsSecret(log[|log| - 1], job, token)
    && forall i :: from <= i < |log| - 1 ==> (log[i].SecretCreate? || log[i].SecretGet?) && !ShowsSecret(log[i], job, token)
  }

  lemma OneMoreAsk(log: seq<Call>, from: nat, job: KJob, token: string, call: Call)
    requires from <= |log| && VainAsks(log, from, job, token) && (call.SecretCreate? || call.SecretGet?)
    ensures if ShowsSecret(call, job, token) then ShownLast(log + [call], from, job, token) else VainAsks(log + [call], from, job, token)
  {
  }

  lemma MoreAsks(log: seq<Call>, longer: seq<Call>, from: nat, job: KJob, token: string)
    requires from <= |log| && VainAsks(log, from, job, token) && log <= longer
    ensures ShownLast(longer, |log|, job, token) ==> ShownLast(longer, from, job, token)
    ensures VainAsks(longer, |log|, job, token) ==> VainAsks(longer, from, job, token)
    ensures log[..from] == longer[..from]
  {
  }

  /** The last answer settles that job cannot have its Secret: a permanent error, or another Secret there. */
  ghost predicate LastAskRefused(log: seq<Call>, from: nat, f: Failure) {
    && |log| > from
    && var call := log[|log| - 1];
       || (call.SecretGet? && call.secret.Ok? && f.SecretIdentityConflict?)
       || ((call.SecretGet? || call.SecretCreate?) && call.secret.Err? && IsPermanent(call.secret.error) && f == Api(call.secret.error))
  }

  /** Looks at the Secret of that name, to adopt it if it is the one asked for. */
  method AdoptTokenSecret(c: Cluster, job: KJob, token: string, first: Failure, ghost expected: KJob, ghost from: nat)
    returns (done: bool, err: Option<Failure>, last: Failure, ghost got: Response<KSecret>)
    requires c.Valid() && GuardedDeletes(expected, c.log, from)
    modifies c
    ensures c.Valid() && c.written == old(c.written) && c.refused == old(c.refused) && old(c.nextUid) <= c.nextUid
    ensures c.faults >= old(c.faults)
    ensures JobUidsStay(old(c.jobs), old(c.nextUid), c.jobs) && SecretUidsStay(old(c.secrets), old(c.nextUid), c.secrets)
    ensures c.quiet ==> c.jobs == old(c.jobs) && c.secrets == old(c.secrets)
    ensures c.log == old(c.log) + [SecretGet(got)] && GuardedDeletes(expected, c.log, from)
    ensures done ==> err.None? && SecretName(job) in c.secrets && HoldsToken(c.secrets[SecretName(job)], job, token)
    ensures err.Some? ==> Final(err.value) && LastAskRefused(c.log, |old(c.log)|, err.value)
    // it adopts exactly what shows it; any other Secret there, or a permanent error, is final
    ensures done <==> ShowsSecret(SecretGet(got), job, token)
    ensures got.Ok? ==> done || err == Some(SecretIdentityConflict)
    ensures got.Err? ==> err == if IsPermanent(got.error) then Some(Api(got.error)) else None
  {
    done, err, last := false, None, first;
    var answer := c.GetSecret(SecretName(job));
    got := answer;
    GuardedAppend(expected, old(c.log), from, SecretGet(got));
    if answer.Err? {
      if IsPermanent(answer.error) {
        err := Some(Api(answer.error));
        return;
      }
      last := Joined(first, Api(answer.error));
      return;
    }
    var live := answer.value;
    if !SecretControlledByJob(live, job) || !HasSameJobIdentity(job.labels, live.labels)
       || live.immutable != Some(true) || Lookup(live.data, AGENT_TOKEN_KEY) != token {
      err := Some(SecretIdentityConflict);
      return;
    }
    done := true;
  }

  /** Asks to create the Secret. */
  method AskForSecret(c: Cluster, job: KJob, token: string, ghost expected: KJob, ghost from: nat) returns (created: Response<KSecret>)
    requires c.Valid() && job.uid < c.nextUid && GuardedDeletes(expected, c.log, from)
    modifies c
    ensures c.Valid() && old(c.written) <= c.written && old(c.nextUid) <= c.nextUid
    ensures JobUidsStay(old(c.jobs), old(c.nextUid), c.jobs) && SecretUidsStay(old(c.secrets), old(c.nextUid), c.secrets)
    ensures c.quiet ==> c.jobs == old(c.jobs) && OnlyTokenSecretAdded(old(c.secrets), old(c.written), c.secrets, c.written, job, token)
    ensures c.log == old(c.log) + [SecretCreate(created)] && GuardedDeletes(expected, c.log, from)
    ensures created.Ok? ==> SecretName(job) in c.secrets && HoldsToken(c.secrets[SecretName(job)], job, token)
    ensures c.refused == old(c.refused) + (if created.Err? then 1 else 0)
    ensures c.faults - c.refused >= old(c.faults - c.refused)
    ensures LiveOnlyAt(c.secrets, c.nextUid, NewlyWritten(old(c.written), c.written), SecretName(job))
  {
    created := c.CreateSecret(TokenSecret(job, token));
    GuardedAppend(expected, old(c.log), from, SecretCreate(created));
  }

  /** One attempt: create, and when that is not answered well, look. */
  method AttemptTokenSecret(c: Cluster, job: KJob, token: string, lastErr: Option<Failure>, ghost expected: KJob, ghost from: nat)
    returns (done: bool, err: Option<Failure>, last: Option<Failure>)
    requires c.Valid() && job.uid < c.nextUid && GuardedDeletes(expected, c.log, from)
    modifies c
    ensures c.Valid() && old(c.written) <= c.written
    ensures JobUidsStay(old(c.jobs), old(c.nextUid), c.jobs) && old(c.nextUid) <= c.nextUid
    ensures c.quiet ==> c.jobs == old(c.jobs) && OnlyTokenSecretAdded(old(c.secrets), old(c.written), c.secrets, c.written, job, token)
    ensures |c.log| <= |old(c.log)| + 2 && old(c.log) <= c.log && GuardedDeletes(expected, c.log, from)
    ensures done ==> err.None? && SecretName(job) in c.secrets && HoldsToken(c.secrets[SecretName(job)], job, token)
    ensures !done && err.None? ==> last.Some?
    ensures c.refused >= old(c.refused) && (!done ==> c.refused > old(c.refused))
    ensures c.faults - c.refused >= old(c.faults - c.refused)
    ensures !done && err.None? ==> |c.log| == |old(c.log)| + 2
    ensures err.Some? ==> Final(err.value) && LastAskRefused(c.log, |old(c.log)|, err.value)
    ensures SecretUidsStay(old(c.secrets), old(c.nextUid), c.secrets)
    ensures LiveOnlyAt(c.secrets, c.nextUid, NewlyWritten(old(c.written), c.written), SecretName(job))
    ensures if done then ShownLast(c.log, |old(c.log)|, job, token) else VainAsks(c.log, |old(c.log)|, job, token)
    ensures |c.log| > |old(c.log)|
  {
    done, err, last := false, None, lastErr;
    var created := AskForSecret(c, job, token, expected, from);
    OneMoreAsk(old(c.log), |old(c.log)|, job, token, SecretCreate(created));
    if created.Ok? {
      done := true;
      return;
    }
    if IsPermanent(created.error) {
      err := Some(Api(created.error));
      return;
    }
    ghost var asked, secrets, next, mine := c.log, c.secrets, c.nextUid, NewlyWritten(old(c.written), c.written);
    var joined;
    ghost var got;
    done, err, joined, got := AdoptTokenSecret(c, job, token, Api(created.error), expected, from);
    last := Some(joined);
    OneMoreAsk(asked, |old(c.log)|, job, token, SecretGet(got));
    LiveOnlyAtStays(secrets, next, c.secrets, c.nextUid, mine, SecretName(job));
  }

  lemma LiveOnlyAtStays(secrets: map<string, KSecret>, next: nat, secrets': map<string, KSecret>, next': nat, uids: set<nat>, name: string)
    requires LiveOnlyAt(secrets, next, uids, name) && SecretUidsStay(secrets, next, secrets') && next <= next'
    ensures LiveOnlyAt(secrets', next', uids, name)
  {
  }

  lemma OnlyTokenSecretAddedTwice(s0: map<string, KSecret>, w0: set<nat>, s1: map<string, KSecret>, w1: set<nat>,
                                  s2: map<string, KSecret>, w2: set<nat>, job: KJob, token: string)
    requires OnlyTokenSecretAdded(s0, w0, s1, w1, job, token) && OnlyTokenSecretAdded(s1, w1, s2, w2, job, token)
    ensures OnlyTokenSecretAdded(s0, w0, s2, w2, job, token)
  {
  }

  /** Asks for the Secret until it is there, nothing more can be expected, or patience ends. */
  method WaitForSecret(c: Cluster, ctx: Context, job: KJob, token: string, ghost expected: KJob, ghost from: nat)
    returns (done: bool, err: Failure, last: Option<Failure>)
    requires c.Valid() && job.uid < c.nextUid && GuardedDeletes(expected, c.log, from)
    modifies c, ctx
    ensures c.Valid() && old(c.written) <= c.written
    ensures JobUidsStay(old(c.jobs), old(c.nextUid), c.jobs) && old(c.nextUid) <= c.nextUid
    ensures c.quiet ==> c.jobs == old(c.jobs) && OnlyTokenSecretAdded(old(c.secrets), old(c.written), c.secrets, c.written, job, token)
    ensures |c.log| <= |old(c.log)| + 2 * BACKOFF_STEPS && old(c.log) <= c.log && GuardedDeletes(expected, c.log, from)
    ensures SecretUidsStay(old(c.secrets), old(c.nextUid), c.secrets)
    ensures LiveOnlyAt(c.secrets, c.nextUid, NewlyWritten(old(c.written), c.written), SecretName(job))
    ensures if done then ShownLast(c.log, |old(c.log)|, job, token) else VainAsks(c.log, |old(c.log)|, job, token)
    ensures done ==> SecretName(job) in c.secrets && HoldsToken(c.secrets[SecretName(job)], job, token)
    ensures c.refused >= old(c.refused) && (!done ==> ctx.done || c.refused > old(c.refused))
    ensures c.faults - c.refused >= old(c.faults - c.refused)
    ensures !done ==> AskedEnough(c.log, |old(c.log)|, ctx.done, err, last)
  {
    last := None;
    var steps := BACKOFF_STEPS;
    while true
      invariant 1 <= steps <= BACKOFF_STEPS
      invariant c.Valid() && old(c.written) <= c.written
      invariant JobUidsStay(old(c.jobs), old(c.nextUid), c.jobs) && old(c.nextUid) <= c.nextUid
      invariant c.quiet ==> c.jobs == old(c.jobs) && OnlyTokenSecretAdded(old(c.secrets), old(c.written), c.secrets, c.written, job, token)
      invariant |c.log| == |old(c.log)| + 2 * (BACKOFF_STEPS - steps) && old(c.log) <= c.log && GuardedDeletes(expected, c.log, from)
      invariant c.refused >= old(c.refused) && c.faults - c.refused >= old(c.faults - c.refused)
      invariant SecretUidsStay(old(c.secrets), old(c.nextUid), c.secrets)
      invariant LiveOnlyAt(c.secrets, c.nextUid, NewlyWritten(old(c.written), c.written), SecretName(job))
      invariant VainAsks(c.log, |old(c.log)|, job, token)
      decreases steps
    {
      var expired := ctx.Expired();
      if expired {
        return false, ContextExpired, last;
      }
      ghost var before, secrets, written := c.log, c.secrets, c.written;
      var final;
      done, final, last := AttemptTokenSecret(c, job, token, last, expected, from);
      if c.quiet {
        OnlyTokenSecretAddedTwice(old(c.secrets), old(c.written), secrets, written, c.secrets, c.written, job, token);
      }
      MoreAsks(before, c.log, |old(c.log)|, job, token);
      if done {
        return true, AttemptsExhausted, last;
      }
      if final.Some? {
        return false, final.value, last;
      }
      if steps == 1 {
        return false, AttemptsExhausted, last;
      }
      expired := ctx.Expired();
      if expired {
        return false, ContextExpired, last;
      }
      steps := steps - 1;
    }
  }

  /** Why asking ended in vain: the context ended, the attempts were used up, or the last answer was final. */
  ghost predicate AskedEnough(log: seq<Call>, from: nat, done: bool, err: Failure, last: Option<Failure>) {
    match err
    case ContextExpired => done
    case AttemptsExhausted => |log| == from + 2 * BACKOFF_STEPS && last.Some?
    case _ => Final(err) && LastAskRefused(log, from, err)
  }

  /** Creates the token Secret, or adopts the one a lost answer left behind. */
  method ReconcileTokenSecret(c: Cluster, ctx: Context, job: KJob, token: string, ghost expected: KJob, ghost from: nat)
    returns (err: Option<Failure>)
    requires c.Valid() && job.uid < c.nextUid && GuardedDeletes(expected, c.log, from)
    modifies c, ctx
    ensures c.Valid() && old(c.written) <= c.written
    ensures JobUidsStay(old(c.jobs), old(c.nextUid), c.jobs) && old(c.nextUid) <= c.nextUid
    ensures c.quiet ==> c.jobs == old(c.jobs) && OnlyTokenSecretAdded(old(c.secrets), old(c.written), c.secrets, c.written, job, token)
    ensures |c.log| <= |old(c.log)| + 2 * BACKOFF_STEPS && old(c.log) <= c.log && GuardedDeletes(expected, c.log, from)
    ensures err.None? ==> SecretName(job) in c.secrets && HoldsToken(c.secrets[SecretName(job)], job, token)
    ensures c.refused >= old(c.refused) && (err.Some? ==> ctx.done || c.refused > old(c.refused))
    ensures c.faults - c.refused >= old(c.faults - c.refused)
    ensures SecretUidsStay(old(c.secrets), old(c.nextUid), c.secrets)
    ensures LiveOnlyAt(c.secrets, c.nextUid, NewlyWritten(old(c.written), c.written), SecretName(job))
    // it only asks for the Secret, and succeeds exactly with the first answer that shows it; it gives up
    // when the context ends, after an answer that is final, or after all attempts
    ensures if err.None? then ShownLast(c.log, |old(c.log)|, job, token) else VainAsks(c.log, |old(c.log)|, job, token)
    ensures err.Some? ==>
              ctx.done || LastAskRefused(c.log, |old(c.log)|, err.value) || |c.log| == |old(c.log)| + 10
  {
    var done, why, last := WaitForSecret(c, ctx, job, token, expected, from);
    if done {
      return None;
    }
    var expired := ctx.Expired();
    return Some(Reported(expired, why, last));
  }

  // ---- Cleanup -----------------------------------------------------------

  /** What a guarded delete is aimed at. */
  datatype Target = TheJob(job: KJob) | TheSecret(secret: KSecret, owner: KJob)

  ghost predicate SecretTracked(secrets: map<string, KSecret>, next: nat, secret: KSecret) {
    secret.uid < next && forall m :: m in secrets && secrets[m].uid == secret.uid ==> m == secret.name
  }

  /** The log entitles the caller to delete the target. */
  ghost predicate MayDelete(expected: KJob, log: seq<Call>, from: nat, target: Target) {
    match target
    case TheJob(job) => Vouched(expected, log, from, job)
    case TheSecret(secret, owner) => Vouched(expected, log, from, owner) && OwnedSecretSeen(log, from, owner, secret)
  }

  ghost predicate TargetTracked(c: Cluster, target: Target)
    reads c
  {
    match target
    case TheJob(job) => Tracked(c.jobs, c.nextUid, job)
    case TheSecret(secret, _) => SecretTracked(c.secrets, c.nextUid, secret)
  }

  ghost predicate Gone(c: Cluster, target: Target)
    reads c
  {
    match target
    case TheJob(job) => JobGone(c.jobs, job.uid)
    case TheSecret(secret, _) => SecretGone(c.secrets, secret.uid)
  }

  /** Nothing but the target is removed, and that only under its own UID. */
  ghost predicate OnlyRemoves(target: Target, jobs: map<string, KJob>, secrets: map<string, KSecret>,
                              jobs': map<string, KJob>, secrets': map<string, KSecret>) {
    match target
    case TheJob(job) =>
      secrets' == secrets && (jobs' == jobs || (job.name in jobs && jobs[job.name].uid == job.uid && jobs' == jobs - {job.name}))
    case TheSecret(secret, _) =>
      jobs' == jobs && (secrets' == secrets || (secret.name in secrets && secrets[secret.name].uid == secret.uid && secrets' == secrets - {secret.name}))
  }

  lemma MayDeletePrefix(expected: KJob, log: seq<Call>, longer: seq<Call>, from: nat, target: Target)
    requires MayDelete(expected, log, from, target) && log <= longer
    ensures MayDelete(expected, longer, from, target)
  {
  }

  /** The call asks to delete the target, under its UID. */
  predicate IsDeleteOf(call: Call, target: Target) {
    match target
    case TheJob(job) => call.JobDelete? && call.name == job.name && call.uid == job.uid
    case TheSecret(secret, _) => call.SecretDelete? && call.name == secret.name && call.uid == secret.uid
  }

  /** The calls since `from` all ask to delete the target. */
  ghost predicate OnlyDeletesOf(log: seq<Call>, from: nat, target: Target) {
    forall i :: from <= i < |log| ==> IsDeleteOf(log[i], target)
  }

  lemma OneMoreDelete(log: seq<Call>, from: nat, target: Target, call: Call)
    requires from <= |log| && OnlyDeletesOf(log, from, target) && IsDeleteOf(call, target)
    ensures OnlyDeletesOf(log + [call], from, target) && log[..from] == (log + [call])[..from]
  {
  }

  method DeleteOnce(c: Cluster, target: Target, ghost expected: KJob, ghost from: nat) returns (r: Response<()>, ghost call: Call)
    requires c.Valid() && GuardedDeletes(expected, c.log, from)
    requires MayDelete(expected, c.log, from, target) && TargetTracked(c, target)
    modifies c
    ensures c.Valid() && c.written == old(c.written) && old(c.nextUid) <= c.nextUid
    ensures JobUidsStay(old(c.jobs), old(c.nextUid), c.jobs) && SecretUidsStay(old(c.secrets), old(c.nextUid), c.secrets)
    ensures c.quiet ==> OnlyRemoves(target, old(c.jobs), old(c.secrets), c.jobs, c.secrets)
    ensures c.log == old(c.log) + [call] && IsDeleteOf(call, target) && GuardedDeletes(expected, c.log, from)
    ensures r.Ok? || r.error.NotFound? ==> Gone(c, target)
    ensures c.refused == old(c.refused) && c.faults == old(c.faults) + (if r.Err? && !r.error.NotFound? then 1 else 0)
  {
    match target
    case TheJob(job) =>
      ghost var gone;
      r, gone := c.DeleteJob(job.name, job.uid);
      call := JobDelete(job.name, job.uid, gone);
      GuardedAppend(expected, old(c.log), from, call);
    case TheSecret(secret, _) =>
      ghost var gone;
      r, gone := c.DeleteSecret(secret.name, secret.uid);
      call := SecretDelete(secret.name, secret.uid, gone);
      GuardedAppend(expected, old(c.log), from, call);
  }

  /** Deletes until the object is gone, nothing more can be expected, or patience ends. */
  method WaitForDelete(c: Cluster, ctx: Context, target: Target, ghost expected: KJob, ghost from: nat)
    returns (done: bool, err: Failure, last: Option<Failure>)
    requires c.Valid() && GuardedDeletes(expected, c.log, from)
    requires MayDelete(expected, c.log, from, target) && TargetTracked(c, target)
    modifies c, ctx
    ensures c.Valid() && c.written == old(c.written) && c.refused == old(c.refused) && old(c.nextUid) <= c.nextUid
    ensures JobUidsStay(old(c.jobs), old(c.nextUid), c.jobs) && SecretUidsStay(old(c.secrets), old(c.nextUid), c.secrets)
    ensures c.quiet ==> OnlyRemoves(target, old(c.jobs), old(c.secrets), c.jobs, c.secrets)
    ensures |c.log| <= |old(c.log)| + BACKOFF_STEPS && old(c.log) <= c.log && GuardedDeletes(expected, c.log, from)
    ensures OnlyDeletesOf(c.log, |old(c.log)|, target)
    ensures c.faults >= old(c.faults) && (!done ==> ctx.done || c.faults > old(c.faults))
    ensures old(ctx.done) ==> ctx.done
    ensures if done then Gone(c, target) && |c.log| > |old(c.log)| else DeletedEnough(|c.log| - |old(c.log)|, ctx.done, err, last)
  {
    last := None;
    var steps := BACKOFF_STEPS;
    while true
      invariant 1 <= steps <= BACKOFF_STEPS
      invariant c.Valid() && c.written == old(c.written) && c.refused == old(c.refused) && old(c.nextUid) <= c.nextUid
      invariant JobUidsStay(old(c.jobs), old(c.nextUid), c.jobs) && SecretUidsStay(old(c.secrets), old(c.nextUid), c.secrets)
      invariant c.quiet ==> OnlyRemoves(target, old(c.jobs), old(c.secrets), c.jobs, c.secrets)
      invariant |c.log| == |old(c.log)| + BACKOFF_STEPS - steps && old(c.log) <= c.log && GuardedDeletes(expected, c.log, from)
      invariant OnlyDeletesOf(c.log, |old(c.log)|, target)
      invariant TargetTracked(c, target)
      invariant c.faults >= old(c.faults) && (old(ctx.done) ==> ctx.done)
      decreases steps
    {
      var expired := ctx.Expired();
      if expired {
        return false, ContextExpired, last;
      }
      MayDeletePrefix(expected, old(c.log), c.log, from, target);
      ghost var before := c.log;
      var deleted, call := DeleteOnce(c, target, expected, from);
      OneMoreDelete(before, |old(c.log)|, target, call);
      if deleted.Ok? || deleted.error.NotFound? {
        return true, AttemptsExhausted, last;
      }
      if IsPermanent(deleted.error) || deleted.error.Conflict? {
        return false, Api(deleted.error), last;
      }
      last := Some(Api(deleted.error));
      if steps == 1 {
        return false, AttemptsExhausted, last;
      }
      expired := ctx.Expired();
      if expired {
        return false, ContextExpired, last;
      }
      steps := steps - 1;
    }
  }

  /** Why deleting ended in vain: the context ended, the attempts were used up, or the last answer was final. */
  predicate DeletedEnough(calls: int, done: bool, err: Failure, last: Option<Failure>) {
    match err
    case ContextExpired => done
    case AttemptsExhausted => calls == BACKOFF_STEPS && last.Some?
    case _ => Final(err) && calls > 0
  }

  /** Retries a delete; an absent object counts as deleted. */
  method RetryKubernetesDelete(c: Cluster, ctx: Context, target: Target, ghost expected: KJob, ghost from: nat) returns (err: Option<Failure>)
    requires c.Valid() && GuardedDeletes(expected, c.log, from)
    requires MayDelete(expected, c.log, from, target) && TargetTracked(c, target)
    modifies c, ctx
    ensures c.Valid() && c.written == old(c.written) && old(c.nextUid) <= c.nextUid
    ensures JobUidsStay(old(c.jobs), old(c.nextUid), c.jobs) && SecretUidsStay(old(c.secrets), old(c.nextUid), c.secrets)
    ensures c.quiet ==> OnlyRemoves(target, old(c.jobs), old(c.secrets), c.jobs, c.secrets)
    ensures |c.log| <= |old(c.log)| + BACKOFF_STEPS && DeletesAppended(old(c.log), c.log) && GuardedDeletes(expected, c.log, from)
    ensures err.None? ==> Gone(c, target)
    ensures c.refused == old(c.refused)
    ensures err.Some? ==> ctx.done || Final(err.value) || |c.log| == |old(c.log)| + 5
    // it only deletes the target, at least once in a live context, and an error means that the server
    // answered with one, other than that the object is absent, or that the context ended
    ensures OnlyDeletesOf(c.log, |old(c.log)|, target) && (c.log == old(c.log) ==> ctx.done)
    ensures c.faults >= old(c.faults) && (err.Some? ==> ctx.done || c.faults > old(c.faults)) && (old(ctx.done) ==> ctx.done)
  {
    var done, why, last := WaitForDelete(c, ctx, target, expected, from);
    var expired := ctx.Expired();
    return if done && !expired then None else Some(Reported(expired, why, last));
  }

  /** The Secret at job's annotated name is one that job's cleanup must remove. */
  ghost predicate LeftoverSecret(secrets: map<string, KSecret>, job: KJob) {
    var name := SecretName(job);
    name in secrets && SecretControlledByJob(secrets[name], job) && HasSameJobIdentity(job.labels, secrets[name].labels)
  }

  /** Only job, and a Secret it controls, may be missing afterwards. */
  ghost predicate OnlyCleansUp(job: KJob, jobs: map<string, KJob>, secrets: map<string, KSecret>,
                               jobs': map<string, KJob>, secrets': map<string, KSecret>) {
    && (jobs' == jobs || (job.name in jobs && jobs[job.name].uid == job.uid && jobs' == jobs - {job.name}))
    && (secrets' == secrets || (LeftoverSecret(secrets, job) && secrets' == secrets - {SecretName(job)}))
  }

  /** Of these Secrets only the one that was read is left. */
  ghost predicate OnlyReadLeft(secrets: map<string, KSecret>, got: Response<KSecret>, uids: set<nat>) {
    forall u :: u in uids ==> SecretGone(secrets, u) || (got.Ok? && got.value.uid == u)
  }

  /** Reads the Secret at job's annotated name. */
  method ReadSecret(c: Cluster, job: KJob, ghost expected: KJob, ghost from: nat, ghost mine: set<nat>) returns (got: Response<KSecret>)
    requires c.Valid() && GuardedDeletes(expected, c.log, from) && Vouched(expected, c.log, from, job)
    requires LiveOnlyAt(c.secrets, c.nextUid, mine, SecretName(job))
    modifies c
    ensures c.Valid() && c.written == old(c.written) && old(c.nextUid) <= c.nextUid && c.refused == old(c.refused)
    ensures JobUidsStay(old(c.jobs), old(c.nextUid), c.jobs) && SecretUidsStay(old(c.secrets), old(c.nextUid), c.secrets)
    ensures c.quiet ==> c.jobs == old(c.jobs) && c.secrets == old(c.secrets)
    ensures c.log == old(c.log) + [SecretGet(got)] && GuardedDeletes(expected, c.log, from)
    ensures c.faults == old(c.faults) + (if got.Err? && !got.error.NotFound? then 1 else 0)
    ensures Vouched(expected, c.log, from, job)
    ensures got.Ok? ==> SecretName(job) in c.secrets && c.secrets[SecretName(job)] == got.value && SecretTracked(c.secrets, c.nextUid, got.value)
    ensures got == Err(NotFound) ==> SecretName(job) !in c.secrets
    ensures got.Ok? || got == Err(NotFound) ==> OnlyReadLeft(c.secrets, got, mine)
    ensures got.Ok? && !ForeignRead(SecretGet(got), job) ==> OwnedSecretSeen(c.log, from, job, got.value)
  {
    got := c.GetSecret(SecretName(job));
    GuardedAppend(expected, old(c.log), from, SecretGet(got));
    VouchedAppend(expected, old(c.log), from, job, SecretGet(got));
    assert c.log[|old(c.log)|] == SecretGet(got);
  }

  lemma OnlyReadLeftStays(secrets: map<string, KSecret>, next: nat, secrets': map<string, KSecret>, got: Response<KSecret>, uids: set<nat>)
    requires OnlyReadLeft(secrets, got, uids) && SecretUidsStay(secrets, next, secrets') && forall u :: u in uids ==> u < next
    ensures OnlyReadLeft(secrets', got, uids)
  {
  }

  /** Removes the Secret at job's annotated name if job controls it. A Secret that is not job's is
      left alone. */
  method CleanupSecret(c: Cluster, ctx: Context, job: KJob, ghost expected: KJob, ghost from: nat, ghost mine: set<nat>)
    returns (errs: seq<Failure>, ghost got: Response<KSecret>)
    requires c.Valid() && GuardedDeletes(expected, c.log, from) && Vouched(expected, c.log, from, job)
    requires LiveOnlyAt(c.secrets, c.nextUid, mine, SecretName(job))
    modifies c, ctx
    ensures c.Valid() && c.written == old(c.written) && old(c.nextUid) <= c.nextUid && c.refused == old(c.refused)
    ensures JobUidsStay(old(c.jobs), old(c.nextUid), c.jobs) && SecretUidsStay(old(c.secrets), old(c.nextUid), c.secrets)
    ensures c.quiet ==> OnlyCleansUp(job, old(c.jobs), old(c.secrets), c.jobs, c.secrets) && c.jobs == old(c.jobs)
    ensures |c.log| <= |old(c.log)| + 1 + BACKOFF_STEPS && GuardedDeletes(expected, c.log, from)
    ensures errs == [] && c.quiet ==> !LeftoverSecret(c.secrets, job)
    ensures errs == [] ==> GoneOrForeign(c.secrets, c.log, |old(c.log)|, job, mine)
    // one read; a Secret that is not job's, or none, is left at that, and job's own is asked to be deleted
    ensures ReadThenDeletes(old(c.log), c.log, got)
    ensures ForeignRead(SecretGet(got), job) || got.Err? ==> |c.log| == |old(c.log)| + 1
    ensures got.Ok? && !ForeignRead(SecretGet(got), job) ==> ctx.done || |c.log| > |old(c.log)| + 1
    // an error means that the server answered with one, or the context ended
    ensures got.Err? ==> errs == if got.error.NotFound? then [] else [Api(got.error)]
    ensures ForeignRead(SecretGet(got), job) ==> errs == []
    ensures c.faults >= old(c.faults) && (errs != [] ==> ctx.done || c.faults > old(c.faults))
  {
    var answer := ReadSecret(c, job, expected, from, mine);
    got := answer;
    ghost var read := c.log;
    if answer.Ok? && SecretControlledByJob(answer.value, job) && HasSameJobIdentity(job.labels, answer.value.labels) {
      ghost var secrets, next := c.secrets, c.nextUid;
      var err := RetryKubernetesDelete(c, ctx, TheSecret(answer.value, job), expected, from);
      OnlyReadLeftStays(secrets, next, c.secrets, got, mine);
      DeletesAreNoRead(old(c.log), c.log, got, TheSecret(got.value, job));
      return if err.Some? then [err.value] else [], got;
    }
    if answer.Ok? {
      ReadForeignNow(c.secrets, old(c.log), got, job, mine);
    }
    return if answer.Err? && !answer.error.NotFound? then [Api(answer.error)] else [], got;
  }

  /** The calls since: one read of the Secret, answered so, and then deletes. */
  ghost predicate ReadThenDeletes(log: seq<Call>, longer: seq<Call>, got: Response<KSecret>) {
    && log <= longer && |longer| > |log| && longer[|log|] == SecretGet(got)
    && OnlyDeletesSince(longer, |log| + 1)
  }

  lemma DeletesAreNoRead(log: seq<Call>, longer: seq<Call>, got: Response<KSecret>, target: Target)
    requires log + [SecretGet(got)] <= longer && OnlyDeletesOf(longer, |log| + 1, target)
    ensures ReadThenDeletes(log, longer, got)
  {
    assert (log + [SecretGet(got)])[..|log|] == log;
    assert longer[|log|] == (log + [SecretGet(got)])[|log|];
  }

  lemma ReadForeignNow(secrets: map<string, KSecret>, log: seq<Call>, got: Response<KSecret>, job: KJob, uids: set<nat>)
    requires OnlyReadLeft(secrets, got, uids) && got.Ok? && ForeignRead(SecretGet(got), job)
    ensures GoneOrForeign(secrets, log + [SecretGet(got)], |log|, job, uids)
  {
    assert (log + [SecretGet(got)])[|log|] == SecretGet(got);
    assert LastReadForeign(log + [SecretGet(got)], |log|, job, got.value.uid);
  }

  /** The last call asks to delete job, unless the context ended first. */
  ghost predicate DeletedLast(log: seq<Call>, from: nat, job: KJob, done: bool) {
    done || (|log| > from && IsDeleteOf(log[|log| - 1], TheJob(job)))
  }

  /** Removes the Secret if job controls it, then the Job. */
  method CleanupIncompleteJob(c: Cluster, ctx: Context, job: KJob, ghost expected: KJob, ghost from: nat, ghost mine: set<nat>) returns (errs: seq<Failure>)
    requires c.Valid() && GuardedDeletes(expected, c.log, from)
    requires Vouched(expected, c.log, from, job) && Tracked(c.jobs, c.nextUid, job)
    requires LiveOnlyAt(c.secrets, c.nextUid, mine, SecretName(job))
    modifies c, ctx
    ensures c.Valid() && c.written == old(c.written) && old(c.nextUid) <= c.nextUid
    ensures c.quiet ==> OnlyCleansUp(job, old(c.jobs), old(c.secrets), c.jobs, c.secrets)
    ensures |c.log| <= |old(c.log)| + 1 + 2 * BACKOFF_STEPS && GuardedDeletes(expected, c.log, from)
    ensures errs == [] ==> JobGone(c.jobs, job.uid)
    ensures errs == [] && c.quiet ==> !LeftoverSecret(c.secrets, job)
    ensures c.refused == old(c.refused)
    ensures old(c.log) <= c.log
    ensures errs == [] ==> GoneOrForeign(c.secrets, c.log, |old(c.log)|, job, mine)
    // whatever became of the Secret, the Job is asked to be deleted
    ensures NoJobAnswers(c.log, |old(c.log)|) && DeletedLast(c.log, |old(c.log)|, job, ctx.done)
    // an error means that the server answered with one, or the context ended
    ensures c.faults >= old(c.faults) && (errs != [] ==> ctx.done || c.faults > old(c.faults))
  {
    ghost var got;
    errs, got := CleanupSecret(c, ctx, job, expected, from, mine);
    ghost var secrets, next, read := c.secrets, c.nextUid, c.log;
    VouchedPrefix(expected, old(c.log), c.log, from, job);
    var err := RetryKubernetesDelete(c, ctx, TheJob(job), expected, from);
    CleanupCalls(old(c.log), read, c.log, got, job);
    if err.Some? {
      errs := errs + [err.value];
    }
    if errs == [] {
      GoneOrForeignStays(secrets, next, c.secrets, read, c.log, |old(c.log)|, job, mine);
    }
  }

  lemma CleanupCalls(log: seq<Call>, read: seq<Call>, longer: seq<Call>, got: Response<KSecret>, job: KJob)
    requires ReadThenDeletes(log, read, got) && read <= longer && OnlyDeletesOf(longer, |read|, TheJob(job))
    ensures log <= longer && NoJobAnswers(longer, |log|)
    ensures |longer| > |read| ==> IsDeleteOf(longer[|longer| - 1], TheJob(job))
  {
    assert forall i :: 0 <= i < |read| ==> longer[i] == read[i];
  }

  // ---- createJob ---------------------------------------------------------

  const MAX_CALLS := 1 + 2 * BACKOFF_STEPS + (1 + 2 * BACKOFF_STEPS) + BACKOFF_STEPS

  /** The live Job carries the intended workload and controller identity. */
  predicate IntendedIdentity(expected: KJob, live: KJob) {
    && Lookup(live.labels, UUID_LABEL) == Lookup(expected.labels, UUID_LABEL)
    && (CONTROLLER_ID_LABEL in expected.labels <==> CONTROLLER_ID_LABEL in live.labels)
    && Lookup(live.labels, CONTROLLER_ID_LABEL) == Lookup(expected.labels, CONTROLLER_ID_LABEL)
  }

  ghost predicate OwnedByIntended(expected: KJob, jobs: map<string, KJob>, n: string, secret: KSecret) {
    expected.name in jobs && IdentityVerified(expected, jobs[expected.name])
    && n == SecretName(jobs[expected.name]) && SecretControlledByJob(secret, jobs[expected.name])
  }

  /** Of the objects there before, only a Job of the intended name and verified identity, and
      the annotated Secret it controls, can be gone; no other object is changed. */
  ghost predicate OthersKept(expected: KJob, jobs: map<string, KJob>, secrets: map<string, KSecret>,
                             jobs': map<string, KJob>, secrets': map<string, KSecret>) {
    && (forall n :: n in jobs ==> (n in jobs' && jobs'[n] == jobs[n]) || (n == expected.name && IdentityVerified(expected, jobs[n])))
    && (forall n :: n in secrets ==> (n in secrets' && secrets'[n] == secrets[n]) || OwnedByIntended(expected, jobs, n, secrets[n]))
  }

  /** A cleanup of job reported no error. */
  ghost predicate CleanedUp(cleaned: Option<(KJob, seq<Failure>)>) {
    cleaned.Some? && cleaned.value.1 == []
  }

  ghost predicate SecretInPlace(secrets: map<string, KSecret>, log: seq<Call>, from: nat, expected: KJob, job: KJob, token: string) {
    && Vouched(expected, log, from, job) && IntendedIdentity(expected, job)
    && SecretName(job) in secrets && HoldsToken(secrets[SecretName(job)], job, token)
  }

  ghost function Set(made: seq<Context>): set<object> {
    set i | 0 <= i < |made| :: made[i] as object
  }

  /** None of these contexts has ended. */
  ghost predicate AllLive(made: seq<Context>)
    reads made
  {
    forall i :: 0 <= i < |made| ==> !made[i].done
  }

  ghost function JobOf(cleaned: Option<(KJob, seq<Failure>)>): Option<KJob> {
    if cleaned.Some? then Some(cleaned.value.0) else None
  }

  /** The Secret for a Job at hand, or the removal of both. */
  method SecretOrCleanup(c: Cluster, ctx: Context, job: KJob, token: string, ghost expected: KJob, ghost from: nat)
    returns (errs: seq<Failure>, ghost cleaned: Option<(KJob, seq<Failure>)>, ghost between: map<string, KSecret>, ghost made: seq<Context>)
    requires c.Valid() && GuardedDeletes(expected, c.log, from)
    requires Vouched(expected, c.log, from, job) && Tracked(c.jobs, c.nextUid, job)
    modifies c, ctx
    ensures c.Valid() && old(c.written) <= c.written
    ensures |c.log| <= |old(c.log)| + 1 + 4 * BACKOFF_STEPS && GuardedDeletes(expected, c.log, from)
    ensures errs == [] ==> Vouched(expected, c.log, from, job)
    ensures errs == [] <==> cleaned.None?
    ensures errs == [] ==> SecretName(job) in c.secrets && HoldsToken(c.secrets[SecretName(job)], job, token)
    ensures errs == [] && c.quiet ==> c.jobs == old(c.jobs) && OnlyTokenSecretAdded(old(c.secrets), old(c.written), c.secrets, c.written, job, token)
    ensures cleaned.Some? ==> cleaned.value.0 == job && (CleanedUp(cleaned) ==> JobGone(c.jobs, job.uid))
    ensures c.quiet && cleaned.Some? ==> GoodSecrets(between, c.nextUid)
    ensures c.quiet && cleaned.Some? ==> OnlyTokenSecretAdded(old(c.secrets), old(c.written), between, c.written, job, token)
    ensures c.quiet && cleaned.Some? ==> OnlyCleansUp(job, old(c.jobs), between, c.jobs, c.secrets)
    ensures c.quiet && CleanedUp(cleaned) ==> !LeftoverSecret(c.secrets, job)
    ensures c.refused >= old(c.refused) && (errs != [] ==> ctx.done || c.refused > old(c.refused))
    ensures CleanedUp(cleaned) ==> GoneOrForeign(c.secrets, c.log, from, job, NewlyWritten(old(c.written), c.written))
    // none of its calls asks for the Job; a cleanup has a context of its own, and ends with the Job's delete
    ensures old(c.log) <= c.log && NoJobAnswers(c.log, |old(c.log)|)
    ensures fresh(Set(made)) && (cleaned.Some? ==> DeletedLast(c.log, |old(c.log)|, job, !AllLive(made)))
    ensures errs != [] ==> ctx.done || !AllLive(made) || c.faults > old(c.faults)
  {
    cleaned, made := None, [];
    var err := ReconcileTokenSecret(c, ctx, job, token, expected, from);
    between := c.secrets;
    ghost var asked := c.log;
    VouchedPrefix(expected, old(c.log), c.log, from, job);
    if err.None? {
      AsksThenCleanup(old(c.log), asked, asked, job, token);
      return [], None, between, [];
    }
    var cleanupCtx := new Context();
    made := [cleanupCtx];
    assert made[0] == cleanupCtx;
    var left := CleanupIncompleteJob(c, cleanupCtx, job, expected, from, NewlyWritten(old(c.written), c.written));
    cleaned := Some((job, left));
    errs := [err.value] + left;
    AsksThenCleanup(old(c.log), asked, c.log, job, token);
  }

  lemma AsksThenCleanup(log: seq<Call>, asked: seq<Call>, longer: seq<Call>, job: KJob, token: string)
    requires log <= asked <= longer && NoJobAnswers(longer, |asked|)
    requires VainAsks(asked, |log|, job, token) || ShownLast(asked, |log|, job, token)
    ensures log <= longer && NoJobAnswers(longer, |log|)
    ensures forall done :: DeletedLast(longer, |asked|, job, done) ==> DeletedLast(longer, |log|, job, done)
  {
    forall i | |log| <= i < |longer| ensures !longer[i].JobCreate? && !longer[i].JobGet? {
      if i < |asked| { assert longer[i] == asked[i]; }
    }
  }

  /** A second look for a Job that the first could not find, only to remove it. */
  method RecoverAndCleanUp(c: Cluster, expected: KJob, ghost from: nat)
    returns (errs: seq<Failure>, ghost cleaned: Option<(KJob, seq<Failure>)>, ghost made: seq<Context>)
    requires c.Valid() && GuardedDeletes(expected, c.log, from) && OnlyVouched(expected, c.log, from, None)
    modifies c
    ensures c.Valid() && old(c.written) == c.written
    ensures |c.log| <= |old(c.log)| + 1 + 3 * BACKOFF_STEPS && GuardedDeletes(expected, c.log, from)
    ensures cleaned.None? ==> |c.log| <= |old(c.log)| + BACKOFF_STEPS && (c.quiet ==> c.jobs == old(c.jobs) && c.secrets == old(c.secrets))
    ensures cleaned.Some? ==> CleanedUp(cleaned) ==> JobGone(c.jobs, cleaned.value.0.uid)
    ensures cleaned.Some? && c.quiet ==>
              && expected.name in old(c.jobs) && cleaned.value.0 == old(c.jobs)[expected.name] && IdentityVerified(expected, cleaned.value.0)
              && OnlyCleansUp(cleaned.value.0, old(c.jobs), old(c.secrets), c.jobs, c.secrets)
    ensures c.quiet && CleanedUp(cleaned) ==> !LeftoverSecret(c.secrets, cleaned.value.0)
    ensures c.refused == old(c.refused) && c.faults >= old(c.faults)
    // whatever the second look vouches for is what the cleanup removes, and its delete comes last
    ensures old(c.log) <= c.log && OnlyVouched(expected, c.log, from, JobOf(cleaned))
    ensures fresh(Set(made)) && (cleaned.Some? ==> DeletedLast(c.log, |old(c.log)|, cleaned.value.0, !AllLive(made)))
    ensures cleaned.None? ==> !AllLive(made) || LastLookFinal(expected, c.log, |old(c.log)|) || |c.log| == |old(c.log)| + BACKOFF_STEPS
    ensures LookedFor(c.log, |old(c.log)|) || !AllLive(made)
  {
    cleaned := None;
    var recoveryCtx := new Context();
    made := [recoveryCtx];
    assert made[0] == recoveryCtx;
    var verified := ReconcileCreatedJob(c, recoveryCtx, expected, from);
    ghost var looked := c.log;
    if verified.Failed? {
      OnlyVouchedVain(expected, old(c.log), c.log, from, None);
      return [verified.error], None, made;
    }
    OnlyVouchedFound(expected, old(c.log), c.log, from, verified.value);
    var cleanupCtx := new Context();
    made := [recoveryCtx, cleanupCtx];
    assert made[1] == cleanupCtx;
    var left := CleanupIncompleteJob(c, cleanupCtx, verified.value, expected, from, {});
    OnlyVouchedVain(expected, looked, c.log, from, Some(verified.value));
    return left, Some((verified.value, left)), made;
  }

  /** The call after the first `from` looks for the Job. */
  ghost predicate LookedFor(log: seq<Call>, from: nat) {
    |log| > from && log[from].JobGet?
  }

  /** job is at hand under the intended name: either it was there before and its identity was
      verified, or it is new. */
  ghost predicate AtHand(expected: KJob, jobs: map<string, KJob>, next: nat, jobs': map<string, KJob>, job: KJob) {
    && job.name == expected.name && expected.name in jobs' && jobs'[expected.name] == job
    && ((jobs' == jobs && IdentityVerified(expected, job))
        || (expected.name !in jobs && job.uid >= next && jobs' == jobs[expected.name := job]))
  }

  lemma ControllerIsOwner(owners: seq<OwnerRef>)
    ensures ControllerOf(owners).Some? ==> ControllerOf(owners).value in owners
  {
  }

  /** Cleaning up a Job at hand touches nobody else's objects. */
  lemma CleanupKeepsOthers(expected: KJob, token: string, job: KJob, next: nat, wrote: set<nat>, written: set<nat>,
                           jobs0: map<string, KJob>, jobs1: map<string, KJob>, jobs2: map<string, KJob>,
                           secrets0: map<string, KSecret>, secrets1: map<string, KSecret>, secrets2: map<string, KSecret>)
    requires AtHand(expected, jobs0, next, jobs1, job) && GoodSecrets(secrets0, next)
    requires OnlyTokenSecretAdded(secrets0, wrote, secrets1, written, job, token)
    requires OnlyCleansUp(job, jobs1, secrets1, jobs2, secrets2)
    ensures OthersKept(expected, jobs0, secrets0, jobs2, secrets2)
  {
    forall n | n in secrets0
      ensures (n in secrets2 && secrets2[n] == secrets0[n]) || OwnedByIntended(expected, jobs0, n, secrets0[n])
    {
      if n == SecretName(job) && SecretControlledByJob(secrets0[n], job) {
        ControllerIsOwner(secrets0[n].owners);
      }
    }
  }

  /** Without a cleanup nothing is touched at all. */
  lemma AdditionsKeepOthers(expected: KJob, token: string, job: KJob, wrote: set<nat>, written: set<nat>,
                            jobs0: map<string, KJob>, jobs1: map<string, KJob>,
                            secrets0: map<string, KSecret>, secrets1: map<string, KSecret>)
    requires jobs1 == jobs0 || (expected.name !in jobs0 && expected.name in jobs1 && jobs1 == jobs0[expected.name := jobs1[expected.name]])
    requires OnlyTokenSecretAdded(secrets0, wrote, secrets1, written, job, token)
    ensures OthersKept(expected, jobs0, secrets0, jobs1, secrets1)
  {
  }

  /** A clean cleanup removes the Secret a create stored exactly if the Job has a UUID label: without
      one, no Secret is recognised as the Job's. */
  lemma CleanupRemovesWritten(job: KJob, token: string, wrote: set<nat>, written: set<nat>, next: nat,
                              jobs1: map<string, KJob>, jobs2: map<string, KJob>,
                              secrets0: map<string, KSecret>, secrets1: map<string, KSecret>, secrets2: map<string, KSecret>)
    requires OnlyTokenSecretAdded(secrets0, wrote, secrets1, written, job, token)
    requires OnlyCleansUp(job, jobs1, secrets1, jobs2, secrets2) && !LeftoverSecret(secrets2, job)
    requires GoodSecrets(secrets1, next)
    ensures forall u :: u in NewlyWritten(wrote, written) ==> (SecretGone(secrets2, u) <==> Lookup(job.labels, UUID_LABEL) != "")
  {
    forall u | u in NewlyWritten(wrote, written) ensures SecretGone(secrets2, u) <==> Lookup(job.labels, UUID_LABEL) != "" {
      assert secrets1[SecretName(job)].uid == u;
      if Lookup(job.labels, UUID_LABEL) != "" {
        assert LeftoverSecret(secrets1, job);
      } else {
        assert secrets2 == secrets1;
      }
    }
  }

  /** After an ambiguous answer: finds the Job, or removes it if it can only be found too late. */
  method FindOrRemove(c: Cluster, kjob: KJob, lost: ApiError, ghost from: nat)
    returns (job: Option<KJob>, errs: seq<Failure>, next: Context, ghost cleaned: Option<(KJob, seq<Failure>)>, ghost made: seq<Context>)
    requires c.Valid() && GuardedDeletes(kjob, c.log, from) && OnlyVouched(kjob, c.log, from, None)
    modifies c
    ensures c.Valid() && c.written == old(c.written) && c.refused == old(c.refused) && c.faults >= old(c.faults)
    ensures |c.log| <= |old(c.log)| + 1 + 4 * BACKOFF_STEPS && GuardedDeletes(kjob, c.log, from)
    ensures fresh(next) && fresh(Set(made)) && |made| > 0 && made[0] == next
    ensures job.Some? <==> errs == []
    ensures job.Some? ==> |c.log| <= |old(c.log)| + BACKOFF_STEPS && cleaned.None? && IdentityVerified(kjob, job.value)
    ensures job.Some? ==> Vouched(kjob, c.log, from, job.value) && Tracked(c.jobs, c.nextUid, job.value)
    ensures job.Some? ==> kjob.name in c.jobs && c.jobs[kjob.name] == job.value
    ensures job.Some? && c.quiet ==> c.jobs == old(c.jobs) && c.secrets == old(c.secrets)
    ensures cleaned.None? && c.quiet ==> c.jobs == old(c.jobs) && c.secrets == old(c.secrets)
    ensures cleaned.Some? && c.quiet ==>
              && kjob.name in old(c.jobs) && cleaned.value.0 == old(c.jobs)[kjob.name] && IdentityVerified(kjob, cleaned.value.0)
              && OnlyCleansUp(cleaned.value.0, old(c.jobs), old(c.secrets), c.jobs, c.secrets)
    ensures CleanedUp(cleaned) ==> JobGone(c.jobs, cleaned.value.0.uid)
    // it looks; the Job it finds is used or removed
    ensures old(c.log) <= c.log && (LookedFor(c.log, |old(c.log)|) || (job.None? && !AllLive(made)))
    ensures OnlyVouched(kjob, c.log, from, if job.Some? then job else JobOf(cleaned))
    ensures cleaned.Some? ==> DeletedLast(c.log, |old(c.log)|, cleaned.value.0, !AllLive(made))
    // it gives up without either only after answers that leave nothing to look for, or two full rounds
    ensures job.None? ==> errs[0] == Api(lost)
    ensures job.None? && cleaned.None? ==> LooksUsedUp(kjob, c.log, |old(c.log)|, AllLive(made))
    ensures job.None? ==> LookWasSpoilt(c, kjob, |old(c.log)|, old(c.faults), old(c.jobs), made)
  {
    cleaned := None;
    next := new Context();
    made := [next];
    var found := ReconcileCreatedJob(c, next, kjob, from);
    if found.Success? {
      OnlyVouchedFound(kjob, old(c.log), c.log, from, found.value);
      return Some(found.value), [], next, None, made;
    }
    OnlyVouchedVain(kjob, old(c.log), c.log, from, None);
    assert made[0] == next;
    errs := [Api(lost), found.error];
    ghost var looked := c.log;
    if found.error.JobIdentityConflict? || IsPermanentFailure(found.error) {
      return None, errs, next, None, made;
    }
    var more;
    ghost var again;
    more, cleaned, again := RecoverAndCleanUp(c, kjob, from);
    made := made + again;
    LivesBoth([next], again);
    LogsJoin(kjob, old(c.log), looked, c.log);
    return None, errs + more, next, cleaned, made;
  }

  lemma LivesBoth(a: seq<Context>, b: seq<Context>)
    ensures AllLive(a + b) <==> AllLive(a) && AllLive(b)
    ensures Set(a + b) == Set(a) + Set(b)
  {
    assert forall i :: 0 <= i < |b| ==> (a + b)[|a| + i] == b[i];
    assert forall i :: 0 <= i < |a| ==> (a + b)[i] == a[i];
  }

  lemma LogsJoin(expected: KJob, log: seq<Call>, mid: seq<Call>, longer: seq<Call>)
    requires log <= mid <= longer
    ensures log <= longer
    ensures ForeignSeen(expected, mid, |log|) ==> ForeignSeen(expected, longer, |log|)
    ensures ForeignSeen(expected, longer, |mid|) ==> ForeignSeen(expected, longer, |log|)
    ensures LastLookFinal(expected, longer, |mid|) ==> LastLookFinal(expected, longer, |log|)
    ensures LookedFor(mid, |log|) ==> LookedFor(longer, |log|)
    ensures |mid| == |log| && LookedFor(longer, |mid|) ==> LookedFor(longer, |log|)
  {
  }

  /** Looking ended without a Job: a context ended, the last answer settled it, or every look was used. */
  ghost predicate LooksUsedUp(expected: KJob, log: seq<Call>, from: nat, live: bool) {
    !live || LastLookFinal(expected, log, from) || |log| == from + 10
  }

  /** Something came between: a context ended, the server answered with an error, or another Job has the
      name; and in a quiet cluster it had it all along. */
  ghost predicate LookWasSpoilt(c: Cluster, expected: KJob, from: nat, faults: nat, jobs: map<string, KJob>, made: seq<Context>)
    reads c, made
  {
    || !AllLive(made)
    || c.faults > faults
    || (ForeignSeen(expected, c.log, from) && (c.quiet ==> LiveUnverified(expected, jobs)))
  }

  /** The answer to the create, and whether it leaves open that the Job was stored. */
  ghost predicate Unsettled(tokensEnabled: bool, log: seq<Call>, from: nat) {
    tokensEnabled && from < |log| && log[from].JobCreate? && log[from].job.Err? && IsAmbiguous(log[from].job.error)
  }

  /** The create was answered with an error that leaves nothing to find out. */
  ghost predicate Refused(tokensEnabled: bool, log: seq<Call>, from: nat) {
    from < |log| && log[from].JobCreate? && log[from].job.Err? && (!tokensEnabled || !IsAmbiguous(log[from].job.error))
  }

  /** Why a call that met an ambiguous answer fails: a context ended, a later call was answered with an
      error, or another Job has the name; without interference, it had it before, or what was asked for
      is not recognisable. */
  ghost predicate WasSpoilt(c: Cluster, kjob: KJob, from: nat, faults: nat, jobs: map<string, KJob>, made: seq<Context>)
    reads c, made
  {
    || !AllLive(made)
    || c.faults > faults + 1
    || (ForeignSeen(kjob, c.log, from) && (c.quiet ==> LiveUnverified(kjob, jobs) || !IdentityVerified(kjob, kjob.(uid := 1))))
  }

  /** Asks to create the Job. */
  method AskForJob(c: Cluster, kjob: KJob) returns (created: Response<KJob>)
    requires c.Valid()
    modifies c
    ensures c.Valid() && c.written == old(c.written)
    ensures c.log == old(c.log) + [JobCreate(created)] && GuardedDeletes(kjob, c.log, |old(c.log)|)
    ensures c.refused == old(c.refused) + (if created.Err? then 1 else 0)
    ensures c.faults == old(c.faults) + (if created.Err? then 1 else 0)
    ensures OnlyVouched(kjob, c.log, |old(c.log)|, if created.Ok? then Some(created.value) else None)
    ensures created.Ok? ==> Vouched(kjob, c.log, |old(c.log)|, created.value) && Tracked(c.jobs, c.nextUid, created.value)
    ensures created.Ok? ==> IntendedIdentity(kjob, created.value)
    ensures created.Ok? && c.quiet ==> AtHand(kjob, old(c.jobs), old(c.nextUid), c.jobs, created.value)
    ensures c.quiet ==> c.secrets == old(c.secrets) && StoredOrNot(kjob, old(c.jobs), old(c.nextUid), c.jobs)
  {
    created := c.CreateJob(kjob);
    GuardedAppend(kjob, old(c.log), |old(c.log)|, JobCreate(created));
    OnlyCreateVouches(kjob, old(c.log), created);
    if created.Ok? {
      VouchedAppend(kjob, old(c.log), |old(c.log)|, created.value, JobCreate(created));
    }
  }

  /** The Jobs are as before, or with the asked-for one under its free name. */
  ghost predicate StoredOrNot(kjob: KJob, jobs: map<string, KJob>, next: nat, jobs': map<string, KJob>) {
    || jobs' == jobs
    || (kjob.name !in jobs && kjob.name in jobs' && jobs'[kjob.name].uid >= next && jobs'[kjob.name].uid > 0
        && jobs'[kjob.name] == kjob.(uid := jobs'[kjob.name].uid) && jobs' == jobs[kjob.name := jobs'[kjob.name]])
  }

  /** Creates the Job; when the answer is ambiguous, finds it, or removes it if it can only be
      found too late. */
  method ObtainJob(c: Cluster, ctx: Context, tokensEnabled: bool, kjob: KJob)
    returns (job: Option<KJob>, errs: seq<Failure>, next: Context, ghost cleaned: Option<(KJob, seq<Failure>)>, ghost made: seq<Context>)
    requires c.Valid()
    modifies c
    ensures next == ctx || (fresh(next) && c.refused > old(c.refused))
    ensures c.refused >= old(c.refused) && (job.None? ==> c.refused > old(c.refused))
    ensures c.Valid() && c.written == old(c.written)
    ensures |c.log| <= |old(c.log)| + 2 + 4 * BACKOFF_STEPS && GuardedDeletes(kjob, c.log, |old(c.log)|)
    ensures !tokensEnabled ==> |c.log| == |old(c.log)| + 1
    ensures job.Some? <==> errs == []
    ensures job.Some? ==> |c.log| <= |old(c.log)| + 1 + BACKOFF_STEPS && cleaned.None?
    ensures job.Some? ==> Vouched(kjob, c.log, |old(c.log)|, job.value) && Tracked(c.jobs, c.nextUid, job.value)
    ensures job.Some? ==> IntendedIdentity(kjob, job.value)
    ensures job.Some? && c.quiet ==> AtHand(kjob, old(c.jobs), old(c.nextUid), c.jobs, job.value) && c.secrets == old(c.secrets)
    ensures job.None? && c.quiet ==> OthersKept(kjob, old(c.jobs), old(c.secrets), c.jobs, c.secrets)
    ensures CleanedUp(cleaned) ==> JobGone(c.jobs, cleaned.value.0.uid)
    // an answered create gives its Job, a refused one its error, at once
    ensures old(c.log) < c.log && c.log[|old(c.log)|].JobCreate?
    ensures c.log[|old(c.log)|].job.Ok? ==> job == Some(c.log[|old(c.log)|].job.value) && made == []
    ensures Refused(tokensEnabled, c.log, |old(c.log)|) ==>
              errs == [Api(c.log[|old(c.log)|].job.error)] && cleaned.None? && |c.log| == |old(c.log)| + 1
    // after an ambiguous answer it looks; the Job it finds is used or removed, and that delete comes last
    ensures fresh(Set(made)) && next == (if made == [] then ctx else made[0])
    ensures Unsettled(tokensEnabled, c.log, |old(c.log)|) ==> made != []
    ensures Unsettled(tokensEnabled, c.log, |old(c.log)|) ==>
              LookedFor(c.log, |old(c.log)| + 1) || (job.None? && !AllLive(made))
    ensures OnlyVouched(kjob, c.log, |old(c.log)|, if job.Some? then job else JobOf(cleaned))
    ensures cleaned.Some? ==> DeletedLast(c.log, |old(c.log)|, cleaned.value.0, !AllLive(made))
    // it ends with neither only when there is nothing more to look for, or after two full rounds
    ensures Unsettled(tokensEnabled, c.log, |old(c.log)|) && job.None? ==>
              && (cleaned.None? ==> LooksUsedUp(kjob, c.log, |old(c.log)| + 1, AllLive(made)))
              && WasSpoilt(c, kjob, |old(c.log)|, old(c.faults), old(c.jobs), made)
    ensures c.faults >= old(c.faults) + (if c.log[|old(c.log)|].job.Err? then 1 else 0)
  {
    cleaned, next, made := None, ctx, [];
    ghost var from := |c.log|;
    var created := AskForJob(c, kjob);
    assert c.log[from] == JobCreate(created);
    if created.Ok? {
      return Some(created.value), [], ctx, None, [];
    }
    if !tokensEnabled || !IsAmbiguous(created.error) {
      return None, [Api(created.error)], ctx, None, [];
    }
    ghost var jobs1, asked := c.jobs, c.log;
    job, errs, next, cleaned, made := FindOrRemove(c, kjob, created.error, from);
    assert c.log[from] == asked[from];
    if job.None? {
      SpoiltFromStart(c, kjob, from, old(c.faults), old(c.jobs), jobs1, made);
    }
    if c.quiet && cleaned.None? {
      AdditionsKeepOthers(kjob, "", kjob, {}, {}, old(c.jobs), c.jobs, old(c.secrets), c.secrets);
    }
    if c.quiet && cleaned.Some? {
      CleanupKeepsOthers(kjob, "", cleaned.value.0, old(c.nextUid), {}, {}, old(c.jobs), jobs1, c.jobs,
                         old(c.secrets), old(c.secrets), c.secrets);
    }
  }

  lemma OnlyCreateVouches(expected: KJob, log: seq<Call>, created: Response<KJob>)
    ensures OnlyVouched(expected, log + [JobCreate(created)], |log|, if created.Ok? then Some(created.value) else None)
  {
  }

  /** What the looks met, said about the Jobs from before the create. */
  lemma SpoiltFromStart(c: Cluster, kjob: KJob, from: nat, faults: nat, jobs0: map<string, KJob>, jobs1: map<string, KJob>, made: seq<Context>)
    requires LookWasSpoilt(c, kjob, from + 1, faults + 1, jobs1, made)
    requires c.quiet ==> jobs1 == jobs0 || (kjob.name in jobs1 && jobs1[kjob.name] == kjob.(uid := jobs1[kjob.name].uid) && jobs1[kjob.name].uid > 0)
    ensures WasSpoilt(c, kjob, from, faults, jobs0, made)
  {
    if c.quiet && LiveUnverified(kjob, jobs1) && jobs1 != jobs0 {
      assert IdentityVerified(kjob, kjob.(uid := 1)) ==> IdentityVerified(kjob, jobs1[kjob.name]);
    }
  }

  /** What was said about the log when the Job was at hand still holds when the Secret has been dealt with. */
  lemma SecretPhase(kjob: KJob, tokensEnabled: bool, log: seq<Call>, longer: seq<Call>, from: nat, job: KJob, done: bool)
    requires from < |log| && log <= longer
    ensures longer[from] == log[from]
    ensures Refused(tokensEnabled, longer, from) <==> Refused(tokensEnabled, log, from)
    ensures Unsettled(tokensEnabled, longer, from) <==> Unsettled(tokensEnabled, log, from)
    ensures LookedFor(log, from + 1) ==> LookedFor(longer, from + 1)
    ensures DeletedLast(longer, |log|, job, done) ==> DeletedLast(longer, from, job, done)
    ensures log[..from] == longer[..from]
  {
  }

  /** Creates the Job and, with tokens enabled, its Secret. No errors means success; `cleaned`
      tells which Job a failing call tried to remove, and what errors that met, and `made` which
      contexts the call made for itself. */
  method CreateJob(c: Cluster, ctx: Context, tokensEnabled: bool, kjob: KJob, token: string)
    returns (errs: seq<Failure>, ghost cleaned: Option<(KJob, seq<Failure>)>, ghost made: seq<Context>)
    requires c.Valid()
    modifies c, ctx
    ensures c.Valid()
    // it fails only when a create is answered with an error, or the context ends
    ensures errs != [] ==> ctx.done || c.refused > old(c.refused)
    // the number of API calls is bounded, and every delete is guarded by a vouched-for UID
    ensures |c.log| <= |old(c.log)| + MAX_CALLS && GuardedDeletes(kjob, c.log, |old(c.log)|)
    ensures !tokensEnabled ==> |c.log| == |old(c.log)| + 1
    // success without interference: the live Job is the intended one and has its token Secret
    ensures errs == [] && c.quiet ==> kjob.name in c.jobs && IntendedIdentity(kjob, c.jobs[kjob.name])
    ensures errs == [] && c.quiet && tokensEnabled ==>
              var live := c.jobs[kjob.name];
              SecretName(live) in c.secrets && HoldsToken(c.secrets[SecretName(live)], live, token)
    // even with interference, a Job of the intended identity was returned or verified, and the Secret is its own
    ensures errs == [] ==> exists job :: Vouched(kjob, c.log, |old(c.log)|, job) && IntendedIdentity(kjob, job)
    ensures errs == [] && tokensEnabled ==> exists job :: SecretInPlace(c.secrets, c.log, |old(c.log)|, kjob, job, token)
    // a clean cleanup leaves neither the Job nor a Secret written for it, unless its last read did not find that Secret to be the Job's
    ensures CleanedUp(cleaned) ==> errs != [] && JobGone(c.jobs, cleaned.value.0.uid)
    ensures CleanedUp(cleaned) ==>
              GoneOrForeign(c.secrets, c.log, |old(c.log)|, cleaned.value.0, NewlyWritten(old(c.written), c.written))
    ensures CleanedUp(cleaned) && c.quiet ==>
              forall u :: u in NewlyWritten(old(c.written), c.written) ==> (SecretGone(c.secrets, u) <==> Lookup(kjob.labels, UUID_LABEL) != "")
    // nobody else's objects go
    ensures c.quiet ==> OthersKept(kjob, old(c.jobs), old(c.secrets), c.jobs, c.secrets)
    // it starts with the create; an error that settles it is passed on at once, and without tokens a create that is answered is all there is to do
    ensures old(c.log) < c.log && c.log[|old(c.log)|].JobCreate? && fresh(Set(made))
    ensures Refused(tokensEnabled, c.log, |old(c.log)|) ==>
              errs == [Api(c.log[|old(c.log)|].job.error)] && cleaned.None? && |c.log| == |old(c.log)| + 1
    ensures !tokensEnabled ==> (errs == [] <==> c.log[|old(c.log)|].job.Ok?)
    // an ambiguous answer is followed by a look for the Job
    ensures Unsettled(tokensEnabled, c.log, |old(c.log)|) ==> LookedFor(c.log, |old(c.log)| + 1) || !AllLive(made)
    // on failure no Job that the server handed out is left alone: it is the one that was to be removed, and its delete comes last
    ensures errs != [] ==> OnlyVouched(kjob, c.log, |old(c.log)|, JobOf(cleaned))
    ensures cleaned.Some? ==> DeletedLast(c.log, |old(c.log)|, cleaned.value.0, !AllLive(made))
    // an ambiguous answer alone is no failure: besides it a context ended, another answer was an error, or another Job has the name
    ensures errs != [] && c.log[|old(c.log)|].job.Ok? ==> ctx.done || !AllLive(made) || c.faults > old(c.faults)
    ensures errs != [] && Unsettled(tokensEnabled, c.log, |old(c.log)|) ==> WasSpoilt(c, kjob, |old(c.log)|, old(c.faults), old(c.jobs), made)
  {
    var job, next;
    job, errs, next, cleaned, made := ObtainJob(c, ctx, tokensEnabled, kjob);
    if job.None? || !tokensEnabled {
      return;
    }
    ghost var jobs1, obtained := c.jobs, c.log;
    ghost var between, more;
    errs, cleaned, between, more := SecretOrCleanup(c, next, job.value, token, kjob, |old(c.log)|);
    LivesBoth(made, more);
    SecretPhase(kjob, tokensEnabled, obtained, c.log, |old(c.log)|, job.value, !AllLive(more));
    OnlyVouchedVain(kjob, obtained, c.log, |old(c.log)|, job);
    made := made + more;
    if errs == [] {
      assert SecretInPlace(c.secrets, c.log, |old(c.log)|, kjob, job.value, token);
    }
    if c.quiet && cleaned.None? {
      AdditionsKeepOthers(kjob, token, job.value, old(c.written), c.written, old(c.jobs), c.jobs, old(c.secrets), c.secrets);
    }
    if c.quiet && cleaned.Some? {
      CleanupKeepsOthers(kjob, token, job.value, old(c.nextUid), old(c.written), c.written,
                         old(c.jobs), jobs1, c.jobs, old(c.secrets), between, c.secrets);
      if CleanedUp(cleaned) {
        CleanupRemovesWritten(job.value, token, old(c.written), c.written, c.nextUid, jobs1, c.jobs,
                              old(c.secrets), between, c.secrets);
      }
    }
  }
}
