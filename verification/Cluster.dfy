/** The Kubernetes API server as createJob sees it: Jobs and Secrets by name, UIDs that
    are never reused, responses that may be lost, and other actors in between. */
module Cluster {
  import opened Options

  // ---- Objects -----------------------------------------------------------

  const UUID_LABEL := "buildkite.com/job-uuid"
  const CONTROLLER_ID_LABEL := "buildkite.com/controller-id"
  const TOKEN_SECRET_ANNOTATION := "buildkite.com/job-acquisition-token-secret"
  const AGENT_TOKEN_KEY := "BUILDKITE_AGENT_TOKEN"
  const AGENT_CONTAINER_NAME := "agent"
  const BATCH_V1 := "batch/v1"

  datatype EnvVar = EnvVar(name: string, value: string, secretRef: Option<string>)

  datatype Container = Container(name: string, env: seq<EnvVar>)

  /** uid 0 stands for the empty UID of an object that is not stored yet. */
  datatype KJob = KJob(name: string, uid: nat, labels: map<string, string>, annotations: map<string, string>, containers: seq<Container>)

  datatype OwnerRef = OwnerRef(apiVersion: string, kind: string, name: string, uid: nat, controller: Option<bool>)

  datatype KSecret = KSecret(name: string, uid: nat, labels: map<string, string>, owners: seq<OwnerRef>, immutable: Option<bool>, data: map<string, string>)

  /** A Go map lookup: a missing key reads as the empty string. */
  function Lookup(m: map<string, string>, key: string): string {
    if key in m then m[key] else ""
  }

  function SecretName(job: KJob): string {
    Lookup(job.annotations, TOKEN_SECRET_ANNOTATION)
  }

  // ---- Identity ----------------------------------------------------------

  predicate HasSameJobIdentity(expected: map<string, string>, actual: map<string, string>) {
    && Lookup(expected, UUID_LABEL) != "" && Lookup(actual, UUID_LABEL) == Lookup(expected, UUID_LABEL)
    && (CONTROLLER_ID_LABEL in expected <==> CONTROLLER_ID_LABEL in actual)
    && Lookup(actual, CONTROLLER_ID_LABEL) == Lookup(expected, CONTROLLER_ID_LABEL)
  }

  /** The first owner marked as controller. */
  function ControllerOf(owners: seq<OwnerRef>): Option<OwnerRef> {
    if owners == [] then None
    else if owners[0].controller == Some(true) then Some(owners[0])
    else ControllerOf(owners[1..])
  }

  predicate SecretControlledByJob(secret: KSecret, job: KJob) {
    var c := ControllerOf(secret.owners);
    c.Some? && c.value.uid == job.uid && c.value.name == job.name && c.value.apiVersion == BATCH_V1 && c.value.kind == "Job"
  }

  predicate IsTokenRef(e: EnvVar, secretName: string) {
    e.name == AGENT_TOKEN_KEY && e.value == "" && e.secretRef == Some(secretName)
  }

  predicate ReferencesSecret(containers: seq<Container>, secretName: string) {
    exists i :: 0 <= i < |containers| && containers[i].name == AGENT_CONTAINER_NAME &&
      exists k :: 0 <= k < |containers[i].env| && IsTokenRef(containers[i].env[k], secretName)
  }

  /** What reconcileCreatedJob demands of a Job before it adopts it. */
  predicate IdentityVerified(expected: KJob, job: KJob) {
    HasSameJobIdentity(expected.labels, job.labels) && job.uid != 0 && SecretName(job) != "" &&
    ReferencesSecret(job.containers, SecretName(job))
  }

  /** Which Jobs are taken for the expected one: those with its non-empty UUID label and its controller
      label, or like it without one, that are stored, and whose agent container takes its token from the
      Secret they are annotated with. */
  lemma RecognisedIff(expected: KJob, job: KJob)
    ensures IdentityVerified(expected, job) <==>
              && UUID_LABEL in expected.labels && expected.labels[UUID_LABEL] != ""
              && UUID_LABEL in job.labels && job.labels[UUID_LABEL] == expected.labels[UUID_LABEL]
              && (if CONTROLLER_ID_LABEL in expected.labels
                  then CONTROLLER_ID_LABEL in job.labels && job.labels[CONTROLLER_ID_LABEL] == expected.labels[CONTROLLER_ID_LABEL]
                  else CONTROLLER_ID_LABEL !in job.labels)
              && job.uid > 0
              && TOKEN_SECRET_ANNOTATION in job.annotations && job.annotations[TOKEN_SECRET_ANNOTATION] != ""
              && exists i, k ::
                   && 0 <= i < |job.containers| && 0 <= k < |job.containers[i].env|
                   && job.containers[i].name == "agent"
                   && job.containers[i].env[k] == EnvVar("BUILDKITE_AGENT_TOKEN", "", Some(job.annotations[TOKEN_SECRET_ANNOTATION]))
  {
  }

  /** A Secret is a Job's exactly if the first of its owners that is marked as controller is that Job,
      under its UID. */
  lemma ControlledIff(secret: KSecret, job: KJob)
    ensures SecretControlledByJob(secret, job) <==>
              exists i :: 0 <= i < |secret.owners|
                && secret.owners[i] == OwnerRef("batch/v1", "Job", job.name, job.uid, Some(true))
                && forall k :: 0 <= k < i ==> secret.owners[k].controller != Some(true)
  {
    FirstController(secret.owners);
  }

  lemma {:induction false} FirstController(owners: seq<OwnerRef>)
    ensures ControllerOf(owners).None? <==> forall k :: 0 <= k < |owners| ==> owners[k].controller != Some(true)
    ensures ControllerOf(owners).Some? ==>
              exists i :: 0 <= i < |owners| && owners[i] == ControllerOf(owners).value && owners[i].controller == Some(true)
                && forall k :: 0 <= k < i ==> owners[k].controller != Some(true)
  {
    if owners != [] && owners[0].controller != Some(true) {
      FirstController(owners[1..]);
      assert forall k :: 0 < k < |owners| ==> owners[k] == owners[1..][k - 1];
      if ControllerOf(owners).Some? {
        var i :| 0 <= i < |owners[1..]| && owners[1..][i] == ControllerOf(owners).value && owners[1..][i].controller == Some(true)
                 && forall k :: 0 <= k < i ==> owners[1..][k].controller != Some(true);
        assert owners[i + 1] == owners[1..][i];
      }
    }
  }

  // ---- Errors ------------------------------------------------------------

  datatype ApiError =
    | AlreadyExists | Conflict | NotFound
    | Invalid | Forbidden | Unauthorized | BadRequest | MethodNotSupported | NotAcceptable
    | RequestEntityTooLarge | UnsupportedMediaType
    | Timeout | ServerTimeout
    | OtherStatus
    | NoStatus  // a lost connection, an expired context: the server never answered

  predicate IsPermanent(e: ApiError) {
    e in {Invalid, Forbidden, Unauthorized, BadRequest, MethodNotSupported, NotAcceptable, RequestEntityTooLarge, UnsupportedMediaType}
  }

  predicate IsAmbiguous(e: ApiError) {
    if e.AlreadyExists? || e.Conflict? || IsPermanent(e) then false
    else if e.Timeout? || e.ServerTimeout? then true
    else e.NoStatus?
  }

  /** Exactly these answers to a create leave open whether the object was stored. */
  lemma AmbiguousIff(e: ApiError)
    ensures IsAmbiguous(e) <==> e.Timeout? || e.ServerTimeout? || e.NoStatus?
    ensures IsPermanent(e) ==> !IsAmbiguous(e)
  {
  }

  datatype Response<+T> = Ok(value: T) | Err(error: ApiError)

  // ---- The server --------------------------------------------------------

  datatype Call =
    | JobCreate(job: Response<KJob>)
    | JobGet(job: Response<KJob>)
    | SecretCreate(secret: Response<KSecret>)
    | SecretGet(secret: Response<KSecret>)
    // `gone` is the object that the server removed, if it did
    | JobDelete(name: string, uid: nat, gone: Option<KJob>)
    | SecretDelete(name: string, uid: nat, goneSecret: Option<KSecret>)

  /** Names keep their UIDs or get UIDs never handed out before. */
  ghost predicate JobUidsStay(before: map<string, KJob>, next: nat, after: map<string, KJob>) {
    forall n :: n in after ==> after[n].uid >= next || (n in before && before[n].uid == after[n].uid)
  }

  ghost predicate SecretUidsStay(before: map<string, KSecret>, next: nat, after: map<string, KSecret>) {
    forall n :: n in after ==> after[n].uid >= next || (n in before && before[n].uid == after[n].uid)
  }

  predicate GoodJobs(jobs: map<string, KJob>, next: nat) {
    && (forall n :: n in jobs ==> jobs[n].name == n && 0 < jobs[n].uid < next)
    && (forall n, m :: n in jobs && m in jobs && jobs[n].uid == jobs[m].uid ==> n == m)
  }

  /** UIDs cannot be guessed: an owner reference names a UID that was handed out. */
  predicate OwnersKnown(secret: KSecret, next: nat) {
    forall o :: o in secret.owners ==> o.uid < next
  }

  predicate GoodSecrets(secrets: map<string, KSecret>, next: nat) {
    && (forall n :: n in secrets ==> secrets[n].name == n && 0 < secrets[n].uid < next && OwnersKnown(secrets[n], next))
    && (forall n, m :: n in secrets && m in secrets && secrets[n].uid == secrets[m].uid ==> n == m)
  }

  /** These UIDs were handed out, and an object with one of them can only live under that name. */
  ghost predicate LiveOnlyAt(secrets: map<string, KSecret>, next: nat, uids: set<nat>, name: string) {
    && (forall u :: u in uids ==> u < next)
    && (forall m :: m in secrets && secrets[m].uid in uids ==> m == name)
  }

  class Cluster {
    /** No other actor changes Jobs or Secrets while it is used. */
    const quiet: bool
    var jobs: map<string, KJob>
    var secrets: map<string, KSecret>
    var nextUid: nat
    ghost var log: seq<Call>
    /** UIDs of the Secrets the client's creates stored, answered or not. */
    ghost var written: set<nat>
    /** How many creates were answered with an error. */
    ghost var refused: nat
    /** How many calls were answered with an error. That a Secret to read or an object to delete is absent
        is an answer, not an error. */
    ghost var faults: nat

    ghost predicate Valid()
      reads this
    {
      nextUid > 0 && GoodJobs(jobs, nextUid) && GoodSecrets(secrets, nextUid) && forall u :: u in written ==> u < nextUid
    }

    /** Other actors create, change and delete objects, unless the cluster is quiet. */
    method Interfere()
      requires Valid()
      modifies `jobs, `secrets, `nextUid
      ensures Valid() && old(nextUid) <= nextUid
      ensures JobUidsStay(old(jobs), old(nextUid), jobs) && SecretUidsStay(old(secrets), old(nextUid), secrets)
      ensures quiet ==> jobs == old(jobs) && secrets == old(secrets)
    {
      if quiet {
        return;
      }
      var js: map<string, KJob>, ss: map<string, KSecret>, next: nat := *, *, *;
      if nextUid <= next && GoodJobs(js, next) && GoodSecrets(ss, next)
         && (forall n :: n in js ==> js[n].uid >= nextUid || (n in jobs && jobs[n].uid == js[n].uid))
         && (forall n :: n in ss ==> ss[n].uid >= nextUid || (n in secrets && secrets[n].uid == ss[n].uid)) {
        jobs, secrets, nextUid := js, ss, next;
      }
    }

    ghost method Record(call: Call, fault: bool, refusal: bool)
      modifies `log, `faults, `refused
      ensures log == old(log) + [call]
      ensures faults == old(faults) + (if fault then 1 else 0)
      ensures refused == old(refused) + (if refusal then 1 else 0)
    {
      log := log + [call];
      faults := if fault then faults + 1 else faults;
      refused := if refusal then refused + 1 else refused;
    }

    method StoreJob(job: KJob) returns (live: KJob)
      requires Valid() && job.name !in jobs
      modifies `jobs, `nextUid
      ensures Valid() && nextUid == old(nextUid) + 1
      ensures live == job.(uid := old(nextUid)) && jobs == old(jobs)[job.name := live]
    {
      live := job.(uid := nextUid);
      jobs, nextUid := jobs[job.name := live], nextUid + 1;
    }

    method StoreSecret(secret: KSecret) returns (live: KSecret)
      requires Valid() && secret.name !in secrets && OwnersKnown(secret, nextUid)
      modifies `secrets, `nextUid, `written
      ensures Valid() && nextUid == old(nextUid) + 1 && written == old(written) + {old(nextUid)}
      ensures live == secret.(uid := old(nextUid)) && secrets == old(secrets)[secret.name := live]
    {
      live := secret.(uid := nextUid);
      secrets, nextUid, written := secrets[secret.name := live], nextUid + 1, written + {nextUid};
    }

    /** A create that may be stored although its answer is lost. Only an error that is not
        ambiguous promises that nothing was stored. */
    method CreateJob(job: KJob) returns (r: Response<KJob>)
      requires Valid()
      modifies this
      ensures Valid() && old(nextUid) <= nextUid
      ensures log == old(log) + [JobCreate(r)] && written == old(written)
      ensures JobUidsStay(old(jobs), old(nextUid), jobs) && SecretUidsStay(old(secrets), old(nextUid), secrets)
      ensures r.Ok? ==> job.name in jobs && r.value == jobs[job.name] == job.(uid := r.value.uid)
      ensures r.Ok? ==> r.value.uid >= old(nextUid)
      ensures quiet ==> secrets == old(secrets)
      ensures quiet && r.Ok? ==> job.name !in old(jobs) && jobs == old(jobs)[job.name := r.value]
      ensures quiet && r.Err? ==>
                || jobs == old(jobs)
                || (IsAmbiguous(r.error) && job.name !in old(jobs) && job.name in jobs
                    && jobs == old(jobs)[job.name := job.(uid := jobs[job.name].uid)])
      ensures refused == old(refused) + (if r.Err? then 1 else 0)
      ensures faults == old(faults) + (if r.Err? then 1 else 0)
    {
      Interfere();
      var stored := *;
      var answer: ApiError := *;
      if job.name !in jobs && stored {
        var live := StoreJob(job);
        var lost := *;
        r := if lost && IsAmbiguous(answer) then Err(answer) else Ok(live);
      } else {
        r := Err(answer);
      }
      Record(JobCreate(r), r.Err?, r.Err?);
    }

    method GetJob(name: string) returns (r: Response<KJob>)
      requires Valid()
      modifies this
      ensures Valid() && old(nextUid) <= nextUid
      ensures log == old(log) + [JobGet(r)] && written == old(written)
      ensures JobUidsStay(old(jobs), old(nextUid), jobs) && SecretUidsStay(old(secrets), old(nextUid), secrets)
      ensures r.Ok? ==> name in jobs && jobs[name] == r.value
      ensures r == Err(NotFound) ==> name !in jobs
      ensures quiet ==> jobs == old(jobs) && secrets == old(secrets)
      ensures refused == old(refused) && faults == old(faults) + (if r.Err? then 1 else 0)
    {
      Interfere();
      var answer: ApiError := *;
      if name in jobs && answer.NotFound? {
        r := Ok(jobs[name]);
      } else {
        r := Err(answer);
      }
      Record(JobGet(r), r.Err?, false);
    }

    /** Like CreateJob; an empty name is invalid. */
    method CreateSecret(secret: KSecret) returns (r: Response<KSecret>)
      requires Valid() && OwnersKnown(secret, nextUid)
      modifies this
      ensures Valid() && old(nextUid) <= nextUid
      ensures log == old(log) + [SecretCreate(r)] && old(written) <= written
      ensures JobUidsStay(old(jobs), old(nextUid), jobs) && SecretUidsStay(old(secrets), old(nextUid), secrets)
      ensures LiveOnlyAt(secrets, nextUid, written - old(written), secret.name)
      ensures r.Ok? ==> secret.name in secrets && r.value == secrets[secret.name] == secret.(uid := r.value.uid)
      ensures quiet ==> jobs == old(jobs)
      ensures quiet && written == old(written) ==> secrets == old(secrets) && r.Err?
      ensures quiet && written != old(written) ==>
                && (r.Err? ==> IsAmbiguous(r.error))
                && secret.name !in old(secrets) && secret.name in secrets
                && secrets == old(secrets)[secret.name := secret.(uid := secrets[secret.name].uid)]
                && written == old(written) + {secrets[secret.name].uid}
      ensures refused == old(refused) + (if r.Err? then 1 else 0)
      ensures faults == old(faults) + (if r.Err? then 1 else 0)
    {
      Interfere();
      var stored := *;
      var answer: ApiError := *;
      if secret.name == "" {
        r := Err(Invalid);
      } else if secret.name !in secrets && stored {
        var live := StoreSecret(secret);
        var lost := *;
        r := if lost && IsAmbiguous(answer) then Err(answer) else Ok(live);
      } else {
        r := Err(answer);
      }
      Record(SecretCreate(r), r.Err?, r.Err?);
    }

    method GetSecret(name: string) returns (r: Response<KSecret>)
      requires Valid()
      modifies this
      ensures Valid() && old(nextUid) <= nextUid
      ensures log == old(log) + [SecretGet(r)] && written == old(written)
      ensures JobUidsStay(old(jobs), old(nextUid), jobs) && SecretUidsStay(old(secrets), old(nextUid), secrets)
      ensures r.Ok? ==> name in secrets && secrets[name] == r.value
      ensures r == Err(NotFound) ==> name !in secrets
      ensures quiet ==> jobs == old(jobs) && secrets == old(secrets)
      ensures refused == old(refused) && faults == old(faults) + (if r.Err? && !r.error.NotFound? then 1 else 0)
    {
      Interfere();
      var answer: ApiError := *;
      if name in secrets && answer.NotFound? {
        r := Ok(secrets[name]);
      } else {
        r := Err(answer);
      }
      Record(SecretGet(r), r.Err? && !r.error.NotFound?, false);
    }

    /** A delete with a UID precondition: it never removes an object with another UID. */
    method DeleteJob(name: string, uid: nat) returns (r: Response<()>, ghost gone: Option<KJob>)
      requires Valid()
      modifies this
      ensures Valid() && old(nextUid) <= nextUid
      ensures log == old(log) + [JobDelete(name, uid, gone)] && written == old(written)
      ensures gone.Some? ==> gone.value.name == name && gone.value.uid == uid
      ensures JobUidsStay(old(jobs), old(nextUid), jobs) && SecretUidsStay(old(secrets), old(nextUid), secrets)
      ensures r.Ok? || r == Err(NotFound) ==> name !in jobs
      ensures quiet ==> secrets == old(secrets)
      ensures quiet && jobs != old(jobs) ==> name in old(jobs) && old(jobs)[name].uid == uid && jobs == old(jobs) - {name}
      ensures refused == old(refused) && faults == old(faults) + (if r.Err? && !r.error.NotFound? then 1 else 0)
    {
      Interfere();
      var stored, lost := *, *;
      var answer: ApiError := *;
      gone := None;
      if name in jobs && jobs[name].uid == uid && stored {
        gone := Some(jobs[name]);
        jobs := jobs - {name};
        r := if lost then Err(answer) else Ok(());
      } else if name in jobs {
        r := Err(if answer.NotFound? then Conflict else answer);
      } else {
        r := Err(NotFound);
      }
      Record(JobDelete(name, uid, gone), r.Err? && !r.error.NotFound?, false);
    }

    method DeleteSecret(name: string, uid: nat) returns (r: Response<()>, ghost gone: Option<KSecret>)
      requires Valid()
      modifies this
      ensures Valid() && old(nextUid) <= nextUid
      ensures log == old(log) + [SecretDelete(name, uid, gone)] && written == old(written)
      ensures gone.Some? ==> gone.value.name == name && gone.value.uid == uid
      ensures JobUidsStay(old(jobs), old(nextUid), jobs) && SecretUidsStay(old(secrets), old(nextUid), secrets)
      ensures r.Ok? || r == Err(NotFound) ==> name !in secrets
      ensures quiet ==> jobs == old(jobs)
      ensures quiet && secrets != old(secrets) ==> name in old(secrets) && old(secrets)[name].uid == uid && secrets == old(secrets) - {name}
      ensures refused == old(refused) && faults == old(faults) + (if r.Err? && !r.error.NotFound? then 1 else 0)
    {
      Interfere();
      var stored, lost := *, *;
      var answer: ApiError := *;
      gone := None;
      if name in secrets && secrets[name].uid == uid && stored {
        gone := Some(secrets[name]);
        secrets := secrets - {name};
        r := if lost then Err(answer) else Ok(());
      } else if name in secrets {
        r := Err(if answer.NotFound? then Conflict else answer);
      } else {
        r := Err(NotFound);
      }
      Record(SecretDelete(name, uid, gone), r.Err? && !r.error.NotFound?, false);
    }
  }
}
