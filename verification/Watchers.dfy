/** The cancellation checker's table and the two watchers that feed it, as the objects they are. */
module Watchers {
  import opened Options
  import opened CancelChecker

  datatype Delete = Delete(target: Target, outcome: Deletion)

  class BatchBuildkiteJobChecker {
    var checkingJobs: Table
    ghost var deletes: seq<Delete>

    constructor ()
      ensures checkingJobs == map[] && deletes == []
    {
      checkingJobs, deletes := map[], [];
    }

    method AddPod(uuid: string, name: string)
      modifies this`checkingJobs
      ensures checkingJobs == CancelChecker.AddPod(old(checkingJobs), uuid, name)
    {
      checkingJobs := checkingJobs[uuid := PodTarget(name)];
    }

    method AddK8sJob(uuid: string, name: string)
      modifies this`checkingJobs
      ensures checkingJobs == CancelChecker.AddK8sJob(old(checkingJobs), uuid, name)
    {
      if uuid in checkingJobs && checkingJobs[uuid].PodTarget? {
        return;
      }
      checkingJobs := checkingJobs[uuid := JobTarget(name)];
    }

    method StopCheckingJob(uuid: string)
      modifies this`checkingJobs
      ensures checkingJobs == old(checkingJobs) - {uuid}
    {
      checkingJobs := checkingJobs - {uuid};
    }

    /** Deletes the target; an absent object counts as deleted. */
    method ForcefullyDelete(target: Target) returns (failed: bool)
      modifies this`deletes
      ensures |deletes| == |old(deletes)| + 1 && deletes[..|old(deletes)|] == old(deletes)
      ensures deletes[|old(deletes)|].target == target && (failed <==> deletes[|old(deletes)|].outcome.Failed?)
    {
      var outcome: Deletion := *;
      deletes := deletes + [Delete(target, outcome)];
      if outcome.NotFound? {
        return false;
      }
      return outcome.Failed?;
    }

    /** Acts on the state a poll found for a job: deletes at most once, and only for a cancelled
        job. Its registration goes only when that delete did not fail, or when the job is past
        cancelling here. */
    method HandleJobState(uuid: string, state: JobState, target: Target)
      modifies this
      ensures !state.Cancelled? ==> deletes == old(deletes)
      ensures state.Cancelled? ==> |deletes| == |old(deletes)| + 1 && deletes[..|old(deletes)|] == old(deletes)
                                   && deletes[|old(deletes)|].target == target
      ensures checkingJobs == if state.Elsewhere? || (state.Cancelled? && !deletes[|old(deletes)|].outcome.Failed?)
                              then old(checkingJobs) - {uuid} else old(checkingJobs)
    {
      match state
      case Cancelled =>
        var failed := ForcefullyDelete(target);
        if failed {
          return;
        }
        StopCheckingJob(uuid);
      case Waiting =>
      case Elsewhere =>
        StopCheckingJob(uuid);
    }
  }

  /** What a watcher and the table have in common with a state of the checker's runs. */
  ghost function Seen(checking: Table, podIgnored: set<string>, jobIgnored: set<string>): State {
    START.(checking := checking, podIgnored := podIgnored, jobIgnored := jobIgnored)
  }

  class PodWatcher {
    const checker: BatchBuildkiteJobChecker
    var ignored: set<string>

    constructor (checker: BatchBuildkiteJobChecker)
      ensures this.checker == checker && ignored == {}
    {
      this.checker, ignored := checker, {};
    }

    /** One add or update event: `failsInit` says that the job is failed because of an init
        container, and ignored from then on. Without a readable UUID nothing happens. */
    method RunChecks(uuid: Option<string>, phase: Phase, name: string, failsInit: bool)
      modifies this, checker`checkingJobs
      ensures uuid.None? ==> checker.checkingJobs == old(checker.checkingJobs) && ignored == old(ignored)
      ensures uuid.Some? ==>
                var s := Apply(Apply(Seen(old(checker.checkingJobs), old(ignored), {}), PodSeen(uuid.value, phase, name)), PodContinue);
                var fails := failsInit && uuid.value !in old(ignored);
                var t := Apply(if fails then Apply(s, PodIgnore(uuid.value)) else s, PodContinue);
                t.podHandler.Idle? && checker.checkingJobs == t.checking && ignored == t.podIgnored
      ensures uuid.Some? ==>
                checker.checkingJobs == if !phase.Pending? then old(checker.checkingJobs) - {uuid.value}
                                        else if uuid.value in old(ignored) then old(checker.checkingJobs)
                                        else old(checker.checkingJobs)[uuid.value := PodTarget(name)]
    {
      if uuid.None? {
        return;
      }
      match phase {
        case Pending =>
        case _ => checker.StopCheckingJob(uuid.value);
      }
      if uuid.value in ignored {
        return;
      }
      if failsInit {
        ignored := ignored + {uuid.value};
      }
      if phase.Pending? {
        checker.AddPod(uuid.value, name);
      }
    }

    method OnDelete(uuid: Option<string>)
      modifies this, checker`checkingJobs
      ensures uuid.None? ==> checker.checkingJobs == old(checker.checkingJobs) && ignored == old(ignored)
      ensures uuid.Some? ==>
                var t := Apply(Seen(old(checker.checkingJobs), old(ignored), {}), PodGone(uuid.value));
                checker.checkingJobs == t.checking && ignored == t.podIgnored
    {
      if uuid.None? {
        return;
      }
      checker.StopCheckingJob(uuid.value);
      ignored := ignored - {uuid.value};
    }
  }

  class JobWatcher {
    const checker: BatchBuildkiteJobChecker
    var ignored: set<string>

    constructor (checker: BatchBuildkiteJobChecker)
      ensures this.checker == checker && ignored == {}
    {
      this.checker, ignored := checker, {};
    }

    /** One add or update event: `failsJob` says that a finished Job's Buildkite job is failed, and
        ignored from then on. */
    method RunChecks(uuid: Option<string>, finished: bool, counts: PodCounts, name: string, failsJob: bool)
      modifies this, checker`checkingJobs
      ensures uuid.None? ==> checker.checkingJobs == old(checker.checkingJobs) && ignored == old(ignored)
      ensures uuid.Some? ==>
                var s := Apply(Apply(Seen(old(checker.checkingJobs), {}, old(ignored)), JobSeen(uuid.value, finished, counts, name)), JobContinue);
                var fails := finished && failsJob && uuid.value !in old(ignored);
                var t := if fails then Apply(s, JobIgnore(uuid.value)) else s;
                t.jobHandler.Rest? && checker.checkingJobs == t.checking && ignored == t.jobIgnored
      // an unfinished Job registers its job exactly if no counter shows a pod and no pod is registered
      ensures uuid.Some? && uuid.value !in old(ignored) && finished ==> checker.checkingJobs == old(checker.checkingJobs) - {uuid.value}
      ensures uuid.Some? && uuid.value !in old(ignored) && !finished && ShowsNoPod(counts)
              && (uuid.value !in old(checker.checkingJobs) || old(checker.checkingJobs)[uuid.value].JobTarget?) ==>
                checker.checkingJobs == old(checker.checkingJobs)[uuid.value := JobTarget(name)]
      ensures uuid.Some? && uuid.value !in old(ignored) && !finished && ShowsNoPod(counts)
              && uuid.value in old(checker.checkingJobs) && old(checker.checkingJobs)[uuid.value].PodTarget? ==>
                checker.checkingJobs == old(checker.checkingJobs)
      ensures uuid.Some? && (uuid.value in old(ignored) || (!finished && !ShowsNoPod(counts))) ==> checker.checkingJobs == old(checker.checkingJobs)
    {
      if uuid.None? {
        return;
      }
      if uuid.value in ignored {
        return;
      }
      if finished {
        checker.StopCheckingJob(uuid.value);
        if failsJob {
          ignored := ignored + {uuid.value};
        }
        return;
      }
      if !HasPod(counts) {
        checker.AddK8sJob(uuid.value, name);
      }
    }

    method OnDelete(uuid: Option<string>)
      modifies this, checker`checkingJobs
      ensures uuid.None? ==> checker.checkingJobs == old(checker.checkingJobs) && ignored == old(ignored)
      ensures uuid.Some? ==>
                var t := Apply(Seen(old(checker.checkingJobs), {}, old(ignored)), JobGone(uuid.value));
                checker.checkingJobs == t.checking && ignored == t.jobIgnored
    {
      if uuid.None? {
        return;
      }
      checker.StopCheckingJob(uuid.value);
      ignored := ignored - {uuid.value};
    }
  }
}
