# A verified model of the agent-stack-k8s controller

The controller polls Buildkite for jobs and turns them into Kubernetes Jobs. This project models the
parts of it that are hard to get right by reading, in Dafny, and proves what they are for:

- **The limiter** (`JobQueue`, `Truncation`, `LimiterSpec`, `LimiterInvariants`, `LimiterRuns`, `LimiterEvents`, `Limiter`): a priority
  queue, a table of shared job states, a slot counter and a broadcast channel behind one mutex, with N
  workers and informer events in any order. `LimiterSpec` has each mutex section as a function and each
  worker goroutine as a program counter; `LimiterRuns` proves safety and progress of every interleaving;
  `LimiterEvents` says what each event means for slots, queue and workers, in terms of its inputs alone;
  `Limiter` is the object with its mutable fields, whose methods compute exactly those functions. Two job
  states are compared by reference there, as in the source, and by attempt number in the specification.
- **Creating a Job** (`Cluster`, `CreateJob`): the create, reconcile and cleanup protocol against an API
  server that may lose answers, fail transiently and be changed by others between any two calls.
- **The batching stages** (`Batching`, `Contexts`, `Reserver`, `Issuer`), **the deduper** (`Deduper`) and **the whole
  dispatch pipeline** (`Pipeline`), as one state machine that composes limiter, reserver, issuer and deduper.
- **Sub-path expressions** (`SubPathExpr`): the tokenizer against the octet-by-octet expansion it predicts.
- **Image checks** (`ImageCheck`), **the sidecar deadline** (`SidecarDeadline`) and **the cancellation
  checker** with the two watchers that feed it (`CancelChecker`, `Watchers`).

Where a statement speaks of "every run", it quantifies over all sequences of steps, each step being one
critical section, one API call or one event; a step that is not possible in a state changes nothing.

## Findings

Some properties one might expect are false of the code. Each comes with the exact condition under which it
holds, for all inputs, and with inputs on which it fails.

- Truncating the queue after every poll is not always the same as truncating once:
  `Truncation.EarlyTruncationCanFail`. It is exactly if every job the first poll cut still has `limit` jobs
  ranked ahead of it under its new record: `Truncation.EarlyTruncationExactly`, and for one more job
  `Truncation.EarlyTruncationOfOne`. Ids that never change priority are always safe:
  `Truncation.EarlyTruncation`.
- An app container is downgraded from `Always` to `IfNotPresent` even when image checks are skipped, and then
  nothing pulls its image: `ImageCheck.SkippingLosesThePull`. It is made up for exactly if checks are not
  skipped or an existing init container always pulls the image: `ImageCheck.DowngradeIsMadeUpFor`.
- A cancellation poll drops whatever is registered for a job when its delete returns, also a registration
  it never saw: `CancelChecker.LateRegistrationIsDropped`. It drops the one it saw exactly if nothing was
  registered for the job since it started: `CancelChecker.DropTakesWhatThePollSaw`.
- Replays can write the cleanup deadline more than once: `SidecarDeadline.EarlierExitWritesAgain`. They do
  not exactly if no two cleanups each ask for less than everything before them:
  `SidecarDeadline.WritesOnceIff`. Exits in order are always safe: `SidecarDeadline.ReplaysWriteOnce`.
- A cleanup without errors can leave a Secret written for the Job behind, when another actor relabels it
  first: `CreateJob.RelabelledIsForeign` says which labels do that. Whatever others do, it is left exactly if
  the cleanup's read does not find it to be the Job's: then nothing is deleted, and otherwise no error means
  that it is gone, `CreateJob.CleanupSecret` and, for the whole call, `CreateJob.CreateJob`.

A remark that is no failure, since the controller labels every Job it builds: a Job without a UUID label
would keep its Secret after a cleanup, `CreateJob.CleanupRemovesWritten`.

## Assumptions

- Kubernetes: UIDs are never reused and cannot be guessed; an answer of "not found" is true; an error that
  the code classifies as unambiguous means that the request was not applied; a request that fails has been
  applied, if ever, by the time its error arrives; admission control does not rewrite the objects created.
- `wait.ExponentialBackoffWithContext` calls its condition at most five times, and looks at the context
  before each call. `retry.RetryOnConflict` makes at most five attempts.
- A context that has ended stays ended. Times are integers.
- The reservation and token servers may answer anything. A reservation starts between its request and its answer, and lasts as long as was asked for.
- `math.Ceil` of a duration in seconds is the exact ceiling of its nanoseconds, and counters do not overflow.
- UUID parsing and image reference parsing are unknown functions, passed as parameters.
- Expansion of a sub-path follows the syntax that the source's comments describe for Kubernetes: `$$` for a
  dollar, `$(NAME)` for a variable, everything else literally. UTF-8 sequences are those of RFC 3629.

## Model

| member | source | states |
|---|---|---|
| JobQueue.InPlaceDedup | internal/controller/limiter/limiter.go:417-431 | the in-place loop leaves, in the array's first n places, the first record of every id |
| JobQueue.DedupKeepsFirst | internal/controller/limiter/limiter.go:417-431 | deduplication keeps exactly the first record of every id, in order of first appearance |
| JobQueue.StableSortIsTheStableSort | internal/controller/limiter/limiter.go:202-208 | the sort is the one sequence in descending priority that keeps the order of jobs of equal priority |
| JobQueue.EnqueuedGood | internal/controller/limiter/limiter.go:193-213 | the new queue has unique ids, is sorted, fits the limit; a job is cut only from a full queue whose jobs all have at least its priority |
| Truncation.CutKeepsRanks | internal/controller/limiter/limiter.go:202-213 | a record survives the stable sort and the cut exactly if fewer than `limit` records rank ahead of it, by priority and then by position |
| Truncation.EarlyTruncationExactly | internal/controller/limiter/limiter.go:193-213 | for every prior queue, limit, A and B: handing in A and then B leaves the queue that handing in A and B at once would, exactly if every job that the first poll cut has `limit` records ranked ahead of its new record |
| Truncation.EarlyTruncationOfOne | internal/controller/limiter/limiter.go:193-213 | for one more job: exactly unless the first poll cut its id, the queue is full, and it outranks the queue's last job |
| Truncation.EarlyTruncation | internal/controller/limiter/limiter.go:193-213 | if every id carries one priority, handing in A and then B leaves the queue that handing in A and B at once would |
| Truncation.EarlyTruncationCanFail | internal/controller/limiter/limiter.go:210-213 | three jobs for which cutting early makes a difference: one cut at a low priority comes back at a higher one |
| Truncation.StreamIsBatch | internal/controller/limiter/limiter.go:198-213 | if every id carries one priority, deduplicating, sorting and cutting a batch equals inserting its jobs one by one and cutting after each |
| Limiter.Arrange | internal/controller/limiter/limiter.go:198-213 | in-place dedup, stable sort and cut, on a real array, compute the specified queue |
| LimiterSpec.New | internal/controller/limiter/limiter.go:78-104 | a negative limit is a panic; anything else starts with at least one worker and room for a job |
| Limiter.New | internal/controller/limiter/limiter.go:78-131 | the limiter it makes is in the start state of the runs, under the configuration it settled on |
| Limiter.Limiter.NotifyWorkers | internal/controller/limiter/limiter.go:143-149 | the channel every waiter captured is closed and replaced by an open one |
| Limiter.Limiter.Pause | internal/controller/limiter/limiter.go:134-141 | pausing or unpausing sets the flag and wakes every waiter |
| Limiter.Limiter.HandleMany | internal/controller/limiter/limiter.go:183-217 | refuses when the caller or the intake is done; otherwise arranges the queue and wakes the workers |
| Limiter.Limiter.TryDequeueWork | internal/controller/limiter/limiter.go:219-238 | nothing when stopping, paused or full; else the first job whose id is unknown, with a new state object that no one else has, and one slot taken |
| Limiter.Limiter.Admit | internal/controller/limiter/limiter.go:231-235 | a new attempt: a fresh state object, its slot, and a wake-up |
| Limiter.Limiter.LoopTop | internal/controller/limiter/limiter.go:245-254 | what a worker reads under the lock: whether to return, whether to go on, and an open channel to wait on |
| Limiter.Limiter.HandlerReturnedError | internal/controller/limiter/limiter.go:299-311 | compares state objects by reference, and does what the specification does by attempt number |
| Limiter.Limiter.ObserveJob | internal/controller/limiter/limiter.go:380-415 | one informer event: create, observe, finish and forget the entry; wake the workers when the count changed; what that comes to is LimiterEvents.ObserveMeans |
| Limiter.Limiter.MarkAndConclude | internal/controller/limiter/limiter.go:399-406 | the entry is observed; a terminal or deleted Job gives back its slot once; a deleted one is forgotten |
| Limiter.Limiter.StartDrain | internal/controller/limiter/limiter.go:333-338 | stops the intake, empties the queue and wakes every worker |
| LimiterInvariants.BeginHistory | internal/controller/limiter/limiter.go:231-235 | a new entry keeps the counter, the slot history and the admission history right |
| LimiterInvariants.FinishHistory | internal/controller/limiter/limiter.go:400-403 | giving back a slot keeps them right |
| LimiterInvariants.ReleaseHistory | internal/controller/limiter/limiter.go:305-308 | releasing an unobserved attempt keeps them right |
| LimiterInvariants.ObserveInv | internal/controller/limiter/limiter.go:380-415 | every informer event, repeated, late or out of order, keeps every invariant of the shared state |
| LimiterInvariants.TryDequeueInv | internal/controller/limiter/limiter.go:219-238 | every dequeue keeps them, the capacity bound included |
| LimiterInvariants.HandlerFailedInv | internal/controller/limiter/limiter.go:299-311 | every failed return keeps them |
| LimiterInvariants.PollInv | internal/controller/limiter/limiter.go:183-217 | every poll keeps them |
| LimiterRuns.StepInv | internal/controller/limiter/limiter.go:183-311 | every step of every worker and every event keeps the whole invariant |
| LimiterRuns.NoLostWakeUps | internal/controller/limiter/limiter.go:143-149 | in every run, a worker that waits on the channel that is still current has nothing to do: not stopping, and paused, without a queued job, or with all of a limited number of slots in use |
| LimiterRuns.SectionsWake | internal/controller/limiter/limiter.go:183-238 | a section after which there is work, or an end, that was not there before has replaced the channel |
| LimiterRuns.SlotAccounting | internal/controller/limiter/limiter.go:65-72 | in every run, the counter is the number of unfinished entries; a finished entry was observed; each slot is taken at most once per attempt and given back exactly once, when the attempt stops holding it |
| LimiterRuns.Capacity | internal/controller/limiter/limiter.go:222-235 | in every run, unfinished admitted entries never exceed MaxInFlight, and the counter exceeds it only by jobs first seen through the informer |
| LimiterRuns.AttemptIdentity | internal/controller/limiter/limiter.go:228-235 | between two admissions of an id, the earlier attempt was forgotten: through an observed deletion, or by a failed return of an attempt that was never observed |
| LimiterRuns.StaleFailure | internal/controller/limiter/limiter.go:300-310 | a failed return frees a slot only of its own attempt, and only if that attempt is still known and was never observed; newer attempts keep theirs |
| LimiterRuns.QueueAlwaysGood | internal/controller/limiter/limiter.go:193-229 | in every run, the queue has unique ids, is sorted and fits the limit |
| LimiterRuns.NothingIsLost | internal/controller/limiter/limiter.go:183-238 | in every run, the id of an accepted job is still queued, or some step took it out of the queue: it admitted it, found it known at a dequeue, cut it behind a full queue of no lower priority, or drained the queue |
| LimiterRuns.FreeWorkerDequeues | internal/controller/limiter/limiter.go:240-287 | if there is work to take, any free worker takes it within three moves of its own, or finds that every queued job is known |
| LimiterRuns.AfterDrain | internal/controller/limiter/limiter.go:330-338 | after Drain, in every continuation: no admission, every poll refused, the queue empty, held attempts only shrink, and every worker move uses up a measure |
| LimiterRuns.DrainEnds | internal/controller/limiter/limiter.go:240-287 | at most four moves per worker remain, and no worker is stuck before it returns |
| LimiterEvents.ObserveMeans | internal/controller/limiter/limiter.go:380-415 | an informer event by what it says: afterwards the id has a slot exactly if its Job is there, not finished, and was not known to be; it is known exactly if its Job is there, and then observed; nobody else is touched; the counter follows the slot, and the workers are woken exactly if it moved |
| LimiterEvents.FinishedStaysFree | internal/controller/limiter/limiter.go:399-406 | in every run, once an event says that a Job is finished or deleted, the attempt it was about never has a slot again |
| LimiterEvents.SlotReleasedIff | internal/controller/limiter/limiter.go:299-311 | in every run, a slot is given back exactly by an event that says its own Job is finished or deleted, or by the error return of the worker that holds its attempt while nobody has seen the Job |
| LimiterEvents.DequeueTakesFirstUnknown | internal/controller/limiter/limiter.go:219-238 | a dequeue takes a job exactly if the limiter is open, with zero for no limit, and some queued id is unknown: then the first such job, everything ahead of it goes, and it alone gets a slot, under a new number |
| LimiterEvents.PollTaken | internal/controller/limiter/limiter.go:183-193 | a poll is taken exactly if its caller is live and the limiter neither drains nor has ended; one that is not changes nothing |
| LimiterEvents.FlagsFollowTheRun | internal/controller/limiter/limiter.go:134-141 | in every run the limiter is stopping, ended or paused exactly as Drain, its context and the last call of Pause said, and no worker returns before one of the first two |
| LimiterEvents.WaitsIff | internal/controller/limiter/limiter.go:240-275 | a worker at the top of its loop waits exactly if the limiter is not stopping and is paused, without a queued job, or full |
| LimiterEvents.ShutWorkersLeave | internal/controller/limiter/limiter.go:265-287 | once the context has ended, no worker takes a job, every move brings it closer to its return, and none is stuck, also on a channel that nobody closes |
| LimiterEvents.NewSettles | internal/controller/limiter/limiter.go:78-104 | what a limiter runs with when a number was not given: 25 workers, a million queued jobs, no limit in flight |
| CreateJob.JobReferencesSecret | internal/controller/scheduler/scheduler.go:426-438 | the loop finds a token reference in the agent container exactly if there is one |
| Cluster.RecognisedIff | internal/controller/scheduler/scheduler.go:290-293 | which Jobs are adopted: same non-empty UUID label, same controller label or none, stored, and with an agent container that takes its token from the annotated Secret |
| Cluster.ControlledIff | internal/controller/scheduler/scheduler.go:440-443 | a Secret is a Job's exactly if its first controlling owner is that Job, by name, kind and UID |
| Cluster.AmbiguousIff | internal/controller/scheduler/scheduler.go:408-417 | exactly timeouts and errors without an API status leave open whether a create was applied |
| CreateJob.FirstStatusIsFirst | internal/controller/scheduler/scheduler.go:402-417 | an error tree is classified by the first API status in it |
| CreateJob.AskedForIsOwn | internal/controller/scheduler/scheduler.go:309-340 | the Secret asked for is adopted later with its own token and no other, exactly if the Job has a UUID label |
| CreateJob.ReconcileCreatedJob | internal/controller/scheduler/scheduler.go:278-307 | at most five looks and nothing else, at least one in a live context; returns the first Job of verified identity; fails with what the last look met, early only on another Job, a permanent error or an ended context |
| CreateJob.AdoptTokenSecret | internal/controller/scheduler/scheduler.go:330-342 | one look: adopts the Secret exactly if it is this Job's, immutable, and holds this token; any other Secret there, and a permanent error, is final |
| CreateJob.AttemptTokenSecret | internal/controller/scheduler/scheduler.go:322-343 | one create, and a look when it fails: done exactly if an answer shows the Secret, which is then this Job's, immutable, and holds this token |
| CreateJob.ReconcileTokenSecret | internal/controller/scheduler/scheduler.go:309-354 | at most ten calls, all about the Secret; succeeds exactly with the first answer that shows it in place, also when the answer to its create was lost; gives up early only after a final answer or in an ended context |
| CreateJob.RetryKubernetesDelete | internal/controller/scheduler/scheduler.go:380-400 | at most five deletes of that object, each under its own UID, at least one in a live context; without an error the object is gone, an error means that the server answered with one other than "absent", or that the context ended; gives up early only on a conflict, a permanent error or an ended context |
| CreateJob.CleanupSecret | internal/controller/scheduler/scheduler.go:360-371 | one read; deletes nothing if it finds a Secret that is not the Job's, and asks to delete the Job's own; whatever others do meanwhile, no error then means that every Secret written for the Job is gone, and an error that the server answered with one or the context ended |
| CreateJob.RelabelledIsForeign | internal/controller/scheduler/scheduler.go:363 | a Secret written for the Job and relabelled since is left alone exactly if its labels no longer identify the Job |
| CreateJob.CleanupIncompleteJob | internal/controller/scheduler/scheduler.go:356-378 | removes at most that Secret and that Job, and asks to delete the Job whatever became of the Secret; whatever others do, no error means that the Job is gone, and every Secret written for it too unless the last read found it not to be the Job's; an error means that the server answered with one, or the context ended |
| CreateJob.RecoverAndCleanUp | internal/controller/scheduler/scheduler.go:257-263 | a second round of looks, only to remove the Job that passes: what it vouches for is what it asks to delete, last |
| CreateJob.FindOrRemove | internal/controller/scheduler/scheduler.go:245-266 | after an ambiguous answer: the Job found by a first round of looks is used, one found by a second is removed; without either, the looks were used up, or met an error, an ended context or another Job of the name |
| CreateJob.ObtainJob | internal/controller/scheduler/scheduler.go:239-267 | an answered create gives its Job, a refused one its error at once; after an ambiguous answer it looks, and the Job it finds is used or removed; it ends with neither only if a context ended, the last look was final, or after two full rounds of five |
| CreateJob.SecretOrCleanup | internal/controller/scheduler/scheduler.go:272-275 | either the Secret is in place, or Job and Secret are cleaned up as above, with the errors reported; this covers every Secret its own creates stored, answered or not |
| CreateJob.CleanupKeepsOthers | internal/controller/scheduler/scheduler.go:356-378 | cleaning up a Job changes nobody else's objects |
| CreateJob.CleanupRemovesWritten | internal/controller/scheduler/scheduler.go:356-371 | without interference, a cleanup without errors removes the Secret a create stored, answered or not, exactly if the Job has a UUID label |
| CreateJob.CreateJob | internal/controller/scheduler/scheduler.go:238-276 | success means that a Job of the intended identity was returned or verified and that its own immutable Secret holds the token, and without interference that this Job is the live one; it fails only if a create was answered with an error or the context ended; at most 27 calls; every delete is guarded by, and removes only, the UID of a returned or verified object; whatever others do, a cleanup without errors leaves neither the Job nor a Secret written for it, unless its last read found that Secret not to be the Job's; without interference others' objects stay as they were. An answer that settles the create is passed on at once; an ambiguous one is followed by a look for the Job; on failure every Job that the server handed out or showed to be the expected one is the one that was asked to be deleted, last; and an ambiguous create alone is no failure: besides it a context ended, another call was answered with an error, or another Job has the name |
| Reserver.ActiveIds | internal/controller/reserver/reserver.go:122-132 | everybody still waiting is asked for, in order, and nobody who had given up before |
| Reserver.Reserve | internal/controller/reserver/reserver.go:122-145 | one call, or none if all contexts had ended; every caller gets one answer in a send that cannot block, and it says "reserved" exactly if the call succeeded and the response holds its id anywhere; the deadline, read from the clock before the call, grants the whole lifetime by the server's rule and is no later than the server's own end, whenever the server began |
| Reserver.SendAnswers | internal/controller/reserver/reserver.go:141-144 | everybody in the batch is answered once, and told the truth about its own id |
| Reserver.Correlation | internal/controller/reserver/reserver.go:141-144 | a caller reads "reserved" exactly if the call succeeded and some position of the response holds its id |
| Reserver.AnswerPermutes | internal/controller/reserver/reserver.go:141-144 | the order of the response makes no difference to anyone |
| Issuer.Correlation | internal/controller/jatissuer/jatissuer.go:164-185 | a request succeeds with a token exactly if the call had no error and its response names the UUID once, with that non-empty token, and does not withhold it |
| Issuer.RefusalKinds | internal/controller/jatissuer/jatissuer.go:164-185 | a request fails because the call failed, exactly if it did, and otherwise because its id was not granted a token |
| Issuer.AnswerPermutes | internal/controller/jatissuer/jatissuer.go:164-178 | the order of the response's lists makes no difference to anyone |
| Issuer.BuildTokens | internal/controller/jatissuer/jatissuer.go:164-178 | the map that is filled in a loop reads as the token granted to each UUID |
| Issuer.CompactActive | internal/controller/jatissuer/jatissuer.go:141-149 | compacting the batch in its own array keeps live requests, in order, and none whose context had ended before, though contexts end meanwhile |
| Issuer.Attempt | internal/controller/jatissuer/jatissuer.go:136-163 | an attempt makes one call, for a subsequence of what was in the batch, and none if nobody waits any more |
| Issuer.Round | internal/controller/jatissuer/jatissuer.go:136-163 | a round ends the retry only if the stage's context ended, which is a failure, nobody waits, or its call needs no other |
| Issuer.Ask | internal/controller/jatissuer/jatissuer.go:123-163 | the calls of a batch: only transient failures are followed by another, each for a subsequence of the ids before; the outcome is the last call's, or a failure once the stage's context ended, unless nobody waits |
| Issuer.Issue | internal/controller/jatissuer/jatissuer.go:108-186 | every caller has one answer, by UUID from the last call's response, a failure once the stage's context ended, or an ended context of its own; no send blocks; every retry asks for a subsequence of the call before; whoever had given up before is asked for in no call and, once a call was made, gets no answer |
| Issuer.SendAnswers | internal/controller/jatissuer/jatissuer.go:164-185 | the requests left in the batch are answered once each, by UUID |
| Batching.KeepIsSubsequence | internal/controller/jatissuer/jatissuer.go:141-149 | leaving requests out keeps the order of the ids |
| Deduper.Deduper.Casa | internal/controller/deduper/deduper.go:209-222 | changes the mark if it differs, reports whether it did and how many are left; marks and unmarks alternate |
| Deduper.Deduper.Begin | internal/controller/deduper/deduper.go:71-84 | a job is handed on exactly if it was not marked, and is marked afterwards |
| Deduper.Deduper.End | internal/controller/deduper/deduper.go:95-120 | only an error that is not about a duplicate takes the mark off |
| Deduper.Deduper.OnAdd | internal/controller/deduper/deduper.go:124-159 | only Jobs of the initial list are marked by an event |
| Deduper.Deduper.OnDelete | internal/controller/deduper/deduper.go:171-202 | a deleted Job loses its mark |
| Deduper.UnmarkBetweenMarks | internal/controller/deduper/deduper.go:203-222 | between two marks of a UUID lies an unmark |
| Deduper.MarkedIff | internal/controller/deduper/deduper.go:209-222 | a UUID is marked exactly if a mark was set and none was taken off since |
| Deduper.AlternatesNext | internal/controller/deduper/deduper.go:209-222 | a change that differs from the current mark keeps marks and unmarks alternating |
| Pipeline.StepInv | internal/controller/controller.go:254-263 | every step of limiter, reserver, issuer, deduper, scheduler or events keeps the pipeline invariant |
| Pipeline.CallInv | internal/controller/reserver/reserver.go:133-140 | while a reservation call is under way and time passes, the end worked out before asking stays no later than any the server can come to |
| Pipeline.PipelineSafety | internal/controller/controller.go:254-263 | the scheduler is handed a job only from an admitted attempt for it, after an error-free reservation listed its id, with a deadline no later than the end the server worked out from the time it began, and with tokens enabled after a token was granted to that very id |
| Pipeline.HandOffsSeparated | internal/controller/deduper/deduper.go:71-121 | hand-offs come from different attempts, each with its own mark, and two hand-offs of one UUID have an unmark between their marks |
| Pipeline.AskTakesTheWaiting | internal/controller/reserver/reserver.go:122-140 | a call is made for exactly those of the batch who wait, unless nobody does, and counts the lifetime from before it |
| Pipeline.ListedGoesOn | internal/controller/reserver/reserver.go:62-91 | a waiting attempt goes on, to the issuer or the deduper, exactly if the call succeeded, its id is anywhere in the response and its context has not ended; otherwise it returns a failure |
| Pipeline.GrantedGoesOn | internal/controller/jatissuer/jatissuer.go:53-77 | a waiting attempt goes on with its token exactly if the call granted its id one and its context has not ended; otherwise it returns a failure |
| Pipeline.HandedOnIffUnmarked | internal/controller/deduper/deduper.go:71-94 | the deduper hands a job on exactly if its id parses to an unmarked UUID, which is then marked; no other mark moves |
| Pipeline.SchedulerReports | internal/controller/deduper/deduper.go:95-121 | the limiter is told of a failure unless the scheduler succeeded; the mark goes exactly on an error that is not about a duplicate |
| Pipeline.HandlerHasItsCall | internal/controller/limiter/limiter.go:282-311 | in every run a worker in the next handler has a call under way, for its own job |
| Pipeline.ReturnGivesBack | internal/controller/limiter/limiter.go:299-311 | in every run a call that went well leaves the limiter as it was, and one that failed gives back the slot of its own attempt, exactly if nobody has seen its Job, and no other |
| SubPathExpr.RuneSize | internal/controller/scheduler/scheduler.go:1256-1258 | a rune is skipped within bounds, and what follows its first octet are continuation octets |
| SubPathExpr.ReadToken | internal/controller/scheduler/scheduler.go:1237-1260 | the cursor strictly advances and stays within the expression |
| SubPathExpr.TokenAgrees | internal/controller/scheduler/scheduler.go:1231-1260 | one token stands for exactly the variable reads of the octets it covers: skipping a rune and jumping to the end at an open reference miss none |
| SubPathExpr.DependsIffRead | internal/controller/scheduler/scheduler.go:1216-1229 | an expansion differs between two values of a variable, whatever the others are, exactly if it reads the variable |
| SubPathExpr.ExpandSyntax | internal/controller/scheduler/scheduler.go:1231-1260 | the expansion piece by piece: $(name) is the value, $$ one dollar, and any other octet, a dollar in front of it and an open reference stand for themselves |
| SubPathExpr.UnreadDoesNotMatter | internal/controller/scheduler/scheduler.go:1216-1229 | environments that differ only in a variable that is not read give the same expansion |
| SubPathExpr.SubPathExprExpandsPodName | internal/controller/scheduler/scheduler.go:1216-1229 | true exactly if the expansion can differ between two values of POD_NAME |
| ImageCheck.SelectImagesToCheck | internal/controller/scheduler/imagecheck.go:37-132 | the checks, the invalid references and, in place, the containers' own policies; what those are is SelectedIsStrongest, InvalidRefsAreReported and RewrittenContainer |
| ImageCheck.SelectedIsStrongest | internal/controller/scheduler/imagecheck.go:98-128 | every app image is checked, with the strongest nominal policy of the containers that use it |
| ImageCheck.InvalidRefsAreReported | internal/controller/scheduler/imagecheck.go:44-48 | exactly the containers whose image cannot be read are reported |
| ImageCheck.RewrittenContainer | internal/controller/scheduler/imagecheck.go:71-92 | a container keeps its own policy, else takes the configured pull policy, else the default for its image, except that Always becomes IfNotPresent exactly if its image is checked with Always too |
| ImageCheck.CullCheckForExisting | internal/controller/scheduler/imagecheck.go:142-172 | a check goes exactly if a valid existing init container of the image has at least its preference |
| ImageCheck.MakeImageCheckContainers | internal/controller/scheduler/imagecheck.go:174-234 | in any order of the map: one container per check, with its policy, and no name twice |
| ImageCheck.PlanInitContainers | internal/controller/scheduler/scheduler.go:931-980 | the init containers in front of the user's, exactly if no reference is invalid; otherwise every invalid one is reported |
| ImageCheck.Coverage | internal/controller/scheduler/scheduler.go:933-980 | unless checks are skipped, each app image is used by an init container that pulls at least as eagerly as its strongest nominal policy |
| ImageCheck.CoveredAsAsked | internal/controller/scheduler/imagecheck.go:50-70 | some init container pulls the image at least as eagerly as every container that uses it asks for, by its own policy, else the check policy, else the pull policy, else the default for the image |
| ImageCheck.ChecksAsAsked | internal/controller/scheduler/imagecheck.go:94-128 | every check does what some app container of its image asks for, and none of them asks for more |
| ImageCheck.DefaultsFollowThePin | internal/controller/scheduler/scheduler.go:1522-1531 | when no policy is given anywhere, an unpinned image is always pulled by some init container, and a check of a pinned one has IfNotPresent |
| ImageCheck.SetupContainer | internal/controller/scheduler/scheduler.go:1345-1347 | the container that sets up the workspace uses the agent's image with the configured pull policy or the default for it |
| ImageCheck.NoRedundantCheck | internal/controller/scheduler/imagecheck.go:134-141 | a check is added only if it is stronger than every existing init container of that image |
| ImageCheck.DowngradeIsMadeUpFor | internal/controller/scheduler/imagecheck.go:80-92 | an init container always pulls the image of a container downgraded from Always, exactly if checks are not skipped or an existing one does so |
| ImageCheck.SkippingLosesThePull | internal/controller/scheduler/scheduler.go:974-977 | with checks skipped a container is downgraded although nothing pulls its image |
| SidecarDeadline.CeilSeconds | internal/controller/scheduler/completions.go:249 | the least whole number of seconds that covers the time |
| SidecarDeadline.Deadline | internal/controller/scheduler/completions.go:243-257 | never above an existing deadline; otherwise the least that leaves the grace period from the start and min(grace, 10) seconds after the exit |
| SidecarDeadline.SettledStays | internal/controller/scheduler/completions.go:243-257 | a Job with the right deadline keeps it right while others lower it or start the Job, and for every later exit |
| SidecarDeadline.NeverRises | internal/controller/scheduler/completions.go:157-175 | over every run of cleanups and other writers the deadline never rises |
| SidecarDeadline.WritesIff | internal/controller/scheduler/completions.go:162-170 | a cleanup writes exactly if no deadline is stored, or a later one than it asks for |
| SidecarDeadline.ReplayWritesIff | internal/controller/scheduler/completions.go:162-170 | a replay right after a cleanup writes again exactly if it asks for less than that cleanup stored |
| SidecarDeadline.RecordsWrite | internal/controller/scheduler/completions.go:157-175 | in every run of cleanups and other writers, a cleanup writes exactly if it asks for less than the Job had at first and than everything asked for before |
| SidecarDeadline.WritesOnceIff | internal/controller/scheduler/completions.go:157-175 | a run writes the Job at most once exactly if no two of its cleanups are such records |
| SidecarDeadline.ReplaysWriteOnce | internal/controller/scheduler/completions.go:157-175 | so replays of the same or later exits write the Job at most once |
| SidecarDeadline.EarlierExitWritesAgain | internal/controller/scheduler/completions.go:157-175 | two replays that write twice: an earlier exit seen later |
| SidecarDeadline.JobStore.TryOnce | internal/controller/scheduler/completions.go:157-173 | one read-modify-write under the version that was read; it fails only when a call does |
| SidecarDeadline.JobStore.CleanupSidecars | internal/controller/scheduler/completions.go:147-181 | over conflicts and other writers: the deadline never rises, at most one write, which lowers it; without an error the Job is settled or gone; a conflict is tried again up to four times, any other error is not |
| SidecarDeadline.OnPod | internal/controller/scheduler/completions.go:117-145 | only a pod that is not over, whose agent has exited and with another container running, has its Job touched; its deadline then counts from that exit |
| SidecarDeadline.AgentTerminationIsFirstExit | internal/controller/scheduler/completions.go:259-272 | the agent has exited exactly if some status of its container says so, and the first that does counts |
| SidecarDeadline.CleanupNeededIff | internal/controller/scheduler/completions.go:117-145 | a pod is cleaned up exactly if it is pending or running, its agent has exited, and another container has not |
| SidecarDeadline.OnUpdate | internal/controller/scheduler/completions.go:97-107 | only the update that first shows the agent's exit has the Job touched |
| CancelChecker.HasPod | internal/controller/scheduler/job_watcher.go:304-320 | true exactly if some counter of the Job saw a pod |
| CancelChecker.StepInv | internal/controller/scheduler/batch_buildkite_job_checker.go:96-219 | every interleaving of the handlers' sections, polls and answers keeps the table's invariant |
| CancelChecker.PodTargetMeansPending | internal/controller/scheduler/pod_watcher.go:192-242 | in every run, a pod target means that the job's last pod event was Pending |
| CancelChecker.PodTargetIsNotReplaced | internal/controller/scheduler/batch_buildkite_job_checker.go:166-178 | while a job stays registered, nothing turns its pod target into a Job target |
| CancelChecker.DeletesWereRegistered | internal/controller/scheduler/batch_buildkite_job_checker.go:96-155 | a poll deletes only what was registered for that job when the poll started |
| CancelChecker.DropsAreJustified | internal/controller/scheduler/batch_buildkite_job_checker.go:186-219 | a poll drops a registration only after its delete succeeded or found nothing, or when the job is past cancelling here |
| CancelChecker.RegistrationsAreReported | internal/controller/scheduler/job_watcher.go:173-180 | in every run, a registered Job comes from an event of an unfinished Job that showed no pod in any counter, and a registered pod from an event of a pending pod |
| CancelChecker.JobEventTakesEffect | internal/controller/scheduler/job_watcher.go:153-183 | a Job event, whatever happens between its sections: ignored, or unfinished with a pod, it does nothing; finished, it unregisters; otherwise it registers the Job unless a pod is registered by then |
| CancelChecker.PodEventTakesEffect | internal/controller/scheduler/pod_watcher.go:192-242 | a pod event, whatever happens between its sections: not pending any more, it unregisters at once; pending, it registers the pod unless the job is ignored when the handler looks |
| CancelChecker.GoneTakesEffect | internal/controller/scheduler/pod_watcher.go:146-168 | a deleted object's job is neither registered nor ignored any more |
| CancelChecker.PollTakesAll | internal/controller/scheduler/batch_buildkite_job_checker.go:96-112 | a poll looks at everything registered, once the one before is done with |
| CancelChecker.AnswerActs | internal/controller/scheduler/batch_buildkite_job_checker.go:186-219 | an answer leads to a delete of the polled target exactly if the job is cancelled, and to a drop exactly if that did not fail or the job is past cancelling here |
| CancelChecker.DropActs | internal/controller/scheduler/batch_buildkite_job_checker.go:180-184 | a drop takes off the job's registration and no other |
| CancelChecker.DropTakesWhatThePollSaw | internal/controller/scheduler/batch_buildkite_job_checker.go:96-219 | in every run, a registration that a poll drops is the last one made, and it is the one the poll saw exactly if nothing was registered for the job since the poll started; then it has the target the poll acted on |
| CancelChecker.DropAfterPoll | internal/controller/scheduler/batch_buildkite_job_checker.go:96-219 | from any state in which a poll starts: a drop takes the target the poll saw exactly if the last registration in between, if any, has that target |
| CancelChecker.LateRegistrationIsDropped | internal/controller/scheduler/batch_buildkite_job_checker.go:200-206 | a run in which a poll that found the Job gone drops the pod that registered meanwhile |
| Watchers.BatchBuildkiteJobChecker.AddK8sJob | internal/controller/scheduler/batch_buildkite_job_checker.go:166-178 | a Job target never replaces a pod target |
| Watchers.BatchBuildkiteJobChecker.ForcefullyDelete | internal/controller/scheduler/pod_watcher.go:485-547 | one delete; an absent object counts as deleted |
| Watchers.BatchBuildkiteJobChecker.HandleJobState | internal/controller/scheduler/batch_buildkite_job_checker.go:186-219 | deletes once and only for a cancelled job; the registration goes exactly if that did not fail or the job is past cancelling here |
| Watchers.PodWatcher.RunChecks | internal/controller/scheduler/pod_watcher.go:192-242 | a pod event does to the table and the ignored set what the run's steps do: it unregisters a pod that is not pending, and registers a pending one unless the job is ignored |
| Watchers.PodWatcher.OnDelete | internal/controller/scheduler/pod_watcher.go:146-168 | a deleted pod is no longer registered or ignored |
| Watchers.JobWatcher.RunChecks | internal/controller/scheduler/job_watcher.go:153-183 | a Job event does to the table and the ignored set what the run's steps do: an unfinished Job registers its job exactly if no counter shows a pod and no pod is registered, a finished one unregisters it, an ignored one does neither |
| Watchers.JobWatcher.OnDelete | internal/controller/scheduler/job_watcher.go:131-151 | a deleted Job is no longer registered or ignored |

## Left out

- CreateJob.CreateJob: that the intended Job is the live one, and that others' objects stay as they were, is promised without interference, since others may replace any object at any time; what this call itself removes is bounded with interference too.
- Issuer.Ask: the retry goes on as long as somebody waits; the model stops it after any given number of rounds, which is a parameter.
- Pipeline.PipelineSafety: a call's context deadline is recorded, not enforced; that a context ends at its deadline is the library's part.
- Pipeline.HandOffsSeparated: speaks of marks and unmarks only, because a mark has no attempt identity: a late failure can take off a later mark.
- Limiter.Limiter.LoopTop: the worker's endless loop itself is the program counter of LimiterSpec; its wait and its handler call are steps there, not a Dafny loop.
- The goroutines that collect a batch for at most ten milliseconds: Reserver and Issuer start from a collected batch.
- Splitting a cancellation poll into concurrent chunks of 1000 ids, and answers for ids that were not asked for.
- A Job watcher without a checker, which then registers nothing.
- Stalled-Job reaping, image pull failure and pending timeout watching: their own timers and remote calls.
- Building the pod: environment, volumes, labels, scripts, patches, and the containers that get POD_NAME.
- What the scheduler does with the errors of createJob beyond returning them.
- The Monitor, configuration, API clients, metrics, logs and messages.
- A Job whose start time is reset by suspending and resuming it.
