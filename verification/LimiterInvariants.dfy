/** What every limiter run keeps: slot accounting, capacity, the queue invariant
    and the history of attempts. */
module LimiterInvariants {
  import opened Options
  import opened JobQueue
  import opened LimiterSpec

  // ---- Definitions -------------------------------------------------------

  /** The ids that occupy a slot. */
  ghost function Occupying(jobs: map<string, Entry>): set<string> {
    set id | id in jobs && !jobs[id].finished
  }

  ghost function AdmittedSlots(jobs: map<string, Entry>): set<string> {
    set id | id in jobs && !jobs[id].finished && jobs[id].admitted
  }

  ghost function ForeignSlots(jobs: map<string, Entry>): set<string> {
    set id | id in jobs && !jobs[id].finished && !jobs[id].admitted
  }

  /** Whether attempt a occupies a slot. */
  ghost predicate Holds(jobs: map<string, Entry>, a: nat) {
    exists id :: id in jobs && jobs[id].attempt == a && !jobs[id].finished
  }

  function Occupations(log: seq<Event>, a: nat): nat {
    if log == [] then 0
    else Occupations(log[..|log| - 1], a) + (if log[|log| - 1].Occupied? && log[|log| - 1].attempt == a then 1 else 0)
  }

  function Vacations(log: seq<Event>, a: nat): nat {
    if log == [] then 0
    else Vacations(log[..|log| - 1], a) + (if log[|log| - 1].Vacated? && log[|log| - 1].attempt == a then 1 else 0)
  }

  /** Slots occupied minus slots vacated over a whole history. */
  function Balance(log: seq<Event>): int {
    if log == [] then 0
    else Balance(log[..|log| - 1])
         + (if log[|log| - 1].Occupied? then 1 else if log[|log| - 1].Vacated? then -1 else 0)
  }

  ghost predicate Accounting(s: Shared) {
    && s.inFlight == |Occupying(s.jobs)|
    && (forall id :: id in s.jobs ==> s.jobs[id].attempt < s.nextAttempt)
    && (forall id, other :: id in s.jobs && other in s.jobs && s.jobs[id].attempt == s.jobs[other].attempt ==> id == other)
  }

  ghost predicate FinishedImpliesObserved(s: Shared) {
    forall id :: id in s.jobs && s.jobs[id].finished ==> s.jobs[id].observed
  }

  ghost predicate WithinCapacity(cfg: Config, s: Shared) {
    cfg.maxInFlight > 0 ==> |AdmittedSlots(s.jobs)| <= cfg.maxInFlight
  }

  /** Every attempt occupies a slot at most once and has vacated it exactly when it
      no longer holds it. */
  ghost predicate SlotHistory(s: Shared) {
    && s.inFlight == Balance(s.log)
    && (forall a: nat :: Occupations(s.log, a) <= (if a < s.nextAttempt then 1 else 0))
    && (forall a: nat :: Occupations(s.log, a) == Vacations(s.log, a) + (if Holds(s.jobs, a) then 1 else 0))
  }

  /** The log entries about observation and removal agree with the entries. */
  ghost predicate ObservationHistory(s: Shared) {
    && (forall e :: e in s.log ==> e.attempt < s.nextAttempt)
    && (forall id :: id in s.jobs ==> (s.jobs[id].observed <==> Observed(id, s.jobs[id].attempt) in s.log))
    && (forall e, id :: e in s.log && e.Forgotten? && id in s.jobs ==> s.jobs[id].attempt != e.attempt)
    && (forall e :: e in s.log && e.Forgotten? && !e.deleted ==> Observed(e.id, e.attempt) !in s.log)
  }

  /** Attempt a of id has left the limiter's memory after position i of the log. */
  ghost predicate ForgottenAfter(log: seq<Event>, i: int, id: string, a: nat) {
    exists k :: 0 <= i < k < |log| && log[k].Forgotten? && log[k].id == id && log[k].attempt == a
  }

  ghost predicate IsAdmission(e: Event) {
    e.Occupied? && e.admitted
  }

  /** Between two admissions of one id, the earlier attempt was forgotten. */
  ghost predicate AdmissionHistory(s: Shared) {
    && (forall i :: 0 <= i < |s.log| && IsAdmission(s.log[i]) ==>
          || (s.log[i].id in s.jobs && s.jobs[s.log[i].id].attempt == s.log[i].attempt)
          || ForgottenAfter(s.log, i, s.log[i].id, s.log[i].attempt))
    && ReadmissionsGuarded(s.log)
  }

  ghost predicate ReadmissionsGuarded(log: seq<Event>) {
    forall i, j :: 0 <= i < j < |log| && IsAdmission(log[i]) && IsAdmission(log[j]) && log[i].id == log[j].id ==>
      exists k :: i < k < j && log[k].Forgotten? && log[k].id == log[i].id && log[k].attempt == log[i].attempt
  }

  ghost predicate QueueInv(cfg: Config, s: Shared) {
    GoodQueue(s.queue, cfg.workQueueLimit) && (s.stopping ==> s.queue == [])
  }

  ghost predicate SharedInv(cfg: Config, s: Shared) {
    && Accounting(s)
    && FinishedImpliesObserved(s)
    && WithinCapacity(cfg, s)
    && SlotHistory(s)
    && ObservationHistory(s)
    && AdmissionHistory(s)
    && QueueInv(cfg, s)
  }

  // ---- Counting ----------------------------------------------------------

  lemma CountLast(log: seq<Event>, e: Event)
    ensures Balance(log + [e]) == Balance(log) + (if e.Occupied? then 1 else if e.Vacated? then -1 else 0)
    ensures forall a: nat :: Occupations(log + [e], a) == Occupations(log, a) + (if e.Occupied? && e.attempt == a then 1 else 0)
    ensures forall a: nat :: Vacations(log + [e], a) == Vacations(log, a) + (if e.Vacated? && e.attempt == a then 1 else 0)
  {
    assert (log + [e])[..|log|] == log;
  }

  /** Appending an event that is not an admission keeps the admission history of
      every attempt that stays where it was. */
  lemma AppendKeepsGuard(log: seq<Event>, e: Event)
    requires ReadmissionsGuarded(log) && !IsAdmission(e)
    ensures ReadmissionsGuarded(log + [e])
    ensures forall i, id, a :: ForgottenAfter(log, i, id, a) ==> ForgottenAfter(log + [e], i, id, a)
  {
    var l := log + [e];
    forall i, j | 0 <= i < j < |l| && IsAdmission(l[i]) && IsAdmission(l[j]) && l[i].id == l[j].id
      ensures exists k :: i < k < j && l[k].Forgotten? && l[k].id == l[i].id && l[k].attempt == l[i].attempt
    {
      assert l[i] == log[i] && l[j] == log[j];
      var k :| i < k < j && log[k].Forgotten? && log[k].id == log[i].id && log[k].attempt == log[i].attempt;
      assert l[k] == log[k];
    }
    forall i, id, a | ForgottenAfter(log, i, id, a) ensures ForgottenAfter(l, i, id, a) {
      var k :| 0 <= i < k < |log| && log[k].Forgotten? && log[k].id == id && log[k].attempt == a;
      assert l[k] == log[k];
    }
  }

  // ---- The primitive changes ---------------------------------------------

  /** What a change of the entries must keep: everything except the capacity bound,
      the queue and "finished implies observed", which only whole steps keep. */
  ghost predicate History(s: Shared) {
    Accounting(s) && SlotHistory(s) && ObservationHistory(s) && AdmissionHistory(s)
  }

  /** History reads only the entries, the counters and the log. */
  lemma HistoryFrame(s: Shared, t: Shared)
    requires History(s)
    requires t.jobs == s.jobs && t.inFlight == s.inFlight && t.nextAttempt == s.nextAttempt && t.log == s.log
    ensures History(t)
  {
  }

  lemma BeginAccounting(s: Shared, id: string, admitted: bool, finished: bool)
    requires Accounting(s) && id !in s.jobs
    ensures Accounting(Begin(s, id, admitted, finished))
  {
    var t := Begin(s, id, admitted, finished);
    assert Occupying(t.jobs) == if finished then Occupying(s.jobs) else Occupying(s.jobs) + {id};
  }

  lemma BeginHolds(s: Shared, id: string, admitted: bool, finished: bool, a: nat)
    requires id !in s.jobs
    ensures Holds(Begin(s, id, admitted, finished).jobs, a) <==> Holds(s.jobs, a) || (a == s.nextAttempt && !finished)
  {
    var t := Begin(s, id, admitted, finished);
    if Holds(s.jobs, a) {
      var o :| o in s.jobs && s.jobs[o].attempt == a && !s.jobs[o].finished;
      assert t.jobs[o] == s.jobs[o];
    }
    if a == s.nextAttempt && !finished { assert t.jobs[id].attempt == a; }
  }

  /** The count of one attempt after one more event. */
  lemma CountOne(log: seq<Event>, e: Event, a: nat)
    ensures Occupations(log + [e], a) == Occupations(log, a) + (if e.Occupied? && e.attempt == a then 1 else 0)
    ensures Vacations(log + [e], a) == Vacations(log, a) + (if e.Vacated? && e.attempt == a then 1 else 0)
  {
    CountLast(log, e);
  }

  lemma BeginCounts(s: Shared, id: string, admitted: bool, finished: bool, a: nat)
    requires Accounting(s) && SlotHistory(s) && id !in s.jobs
    ensures var t := Begin(s, id, admitted, finished);
            && Occupations(t.log, a) <= (if a < t.nextAttempt then 1 else 0)
            && Occupations(t.log, a) == Vacations(t.log, a) + (if Holds(t.jobs, a) then 1 else 0)
  {
    BeginHolds(s, id, admitted, finished, a);
    NotYetHeld(s);
    CountOne(s.log, Occupied(id, s.nextAttempt, admitted), a);
    assert Occupations(s.log, a) <= if a < s.nextAttempt then 1 else 0;
  }

  lemma BeginSlots(s: Shared, id: string, admitted: bool, finished: bool)
    requires Accounting(s) && SlotHistory(s) && id !in s.jobs
    ensures SlotHistory(Begin(s, id, admitted, finished))
  {
    CountLast(s.log, Occupied(id, s.nextAttempt, admitted));
    forall a: nat { BeginCounts(s, id, admitted, finished, a); }
  }

  lemma NotYetHeld(s: Shared)
    requires Accounting(s)
    ensures !Holds(s.jobs, s.nextAttempt)
  {
  }

  lemma BeginObservations(s: Shared, id: string, admitted: bool, finished: bool)
    requires ObservationHistory(s) && id !in s.jobs
    ensures ObservationHistory(Begin(s, id, admitted, finished))
  {
  }

  /** An admission of an id that has no entry comes after every earlier attempt was forgotten. */
  lemma AppendAdmission(log: seq<Event>, e: Event)
    requires ReadmissionsGuarded(log) && e.Occupied?
    requires IsAdmission(e) ==> forall i :: 0 <= i < |log| && IsAdmission(log[i]) && log[i].id == e.id ==> ForgottenAfter(log, i, log[i].id, log[i].attempt)
    ensures ReadmissionsGuarded(log + [e])
  {
    var l := log + [e];
    forall i, j | 0 <= i < j < |l| && IsAdmission(l[i]) && IsAdmission(l[j]) && l[i].id == l[j].id
      ensures exists k :: i < k < j && l[k].Forgotten? && l[k].id == l[i].id && l[k].attempt == l[i].attempt
    {
      assert l[i] == log[i];
      if j < |log| {
        assert l[j] == log[j];
        var k :| i < k < j && log[k].Forgotten? && log[k].id == log[i].id && log[k].attempt == log[i].attempt;
        assert l[k] == log[k];
      } else {
        assert ForgottenAfter(log, i, log[i].id, log[i].attempt);
        var k :| 0 <= i < k < |log| && log[k].Forgotten? && log[k].id == log[i].id && log[k].attempt == log[i].attempt;
        assert l[k] == log[k];
      }
    }
  }

  lemma ForgottenStays(log: seq<Event>, e: Event, i: int, id: string, a: nat)
    requires ForgottenAfter(log, i, id, a)
    ensures ForgottenAfter(log + [e], i, id, a)
  {
    var k :| 0 <= i < k < |log| && log[k].Forgotten? && log[k].id == id && log[k].attempt == a;
    assert (log + [e])[k] == log[k];
  }

  lemma BeginAdmissions(s: Shared, id: string, admitted: bool, finished: bool)
    requires AdmissionHistory(s) && id !in s.jobs
    ensures AdmissionHistory(Begin(s, id, admitted, finished))
  {
    var t := Begin(s, id, admitted, finished);
    if finished {
      assert t.log == s.log;
      forall i | 0 <= i < |t.log| && IsAdmission(t.log[i])
        ensures (t.log[i].id in t.jobs && t.jobs[t.log[i].id].attempt == t.log[i].attempt)
             || ForgottenAfter(t.log, i, t.log[i].id, t.log[i].attempt)
      {
      }
    } else {
      var e := Occupied(id, s.nextAttempt, admitted);
      AppendAdmission(s.log, e);
      forall i | 0 <= i < |t.log| && IsAdmission(t.log[i])
        ensures (t.log[i].id in t.jobs && t.jobs[t.log[i].id].attempt == t.log[i].attempt)
             || ForgottenAfter(t.log, i, t.log[i].id, t.log[i].attempt)
      {
        if i < |s.log| {
          assert t.log[i] == s.log[i];
          if ForgottenAfter(s.log, i, s.log[i].id, s.log[i].attempt) {
            ForgottenStays(s.log, e, i, s.log[i].id, s.log[i].attempt);
          }
        }
      }
    }
  }

  lemma BeginHistory(s: Shared, id: string, admitted: bool, finished: bool)
    requires History(s) && id !in s.jobs
    ensures History(Begin(s, id, admitted, finished))
  {
    BeginAccounting(s, id, admitted, finished);
    BeginSlots(s, id, admitted, finished);
    BeginObservations(s, id, admitted, finished);
    BeginAdmissions(s, id, admitted, finished);
  }

  /** Entries change only in their flags: positions and attempts stay. */
  ghost predicate SameAttempts(jobs: map<string, Entry>, jobs': map<string, Entry>) {
    jobs.Keys == jobs'.Keys && forall id :: id in jobs ==> jobs[id].attempt == jobs'[id].attempt
  }

  lemma FlagsKeepAdmissions(s: Shared, t: Shared, e: Event)
    requires AdmissionHistory(s) && SameAttempts(s.jobs, t.jobs) && t.log == s.log + [e] && !e.Occupied?
    ensures AdmissionHistory(t)
  {
    AppendKeepsGuard(s.log, e);
    forall i | 0 <= i < |t.log| && IsAdmission(t.log[i])
      ensures (t.log[i].id in t.jobs && t.jobs[t.log[i].id].attempt == t.log[i].attempt)
           || ForgottenAfter(t.log, i, t.log[i].id, t.log[i].attempt)
    {
      assert t.log[i] == s.log[i];
    }
  }

  lemma MarkObservedSlots(s: Shared, id: string)
    requires Accounting(s) && SlotHistory(s) && id in s.jobs
    ensures Accounting(MarkObserved(s, id)) && SlotHistory(MarkObserved(s, id))
  {
    var t := MarkObserved(s, id);
    assert Occupying(t.jobs) == Occupying(s.jobs);
    CountLast(s.log, Observed(id, s.jobs[id].attempt));
    forall a: nat ensures Holds(t.jobs, a) <==> Holds(s.jobs, a) { SameHolds(s.jobs, t.jobs, a); }
  }

  /** Which attempts hold a slot does not depend on whether they were observed. */
  lemma SameHolds(jobs: map<string, Entry>, jobs': map<string, Entry>, a: nat)
    requires SameAttempts(jobs, jobs') && forall id :: id in jobs ==> jobs[id].finished == jobs'[id].finished
    ensures Holds(jobs, a) <==> Holds(jobs', a)
  {
    if Holds(jobs, a) {
      var o :| o in jobs && jobs[o].attempt == a && !jobs[o].finished;
      assert o in jobs' && jobs'[o].attempt == a && !jobs'[o].finished;
    }
    if Holds(jobs', a) {
      var o :| o in jobs' && jobs'[o].attempt == a && !jobs'[o].finished;
      assert o in jobs && jobs[o].attempt == a && !jobs[o].finished;
    }
  }

  lemma MarkObservedObservations(s: Shared, id: string)
    requires Accounting(s) && ObservationHistory(s) && id in s.jobs
    ensures ObservationHistory(MarkObserved(s, id))
  {
    var t := MarkObserved(s, id);
    var e := Observed(id, s.jobs[id].attempt);
    assert forall x :: x in t.log <==> x in s.log || x == e;
  }

  lemma MarkObservedHistory(s: Shared, id: string)
    requires History(s) && id in s.jobs
    ensures History(MarkObserved(s, id))
  {
    MarkObservedSlots(s, id);
    MarkObservedObservations(s, id);
    FlagsKeepAdmissions(s, MarkObserved(s, id), Observed(id, s.jobs[id].attempt));
  }

  /** id's entry stops occupying its slot: it is finished or gone, all others stay. */
  ghost predicate StopsHolding(s: Shared, t: Shared, id: string) {
    && id in s.jobs && !s.jobs[id].finished
    && (forall o :: o != id ==> (o in s.jobs <==> o in t.jobs) && (o in s.jobs ==> t.jobs[o] == s.jobs[o]))
    && (id in t.jobs ==> t.jobs[id] == s.jobs[id].(finished := true))
    && t.nextAttempt == s.nextAttempt && t.inFlight == s.inFlight - 1
  }

  lemma VacateAccounting(s: Shared, t: Shared, id: string)
    requires Accounting(s) && StopsHolding(s, t, id)
    ensures Accounting(t)
  {
    assert Occupying(t.jobs) == Occupying(s.jobs) - {id};
  }

  lemma VacateHolds(s: Shared, t: Shared, id: string, a: nat)
    requires Accounting(s) && StopsHolding(s, t, id)
    ensures Holds(t.jobs, a) <==> Holds(s.jobs, a) && a != s.jobs[id].attempt
    ensures Holds(s.jobs, s.jobs[id].attempt)
  {
  }

  lemma VacateSlots(s: Shared, t: Shared, id: string)
    requires Accounting(s) && SlotHistory(s) && StopsHolding(s, t, id)
    requires t.log == s.log + [Vacated(id, s.jobs[id].attempt)]
    ensures SlotHistory(t)
  {
    CountLast(s.log, Vacated(id, s.jobs[id].attempt));
    forall a: nat
      ensures Occupations(t.log, a) == Vacations(t.log, a) + (if Holds(t.jobs, a) then 1 else 0)
    {
      VacateHolds(s, t, id, a);
      assert Occupations(s.log, a) == Vacations(s.log, a) + (if Holds(s.jobs, a) then 1 else 0);
    }
    forall a: nat ensures Occupations(t.log, a) <= (if a < t.nextAttempt then 1 else 0) {
      assert Occupations(t.log, a) == Occupations(s.log, a);
    }
  }

  lemma FinishHistory(s: Shared, id: string)
    requires History(s) && id in s.jobs && !s.jobs[id].finished
    ensures History(Finish(s, id))
  {
    var t := Finish(s, id);
    VacateAccounting(s, t, id);
    VacateSlots(s, t, id);
    FinishObservations(s, id);
    FlagsKeepAdmissions(s, t, Vacated(id, s.jobs[id].attempt));
  }

  lemma FinishObservations(s: Shared, id: string)
    requires Accounting(s) && ObservationHistory(s) && id in s.jobs
    ensures ObservationHistory(Finish(s, id))
  {
  }

  lemma ForgetAdmissions(s: Shared, id: string, deleted: bool)
    requires AdmissionHistory(s) && id in s.jobs
    ensures AdmissionHistory(Forget(s, id, deleted))
  {
    var t := Forget(s, id, deleted);
    var e := Forgotten(id, s.jobs[id].attempt, deleted);
    AppendKeepsGuard(s.log, e);
    forall i | 0 <= i < |t.log| && IsAdmission(t.log[i])
      ensures (t.log[i].id in t.jobs && t.jobs[t.log[i].id].attempt == t.log[i].attempt)
           || ForgottenAfter(t.log, i, t.log[i].id, t.log[i].attempt)
    {
      assert t.log[i] == s.log[i];
      assert t.log[|s.log|] == e;
    }
  }

  /** Dropping an entry that no longer occupies a slot. */
  lemma ForgetHistory(s: Shared, id: string, deleted: bool)
    requires History(s) && id in s.jobs && s.jobs[id].finished && deleted
    ensures History(Forget(s, id, deleted))
  {
    var t := Forget(s, id, deleted);
    assert Occupying(t.jobs) == Occupying(s.jobs);
    CountLast(s.log, Forgotten(id, s.jobs[id].attempt, deleted));
    forall a: nat ensures Holds(t.jobs, a) <==> Holds(s.jobs, a) {
      if Holds(s.jobs, a) {
        var o :| o in s.jobs && s.jobs[o].attempt == a && !s.jobs[o].finished;
        assert o in t.jobs && t.jobs[o].attempt == a && !t.jobs[o].finished;
      }
    }
    ForgetAdmissions(s, id, deleted);
  }

  /** Releasing the slot of an attempt nobody observed. */
  lemma ReleaseHistory(s: Shared, id: string)
    requires History(s) && id in s.jobs && !s.jobs[id].finished && !s.jobs[id].observed
    ensures History(HandlerFailed(s, id, s.jobs[id].attempt))
  {
    var attempt := s.jobs[id].attempt;
    var t := HandlerFailed(s, id, attempt);
    var mid := s.(inFlight := s.inFlight - 1, log := s.log + [Vacated(id, attempt)]);
    var gone := t.(log := mid.log);
    VacateAccounting(s, gone, id);
    VacateSlots(s, gone, id);
    CountLast(mid.log, Forgotten(id, attempt, false));
    ReleaseObservations(s, id);
    FlagsKeepAdmissions(s, mid, Vacated(id, attempt));
    ForgetAdmissions(mid, id, false);
  }

  lemma ReleaseObservations(s: Shared, id: string)
    requires Accounting(s) && ObservationHistory(s) && id in s.jobs && !s.jobs[id].observed
    ensures ObservationHistory(HandlerFailed(s, id, s.jobs[id].attempt))
  {
    var t := HandlerFailed(s, id, s.jobs[id].attempt);
    var a := s.jobs[id].attempt;
    assert forall o :: o in t.jobs ==> o in s.jobs && o != id && t.jobs[o] == s.jobs[o];
    assert t.log == s.log + [Vacated(id, a), Forgotten(id, a, false)];
    assert forall e :: e in t.log <==> e in s.log || e == Vacated(id, a) || e == Forgotten(id, a, false);
    assert Observed(id, a) !in s.log;
  }

  // ---- The mutex sections ------------------------------------------------

  lemma DropTwice(q: seq<Job>, n: nat)
    requires 0 < n <= |q|
    ensures q[1..][n - 1..] == q[n..]
  {
  }

  /** What SkipKnown leaves out: the first n jobs, all of them known. */
  lemma {:induction false} SkipKnownSuffix(q: seq<Job>, jobs: map<string, Entry>) returns (n: nat)
    ensures n <= |q| && SkipKnown(q, jobs) == q[n..]
    ensures forall i :: 0 <= i < n ==> q[i].id in jobs
  {
    n := 0;
    if q != [] && q[0].id in jobs {
      var m := SkipKnownSuffix(q[1..], jobs);
      n := m + 1;
      DropTwice(q, n);
      forall i | 0 <= i < n ensures q[i].id in jobs {
        if i > 0 { assert q[1..][i - 1].id in jobs; }
      }
    }
  }

  lemma PollInv(cfg: Config, s: Shared, callerDone: bool, jobs: seq<Job>)
    requires SharedInv(cfg, s)
    ensures SharedInv(cfg, HandleMany(cfg, s, callerDone, jobs).0)
  {
    EnqueuedGood(s.queue, jobs, cfg.workQueueLimit);
  }

  lemma TryDequeueQueue(cfg: Config, s: Shared)
    requires QueueInv(cfg, s)
    ensures QueueInv(cfg, TryDequeue(cfg, s).0)
  {
    var n := SkipKnownSuffix(s.queue, s.jobs);
  }

  lemma TryDequeueInv(cfg: Config, s: Shared)
    requires SharedInv(cfg, s)
    ensures SharedInv(cfg, TryDequeue(cfg, s).0)
  {
    TryDequeueQueue(cfg, s);
    if TryDequeue(cfg, s).1.Some? {
      var q := SkipKnown(s.queue, s.jobs);
      AdmitInv(cfg, s, q);
    }
  }

  lemma AdmitInv(cfg: Config, s: Shared, q: seq<Job>)
    requires History(s) && FinishedImpliesObserved(s) && WithinCapacity(cfg, s)
    requires !AtCapacity(cfg, s) && q != [] && q[0].id !in s.jobs
    ensures var t := Begin(s.(queue := q[1..]), q[0].id, true, false);
            History(t) && FinishedImpliesObserved(t) && WithinCapacity(cfg, t)
  {
    var u := s.(queue := q[1..]);
    HistoryFrame(s, u);
    BeginHistory(u, q[0].id, true, false);
    AdmitCapacity(cfg, s, q[0].id);
  }

  lemma AdmitCapacity(cfg: Config, s: Shared, id: string)
    requires Accounting(s) && !AtCapacity(cfg, s) && id !in s.jobs
    ensures WithinCapacity(cfg, Begin(s, id, true, false))
  {
    assert AdmittedSlots(Begin(s, id, true, false).jobs) == AdmittedSlots(s.jobs) + {id};
    if cfg.maxInFlight > 0 { CapacityLeft(cfg, s); }
  }

  lemma CapacityLeft(cfg: Config, s: Shared)
    requires Accounting(s) && cfg.maxInFlight > 0 && s.inFlight < cfg.maxInFlight
    ensures |AdmittedSlots(s.jobs)| < cfg.maxInFlight
  {
    SubsetSize(AdmittedSlots(s.jobs), Occupying(s.jobs));
  }

  lemma {:induction false} SubsetSize<T>(a: set<T>, b: set<T>)
    requires a <= b
    ensures |a| <= |b|
  {
    if a != {} {
      var x :| x in a;
      SubsetSize(a - {x}, b - {x});
    }
  }

  lemma SightedHistory(s: Shared, id: string, finished: bool)
    requires History(s)
    ensures History(Sighted(s, id, finished))
  {
    if id in s.jobs {
      MarkObservedHistory(s, id);
    } else {
      BeginHistory(s, id, false, finished);
      MarkObservedHistory(Begin(s, id, false, finished), id);
    }
  }

  lemma ConcludedHistory(s: Shared, id: string, finished: bool, deleted: bool)
    requires History(s) && id in s.jobs
    ensures History(Concluded(s, id, finished, deleted))
  {
    if !s.jobs[id].finished && (deleted || finished) {
      FinishHistory(s, id);
      if deleted { ForgetHistory(Finish(s, id), id, true); }
    } else if deleted {
      ForgetHistory(s, id, true);
    }
  }

  lemma ObserveHistory(s: Shared, id: string, finished: bool, deleted: bool)
    requires History(s)
    ensures History(Observe(s, id, finished, deleted))
  {
    if id == "" || (id !in s.jobs && deleted) {
      assert Observe(s, id, finished, deleted) == s;
    } else {
      var t := ConcludedSighting(s, id, finished, deleted);
      NotifiedHistory(t, Observe(s, id, finished, deleted));
    }
  }

  lemma ConcludedSighting(s: Shared, id: string, finished: bool, deleted: bool) returns (t: Shared)
    requires History(s)
    ensures History(t) && t == Concluded(Sighted(s, id, finished), id, finished, deleted)
  {
    t := Concluded(Sighted(s, id, finished), id, finished, deleted);
    SightedHistory(s, id, finished);
    ConcludedHistory(Sighted(s, id, finished), id, finished, deleted);
  }

  lemma NotifiedHistory(s: Shared, t: Shared)
    requires History(s) && (t == s || t == Notify(s))
    ensures History(t)
  {
    HistoryFrame(s, t);
  }

  lemma ObserveEntries(s: Shared, id: string, finished: bool, deleted: bool)
    ensures FinishedImpliesObserved(s) ==> FinishedImpliesObserved(Observe(s, id, finished, deleted))
    ensures AdmittedSlots(Observe(s, id, finished, deleted).jobs) <= AdmittedSlots(s.jobs)
  {
  }

  lemma ObserveInv(cfg: Config, s: Shared, id: string, finished: bool, deleted: bool)
    requires SharedInv(cfg, s)
    ensures SharedInv(cfg, Observe(s, id, finished, deleted))
  {
    ObserveHistory(s, id, finished, deleted);
    ObserveEntries(s, id, finished, deleted);
    SubsetSize(AdmittedSlots(Observe(s, id, finished, deleted).jobs), AdmittedSlots(s.jobs));
  }

  lemma HandlerFailedInv(cfg: Config, s: Shared, id: string, attempt: nat)
    requires SharedInv(cfg, s)
    ensures SharedInv(cfg, HandlerFailed(s, id, attempt))
  {
    if id in s.jobs && s.jobs[id].attempt == attempt && !s.jobs[id].observed {
      ReleaseHistory(s, id);
      SubsetSize(AdmittedSlots(HandlerFailed(s, id, attempt).jobs), AdmittedSlots(s.jobs));
    }
  }
}
