/** The limiter's work queue: keep-first deduplication, the stable sort by
    descending priority, and the cut to the work queue limit. */
module JobQueue {

  /** One job as Buildkite reported it. Two polls may report the same id with
      different times, so records with equal ids need not be equal. */
  datatype Job = Job(id: string, priority: int, queriedAt: int)

  // ---- Specification -----------------------------------------------------

  predicate HasId(q: seq<Job>, id: string) {
    exists i :: 0 <= i < |q| && q[i].id == id
  }

  ghost predicate UniqueIds(q: seq<Job>) {
    forall i, j :: 0 <= i < j < |q| ==> q[i].id != q[j].id
  }

  /** Descending priority. */
  ghost predicate Sorted(q: seq<Job>) {
    forall i, j :: 0 <= i < j < |q| ==> q[i].priority >= q[j].priority
  }

  /** The first record of each id, in order of first appearance. */
  function Dedup(s: seq<Job>): seq<Job> {
    if s == [] then []
    else
      var front, x := s[..|s| - 1], s[|s| - 1];
      if HasId(front, x.id) then Dedup(front) else Dedup(front) + [x]
  }

  /** Puts x behind every job whose priority is not lower, scanning from the back. */
  function InsertStable(q: seq<Job>, x: Job): seq<Job> {
    if q == [] || q[|q| - 1].priority >= x.priority then q + [x]
    else InsertStable(q[..|q| - 1], x) + [q[|q| - 1]]
  }

  function StableSort(s: seq<Job>): seq<Job> {
    if s == [] then [] else InsertStable(StableSort(s[..|s| - 1]), s[|s| - 1])
  }

  function Cut(q: seq<Job>, limit: nat): seq<Job> {
    if |q| <= limit then q else q[..limit]
  }

  /** The queue HandleMany leaves behind. */
  function Enqueued(queue: seq<Job>, jobs: seq<Job>, limit: nat): seq<Job> {
    Cut(StableSort(Dedup(queue + jobs)), limit)
  }

  /** The jobs of one priority, in order. */
  function OfPriority(s: seq<Job>, p: int): seq<Job> {
    if s == [] then []
    else OfPriority(s[..|s| - 1], p) + (if s[|s| - 1].priority == p then [s[|s| - 1]] else [])
  }

  /** r and s have the same jobs of every priority, in the same order. */
  ghost predicate SamePerPriority(r: seq<Job>, s: seq<Job>) {
    forall p :: OfPriority(r, p) == OfPriority(s, p)
  }

  /** Every id carries one priority throughout s. */
  ghost predicate OnePriorityPerId(s: seq<Job>) {
    forall i, j :: 0 <= i < |s| && 0 <= j < |s| && s[i].id == s[j].id ==> s[i].priority == s[j].priority
  }

  /** The queue invariant kept by every limiter step. */
  ghost predicate GoodQueue(q: seq<Job>, limit: nat) {
    UniqueIds(q) && Sorted(q) && |q| <= limit
  }

  // ---- Deduplication -----------------------------------------------------

  lemma HasIdSnoc(s: seq<Job>, id: string)
    requires s != []
    ensures HasId(s, id) <==> HasId(s[..|s| - 1], id) || s[|s| - 1].id == id
  {
  }

  lemma HasIdPrefix(s: seq<Job>, n: nat, id: string)
    requires n <= |s|
    ensures HasId(s[..n], id) ==> HasId(s, id)
  {
  }

  /** Position of the first record with the given id. */
  ghost function FirstIndex(s: seq<Job>, id: string): (i: nat)
    requires HasId(s, id)
    ensures i < |s| && s[i].id == id
    ensures forall j :: 0 <= j < i ==> s[j].id != id
  {
    if HasId(s[..|s| - 1], id) then FirstIndex(s[..|s| - 1], id) else |s| - 1
  }

  lemma {:induction false} DedupIds(s: seq<Job>, id: string)
    ensures HasId(Dedup(s), id) <==> HasId(s, id)
  {
    if s != [] {
      var front, x := s[..|s| - 1], s[|s| - 1];
      DedupIds(front, id);
      HasIdSnoc(s, id);
      if !HasId(front, x.id) {
        assert Dedup(s)[..|Dedup(s)| - 1] == Dedup(front);
        HasIdSnoc(Dedup(s), id);
      }
    }
  }

  /** Deduplication keeps exactly the first record of each id, in order of first
      appearance: these clauses leave one possible result. */
  lemma {:induction false} DedupKeepsFirst(s: seq<Job>)
    ensures forall id :: HasId(Dedup(s), id) <==> HasId(s, id)
    ensures forall i :: 0 <= i < |Dedup(s)| ==>
              HasId(s, Dedup(s)[i].id) && Dedup(s)[i] == s[FirstIndex(s, Dedup(s)[i].id)]
    ensures forall i, j :: 0 <= i < j < |Dedup(s)| ==>
              FirstIndex(s, Dedup(s)[i].id) < FirstIndex(s, Dedup(s)[j].id)
  {
    forall id { DedupIds(s, id); }
    if s != [] {
      var front, x := s[..|s| - 1], s[|s| - 1];
      DedupKeepsFirst(front);
      forall id | HasId(front, id)
        ensures HasId(s, id) && FirstIndex(s, id) == FirstIndex(front, id)
      {
        assert s[FirstIndex(front, id)].id == id;
      }
    }
  }

  lemma DedupUnique(s: seq<Job>)
    ensures UniqueIds(Dedup(s))
  {
    DedupKeepsFirst(s);
  }

  lemma {:induction false} DedupElements(s: seq<Job>, x: Job)
    requires x in Dedup(s)
    ensures x in s
  {
    if x !in Dedup(s[..|s| - 1]) {
      assert x == s[|s| - 1];
    } else {
      DedupElements(s[..|s| - 1], x);
    }
  }

  lemma HasIdOf(s: seq<Job>, x: Job)
    requires x in s
    ensures HasId(s, x.id)
  {
    var i :| 0 <= i < |s| && s[i] == x;
  }

  lemma RecordOf(s: seq<Job>, id: string) returns (was: Job)
    requires HasId(s, id)
    ensures was in Dedup(s) && was.id == id
  {
    DedupIds(s, id);
    var k :| 0 <= k < |Dedup(s)| && Dedup(s)[k].id == id;
    was := Dedup(s)[k];
  }

  lemma HasIdAppend(s: seq<Job>, t: seq<Job>, id: string)
    ensures HasId(s + t, id) <==> HasId(s, id) || HasId(t, id)
  {
    if HasId(s, id) {
      var i :| 0 <= i < |s| && s[i].id == id;
      assert (s + t)[i].id == id;
    }
    if HasId(t, id) {
      var i :| 0 <= i < |t| && t[i].id == id;
      assert (s + t)[|s| + i].id == id;
    }
  }

  lemma DedupNext(s: seq<Job>, j: nat)
    requires j < |s|
    ensures Dedup(s[..j + 1]) == if HasId(s[..j], s[j].id) then Dedup(s[..j]) else Dedup(s[..j]) + [s[j]]
    ensures forall id :: HasId(s[..j + 1], id) <==> HasId(s[..j], id) || s[j].id == id
  {
    assert s[..j + 1][..j] == s[..j];
    forall id ensures HasId(s[..j + 1], id) <==> HasId(s[..j], id) || s[j].id == id {
      HasIdSnoc(s[..j + 1], id);
    }
  }

  lemma PutNext(b: seq<Job>, i: nat, x: Job)
    requires i < |b|
    ensures b[i := x][..i + 1] == b[..i] + [x]
  {
  }

  /** The slice compaction used by HandleMany: after it, a[..n] is the deduplicated slice. */
  method InPlaceDedup(a: array<Job>) returns (n: nat)
    modifies a
    ensures n <= a.Length
    ensures a[..n] == Dedup(old(a[..]))
  {
    ghost var was := a[..];
    var ids: set<string> := {};
    n := 0;
    for j := 0 to a.Length
      invariant n <= j && a[..n] == Dedup(was[..j])
      invariant forall k :: j <= k < a.Length ==> a[k] == was[k]
      invariant forall id :: id in ids <==> HasId(was[..j], id)
    {
      var job := a[j];
      DedupNext(was, j);
      if job.id in ids {
        continue;
      }
      ids := ids + {job.id};
      ghost var b := a[..];
      if n != j {
        a[n] := job;
      }
      assert a[..] == b[n := job];
      PutNext(b, n, job);
      n := n + 1;
    }
    assert was[..a.Length] == was;
  }

  // ---- The stable sort ---------------------------------------------------

  lemma {:induction false} OfPriorityElements(s: seq<Job>, p: int, x: Job)
    ensures x in OfPriority(s, p) <==> x in s && x.priority == p
  {
    if s != [] {
      OfPriorityElements(s[..|s| - 1], p, x);
      assert s == s[..|s| - 1] + [s[|s| - 1]];
    }
  }

  lemma {:induction false} InsertStableElements(q: seq<Job>, x: Job)
    ensures |InsertStable(q, x)| == |q| + 1
    ensures forall y :: y in InsertStable(q, x) <==> y in q || y == x
  {
    if q != [] && q[|q| - 1].priority < x.priority {
      InsertStableElements(q[..|q| - 1], x);
      assert q == q[..|q| - 1] + [q[|q| - 1]];
    }
  }

  lemma {:induction false} InsertStableSorted(q: seq<Job>, x: Job)
    requires Sorted(q)
    ensures Sorted(InsertStable(q, x))
  {
    if q != [] && q[|q| - 1].priority < x.priority {
      var front, last := q[..|q| - 1], q[|q| - 1];
      InsertStableSorted(front, x);
      InsertStableElements(front, x);
      var r := InsertStable(front, x);
      forall i | 0 <= i < |r| ensures r[i].priority >= last.priority {
        assert r[i] in r;
      }
    }
  }

  lemma {:induction false} InsertStableOrder(q: seq<Job>, x: Job, p: int)
    ensures OfPriority(InsertStable(q, x), p) == OfPriority(q, p) + (if x.priority == p then [x] else [])
  {
    if q == [] || q[|q| - 1].priority >= x.priority {
      assert (q + [x])[..|q|] == q;
    } else {
      var front, last := q[..|q| - 1], q[|q| - 1];
      InsertStableOrder(front, x, p);
      var r := InsertStable(front, x);
      assert (r + [last])[..|r|] == r;
    }
  }

  lemma {:induction false} StableSortFacts(s: seq<Job>)
    ensures |StableSort(s)| == |s|
    ensures Sorted(StableSort(s))
    ensures forall x :: x in StableSort(s) <==> x in s
    ensures SamePerPriority(StableSort(s), s)
  {
    if s != [] {
      var front, x := s[..|s| - 1], s[|s| - 1];
      StableSortFacts(front);
      InsertStableElements(StableSort(front), x);
      InsertStableSorted(StableSort(front), x);
      forall p ensures OfPriority(StableSort(s), p) == OfPriority(s, p) {
        InsertStableOrder(StableSort(front), x, p);
        assert OfPriority(StableSort(front), p) == OfPriority(front, p);
      }
      assert s == front + [x];
    }
  }

  /** In two sorted sequences with the same jobs per priority, nothing in t ranks
      below r's last job. */
  lemma LastIsLowest(r: seq<Job>, t: seq<Job>, y: Job)
    requires Sorted(r) && SamePerPriority(r, t) && y in t
    ensures r != [] && r[|r| - 1].priority <= y.priority
  {
    OfPriorityElements(t, y.priority, y);
    assert OfPriority(r, y.priority) == OfPriority(t, y.priority);
    OfPriorityElements(r, y.priority, y);
  }

  lemma SameWithoutLast(r: seq<Job>, t: seq<Job>)
    requires Sorted(r) && Sorted(t) && SamePerPriority(r, t) && r != [] && t != []
    ensures r[|r| - 1] == t[|t| - 1]
    ensures SamePerPriority(r[..|r| - 1], t[..|t| - 1])
  {
    var a, b := r[|r| - 1], t[|t| - 1];
    var front, rest := r[..|r| - 1], t[..|t| - 1];
    LastIsLowest(r, t, b);
    LastIsLowest(t, r, a);
    assert OfPriority(r, a.priority) == OfPriority(t, a.priority);
    assert OfPriority(r, a.priority) == OfPriority(front, a.priority) + [a];
    assert OfPriority(t, a.priority) == OfPriority(rest, a.priority) + [b];
    assert a == OfPriority(r, a.priority)[|OfPriority(front, a.priority)|];
    forall p ensures OfPriority(front, p) == OfPriority(rest, p) {
      assert OfPriority(r, p) == OfPriority(t, p);
      if p == a.priority {
        assert OfPriority(front, p) == OfPriority(r, p)[..|OfPriority(r, p)| - 1];
      } else {
        assert OfPriority(front, p) == OfPriority(r, p);
      }
    }
  }

  /** A sorted sequence is determined by its jobs of each priority, in order. */
  lemma {:induction false} SortedDetermined(r: seq<Job>, t: seq<Job>)
    requires Sorted(r) && Sorted(t) && SamePerPriority(r, t)
    ensures r == t
    decreases |r|
  {
    if r != [] {
      LastIsLowest(t, r, r[|r| - 1]);
      SameWithoutLast(r, t);
      SortedDetermined(r[..|r| - 1], t[..|t| - 1]);
      assert r == r[..|r| - 1] + [r[|r| - 1]] && t == t[..|t| - 1] + [t[|t| - 1]];
    } else if t != [] {
      LastIsLowest(r, t, t[0]);
    }
  }

  /** StableSort(s) is the one sorted sequence that keeps, for every priority, the
      jobs of that priority in the order s has them. */
  lemma StableSortIsTheStableSort(s: seq<Job>, r: seq<Job>)
    ensures r == StableSort(s) <==> Sorted(r) && SamePerPriority(r, s)
  {
    StableSortFacts(s);
    if Sorted(r) && SamePerPriority(r, s) {
      SortedDetermined(r, StableSort(s));
    }
  }

  // ---- HandleMany's queue ------------------------------------------------

  lemma {:induction false} InsertStableIds(q: seq<Job>, x: Job, id: string)
    ensures HasId(InsertStable(q, x), id) <==> HasId(q, id) || id == x.id
  {
    var r := InsertStable(q, x);
    if q == [] || q[|q| - 1].priority >= x.priority {
      assert r[..|r| - 1] == q;
      HasIdSnoc(r, id);
    } else {
      InsertStableIds(q[..|q| - 1], x, id);
      assert r[..|r| - 1] == InsertStable(q[..|q| - 1], x);
      HasIdSnoc(r, id);
      HasIdSnoc(q, id);
    }
  }

  lemma {:induction false} InsertStableUnique(q: seq<Job>, x: Job)
    requires UniqueIds(q) && !HasId(q, x.id)
    ensures UniqueIds(InsertStable(q, x))
  {
    if q != [] && q[|q| - 1].priority < x.priority {
      var front, last := q[..|q| - 1], q[|q| - 1];
      HasIdSnoc(q, x.id);
      InsertStableUnique(front, x);
      InsertStableIds(front, x, last.id);
      assert !HasId(front, last.id);
    }
  }

  lemma {:induction false} StableSortUnique(s: seq<Job>)
    requires UniqueIds(s)
    ensures UniqueIds(StableSort(s))
    ensures forall id :: HasId(StableSort(s), id) <==> HasId(s, id)
  {
    if s != [] {
      var front, x := s[..|s| - 1], s[|s| - 1];
      StableSortUnique(front);
      assert !HasId(front, x.id);
      InsertStableUnique(StableSort(front), x);
      forall id ensures HasId(StableSort(s), id) <==> HasId(s, id) {
        InsertStableIds(StableSort(front), x, id);
        HasIdSnoc(s, id);
      }
    }
  }

  lemma CutElements(q: seq<Job>, limit: nat, x: Job)
    ensures x in Cut(q, limit) ==> x in q
    ensures Sorted(q) && x in q && x !in Cut(q, limit) ==>
              |Cut(q, limit)| == limit && forall y :: y in Cut(q, limit) ==> x.priority <= y.priority
  {
  }

  /** What HandleMany leaves: no id twice, descending priority, within the limit;
      only jobs queued or handed in; and a job is lost only when the queue is full
      of jobs of no lower priority. */
  lemma EnqueuedGood(queue: seq<Job>, jobs: seq<Job>, limit: nat)
    ensures GoodQueue(Enqueued(queue, jobs, limit), limit)
    ensures forall x :: x in Enqueued(queue, jobs, limit) ==> x in Dedup(queue + jobs) && x in queue + jobs
    ensures forall x :: x in Dedup(queue + jobs) && x !in Enqueued(queue, jobs, limit) ==>
              |Enqueued(queue, jobs, limit)| == limit &&
              forall y :: y in Enqueued(queue, jobs, limit) ==> x.priority <= y.priority
  {
    var d := Dedup(queue + jobs);
    DedupUnique(queue + jobs);
    StableSortFacts(d);
    StableSortUnique(d);
    var q := StableSort(d);
    var r := Enqueued(queue, jobs, limit);
    forall x ensures x in r ==> x in d && x in queue + jobs {
      CutElements(q, limit, x);
      if x in r { DedupElements(queue + jobs, x); }
    }
    forall x | x in d && x !in r
      ensures |r| == limit && forall y :: y in r ==> x.priority <= y.priority
    {
      CutElements(q, limit, x);
    }
  }
}
