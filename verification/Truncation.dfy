/** Cutting the queue after every poll: when it leaves the queue that cutting once at the end
    would, and when a job that was cut comes back. */
module Truncation {
  import opened JobQueue

  // ---- Ranks -------------------------------------------------------------

  /** How many jobs of s have at least priority p. */
  function NotLower(s: seq<Job>, p: int): nat {
    if s == [] then 0 else NotLower(s[..|s| - 1], p) + (if s[|s| - 1].priority >= p then 1 else 0)
  }

  predicate Outranks(d: seq<Job>, j: nat, i: nat)
    requires i < |d| && j < |d|
  {
    d[j].priority > d[i].priority || (d[j].priority == d[i].priority && j < i)
  }

  /** How many of the first n records rank ahead of record i: by priority, then by position. */
  function AheadOf(d: seq<Job>, i: nat, n: nat): nat
    requires i < |d| && n <= |d|
  {
    if n == 0 then 0 else AheadOf(d, i, n - 1) + (if Outranks(d, n - 1, i) then 1 else 0)
  }

  function Ahead(d: seq<Job>, i: nat): nat
    requires i < |d|
  {
    AheadOf(d, i, |d|)
  }

  /** In a sorted queue the jobs of at least priority p come first. */
  lemma {:induction false} NotLowerFirst(q: seq<Job>, p: int)
    requires Sorted(q)
    ensures NotLower(q, p) <= |q|
    ensures forall k :: 0 <= k < |q| ==> (k < NotLower(q, p) <==> q[k].priority >= p)
  {
    if q != [] {
      var front := q[..|q| - 1];
      NotLowerFirst(front, p);
      var c := NotLower(front, p);
      assert c < |front| ==> front[c].priority < p;
      forall k | 0 <= k < |front| ensures k < NotLower(q, p) <==> q[k].priority >= p {
        assert q[k] == front[k];
      }
    }
  }

  lemma {:induction false} InsertNotLower(q: seq<Job>, x: Job, p: int)
    ensures NotLower(InsertStable(q, x), p) == NotLower(q, p) + (if x.priority >= p then 1 else 0)
  {
    var r := InsertStable(q, x);
    if q == [] || q[|q| - 1].priority >= x.priority {
      assert r[..|r| - 1] == q;
    } else {
      InsertNotLower(q[..|q| - 1], x, p);
      assert r[..|r| - 1] == InsertStable(q[..|q| - 1], x);
    }
  }

  lemma {:induction false} SortNotLower(s: seq<Job>, p: int)
    ensures NotLower(StableSort(s), p) == NotLower(s, p)
  {
    if s != [] {
      SortNotLower(s[..|s| - 1], p);
      InsertNotLower(StableSort(s[..|s| - 1]), s[|s| - 1], p);
    }
  }

  lemma {:induction false} AheadOfPrefix(d: seq<Job>, i: nat, n: nat)
    requires n < |d| && i < |d| - 1
    ensures AheadOf(d, i, n) == AheadOf(d[..|d| - 1], i, n)
  {
    if n > 0 { AheadOfPrefix(d, i, n - 1); }
  }

  lemma {:induction false} AheadOfLast(d: seq<Job>, i: nat, n: nat)
    requires n <= i < |d|
    ensures AheadOf(d, i, n) == NotLower(d[..n], d[i].priority)
  {
    if n > 0 {
      AheadOfLast(d, i, n - 1);
      assert d[..n][..n - 1] == d[..n - 1];
    }
  }

  /** Where the stable insertion puts the new job, and where it moves the others. */
  lemma {:induction false} InsertPlaces(q: seq<Job>, x: Job)
    requires Sorted(q)
    ensures NotLower(q, x.priority) <= |q| && |InsertStable(q, x)| == |q| + 1
    ensures InsertStable(q, x)[NotLower(q, x.priority)] == x
    ensures forall k :: 0 <= k < |q| ==> InsertStable(q, x)[if q[k].priority < x.priority then k + 1 else k] == q[k]
  {
    NotLowerFirst(q, x.priority);
    if q != [] && q[|q| - 1].priority < x.priority {
      InsertPlaces(q[..|q| - 1], x);
    }
  }

  lemma InsertMoves(q: seq<Job>, x: Job, k: nat)
    requires Sorted(q) && k < |q|
    ensures |InsertStable(q, x)| == |q| + 1
    ensures InsertStable(q, x)[if q[k].priority < x.priority then k + 1 else k] == q[k]
  {
    InsertPlaces(q, x);
  }

  lemma InsertPuts(q: seq<Job>, x: Job)
    requires Sorted(q)
    ensures NotLower(q, x.priority) <= |q| && |InsertStable(q, x)| == |q| + 1
    ensures InsertStable(q, x)[NotLower(q, x.priority)] == x
  {
    InsertPlaces(q, x);
  }

  lemma AheadOfAppend(d: seq<Job>, x: Job, i: nat)
    requires i < |d|
    ensures Ahead(d + [x], i) == Ahead(d, i) + (if d[i].priority < x.priority then 1 else 0)
  {
    assert (d + [x])[..|d|] == d;
    AheadOfPrefix(d + [x], i, |d|);
  }

  lemma AheadOfNew(d: seq<Job>, x: Job)
    ensures Ahead(d + [x], |d|) == NotLower(d, x.priority)
  {
    assert (d + [x])[..|d|] == d;
    AheadOfLast(d + [x], |d|, |d|);
  }

  lemma SortAppend(d: seq<Job>, x: Job)
    ensures StableSort(d + [x]) == InsertStable(StableSort(d), x)
  {
    assert (d + [x])[..|d|] == d;
  }

  /** A record's rank is its place after the stable sort. */
  lemma {:induction false} RankIsPosition(d: seq<Job>, i: nat)
    requires i < |d|
    ensures |StableSort(d)| == |d| && Ahead(d, i) < |d| && StableSort(d)[Ahead(d, i)] == d[i]
    decreases |d|
  {
    var front, x := d[..|d| - 1], d[|d| - 1];
    assert d == front + [x];
    StableSortFacts(front);
    SortAppend(front, x);
    if i < |front| {
      RankIsPosition(front, i);
      AheadOfAppend(front, x, i);
      InsertMoves(StableSort(front), x, Ahead(front, i));
    } else {
      AheadOfNew(front, x);
      SortNotLower(front, x.priority);
      InsertPuts(StableSort(front), x);
    }
  }

  lemma InCutIffBefore(q: seq<Job>, r: nat, limit: nat)
    requires UniqueIds(q) && r < |q|
    ensures q[r] in Cut(q, limit) <==> r < limit
  {
    if r < limit {
      assert Cut(q, limit)[r] == q[r];
    }
    if q[r] in Cut(q, limit) {
      var k :| 0 <= k < |Cut(q, limit)| && Cut(q, limit)[k] == q[r];
      assert q[k] == q[r];
      assert k == r;
    }
  }

  /** A record survives the cut exactly if fewer than `limit` records rank ahead of it. */
  lemma CutKeepsRanks(d: seq<Job>, i: nat, limit: nat)
    requires UniqueIds(d) && i < |d|
    ensures d[i] in Cut(StableSort(d), limit) <==> Ahead(d, i) < limit
  {
    RankIsPosition(d, i);
    StableSortUnique(d);
    InCutIffBefore(StableSort(d), Ahead(d, i), limit);
  }

  // ---- Leaving ids out ---------------------------------------------------

  function Without(s: seq<Job>, out: set<string>): seq<Job> {
    if s == [] then []
    else Without(s[..|s| - 1], out) + (if s[|s| - 1].id in out then [] else [s[|s| - 1]])
  }

  lemma {:induction false} WithoutElements(s: seq<Job>, out: set<string>)
    ensures forall x :: x in Without(s, out) <==> x in s && x.id !in out
  {
    if s != [] {
      WithoutElements(s[..|s| - 1], out);
      assert s == s[..|s| - 1] + [s[|s| - 1]];
    }
  }

  /** No job of s has one of these ids. */
  ghost predicate NoneOf(s: seq<Job>, out: set<string>) {
    forall i :: 0 <= i < |s| ==> s[i].id !in out
  }

  lemma {:induction false} WithoutNothing(s: seq<Job>, out: set<string>)
    requires NoneOf(s, out)
    ensures Without(s, out) == s
  {
    if s != [] {
      WithoutNothing(s[..|s| - 1], out);
      assert s == s[..|s| - 1] + [s[|s| - 1]];
    }
  }

  lemma {:induction false} WithoutAppend(s: seq<Job>, t: seq<Job>, out: set<string>)
    ensures Without(s + t, out) == Without(s, out) + Without(t, out)
    decreases |t|
  {
    if t == [] {
      assert s + t == s;
    } else {
      WithoutAppend(s, t[..|t| - 1], out);
      assert (s + t)[..|s + t| - 1] == s + t[..|t| - 1];
    }
  }

  lemma {:induction false} WithoutSorted(q: seq<Job>, out: set<string>)
    requires Sorted(q)
    ensures Sorted(Without(q, out))
  {
    if q != [] {
      var front, last := q[..|q| - 1], q[|q| - 1];
      WithoutSorted(front, out);
      WithoutElements(front, out);
      var r := Without(front, out);
      forall i | 0 <= i < |r| ensures r[i].priority >= last.priority {
        assert r[i] in r;
      }
    }
  }

  lemma WithoutLast(s: seq<Job>, x: Job, out: set<string>)
    ensures Without(s + [x], out) == if x.id in out then Without(s, out) else Without(s, out) + [x]
  {
    assert (s + [x])[..|s|] == s;
  }

  lemma OfPriorityLast(s: seq<Job>, x: Job, p: int)
    ensures OfPriority(s + [x], p) == if x.priority == p then OfPriority(s, p) + [x] else OfPriority(s, p)
  {
    assert (s + [x])[..|s|] == s;
  }

  lemma {:induction false} WithoutOrder(s: seq<Job>, out: set<string>, p: int)
    ensures OfPriority(Without(s, out), p) == Without(OfPriority(s, p), out)
  {
    if s != [] {
      var front, x := s[..|s| - 1], s[|s| - 1];
      assert s == front + [x];
      WithoutOrder(front, out, p);
      WithoutLast(front, x, out);
      OfPriorityLast(front, x, p);
      OfPriorityLast(Without(front, out), x, p);
      WithoutLast(OfPriority(front, p), x, out);
    }
  }

  lemma SortWithout(s: seq<Job>, out: set<string>)
    ensures StableSort(Without(s, out)) == Without(StableSort(s), out)
  {
    StableSortFacts(s);
    WithoutSorted(StableSort(s), out);
    forall p ensures OfPriority(Without(StableSort(s), out), p) == OfPriority(Without(s, out), p) {
      WithoutOrder(StableSort(s), out, p);
      WithoutOrder(s, out, p);
      assert OfPriority(StableSort(s), p) == OfPriority(s, p);
    }
    StableSortIsTheStableSort(Without(s, out), Without(StableSort(s), out));
  }

  lemma CutPrefix(u: seq<Job>, w: seq<Job>, limit: nat)
    requires |u| == limit
    ensures Cut(u + w, limit) == u
  {
  }

  /** What the cut drops anyway can be left out before. */
  lemma CutWithout(q: seq<Job>, out: set<string>, limit: nat)
    requires NoneOf(Cut(q, limit), out)
    ensures Cut(Without(q, out), limit) == Cut(q, limit)
  {
    var kept := Cut(q, limit);
    WithoutNothing(kept, out);
    if |q| > limit {
      var dropped := q[limit..];
      assert q == kept + dropped;
      WithoutAppend(kept, dropped, out);
      CutPrefix(kept, Without(dropped, out), limit);
    }
  }

  // ---- What a batch adds -------------------------------------------------

  /** The first record of every id of b that s has not. */
  function Fresh(s: seq<Job>, b: seq<Job>): seq<Job> {
    if b == [] then []
    else
      var front, x := b[..|b| - 1], b[|b| - 1];
      Fresh(s, front) + if HasId(s, x.id) || HasId(front, x.id) then [] else [x]
  }

  lemma {:induction false} DedupAppend(s: seq<Job>, b: seq<Job>)
    ensures Dedup(s + b) == Dedup(s) + Fresh(s, b)
    decreases |b|
  {
    if b == [] {
      assert s + b == s;
    } else {
      var front, x := b[..|b| - 1], b[|b| - 1];
      DedupAppend(s, front);
      assert (s + b)[..|s + b| - 1] == s + front && (s + b)[|s + b| - 1] == x;
      HasIdAppend(s, front, x.id);
    }
  }

  lemma {:induction false} DedupSelf(s: seq<Job>)
    requires UniqueIds(s)
    ensures Dedup(s) == s
  {
    if s != [] {
      DedupSelf(s[..|s| - 1]);
      assert !HasId(s[..|s| - 1], s[|s| - 1].id);
    }
  }

  lemma {:induction false} FreshElements(s: seq<Job>, b: seq<Job>)
    ensures forall x :: x in Fresh(s, b) ==> x in b && !HasId(s, x.id)
  {
    if b != [] {
      FreshElements(s, b[..|b| - 1]);
      assert b == b[..|b| - 1] + [b[|b| - 1]];
    }
  }

  /** Fewer known ids let more through: exactly the jobs of the ids that are missing. */
  lemma {:induction false} FreshWithout(s: seq<Job>, first: seq<Job>, b: seq<Job>, out: set<string>)
    requires forall id :: HasId(s, id) <==> HasId(first, id) || id in out
    ensures Without(Fresh(first, b), out) == Fresh(s, b)
  {
    if b != [] {
      var front, x := b[..|b| - 1], b[|b| - 1];
      FreshWithout(s, first, front, out);
      WithoutLast(Fresh(first, front), x, out);
      FreshLast(first, b);
      FreshLast(s, b);
    }
  }

  lemma FreshLast(s: seq<Job>, b: seq<Job>)
    requires b != []
    ensures var front, x := b[..|b| - 1], b[|b| - 1];
            Fresh(s, b) == if HasId(s, x.id) || HasId(front, x.id) then Fresh(s, front) else Fresh(s, front) + [x]
  {
  }

  lemma {:induction false} InsertStableCut(q: seq<Job>, x: Job, limit: nat)
    requires Sorted(q)
    ensures Cut(InsertStable(q, x), limit) == Cut(InsertStable(Cut(q, limit), x), limit)
  {
    InsertStableElements(q, x);
    if |q| > limit {
      var front, last := q[..|q| - 1], q[|q| - 1];
      if last.priority >= x.priority {
        assert InsertStable(q, x)[..limit] == q[..limit];
        assert InsertStable(q[..limit], x) == q[..limit] + [x];
      } else {
        InsertStableCut(front, x, limit);
        InsertStableElements(front, x);
        assert Cut(front, limit) == q[..limit];
        assert InsertStable(q, x)[..limit] == InsertStable(front, x)[..limit];
      }
    }
  }

  lemma SortSorted(q: seq<Job>)
    requires Sorted(q)
    ensures StableSort(q) == q
  {
    StableSortIsTheStableSort(q, q);
  }

  /** Cutting before more jobs are added makes no difference. */
  lemma {:induction false} CutBeforeAdding(p: seq<Job>, f: seq<Job>, limit: nat)
    ensures Cut(StableSort(p + f), limit) == Cut(StableSort(Cut(StableSort(p), limit) + f), limit)
    decreases |f|
  {
    var first := Cut(StableSort(p), limit);
    StableSortFacts(p);
    if f == [] {
      assert p + f == p && first + f == first;
      SortSorted(first);
    } else {
      var front, x := f[..|f| - 1], f[|f| - 1];
      CutBeforeAdding(p, front, limit);
      AddLast(p, f);
      AddLast(first, f);
      StableSortFacts(p + front);
      StableSortFacts(first + front);
      InsertStableCut(StableSort(p + front), x, limit);
      InsertStableCut(StableSort(first + front), x, limit);
    }
  }

  lemma AddLast(p: seq<Job>, f: seq<Job>)
    requires f != []
    ensures StableSort(p + f) == InsertStable(StableSort(p + f[..|f| - 1]), f[|f| - 1])
  {
    assert (p + f)[..|p + f| - 1] == p + f[..|f| - 1] && (p + f)[|p + f| - 1] == f[|f| - 1];
  }

  // ---- Cutting early -----------------------------------------------------

  /** The queue one poll makes of the jobs it finds, queued ones first. */
  function Batch(s: seq<Job>, limit: nat): seq<Job> {
    Cut(StableSort(Dedup(s)), limit)
  }

  /** The id was known when the first poll was cut, and is not any more. */
  predicate WasCut(s: seq<Job>, first: seq<Job>, id: string) {
    HasId(s, id) && !HasId(first, id)
  }

  /** No job that the first poll cut comes back in the second: at least `limit` records rank ahead
      of every one. */
  ghost predicate NobodyReturns(s: seq<Job>, first: seq<Job>, b: seq<Job>, limit: nat) {
    var d := Dedup(first + b);
    forall i: nat :: i < |d| && WasCut(s, first, d[i].id) ==> Ahead(d, i) >= limit
  }

  ghost function CutIds(s: seq<Job>, first: seq<Job>): set<string> {
    set i | 0 <= i < |s| && !HasId(first, s[i].id) :: s[i].id
  }

  lemma CutIdsAreCut(s: seq<Job>, first: seq<Job>, id: string)
    ensures id in CutIds(s, first) <==> WasCut(s, first, id)
  {
  }

  lemma BatchUnique(s: seq<Job>, limit: nat)
    ensures UniqueIds(Batch(s, limit)) && Sorted(Batch(s, limit)) && |Batch(s, limit)| <= limit
  {
    DedupUnique(s);
    StableSortFacts(Dedup(s));
    StableSortUnique(Dedup(s));
  }

  lemma BatchElements(s: seq<Job>, limit: nat, x: Job)
    requires x in Batch(s, limit)
    ensures x in Dedup(s) && x in s
  {
    StableSortFacts(Dedup(s));
    CutElements(StableSort(Dedup(s)), limit, x);
    DedupElements(s, x);
  }

  lemma BatchIds(s: seq<Job>, limit: nat, id: string)
    requires HasId(Batch(s, limit), id)
    ensures HasId(s, id)
  {
    var first := Batch(s, limit);
    var i :| 0 <= i < |first| && first[i].id == id;
    BatchElements(s, limit, first[i]);
    HasIdOf(s, first[i]);
  }

  /** What was cut left a full queue of jobs of no lower priority. */
  lemma CutMeansFull(s: seq<Job>, limit: nat, was: Job)
    requires was in Dedup(s) && !HasId(Batch(s, limit), was.id)
    ensures |Batch(s, limit)| == limit && forall k :: 0 <= k < limit ==> Batch(s, limit)[k].priority >= was.priority
  {
    var q := StableSort(Dedup(s));
    StableSortFacts(Dedup(s));
    if was in Batch(s, limit) { HasIdOf(Batch(s, limit), was); }
    CutElements(q, limit, was);
    forall k | 0 <= k < limit ensures Batch(s, limit)[k].priority >= was.priority {
      assert Batch(s, limit)[k] in Batch(s, limit);
    }
  }

  lemma SecondDedup(first: seq<Job>, b: seq<Job>)
    requires UniqueIds(first)
    ensures Dedup(first + b) == first + Fresh(first, b)
  {
    DedupAppend(first, b);
    DedupSelf(first);
  }

  /** The queue one poll would leave, from the first poll's queue. */
  lemma OnePoll(s: seq<Job>, b: seq<Job>, limit: nat)
    ensures Batch(s + b, limit) == Cut(StableSort(Batch(s, limit) + Fresh(s, b)), limit)
  {
    DedupAppend(s, b);
    CutBeforeAdding(Dedup(s), Fresh(s, b), limit);
  }

  lemma KeptHasNotReturned(s: seq<Job>, first: seq<Job>, b: seq<Job>, limit: nat, x: Job)
    requires NobodyReturns(s, first, b, limit) && x in Batch(first + b, limit)
    ensures !WasCut(s, first, x.id)
  {
    var d := Dedup(first + b);
    DedupUnique(first + b);
    BatchElements(first + b, limit, x);
    var i :| 0 <= i < |d| && d[i] == x;
    CutKeepsRanks(d, i, limit);
  }

  lemma WithoutCutIds(s: seq<Job>, first: seq<Job>, b: seq<Job>)
    requires forall id :: HasId(first, id) ==> HasId(s, id)
    ensures Without(first + Fresh(first, b), CutIds(s, first)) == first + Fresh(s, b)
  {
    var out := CutIds(s, first);
    forall id ensures id in out <==> WasCut(s, first, id) { CutIdsAreCut(s, first, id); }
    forall i | 0 <= i < |first| ensures first[i].id !in out { HasIdOf(first, first[i]); }
    WithoutAppend(first, Fresh(first, b), out);
    WithoutNothing(first, out);
    FreshWithout(s, first, b, out);
  }

  /** If nobody returns, leaving out those who try changes nothing. */
  lemma NobodyReturnsSuffices(s: seq<Job>, b: seq<Job>, limit: nat)
    requires NobodyReturns(s, Batch(s, limit), b, limit)
    ensures Batch(Batch(s, limit) + b, limit) == Batch(s + b, limit)
  {
    var first := Batch(s, limit);
    var d, out := Dedup(first + b), CutIds(s, first);
    BatchUnique(s, limit);
    forall id | HasId(first, id) ensures HasId(s, id) { BatchIds(s, limit, id); }
    var kept := Batch(first + b, limit);
    forall i | 0 <= i < |kept| ensures kept[i].id !in out {
      KeptHasNotReturned(s, first, b, limit, kept[i]);
      CutIdsAreCut(s, first, kept[i].id);
    }
    CutWithout(StableSort(d), out, limit);
    SortWithout(d, out);
    SecondDedup(first, b);
    WithoutCutIds(s, first, b);
    OnePoll(s, b, limit);
  }

  lemma {:induction false} AheadOfCount(d: seq<Job>, i: nat, n: nat)
    requires n <= i < |d| && forall k :: 0 <= k < n ==> d[k].priority >= d[i].priority
    ensures AheadOf(d, i, n) == n
  {
    if n > 0 { AheadOfCount(d, i, n - 1); }
  }

  lemma {:induction false} AheadOfGrows(d: seq<Job>, i: nat, m: nat, n: nat)
    requires i < |d| && m <= n <= |d|
    ensures AheadOf(d, i, m) <= AheadOf(d, i, n)
    decreases n - m
  {
    if m < n { AheadOfGrows(d, i, m, n - 1); }
  }

  /** A record that does not outrank the record of its id that was cut is cut again. */
  lemma CutAgain(s: seq<Job>, b: seq<Job>, limit: nat, i: nat, was: Job)
    requires i < |Dedup(Batch(s, limit) + b)| && was in Dedup(s) && was.id == Dedup(Batch(s, limit) + b)[i].id
    requires Dedup(Batch(s, limit) + b)[i].priority <= was.priority && !HasId(Batch(s, limit), was.id)
    ensures Ahead(Dedup(Batch(s, limit) + b), i) >= limit
  {
    var first := Batch(s, limit);
    var d := Dedup(first + b);
    BatchUnique(s, limit);
    SecondDedup(first, b);
    CutMeansFull(s, limit, was);
    LaterThan(first, d, i);
    AheadOfCount(d, i, limit);
    AheadOfGrows(d, i, limit, |d|);
  }

  lemma LaterThan(first: seq<Job>, d: seq<Job>, i: nat)
    requires first <= d && i < |d| && !HasId(first, d[i].id)
    ensures i >= |first|
  {
  }

  /** One poll can only keep a known id under its old record. */
  lemma OldRecord(s: seq<Job>, b: seq<Job>, limit: nat, x: Job)
    requires x in Batch(s + b, limit) && HasId(s, x.id)
    ensures x in Dedup(s)
  {
    BatchElements(s + b, limit, x);
    DedupAppend(s, b);
    FreshElements(s, b);
    assert x !in Fresh(s, b);
  }

  lemma ReturnMakesADifference(s: seq<Job>, b: seq<Job>, limit: nat, i: nat)
    requires var d := Dedup(Batch(s, limit) + b); i < |d| && WasCut(s, Batch(s, limit), d[i].id) && Ahead(d, i) < limit
    ensures Batch(Batch(s, limit) + b, limit) != Batch(s + b, limit)
  {
    var d := Dedup(Batch(s, limit) + b);
    DedupUnique(Batch(s, limit) + b);
    CutKeepsRanks(d, i, limit);
    if d[i] in Batch(s + b, limit) {
      OldRecord(s, b, limit, d[i]);
      CutAgain(s, b, limit, i, d[i]);
    }
  }

  lemma BatchesExactly(s: seq<Job>, b: seq<Job>, limit: nat)
    ensures Batch(Batch(s, limit) + b, limit) == Batch(s + b, limit) <==> NobodyReturns(s, Batch(s, limit), b, limit)
  {
    var d := Dedup(Batch(s, limit) + b);
    if NobodyReturns(s, Batch(s, limit), b, limit) {
      NobodyReturnsSuffices(s, b, limit);
    } else {
      var i: nat :| i < |d| && WasCut(s, Batch(s, limit), d[i].id) && Ahead(d, i) < limit;
      ReturnMakesADifference(s, b, limit, i);
    }
  }

  /** Two polls with a cut in between leave the queue of one poll exactly if nobody returns. */
  lemma EarlyTruncationExactly(queue: seq<Job>, a: seq<Job>, b: seq<Job>, limit: nat)
    ensures Enqueued(Enqueued(queue, a, limit), b, limit) == Enqueued(queue, a + b, limit) <==>
              NobodyReturns(queue + a, Enqueued(queue, a, limit), b, limit)
  {
    assert (queue + a) + b == queue + (a + b);
    BatchesExactly(queue + a, b, limit);
  }

  lemma NobodyReturnsAtOnePriority(s: seq<Job>, b: seq<Job>, limit: nat)
    requires OnePriorityPerId(s + b)
    ensures NobodyReturns(s, Batch(s, limit), b, limit)
  {
    var first := Batch(s, limit);
    var d := Dedup(first + b);
    forall i: nat | i < |d| && WasCut(s, first, d[i].id) ensures Ahead(d, i) >= limit {
      var was := RecordOf(s, d[i].id);
      DedupElements(s, was);
      DedupElements(first + b, d[i]);
      InSecond(first, b, d[i]);
      SamePriority(s, b, was, d[i]);
      CutAgain(s, b, limit, i, was);
    }
  }

  lemma InSecond(first: seq<Job>, b: seq<Job>, x: Job)
    requires x in first + b && !HasId(first, x.id)
    ensures x in b
  {
    if x in first { HasIdOf(first, x); }
  }

  lemma SamePriority(s: seq<Job>, b: seq<Job>, x: Job, y: Job)
    requires OnePriorityPerId(s + b) && x in s && y in b && x.id == y.id
    ensures x.priority == y.priority
  {
    assert x in s + b && y in s + b;
    var i :| 0 <= i < |s + b| && (s + b)[i] == x;
    var j :| 0 <= j < |s + b| && (s + b)[j] == y;
  }

  /** Cutting early loses nothing when every id carries one priority, whatever was queued before. */
  lemma EarlyTruncation(queue: seq<Job>, a: seq<Job>, b: seq<Job>, limit: nat)
    requires OnePriorityPerId(queue + a + b)
    ensures Enqueued(Enqueued(queue, a, limit), b, limit) == Enqueued(queue, a + b, limit)
  {
    NobodyReturnsAtOnePriority(queue + a, b, limit);
    EarlyTruncationExactly(queue, a, b, limit);
  }

  /** For one more job: it makes a difference exactly if it was cut before and now outranks the last
      job of a full queue. */
  lemma EarlyTruncationOfOne(queue: seq<Job>, a: seq<Job>, x: Job, limit: nat)
    ensures var first := Enqueued(queue, a, limit);
            Enqueued(first, [x], limit) == Enqueued(queue, a + [x], limit) <==>
              !(WasCut(queue + a, first, x.id) && limit > 0 && |first| == limit && x.priority > first[limit - 1].priority)
  {
    EarlyTruncationExactly(queue, a, [x], limit);
    OneReturns(queue + a, x, limit);
  }

  lemma OneReturns(s: seq<Job>, x: Job, limit: nat)
    ensures var first := Batch(s, limit);
            NobodyReturns(s, first, [x], limit) <==>
              !(WasCut(s, first, x.id) && limit > 0 && |first| == limit && x.priority > first[limit - 1].priority)
  {
    var first := Batch(s, limit);
    BatchUnique(s, limit);
    if WasCut(s, first, x.id) {
      var was := RecordOf(s, x.id);
      CutMeansFull(s, limit, was);
      NotLowerOfSorted(first, x.priority);
    }
    OneReturnsByCount(s, first, x, limit);
  }

  lemma OneReturnsByCount(s: seq<Job>, first: seq<Job>, x: Job, limit: nat)
    requires UniqueIds(first)
    ensures NobodyReturns(s, first, [x], limit) <==> (WasCut(s, first, x.id) ==> NotLower(first, x.priority) >= limit)
  {
    var d := Dedup(first + [x]);
    SecondDedup(first, [x]);
    FreshOfOne(first, x);
    forall i: nat | i < |first| ensures !WasCut(s, first, d[i].id) { NotCutBefore(s, first, d, i); }
    if WasCut(s, first, x.id) {
      var last := |first|;
      AheadOfNew(first, x);
      assert d == first + [x] && d[last] == x;
      assert NobodyReturns(s, first, [x], limit) ==> Ahead(d, last) >= limit;
    }
  }

  lemma NotCutBefore(s: seq<Job>, first: seq<Job>, d: seq<Job>, i: nat)
    requires first <= d && i < |first|
    ensures !WasCut(s, first, d[i].id)
  {
    assert d[i] == first[i];
    HasIdOf(first, first[i]);
  }

  lemma FreshOfOne(s: seq<Job>, x: Job)
    ensures Fresh(s, [x]) == if HasId(s, x.id) then [] else [x]
  {
    assert [x][..0] == [];
    FreshLast(s, [x]);
  }

  lemma NotLowerOfSorted(q: seq<Job>, p: int)
    requires Sorted(q)
    ensures NotLower(q, p) <= |q|
    ensures NotLower(q, p) < |q| <==> q != [] && q[|q| - 1].priority < p
  {
    NotLowerFirst(q, p);
  }

  lemma BatchOfTwo(x: Job, y: Job)
    requires x.id != y.id && x.priority < y.priority
    ensures Dedup([x, y]) == [x, y] && Batch([x, y], 1) == [y]
  {
    var two := [x, y];
    assert two[..1] == [x] && [x][..0] == [];
    assert !HasId([x], y.id) && !HasId([], x.id);
    assert Dedup([x]) == [x] && StableSort([x]) == [x];
    assert InsertStable([x], y) == [y, x];
  }

  /** It can make a difference: a job cut at a low priority comes back when a later poll reports it
      at a high one. */
  lemma EarlyTruncationCanFail()
    ensures var low, mid, high := Job("a", 1, 0), Job("b", 2, 0), Job("a", 3, 0);
            Enqueued(Enqueued([], [low, mid], 1), [high], 1) == [high] &&
            Enqueued([], [low, mid] + [high], 1) == [mid]
  {
    var low, mid, high := Job("a", 1, 0), Job("b", 2, 0), Job("a", 3, 0);
    BatchOfTwo(low, mid);
    BatchOfTwo(mid, high);
    assert [] + [low, mid] == [low, mid] && [mid] + [high] == [mid, high];
    KnownIdIsIgnored([low, mid], high);
    assert [] + ([low, mid] + [high]) == [low, mid] + [high];
  }

  lemma KnownIdIsIgnored(s: seq<Job>, x: Job)
    requires s != [] && s[0].id == x.id
    ensures Dedup(s + [x]) == Dedup(s)
  {
    assert (s + [x])[..|s|] == s;
  }

  // ---- One job at a time -------------------------------------------------

  function AddOne(q: seq<Job>, x: Job): seq<Job> {
    if HasId(q, x.id) then q else InsertStable(q, x)
  }

  /** The queue built one job at a time, cutting after each. */
  function Stream(q: seq<Job>, s: seq<Job>, limit: nat): seq<Job> {
    if s == [] then q else Cut(AddOne(Stream(q, s[..|s| - 1], limit), s[|s| - 1]), limit)
  }

  /** A job that was cut still has `limit` jobs of no lower priority ahead of it. */
  lemma ReturningJobIsCutAgain(full: seq<Job>, was: Job, x: Job, limit: nat)
    requires Sorted(full) && was in full && was.id == x.id && was.priority == x.priority
    requires !HasId(Cut(full, limit), x.id)
    ensures Cut(InsertStable(Cut(full, limit), x), limit) == Cut(full, limit)
  {
  }

  lemma {:induction false} StreamIsBatch(s: seq<Job>, limit: nat)
    requires OnePriorityPerId(s)
    ensures Cut(StableSort(Dedup(s)), limit) == Stream([], s, limit)
  {
    if s != [] {
      var front, x := s[..|s| - 1], s[|s| - 1];
      StreamIsBatch(front, limit);
      var full := StableSort(Dedup(front));
      StableSortFacts(Dedup(front));
      DedupUnique(front);
      StableSortUnique(Dedup(front));
      DedupIds(front, x.id);
      HasIdPrefix(full, |Cut(full, limit)|, x.id);
      if !HasId(front, x.id) {
        assert Dedup(s)[..|Dedup(s)| - 1] == Dedup(front);
        InsertStableCut(full, x, limit);
      } else if !HasId(Cut(full, limit), x.id) {
        var i :| 0 <= i < |full| && full[i].id == x.id;
        assert full[i] in full;
        DedupElements(front, full[i]);
        var k :| 0 <= k < |front| && front[k] == full[i];
        assert s[k].id == s[|s| - 1].id;
        ReturningJobIsCutAgain(full, full[i], x, limit);
      }
    }
  }
}
