/** Requests that callers hand to a batching stage, each with a context that may end at
    any time and a result channel with room for one answer. */
module Batching {

  class Request<R> {
    const id: string
    var done: bool
    var answers: seq<R>

    constructor (id: string)
      ensures this.id == id && !done && answers == []
    {
      this.id := id;
      done, answers := false, [];
    }

    /** A send on the full channel would block its sender. */
    method Send(answer: R)
      requires |answers| < 1
      modifies this
      ensures answers == [answer] && done == old(done)
    {
      answers := answers + [answer];
    }
  }

  ghost predicate Distinct<T>(s: seq<T>) {
    forall i, j :: 0 <= i < j < |s| ==> s[i] != s[j]
  }

  /** The elements of s that are in `kept`, in order. */
  ghost function Keep<T>(s: seq<T>, kept: set<T>): seq<T> {
    if s == [] then [] else Keep(s[..|s| - 1], kept) + (if s[|s| - 1] in kept then [s[|s| - 1]] else [])
  }

  function Ids<R>(batch: seq<Request<R>>): seq<string> {
    if batch == [] then [] else Ids(batch[..|batch| - 1]) + [batch[|batch| - 1].id]
  }

  /** Any caller's context may end, at any time. */
  method TimePasses<R>(all: seq<Request<R>>)
    modifies all
    ensures forall r :: r in all ==> r.answers == old(r.answers) && (old(r.done) ==> r.done)
  {
    for i := 0 to |all|
      invariant forall r :: r in all ==> r.answers == old(r.answers) && (old(r.done) ==> r.done)
    {
      if * {
        all[i].done := true;
      }
    }
  }

  /** Whoever is in `all` has one answer in its channel, or no longer waits for one. */
  ghost predicate Answered<R>(all: seq<Request<R>>)
    reads all
  {
    forall r :: r in all ==> |r.answers| == 1 || (r.answers == [] && r.done)
  }

  /** The requests whose context has ended. */
  ghost function EndedNow<R>(all: seq<Request<R>>): set<Request<R>>
    reads all
  {
    set r | r in all && r.done
  }

  /** These requests have ended, and contexts stay ended. */
  ghost predicate Ended<R>(all: seq<Request<R>>, ended: set<Request<R>>)
    reads all
  {
    forall r :: r in all && r in ended ==> r.done
  }

  /** Some request with that id had not ended. */
  ghost predicate OfAnother<R>(id: string, all: seq<Request<R>>, ended: set<Request<R>>) {
    exists r :: r in all && r !in ended && r.id == id
  }

  /** Every id is that of a request that had not ended. */
  ghost predicate OfOthers<R>(ids: seq<string>, all: seq<Request<R>>, ended: set<Request<R>>) {
    forall k :: 0 <= k < |ids| ==> OfAnother(ids[k], all, ended)
  }

  lemma OfOthersNext<R>(ids: seq<string>, r: Request<R>, all: seq<Request<R>>, ended: set<Request<R>>)
    requires OfOthers(ids, all, ended) && r in all && r !in ended
    ensures OfOthers(ids + [r.id], all, ended)
  {
    assert OfAnother(r.id, all, ended);
  }

  lemma {:induction false} KeepElements<T>(s: seq<T>, kept: set<T>, x: T)
    ensures x in Keep(s, kept) <==> x in s && x in kept
  {
    if s != [] {
      KeepElements(s[..|s| - 1], kept, x);
      assert s == s[..|s| - 1] + [s[|s| - 1]];
    }
  }

  lemma {:induction false} KeepDistinct<T>(s: seq<T>, kept: set<T>)
    requires Distinct(s)
    ensures Distinct(Keep(s, kept)) && |Keep(s, kept)| <= |s|
  {
    if s != [] {
      KeepDistinct(s[..|s| - 1], kept);
      KeepElements(s[..|s| - 1], kept, s[|s| - 1]);
    }
  }

  lemma {:induction false} KeepTwice<T>(s: seq<T>, a: set<T>, b: set<T>)
    ensures Keep(Keep(s, a), b) == Keep(s, a * b)
  {
    if s != [] {
      KeepTwice(s[..|s| - 1], a, b);
      var k := Keep(s[..|s| - 1], a);
      if s[|s| - 1] in a {
        assert Keep(s, a)[..|Keep(s, a)| - 1] == k;
      } else {
        assert Keep(s, a) == k;
      }
    }
  }

  lemma {:induction false} KeepAll<T>(s: seq<T>, kept: set<T>)
    requires forall i :: 0 <= i < |s| ==> s[i] in kept
    ensures Keep(s, kept) == s
  {
    if s != [] {
      KeepAll(s[..|s| - 1], kept);
    }
  }

  lemma {:induction false} KeepIgnores<T>(s: seq<T>, kept: set<T>, x: T)
    requires x !in s
    ensures Keep(s, kept + {x}) == Keep(s, kept)
  {
    if s != [] {
      KeepIgnores(s[..|s| - 1], kept, x);
    }
  }

  lemma KeepNext<T>(s: seq<T>, i: nat, kept: set<T>)
    requires Distinct(s) && i < |s| && forall x :: x in kept ==> x in s[..i]
    ensures Keep(s[..i + 1], kept) == Keep(s[..i], kept)
    ensures Keep(s[..i + 1], kept + {s[i]}) == Keep(s[..i], kept) + [s[i]]
  {
    assert s[..i + 1][..i] == s[..i];
    assert s[i] !in s[..i];
    KeepIgnores(s[..i], kept, s[i]);
  }

  lemma IdsNext<R>(s: seq<Request<R>>, r: Request<R>)
    ensures Ids(s + [r]) == Ids(s) + [r.id]
  {
    assert (s + [r])[..|s|] == s;
  }

  /** s is t with some elements left out. */
  ghost predicate Subsequence<T>(s: seq<T>, t: seq<T>)
    decreases |t|
  {
    s == [] || (t != [] && (Subsequence(s, t[..|t| - 1])
                            || (s[|s| - 1] == t[|t| - 1] && Subsequence(s[..|s| - 1], t[..|t| - 1]))))
  }

  lemma {:induction false} KeepIsSubsequence<R>(s: seq<Request<R>>, kept: set<Request<R>>)
    ensures Subsequence(Ids(Keep(s, kept)), Ids(s))
  {
    if s != [] {
      KeepIsSubsequence(s[..|s| - 1], kept);
      var k := Keep(s[..|s| - 1], kept);
      assert Ids(s)[..|Ids(s)| - 1] == Ids(s[..|s| - 1]);
      if s[|s| - 1] in kept {
        assert Keep(s, kept)[..|k|] == k;
        assert Ids(Keep(s, kept)) == Ids(k) + [s[|s| - 1].id];
        assert Ids(Keep(s, kept))[..|Ids(k)|] == Ids(k);
      } else {
        assert Keep(s, kept) == k;
      }
    }
  }
}
