/** The deduper: a mark per UUID, set before a job is handed on and cleared when its Kubernetes
    Job is deleted or the hand-off fails. */
module Deduper {
  import opened Options

  datatype Change = Marked(uuid: string) | Unmarked(uuid: string)

  datatype HandOff = Success | Duplicate | OtherError

  /** The last change for a UUID, if any. */
  function LastChange(history: seq<Change>, uuid: string): Option<Change> {
    if history == [] then None
    else if history[|history| - 1].uuid == uuid then Some(history[|history| - 1])
    else LastChange(history[..|history| - 1], uuid)
  }

  predicate IsMarked(history: seq<Change>, uuid: string) {
    LastChange(history, uuid) == Some(Marked(uuid))
  }

  /** Marks and unmarks of every UUID take turns, starting with a mark. */
  ghost predicate Alternates(history: seq<Change>) {
    forall i :: 0 <= i < |history| ==>
      (history[i].Marked? <==> !IsMarked(history[..i], history[i].uuid))
  }

  lemma AlternatesNext(history: seq<Change>, c: Change)
    requires Alternates(history) && (c.Marked? <==> !IsMarked(history, c.uuid))
    ensures Alternates(history + [c])
  {
    var h := history + [c];
    forall i | 0 <= i < |h| ensures h[i].Marked? <==> !IsMarked(h[..i], h[i].uuid) {
      if i < |history| {
        assert h[..i] == history[..i];
      } else {
        assert h[..i] == history;
      }
    }
  }

  lemma LastChangeNext(history: seq<Change>, c: Change, uuid: string)
    ensures LastChange(history + [c], uuid) == if c.uuid == uuid then Some(c) else LastChange(history, uuid)
  {
    assert (history + [c])[..|history|] == history;
  }

  lemma {:induction false} MarkLasts(history: seq<Change>, i: nat, uuid: string)
    requires i < |history| && history[i] == Marked(uuid)
    requires forall k :: i < k < |history| ==> history[k] != Unmarked(uuid)
    ensures IsMarked(history, uuid)
  {
    if i < |history| - 1 {
      MarkLasts(history[..|history| - 1], i, uuid);
      assert history[|history| - 1].uuid == uuid ==> history[|history| - 1] == Marked(uuid);
    }
  }

  /** What a mark is: one was set, and none was taken off since. */
  lemma {:induction false} MarkedIff(history: seq<Change>, uuid: string)
    ensures IsMarked(history, uuid) <==>
              exists i :: 0 <= i < |history| && history[i] == Marked(uuid) && forall k :: i < k < |history| ==> history[k] != Unmarked(uuid)
  {
    if IsMarked(history, uuid) {
      var i := LastMark(history, uuid);
    }
    if i :| 0 <= i < |history| && history[i] == Marked(uuid) && forall k :: i < k < |history| ==> history[k] != Unmarked(uuid) {
      MarkLasts(history, i, uuid);
    }
  }

  lemma {:induction false} LastMark(history: seq<Change>, uuid: string) returns (i: nat)
    requires IsMarked(history, uuid)
    ensures i < |history| && history[i] == Marked(uuid) && forall k :: i < k < |history| ==> history[k].uuid != uuid
  {
    i := |history| - 1;
    if history[i].uuid != uuid {
      i := LastMark(history[..i], uuid);
    }
  }

  /** Between two marks of one UUID, so between two hand-offs of one job, lies an unmark. */
  lemma UnmarkBetweenMarks(history: seq<Change>, i: nat, j: nat)
    requires Alternates(history) && i < j < |history|
    requires history[i].Marked? && history[j].Marked? && history[i].uuid == history[j].uuid
    ensures exists k :: i < k < j && history[k] == Unmarked(history[i].uuid)
  {
    if forall k :: i < k < j ==> history[k] != Unmarked(history[i].uuid) {
      assert history[..j][i] == history[i];
      MarkLasts(history[..j], i, history[i].uuid);
      assert false;
    }
  }

  class Deduper {
    var inFlight: map<string, bool>
    ghost var history: seq<Change>

    ghost predicate Valid()
      reads this
    {
      && (forall u :: u in inFlight ==> inFlight[u])
      && (forall u :: u in inFlight <==> IsMarked(history, u))
      && Alternates(history)
    }

    constructor ()
      ensures Valid() && inFlight == map[] && history == []
    {
      inFlight, history := map[], [];
    }

    /** Changes the state of id from !x to x, if it is !x: reports how many are in flight
        afterwards and whether anything changed. */
    method Casa(id: string, x: bool) returns (count: nat, ok: bool)
      requires Valid()
      modifies this
      ensures Valid()
      ensures count == |inFlight|
      ensures ok <==> (x <==> id !in old(inFlight))
      ensures inFlight.Keys == if x then old(inFlight).Keys + {id} else old(inFlight).Keys - {id}
      ensures history == old(history) + (if ok then [if x then Marked(id) else Unmarked(id)] else [])
    {
      var current := if id in inFlight then inFlight[id] else false;
      if current == x {
        return |inFlight|, false;
      }
      ghost var c := if x then Marked(id) else Unmarked(id);
      AlternatesNext(history, c);
      forall u ensures IsMarked(history + [c], u) <==> if u == id then x else IsMarked(history, u) {
        LastChangeNext(history, c, u);
      }
      if x {
        inFlight := inFlight[id := true];
      } else {
        inFlight := inFlight - {id};
      }
      history := history + [c];
      return |inFlight|, true;
    }

    /** Starts to handle a job: true means it is marked and goes to the next handler. */
    method Begin(id: string) returns (handedOn: bool)
      requires Valid()
      modifies this
      ensures Valid()
      ensures handedOn <==> id !in old(inFlight)
      ensures id in inFlight && inFlight.Keys == old(inFlight).Keys + {id}
      ensures handedOn ==> history == old(history) + [Marked(id)]
      ensures !handedOn ==> history == old(history)
    {
      var count, ok := Casa(id, true);
      return ok;
    }

    /** The next handler is done with a job that was handed on: only an error that is not about a
        duplicate clears the mark. */
    method End(id: string, result: HandOff)
      requires Valid()
      modifies this
      ensures Valid()
      ensures inFlight.Keys == if result.OtherError? then old(inFlight).Keys - {id} else old(inFlight).Keys
      ensures history == old(history) + (if result.OtherError? && id in old(inFlight) then [Unmarked(id)] else [])
    {
      if result.OtherError? {
        var count, ok := Casa(id, false);
      }
    }

    /** An add event: only Jobs of the initial list are new to the deduper. */
    method OnAdd(id: string, inInitialList: bool)
      requires Valid()
      modifies this
      ensures Valid()
      ensures inFlight.Keys == if inInitialList then old(inFlight).Keys + {id} else old(inFlight).Keys
      ensures history == old(history) + (if inInitialList && id !in old(inFlight) then [Marked(id)] else [])
    {
      if !inInitialList {
        return;
      }
      var count, ok := Casa(id, true);
    }

    method OnDelete(id: string)
      requires Valid()
      modifies this
      ensures Valid()
      ensures inFlight.Keys == old(inFlight).Keys - {id}
      ensures history == old(history) + (if id in old(inFlight) then [Unmarked(id)] else [])
    {
      var count, ok := Casa(id, false);
    }
  }
}
