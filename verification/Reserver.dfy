/** The reserver: one reservation call for a batch, and one answer for every caller. */
module Reserver {
  import opened Options
  import opened Batching
  import opened Contexts

  /** `expires` is the reserver's own view of when the reservation ends. */
  datatype ReservationResult = ReservationResult(reserved: bool, expires: int, failed: bool)

  type ReservationRequest = Request<ReservationResult>

  const DEFAULT_LIFETIME_SECONDS := 900

  /** Zero seconds ask for the server's default. */
  function Lifetime(expirySeconds: int): int {
    if expirySeconds == 0 then DEFAULT_LIFETIME_SECONDS else expirySeconds
  }

  function Answer(reserved: seq<string>, expires: int, failed: bool, id: string): ReservationResult {
    ReservationResult(!failed && id in reserved, expires, failed)
  }

  /** One answered call of the client: `held` is the time the server began to hold what it
      reserved, if it did. */
  datatype Call = Call(ids: seq<string>, reserved: seq<string>, failed: bool, held: Option<int>)

  /** The server's own rule, whatever the reserver believes: a reservation lasts fifteen minutes unless
      the request says otherwise. */
  function ServerExpiry(held: int, expirySeconds: int): int {
    held + (if expirySeconds == 0 then 15 * 60 else expirySeconds)
  }

  /** Some position of the response holds the id. */
  ghost predicate Listed(reserved: seq<string>, id: string) {
    exists i :: 0 <= i < |reserved| && reserved[i] == id
  }

  /** What a caller reads in its answer: it holds the reservation exactly if the call succeeded and its id
      is anywhere in the response. */
  lemma Correlation(reserved: seq<string>, expires: int, failed: bool, id: string)
    ensures var a := Answer(reserved, expires, failed, id);
            (a.reserved <==> !failed && Listed(reserved, id)) && a.failed == failed && a.expires == expires
  {
  }

  /** The order of the response does not matter to anyone. */
  lemma AnswerPermutes(reserved: seq<string>, other: seq<string>, expires: int, failed: bool, id: string)
    requires multiset(reserved) == multiset(other)
    ensures Answer(reserved, expires, failed, id) == Answer(other, expires, failed, id)
  {
    assert id in reserved <==> id in multiset(reserved);
    assert id in other <==> id in multiset(other);
  }

  /** Every request that was answered was told about its own id. */
  ghost predicate ToldTheTruth(batch: seq<ReservationRequest>, reserved: seq<string>, expires: int, failed: bool)
    reads batch
  {
    forall r :: r in batch && r.answers != [] ==>
      && |r.answers| == 1
      && (r.answers[0].reserved <==> !failed && Listed(reserved, r.id))
      && r.answers[0].failed == failed && r.answers[0].expires == expires
  }

  class Client {
    ghost var calls: seq<Call>

    /** Time passes on the way to the server and back. In between the server begins to hold what it
        reserves; without an error it did. */
    method ReserveJobs(clock: Clock, ids: seq<string>) returns (reserved: seq<string>, failed: bool, held: Option<int>)
      modifies this, clock
      ensures held.Some? ==> old(clock.now) <= held.value <= clock.now
      ensures !failed ==> held.Some?
      ensures old(clock.now) <= clock.now && calls == old(calls) + [Call(ids, reserved, failed, held)]
    {
      clock.Passes();
      reserved, failed := *, *;
      var began := *;
      held := if began || !failed then Some(clock.now) else None;
      clock.Passes();
      calls := calls + [Call(ids, reserved, failed, held)];
    }
  }

  /** The ids of the callers still waiting. */
  method ActiveIds(batch: seq<ReservationRequest>) returns (ids: seq<string>)
    modifies batch
    ensures forall r :: r in batch ==> r.answers == old(r.answers) && (old(r.done) ==> r.done)
    ensures forall r :: r in batch ==> r.id in ids || r.done
    ensures Subsequence(ids, Ids(batch)) && OfOthers(ids, batch, old(EndedNow(batch)))
  {
    ids := [];
    ghost var ended := EndedNow(batch);
    for i := 0 to |batch|
      invariant forall r :: r in batch ==> r.answers == old(r.answers) && (old(r.done) ==> r.done)
      invariant forall r :: r in batch[..i] ==> r in batch && (r.id in ids || r.done)
      invariant Ended(batch, ended) && OfOthers(ids, batch, ended)
      invariant Subsequence(ids, Ids(batch[..i]))
    {
      TimePasses(batch);
      IdsNext(batch[..i], batch[i]);
      assert batch[..i + 1] == batch[..i] + [batch[i]];
      assert Ids(batch[..i + 1])[..|Ids(batch[..i])|] == Ids(batch[..i]);
      ghost var was := ids;
      if !batch[i].done {
        OfOthersNext(ids, batch[i], batch, ended);
        ids := ids + [batch[i].id];
        assert ids[..|ids| - 1] == was;
      }
    }
    assert batch[..|batch|] == batch;
  }

  /** Reserves a batch. If anybody still waits when the ids are collected, every caller gets one
      answer, in a send that cannot block; the answers come from one response, by id, and promise
      the reservation for the whole lifetime, but for no longer than the server holds it. */
  method Reserve(client: Client, clock: Clock, batch: seq<ReservationRequest>, expirySeconds: int)
    returns (reserved: seq<string>, failed: bool, expires: int, ghost held: Option<int>, ghost asked: seq<string>)
    requires Distinct(batch) && forall r :: r in batch ==> r.answers == []
    modifies client, clock, batch
    ensures asked == [] ==> client.calls == old(client.calls)
    ensures asked != [] ==> client.calls == old(client.calls) + [Call(asked, reserved, failed, held)]
    ensures Answered(batch)
    ensures forall r :: r in batch && r.answers != [] ==> r.answers == [Answer(reserved, expires, failed, r.id)]
    ensures asked != [] ==> (forall r :: r in batch ==> r.answers != []) && (!failed ==> held.Some?)
    ensures ToldTheTruth(batch, reserved, expires, failed)
    ensures ServerExpiry(old(clock.now), expirySeconds) <= expires
    ensures held.Some? ==> expires <= ServerExpiry(held.value, expirySeconds)
    ensures Subsequence(asked, Ids(batch)) && forall r :: r in batch ==> r.id in asked || r.done
    ensures OfOthers(asked, batch, old(EndedNow(batch)))
  {
    var ids := ActiveIds(batch);
    asked := ids;
    clock.Passes();
    // taken before the request, so that latency cannot extend it beyond the server's expiry
    expires := clock.now + Lifetime(expirySeconds);
    if |ids| == 0 {
      reserved, failed, held := [], false, None;
      return;
    }
    TimePasses(batch);
    var began;
    reserved, failed, began := client.ReserveJobs(clock, ids);
    held := began;
    SendAnswers(batch, reserved, expires, failed);
  }

  /** Answers everybody in the batch, by id. */
  method SendAnswers(batch: seq<ReservationRequest>, reserved: seq<string>, expires: int, failed: bool)
    requires Distinct(batch) && forall r :: r in batch ==> r.answers == []
    modifies batch
    ensures forall r :: r in batch ==> r.done == old(r.done) && r.answers == [Answer(reserved, expires, failed, r.id)]
    ensures ToldTheTruth(batch, reserved, expires, failed)
  {
    for i := 0 to |batch|
      invariant forall r :: r in batch ==> r.done == old(r.done)
      invariant forall j :: 0 <= j < i ==> batch[j].answers == [Answer(reserved, expires, failed, batch[j].id)]
      invariant forall j :: i <= j < |batch| ==> batch[j].answers == []
    {
      var r := batch[i];
      assert r in batch;
      r.Send(ReservationResult(!failed && r.id in reserved, expires, failed));
    }
  }
}
