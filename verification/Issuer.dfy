/** The job acquisition token issuer: one call for a batch, retried for the callers still
    waiting, its answer told apart by UUID. */
module Issuer {
  import opened Options
  import opened Batching
  import opened Contexts

  datatype Issued = Issued(uuid: string, token: string)

  datatype IssueResponse = IssueResponse(issued: seq<Issued>, notIssued: seq<string>)

  datatype IssueError = CallFailed | TokenNotIssued(id: string)

  datatype TokenResult = TokenResult(token: string, err: Option<IssueError>)

  // ---- Correlation -------------------------------------------------------

  function Occurrences(issued: seq<Issued>, id: string): nat {
    if issued == [] then 0 else Occurrences(issued[..|issued| - 1], id) + (if issued[|issued| - 1].uuid == id then 1 else 0)
  }

  function LastToken(issued: seq<Issued>, id: string): string {
    if issued == [] then ""
    else if issued[|issued| - 1].uuid == id then issued[|issued| - 1].token
    else LastToken(issued[..|issued| - 1], id)
  }

  /** The token a response grants to id, or "" for none. */
  function TokenFor(response: Option<IssueResponse>, id: string): string {
    if response.None? || id in response.value.notIssued || Occurrences(response.value.issued, id) != 1 then ""
    else LastToken(response.value.issued, id)
  }

  /** What a caller is sent. */
  function Answer(response: Option<IssueResponse>, failed: bool, id: string): TokenResult {
    var token := TokenFor(response, id);
    TokenResult(token, if failed then Some(CallFailed) else if token == "" then Some(TokenNotIssued(id)) else None)
  }

  /** The response names id exactly once, with that token, and does not withhold it. */
  ghost predicate GrantedOnce(response: IssueResponse, id: string, token: string) {
    && token != "" && id !in response.notIssued
    && exists i :: 0 <= i < |response.issued| && response.issued[i] == Issued(id, token)
                   && forall j :: 0 <= j < |response.issued| && j != i ==> response.issued[j].uuid != id
  }

  lemma {:induction false} OccurrencesFacts(issued: seq<Issued>, id: string)
    ensures Occurrences(issued, id) == 0 <==> forall i :: 0 <= i < |issued| ==> issued[i].uuid != id
    ensures Occurrences(issued, id) == 1 <==>
              exists i :: 0 <= i < |issued| && OnlyAt(issued, id, i)
    ensures forall i :: 0 <= i < |issued| && OnlyAt(issued, id, i) ==> LastToken(issued, id) == issued[i].token
  {
    if issued != [] {
      var front, last := issued[..|issued| - 1], issued[|issued| - 1];
      OccurrencesFacts(front, id);
      if last.uuid == id {
        if Occurrences(front, id) == 0 { assert OnlyAt(issued, id, |issued| - 1); }
      } else {
        if Occurrences(front, id) == 1 {
          var i :| 0 <= i < |front| && OnlyAt(front, id, i);
          assert OnlyAt(issued, id, i);
        }
        forall i | 0 <= i < |issued| && OnlyAt(issued, id, i)
          ensures i < |front| && OnlyAt(front, id, i) && LastToken(issued, id) == issued[i].token
        {
        }
      }
    }
  }

  ghost predicate OnlyAt(issued: seq<Issued>, id: string, i: int)
    requires 0 <= i < |issued|
  {
    issued[i].uuid == id && forall j :: 0 <= j < |issued| && j != i ==> issued[j].uuid != id
  }

  /** A request succeeds, with a given token, exactly when the call had no error and a response
      that grants that token to its UUID once and does not withhold it. */
  lemma Correlation(response: Option<IssueResponse>, failed: bool, id: string, token: string)
    ensures Answer(response, failed, id) == TokenResult(token, None) <==>
              !failed && response.Some? && GrantedOnce(response.value, id, token)
  {
    if response.Some? {
      var issued := response.value.issued;
      OccurrencesFacts(issued, id);
      if GrantedOnce(response.value, id, token) {
        var i :| 0 <= i < |issued| && issued[i] == Issued(id, token)
                 && forall j :: 0 <= j < |issued| && j != i ==> issued[j].uuid != id;
        assert OnlyAt(issued, id, i);
      }
      if Occurrences(issued, id) == 1 {
        var i :| 0 <= i < |issued| && OnlyAt(issued, id, i);
        assert issued[i] == Issued(id, LastToken(issued, id));
      }
    }
  }

  /** A request that fails is told whether the call failed or its id was not granted a token. */
  lemma RefusalKinds(response: Option<IssueResponse>, failed: bool, id: string)
    ensures var err := Answer(response, failed, id).err;
            && (err == Some(CallFailed) <==> failed)
            && (err == Some(TokenNotIssued(id)) <==> !failed && (response.None? || forall t :: !GrantedOnce(response.value, id, t)))
  {
    var answer := Answer(response, failed, id);
    Correlation(response, failed, id, answer.token);
    if !failed && response.Some? && answer.err.Some? {
      forall t ensures !GrantedOnce(response.value, id, t) { Correlation(response, failed, id, t); }
    }
  }

  lemma {:induction false} OccurrencesConcat(a: seq<Issued>, b: seq<Issued>, id: string)
    ensures Occurrences(a + b, id) == Occurrences(a, id) + Occurrences(b, id)
    decreases |b|
  {
    if b == [] {
      assert a + b == a;
    } else {
      OccurrencesConcat(a, b[..|b| - 1], id);
      assert (a + b)[..|a + b| - 1] == a + b[..|b| - 1];
      assert (a + b)[|a + b| - 1] == b[|b| - 1];
    }
  }

  lemma TakeOut(t: seq<Issued>, x: Issued, id: string) returns (rest: seq<Issued>)
    requires x in t
    ensures multiset(rest) == multiset(t) - multiset{x}
    ensures Occurrences(t, id) == Occurrences(rest, id) + (if x.uuid == id then 1 else 0)
  {
    var i :| 0 <= i < |t| && t[i] == x;
    var a, b := t[..i], t[i + 1..];
    rest := a + b;
    assert t == (a + [x]) + b;
    OccurrencesConcat(a + [x], b, id);
    OccurrencesConcat(a, [x], id);
    OccurrencesConcat(a, b, id);
    assert [x][..0] == [];
  }

  lemma {:induction false} OccurrencesPermute(s: seq<Issued>, t: seq<Issued>, id: string)
    requires multiset(s) == multiset(t)
    ensures Occurrences(s, id) == Occurrences(t, id)
  {
    if s == [] {
      assert |t| == |multiset(t)| == 0;
    } else {
      var front, x := s[..|s| - 1], s[|s| - 1];
      assert s == front + [x];
      assert x in multiset(t);
      var rest := TakeOut(t, x, id);
      OccurrencesPermute(front, rest, id);
    }
  }

  /** The order of the response lists does not matter to anyone. */
  lemma AnswerPermutes(r: IssueResponse, r': IssueResponse, failed: bool, id: string)
    requires multiset(r.issued) == multiset(r'.issued) && multiset(r.notIssued) == multiset(r'.notIssued)
    ensures Answer(Some(r), failed, id) == Answer(Some(r'), failed, id)
  {
    OccurrencesPermute(r.issued, r'.issued, id);
    assert id in r.notIssued <==> id in multiset(r.notIssued);
    assert id in r'.notIssued <==> id in multiset(r'.notIssued);
    OccurrencesFacts(r.issued, id);
    OccurrencesFacts(r'.issued, id);
    if Occurrences(r.issued, id) == 1 {
      var i :| 0 <= i < |r.issued| && OnlyAt(r.issued, id, i);
      var x := r.issued[i];
      assert x in multiset(r'.issued);
      var k :| 0 <= k < |r'.issued| && r'.issued[k] == x;
      var j :| 0 <= j < |r'.issued| && OnlyAt(r'.issued, id, j);
      assert k == j;
    }
  }

  /** Reading a Go map: "" for a missing key. */
  function Lookup(m: map<string, string>, key: string): string {
    if key in m then m[key] else ""
  }

  method BuildTokens(response: Option<IssueResponse>) returns (tokens: map<string, string>)
    ensures forall id :: Lookup(tokens, id) == TokenFor(response, id)
  {
    tokens := map[];
    if response.None? {
      return;
    }
    var issued := response.value.issued;
    for i := 0 to |issued|
      invariant forall id :: id in tokens <==> Occurrences(issued[..i], id) > 0
      invariant forall id :: id in tokens ==> tokens[id] == if Occurrences(issued[..i], id) == 1 then LastToken(issued[..i], id) else ""
    {
      assert issued[..i + 1][..i] == issued[..i];
      if issued[i].uuid in tokens {
        tokens := tokens[issued[i].uuid := ""];
      } else {
        tokens := tokens[issued[i].uuid := issued[i].token];
      }
    }
    assert issued[..|issued|] == issued;
    var withheld := response.value.notIssued;
    for i := 0 to |withheld|
      invariant forall id :: Lookup(tokens, id) ==
                  if id in withheld[..i] || Occurrences(issued, id) != 1 then "" else LastToken(issued, id)
    {
      tokens := tokens[withheld[i] := ""];
      assert withheld[..i + 1] == withheld[..i] + [withheld[i]];
    }
    assert withheld[..|withheld|] == withheld;
  }

  // ---- One batch ---------------------------------------------------------

  type TokenRequest = Request<TokenResult>

  ghost predicate GaveUp(s: seq<TokenRequest>, kept: set<TokenRequest>)
    reads s
  {
    forall r :: r in s && r !in kept ==> r.done
  }

  lemma GaveUpNext(s: seq<TokenRequest>, r: TokenRequest, kept: set<TokenRequest>)
    requires GaveUp(s, kept)
    ensures GaveUp(s + [r], kept + {r})
    ensures r.done ==> GaveUp(s + [r], kept)
  {
  }

  /** From position i on, the batch is as it was. */
  ghost predicate Untouched(b: seq<TokenRequest>, was: seq<TokenRequest>, i: nat)
    requires |was| <= |b|
  {
    forall k :: i <= k < |was| ==> b[k] == was[k]
  }

  /** The first i requests have been read: those in `kept` are in b[..m], the others gave up, and
      the rest of the batch is untouched. */
  ghost predicate Compacted(b: seq<TokenRequest>, was: seq<TokenRequest>, i: nat, m: nat, ids: seq<string>, kept: set<TokenRequest>)
    requires m <= i <= |was| <= |b|
    reads was
  {
    && b[..m] == Keep(was[..i], kept) && ids == Ids(b[..m])
    && Untouched(b, was, i)
    && (forall r :: r in kept ==> r in was[..i])
    && GaveUp(was[..i], kept)
  }

  lemma PutNext(b: seq<TokenRequest>, m: nat, r: TokenRequest)
    requires m < |b|
    ensures b[m := r][..m + 1] == b[..m] + [r]
  {
  }

  lemma TakeNext(was: seq<TokenRequest>, i: nat)
    requires i < |was|
    ensures was[..i + 1] == was[..i] + [was[i]]
  {
  }

  lemma SubsetNext(front: seq<TokenRequest>, r: TokenRequest, kept: set<TokenRequest>)
    requires forall x :: x in kept ==> x in front
    ensures forall x :: x in kept + {r} ==> x in front + [r]
  {
  }

  /** A request that is done is left out. */
  lemma LeftOut(b: seq<TokenRequest>, was: seq<TokenRequest>, i: nat, m: nat, ids: seq<string>, kept: set<TokenRequest>)
    requires m <= i < |was| <= |b| && Distinct(was) && Compacted(b, was, i, m, ids, kept) && was[i].done
    ensures Compacted(b, was, i + 1, m, ids, kept)
  {
    KeepNext(was, i, kept);
    GaveUpNext(was[..i], was[i], kept);
    SubsetNext(was[..i], was[i], kept);
    TakeNext(was, i);
  }

  /** Any request may be put in the next place. */
  lemma PutIn(b: seq<TokenRequest>, was: seq<TokenRequest>, i: nat, m: nat, ids: seq<string>, kept: set<TokenRequest>)
    requires m <= i < |was| <= |b| && Distinct(was) && Compacted(b, was, i, m, ids, kept)
    ensures Compacted(b[m := was[i]], was, i + 1, m + 1, ids + [was[i].id], kept + {was[i]})
  {
    var r := was[i];
    KeepNext(was, i, kept);
    GaveUpNext(was[..i], r, kept);
    SubsetNext(was[..i], r, kept);
    TakeNext(was, i);
    PutNext(b, m, r);
    IdsNext(b[..m], r);
  }

  /** Reads request i, and appends it in place unless its context has ended. */
  method CompactOne(batch: array<TokenRequest>, i: nat, m: nat, ids: seq<string>, ghost was: seq<TokenRequest>, ghost kept: set<TokenRequest>)
    returns (m': nat, ids': seq<string>, ghost kept': set<TokenRequest>)
    requires m <= i < |was| <= batch.Length && Distinct(was) && Compacted(batch[..], was, i, m, ids, kept)
    modifies batch
    ensures m' <= i + 1 && Compacted(batch[..], was, i + 1, m', ids', kept')
    ensures kept' == if was[i].done then kept else kept + {was[i]}
  {
    ghost var b := batch[..];
    var r := batch[i];
    assert r == b[i] == was[i];
    if r.done {
      LeftOut(b, was, i, m, ids, kept);
      m', ids', kept' := m, ids, kept;
    } else {
      PutIn(b, was, i, m, ids, kept);
      batch[m] := r;
      m', ids', kept' := m + 1, ids + [r.id], kept + {r};
      assert batch[..] == b[m := r];
    }
  }

  /** Time passes, then one request is read. Contexts only end, so what was read stays right. */
  method CompactStep(batch: array<TokenRequest>, i: nat, m: nat, ids: seq<string>, ghost was: seq<TokenRequest>,
                     ghost kept: set<TokenRequest>, all: seq<TokenRequest>)
    returns (m': nat, ids': seq<string>, ghost kept': set<TokenRequest>)
    requires m <= i < |was| <= batch.Length && Distinct(was) && Compacted(batch[..], was, i, m, ids, kept)
    requires forall r :: r in was ==> r in all
    modifies batch, all
    ensures m' <= i + 1 && Compacted(batch[..], was, i + 1, m', ids', kept')
    ensures kept' == kept || (kept' == kept + {was[i]} && !old(was[i].done))
    ensures forall r :: r in all ==> r.answers == old(r.answers) && (old(r.done) ==> r.done)
  {
    assert forall r :: r in was[..i] ==> r in was;
    assert was[i] in all;
    TimePasses(all);
    m', ids', kept' := CompactOne(batch, i, m, ids, was, kept);
  }

  /** Drops the requests whose context has ended, compacting the batch in its own array while it
      is read. Contexts may end in between. */
  method CompactActive(batch: array<TokenRequest>, n: nat, all: seq<TokenRequest>)
    returns (m: nat, ids: seq<string>, ghost kept: set<TokenRequest>)
    requires n <= batch.Length && Distinct(batch[..n]) && forall r :: r in batch[..n] ==> r in all
    modifies batch, all
    ensures m <= n && batch[..m] == Keep(old(batch[..n]), kept) && ids == Ids(batch[..m])
    ensures forall r :: r in old(batch[..n]) && r !in kept ==> r.done
    ensures forall r :: r in all && r in kept ==> !old(r.done)
    ensures forall r :: r in all ==> r.answers == old(r.answers) && (old(r.done) ==> r.done)
  {
    ghost var was := batch[..n];
    m, ids, kept := 0, [], {};
    for i := 0 to n
      invariant m <= i && Compacted(batch[..], was, i, m, ids, kept)
      invariant forall r :: r in all && r in kept ==> !old(r.done)
      invariant forall r :: r in all ==> r.answers == old(r.answers) && (old(r.done) ==> r.done)
    {
      m, ids, kept := CompactStep(batch, i, m, ids, was, kept, all);
    }
    assert was[..n] == was && GaveUp(was, kept);
  }

  ghost predicate Without(alive: set<TokenRequest>, all: seq<TokenRequest>, ended: set<TokenRequest>) {
    forall r :: r in all && r in ended ==> r !in alive
  }

  lemma {:induction false} IdsOfOthers(s: seq<TokenRequest>, all: seq<TokenRequest>, ended: set<TokenRequest>)
    requires forall r :: r in s ==> r in all && r !in ended
    ensures OfOthers(Ids(s), all, ended)
  {
    if s != [] {
      IdsOfOthers(s[..|s| - 1], all, ended);
      assert s[|s| - 1] in s;
    }
  }

  lemma KeptAreOthers(all: seq<TokenRequest>, kept: set<TokenRequest>, ended: set<TokenRequest>)
    requires Without(kept, all, ended)
    ensures OfOthers(Ids(Keep(all, kept)), all, ended)
  {
    forall r | r in Keep(all, kept) ensures r in all && r !in ended { KeepElements(all, kept, r); }
    IdsOfOthers(Keep(all, kept), all, ended);
  }

  /** No call asks for a request that had ended before. */
  ghost predicate NoneForEnded(calls: seq<Call>, all: seq<TokenRequest>, ended: set<TokenRequest>) {
    forall k :: 0 <= k < |calls| ==> OfOthers(calls[k].ids, all, ended)
  }

  /** Whoever had ended before is asked for in none of the calls, and is left out once there was one. */
  ghost predicate LeavesOut(all: seq<TokenRequest>, alive: set<TokenRequest>, ended: set<TokenRequest>, calls: seq<Call>)
    reads all
  {
    Ended(all, ended) && NoneForEnded(calls, all, ended) && (calls != [] ==> Without(alive, all, ended))
  }

  lemma NoneForEndedNext(calls: seq<Call>, call: Call, all: seq<TokenRequest>, ended: set<TokenRequest>)
    requires NoneForEnded(calls, all, ended) && OfOthers(call.ids, all, ended)
    ensures NoneForEnded(calls + [call], all, ended)
  {
  }

  /** One answered call of the client. */
  datatype Call = Call(ids: seq<string>, response: Option<IssueResponse>, failed: bool, permanent: bool)

  /** The issuing client: any answer, and whether an error is permanent. */
  class Client {
    ghost var calls: seq<Call>

    method IssueTokens(ids: seq<string>) returns (response: Option<IssueResponse>, failed: bool, permanent: bool)
      modifies this
      ensures calls == old(calls) + [Call(ids, response, failed, permanent)]
    {
      response, failed, permanent := *, *, *;
      calls := calls + [Call(ids, response, failed, permanent)];
    }
  }

  /** The batch holds exactly the requests still alive, in order; the others gave up, and nobody
      has been answered. */
  ghost predicate Waiting(batch: array<TokenRequest>, n: nat, all: seq<TokenRequest>, alive: set<TokenRequest>)
    reads batch, all
  {
    && n <= batch.Length && batch[..n] == Keep(all, alive)
    && forall r :: r in all ==> r.answers == [] && (r !in alive ==> r.done)
  }

  /** One attempt of the retry: compacts, and asks for whoever is left. */
  method Attempt(client: Client, batch: array<TokenRequest>, n: nat, all: seq<TokenRequest>, ghost alive: set<TokenRequest>,
                 ghost ended: set<TokenRequest>)
    returns (m: nat, ids: seq<string>, response: Option<IssueResponse>, failed: bool, permanent: bool, ghost kept: set<TokenRequest>)
    requires Waiting(batch, n, all, alive) && Distinct(all) && Ended(all, ended)
    modifies client, batch, all
    ensures Waiting(batch, m, all, kept)
    ensures Ended(all, ended) && Without(kept, all, ended) && OfOthers(ids, all, ended)
    ensures ids == Ids(batch[..m]) && Subsequence(ids, old(Ids(batch[..n])))
    ensures m == 0 ==> !failed && response == None && client.calls == old(client.calls)
    ensures m > 0 ==> client.calls == old(client.calls) + [Call(ids, response, failed, permanent)]
  {
    ghost var before := batch[..n];
    KeepDistinct(all, alive);
    forall r ensures r in before <==> r in all && r in alive { KeepElements(all, alive, r); }
    m, ids, kept := CompactActive(batch, n, all);
    KeepIsSubsequence(before, kept);
    KeepTwice(all, alive, kept);
    kept := alive * kept;
    KeptAreOthers(all, kept, ended);
    response, failed, permanent := None, false, false;
    if m > 0 {
      TimePasses(all);
      response, failed, permanent := client.IssueTokens(ids);
    }
  }

  function LastAsked(first: seq<string>, attempts: seq<seq<string>>): seq<string> {
    if attempts == [] then first else attempts[|attempts| - 1]
  }

  /** Every attempt asks for a subsequence of what was asked for before. */
  ghost predicate Narrowing(first: seq<string>, attempts: seq<seq<string>>) {
    forall k :: 0 <= k < |attempts| ==> Subsequence(attempts[k], LastAsked(first, attempts[..k]))
  }

  lemma NarrowingNext(first: seq<string>, attempts: seq<seq<string>>, ids: seq<string>)
    requires Narrowing(first, attempts) && Subsequence(ids, LastAsked(first, attempts))
    ensures Narrowing(first, attempts + [ids]) && LastAsked(first, attempts + [ids]) == ids
  {
    var longer := attempts + [ids];
    forall k | 0 <= k < |longer| ensures Subsequence(longer[k], LastAsked(first, longer[..k])) {
      if k < |attempts| {
        assert longer[..k] == attempts[..k];
      } else {
        assert longer[..k] == attempts;
      }
    }
  }

  function Asked(calls: seq<Call>): seq<seq<string>> {
    if calls == [] then [] else Asked(calls[..|calls| - 1]) + [calls[|calls| - 1].ids]
  }

  ghost predicate AllGaveUp(all: seq<TokenRequest>)
    reads all
  {
    forall r :: r in all ==> r.done
  }

  ghost predicate OnlyTransientRetried(calls: seq<Call>) {
    forall k :: 0 <= k < |calls| - 1 ==> calls[k].failed && !calls[k].permanent
  }

  /** The calls of one batch: each asks for a subsequence of the ids before it, and only a
      transient failure is followed by another call. */
  ghost predicate Retried(first: seq<string>, calls: seq<Call>) {
    Narrowing(first, Asked(calls)) && OnlyTransientRetried(calls)
  }

  lemma AskedNext(calls: seq<Call>, call: Call)
    ensures Asked(calls + [call]) == Asked(calls) + [call.ids]
  {
    assert (calls + [call])[..|calls|] == calls;
  }

  lemma TransientNext(calls: seq<Call>, call: Call)
    requires OnlyTransientRetried(calls)
    requires calls != [] ==> calls[|calls| - 1].failed && !calls[|calls| - 1].permanent
    ensures OnlyTransientRetried(calls + [call])
  {
  }

  lemma RetriedNext(first: seq<string>, calls: seq<Call>, call: Call)
    requires Retried(first, calls) && Subsequence(call.ids, LastAsked(first, Asked(calls)))
    requires calls != [] ==> calls[|calls| - 1].failed && !calls[|calls| - 1].permanent
    ensures Retried(first, calls + [call]) && LastAsked(first, Asked(calls + [call])) == call.ids
  {
    NarrowingNext(first, Asked(calls), call.ids);
    AskedNext(calls, call);
    TransientNext(calls, call);
  }

  /** The stage's context has ended, or every caller's has: the call in flight is given up. */
  method Interrupted(ctx: Context, all: seq<TokenRequest>) returns (stop: bool)
    modifies ctx
    ensures stop ==> ctx.done || AllGaveUp(all)
    ensures old(ctx.done) ==> ctx.done
  {
    stop := ctx.Expired();
    if * {
      stop := stop || forall r :: r in all ==> r.done;
    }
  }

  /** The outcome is the last call's, and there is no reason for another one. */
  ghost predicate Settles(calls: seq<Call>, response: Option<IssueResponse>, failed: bool, rounds: nat) {
    && calls != []
    && var last := calls[|calls| - 1];
       response == last.response && failed == last.failed && (!failed || last.permanent || |calls| == rounds + 1)
  }

  lemma NobodyLeft(batch: array<TokenRequest>, all: seq<TokenRequest>, alive: set<TokenRequest>)
    requires Waiting(batch, 0, all, alive)
    ensures AllGaveUp(all)
  {
    forall r | r in all ensures r !in alive { KeepElements(all, alive, r); }
  }

  /** Another call is due, for these ids. */
  ghost predicate Due(first: seq<string>, calls: seq<Call>, ids: seq<string>) {
    && Retried(first, calls) && ids == LastAsked(first, Asked(calls))
    && (calls != [] ==> calls[|calls| - 1].failed && !calls[|calls| - 1].permanent)
  }

  lemma DueNext(first: seq<string>, calls: seq<Call>, ids: seq<string>, call: Call)
    requires Due(first, calls, ids) && Subsequence(call.ids, ids)
    ensures Retried(first, calls + [call])
    ensures call.failed && !call.permanent ==> Due(first, calls + [call], call.ids)
  {
    RetriedNext(first, calls, call);
  }

  lemma TailOf(calls: seq<Call>, call: Call)
    ensures (calls + [call])[|calls|..] == [call]
  {
  }

  /** One attempt, and its place in the history of calls. */
  method AskOnce(client: Client, batch: array<TokenRequest>, n: nat, all: seq<TokenRequest>, ghost alive: set<TokenRequest>,
                 ghost ended: set<TokenRequest>, ghost calls: seq<Call>)
    returns (m: nat, response: Option<IssueResponse>, failed: bool, permanent: bool, ghost calls': seq<Call>, ghost kept: set<TokenRequest>)
    requires Waiting(batch, n, all, alive) && Distinct(all) && Due(Ids(all), calls, Ids(batch[..n]))
    requires LeavesOut(all, alive, ended, calls)
    modifies client, batch, all
    ensures Waiting(batch, m, all, kept)
    ensures LeavesOut(all, kept, ended, calls')
    ensures m == 0 ==> AllGaveUp(all) && calls' == calls && client.calls == old(client.calls)
    ensures m > 0 ==> |calls'| == |calls| + 1 && calls <= calls' && client.calls == old(client.calls) + calls'[|calls|..]
    ensures m > 0 ==> response == calls'[|calls|].response && failed == calls'[|calls|].failed && permanent == calls'[|calls|].permanent
    ensures Retried(Ids(all), calls')
    ensures m > 0 && failed && !permanent ==> Due(Ids(all), calls', Ids(batch[..m]))
  {
    ghost var before := Ids(batch[..n]);
    var ids;
    m, ids, response, failed, permanent, kept := Attempt(client, batch, n, all, alive, ended);
    calls' := calls;
    if m == 0 {
      NobodyLeft(batch, all, kept);
    } else {
      ghost var call := Call(ids, response, failed, permanent);
      DueNext(Ids(all), calls, before, call);
      NoneForEndedNext(calls, call, all, ended);
      calls' := calls + [call];
      TailOf(calls, call);
    }
  }

  /** Waits for the rate limiter, asks, and decides whether to go on. */
  method Round(client: Client, ctx: Context, batch: array<TokenRequest>, n: nat, all: seq<TokenRequest>, left: nat,
               ghost alive: set<TokenRequest>, ghost ended: set<TokenRequest>, ghost calls: seq<Call>)
    returns (m: nat, response: Option<IssueResponse>, failed: bool, over: bool, ghost calls': seq<Call>, ghost kept: set<TokenRequest>)
    requires Waiting(batch, n, all, alive) && Distinct(all) && Due(Ids(all), calls, Ids(batch[..n]))
    requires LeavesOut(all, alive, ended, calls)
    modifies client, ctx, batch, all
    ensures Waiting(batch, m, all, kept) && Retried(Ids(all), calls')
    ensures LeavesOut(all, kept, ended, calls')
    ensures calls <= calls' && client.calls == old(client.calls) + calls'[|calls|..]
    ensures !over ==> left > 0 && |calls'| == |calls| + 1 && Due(Ids(all), calls', Ids(batch[..m]))
    ensures over ==> (ctx.done && failed) || AllGaveUp(all) || Settles(calls', response, failed, |calls| + left)
  {
    var stop := Interrupted(ctx, all);
    if stop {
      return n, None, true, true, calls, alive;  // the rate limiter gave up
    }
    var permanent;
    m, response, failed, permanent, calls', kept := AskOnce(client, batch, n, all, alive, ended, calls);
    over := true;
    if m > 0 && failed && !permanent && left > 0 {
      over := Interrupted(ctx, all);
    } else if m > 0 {
      assert Settles(calls', response, failed, |calls| + left);
    }
  }

  lemma Appended(before: seq<Call>, calls: seq<Call>, calls': seq<Call>)
    requires calls <= calls'
    ensures (before + calls) + calls'[|calls|..] == before + calls'
  {
  }

  lemma EverybodyWaits(batch: array<TokenRequest>, all: seq<TokenRequest>)
    requires batch[..] == all && forall r :: r in all ==> r.answers == []
    ensures Waiting(batch, batch.Length, all, set r | r in all) && Due(Ids(all), [], Ids(batch[..batch.Length]))
  {
    KeepAll(all, set r | r in all);
    assert batch[..batch.Length] == all;
  }

  /** The calls for a batch, at most `rounds` of them retries, until one settles it or nobody waits. */
  method Ask(client: Client, ctx: Context, batch: array<TokenRequest>, all: seq<TokenRequest>, rounds: nat, ghost ended: set<TokenRequest>)
    returns (n: nat, response: Option<IssueResponse>, failed: bool, ghost calls: seq<Call>, ghost alive: set<TokenRequest>)
    requires batch[..] == all && Distinct(all) && (forall r :: r in all ==> r.answers == []) && Ended(all, ended)
    modifies client, ctx, batch, all
    ensures Waiting(batch, n, all, alive) && Retried(Ids(all), calls)
    ensures LeavesOut(all, alive, ended, calls)
    ensures client.calls == old(client.calls) + calls
    ensures (ctx.done && failed) || AllGaveUp(all) || Settles(calls, response, failed, rounds)
  {
    n, response, failed, alive, calls := batch.Length, None, false, set r | r in all, [];
    EverybodyWaits(batch, all);
    var left, over := rounds, false;
    while !over
      invariant Waiting(batch, n, all, alive) && Retried(Ids(all), calls)
      invariant LeavesOut(all, alive, ended, calls)
      invariant client.calls == old(client.calls) + calls
      invariant !over ==> |calls| == rounds - left && Due(Ids(all), calls, Ids(batch[..n]))
      invariant over ==> (ctx.done && failed) || AllGaveUp(all) || Settles(calls, response, failed, rounds)
      decreases !over, left
    {
      ghost var was := calls;
      n, response, failed, over, calls, alive := Round(client, ctx, batch, n, all, left, alive, ended, calls);
      Appended(old(client.calls), was, calls);
      if !over {
        left := left - 1;
      }
    }
  }

  /** Issues tokens for a batch. Whatever the contexts and the client do: every request gets one
      answer, in a send that cannot block, or its context has ended; the answers come from the last
      call's response, by UUID, unless the contexts ended; only transient failures are retried, and
      every retry asks for a subsequence of what the call before it asked for. */
  method Issue(client: Client, ctx: Context, batch: array<TokenRequest>, rounds: nat)
    returns (response: Option<IssueResponse>, failed: bool, ghost calls: seq<Call>)
    requires Distinct(batch[..]) && forall r :: r in batch[..] ==> r.answers == []
    modifies client, ctx, batch, batch[..]
    ensures Answered(old(batch[..]))
    ensures forall r :: r in old(batch[..]) && r.answers != [] ==> r.answers == [Answer(response, failed, r.id)]
    ensures client.calls == old(client.calls) + calls && Retried(Ids(old(batch[..])), calls)
    ensures (ctx.done && failed) || AllGaveUp(old(batch[..])) || Settles(calls, response, failed, rounds)
    // whoever had given up before is asked for in no call, and gets no answer once a call was made
    ensures NoneForEnded(calls, old(batch[..]), old(EndedNow(batch[..])))
    ensures calls != [] ==> forall r :: r in old(EndedNow(batch[..])) ==> r.answers == []
  {
    var all := batch[..];
    ghost var ended := EndedNow(all);
    var n;
    ghost var alive;
    n, response, failed, calls, alive := Ask(client, ctx, batch, all, rounds, ended);
    SendAnswers(batch, n, all, response, failed, alive);
  }

  /** Answers the requests still in the batch. */
  method SendAnswers(batch: array<TokenRequest>, n: nat, all: seq<TokenRequest>, response: Option<IssueResponse>, failed: bool,
                     ghost alive: set<TokenRequest>)
    requires Waiting(batch, n, all, alive) && Distinct(all)
    modifies all
    ensures forall r :: r in all ==> r.done == old(r.done) && (r !in alive ==> r.answers == [])
    ensures Answered(all)
    ensures forall r :: r in all && r.answers != [] ==> r.answers == [Answer(response, failed, r.id)]
  {
    var tokens := BuildTokens(response);
    KeepDistinct(all, alive);
    forall r ensures r in batch[..n] <==> r in all && r in alive { KeepElements(all, alive, r); }
    ghost var still := batch[..n];
    for i := 0 to n
      invariant batch[..n] == still && forall r :: r in all ==> r.done == old(r.done)
      invariant forall j :: 0 <= j < i ==> still[j].answers == [Answer(response, failed, still[j].id)]
      invariant forall j :: i <= j < n ==> still[j].answers == []
      invariant forall r :: r in all && r !in alive ==> r.answers == [] && r.done
    {
      var r := batch[i];
      assert r == still[i] && still[i] in still;
      var token := Lookup(tokens, r.id);
      r.Send(TokenResult(token, if failed then Some(CallFailed) else if token == "" then Some(TokenNotIssued(r.id)) else None));
    }
  }
}
