/** Retried writes to several nodes at once, and quorums over their results. */
module FaultTolerance {
  import opened Sequences
  import opened Records

  /** The error of a write whose attempts are used up. */
  datatype WriteError = Exhausted(retries: int, last: Option<string>)

  datatype WriteResult = WriteResult(success: bool, chunkID: string, nodeID: string, error: Option<WriteError>)

  // -------------------------------------------------------------- one node

  /** Some attempt of the first maxRetries + 1 succeeds. */
  ghost predicate EventuallyWritten(maxRetries: int, attempt: int -> Option<string>) {
    exists k: nat :: k <= maxRetries && attempt(k).None?
  }

  ghost predicate AllFailed(n: nat, attempt: int -> Option<string>) {
    forall k: nat :: k < n ==> attempt(k).Some?
  }

  /** Twice the total back-off, in units of the retry interval, before attempt number n. */
  function TwiceBackoff(n: int): int { n * (n - 1) }

  /** WriteWithRetry. `attempt(k)` is what the k-th call of the write function returns. The write
      stops at the first success, and an exhausted one has slept interval * m(m+1)/2 in all:
      the back-off grows linearly. */
  method WriteWithRetry(maxRetries: int, interval: int, attempt: int -> Option<string>)
    returns (err: Option<WriteError>, calls: nat, slept: int)
    ensures err.None? <==> EventuallyWritten(maxRetries, attempt)
    ensures err.None? ==> calls > 0 && attempt(calls - 1).None? && AllFailed(calls - 1, attempt)
    ensures err.Some? ==>
              calls == (if maxRetries < 0 then 0 else maxRetries + 1)
              && err.value == Exhausted(maxRetries, if calls == 0 then None else attempt(calls - 1))
    ensures calls > 0 ==> 2 * slept == interval * (calls * (calls - 1))
  {
    var lastErr: Option<string> := None;
    calls, slept := 0, 0;
    var retry := 0;
    while retry <= maxRetries
      invariant 0 <= retry && calls == retry && (maxRetries >= 0 ==> retry <= maxRetries + 1)
      invariant maxRetries < 0 ==> retry == 0
      invariant AllFailed(retry, attempt)
      invariant lastErr == if retry == 0 then None else attempt(retry - 1)
      invariant 2 * slept == if retry == 0 then 0 else interval * TwiceBackoff(retry)
    {
      if retry > 0 {
        assert interval * TwiceBackoff(retry + 1) == interval * TwiceBackoff(retry) + 2 * (interval * retry);
        slept := slept + interval * retry;
      }
      var e := attempt(retry);
      calls := calls + 1;
      if e.None? {
        assert retry <= maxRetries && attempt(retry).None?;
        return None, calls, slept;
      }
      lastErr := e;
      retry := retry + 1;
    }
    err := Some(Exhausted(maxRetries, lastErr));
  }

  // ---------------------------------------------------------- several nodes

  /** How many attempts are still possible in total. */
  ghost function Budget(tries: seq<nat>, limit: int): nat {
    if tries == [] then 0
    else (if tries[0] < limit then limit - tries[0] else 0) + Budget(tries[1..], limit)
  }

  lemma {:induction false} BudgetStep(tries: seq<nat>, limit: int, i: nat)
    requires i < |tries| && tries[i] < limit
    ensures Budget(tries[i := tries[i] + 1], limit) == Budget(tries, limit) - 1
  {
    var next := tries[i := tries[i] + 1];
    if i == 0 {
      assert next[1..] == tries[1..];
    } else {
      assert next[1..] == tries[1..][i - 1 := tries[i] + 1];
      BudgetStep(tries[1..], limit, i - 1);
    }
  }

  /** What slot i must hold when its goroutine has finished. */
  ghost predicate Final(r: WriteResult, maxRetries: int, chunkID: string, node: string, attempt: int -> Option<string>) {
    r.chunkID == chunkID && r.nodeID == node
    && (r.success <==> EventuallyWritten(maxRetries, attempt))
    && r.error == (if r.success then None
                   else Some(Exhausted(maxRetries, if maxRetries < 0 then None else attempt(maxRetries))))
  }

  /** A goroutine that has made `tried` failing attempts and is not finished. */
  ghost predicate Waiting(maxRetries: int, tried: nat, attempt: int -> Option<string>) {
    AllFailed(tried, attempt) && (tried == 0 || tried <= maxRetries + 1)
  }

  /** One scheduling step of a goroutine that has made `tried` failing attempts: another attempt,
      or giving up when none is left. */
  method Attempt(maxRetries: int, chunkID: string, node: string, attempt: int -> Option<string>, tried: nat)
    returns (done: Option<WriteResult>)
    requires Waiting(maxRetries, tried, attempt)
    ensures done.Some? ==> Final(done.value, maxRetries, chunkID, node, attempt)
    ensures done.None? ==> tried <= maxRetries && Waiting(maxRetries, tried + 1, attempt)
  {
    if tried <= maxRetries {
      if attempt(tried).None? {
        return Some(WriteResult(true, chunkID, node, None));
      }
      return None;
    }
    var last := if tried == 0 then None else attempt(tried - 1);
    return Some(WriteResult(false, chunkID, node, Some(Exhausted(maxRetries, last))));
  }

  /** Start one goroutine per node. */
  method Launch(n: nat) returns (running: set<nat>)
    ensures forall j: nat :: j in running <==> j < n
  {
    running := {};
    for i := 0 to n
      invariant forall j: nat :: j in running <==> j < i
    {
      running := running + {i};
    }
  }

  ghost predicate AllWaiting(maxRetries: int, running: set<nat>, tries: seq<nat>, outcome: seq<int -> Option<string>>) {
    |tries| == |outcome| && forall i :: i in running ==> i < |tries| && Waiting(maxRetries, tries[i], outcome[i])
  }

  lemma NotStarted(maxRetries: int, running: set<nat>, outcome: seq<int -> Option<string>>)
    requires forall i :: i in running ==> i < |outcome|
    ensures AllWaiting(maxRetries, running, seq(|outcome|, _ => 0), outcome)
  {
  }

  lemma WaitingOn(maxRetries: int, running: set<nat>, tries: seq<nat>, outcome: seq<int -> Option<string>>, i: nat)
    requires AllWaiting(maxRetries, running, tries, outcome) && i in running
    ensures i < |tries| == |outcome| && Waiting(maxRetries, tries[i], outcome[i])
    ensures AllWaiting(maxRetries, running - {i}, tries, outcome)
    ensures Waiting(maxRetries, tries[i] + 1, outcome[i]) ==> AllWaiting(maxRetries, running, tries[i := tries[i] + 1], outcome)
  {
    hide Waiting;
  }

  /** WriteToMultipleNodes with one goroutine per node. The scheduler may run any unfinished
      goroutine next, one attempt at a time; `outcome[i](k)` is attempt k of goroutine i.
      The result of every slot is the same for every schedule. */
  method WriteToMultipleNodes(maxRetries: int, chunkID: string, nodes: seq<string>, outcome: seq<int -> Option<string>>)
    returns (results: array<WriteResult>)
    requires |outcome| == |nodes|
    ensures fresh(results) && results.Length == |nodes|
    ensures forall i :: 0 <= i < |nodes| ==> Final(results[i], maxRetries, chunkID, nodes[i], outcome[i])
  {
    hide *;
    results := new WriteResult[|nodes|](_ => WriteResult(false, "", "", None));
    var tries: seq<nat> := seq(|nodes|, _ => 0);
    var running := Launch(|nodes|);
    NotStarted(maxRetries, running, outcome);
    while running != {}
      invariant AllWaiting(maxRetries, running, tries, outcome)
      invariant forall i: nat :: i < |nodes| && i !in running ==>
                  Final(results[i], maxRetries, chunkID, nodes[i], outcome[i])
      decreases Budget(tries, maxRetries + 1), |running|
    {
      var i: nat :| i in running;
      WaitingOn(maxRetries, running, tries, outcome, i);
      var done := Attempt(maxRetries, chunkID, nodes[i], outcome[i], tries[i]);
      if done.Some? {
        results[i] := done.value;
        running := running - {i};
      } else {
        BudgetStep(tries, maxRetries + 1, i);
        tries := tries[i := tries[i] + 1];
      }
    }
  }

  // ----------------------------------------------------------------- quorums

  function Successes(results: seq<WriteResult>): nat {
    if results == [] then 0 else (if results[0].success then 1 else 0) + Successes(results[1..])
  }

  function Written(results: seq<WriteResult>): set<string> {
    set r | r in results && r.success :: r.nodeID
  }

  lemma {:induction false} SuccessesAppend(results: seq<WriteResult>, r: WriteResult)
    ensures Successes(results + [r]) == Successes(results) + if r.success then 1 else 0
  {
    if results != [] {
      assert (results + [r])[1..] == results[1..] + [r];
      SuccessesAppend(results[1..], r);
    }
  }

  method CheckQuorum(results: seq<WriteResult>, requiredSuccess: int) returns (ok: bool)
    ensures ok <==> Successes(results) >= requiredSuccess
  {
    var successCount := 0;
    for i := 0 to |results|
      invariant successCount == Successes(results[..i])
    {
      SuccessesAppend(results[..i], results[i]);
      assert results[..i + 1] == results[..i] + [results[i]];
      if results[i].success { successCount := successCount + 1; }
    }
    assert results[..|results|] == results;
    ok := successCount >= requiredSuccess;
  }

  /** Node IDs of results, kept by outcome. */
  function IDsWhere(results: seq<WriteResult>, success: bool): seq<string> {
    if results == [] then []
    else (if results[0].success == success then [results[0].nodeID] else []) + IDsWhere(results[1..], success)
  }

  lemma {:induction false} IDsWhereAppend(results: seq<WriteResult>, success: bool, r: WriteResult)
    ensures IDsWhere(results + [r], success)
            == IDsWhere(results, success) + if r.success == success then [r.nodeID] else []
  {
    if results != [] {
      assert (results + [r])[1..] == results[1..] + [r];
      IDsWhereAppend(results[1..], success, r);
    }
  }

  method GetFailedNodes(results: seq<WriteResult>) returns (failed: seq<string>)
    ensures failed == IDsWhere(results, false)
  {
    failed := [];
    for i := 0 to |results|
      invariant failed == IDsWhere(results[..i], false)
    {
      IDsWhereAppend(results[..i], false, results[i]);
      assert results[..i + 1] == results[..i] + [results[i]];
      if !results[i].success { failed := failed + [results[i].nodeID]; }
    }
    assert results[..|results|] == results;
  }

  function AllIDs(results: seq<WriteResult>): (ids: seq<string>)
    ensures |ids| == |results| && forall i :: 0 <= i < |ids| ==> ids[i] == results[i].nodeID
  {
    if results == [] then [] else [results[0].nodeID] + AllIDs(results[1..])
  }

  /** Successes and failures together account for every node, with multiplicity. */
  lemma {:induction false} Accounting(results: seq<WriteResult>)
    ensures |IDsWhere(results, true)| == Successes(results)
    ensures Successes(results) + |IDsWhere(results, false)| == |results|
    ensures multiset(IDsWhere(results, true)) + multiset(IDsWhere(results, false)) == multiset(AllIDs(results))
  {
    if results != [] {
      Accounting(results[1..]);
      assert AllIDs(results) == [results[0].nodeID] + AllIDs(results[1..]);
    }
  }

  lemma {:induction false} WrittenCount(results: seq<WriteResult>)
    requires Distinct(AllIDs(results))
    ensures |Written(results)| == Successes(results)
    ensures Written(results) <= Elements(AllIDs(results))
  {
    if results != [] {
      var rest := results[1..];
      assert AllIDs(results)[1..] == AllIDs(rest);
      WrittenCount(rest);
      assert results == [results[0]] + rest;
      if results[0].success {
        assert Written(results) == {results[0].nodeID} + Written(rest);
        assert results[0].nodeID !in Elements(AllIDs(rest)) by {
          assert forall i :: 0 < i < |results| ==> AllIDs(results)[i] != AllIDs(results)[0];
        }
      } else {
        assert Written(results) == Written(rest);
      }
      assert Elements(AllIDs(results)) == {results[0].nodeID} + Elements(AllIDs(rest));
    }
  }

  /** Two writes to the same distinct nodes that pass overlapping quorums share a node that
      took both. */
  lemma QuorumsIntersect(a: seq<WriteResult>, b: seq<WriteResult>, q1: int, q2: int)
    requires Distinct(AllIDs(a)) && Distinct(AllIDs(b))
    requires Elements(AllIDs(a)) == Elements(AllIDs(b))
    requires Successes(a) >= q1 && Successes(b) >= q2 && q1 + q2 > |a|
    ensures exists node :: node in Written(a) && node in Written(b)
  {
    WrittenCount(a);
    WrittenCount(b);
    DistinctElements(AllIDs(a));
    var all := Elements(AllIDs(a));
    Fits(Written(a) + Written(b), all);
    assert |Written(a) + Written(b)| == |Written(a)| + |Written(b)| - |Written(a) * Written(b)|;
    assert Written(a) * Written(b) != {};
    var node :| node in Written(a) * Written(b);
    assert node in Written(a) && node in Written(b);
  }

  lemma {:induction false} Fits(a: set<string>, b: set<string>)
    requires a <= b
    ensures |a| <= |b|
  {
    assert b == a + (b - a);
  }
}
