/**
 * The PartiQL write path of the DynamoDB output, as its tests
 * (`lib/output/writer/dynamodb_partiql_test.go`) pin it down: one batch call
 * with every statement; if that call fails outright, one individual call per
 * statement; if it succeeds with per-statement errors, re-submit only the
 * failed statements, a bounded number of times.
 *
 * The client is an oracle: a batch call is answered from its call number and
 * the statements sent, an individual call from its call number and statement.
 */
module DynamoDBPartiql {
  import opened Wrappers
  import opened Text
  import opened Message

  /** The answer to a batch call: an outright error, or one flag per response saying it carries an error (missing responses carry none). */
  datatype BatchReply = CallFailed(err: string) | Responses(failed: seq<bool>)

  /** `BatchExecuteStatementWithContext`: (call number, statements sent) to reply. */
  type BatchClient = (nat, seq<string>) -> BatchReply

  /** `ExecuteStatementWithContext`: (call number, statement) to its error, if any. */
  type StatementClient = (nat, string) -> Option<string>

  /** What one write did: its result (nil or a batch error) and every call made, in order. */
  datatype Trace = Trace(result: Option<BatchError>, batchCalls: seq<seq<string>>, statementCalls: seq<string>)

  predicate Increasing(s: seq<nat>)
  {
    forall i, j :: 0 <= i < j < |s| ==> s[i] < s[j]
  }

  predicate Below(s: seq<nat>, n: nat)
  {
    forall i :: 0 <= i < |s| ==> s[i] < n
  }

  /** The response at position `j` carries an error. */
  predicate FailedAt(failed: seq<bool>, j: nat)
  {
    j < |failed| && failed[j]
  }

  function AllIndices(n: nat): (r: seq<nat>)
    ensures |r| == n && Increasing(r) && Below(r, n)
    ensures forall j :: 0 <= j < n ==> r[j] == j
  {
    seq(n, j => j)
  }

  /** The statements at the given original indices, in that order. */
  function Select(stmts: seq<string>, idx: seq<nat>): (r: seq<string>)
    requires Below(idx, |stmts|)
    ensures |r| == |idx| && forall j :: 0 <= j < |idx| ==> r[j] == stmts[idx[j]]
  {
    seq(|idx|, j requires 0 <= j < |idx| => stmts[idx[j]])
  }

  /**
   * The original indices whose statements are still failing: `pending[j]` is
   * kept exactly when response `j` of the call that sent them carries an error
   * (StillFailingKeeps). Order is kept, so the result is a subsequence of `pending`.
   */
  function StillFailing(pending: seq<nat>, failed: seq<bool>): (r: seq<nat>)
    ensures |r| <= |pending|
    decreases |pending|
  {
    if pending == [] then []
    else (if FailedAt(failed, 0) then [pending[0]] else []) + StillFailing(pending[1..], Tail(failed))
  }

  function Tail(failed: seq<bool>): seq<bool>
  {
    if 0 < |failed| then failed[1..] else []
  }

  /** Every still-failing index was pending. */
  lemma {:induction false} StillFailingSubset(pending: seq<nat>, failed: seq<bool>)
    ensures forall x :: x in StillFailing(pending, failed) ==> x in pending
    decreases |pending|
  {
    if pending != [] {
      StillFailingSubset(pending[1..], Tail(failed));
    }
  }

  /** Still-failing indices are indices of the batch. */
  lemma {:induction false} StillFailingBelow(pending: seq<nat>, failed: seq<bool>, n: nat)
    requires Below(pending, n)
    ensures Below(StillFailing(pending, failed), n)
    decreases |pending|
  {
    if pending != [] {
      StillFailingBelow(pending[1..], Tail(failed), n);
    }
  }

  /** Filtering keeps the order. */
  lemma {:induction false} StillFailingIncreasing(pending: seq<nat>, failed: seq<bool>)
    requires Increasing(pending)
    ensures Increasing(StillFailing(pending, failed))
    decreases |pending|
  {
    if pending != [] {
      var rest := StillFailing(pending[1..], Tail(failed));
      assert Increasing(pending[1..]);
      StillFailingIncreasing(pending[1..], Tail(failed));
      StillFailingSubset(pending[1..], Tail(failed));
      forall x | x in rest ensures pending[0] < x {
        var j :| 0 <= j < |pending[1..]| && pending[1..][j] == x;
        assert pending[j + 1] == x;
      }
      var r := StillFailing(pending, failed);
      if FailedAt(failed, 0) {
        assert r == [pending[0]] + rest;
        assert forall i :: 1 <= i < |r| ==> r[i] == rest[i - 1] && r[i] in rest;
      }
    }
  }

  /** Of increasing pending indices, exactly those whose response failed stay. */
  lemma {:induction false} StillFailingKeeps(pending: seq<nat>, failed: seq<bool>)
    requires Increasing(pending)
    ensures forall j :: 0 <= j < |pending| ==> (pending[j] in StillFailing(pending, failed) <==> FailedAt(failed, j))
    decreases |pending|
  {
    if pending != [] {
      var rest := StillFailing(pending[1..], Tail(failed));
      assert Increasing(pending[1..]);
      StillFailingKeeps(pending[1..], Tail(failed));
      StillFailingSubset(pending[1..], Tail(failed));
      assert forall j :: 1 <= j < |pending| ==> FailedAt(failed, j) == FailedAt(Tail(failed), j - 1);
      assert forall j :: 1 <= j < |pending| ==> pending[j] == pending[1..][j - 1];
      forall x | x in rest ensures pending[0] < x {
        var k :| 0 <= k < |pending[1..]| && pending[1..][k] == x;
        assert pending[k + 1] == x;
      }
    }
  }

  /** The pending indices and last error after one retry call's reply. */
  function AfterReply(pending: seq<nat>, reply: BatchReply, ghost n: nat): (a: (seq<nat>, Option<string>))
    requires Below(pending, n)
    ensures Below(a.0, n)
    ensures reply.Responses? ==> a.1.None? && |a.0| <= |pending|
  {
    match reply
    case CallFailed(e) => (pending, Some(e))
    case Responses(f) =>
      StillFailingBelow(pending, f, n);
      (StillFailing(pending, f), None)
  }

  /** The state of the retry loop when it stops. */
  datatype Retry = Retry(pending: seq<nat>, lastErr: Option<string>, calls: seq<seq<string>>)

  /**
   * The retry loop: while statements are pending and the budget lasts, send
   * the pending statements again; an outright error keeps them all pending
   * and becomes the last error, a reply keeps those whose response failed.
   */
  function RetryPending(stmts: seq<string>, pending: seq<nat>, lastErr: Option<string>, callNo: nat, budget: nat, client: BatchClient): (r: Retry)
    requires Below(pending, |stmts|)
    ensures Below(r.pending, |stmts|)
    ensures |r.calls| <= budget
    ensures r.pending != [] ==> |r.calls| == budget
    decreases budget
  {
    if pending == [] || budget == 0 then Retry(pending, lastErr, [])
    else
      var sent := Select(stmts, pending);
      var a := AfterReply(pending, client(callNo, sent), |stmts|);
      var next := RetryPending(stmts, a.0, a.1, callNo + 1, budget - 1, client);
      next.(calls := [sent] + next.calls)
  }

  /** The errors of the individual calls, keyed by the index of the statement that failed. */
  function IndividualFailures(stmts: seq<string>, single: StatementClient): (m: map<nat, string>)
    ensures forall i: nat :: i in m <==> i < |stmts| && single(i, stmts[i]).Some?
    ensures forall i :: i in m ==> i < |stmts| && m[i] == single(i, stmts[i]).value
  {
    map i | 0 <= i < |stmts| && single(i, stmts[i]).Some? :: single(i, stmts[i]).value
  }

  /** The error recorded against each statement still failing once the retries are spent. */
  function StatementFailures(stmts: seq<string>, pending: seq<nat>): (m: map<nat, string>)
    requires Below(pending, |stmts|)
    ensures forall i :: i in m <==> i in pending
    ensures forall i :: i in m ==> i < |stmts| && m[i] == "failed to process statement: " + stmts[i]
  {
    map i | i in pending :: "failed to process statement: " + stmts[i]
  }

  function UnprocessedError(count: nat): (m: string)
    ensures HasPrefix(m, "failed to process ")
  {
    var m := "failed to process " + NatToString(count) + " statements";
    assert m == "failed to process " + (NatToString(count) + " statements");
    m
  }

  /** The original indices whose first-call response carries an error, in order. */
  function FirstFailures(n: nat, f: seq<bool>): (p: seq<nat>)
    ensures Increasing(p) && Below(p, n)
    ensures forall i: nat :: i in p <==> i < n && FailedAt(f, i)
  {
    var all := AllIndices(n);
    var r := StillFailing(all, f);
    StillFailingBelow(all, f, n);
    StillFailingIncreasing(all, f);
    StillFailingKeeps(all, f);
    StillFailingSubset(all, f);
    assert forall i: nat :: i in r ==> i < n && FailedAt(f, i) by {
      forall i: nat | i in r ensures i < n && FailedAt(f, i) {
        var j :| 0 <= j < |r| && r[j] == i;
        assert all[i] == i;
      }
    }
    assert forall i: nat :: i < n && FailedAt(f, i) ==> i in r by {
      forall i: nat | i < n && FailedAt(f, i) ensures i in r {
        assert all[i] == i;
      }
    }
    r
  }

  /** After an outright batch failure: every statement executed once, in order. */
  function FallbackTrace(stmts: seq<string>, bulkErr: string, single: StatementClient): (t: Trace)
    ensures t.result.None? <==> forall i :: 0 <= i < |stmts| ==> single(i, stmts[i]).None?
    ensures t.result.Some? ==> t.result.value.base == bulkErr && t.result.value.ValidFor(|stmts|)
  {
    var fails := IndividualFailures(stmts, single);
    Trace(if fails == map[] then None else Some(BatchError(bulkErr, fails)), [stmts], stmts)
  }

  /** The result once the retries stop: nil when nothing is pending, else a batch error over the pending indices. */
  function RetryResult(stmts: seq<string>, r: Retry): (res: Option<BatchError>)
    requires Below(r.pending, |stmts|)
    ensures res.None? <==> r.pending == []
    ensures res.Some? ==> (forall i :: i in res.value.failed <==> i in r.pending) && res.value.ValidFor(|stmts|)
    ensures res.Some? && r.lastErr.Some? ==> res.value.base == r.lastErr.value
  {
    if r.pending == [] then None
    else
      var base := if r.lastErr.Some? then r.lastErr.value else UnprocessedError(|r.pending|);
      Some(BatchError(base, StatementFailures(stmts, r.pending)))
  }

  /** After a batch reply: retry the failed subset. */
  function RetryTrace(stmts: seq<string>, f: seq<bool>, maxRetries: nat, batch: BatchClient): (t: Trace)
    ensures t.statementCalls == []
    ensures 1 <= |t.batchCalls| <= 1 + maxRetries && t.batchCalls[0] == stmts
  {
    var r := RetryPending(stmts, FirstFailures(|stmts|, f), None, 1, maxRetries, batch);
    Trace(RetryResult(stmts, r), [stmts] + r.calls, [])
  }

  /** The whole write: the batch call, then either the individual fallback or the retries. */
  function WriteSpec(stmts: seq<string>, maxRetries: nat, batch: BatchClient, single: StatementClient): (t: Trace)
    ensures 1 <= |t.batchCalls| && t.batchCalls[0] == stmts
    ensures batch(0, stmts).Responses? ==> t.statementCalls == []
    ensures batch(0, stmts).CallFailed? ==> t.batchCalls == [stmts] && t.statementCalls == stmts
  {
    match batch(0, stmts)
    case CallFailed(e) => FallbackTrace(stmts, e, single)
    case Responses(f) => RetryTrace(stmts, f, maxRetries, batch)
  }

  /** The individual fallback: one call per statement, in order, collecting the errors by index. */
  method ExecuteEach(stmts: seq<string>, single: StatementClient) returns (fails: map<nat, string>, statementCalls: seq<string>)
    ensures fails == IndividualFailures(stmts, single)
    ensures statementCalls == stmts
  {
    fails := map[];
    statementCalls := [];
    for i := 0 to |stmts|
      invariant statementCalls == stmts[..i]
      invariant fails == map j | 0 <= j < i && single(j, stmts[j]).Some? :: single(j, stmts[j]).value
    {
      var err := single(i, stmts[i]);
      statementCalls := statementCalls + [stmts[i]];
      if err.Some? {
        fails := fails[i := err.value];
      }
    }
    assert statementCalls == stmts;
  }

  /** The retry loop: re-submit the pending statements while any remain and the budget lasts. */
  method RetryLoop(stmts: seq<string>, pending0: seq<nat>, maxRetries: nat, batch: BatchClient) returns (r: Retry)
    requires Below(pending0, |stmts|)
    ensures r == RetryPending(stmts, pending0, None, 1, maxRetries, batch)
  {
    var pending := pending0;
    var lastErr: Option<string> := None;
    var callNo: nat := 1;
    var budget := maxRetries;
    var calls: seq<seq<string>> := [];
    while pending != [] && budget > 0
      invariant Below(pending, |stmts|)
      invariant var rest := RetryPending(stmts, pending, lastErr, callNo, budget, batch);
        RetryPending(stmts, pending0, None, 1, maxRetries, batch) == rest.(calls := calls + rest.calls)
      decreases budget
    {
      var sent := Select(stmts, pending);
      calls := calls + [sent];
      var a := AfterReply(pending, batch(callNo, sent), |stmts|);
      pending, lastErr := a.0, a.1;
      callNo := callNo + 1;
      budget := budget - 1;
    }
    r := Retry(pending, lastErr, calls);
  }

  /** `WriteBatch`: makes the calls one after another and reports what WriteSpec says. */
  method Write(stmts: seq<string>, maxRetries: nat, batch: BatchClient, single: StatementClient)
    returns (result: Option<BatchError>, batchCalls: seq<seq<string>>, statementCalls: seq<string>)
    ensures Trace(result, batchCalls, statementCalls) == WriteSpec(stmts, maxRetries, batch, single)
  {
    match batch(0, stmts)
    case CallFailed(e) =>
      var fails;
      fails, statementCalls := ExecuteEach(stmts, single);
      batchCalls := [stmts];
      result := if fails == map[] then None else Some(BatchError(e, fails));
    case Responses(f) =>
      var r := RetryLoop(stmts, FirstFailures(|stmts|, f), maxRetries, batch);
      batchCalls := [stmts] + r.calls;
      statementCalls := [];
      result := RetryResult(stmts, r);
  }

  // ---------------------------------------------------------------------------
  // The behaviour the tests pin down
  // ---------------------------------------------------------------------------

  /** No response flagged: nothing stays pending. */
  lemma {:induction false} StillFailingNone(pending: seq<nat>, failed: seq<bool>)
    requires forall j :: 0 <= j < |pending| ==> !FailedAt(failed, j)
    ensures StillFailing(pending, failed) == []
    decreases |pending|
  {
    if pending != [] {
      assert forall j :: 0 <= j < |pending| - 1 ==> FailedAt(Tail(failed), j) == FailedAt(failed, j + 1);
      StillFailingNone(pending[1..], Tail(failed));
    }
  }

  /** Every response flagged: everything stays pending. */
  lemma {:induction false} StillFailingAll(pending: seq<nat>, failed: seq<bool>)
    requires forall j :: 0 <= j < |pending| ==> FailedAt(failed, j)
    ensures StillFailing(pending, failed) == pending
    decreases |pending|
  {
    if pending != [] {
      assert forall j :: 0 <= j < |pending| - 1 ==> FailedAt(Tail(failed), j) == FailedAt(failed, j + 1);
      StillFailingAll(pending[1..], Tail(failed));
    }
  }

  /**
   * TestDynamoDBPartiqlHappy: a batch reply with no failed response ends the
   * write after that one call, with a nil result and no individual calls.
   */
  lemma HappyPath(stmts: seq<string>, maxRetries: nat, batch: BatchClient, single: StatementClient, f: seq<bool>)
    requires batch(0, stmts) == Responses(f)
    requires forall i :: 0 <= i < |stmts| ==> !FailedAt(f, i)
    ensures WriteSpec(stmts, maxRetries, batch, single) == Trace(None, [stmts], [])
  {
    var p := FirstFailures(|stmts|, f);
    StillFailingNone(AllIndices(|stmts|), f);
    assert RetryPending(stmts, p, None, 1, maxRetries, batch) == Retry([], None, []);
    assert [stmts] + [] == [stmts];
  }

  /**
   * TestDynamoDBPartiqlSadToGood and TestDynamoDBPartiqlSad: a batch call that
   * fails outright is followed by one individual call per statement, in
   * order, and no further batch call; the result is nil exactly when every
   * individual call succeeds, and otherwise a batch error whose base is the
   * bulk error and whose failures are the individual errors by index.
   */
  lemma BulkFailureDegrades(stmts: seq<string>, maxRetries: nat, batch: BatchClient, single: StatementClient, e: string)
    requires batch(0, stmts) == CallFailed(e)
    ensures var t := WriteSpec(stmts, maxRetries, batch, single);
      && t.batchCalls == [stmts]
      && t.statementCalls == stmts
      && (t.result.None? <==> forall i :: 0 <= i < |stmts| ==> single(i, stmts[i]).None?)
      && (t.result.Some? ==> t.result.value.base == e)
      && (t.result.Some? ==> forall i: nat :: i in t.result.value.failed <==> i < |stmts| && single(i, stmts[i]).Some?)
      && (t.result.Some? ==> forall i :: i in t.result.value.failed ==> t.result.value.failed[i] == single(i, stmts[i]).value)
  {
    var fails := IndividualFailures(stmts, single);
    if fails == map[] {
      forall i | 0 <= i < |stmts| ensures single(i, stmts[i]).None? {
        assert i !in fails;
      }
    } else {
      var k :| k in fails;
      assert single(k, stmts[k]).Some?;
    }
  }

  /**
   * TestDynamoDBPartiqlSadToGoodBatch: after a reply with failed responses,
   * the next batch call carries exactly the failed statements, in their
   * original relative order, and no individual call is made.
   */
  lemma RetrySendsFailedSubset(stmts: seq<string>, maxRetries: nat, batch: BatchClient, single: StatementClient, f: seq<bool>)
    requires batch(0, stmts) == Responses(f)
    requires exists i :: 0 <= i < |stmts| && FailedAt(f, i)
    requires maxRetries > 0
    ensures var t := WriteSpec(stmts, maxRetries, batch, single);
      var p := FirstFailures(|stmts|, f);
      && |t.batchCalls| >= 2
      && t.batchCalls[0] == stmts
      && t.batchCalls[1] == Select(stmts, p)
      && t.statementCalls == []
  {
    var i :| 0 <= i < |stmts| && FailedAt(f, i);
    var p := FirstFailures(|stmts|, f);
    assert i in p;
  }

  /**
   * TestDynamoDBPartiqlSadToGoodBatch: when the retried subset comes back with
   * no failed response, the write returns nil after exactly two batch calls.
   */
  lemma RetrySucceeds(stmts: seq<string>, maxRetries: nat, batch: BatchClient, single: StatementClient, f: seq<bool>, g: seq<bool>)
    requires batch(0, stmts) == Responses(f)
    requires exists i :: 0 <= i < |stmts| && FailedAt(f, i)
    requires maxRetries > 0
    requires batch(1, Select(stmts, FirstFailures(|stmts|, f))) == Responses(g)
    requires forall j :: 0 <= j < |stmts| ==> !FailedAt(g, j)
    ensures var t := WriteSpec(stmts, maxRetries, batch, single);
      && t.result == None
      && t.batchCalls == [stmts, Select(stmts, FirstFailures(|stmts|, f))]
      && t.statementCalls == []
  {
    var i :| 0 <= i < |stmts| && FailedAt(f, i);
    var p := FirstFailures(|stmts|, f);
    assert i in p;
    assert |p| <= |stmts| by {
      // every pending index is distinct and below |stmts|
      IncreasingBelowLength(p, |stmts|);
    }
    StillFailingNone(p, g);
    var sent := Select(stmts, p);
    assert AfterReply(p, batch(1, sent), |stmts|) == ([], None);
    assert RetryPending(stmts, p, None, 1, maxRetries, batch).calls == [sent];
  }

  /** An increasing sequence of indices below `n` has at most `n` elements. */
  lemma {:induction false} IncreasingBelowLength(p: seq<nat>, n: nat)
    requires Increasing(p) && Below(p, n)
    ensures |p| <= n
    decreases |p|
  {
    if p != [] {
      var last := p[|p| - 1];
      var init := p[..|p| - 1];
      assert Increasing(init);
      assert Below(init, last);
      IncreasingBelowLength(init, last);
    }
  }

  /**
   * The mock of TestDynamoDBPartiqlSadBatch: every call replies with one
   * response per statement sent, failed exactly for the statements `bad`
   * rejects.
   */
  function RejectingReply(sent: seq<string>, bad: string -> bool): (reply: BatchReply)
    ensures reply.Responses? && |reply.failed| == |sent|
    ensures forall j :: 0 <= j < |sent| ==> (FailedAt(reply.failed, j) <==> bad(sent[j]))
  {
    Responses(seq(|sent|, j requires 0 <= j < |sent| => bad(sent[j])))
  }

  /** Against a rejecting client, rejected statements stay pending for the whole budget, each retry re-sending them all. */
  lemma {:induction false} PersistentRetries(stmts: seq<string>, pending: seq<nat>, lastErr: Option<string>, callNo: nat, budget: nat, batch: BatchClient, bad: string -> bool)
    requires Below(pending, |stmts|)
    requires forall k: nat, sent: seq<string> :: batch(k, sent) == RejectingReply(sent, bad)
    requires forall j :: 0 <= j < |pending| ==> bad(stmts[pending[j]])
    ensures var r := RetryPending(stmts, pending, lastErr, callNo, budget, batch);
      && r.pending == pending
      && r.lastErr == (if budget == 0 || pending == [] then lastErr else None)
      && |r.calls| == (if pending == [] then 0 else budget)
      && forall k :: 0 <= k < |r.calls| ==> r.calls[k] == Select(stmts, pending)
    decreases budget
  {
    if pending != [] && budget > 0 {
      RejectedAgain(stmts, pending, callNo, batch, bad);
      PersistentRetries(stmts, pending, None, callNo + 1, budget - 1, batch, bad);
    }
  }

  /** A rejecting client's reply to re-sent rejected statements keeps all of them pending and clears the last error. */
  lemma RejectedAgain(stmts: seq<string>, pending: seq<nat>, callNo: nat, batch: BatchClient, bad: string -> bool)
    requires Below(pending, |stmts|)
    requires forall k: nat, sent: seq<string> :: batch(k, sent) == RejectingReply(sent, bad)
    requires forall j :: 0 <= j < |pending| ==> bad(stmts[pending[j]])
    ensures AfterReply(pending, batch(callNo, Select(stmts, pending)), |stmts|) == (pending, None)
  {
    var sent := Select(stmts, pending);
    var reply := RejectingReply(sent, bad);
    assert batch(callNo, sent) == reply;
    StillFailingAll(pending, reply.failed);
  }

  /**
   * TestDynamoDBPartiqlSadBatch: when the same statements keep failing, every
   * retry re-sends exactly them, and once the budget is spent the result is
   * a batch error "failed to process N statements" with each still-failing
   * original index mapped to a message naming its statement.
   */
  lemma PersistentFailure(stmts: seq<string>, maxRetries: nat, batch: BatchClient, single: StatementClient, bad: string -> bool)
    requires forall k: nat, sent: seq<string> :: batch(k, sent) == RejectingReply(sent, bad)
    requires exists i :: 0 <= i < |stmts| && bad(stmts[i])
    ensures var t := WriteSpec(stmts, maxRetries, batch, single);
      var p := FirstFailures(|stmts|, RejectingReply(stmts, bad).failed);
      && (forall i: nat :: i in p <==> i < |stmts| && bad(stmts[i]))
      && t.result == Some(BatchError(UnprocessedError(|p|), StatementFailures(stmts, p)))
      && |t.batchCalls| == 1 + maxRetries
      && t.batchCalls[0] == stmts
      && (forall k :: 1 <= k < |t.batchCalls| ==> t.batchCalls[k] == Select(stmts, p))
      && t.statementCalls == []
  {
    var f := RejectingReply(stmts, bad).failed;
    assert batch(0, stmts) == RejectingReply(stmts, bad);
    var p := FirstFailures(|stmts|, f);
    var i :| 0 <= i < |stmts| && bad(stmts[i]);
    assert i in p;
    forall j | 0 <= j < |p| ensures bad(stmts[p[j]]) {
      assert p[j] in p;
    }
    PersistentRetries(stmts, p, None, 1, maxRetries, batch, bad);
  }

  /** The outcome TestDynamoDBPartiqlSadBatch expects for its three messages, the second of them rejected. */
  lemma SadBatchExample(s0: string, s1: string, s2: string, maxRetries: nat, batch: BatchClient, single: StatementClient, bad: string -> bool)
    requires forall k: nat, sent: seq<string> :: batch(k, sent) == RejectingReply(sent, bad)
    requires !bad(s0) && bad(s1) && !bad(s2)
    ensures var t := WriteSpec([s0, s1, s2], maxRetries, batch, single);
      && t.result == Some(BatchError("failed to process 1 statements", map[1 := "failed to process statement: " + s1]))
      && (maxRetries > 0 ==> |t.batchCalls| >= 2 && t.batchCalls[0] == [s0, s1, s2] && t.batchCalls[1] == [s1])
  {
    var stmts := [s0, s1, s2];
    assert bad(stmts[1]);
    PersistentFailure(stmts, maxRetries, batch, single, bad);
    OnlySecondRejected(stmts, bad);
    var p := FirstFailures(|stmts|, RejectingReply(stmts, bad).failed);
    assert Select(stmts, p) == [s1];
    OneUnprocessed();
    assert StatementFailures(stmts, p) == map[1 := "failed to process statement: " + s1];
  }

  /** Of three statements of which only the second is rejected, only index 1 is pending after the first call. */
  lemma OnlySecondRejected(stmts: seq<string>, bad: string -> bool)
    requires |stmts| == 3 && !bad(stmts[0]) && bad(stmts[1]) && !bad(stmts[2])
    ensures FirstFailures(3, RejectingReply(stmts, bad).failed) == [1]
  {
    var f := RejectingReply(stmts, bad).failed;
    assert f == [false, true, false];
    assert AllIndices(3) == [0, 1, 2];
    assert StillFailing([2], Tail(Tail(f))) == [];
    assert StillFailing([1, 2], Tail(f)) == [1];
  }

  lemma OneUnprocessed()
    ensures UnprocessedError(1) == "failed to process 1 statements"
  {
    assert NatToString(1) == "1";
  }

  /** The outcome TestDynamoDBPartiqlSad expects: the bulk error as base, the failed individual call at its index. */
  lemma SadExample(s0: string, s1: string, s2: string, maxRetries: nat, batch: BatchClient, single: StatementClient, bulkErr: string, barErr: string)
    requires batch(0, [s0, s1, s2]) == CallFailed(bulkErr)
    requires single(0, s0) == None && single(1, s1) == Some(barErr) && single(2, s2) == None
    ensures WriteSpec([s0, s1, s2], maxRetries, batch, single)
      == Trace(Some(BatchError(bulkErr, map[1 := barErr])), [[s0, s1, s2]], [s0, s1, s2])
  {
    var stmts := [s0, s1, s2];
    assert stmts[0] == s0 && stmts[1] == s1 && stmts[2] == s2;
    var fails := IndividualFailures(stmts, single);
    assert fails.Keys == {1};
    assert fails == map[1 := barErr];
  }

  /** Every failure a write reports is keyed by an index of the batch. */
  lemma ErrorIndicesValid(stmts: seq<string>, maxRetries: nat, batch: BatchClient, single: StatementClient)
    ensures var t := WriteSpec(stmts, maxRetries, batch, single);
      t.result.Some? ==> t.result.value.ValidFor(|stmts|)
  {
  }
}
