/** What the rows show of the executor's answers: which answer a row carries, over whole runs, with rollbacks and
    retries. */
module Answers {
  import opened WorkItems
  import opened Scheduler
  import opened Batches
  import opened Runs

  /** The answer fails its item. */
  predicate Fails(o: Outcome) {
    o.Raised? || o.verdict == Rejected
  }

  /** A row found as `found` is `r` once it was answered `o`. */
  predicate Follows(found: Item, o: Outcome, r: Item) {
    && r.profile == found.profile && r.flags == o.flags
    && (r.status == Done <==> o.Returned? && o.verdict == Succeeded)
    && (r.status == Skipped <==> o.Returned? && o.verdict == Passed)
    && (r.status == Queued <==> Fails(o) && o.retry && found.attempt + 1 < found.profile.maxAttempts)
    && (r.status == Failed <==> Fails(o) && !(o.retry && found.attempt + 1 < found.profile.maxAttempts))
    && r.attempt == found.attempt + if r.status == Queued then 1 else 0
  }

  lemma SettleFollows(found: Item, o: Outcome)
    ensures Follows(found, o, Settle(found, o))
  {
  }

  // ---------------------------------------------------------------- one batch

  ghost predicate RaisedAfter(batch: seq<nat>, n: nat, calls: nat, exec: Executor, j: nat)
    requires j < n <= |batch|
  {
    exists m :: j < m < n && exec(calls + m, batch[m]).Raised?
  }

  /** How a batch leaves its own rows: a later raise brings a row back as it was found. */
  lemma {:induction false} BatchRowIs(base: seq<Item>, batch: seq<nat>, n: nat, calls: nat, exec: Executor, j: nat)
    requires j < n <= |batch| && Fresh(base, batch)
    ensures if RaisedAfter(batch, n, calls, exec, j)
            then AfterBatch(base, batch, n, calls, exec)[batch[j]] == base[batch[j]]
            else Follows(base[batch[j]], exec(calls + j, batch[j]), AfterBatch(base, batch, n, calls, exec)[batch[j]])
  {
    var o := exec(calls + n - 1, batch[n - 1]);
    if j == n - 1 {
      assert AfterBatch(base, batch, j, calls, exec)[batch[j]] == base[batch[j]] by {
        BatchFrame(base, batch, j, calls, exec);
      }
      SettleFollows(base[batch[j]], o);
      assert exec(calls + j, batch[j]) == o;
    } else {
      BatchRowIs(base, batch, n - 1, calls, exec, j);
      if o.Raised? {
        assert exec(calls + (n - 1), batch[n - 1]).Raised?;
      }
    }
  }

  lemma {:induction false} PrefixBatch(base: seq<Item>, batch: seq<nat>, n: nat, j: nat, calls: nat, exec: Executor)
    requires j <= n <= |batch| && InRange(base, batch)
    ensures AfterBatch(base, batch[..n], j, calls, exec) == AfterBatch(base, batch, j, calls, exec)
    ensures BatchCalls(base, batch[..n], j, calls, exec) == BatchCalls(base, batch, j, calls, exec)
  {
    if j > 0 {
      PrefixBatch(base, batch, n, j - 1, calls, exec);
    }
  }

  // ---------------------------------------------------------------- over a run

  predicate LastCall(log: seq<Call>, k: nat, y: nat) {
    k < |log| && log[k].row == y && forall j :: k < j < |log| ==> log[j].row != y
  }

  /** Row `y` follows the answer of call `k`, or is as the call found it if the call was rolled back. */
  ghost predicate Shows(initial: seq<Item>, items: seq<Item>, log: seq<Call>, k: nat, y: nat)
    requires y < |initial| == |items| && k < |log|
  {
    && |log[k].rows| == |initial|
    && if RolledBack(log, k) then items[y] == log[k].rows[y]
       else Follows(log[k].rows[y], log[k].outcome, items[y])
  }

  /** A row that was never called is as it was, and otherwise shows its last call. */
  ghost predicate RowExplained(initial: seq<Item>, items: seq<Item>, log: seq<Call>, y: nat)
    requires y < |initial| == |items|
  {
    && (y !in Rows(log) ==> items[y] == initial[y])
    && forall k: nat :: LastCall(log, k, y) ==> Shows(initial, items, log, k, y)
  }

  ghost predicate Explained(initial: seq<Item>, items: seq<Item>, log: seq<Call>) {
    |items| == |initial| && forall y :: 0 <= y < |items| ==> RowExplained(initial, items, log, y)
  }

  /** So are the rows that each call found. */
  ghost predicate AllExplained(initial: seq<Item>, log: seq<Call>) {
    forall k :: 0 <= k < |log| ==> Explained(initial, log[k].rows, log[..k])
  }

  lemma RolledBackEarlier(log: seq<Call>, more: seq<Call>, k: nat)
    requires k < |log| && log[k].position <= k
    requires forall j {:trigger more[j]} :: 0 <= j < |more| ==> more[j].position == j
    ensures RolledBack(log + more, k) <==> RolledBack(log, k)
  {
    var all := log + more;
    forall m | |log| <= m < |all| ensures m - all[m].position == |log| {
      assert all[m] == more[m - |log|];
    }
    if m :| k < m < |log| && m - log[m].position == k - log[k].position && log[m].outcome.Raised? {
      assert all[m] == log[m];
    }
  }

  lemma RolledBackLater(log: seq<Call>, more: seq<Call>, base: seq<Item>, batch: seq<nat>, exec: Executor, j: nat)
    requires InRange(base, batch) && Describes(more, base, batch, |log|, exec) && j < |batch|
    ensures RolledBack(log + more, |log| + j) <==> RaisedAfter(batch, |batch|, |log|, exec, j)
  {
    var all := log + more;
    assert all[|log| + j] == more[j];
    if m :| j < m < |batch| && exec(|log| + m, batch[m]).Raised? {
      assert all[|log| + m] == more[m] && more[m].outcome.Raised?;
    }
    if m :| |log| + j < m < |all| && m - all[m].position == |log| && all[m].outcome.Raised? {
      var i := m - |log|;
      assert all[m] == more[i] && exec(|log| + i, batch[i]).Raised?;
    }
  }

  lemma LastCallEarlier(log: seq<Call>, more: seq<Call>, base: seq<Item>, batch: seq<nat>, exec: Executor, k: nat,
                        y: nat)
    requires InRange(base, batch) && Describes(more, base, batch, |log|, exec)
    requires LastCall(log + more, k, y) && y !in batch
    ensures LastCall(log, k, y)
  {
    var all := log + more;
    assert forall i :: 0 <= i < |more| ==> all[|log| + i].row == batch[i];
    assert forall j :: 0 <= j < |log| ==> all[j] == log[j];
  }

  lemma LastCallLater(log: seq<Call>, more: seq<Call>, base: seq<Item>, batch: seq<nat>, exec: Executor, k: nat,
                      j: nat)
    requires Fresh(base, batch) && Describes(more, base, batch, |log|, exec)
    requires j < |batch| && LastCall(log + more, k, batch[j])
    ensures k == |log| + j
  {
    var all := log + more;
    assert forall i :: 0 <= i < |more| ==> all[|log| + i].row == batch[i];
  }

  /** A row outside the batch is explained as before. */
  lemma OtherRowExplained(initial: seq<Item>, t: Trace, items: seq<Item>, batch: seq<nat>, exec: Executor,
                          more: seq<Call>, y: nat)
    requires Faithful(t.log, exec) && InRange(t.items, batch) && Describes(more, t.items, batch, |t.log|, exec)
    requires y < |initial| == |t.items| == |items| && y !in batch && items[y] == t.items[y]
    requires RowExplained(initial, t.items, t.log, y)
    ensures RowExplained(initial, items, t.log + more, y)
  {
    var log := t.log + more;
    DescribedRows(t.log, more, t.items, batch, |t.log|, exec);
    forall k: nat | LastCall(log, k, y) ensures Shows(initial, items, log, k, y) {
      LastCallEarlier(t.log, more, t.items, batch, exec, k, y);
      assert Shows(initial, t.items, t.log, k, y);
      ShowsStill(initial, t, items, exec, more, k, y);
    }
  }

  lemma ShowsStill(initial: seq<Item>, t: Trace, items: seq<Item>, exec: Executor, more: seq<Call>, k: nat, y: nat)
    requires Faithful(t.log, exec) && forall j {:trigger more[j]} :: 0 <= j < |more| ==> more[j].position == j
    requires y < |initial| == |t.items| == |items| && items[y] == t.items[y] && k < |t.log|
    requires Shows(initial, t.items, t.log, k, y)
    ensures Shows(initial, items, t.log + more, k, y)
  {
    RolledBackEarlier(t.log, more, k);
    assert (t.log + more)[k] == t.log[k];
  }

  /** A row of the batch follows its new call. */
  lemma OwnRowExplained(initial: seq<Item>, t: Trace, items: seq<Item>, batch: seq<nat>, exec: Executor,
                        more: seq<Call>, j: nat)
    requires Fresh(t.items, batch) && Describes(more, t.items, batch, |t.log|, exec)
    requires |initial| == |t.items| == |items| && j < |batch|
    requires if RaisedAfter(batch, |batch|, |t.log|, exec, j) then items[batch[j]] == t.items[batch[j]]
             else Follows(t.items[batch[j]], exec(|t.log| + j, batch[j]), items[batch[j]])
    ensures RowExplained(initial, items, t.log + more, batch[j])
  {
    var log, y := t.log + more, batch[j];
    DescribedRows(t.log, more, t.items, batch, |t.log|, exec);
    assert log[|t.log| + j] == more[j] && Rows(log)[|t.log| + j] == y;
    RolledBackLater(t.log, more, t.items, batch, exec, j);
    forall k: nat | LastCall(log, k, y) ensures Shows(initial, items, log, k, y) {
      LastCallLater(t.log, more, t.items, batch, exec, k, j);
    }
  }

  lemma BatchExplained(initial: seq<Item>, t: Trace, batch: seq<nat>, exec: Executor)
    requires |initial| == |t.items| && Faithful(t.log, exec) && Fresh(t.items, batch)
    requires Explained(initial, t.items, t.log)
    ensures Explained(initial, AfterBatch(t.items, batch, |batch|, |t.log|, exec),
                      t.log + BatchCalls(t.items, batch, |batch|, |t.log|, exec))
  {
    var items := AfterBatch(t.items, batch, |batch|, |t.log|, exec);
    var more := BatchCalls(t.items, batch, |batch|, |t.log|, exec);
    CallsDescribed(t.items, batch, |t.log|, exec);
    BatchRan(t.items, batch, |t.log|, exec);
    forall y | 0 <= y < |items| ensures RowExplained(initial, items, t.log + more, y) {
      if y in batch {
        var j :| 0 <= j < |batch| && batch[j] == y;
        OwnInBatch(initial, t, batch, exec, j);
      } else {
        OtherRowExplained(initial, t, items, batch, exec, more, y);
      }
    }
  }

  lemma OwnInBatch(initial: seq<Item>, t: Trace, batch: seq<nat>, exec: Executor, j: nat)
    requires |initial| == |t.items| && Fresh(t.items, batch) && j < |batch|
    ensures RowExplained(initial, AfterBatch(t.items, batch, |batch|, |t.log|, exec),
                         t.log + BatchCalls(t.items, batch, |batch|, |t.log|, exec), batch[j])
  {
    CallsDescribed(t.items, batch, |t.log|, exec);
    BatchRowIs(t.items, batch, |batch|, |t.log|, exec, j);
    OwnRowExplained(initial, t, AfterBatch(t.items, batch, |batch|, |t.log|, exec), batch, exec,
                    BatchCalls(t.items, batch, |batch|, |t.log|, exec), j);
  }

  lemma CallsPrefix(base: seq<Item>, batch: seq<nat>, j: nat, calls: nat, exec: Executor)
    requires j <= |batch| && InRange(base, batch)
    ensures BatchCalls(base, batch, |batch|, calls, exec)[..j] == BatchCalls(base, batch[..j], j, calls, exec)
  {
    PrefixBatch(base, batch, j, j, calls, exec);
    forall i | 0 <= i < j
      ensures BatchCalls(base, batch, |batch|, calls, exec)[i] == BatchCalls(base, batch, j, calls, exec)[i]
    {
      BatchCallIs(base, batch, |batch|, i, calls, exec);
      BatchCallIs(base, batch, j, i, calls, exec);
    }
  }

  /** The rows that call `j` of a batch found are explained by the calls before it. */
  lemma FoundExplained(initial: seq<Item>, t: Trace, batch: seq<nat>, exec: Executor, j: nat)
    requires |initial| == |t.items| && Faithful(t.log, exec) && Fresh(t.items, batch) && j < |batch|
    requires Explained(initial, t.items, t.log)
    ensures var log := t.log + BatchCalls(t.items, batch, |batch|, |t.log|, exec);
      Explained(initial, log[|t.log| + j].rows, log[..|t.log| + j])
  {
    var more := BatchCalls(t.items, batch, |batch|, |t.log|, exec);
    var found := AfterBatch(t.items, batch[..j], j, |t.log|, exec);
    var before := BatchCalls(t.items, batch[..j], j, |t.log|, exec);
    assert more[j].rows == found by {
      BatchCallIs(t.items, batch, |batch|, j, |t.log|, exec);
      PrefixBatch(t.items, batch, j, j, |t.log|, exec);
    }
    assert (t.log + more)[..|t.log| + j] == t.log + before by {
      CallsPrefix(t.items, batch, j, |t.log|, exec);
    }
    assert Explained(initial, found, t.log + before) by {
      BatchExplained(initial, t, batch[..j], exec);
    }
  }

  lemma CallsExplained(initial: seq<Item>, t: Trace, batch: seq<nat>, exec: Executor)
    requires |initial| == |t.items| && Faithful(t.log, exec) && Fresh(t.items, batch)
    requires Explained(initial, t.items, t.log) && AllExplained(initial, t.log)
    ensures AllExplained(initial, t.log + BatchCalls(t.items, batch, |batch|, |t.log|, exec))
  {
    var log := t.log + BatchCalls(t.items, batch, |batch|, |t.log|, exec);
    forall k | 0 <= k < |log| ensures Explained(initial, log[k].rows, log[..k]) {
      if k < |t.log| {
        assert log[k] == t.log[k] && log[..k] == t.log[..k];
      } else {
        FoundExplained(initial, t, batch, exec, k - |t.log|);
      }
    }
  }

  lemma TurnExplained(initial: seq<Item>, edges: seq<Edge>, limit: int, exec: Executor, t: Trace)
    requires WellFormed(t.items, edges) && |initial| == |t.items| && Faithful(t.log, exec)
    requires Explained(initial, t.items, t.log) && AllExplained(initial, t.log)
    ensures var next := Turn(t, edges, limit, exec);
      Explained(initial, next.items, next.log) && AllExplained(initial, next.log)
  {
    var batch := Runnable(t.items, edges, limit);
    RunnableIsFresh(t.items, edges, limit);
    BatchExplained(initial, t, batch, exec);
    CallsExplained(initial, t, batch, exec);
  }

  /** Over every run, every row, and every row that a call found, shows the answer of its last call so far. */
  lemma {:induction false} RunExplained(initial: seq<Item>, edges: seq<Edge>, limit: int, exec: Executor,
                                        run: seq<Trace>, k: nat)
    requires PriorityDecreases(initial, edges) && NoneActive(initial) && Run(initial, edges, limit, exec, run)
    requires k < |run|
    ensures Explained(initial, run[k].items, run[k].log) && AllExplained(initial, run[k].log)
  {
    if k == 0 {
      assert Rows([]) == [];
    } else {
      RunExplained(initial, edges, limit, exec, run, k - 1);
      assert WellFormed(run[k - 1].items, edges) && Faithful(run[k - 1].log, exec) by {
        HistoryHolds(initial, edges, limit, exec, run, k - 1);
      }
      TurnedExplained(initial, edges, limit, exec, run, k);
    }
  }

  lemma TurnedExplained(initial: seq<Item>, edges: seq<Edge>, limit: int, exec: Executor, run: seq<Trace>, k: nat)
    requires 1 <= k < |run| && WellFormed(run[k - 1].items, edges) && Turned(run, k, edges, limit, exec)
    requires |initial| == |run[k - 1].items| && Faithful(run[k - 1].log, exec)
    requires Explained(initial, run[k - 1].items, run[k - 1].log) && AllExplained(initial, run[k - 1].log)
    ensures Explained(initial, run[k].items, run[k].log) && AllExplained(initial, run[k].log)
  {
    TurnExplained(initial, edges, limit, exec, run[k - 1]);
  }

  // ---------------------------------------------------------------- what the answers decide

  /** The row carries this answer. */
  predicate Carries(i: Item, o: Outcome) {
    && i.flags == o.flags
    && (i.status == Done <==> o.Returned? && o.verdict == Succeeded)
    && (i.status == Skipped <==> o.Returned? && o.verdict == Passed)
    && (i.status == Failed <==> o.Raised? || o.verdict == Rejected)
  }

  /** Every row that settled in the run carries the answer of its last call. */
  ghost predicate Answered(initial: seq<Item>, items: seq<Item>, log: seq<Call>)
    requires |items| == |initial|
  {
    forall y :: 0 <= y < |items| && initial[y].status == Queued && Settled(items[y]) ==>
      exists k: nat :: LastCall(log, k, y) && Carries(items[y], log[k].outcome)
  }

  lemma {:induction false} HasLastCall(log: seq<Call>, y: nat) returns (k: nat)
    requires y in Rows(log)
    ensures LastCall(log, k, y)
  {
    var last := |log| - 1;
    var front := log[..last];
    assert Rows(log) == Rows(front) + [log[last].row];
    if log[last].row == y {
      k := last;
    } else {
      k := HasLastCall(front, y);
    }
  }

  lemma RowAnswered(initial: seq<Item>, edges: seq<Edge>, items: seq<Item>, log: seq<Call>, y: nat) returns (k: nat)
    requires |items| == |initial| && y < |items| && initial[y].status == Queued && Settled(items[y])
    requires RowExplained(initial, items, log, y) && AllReady(log, edges)
    ensures LastCall(log, k, y) && Carries(items[y], log[k].outcome)
  {
    k := HasLastCall(log, y);
    assert Shows(initial, items, log, k, y) && CallReady(log[k], edges);
  }

  /** The rows a run leaves behind are the executor's answers. */
  lemma RunAnswered(initial: seq<Item>, edges: seq<Edge>, limit: int, exec: Executor, run: seq<Trace>)
    requires PriorityDecreases(initial, edges) && NoneActive(initial) && Run(initial, edges, limit, exec, run)
    ensures |Last(run).items| == |initial| && Answered(initial, Last(run).items, Last(run).log)
  {
    var t := Last(run);
    RunExplained(initial, edges, limit, exec, run, |run| - 1);
    assert AllReady(t.log, edges) by {
      HistoryHolds(initial, edges, limit, exec, run, |run| - 1);
    }
    forall y | 0 <= y < |initial| && initial[y].status == Queued && Settled(t.items[y])
      ensures exists k: nat :: LastCall(t.log, k, y) && Carries(t.items[y], t.log[k].outcome)
    {
      var k := RowAnswered(initial, edges, t.items, t.log, y);
    }
  }

  /** An answer that fails the run when it is the last one for an item of this profile. */
  predicate FailsRun(p: Profile, o: Outcome) {
    && (o.Raised? || o.verdict == Rejected)
    && !o.flags.superseded && !o.flags.budgetInResult && !o.flags.budgetInError
    && (if p.kind == WriteTests then p.blocking == Yes else p.blocking != No)
  }

  /** A blocking failure was there from the start, or is the last answer for a row that settled. */
  ghost predicate FailedByAnswer(initial: seq<Item>, items: seq<Item>, log: seq<Call>)
    requires |items| == |initial|
  {
    || (exists i <- initial :: BlockingFailure(i))
    || exists y, k: nat :: 0 <= y < |items| && initial[y].status == Queued && Settled(items[y]) &&
                           LastCall(log, k, y) && FailsRun(initial[y].profile, log[k].outcome)
  }

  /** Whether a run has a blocking failure is decided by the executor's answers. */
  lemma FailureAnswered(initial: seq<Item>, items: seq<Item>, log: seq<Call>)
    requires Evolved(initial, items, log) && Answered(initial, items, log)
    ensures (exists i <- items :: BlockingFailure(i)) <==> FailedByAnswer(initial, items, log)
  {
    if i :| i in items && BlockingFailure(i) {
      var y :| 0 <= y < |items| && items[y] == i;
      FailureShown(initial, items, log, y);
    }
    if i :| i in initial && BlockingFailure(i) {
      var y :| 0 <= y < |initial| && initial[y] == i;
      assert items[y] in items;
    }
    if y, k: nat :| 0 <= y < |items| && initial[y].status == Queued && Settled(items[y]) && LastCall(log, k, y) &&
                    FailsRun(initial[y].profile, log[k].outcome) {
      var j: nat :| LastCall(log, j, y) && Carries(items[y], log[j].outcome);
      assert j == k;
      BlockingIff(items[y]);
      assert items[y] in items;
    }
  }

  lemma FailureShown(initial: seq<Item>, items: seq<Item>, log: seq<Call>, y: nat)
    requires Evolved(initial, items, log) && Answered(initial, items, log)
    requires y < |items| && BlockingFailure(items[y])
    ensures FailedByAnswer(initial, items, log)
  {
    BlockingIff(items[y]);
    if initial[y].status == Queued {
      var k: nat :| LastCall(log, k, y) && Carries(items[y], log[k].outcome);
      assert FailsRun(initial[y].profile, log[k].outcome);
    } else {
      assert initial[y] in initial;
    }
  }
}
