/** How often a run starts the same row, exactly: a call that comes to nothing is made again in the very next
    turn. */
module Repeats {
  import opened WorkItems
  import opened Scheduler
  import opened Batches
  import opened Runs

  predicate NoRepeats(log: seq<Call>) {
    forall j, k :: 0 <= j < |log| && 0 <= k < |log| && log[j].row == log[k].row ==> j == k
  }

  /** The call raised only as the first of its batch, and did not put its row back in the queue. */
  predicate CleanCall(c: Call) {
    && (c.outcome.Raised? ==> c.position == 0)
    && (c.row < |c.rows| ==> Settle(c.rows[c.row], c.outcome).status != Queued)
  }

  predicate Clean(log: seq<Call>) {
    forall k :: 0 <= k < |log| ==> CleanCall(log[k])
  }

  lemma NothingWastedIff(log: seq<Call>, exec: Executor, edges: seq<Edge>)
    requires Faithful(log, exec) && AllReady(log, edges)
    ensures Clean(log) <==> Wasteless(log)
  {
    if Clean(log) {
      forall y ensures !Wasted(log, y) {
        forall k | 0 <= k < |log| ensures !Undone(log, k) {
          assert CleanCall(log[k]) && CallReady(log[k], edges);
          assert forall m :: k < m < |log| ==> CleanCall(log[m]);
        }
      }
    }
    if k :| 0 <= k < |log| && !CleanCall(log[k]) {
      if log[k].outcome.Raised? && log[k].position > 0 {
        assert log[k - 1].position == log[k].position - 1;
        assert Undone(log, k - 1);
        assert Wasted(log, log[k - 1].row);
      } else {
        assert Undone(log, k);
        assert Wasted(log, log[k].row);
      }
    }
  }

  predicate StartedOnce(log: seq<Call>, y: nat) {
    && (exists k :: 0 <= k < |log| && log[k].row == y)
    && forall j, k :: 0 <= j < |log| && 0 <= k < |log| && log[j].row == y && log[k].row == y ==> j == k
  }

  lemma CallsCounted(log: seq<Call>, y: nat)
    ensures Count(Rows(log), y) == 1 <==> StartedOnce(log, y)
    ensures Count(Rows(log), y) > 0 <==> exists k :: 0 <= k < |log| && log[k].row == y
  {
    var rows := Rows(log);
    Occurs(rows, y);
    OccursOnce(rows, y);
    assert forall k :: 0 <= k < |log| ==> rows[k] == log[k].row;
  }

  lemma StartsCounted(initial: seq<Item>, t: Trace, y: nat)
    requires Conserved(initial, t) && RequeuesExplained(t) && y < |initial|
    ensures initial[y].status == Queued && Settled(t.items[y]) ==> (StartedOnce(t.log, y) <==> !Wasted(t.log, y))
    ensures (exists k :: 0 <= k < |t.log| && t.log[k].row == y) <==>
            Wasted(t.log, y) || (initial[y].status == Queued && Settled(t.items[y]))
  {
    CallsCounted(t.log, y);
    Occurs(t.requeued, y);
  }

  /** How often a row is started: at all if it settled or a call of it came to nothing, and if it settled
      then once exactly if no call of it came to nothing. */
  lemma StartsPerRow(initial: seq<Item>, edges: seq<Edge>, limit: int, exec: Executor, run: seq<Trace>, y: nat)
    requires PriorityDecreases(initial, edges) && NoneActive(initial) && Run(initial, edges, limit, exec, run)
    requires y < |initial| && initial[y].status == Queued
    ensures var t := Last(run);
      && ((exists k :: 0 <= k < |t.log| && t.log[k].row == y) <==> Settled(t.items[y]) || Wasted(t.log, y))
      && (Settled(t.items[y]) ==> (StartedOnce(t.log, y) <==> !Wasted(t.log, y)))
  {
    HistoryHolds(initial, edges, limit, exec, run, |run| - 1);
    StartsCounted(initial, Last(run), y);
  }

  // ---------------------------------------------------------------- back in line

  /** Rows that were started and are queued again are selected by the next turn. */
  ghost predicate BackInLine(t: Trace, edges: seq<Edge>, limit: int)
    requires WellFormed(t.items, edges)
  {
    forall y :: 0 <= y < |t.items| && y in Rows(t.log) && t.items[y].status == Queued ==>
      y in Runnable(t.items, edges, limit)
  }

  /** A selected row that is queued after its batch is selected again: its parents settled before, and nothing
      overtakes it. */
  lemma StaysRunnable(items: seq<Item>, next: seq<Item>, edges: seq<Edge>, limit: int, x: nat)
    requires WellFormed(items, edges) && Ran(items, next, Runnable(items, edges, limit))
    requires x in Runnable(items, edges, limit) && x < |items| && next[x].status == Queued
    ensures WellFormed(next, edges) && x in Runnable(next, edges, limit)
  {
    assert x in Batch(items, limit) && Ready(items, edges, x);
    StaysInBatch(items, next, limit, x);
    forall e | e in edges && e.1 == x ensures Releases(next[e.0]) {
      assert Releases(items[e.0]);
      assert next[e.0] == items[e.0];
    }
    assert Ready(next, edges, x);
  }

  lemma TurnKeepsLine(t: Trace, edges: seq<Edge>, limit: int, exec: Executor)
    requires WellFormed(t.items, edges) && BackInLine(t, edges, limit)
    ensures WellFormed(Turn(t, edges, limit, exec).items, edges)
    ensures BackInLine(Turn(t, edges, limit, exec), edges, limit)
  {
    var next, batch := Turn(t, edges, limit, exec), Runnable(t.items, edges, limit);
    TurnRuns(t, edges, limit, exec);
    forall y | 0 <= y < |next.items| && y in Rows(next.log) && next.items[y].status == Queued
      ensures y in Runnable(next.items, edges, limit)
    {
      assert y in Rows(t.log) || y in batch;
      assert t.items[y].status == Queued;
      StaysRunnable(t.items, next.items, edges, limit, y);
    }
  }

  /** A turn runs its selection. */
  lemma TurnRuns(t: Trace, edges: seq<Edge>, limit: int, exec: Executor)
    requires WellFormed(t.items, edges)
    ensures var next, batch := Turn(t, edges, limit, exec), Runnable(t.items, edges, limit);
      && Ran(t.items, next.items, batch) && t.log <= next.log && Rows(next.log) == Rows(t.log) + batch
      && (forall j, k :: 0 <= j < k < |batch| ==> batch[j] != batch[k])
  {
    var batch := Runnable(t.items, edges, limit);
    RunnableIsFresh(t.items, edges, limit);
    BatchRan(t.items, batch, |t.log|, exec);
    CallsDescribed(t.items, batch, |t.log|, exec);
    DescribedRows(t.log, BatchCalls(t.items, batch, |batch|, |t.log|, exec), t.items, batch, |t.log|, exec);
  }

  lemma {:induction false} RunKeepsLine(initial: seq<Item>, edges: seq<Edge>, limit: int, exec: Executor,
                                        run: seq<Trace>, k: nat)
    requires Run(initial, edges, limit, exec, run) && k < |run|
    ensures WellFormed(run[k].items, edges) && BackInLine(run[k], edges, limit)
  {
    if k > 0 {
      RunKeepsLine(initial, edges, limit, exec, run, k - 1);
      TurnedKeepsLine(run, k, edges, limit, exec);
    }
  }

  lemma TurnedKeepsLine(run: seq<Trace>, k: nat, edges: seq<Edge>, limit: int, exec: Executor)
    requires 1 <= k < |run| && WellFormed(run[k - 1].items, edges)
    requires Turned(run, k, edges, limit, exec) && BackInLine(run[k - 1], edges, limit)
    ensures WellFormed(run[k].items, edges) && BackInLine(run[k], edges, limit)
  {
    TurnKeepsLine(run[k - 1], edges, limit, exec);
  }

  // ---------------------------------------------------------------- exactly when

  lemma RowsRepeat(log: seq<Call>)
    ensures NoRepeats(log) <==> forall j, k :: 0 <= j < k < |log| ==> Rows(log)[j] != Rows(log)[k]
  {
    var rows := Rows(log);
    assert forall k :: 0 <= k < |log| ==> rows[k] == log[k].row;
  }

  /** A row that settled although a call of it came to nothing was started twice. */
  lemma SettledWasteRepeats(initial: seq<Item>, t: Trace, y: nat)
    requires Conserved(initial, t) && RequeuesExplained(t) && Wasted(t.log, y)
    requires y < |initial| && initial[y].status == Queued && Settled(t.items[y])
    ensures !NoRepeats(t.log)
  {
    StartsCounted(initial, t, y);
  }

  ghost predicate Wasteless(log: seq<Call>) {
    forall y :: !Wasted(log, y)
  }

  /** With nothing wasted so far, the next rows from the queue are new ones. */
  lemma FreshTurn(initial: seq<Item>, t: Trace, batch: seq<nat>, log: seq<Call>)
    requires Evolved(initial, t.items, t.log) && Conserved(initial, t) && RequeuesExplained(t)
    requires Wasteless(t.log) && Fresh(t.items, batch) && Rows(log) == Rows(t.log) + batch
    ensures NoRepeats(log)
  {
    var rows := Rows(t.log);
    forall j, k | 0 <= j < k < |log| ensures Rows(log)[j] != Rows(log)[k] {
      if j < |t.log| {
        assert t.log[j].row == rows[j];
        StartsCounted(initial, t, rows[j]);
        if k < |t.log| {
          assert t.log[k].row == rows[k];
        }
      }
    }
    RowsRepeat(log);
  }

  lemma RowAgain(log: seq<Call>, rows: seq<nat>, more: seq<nat>, k: nat, j: nat)
    requires Rows(log) == rows + more && k < |rows| && j < |more| && rows[k] == more[j]
    ensures |log| == |rows| + |more| && log[|rows| + j].row == log[k].row == rows[k]
    ensures !NoRepeats(log)
  {
    assert log[|rows| + j].row == Rows(log)[|rows| + j];
    assert log[k].row == Rows(log)[k];
  }

  /** A call that came to nothing shows as a repeat as soon as one more turn has been made. */
  lemma WasteStartsAgain(initial: seq<Item>, t: Trace, edges: seq<Edge>, limit: int, log: seq<Call>, y: nat)
    requires Evolved(initial, t.items, t.log) && Conserved(initial, t) && RequeuesExplained(t)
    requires WellFormed(t.items, edges) && BackInLine(t, edges, limit) && Wasted(t.log, y)
    requires t.log <= log && Rows(log) == Rows(t.log) + Runnable(t.items, edges, limit)
    ensures !NoRepeats(log)
  {
    var k :| 0 <= k < |t.log| && t.log[k].row == y && Undone(t.log, k);
    if t.items[y].status == Queued {
      assert Rows(t.log)[k] == y;
      var batch := Runnable(t.items, edges, limit);
      var j :| 0 <= j < |batch| && batch[j] == y;
      RowAgain(log, Rows(t.log), batch, k, j);
    } else {
      SettledWasteRepeats(initial, t, y);
      assert forall j :: 0 <= j < |t.log| ==> log[j] == t.log[j];
    }
  }

  /** In a run that stopped by itself every row whose call came to nothing has settled since. */
  lemma StoppedWasteRepeats(initial: seq<Item>, t: Trace, edges: seq<Edge>, limit: int, y: nat)
    requires Evolved(initial, t.items, t.log) && Conserved(initial, t) && RequeuesExplained(t)
    requires WellFormed(t.items, edges) && BackInLine(t, edges, limit) && Wasted(t.log, y)
    requires Judge(t.items, edges, limit) != Continue
    ensures !NoRepeats(t.log)
  {
    var k :| 0 <= k < |t.log| && t.log[k].row == y && Undone(t.log, k);
    assert Rows(t.log)[k] == y && t.items[y] in t.items;
    SettledWasteRepeats(initial, t, y);
  }

  lemma TurnedRuns(run: seq<Trace>, k: nat, edges: seq<Edge>, limit: int, exec: Executor)
    requires 1 <= k < |run| && Turned(run, k, edges, limit, exec)
    ensures WellFormed(run[k - 1].items, edges) && run[k - 1].log <= run[k].log
    ensures Rows(run[k].log) == Rows(run[k - 1].log) + Runnable(run[k - 1].items, edges, limit)
  {
    TurnRuns(run[k - 1], edges, limit, exec);
  }

  lemma RunWastes(initial: seq<Item>, edges: seq<Edge>, limit: int, exec: Executor, run: seq<Trace>, k: nat)
    requires PriorityDecreases(initial, edges) && NoneActive(initial) && Run(initial, edges, limit, exec, run)
    requires k < |run|
    ensures Clean(run[k].log) <==> Wasteless(run[k].log)
  {
    assert Faithful(run[k].log, exec) && AllReady(run[k].log, edges) by {
      HistoryHolds(initial, edges, limit, exec, run, k);
    }
    NothingWastedIff(run[k].log, exec, edges);
  }

  lemma RunAccounts(initial: seq<Item>, edges: seq<Edge>, limit: int, exec: Executor, run: seq<Trace>, k: nat)
    requires PriorityDecreases(initial, edges) && NoneActive(initial) && Run(initial, edges, limit, exec, run)
    requires k < |run|
    ensures Evolved(initial, run[k].items, run[k].log) && Conserved(initial, run[k]) && RequeuesExplained(run[k])
    ensures WellFormed(run[k].items, edges) && BackInLine(run[k], edges, limit)
  {
    HistoryHolds(initial, edges, limit, exec, run, k);
    RunKeepsLine(initial, edges, limit, exec, run, k);
  }

  /** A call that came to nothing is made again by the next turn, if not before. */
  lemma WasteRepeats(initial: seq<Item>, edges: seq<Edge>, limit: int, exec: Executor, run: seq<Trace>, k: nat, y: nat)
    requires PriorityDecreases(initial, edges) && NoneActive(initial) && Run(initial, edges, limit, exec, run)
    requires 1 <= k < |run| && Wasted(run[k - 1].log, y)
    ensures !NoRepeats(run[k].log)
  {
    TurnedRuns(run, k, edges, limit, exec);
    RunAccounts(initial, edges, limit, exec, run, k - 1);
    WasteStartsAgain(initial, run[k - 1], edges, limit, run[k].log, y);
  }

  lemma NoWasteNoRepeats(initial: seq<Item>, edges: seq<Edge>, limit: int, exec: Executor, run: seq<Trace>, k: nat)
    requires PriorityDecreases(initial, edges) && NoneActive(initial) && Run(initial, edges, limit, exec, run)
    requires 1 <= k < |run| && Wasteless(run[k - 1].log)
    ensures NoRepeats(run[k].log)
  {
    assert Evolved(initial, run[k - 1].items, run[k - 1].log) && Conserved(initial, run[k - 1])
           && RequeuesExplained(run[k - 1]) && WellFormed(run[k - 1].items, edges) by {
      RunAccounts(initial, edges, limit, exec, run, k - 1);
    }
    TurnedRuns(run, k, edges, limit, exec);
    assert Fresh(run[k - 1].items, Runnable(run[k - 1].items, edges, limit)) by {
      RunnableIsFresh(run[k - 1].items, edges, limit);
    }
    FreshTurn(initial, run[k - 1], Runnable(run[k - 1].items, edges, limit), run[k].log);
  }

  lemma StoppedWaste(initial: seq<Item>, edges: seq<Edge>, limit: int, exec: Executor, run: seq<Trace>, y: nat)
    requires PriorityDecreases(initial, edges) && NoneActive(initial) && Run(initial, edges, limit, exec, run)
    requires WellFormed(Last(run).items, edges) && Judge(Last(run).items, edges, limit) != Continue
    requires Wasted(Last(run).log, y)
    ensures !NoRepeats(Last(run).log)
  {
    RunAccounts(initial, edges, limit, exec, run, |run| - 1);
    StoppedWasteRepeats(initial, Last(run), edges, limit, y);
  }

  lemma CleanDoesNotRepeat(initial: seq<Item>, edges: seq<Edge>, limit: int, exec: Executor, run: seq<Trace>)
    requires PriorityDecreases(initial, edges) && NoneActive(initial) && Run(initial, edges, limit, exec, run)
    requires Wasteless(Last(run).log)
    ensures NoRepeats(Last(run).log)
  {
    RunAccounts(initial, edges, limit, exec, run, |run| - 1);
    assert Rows(Last(run).log) + [] == Rows(Last(run).log);
    FreshTurn(initial, Last(run), [], Last(run).log);
  }

  /** The calls made before the last turn. */
  ghost function EarlierCalls(run: seq<Trace>): seq<Call> {
    if |run| < 2 then [] else run[|run| - 2].log
  }

  /** No repeats, exactly, for every run: no row is started twice if and only if, before the last turn, no call
      raised past the first position of its batch and none put its row back in the queue. */
  lemma NoRepeatsIff(initial: seq<Item>, edges: seq<Edge>, limit: int, exec: Executor, run: seq<Trace>)
    requires PriorityDecreases(initial, edges) && NoneActive(initial) && Run(initial, edges, limit, exec, run)
    ensures NoRepeats(Last(run).log) <==> Clean(EarlierCalls(run))
  {
    var last := |run| - 1;
    if last > 0 {
      RunWastes(initial, edges, limit, exec, run, last - 1);
      if Clean(run[last - 1].log) {
        NoWasteNoRepeats(initial, edges, limit, exec, run, last);
      } else {
        var y :| Wasted(run[last - 1].log, y);
        WasteRepeats(initial, edges, limit, exec, run, last, y);
      }
    }
  }

  /** When the loop itself has stopped, drained, failed or asleep, this holds of all its calls: what came to nothing
      in the last turn would have kept it going. */
  lemma StoppedNoRepeatsIff(initial: seq<Item>, edges: seq<Edge>, limit: int, exec: Executor, run: seq<Trace>)
    requires PriorityDecreases(initial, edges) && NoneActive(initial) && Run(initial, edges, limit, exec, run)
    ensures Clean(Last(run).log) ==> NoRepeats(Last(run).log)
    ensures WellFormed(Last(run).items, edges)
    ensures Judge(Last(run).items, edges, limit) != Continue ==>
              (NoRepeats(Last(run).log) <==> Clean(Last(run).log))
  {
    assert WellFormed(Last(run).items, edges) by {
      RunKeepsLine(initial, edges, limit, exec, run, |run| - 1);
    }
    RunWastes(initial, edges, limit, exec, run, |run| - 1);
    if Clean(Last(run).log) {
      CleanDoesNotRepeat(initial, edges, limit, exec, run);
    } else if Judge(Last(run).items, edges, limit) != Continue {
      var y :| Wasted(Last(run).log, y);
      StoppedWaste(initial, edges, limit, exec, run, y);
    }
  }

  // ---------------------------------------------------------------- the repeat itself

  /** Everything succeeds, except that the second call of the run raises. */
  function RaisesSecond(): Executor {
    (call: nat, row: nat) => if call == 1 then Raised(NO_FLAGS, false) else Returned(Succeeded, NO_FLAGS, false)
  }

  lemma {:induction false} FirstRolledBack(base: seq<Item>, batch: seq<nat>, n: nat)
    requires Fresh(base, batch) && 2 <= n <= |batch|
    ensures AfterBatch(base, batch, n, 0, RaisesSecond())[batch[0]] == base[batch[0]]
  {
    if n > 2 {
      FirstRolledBack(base, batch, n - 1);
    }
  }

  lemma FirstIsQueuedAgain(initial: seq<Item>, edges: seq<Edge>, limit: int)
    requires WellFormed(initial, edges) && |Runnable(initial, edges, limit)| >= 2
    ensures var batch, t := Runnable(initial, edges, limit), Turn(Trace(initial, [], []), edges, limit, RaisesSecond());
      batch[0] < |initial| && initial[batch[0]].status == Queued && t.items[batch[0]] == initial[batch[0]]
  {
    var batch := Runnable(initial, edges, limit);
    RunnableIsFresh(initial, edges, limit);
    FirstRolledBack(initial, batch, |batch|);
  }

  /** The first turn of such a run: the row at the head of the batch was run and is queued again. */
  lemma RaiseRequeues(initial: seq<Item>, edges: seq<Edge>, limit: int) returns (run: seq<Trace>)
    requires WellFormed(initial, edges) && |Runnable(initial, edges, limit)| >= 2
    ensures Run(initial, edges, limit, RaisesSecond(), run) && |run| == 2 && Last(run).log != []
    ensures var x := Last(run).log[0].row; x < |Last(run).items| && Last(run).items[x].status == Queued
  {
    var batch := Runnable(initial, edges, limit);
    FirstIsQueuedAgain(initial, edges, limit);
    assert initial[batch[0]] in initial;
    RunBegins(initial, edges, limit, RaisesSecond());
    run := OneMoreTurn(initial, edges, limit, RaisesSecond(), [Trace(initial, [], [])]);
    assert Rows(Last(run).log) == batch by {
      assert Rows([]) + batch == batch;
    }
    assert Last(run).log[0].row == Rows(Last(run).log)[0];
  }

  lemma QueuedIsSelected(initial: seq<Item>, edges: seq<Edge>, limit: int, exec: Executor, run: seq<Trace>, x: nat)
    requires Run(initial, edges, limit, exec, run) && x in Rows(Last(run).log)
    requires x < |Last(run).items| && Last(run).items[x].status == Queued
    ensures WellFormed(Last(run).items, edges) && x in Runnable(Last(run).items, edges, limit)
    ensures Judge(Last(run).items, edges, limit) == Continue
  {
    RunKeepsLine(initial, edges, limit, exec, run, |run| - 1);
    assert Last(run).items[x] in Last(run).items;
  }

  /** A row that was started and is queued again goes on to be started once more. */
  lemma QueuedAgainRepeats(initial: seq<Item>, edges: seq<Edge>, limit: int, exec: Executor, run: seq<Trace>, k: nat)
    returns (longer: seq<Trace>)
    requires Run(initial, edges, limit, exec, run) && k < |Last(run).log|
    requires Last(run).log[k].row < |Last(run).items| && Last(run).items[Last(run).log[k].row].status == Queued
    ensures Run(initial, edges, limit, exec, longer) && |longer| == |run| + 1
    ensures Last(run).log <= Last(longer).log
    ensures exists m :: |Last(run).log| <= m < |Last(longer).log| && Last(longer).log[m].row == Last(run).log[k].row
  {
    var log := Last(run).log;
    assert Rows(log)[k] == log[k].row;
    QueuedIsSelected(initial, edges, limit, exec, run, log[k].row);
    var again := Runnable(Last(run).items, edges, limit);
    var j :| 0 <= j < |again| && again[j] == log[k].row;
    longer := OneMoreTurn(initial, edges, limit, exec, run);
    RowAgain(Last(longer).log, Rows(log), again, k, j);
  }

  /** Wherever two rows are selected together, one raise makes the loop run a row again that had succeeded. */
  lemma RaiseRepeats(initial: seq<Item>, edges: seq<Edge>, limit: int) returns (run: seq<Trace>)
    requires PriorityDecreases(initial, edges) && NoneActive(initial) && |Runnable(initial, edges, limit)| >= 2
    ensures Run(initial, edges, limit, RaisesSecond(), run) && |run| == 3
    ensures var log := Last(run).log;
      && log != [] && log[0].outcome == Returned(Succeeded, NO_FLAGS, false)
      && exists k :: 0 < k < |log| && log[k].row == log[0].row
  {
    var first := RaiseRequeues(initial, edges, limit);
    run := QueuedAgainRepeats(initial, edges, limit, RaisesSecond(), first, 0);
    RunFollows(initial, edges, limit, RaisesSecond(), run);
  }

  lemma RunFollows(initial: seq<Item>, edges: seq<Edge>, limit: int, exec: Executor, run: seq<Trace>)
    requires PriorityDecreases(initial, edges) && NoneActive(initial) && Run(initial, edges, limit, exec, run)
    ensures Faithful(Last(run).log, exec)
  {
    HistoryHolds(initial, edges, limit, exec, run, |run| - 1);
  }

  lemma OneMoreTurn(initial: seq<Item>, edges: seq<Edge>, limit: int, exec: Executor, run: seq<Trace>)
    returns (longer: seq<Trace>)
    requires Run(initial, edges, limit, exec, run) && WellFormed(Last(run).items, edges)
    requires Judge(Last(run).items, edges, limit) == Continue
    ensures Run(initial, edges, limit, exec, longer) && |longer| == |run| + 1 && Last(run).log <= Last(longer).log
    ensures Rows(Last(longer).log) == Rows(Last(run).log) + Runnable(Last(run).items, edges, limit)
    ensures Last(longer) == Turn(Last(run), edges, limit, exec)
  {
    var t := Turn(Last(run), edges, limit, exec);
    longer := run + [t];
    assert Last(run) in run;
    NowTurned(run, t, edges, limit, exec);
    RunExtends(initial, edges, limit, exec, run, t);
    TurnRuns(Last(run), edges, limit, exec);
  }
}
