/** Whole runs of the embedded loop, as a function of the rows they start from, the graph, the batch limit
    and what the executor does: what the rows and the calls are after any number of turns, and what every
    turn keeps. */
module Runs {
  import opened WorkItems
  import opened Scheduler
  import opened Batches

  /** One executor call: the row, all rows as they were when it started, its position in its batch, and
      what it did. */
  datatype Call = Call(row: nat, rows: seq<Item>, position: nat, outcome: Outcome)

  /** The calls of the first `n` items of a batch. */
  ghost function BatchCalls(base: seq<Item>, batch: seq<nat>, n: nat, calls: nat, exec: Executor): (r: seq<Call>)
    requires n <= |batch| && InRange(base, batch)
    ensures |r| == n
  {
    if n == 0 then []
    else BatchCalls(base, batch, n - 1, calls, exec) + [CallAt(base, batch, n - 1, calls, exec)]
  }

  ghost function CallAt(base: seq<Item>, batch: seq<nat>, k: nat, calls: nat, exec: Executor): Call
    requires k < |batch| && InRange(base, batch)
  {
    Call(batch[k], AfterBatch(base, batch, k, calls, exec), k, exec(calls + k, batch[k]))
  }

  lemma {:induction false} BatchCallIs(base: seq<Item>, batch: seq<nat>, n: nat, k: nat, calls: nat, exec: Executor)
    requires k < n <= |batch| && InRange(base, batch)
    ensures BatchCalls(base, batch, n, calls, exec)[k] == CallAt(base, batch, k, calls, exec)
  {
    if k < n - 1 {
      BatchCallIs(base, batch, n - 1, k, calls, exec);
    }
  }

  function Rows(calls: seq<Call>): seq<nat> {
    seq(|calls|, k requires 0 <= k < |calls| => calls[k].row)
  }

  // ---------------------------------------------------------------- turns of the loop

  /** The rows after so many turns, the calls made, and the rows requeued on the way. */
  datatype Trace = Trace(items: seq<Item>, log: seq<Call>, requeued: seq<nat>)

  lemma RunnableIsFresh(items: seq<Item>, edges: seq<Edge>, limit: int)
    requires WellFormed(items, edges)
    ensures var batch := Runnable(items, edges, limit);
      Fresh(items, batch) && forall k :: 0 <= k < |batch| ==> Ready(items, edges, batch[k])
  {
    RunnableSelects(items, edges, limit);
    var batch := Runnable(items, edges, limit);
    assert forall k :: 0 <= k < |batch| ==> batch[k] in batch;
  }

  /** One turn: the selected batch is run to its end. */
  ghost function Turn(t: Trace, edges: seq<Edge>, limit: int, exec: Executor): (r: Trace)
    requires WellFormed(t.items, edges)
    ensures |r.items| == |t.items|
  {
    var batch := Runnable(t.items, edges, limit);
    RunnableIsFresh(t.items, edges, limit);
    Trace(AfterBatch(t.items, batch, |batch|, |t.log|, exec),
          t.log + BatchCalls(t.items, batch, |batch|, |t.log|, exec),
          t.requeued + RequeuedIn(t.items, batch, |batch|, |t.log|, exec))
  }

  datatype Ruling = Complete | Fail | Sleep | Continue

  /** What the loop does with the rows it finds, with nothing active. */
  ghost function Judge(items: seq<Item>, edges: seq<Edge>, limit: int): Ruling
    requires WellFormed(items, edges)
  {
    var queued, failed := SomeQueued(items), !NoBlockingFailure(items);
    if !queued then if failed then Fail else Complete
    else if Runnable(items, edges, limit) != [] then Continue
    else if failed then Fail
    else Sleep
  }

  /** A run so far, turn by turn: the loop found something to run before each of its turns. */
  ghost predicate Run(initial: seq<Item>, edges: seq<Edge>, limit: int, exec: Executor, run: seq<Trace>) {
    && WellFormed(initial, edges)
    && |run| > 0 && run[0] == Trace(initial, [], [])
    && (forall t <- run :: |t.items| == |initial|)
    && forall k :: 1 <= k < |run| ==> Turned(run, k, edges, limit, exec)
  }

  ghost predicate Turned(run: seq<Trace>, k: nat, edges: seq<Edge>, limit: int, exec: Executor)
    requires 1 <= k < |run|
  {
    && WellFormed(run[k - 1].items, edges)
    && Judge(run[k - 1].items, edges, limit) == Continue
    && run[k] == Turn(run[k - 1], edges, limit, exec)
  }

  ghost function Last(run: seq<Trace>): Trace
    requires |run| > 0
  {
    run[|run| - 1]
  }

  lemma RunBegins(initial: seq<Item>, edges: seq<Edge>, limit: int, exec: Executor)
    requires WellFormed(initial, edges)
    ensures Run(initial, edges, limit, exec, [Trace(initial, [], [])])
  {
  }

  lemma StaysTurned(run: seq<Trace>, t: Trace, k: nat, edges: seq<Edge>, limit: int, exec: Executor)
    requires 1 <= k < |run| && Turned(run, k, edges, limit, exec)
    ensures Turned(run + [t], k, edges, limit, exec)
  {
  }

  lemma NowTurned(run: seq<Trace>, t: Trace, edges: seq<Edge>, limit: int, exec: Executor)
    requires |run| > 0 && WellFormed(Last(run).items, edges) && Judge(Last(run).items, edges, limit) == Continue
    requires t == Turn(Last(run), edges, limit, exec)
    ensures Turned(run + [t], |run|, edges, limit, exec)
  {
  }

  lemma RunExtends(initial: seq<Item>, edges: seq<Edge>, limit: int, exec: Executor, run: seq<Trace>, t: Trace)
    requires Run(initial, edges, limit, exec, run)
    requires |t.items| == |initial| && Turned(run + [t], |run|, edges, limit, exec)
    ensures Run(initial, edges, limit, exec, run + [t])
  {
    var more := run + [t];
    forall k | 1 <= k < |more| ensures Turned(more, k, edges, limit, exec) {
      if k < |run| {
        StaysTurned(run, t, k, edges, limit, exec);
      }
    }
  }

  /** The rows, the graph, the limit and the executor leave the loop no choice: of two runs one continues
      the other. */
  lemma {:induction false} RunsAgree(initial: seq<Item>, edges: seq<Edge>, limit: int, exec: Executor, a: seq<Trace>,
                                     b: seq<Trace>, k: nat)
    requires Run(initial, edges, limit, exec, a) && Run(initial, edges, limit, exec, b)
    requires k < |a| && k < |b|
    ensures a[k] == b[k]
  {
    if k > 0 {
      RunsAgree(initial, edges, limit, exec, a, b, k - 1);
      SameTurn(a, b, k, edges, limit, exec);
    }
  }

  lemma SameTurn(a: seq<Trace>, b: seq<Trace>, k: nat, edges: seq<Edge>, limit: int, exec: Executor)
    requires 1 <= k < |a| && k < |b| && a[k - 1] == b[k - 1]
    requires Turned(a, k, edges, limit, exec) && Turned(b, k, edges, limit, exec)
    ensures a[k] == b[k]
  {
  }

  lemma LongerRunWentOn(initial: seq<Item>, edges: seq<Edge>, limit: int, exec: Executor, a: seq<Trace>, b: seq<Trace>)
    requires Run(initial, edges, limit, exec, a) && Run(initial, edges, limit, exec, b) && |a| < |b|
    ensures Last(a) in a && Judge(Last(a).items, edges, limit) == Continue
  {
    RunsAgree(initial, edges, limit, exec, a, b, |a| - 1);
    assert Turned(b, |a|, edges, limit, exec);
  }

  // ---------------------------------------------------------------- what every turn keeps

  ghost predicate CallReady(c: Call, edges: seq<Edge>) {
    && WellFormed(c.rows, edges)
    && c.row < |c.rows|
    && c.rows[c.row].status == Queued
    && Ready(c.rows, edges, c.row)
  }

  ghost predicate AllReady(log: seq<Call>, edges: seq<Edge>) {
    forall k :: 0 <= k < |log| ==> CallReady(log[k], edges)
  }

  /** Each parent of the row was released from the start or was run before. */
  ghost predicate ParentsSeen(initial: seq<Item>, edges: seq<Edge>, before: seq<Call>, row: nat)
    requires WellFormed(initial, edges)
  {
    forall e <- edges | e.1 == row :: Releases(initial[e.0]) || e.0 in Rows(before)
  }

  /** Topological order of the calls. */
  ghost predicate Topological(initial: seq<Item>, edges: seq<Edge>, log: seq<Call>) {
    && WellFormed(initial, edges)
    && forall k :: 0 <= k < |log| ==> ParentsSeen(initial, edges, log[..k], log[k].row)
  }

  /** Rows that were not queued stay as they were, the others are queued or settled; profiles never change,
      and rows that differ from the start have been run. */
  ghost predicate Evolved(initial: seq<Item>, items: seq<Item>, log: seq<Call>) {
    && |items| == |initial|
    && (forall y :: 0 <= y < |items| ==>
          && items[y].profile == initial[y].profile
          && (if initial[y].status == Queued then items[y].status == Queued || Settled(items[y])
              else items[y] == initial[y])
          && (items[y] != initial[y] ==> y in Rows(log)))
    && (forall k :: 0 <= k < |log| ==> log[k].row < |initial| && initial[log[k].row].status == Queued)
  }

  /** A row that settled in this run still has all its parents released. */
  ghost predicate ParentsReleased(initial: seq<Item>, items: seq<Item>, edges: seq<Edge>) {
    && WellFormed(initial, edges) && WellFormed(items, edges)
    && forall e <- edges :: initial[e.1].status == Queued && Settled(items[e.1]) ==> Releases(items[e.0])
  }

  /** Executor calls are conserved: each one settles its row or is paid for by a requeue. */
  ghost predicate Conserved(initial: seq<Item>, t: Trace) {
    && |t.items| == |initial|
    && forall y :: 0 <= y < |t.items| ==>
         Count(Rows(t.log), y) == Count(t.requeued, y) + SettledOnce(initial, t.items, y)
  }

  /** A later call of the same batch raised. */
  ghost predicate RolledBack(log: seq<Call>, k: nat)
    requires k < |log|
  {
    exists m :: k < m < |log| && m - log[m].position == k - log[k].position && log[m].outcome.Raised?
  }

  /** The call came to nothing: it put its row back in the queue, or a later call of its batch raised. */
  ghost predicate Undone(log: seq<Call>, k: nat)
    requires k < |log|
  {
    var c := log[k];
    (c.row < |c.rows| && Settle(c.rows[c.row], c.outcome).status == Queued) || RolledBack(log, k)
  }

  /** The requeued rows are those of the calls that came to nothing. */
  ghost predicate RequeuesExplained(t: Trace) {
    forall y :: y in t.requeued <==> Wasted(t.log, y)
  }

  /** Calls are numbered through, follow the executor, and batches are unbroken. */
  ghost predicate Faithful(log: seq<Call>, exec: Executor) {
    forall k {:trigger log[k]} :: 0 <= k < |log| ==>
      && log[k].outcome == exec(k, log[k].row)
      && log[k].position <= k
      && (log[k].position > 0 ==> log[k - 1].position == log[k].position - 1)
  }

  ghost predicate History(initial: seq<Item>, edges: seq<Edge>, exec: Executor, t: Trace) {
    && PriorityDecreases(t.items, edges)
    && NoneActive(t.items)
    && Evolved(initial, t.items, t.log)
    && ParentsReleased(initial, t.items, edges)
    && Topological(initial, edges, t.log)
    && AllReady(t.log, edges)
    && Conserved(initial, t)
    && RequeuesExplained(t)
    && Faithful(t.log, exec)
  }

  /** The invariants hold after every turn of every run. */
  lemma {:induction false} HistoryHolds(initial: seq<Item>, edges: seq<Edge>, limit: int, exec: Executor,
                                        run: seq<Trace>, k: nat)
    requires PriorityDecreases(initial, edges) && NoneActive(initial)
    requires Run(initial, edges, limit, exec, run) && k < |run|
    ensures History(initial, edges, exec, run[k])
  {
    if k == 0 {
      NoCallsYet(initial, edges, exec);
    } else {
      HistoryHolds(initial, edges, limit, exec, run, k - 1);
      TurnKeepsHistory(initial, edges, limit, exec, run[k - 1]);
      assert Turned(run, k, edges, limit, exec);
    }
  }

  lemma NoCallsYet(initial: seq<Item>, edges: seq<Edge>, exec: Executor)
    requires PriorityDecreases(initial, edges) && NoneActive(initial)
    ensures History(initial, edges, exec, Trace(initial, [], []))
  {
    assert Rows([]) == [];
  }

  lemma TurnKeepsHistory(initial: seq<Item>, edges: seq<Edge>, limit: int, exec: Executor, t: Trace)
    requires History(initial, edges, exec, t)
    ensures History(initial, edges, exec, Turn(t, edges, limit, exec))
  {
    var batch := Runnable(t.items, edges, limit);
    RunnableIsFresh(t.items, edges, limit);
    var next := Turn(t, edges, limit, exec);
    var more := BatchCalls(t.items, batch, |batch|, |t.log|, exec);
    CallsDescribed(t.items, batch, |t.log|, exec);
    BatchRan(t.items, batch, |t.log|, exec);
    TurnEvolves(initial, edges, batch, exec, t, next.items, more);
    TurnReleases(initial, edges, batch, t, next.items);
    TurnTopological(initial, edges, batch, exec, t, more);
    TurnReady(edges, batch, exec, t);
    TurnConserves(initial, batch, exec, t);
    TurnExplains(batch, exec, t);
    TurnFaithful(batch, exec, t, more);
  }

  /** What a batch leaves alone, and how it leaves its own rows. */
  ghost predicate Ran(base: seq<Item>, items: seq<Item>, batch: seq<nat>) {
    && |items| == |base|
    && forall y :: 0 <= y < |base| ==>
         && items[y].profile == base[y].profile
         && (y !in batch ==> items[y] == base[y])
         && (y in batch ==> base[y].status == Queued && (items[y].status == Queued || Settled(items[y])))
  }

  lemma BatchRan(base: seq<Item>, batch: seq<nat>, first: nat, exec: Executor)
    requires Fresh(base, batch)
    ensures Ran(base, AfterBatch(base, batch, |batch|, first, exec), batch)
  {
    BatchFrame(base, batch, |batch|, first, exec);
    assert batch[..|batch|] == batch;
    forall y | 0 <= y < |base| && y in batch ensures base[y].status == Queued {
      var k :| 0 <= k < |batch| && batch[k] == y;
    }
  }

  /** The new calls of a turn: numbered through the batch, each starting from its row as the batch found it. */
  ghost predicate Describes(more: seq<Call>, base: seq<Item>, batch: seq<nat>, first: nat, exec: Executor)
    requires InRange(base, batch)
  {
    && |more| == |batch|
    && forall j {:trigger more[j]} :: 0 <= j < |batch| ==>
         && more[j].row == batch[j] && more[j].position == j && more[j].outcome == exec(first + j, batch[j])
         && |more[j].rows| == |base| && more[j].rows[batch[j]] == base[batch[j]]
  }

  lemma CallsDescribed(base: seq<Item>, batch: seq<nat>, first: nat, exec: Executor)
    requires Fresh(base, batch)
    ensures Describes(BatchCalls(base, batch, |batch|, first, exec), base, batch, first, exec)
  {
    var more := BatchCalls(base, batch, |batch|, first, exec);
    forall j {:trigger more[j]} | 0 <= j < |batch|
      ensures more[j].row == batch[j] && more[j].position == j && more[j].outcome == exec(first + j, batch[j])
      ensures |more[j].rows| == |base| && more[j].rows[batch[j]] == base[batch[j]]
    {
      BatchCallIs(base, batch, |batch|, j, first, exec);
      BatchFrame(base, batch, j, first, exec);
    }
  }

  lemma DescribedRows(log: seq<Call>, more: seq<Call>, base: seq<Item>, batch: seq<nat>, first: nat, exec: Executor)
    requires InRange(base, batch) && Describes(more, base, batch, first, exec)
    ensures Rows(log + more) == Rows(log) + batch
  {
  }

  lemma TurnEvolves(initial: seq<Item>, edges: seq<Edge>, batch: seq<nat>, exec: Executor, t: Trace, items: seq<Item>,
                    more: seq<Call>)
    requires PriorityDecreases(t.items, edges) && NoneActive(t.items) && Evolved(initial, t.items, t.log)
    requires Fresh(t.items, batch) && Ran(t.items, items, batch) && Describes(more, t.items, batch, |t.log|, exec)
    ensures PriorityDecreases(items, edges) && NoneActive(items) && Evolved(initial, items, t.log + more)
  {
    DescribedRows(t.log, more, t.items, batch, |t.log|, exec);
    forall i | i in items ensures !Active(i) {
      var y :| 0 <= y < |items| && items[y] == i;
      assert t.items[y] in t.items;
    }
  }

  lemma TurnReleases(initial: seq<Item>, edges: seq<Edge>, batch: seq<nat>, t: Trace, items: seq<Item>)
    requires ParentsReleased(initial, t.items, edges) && Fresh(t.items, batch) && Ran(t.items, items, batch)
    requires forall k :: 0 <= k < |batch| ==> Ready(t.items, edges, batch[k])
    ensures ParentsReleased(initial, items, edges)
  {
    forall e | e in edges && initial[e.1].status == Queued && Settled(items[e.1]) ensures Releases(items[e.0]) {
      if e.1 in batch {
        var k :| 0 <= k < |batch| && batch[k] == e.1;
        assert Ready(t.items, edges, batch[k]);
      }
      assert Releases(t.items[e.0]);
      assert e.0 !in batch;
    }
  }

  lemma TurnReady(edges: seq<Edge>, batch: seq<nat>, exec: Executor, t: Trace)
    requires WellFormed(t.items, edges) && Fresh(t.items, batch) && AllReady(t.log, edges)
    requires forall k :: 0 <= k < |batch| ==> Ready(t.items, edges, batch[k])
    ensures AllReady(t.log + BatchCalls(t.items, batch, |batch|, |t.log|, exec), edges)
  {
    var more := BatchCalls(t.items, batch, |batch|, |t.log|, exec);
    forall k | 0 <= k < |more| ensures CallReady(more[k], edges) {
      BatchCallReady(edges, batch, exec, t, k);
    }
  }

  lemma BatchCallReady(edges: seq<Edge>, batch: seq<nat>, exec: Executor, t: Trace, k: nat)
    requires WellFormed(t.items, edges) && Fresh(t.items, batch) && k < |batch|
    requires Ready(t.items, edges, batch[k])
    ensures CallReady(BatchCalls(t.items, batch, |batch|, |t.log|, exec)[k], edges)
  {
    BatchCallIs(t.items, batch, |batch|, k, |t.log|, exec);
    StartsReady(t.items, edges, batch, k, |t.log|, exec);
  }

  lemma TurnTopological(initial: seq<Item>, edges: seq<Edge>, batch: seq<nat>, exec: Executor, t: Trace,
                        more: seq<Call>)
    requires WellFormed(t.items, edges) && Fresh(t.items, batch) && Describes(more, t.items, batch, |t.log|, exec)
    requires forall k :: 0 <= k < |batch| ==> Ready(t.items, edges, batch[k])
    requires Evolved(initial, t.items, t.log) && Topological(initial, edges, t.log)
    ensures Topological(initial, edges, t.log + more)
  {
    var log := t.log + more;
    forall k | 0 <= k < |log| ensures ParentsSeen(initial, edges, log[..k], log[k].row) {
      if k < |t.log| {
        assert log[..k] == t.log[..k];
      } else {
        var j := k - |t.log|;
        assert log[k] == more[j] && log[..k] == t.log + more[..j];
        ReadyParentsSeen(initial, edges, t.items, t.log, more[..j], batch[j]);
      }
    }
  }

  lemma ReadyParentsSeen(initial: seq<Item>, edges: seq<Edge>, items: seq<Item>, log: seq<Call>, since: seq<Call>,
                         row: nat)
    requires WellFormed(items, edges) && Evolved(initial, items, log) && Ready(items, edges, row)
    ensures ParentsSeen(initial, edges, log + since, row)
  {
    forall e | e in edges && e.1 == row && !Releases(initial[e.0]) ensures e.0 in Rows(log + since) {
      assert Releases(items[e.0]);
      var j :| 0 <= j < |log| && Rows(log)[j] == e.0;
      assert Rows(log + since)[j] == e.0;
    }
  }

  lemma TurnConserves(initial: seq<Item>, batch: seq<nat>, exec: Executor, t: Trace)
    requires Conserved(initial, t) && Evolved(initial, t.items, t.log) && Fresh(t.items, batch)
    ensures Conserved(initial, Trace(AfterBatch(t.items, batch, |batch|, |t.log|, exec),
                                     t.log + BatchCalls(t.items, batch, |batch|, |t.log|, exec),
                                     t.requeued + RequeuedIn(t.items, batch, |batch|, |t.log|, exec)))
  {
    var log := t.log + BatchCalls(t.items, batch, |batch|, |t.log|, exec);
    var again := RequeuedIn(t.items, batch, |batch|, |t.log|, exec);
    assert batch[..|batch|] == batch;
    CallsDescribed(t.items, batch, |t.log|, exec);
    DescribedRows(t.log, BatchCalls(t.items, batch, |batch|, |t.log|, exec), t.items, batch, |t.log|, exec);
    forall y | 0 <= y < |t.items|
      ensures Count(Rows(log), y) == Count(t.requeued + again, y)
                                   + SettledOnce(initial, AfterBatch(t.items, batch, |batch|, |t.log|, exec), y)
    {
      BatchAccounting(initial, t.items, batch, |batch|, |t.log|, exec, y);
      CountConcat(Rows(t.log), batch, y);
      CountConcat(t.requeued, again, y);
    }
  }

  lemma TurnFaithful(batch: seq<nat>, exec: Executor, t: Trace, more: seq<Call>)
    requires Faithful(t.log, exec) && Fresh(t.items, batch) && Describes(more, t.items, batch, |t.log|, exec)
    ensures Faithful(t.log + more, exec)
  {
    var first := |t.log|;
    var log := t.log + more;
    forall k {:trigger log[k]} | 0 <= k < |log|
      ensures log[k].outcome == exec(k, log[k].row) && log[k].position <= k
      ensures log[k].position > 0 ==> log[k - 1].position == log[k].position - 1
    {
      if k < first {
        assert log[k] == t.log[k] && (k > 0 ==> log[k - 1] == t.log[k - 1]);
      } else {
        assert log[k] == more[k - first] && (k > first ==> log[k - 1] == more[k - first - 1]);
      }
    }
  }

  /** Later batches undo nothing of earlier ones. */
  lemma UndoneEarlier(log: seq<Call>, more: seq<Call>, k: nat)
    requires k < |log| && log[k].position <= k
    requires forall j {:trigger more[j]} :: 0 <= j < |more| ==> more[j].position == j
    ensures Undone(log + more, k) <==> Undone(log, k)
  {
    var all := log + more;
    forall m | |log| <= m < |all| ensures m - all[m].position == |log| {
      assert all[m] == more[m - |log|];
    }
    if m :| k < m < |log| && m - log[m].position == k - log[k].position && log[m].outcome.Raised? {
      assert all[m] == log[m];
    }
  }

  /** Within the new batch calls are undone as the batch says. */
  lemma UndoneLater(log: seq<Call>, more: seq<Call>, base: seq<Item>, batch: seq<nat>, exec: Executor, j: nat)
    requires Fresh(base, batch) && Describes(more, base, batch, |log|, exec) && j < |batch|
    ensures Undone(log + more, |log| + j) <==> UndoneIn(base, batch, |batch|, |log|, exec, j)
  {
    var all := log + more;
    assert all[|log| + j] == more[j];
    if m :| j < m < |batch| && exec(|log| + m, batch[m]).Raised? {
      assert all[|log| + m] == more[m] && more[m].outcome.Raised?;
    }
    if m :| |log| + j < m < |all| && m - all[m].position == |log| && all[m].outcome.Raised? {
      var i := m - |log|;
      assert all[m] == more[i] && exec(|log| + i, batch[i]).Raised?;
    }
  }

  /** Row `y` had a call that came to nothing. */
  ghost predicate Wasted(log: seq<Call>, y: nat) {
    exists k :: 0 <= k < |log| && log[k].row == y && Undone(log, k)
  }

  lemma WastedInTurn(log: seq<Call>, more: seq<Call>, base: seq<Item>, batch: seq<nat>, exec: Executor, y: nat)
    requires Faithful(log, exec) && Fresh(base, batch) && Describes(more, base, batch, |log|, exec)
    ensures Wasted(log + more, y) <==>
            Wasted(log, y)
            || exists j :: 0 <= j < |batch| && batch[j] == y && UndoneIn(base, batch, |batch|, |log|, exec, j)
  {
    var all := log + more;
    if k :| 0 <= k < |log| && log[k].row == y && Undone(log, k) {
      UndoneEarlier(log, more, k);
      assert all[k].row == y;
    }
    if j :| 0 <= j < |batch| && batch[j] == y && UndoneIn(base, batch, |batch|, |log|, exec, j) {
      UndoneLater(log, more, base, batch, exec, j);
      assert all[|log| + j] == more[j];
    }
    if k :| 0 <= k < |all| && all[k].row == y && Undone(all, k) {
      if k < |log| {
        assert all[k] == log[k];
        UndoneEarlier(log, more, k);
      } else {
        assert all[k] == more[k - |log|];
        UndoneLater(log, more, base, batch, exec, k - |log|);
      }
    }
  }

  lemma TurnExplains(batch: seq<nat>, exec: Executor, t: Trace)
    requires RequeuesExplained(t) && Faithful(t.log, exec) && Fresh(t.items, batch)
    ensures RequeuesExplained(Trace(AfterBatch(t.items, batch, |batch|, |t.log|, exec),
                                    t.log + BatchCalls(t.items, batch, |batch|, |t.log|, exec),
                                    t.requeued + RequeuedIn(t.items, batch, |batch|, |t.log|, exec)))
  {
    var more := BatchCalls(t.items, batch, |batch|, |t.log|, exec);
    var again := RequeuedIn(t.items, batch, |batch|, |t.log|, exec);
    CallsDescribed(t.items, batch, |t.log|, exec);
    forall y ensures y in t.requeued + again <==> Wasted(t.log + more, y) {
      RequeuedAreUndone(t.items, batch, |batch|, |t.log|, exec, y);
      WastedInTurn(t.log, more, t.items, batch, exec, y);
    }
  }

  // ---------------------------------------------------------------- length

  /** A run goes on for as many turns as there is work, at most. */
  lemma {:induction false} TurnsBounded(initial: seq<Item>, edges: seq<Edge>, limit: int, exec: Executor,
                                        run: seq<Trace>, k: nat)
    requires Run(initial, edges, limit, exec, run) && k < |run|
    ensures Weight(run[k].items) + k <= Weight(initial)
  {
    if k > 0 {
      TurnsBounded(initial, edges, limit, exec, run, k - 1);
      assert Turned(run, k, edges, limit, exec);
      TurnMakesProgress(run[k - 1], edges, limit, exec);
    }
  }

  lemma TurnMakesProgress(t: Trace, edges: seq<Edge>, limit: int, exec: Executor)
    requires WellFormed(t.items, edges) && Judge(t.items, edges, limit) == Continue
    ensures Weight(Turn(t, edges, limit, exec).items) < Weight(t.items)
  {
    RunnableIsFresh(t.items, edges, limit);
    BatchMakesProgress(t.items, Runnable(t.items, edges, limit), |t.log|, exec);
  }

  // ---------------------------------------------------------------- how runs end

  /** Nothing is left to do, and the run failed exactly if a blocking failure remains. */
  ghost predicate Over(items: seq<Item>, runFailed: bool) {
    && (forall i <- items :: Terminal(i))
    && (runFailed <==> exists i <- items :: BlockingFailure(i))
  }

  /** Every row that was queued has settled, or was canceled at the end of a failed run. */
  ghost predicate SettledOrCanceled(initial: seq<Item>, items: seq<Item>, runFailed: bool) {
    && |items| == |initial|
    && forall y :: 0 <= y < |items| && initial[y].status == Queued ==>
         Settled(items[y]) || (runFailed && items[y].status == Canceled)
  }

  lemma CancelKeepsFailures(items: seq<Item>)
    ensures (exists i <- CancelQueued(items) :: BlockingFailure(i)) <==> (exists i <- items :: BlockingFailure(i))
  {
    var r := CancelQueued(items);
    if i :| i in items && BlockingFailure(i) {
      var k :| 0 <= k < |items| && items[k] == i;
      assert r[k] == i;
    }
    if i :| i in r && BlockingFailure(i) {
      var k :| 0 <= k < |r| && r[k] == i;
      assert items[k] == i;
    }
  }

  /** When the loop calls a run complete or failed, every row it was given has settled, or was canceled
      because the run failed. */
  lemma EndedRunIsOver(initial: seq<Item>, edges: seq<Edge>, limit: int, exec: Executor, run: seq<Trace>)
    requires PriorityDecreases(initial, edges) && NoneActive(initial) && Run(initial, edges, limit, exec, run)
    requires var v := Judge(Last(run).items, edges, limit); v == Complete || v == Fail
    ensures var t := Last(run);
      var failed := Judge(t.items, edges, limit) == Fail;
      && Over(CancelQueued(t.items), failed)
      && SettledOrCanceled(initial, CancelQueued(t.items), failed)
      && (!failed ==> CancelQueued(t.items) == t.items)
  {
    var t := Last(run);
    HistoryHolds(initial, edges, limit, exec, run, |run| - 1);
    var items := CancelQueued(t.items);
    CancelKeepsFailures(t.items);
    forall i | i in items ensures Terminal(i) {
      var k :| 0 <= k < |items| && items[k] == i;
      assert t.items[k] in t.items;
    }
    forall y | 0 <= y < |items| && t.items[y].status == Queued ensures SomeQueued(t.items) {
      assert t.items[y] in t.items;
    }
  }

  /** The loop goes on exactly as long as something is selected. */
  lemma GoesOnIff(items: seq<Item>, edges: seq<Edge>, limit: int)
    requires WellFormed(items, edges)
    ensures Judge(items, edges, limit) == Continue <==> Runnable(items, edges, limit) != []
  {
    var batch := Runnable(items, edges, limit);
    RunnableSelects(items, edges, limit);
    if batch != [] {
      assert batch[0] in batch;
      assert items[batch[0]] in items;
    }
  }

  /** A row with a parent that holds it back for good, and nothing that fails the run. */
  ghost predicate HeldBack(initial: seq<Item>, items: seq<Item>, edges: seq<Edge>)
    requires WellFormed(initial, edges) && WellFormed(items, edges)
  {
    NoBlockingFailure(items) && exists e <- edges :: DeadEnd(items[e.0]) && initial[e.1].status == Queued
  }

  /** When the loop stops making progress it sleeps for ever exactly if nothing failed in a blocking way and
      some row it was given waits for a parent that will never release it. */
  lemma SleepsIff(initial: seq<Item>, edges: seq<Edge>, limit: int, exec: Executor, run: seq<Trace>)
    requires PriorityDecreases(initial, edges) && NoneActive(initial) && Run(initial, edges, limit, exec, run)
    requires Judge(Last(run).items, edges, limit) != Continue
    ensures var t := Last(run);
      Judge(t.items, edges, limit) == Sleep <==> HeldBack(initial, t.items, edges)
  {
    var t := Last(run);
    HistoryHolds(initial, edges, limit, exec, run, |run| - 1);
    if Judge(t.items, edges, limit) == Sleep {
      SleepIsHeldBack(t.items, edges, limit);
      var e :| e in edges && DeadEnd(t.items[e.0]) && t.items[e.1].status == Queued;
      assert initial[e.1].status == Queued;
    }
    if HeldBack(initial, t.items, edges) {
      HeldBackWaits(initial, t.items, edges, t.log);
    }
  }

  lemma HeldBackWaits(initial: seq<Item>, items: seq<Item>, edges: seq<Edge>, log: seq<Call>)
    requires Evolved(initial, items, log) && ParentsReleased(initial, items, edges)
    requires HeldBack(initial, items, edges)
    ensures SomeQueued(items)
  {
    var e :| e in edges && DeadEnd(items[e.0]) && initial[e.1].status == Queued;
    assert !Settled(items[e.1]);
    assert items[e.1] in items;
  }

  lemma SleepIsHeldBack(items: seq<Item>, edges: seq<Edge>, limit: int)
    requires PriorityDecreases(items, edges) && NoneActive(items) && SomeQueued(items)
    requires Runnable(items, edges, limit) == []
    ensures exists e <- edges :: DeadEnd(items[e.0]) && items[e.1].status == Queued
  {
    QueueOrdered(items);
    var i :| i in items && i.status == Queued;
    var n :| 0 <= n < |items| && items[n] == i;
    assert n in Queue(items);
    var x := Batch(items, limit)[0];
    assert x in Batch(items, limit);
    EmptySelectionIff(items, edges, limit);
    var path :| Chain(items, edges, path) && path[|path| - 1] == x;
    assert (path[0], path[1]) in edges;
  }
}
