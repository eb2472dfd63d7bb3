/** The embedded run loop as the object that owns the rows: every turn commits, reads the run row, rules on
    the rows and runs the selected batch; at the end the final status is written under a row lock. `Runs`
    says what the rows and the calls are after so many turns. */
module Orchestrator {
  import opened WorkItems
  import opened Scheduler
  import opened Batches
  import opened Runs
  import opened Repeats
  import opened Answers

  datatype RunStatus = RunQueued | RunRunning | RunPaused | RunCompleted | RunFailed | RunCanceled

  predicate RunOver(s: RunStatus) {
    s == RunCompleted || s == RunFailed || s == RunCanceled
  }

  function FinalStatus(runFailed: bool, neverFail: bool, seen: RunStatus): RunStatus {
    if runFailed && neverFail then RunCompleted
    else if runFailed then RunFailed
    else if seen == RunCanceled then RunCanceled
    else RunCompleted
  }

  /** What the loop finds on the run row at its turn `t`, when the row held `first` and `external` lists what
      other writers put there, in the order in which the loop gets to see it. */
  function StatusAt(first: RunStatus, external: seq<RunStatus>, t: nat): RunStatus {
    if external == [] then first
    else if t < |external| then external[t]
    else external[|external| - 1]
  }

  datatype Exit =
    | Interrupted   // the run row was found completed, failed or canceled
    | Drained       // the loop decided the run is over
    | Polling       // nothing active, nothing runnable, nothing failed: it sleeps and asks again

  /** The loop is at the top of turn `turns`, having run `passes` batches; `ruling` is what it is going to
      decide about the rows. Every turn ran a batch, unless the loop has begun to sleep. */
  predicate Reached(ruling: Ruling, first: RunStatus, external: seq<RunStatus>, passes: nat, turns: nat) {
    && (passes == turns || (passes < turns && ruling == Sleep))
    && forall t :: 0 <= t < turns ==> !RunOver(StatusAt(first, external, t))
  }

  /** And that is where it leaves: for the status it reads, or else for its ruling. It sleeps for good once no
      writer is left to change the status. */
  predicate StopsAt(ruling: Ruling, first: RunStatus, external: seq<RunStatus>, exit: Exit, runFailed: bool,
                    passes: nat, turns: nat)
  {
    && Reached(ruling, first, external, passes, turns)
    && (exit == Interrupted <==> RunOver(StatusAt(first, external, turns)))
    && (exit == Drained ==> ruling == if runFailed then Fail else Complete)
    && (exit == Polling ==> ruling == Sleep && |external| <= turns + 1)
    && (runFailed ==> exit == Drained)
  }

  lemma ReachedNext(ruling: Ruling, next: Ruling, first: RunStatus, external: seq<RunStatus>, passes: nat, turns: nat)
    requires Reached(ruling, first, external, passes, turns) && !RunOver(StatusAt(first, external, turns))
    ensures ruling == Continue ==> Reached(next, first, external, passes + 1, turns + 1)
    ensures ruling == Sleep ==> Reached(ruling, first, external, passes, turns + 1)
  {
  }

  /** A run that is over is not touched, and one that nobody ends is not interrupted. */
  lemma StatusDecides(ruling: Ruling, first: RunStatus, external: seq<RunStatus>, exit: Exit, runFailed: bool,
                      passes: nat, turns: nat)
    requires StopsAt(ruling, first, external, exit, runFailed, passes, turns)
    ensures external == [] && RunOver(first) ==> exit == Interrupted && passes == turns == 0
    ensures !RunOver(first) && (forall s <- external :: !RunOver(s)) ==> exit != Interrupted
  {
    if external == [] && RunOver(first) {
      assert RunOver(StatusAt(first, external, 0));
    }
    assert StatusAt(first, external, turns) in [first] + external;
  }

  function Unread(external: seq<RunStatus>, t: nat): seq<RunStatus> {
    if t <= |external| then external[t..] else []
  }

  /** What draining the run does to the rows. */
  ghost function Finish(t: Trace, exit: Exit): Trace {
    if exit == Drained then t.(items := CancelQueued(t.items)) else t
  }

  /** The run row after the final write, the loop having read the row `turns` times before the last time. */
  function FinalWrite(first: RunStatus, external: seq<RunStatus>, turns: nat, exit: Exit, runFailed: bool,
                      neverFail: bool): RunStatus
  {
    var seen, locked := StatusAt(first, external, turns), StatusAt(first, external, turns + 1);
    if exit == Polling then seen
    else if RunOver(locked) then locked
    else FinalStatus(runFailed, neverFail, seen)
  }

  /** The run row after the loop: a status found final under the lock stays; otherwise the run has failed exactly
      with `runFailed` unless runs may not fail, and was canceled exactly if the loop last read that. */
  predicate WrittenOver(first: RunStatus, external: seq<RunStatus>, turns: nat, runFailed: bool, neverFail: bool,
                        status: RunStatus)
  {
    var locked := if turns + 1 < |external| then external[turns + 1]
                  else if external != [] then external[|external| - 1] else first;
    if locked == RunCompleted || locked == RunFailed || locked == RunCanceled then
      status == locked
    else
      && (status == RunFailed <==> runFailed && !neverFail)
      && (status == RunCanceled <==> !runFailed && turns < |external| && external[turns] == RunCanceled)
      && (status == RunFailed || status == RunCanceled || status == RunCompleted)
  }

  lemma FinalWriteIs(first: RunStatus, external: seq<RunStatus>, turns: nat, exit: Exit, runFailed: bool,
                     neverFail: bool)
    ensures exit != Polling ==>
              WrittenOver(first, external, turns, runFailed, neverFail,
                          FinalWrite(first, external, turns, exit, runFailed, neverFail))
  {
  }

  class RunOrchestrator {
    const edges: seq<Edge>
    const limit: int
    const neverFail: bool
    var items: seq<Item>
    var status: RunStatus
    var calls: nat
    ghost var log: seq<Call>

    constructor (items: seq<Item>, edges: seq<Edge>, limit: int, neverFail: bool, status: RunStatus)
      ensures this.items == items && this.edges == edges && this.limit == limit
      ensures this.neverFail == neverFail && this.status == status
      ensures calls == 0 && log == []
    {
      this.items, this.edges, this.limit, this.neverFail, this.status := items, edges, limit, neverFail, status;
      calls, log := 0, [];
    }

    /** Runs one work item inside the pass that started from `committed`. */
    method ProcessWorkItem(committed: seq<Item>, x: nat, exec: Executor)
      requires |committed| == |items| && x < |items|
      modifies `items, `calls
      ensures calls == old(calls) + 1
      ensures items == RunOne(committed, old(items), x, exec(old(calls), x))
    {
      items := items[x := items[x].(status := Running)];
      var o := exec(calls, x);
      calls := calls + 1;
      match o {
        case Returned(v, flags, retry) =>
          items := items[x := items[x].(status := StatusOf(v), flags := flags)];
          items := items[x := Recover(items[x], retry)];
        case Raised(flags, retry) =>
          items := committed;
          items := items[x := items[x].(status := Failed, flags := flags)];
          items := items[x := Recover(items[x], retry)];
      }
    }

    method ProcessBatch(batch: seq<nat>, exec: Executor)
      requires InRange(items, batch)
      modifies `items, `calls, `log
      ensures calls == old(calls) + |batch|
      ensures items == AfterBatch(old(items), batch, |batch|, old(calls), exec)
      ensures log == old(log) + BatchCalls(old(items), batch, |batch|, old(calls), exec)
    {
      var committed := items;
      ghost var first, before := calls, log;
      for n := 0 to |batch|
        invariant calls == first + n
        invariant items == AfterBatch(committed, batch, n, first, exec)
        invariant log == before + BatchCalls(committed, batch, n, first, exec)
      {
        RunNext(committed, batch, n, first, exec);
        assert BatchCalls(committed, batch, n + 1, first, exec) ==
               BatchCalls(committed, batch, n, first, exec) + [CallAt(committed, batch, n, first, exec)];
      }
    }

    /** Runs the batch's item `n`, logging the rows it starts from and what it did. */
    method RunNext(committed: seq<Item>, batch: seq<nat>, n: nat, ghost first: nat, exec: Executor)
      requires n < |batch| && InRange(committed, batch) && calls == first + n
      requires items == AfterBatch(committed, batch, n, first, exec)
      modifies `items, `calls, `log
      ensures calls == first + n + 1
      ensures items == AfterBatch(committed, batch, n + 1, first, exec)
      ensures log == old(log) + [CallAt(committed, batch, n, first, exec)]
    {
      log := log + [Call(batch[n], items, n, exec(calls, batch[n]))];
      ProcessWorkItem(committed, batch[n], exec);
    }

    /** One turn of the loop on a run that is not over. */
    method Pass(exec: Executor) returns (ruling: Ruling)
      requires WellFormed(items, edges) && NoneActive(items) && calls == |log|
      modifies `items, `calls, `log
      ensures ruling == Judge(old(items), edges, limit) && calls == |log|
      ensures ruling == Continue ==> Made(Turn(Trace(old(items), old(log), []), edges, limit, exec))
      ensures ruling != Continue ==> log == old(log)
      ensures items == match ruling
                       case Continue => items
                       case Sleep => old(items)
                       case _ => CancelQueued(old(items))
    {
      var queued := exists i <- items :: i.status == Queued;
      var failed := exists i <- items :: BlockingFailure(i);
      if !failed && !queued {
        CancelNothing(items);
        return Complete;
      }
      var runnable := if queued then Runnable(items, edges, limit) else [];
      if failed {
        if !queued {
          CancelNothing(items);
          return Fail;
        }
        if runnable == [] {
          CancelBlocked();
          return Fail;
        }
      }
      if runnable == [] {
        return Sleep;
      }
      RunnableIsFresh(items, edges, limit);
      ProcessBatch(runnable, exec);
      return Continue;
    }

    ghost predicate Made(t: Trace)
      reads this
    {
      items == t.items && log == t.log && calls == |log|
    }

    /** One turn of a run that is at the end of `run`. */
    method NextPass(ghost initial: seq<Item>, exec: Executor, ghost run: seq<Trace>)
      returns (ruling: Ruling, ghost longer: seq<Trace>)
      requires PriorityDecreases(initial, edges) && NoneActive(initial)
      requires Run(initial, edges, limit, exec, run) && Made(Last(run))
      modifies `items, `calls, `log
      ensures Run(initial, edges, limit, exec, longer)
      ensures ruling == Judge(Last(run).items, edges, limit)
      ensures if ruling == Continue then |longer| == |run| + 1 <= Weight(initial) + 1 else longer == run
      ensures Made(Finish(Last(longer), if ruling == Complete || ruling == Fail then Drained else Polling))
    {
      HistoryHolds(initial, edges, limit, exec, run, |run| - 1);
      longer := run;
      ruling := Pass(exec);
      if ruling == Continue {
        ghost var t := Turn(Last(run), edges, limit, exec);
        TurnIgnoresRequeues(Last(run), edges, limit, exec);
        NowTurned(run, t, edges, limit, exec);
        RunExtends(initial, edges, limit, exec, run, t);
        longer := run + [t];
        TurnsBounded(initial, edges, limit, exec, longer, |longer| - 1);
      }
    }

    method CancelBlocked()
      requires NoneActive(items)
      modifies `items
      ensures items == CancelQueued(old(items))
      ensures forall i <- items :: Terminal(i)
      ensures (exists i <- items :: BlockingFailure(i)) <==> (exists i <- old(items) :: BlockingFailure(i))
    {
      for k := 0 to |items|
        invariant |items| == |old(items)|
        invariant forall j :: 0 <= j < k ==> items[j] == CancelQueued(old(items))[j]
        invariant forall j :: k <= j < |items| ==> items[j] == old(items)[j]
      {
        if items[k].status == Queued {
          items := items[k := items[k].(status := Canceled)];
        }
      }
      assert items == CancelQueued(old(items));
      CancelKeepsFailures(old(items));
    }

    /** The embedded loop and the final write. `external` holds what other writers put on the run row, in the
        order in which the loop gets to see it; the last one read is what the final row lock finds. The loop
        reads the row `turns` times before the last time; `run` is what it makes of the rows. */
    method Start(exec: Executor, external: seq<RunStatus>)
      returns (exit: Exit, runFailed: bool, ghost turns: nat, ghost run: seq<Trace>)
      requires PriorityDecreases(items, edges) && NoneActive(items)
      requires log == [] && calls == 0
      modifies this
      // exactly what happens
      ensures Run(old(items), edges, limit, exec, run) && Made(Finish(Last(run), exit))
      ensures StopsAt(Judge(Last(run).items, edges, limit), old(status), external, exit, runFailed, |run| - 1, turns)
      ensures status == FinalWrite(old(status), external, turns, exit, runFailed, neverFail)
      // what it means for the rows and the calls
      ensures Promised(old(items), edges, limit, exec, exit, runFailed, items, log, EarlierCalls(run))
      ensures Settles(old(items), exit, runFailed, items, log)
      // and for the run row
      ensures exit != Polling ==> WrittenOver(old(status), external, turns, runFailed, neverFail, status)
      ensures external == [] && RunOver(old(status)) ==>
                exit == Interrupted && status == old(status) && items == old(items) && log == []
      ensures !RunOver(old(status)) && (forall s <- external :: !RunOver(s)) ==> exit != Interrupted
    {
      var pending: seq<RunStatus>;
      exit, runFailed, pending, turns, run := Loop(exec, external);
      RunKeepsPromise(old(items), edges, limit, exec, run, exit, runFailed);
      RunSettles(old(items), edges, limit, exec, run, exit, runFailed);
      StatusDecides(Judge(Last(run).items, edges, limit), old(status), external, exit, runFailed, |run| - 1, turns);
      if exit != Polling {
        WriteFinal(pending, exit, runFailed, old(status), external, turns);
      }
    }

    /** The final write, under the lock of the run row. */
    method WriteFinal(pending: seq<RunStatus>, ghost exit: Exit, runFailed: bool, ghost first: RunStatus,
                      ghost external: seq<RunStatus>, ghost turns: nat)
      requires status == StatusAt(first, external, turns) && pending == Unread(external, turns + 1) && exit != Polling
      modifies `status
      ensures status == FinalWrite(first, external, turns, exit, runFailed, neverFail)
      ensures WrittenOver(first, external, turns, runFailed, neverFail, status)
    {
      FinalWriteIs(first, external, turns, exit, runFailed, neverFail);
      var locked := if pending != [] then pending[0] else status;
      status := if RunOver(locked) then locked else FinalStatus(runFailed, neverFail, status);
    }

    method Loop(exec: Executor, external: seq<RunStatus>)
      returns (exit: Exit, runFailed: bool, pending: seq<RunStatus>, ghost turns: nat, ghost run: seq<Trace>)
      requires PriorityDecreases(items, edges) && NoneActive(items)
      requires log == [] && calls == 0
      modifies this
      ensures Run(old(items), edges, limit, exec, run) && Made(Finish(Last(run), exit))
      ensures StopsAt(Judge(Last(run).items, edges, limit), old(status), external, exit, runFailed, |run| - 1, turns)
      ensures status == StatusAt(old(status), external, turns)
      ensures pending == Unread(external, turns + 1)
    {
      ghost var initial, first := items, status;
      pending := external;
      turns, run := 0, [Trace(initial, [], [])];
      RunBegins(initial, edges, limit, exec);
      while true
        invariant Run(initial, edges, limit, exec, run) && Made(Last(run))
        invariant Reached(Judge(Last(run).items, edges, limit), first, external, |run| - 1, turns)
        invariant pending == Unread(external, turns)
        invariant status == if turns == 0 then first else StatusAt(first, external, turns - 1)
        decreases Weight(initial) + 1 - |run|, |pending|
      {
        pending := ReadRun(external, pending, first, turns);
        if RunOver(status) {
          exit, runFailed := Interrupted, false;
          break;
        }
        ghost var was := run;
        var ruling;
        ruling, run := NextPass(initial, exec, run);
        if ruling == Complete || ruling == Fail {
          runFailed, exit := ruling == Fail, Drained;
          break;
        }
        if ruling == Sleep && pending == [] {
          exit, runFailed := Polling, false;
          break;
        }
        ReachedNext(ruling, Judge(Last(run).items, edges, limit), first, external, |was| - 1, turns);
        turns := turns + 1;
      }
    }

    /** Turn `turns` of the loop reads the run row, after the next of the other writers. */
    method ReadRun(ghost external: seq<RunStatus>, pending: seq<RunStatus>, ghost first: RunStatus, ghost turns: nat)
      returns (rest: seq<RunStatus>)
      requires pending == Unread(external, turns)
      requires status == if turns == 0 then first else StatusAt(first, external, turns - 1)
      modifies `status
      ensures status == StatusAt(first, external, turns) && rest == Unread(external, turns + 1)
      ensures |rest| < |pending| || rest == pending == []
      ensures rest == [] ==> |external| <= turns + 1
    {
      rest := pending;
      if pending != [] {
        status, rest := pending[0], pending[1..];
      }
    }
  }

  /** The state in which the loop sleeps without end. */
  ghost predicate Starved(items: seq<Item>, edges: seq<Edge>, limit: int) {
    && NoneActive(items) && SomeQueued(items) && NoBlockingFailure(items)
    && (forall x <- Batch(items, limit) :: Blocked(items, edges, x))
    && (exists i <- items :: i.status == Canceled || SplitView(i))
  }

  /** What the loop promises about the rows and the calls. The outcomes are the executor's. The order is topological,
      with every dependency released at the start of each call. A row is started twice exactly if one of the
      `earlier` calls, those before the last turn, raised late or was retried, and unless the run was interrupted
      exactly if any call was. If the run drains, every row it was given has settled, or was canceled because the
      run failed. It sleeps exactly if rows are held back. */
  ghost predicate Promised(initial: seq<Item>, edges: seq<Edge>, limit: int, exec: Executor, exit: Exit,
                           runFailed: bool, items: seq<Item>, log: seq<Call>, earlier: seq<Call>)
    requires WellFormed(initial, edges)
  {
    && Faithful(log, exec)
    && Topological(initial, edges, log) && AllReady(log, edges)
    && (NoRepeats(log) <==> Clean(earlier))
    && (Clean(log) ==> NoRepeats(log))
    && (exit != Interrupted ==> (NoRepeats(log) <==> Clean(log)))
    && (exit == Drained ==> Over(items, runFailed) && SettledOrCanceled(initial, items, runFailed))
    && (exit == Polling ==> Starved(items, edges, limit))
    && WellFormed(items, edges)
    && (exit != Interrupted ==> (exit == Polling <==> HeldBack(initial, items, edges)))
  }

  lemma RunKeepsPromise(initial: seq<Item>, edges: seq<Edge>, limit: int, exec: Executor, run: seq<Trace>, exit: Exit,
                        runFailed: bool)
    requires PriorityDecreases(initial, edges) && NoneActive(initial) && Run(initial, edges, limit, exec, run)
    requires var ruling := Judge(Last(run).items, edges, limit);
      && (exit == Drained ==> ruling == if runFailed then Fail else Complete)
      && (exit == Polling ==> ruling == Sleep)
    ensures Promised(initial, edges, limit, exec, exit, runFailed, Finish(Last(run), exit).items, Last(run).log,
                     EarlierCalls(run))
  {
    var t, items := Last(run), Finish(Last(run), exit).items;
    assert Faithful(t.log, exec) && Topological(initial, edges, t.log) && AllReady(t.log, edges) by {
      HistoryHolds(initial, edges, limit, exec, run, |run| - 1);
    }
    NoRepeatsIff(initial, edges, limit, exec, run);
    StoppedNoRepeatsIff(initial, edges, limit, exec, run);
    if exit == Drained {
      EndedRunIsOver(initial, edges, limit, exec, run);
    }
    if exit == Polling {
      assert PriorityDecreases(t.items, edges) && NoneActive(t.items) by {
        HistoryHolds(initial, edges, limit, exec, run, |run| - 1);
      }
      PollingCause(t.items, edges, limit);
    }
    if exit != Interrupted {
      SleepsIff(initial, edges, limit, exec, run);
    }
  }

  /** The rows carry the executor's answers, and so does the verdict on the run. */
  ghost predicate Settles(initial: seq<Item>, exit: Exit, runFailed: bool, items: seq<Item>, log: seq<Call>) {
    && |items| == |initial| && Answered(initial, items, log)
    && (exit == Drained ==> (runFailed <==> FailedByAnswer(initial, items, log)))
  }

  lemma RunSettles(initial: seq<Item>, edges: seq<Edge>, limit: int, exec: Executor, run: seq<Trace>, exit: Exit,
                   runFailed: bool)
    requires PriorityDecreases(initial, edges) && NoneActive(initial) && Run(initial, edges, limit, exec, run)
    requires Last(run) in run && (exit == Drained ==>
               Judge(Last(run).items, edges, limit) == if runFailed then Fail else Complete)
    ensures Settles(initial, exit, runFailed, Finish(Last(run), exit).items, Last(run).log)
  {
    var t, items := Last(run), Finish(Last(run), exit).items;
    RunAnswered(initial, edges, limit, exec, run);
    assert Evolved(initial, t.items, t.log) by {
      HistoryHolds(initial, edges, limit, exec, run, |run| - 1);
    }
    FailureAnswered(initial, t.items, t.log);
    CancelKeepsFailures(t.items);
    FinishKeepsAnswers(initial, t, exit);
  }

  lemma FinishKeepsAnswers(initial: seq<Item>, t: Trace, exit: Exit)
    requires |t.items| == |initial| && Answered(initial, t.items, t.log)
    ensures Answered(initial, Finish(t, exit).items, t.log)
    ensures FailedByAnswer(initial, Finish(t, exit).items, t.log) <==> FailedByAnswer(initial, t.items, t.log)
  {
    var items := Finish(t, exit).items;
    assert forall y :: 0 <= y < |items| ==> (Settled(items[y]) <==> Settled(t.items[y]));
    assert forall y :: 0 <= y < |items| && Settled(items[y]) ==> items[y] == t.items[y];
  }

  /** The contract of the loop leaves it no freedom: rows, graph, limit, executor and the statuses others write
      determine the run and its exit. */
  lemma RunIsDetermined(initial: seq<Item>, edges: seq<Edge>, limit: int, exec: Executor, first: RunStatus,
                        external: seq<RunStatus>, exit: Exit, runFailed: bool, turns: nat, run: seq<Trace>,
                        exit': Exit, runFailed': bool, turns': nat, run': seq<Trace>)
    requires Run(initial, edges, limit, exec, run) && Run(initial, edges, limit, exec, run')
    requires StopsAt(Judge(Last(run).items, edges, limit), first, external, exit, runFailed, |run| - 1, turns)
    requires StopsAt(Judge(Last(run').items, edges, limit), first, external, exit', runFailed', |run'| - 1, turns')
    requires turns <= turns'
    ensures run == run' && exit == exit' && runFailed == runFailed'
    ensures StatusAt(first, external, turns) == StatusAt(first, external, turns')
    ensures StatusAt(first, external, turns + 1) == StatusAt(first, external, turns' + 1)
  {
    if |run| < |run'| {
      LongerRunWentOn(initial, edges, limit, exec, run, run');
    }
    if |run'| < |run| {
      LongerRunWentOn(initial, edges, limit, exec, run', run);
    }
    forall k | 0 <= k < |run| ensures run[k] == run'[k] {
      RunsAgree(initial, edges, limit, exec, run, run', k);
    }
    ExitIsDetermined(Judge(Last(run).items, edges, limit), first, external, exit, runFailed, turns,
                     exit', runFailed', turns', |run| - 1);
  }

  lemma ExitIsDetermined(ruling: Ruling, first: RunStatus, external: seq<RunStatus>, exit: Exit, runFailed: bool,
                         turns: nat, exit': Exit, runFailed': bool, turns': nat, passes: nat)
    requires StopsAt(ruling, first, external, exit, runFailed, passes, turns)
    requires StopsAt(ruling, first, external, exit', runFailed', passes, turns')
    requires turns <= turns'
    ensures exit == exit' && runFailed == runFailed'
    ensures StatusAt(first, external, turns) == StatusAt(first, external, turns')
    ensures StatusAt(first, external, turns + 1) == StatusAt(first, external, turns' + 1)
  {
  }

  lemma CancelNothing(items: seq<Item>)
    requires forall i <- items :: i.status != Queued
    ensures CancelQueued(items) == items
  {
  }

  lemma TurnIgnoresRequeues(t: Trace, edges: seq<Edge>, limit: int, exec: Executor)
    requires WellFormed(t.items, edges)
    ensures var r, u := Turn(t, edges, limit, exec), Turn(Trace(t.items, t.log, []), edges, limit, exec);
      r.items == u.items && r.log == u.log
  {
  }

  /** The only states in which the loop sleeps without end. */
  lemma PollingCause(items: seq<Item>, edges: seq<Edge>, limit: int)
    requires PriorityDecreases(items, edges) && NoneActive(items)
    requires NoBlockingFailure(items) && SomeQueued(items) && Runnable(items, edges, limit) == []
    ensures forall x <- Batch(items, limit) :: Blocked(items, edges, x)
    ensures exists i <- items :: i.status == Canceled || SplitView(i)
  {
    EmptySelectionIff(items, edges, limit);
    if forall i <- items :: i.status != Canceled && !SplitView(i) {
      Progress(items, edges, limit);
    }
  }
}
