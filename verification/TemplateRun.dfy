/** Runs of the template graph, from the creation of its rows to the exit of the loop: which of them sleep for
    ever. */
module TemplateRun {
  import opened WorkItems
  import opened Scheduler
  import opened Batches
  import opened Runs
  import opened Orchestrator
  import opened Dag

  /** Rows and dependencies as the template builder creates them. */
  ghost predicate Template(nodes: seq<Stage>, items: seq<Item>, edges: seq<Edge>, surface: Surface, genesis: bool,
                           hasTask: bool)
  {
    && Ranked(nodes) && (forall s :: s in nodes <==> InTemplate(s, surface, genesis))
    && |items| == |nodes| && (forall k :: 0 <= k < |items| ==> ItemOf(items[k], nodes[k], k, hasTask))
    && PriorityDecreases(items, edges)
    && forall j, k :: 0 <= j < |nodes| && 0 <= k < |nodes| ==>
         ((j, k) in edges <==> Expected((nodes[j], nodes[k]), surface, genesis))
  }

  /** Every stage but the last has a stage that waits for it. */
  lemma ExpectedLeaves(s: Stage, surface: Surface, genesis: bool) returns (l: Link)
    requires InTemplate(s, surface, genesis) && s != ReviewIntegration
    ensures Expected(l, surface, genesis) && l.0 == s
  {
    if s == PlanDag {
      l := (s, if surface == Backend then PlanBackendTopology else FoundationValidate);
      assert LinkOf(GenerateRoute, (PlanDag, PlanBackendTopology));
    } else if s == PlanBackendTopology {
      l := (s, GenerateRoute);
      assert LinkOf(GenerateRoute, l);
    } else if s == FoundationValidate {
      l := (s, CodeFrontend);
      assert LinkOf(CodeFrontend, l);
    } else if CodeStage(s) {
      l := (s, FrameworkValidate);
      assert LinkOf(s, l);
    } else {
      l := TAIL[if s == FrameworkValidate then 0 else Rank(s) - 10];
      assert l in TAIL;
    }
  }

  lemma RowHasChild(nodes: seq<Stage>, items: seq<Item>, edges: seq<Edge>, surface: Surface, genesis: bool,
                    hasTask: bool, k: nat) returns (child: nat)
    requires Template(nodes, items, edges, surface, genesis, hasTask)
    requires k < |nodes| && nodes[k] != ReviewIntegration
    ensures child < |nodes| && (k, child) in edges
  {
    assert nodes[k] in nodes;
    var l := ExpectedLeaves(nodes[k], surface, genesis);
    ExpectedForward(l, surface, genesis);
    assert l.1 in nodes;
    child :| 0 <= child < |nodes| && nodes[child] == l.1;
  }

  /** Failed, with the budget named by the error text and by nothing else. */
  predicate TextFailure(i: Item) {
    && i.status == Failed && !i.flags.superseded && !i.flags.budgetInResult && i.flags.budgetInError
  }

  /** A row that others wait for failed with such a text, its stage leaving the blocking flag out. */
  ghost predicate BudgetTextHolds(nodes: seq<Stage>, items: seq<Item>, hasTask: bool)
    requires |items| == |nodes|
  {
    exists k :: 0 <= k < |nodes| && nodes[k] != ReviewIntegration && TextFailure(items[k]) &&
                BlockingSetting(nodes[k], hasTask) == Absent
  }

  ghost predicate Uncanceled(initial: seq<Item>, items: seq<Item>) {
    && |items| == |initial|
    && forall y :: 0 <= y < |items| ==> items[y].profile == initial[y].profile && items[y].status != Canceled
  }

  lemma RunsUncanceled(nodes: seq<Stage>, initial: seq<Item>, edges: seq<Edge>, surface: Surface, genesis: bool,
                       hasTask: bool, limit: int, exec: Executor, run: seq<Trace>)
    requires Template(nodes, initial, edges, surface, genesis, hasTask)
    requires Run(initial, edges, limit, exec, run)
    ensures Uncanceled(initial, Last(run).items)
  {
    NothingActiveYet(nodes, initial, edges, surface, genesis, hasTask);
    HistoryHolds(initial, edges, limit, exec, run, |run| - 1);
    assert forall y :: 0 <= y < |initial| ==> ItemOf(initial[y], nodes[y], y, hasTask);
  }

  lemma HeldBackByText(nodes: seq<Stage>, initial: seq<Item>, items: seq<Item>, edges: seq<Edge>, surface: Surface,
                       genesis: bool, hasTask: bool)
    requires Template(nodes, initial, edges, surface, genesis, hasTask)
    requires Uncanceled(initial, items)
    ensures HeldBack(initial, items, edges) <==> NoBlockingFailure(items) && BudgetTextHolds(nodes, items, hasTask)
  {
    if HeldBack(initial, items, edges) {
      var e :| e in edges && DeadEnd(items[e.0]) && initial[e.1].status == Queued;
      TextHolds(nodes, initial, items, edges, surface, genesis, hasTask, e);
    }
    if NoBlockingFailure(items) && BudgetTextHolds(nodes, items, hasTask) {
      var k :| 0 <= k < |nodes| && nodes[k] != ReviewIntegration && TextFailure(items[k]) &&
               BlockingSetting(nodes[k], hasTask) == Absent;
      var child := TextHoldsBack(nodes, initial, items, edges, surface, genesis, hasTask, k);
      assert (k, child).0 == k;
    }
  }

  lemma TextHoldsBack(nodes: seq<Stage>, initial: seq<Item>, items: seq<Item>, edges: seq<Edge>, surface: Surface,
                      genesis: bool, hasTask: bool, k: nat) returns (child: nat)
    requires Template(nodes, initial, edges, surface, genesis, hasTask)
    requires |items| == |initial| && k < |nodes| && items[k].profile == initial[k].profile
    requires nodes[k] != ReviewIntegration && TextFailure(items[k]) && BlockingSetting(nodes[k], hasTask) == Absent
    ensures (k, child) in edges && DeadEnd(items[k]) && child < |initial| && initial[child].status == Queued
  {
    child := RowHasChild(nodes, initial, edges, surface, genesis, hasTask, k);
    assert ItemOf(initial[child], nodes[child], child, hasTask);
    assert DeadEnd(items[k]) by {
      assert ItemOf(initial[k], nodes[k], k, hasTask);
      TemplateSplitsOnlyOnErrorText(nodes, hasTask, k, items[k]);
      DeadEndCauses(items[k]);
    }
  }

  lemma TextHolds(nodes: seq<Stage>, initial: seq<Item>, items: seq<Item>, edges: seq<Edge>, surface: Surface,
                  genesis: bool, hasTask: bool, e: Edge)
    requires Template(nodes, initial, edges, surface, genesis, hasTask)
    requires |items| == |initial| && e in edges && items[e.0].profile == initial[e.0].profile
    requires NoBlockingFailure(items) && DeadEnd(items[e.0]) && items[e.0].status != Canceled
    ensures BudgetTextHolds(nodes, items, hasTask)
  {
    assert TextFailure(items[e.0]) && BlockingSetting(nodes[e.0], hasTask) == Absent by {
      assert items[e.0] in items;
      assert ItemOf(initial[e.0], nodes[e.0], e.0, hasTask);
      DeadEndCauses(items[e.0]);
      TemplateSplitsOnlyOnErrorText(nodes, hasTask, e.0, items[e.0]);
    }
    ParentIsNotLast(nodes, initial, edges, surface, genesis, hasTask, e);
  }

  lemma ParentIsNotLast(nodes: seq<Stage>, initial: seq<Item>, edges: seq<Edge>, surface: Surface, genesis: bool,
                        hasTask: bool, e: Edge)
    requires Template(nodes, initial, edges, surface, genesis, hasTask) && e in edges
    ensures nodes[e.0] != ReviewIntegration
  {
    assert (e.0, e.1) in edges && Expected((nodes[e.0], nodes[e.1]), surface, genesis);
    ExpectedForward((nodes[e.0], nodes[e.1]), surface, genesis);
    assert Rank(nodes[e.1]) <= 15;
  }

  /** A run of the template sleeps for ever exactly if nothing failed in a blocking way and some row but the last
      stage's failed with an error text that names an exhausted budget. */
  lemma TemplateSleepsIff(nodes: seq<Stage>, initial: seq<Item>, edges: seq<Edge>, surface: Surface, genesis: bool,
                          hasTask: bool, limit: int, exec: Executor, run: seq<Trace>)
    requires Template(nodes, initial, edges, surface, genesis, hasTask)
    requires Run(initial, edges, limit, exec, run) && Last(run) in run
    requires Judge(Last(run).items, edges, limit) != Continue
    ensures var items := Last(run).items;
      Judge(items, edges, limit) == Sleep <==> NoBlockingFailure(items) && BudgetTextHolds(nodes, items, hasTask)
  {
    NothingActiveYet(nodes, initial, edges, surface, genesis, hasTask);
    SleepsIff(initial, edges, limit, exec, run);
    RunsUncanceled(nodes, initial, edges, surface, genesis, hasTask, limit, exec, run);
    HeldBackByText(nodes, initial, Last(run).items, edges, surface, genesis, hasTask);
  }

  lemma NothingActiveYet(nodes: seq<Stage>, initial: seq<Item>, edges: seq<Edge>, surface: Surface, genesis: bool,
                         hasTask: bool)
    requires Template(nodes, initial, edges, surface, genesis, hasTask)
    ensures NoneActive(initial)
  {
    forall i | i in initial ensures !Active(i) {
      var k :| 0 <= k < |initial| && initial[k] == i;
      assert ItemOf(initial[k], nodes[k], k, hasTask);
    }
  }

  /** Created and run: unless somebody ends it, such a run drains or sleeps for ever, and it sleeps exactly then. */
  method RunTemplate(surface: Surface, genesis: bool, hasTask: bool, maxAttempts: nat, limit: int, neverFail: bool,
                     exec: Executor, external: seq<RunStatus>)
    returns (nodes: seq<Stage>, loop: RunOrchestrator, exit: Exit, runFailed: bool, ghost initial: seq<Item>,
             ghost edges: seq<Edge>, ghost run: seq<Trace>, ghost turns: nat)
    ensures Template(nodes, initial, edges, surface, genesis, hasTask)
    ensures forall i <- initial :: Untouched(i, maxAttempts)
    ensures Launched(loop, initial, edges, limit, neverFail, exec, external, exit, runFailed, run, turns)
    ensures |loop.items| == |nodes|
    ensures exit != Interrupted ==>
              (exit == Polling <==> NoBlockingFailure(loop.items) && BudgetTextHolds(nodes, loop.items, hasTask))
    ensures (forall s <- external :: !RunOver(s)) ==> exit != Interrupted
  {
    var items, links;
    nodes, items, links := BuildTemplate(surface, genesis, hasTask, maxAttempts);
    initial, edges := items, links;
    loop, exit, runFailed, run, turns := Launch(items, links, limit, neverFail, exec, external);
    StatusDecides(Judge(Last(run).items, links, limit), RunRunning, external, exit, runFailed, |run| - 1, turns);
    if exit != Interrupted {
      ExitsByText(nodes, items, edges, surface, genesis, hasTask, limit, exec, run, exit, runFailed);
    }
  }

  /** The loop was started on these rows as a running run, and this is where it stopped. */
  ghost predicate Launched(loop: RunOrchestrator, initial: seq<Item>, edges: seq<Edge>, limit: int, neverFail: bool,
                           exec: Executor, external: seq<RunStatus>, exit: Exit, runFailed: bool, run: seq<Trace>,
                           turns: nat)
    reads loop
  {
    && loop.edges == edges && loop.limit == limit && loop.neverFail == neverFail
    && Run(initial, edges, limit, exec, run) && Last(run) in run
    && loop.Made(Finish(Last(run), exit))
    && StopsAt(Judge(Last(run).items, edges, limit), RunRunning, external, exit, runFailed, |run| - 1, turns)
    && loop.status == FinalWrite(RunRunning, external, turns, exit, runFailed, neverFail)
  }

  /** Starts the loop on fresh rows. */
  method Launch(items: seq<Item>, edges: seq<Edge>, limit: int, neverFail: bool, exec: Executor,
                external: seq<RunStatus>)
    returns (loop: RunOrchestrator, exit: Exit, runFailed: bool, ghost run: seq<Trace>, ghost turns: nat)
    requires PriorityDecreases(items, edges) && NoneActive(items)
    ensures Launched(loop, items, edges, limit, neverFail, exec, external, exit, runFailed, run, turns)
  {
    loop := new RunOrchestrator(items, edges, limit, neverFail, RunRunning);
    exit, runFailed, turns, run := loop.Start(exec, external);
  }

  method BuildTemplate(surface: Surface, genesis: bool, hasTask: bool, maxAttempts: nat)
    returns (nodes: seq<Stage>, items: seq<Item>, edges: seq<Edge>)
    ensures Template(nodes, items, edges, surface, genesis, hasTask) && NoneActive(items)
    ensures forall i <- items :: Untouched(i, maxAttempts)
  {
    var dependsOn;
    nodes, items, edges, dependsOn := GenerateTemplateDag(surface, genesis, hasTask, maxAttempts);
    NothingActiveYet(nodes, items, edges, surface, genesis, hasTask);
  }

  lemma ExitsByText(nodes: seq<Stage>, initial: seq<Item>, edges: seq<Edge>, surface: Surface, genesis: bool,
                    hasTask: bool, limit: int, exec: Executor, run: seq<Trace>, exit: Exit, runFailed: bool)
    requires Template(nodes, initial, edges, surface, genesis, hasTask)
    requires Run(initial, edges, limit, exec, run) && Last(run) in run && exit != Interrupted
    requires Judge(Last(run).items, edges, limit) ==
               if exit == Polling then Sleep else if runFailed then Fail else Complete
    ensures var items := Finish(Last(run), exit).items;
      exit == Polling <==> NoBlockingFailure(items) && BudgetTextHolds(nodes, items, hasTask)
  {
    TemplateSleepsIff(nodes, initial, edges, surface, genesis, hasTask, limit, exec, run);
    if exit == Drained {
      CancelKeepsFailures(Last(run).items);
      if !runFailed {
        CancelNothing(Last(run).items);
      }
    }
  }

  // ---------------------------------------------------------------- a run that sleeps for ever

  /** Every item succeeds but row `x`, which raises with a text that names an exhausted budget. Recovery finds no
      rule for that class of failure: it does not retry and writes nothing into the result. */
  function RaisesAt(x: nat): Executor {
    (call: nat, row: nat) =>
      if row == x then Raised(Flags(false, false, true), false) else Returned(Succeeded, NO_FLAGS, false)
  }

  ghost predicate OnlyTextFails(items: seq<Item>, x: nat) {
    forall y :: 0 <= y < |items| ==>
      items[y].status == Queued || (if y == x then TextFailure(items[y]) else items[y].status == Done)
  }

  lemma {:induction false} BatchOnlyTextFails(base: seq<Item>, batch: seq<nat>, n: nat, calls: nat, x: nat)
    requires n <= |batch| && InRange(base, batch) && OnlyTextFails(base, x)
    ensures OnlyTextFails(AfterBatch(base, batch, n, calls, RaisesAt(x)), x)
  {
    if n > 0 {
      BatchOnlyTextFails(base, batch, n - 1, calls, x);
    }
  }

  lemma {:induction false} RunOnlyTextFails(initial: seq<Item>, edges: seq<Edge>, limit: int, x: nat, run: seq<Trace>,
                                            k: nat)
    requires Run(initial, edges, limit, RaisesAt(x), run) && k < |run| && OnlyTextFails(initial, x)
    ensures OnlyTextFails(run[k].items, x)
  {
    if k > 0 {
      RunOnlyTextFails(initial, edges, limit, x, run, k - 1);
      assert Turned(run, k, edges, limit, RaisesAt(x));
      var t := run[k - 1];
      RunnableIsFresh(t.items, edges, limit);
      var batch := Runnable(t.items, edges, limit);
      BatchOnlyTextFails(t.items, batch, |batch|, |t.log|, x);
    }
  }

  /** The scheduler cannot make progress for ever, whatever the limit, once a stage that others wait for raises
      with such a text: no ruling of the loop ever ends the run. */
  lemma BudgetTextNeverEnds(nodes: seq<Stage>, initial: seq<Item>, edges: seq<Edge>, surface: Surface, genesis: bool,
                            hasTask: bool, limit: int, x: nat, run: seq<Trace>)
    requires Template(nodes, initial, edges, surface, genesis, hasTask)
    requires x < |nodes| && nodes[x] != ReviewIntegration && BlockingSetting(nodes[x], hasTask) == Absent
    requires Run(initial, edges, limit, RaisesAt(x), run) && Last(run) in run
    ensures var ruling := Judge(Last(run).items, edges, limit);
      ruling == Continue || (ruling == Sleep && TextFailure(Last(run).items[x]))
  {
    var items := Last(run).items;
    assert OnlyTextFails(items, x) by {
      assert forall y :: 0 <= y < |initial| ==> ItemOf(initial[y], nodes[y], y, hasTask);
      RunOnlyTextFails(initial, edges, limit, x, run, |run| - 1);
    }
    OnlyTextMeans(nodes, items, hasTask, x);
    if Judge(items, edges, limit) != Continue {
      TemplateSleepsIff(nodes, initial, edges, surface, genesis, hasTask, limit, RaisesAt(x), run);
    }
  }

  lemma OnlyTextMeans(nodes: seq<Stage>, items: seq<Item>, hasTask: bool, x: nat)
    requires |items| == |nodes| && x < |nodes| && OnlyTextFails(items, x)
    requires nodes[x] != ReviewIntegration && BlockingSetting(nodes[x], hasTask) == Absent
    ensures NoBlockingFailure(items)
    ensures BudgetTextHolds(nodes, items, hasTask) <==> TextFailure(items[x])
    ensures SomeQueued(items) || TextFailure(items[x])
  {
    assert items[x] in items;
  }

  /** End to end, for every template, every limit and every such stage. */
  method BudgetTextStarves(surface: Surface, genesis: bool, hasTask: bool, maxAttempts: nat, limit: int,
                           neverFail: bool, stage: Stage)
    returns (nodes: seq<Stage>, x: nat, loop: RunOrchestrator, exit: Exit, ghost initial: seq<Item>,
             ghost edges: seq<Edge>, ghost run: seq<Trace>, ghost turns: nat)
    requires InTemplate(stage, surface, genesis) && CodeStage(stage)
    ensures Template(nodes, initial, edges, surface, genesis, hasTask)
    ensures forall i <- initial :: Untouched(i, maxAttempts)
    ensures x < |nodes| == |loop.items| && nodes[x] == stage && TextFailure(loop.items[x])
    ensures Launched(loop, initial, edges, limit, neverFail, RaisesAt(x), [], exit, false, run, turns)
    ensures exit == Polling && loop.status == RunRunning
    ensures SomeQueued(loop.items) && NoBlockingFailure(loop.items)
  {
    var items, links, runFailed;
    nodes, items, links := BuildTemplate(surface, genesis, hasTask, maxAttempts);
    initial, edges := items, links;
    x := IndexOf(nodes, stage);
    loop, exit, runFailed, run, turns := Launch(items, links, limit, neverFail, RaisesAt(x), []);
    StatusDecides(Judge(Last(run).items, links, limit), RunRunning, [], exit, runFailed, |run| - 1, turns);
    BudgetTextNeverEnds(nodes, items, links, surface, genesis, hasTask, limit, x, run);
  }
}
