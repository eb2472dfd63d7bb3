/** The states an execution contract shows for a run, derived from its work items: validation, retry and
    lifecycle. They are recomputed from the rows every time, with the same failure predicates as the run
    loop; this module says what they come to once the loop is done. */
module DerivedStates {
  import opened WorkItems
  import opened Runs
  import opened Orchestrator

  /** A row as the derivation sees it. `validation`: its type is one of the validation types. `recovery`:
      payload or result mark it as recovery work. `overBudget`: its result message names an exhausted run
      budget. `exhausted`: its result names exhausted retries. */
  datatype Entry = Entry(item: Item, validation: bool, recovery: bool, overBudget: bool, exhausted: bool)

  datatype Validation =
    | ValidationBlocked | NotStarted | ValidationFailed | ValidationRunning | ValidationPending
    | PassedWithWarnings | AllPassed | InProgress

  datatype Retry = BlockedBudget | Retrying | Exhausted | Recovered | RetryPending | Idle

  datatype Lifecycle = LifecycleBlocked | LifecycleRetrying | LifecycleFailed | Validating | Success | LifecycleRunning
    | LifecyclePending

  predicate Finished(i: Item) {
    i.status == Done || i.status == Skipped
  }

  /** A validation item whose failure, if any, has not been superseded. */
  predicate Live(e: Entry) {
    e.validation && !SupersededFailure(e.item)
  }

  function DeriveValidation(workspaceError: bool, es: seq<Entry>): Validation {
    if workspaceError then ValidationBlocked
    else if forall e <- es :: !Live(e) then NotStarted
    else if exists e <- es :: Live(e) && BlockingFailure(e.item) then ValidationFailed
    else if exists e <- es :: Live(e) && Active(e.item) then ValidationRunning
    else if exists e <- es :: Live(e) && e.item.status == Queued then ValidationPending
    else if exists e <- es :: Live(e) && NonBlockingFailure(e.item) then PassedWithWarnings
    else if forall e <- es :: Live(e) ==> Finished(e.item) then AllPassed
    else InProgress
  }

  function DeriveRetry(es: seq<Entry>): Retry {
    if exists e <- es :: e.recovery && e.item.status == Failed && e.overBudget then BlockedBudget
    else if exists e <- es :: e.recovery && (e.item.status == Queued || Active(e.item)) then Retrying
    else if exists e <- es :: e.exhausted then Exhausted
    else if exists e <- es :: e.recovery && Finished(e.item) then Recovered
    else if exists e <- es :: e.recovery then RetryPending
    else Idle
  }

  function DeriveLifecycle(workspaceError: bool, run: RunStatus, es: seq<Entry>, validation: Validation, retry: Retry):
    Lifecycle
  {
    if workspaceError then LifecycleBlocked
    else if retry == Retrying then LifecycleRetrying
    else if run == RunFailed || validation == ValidationFailed then LifecycleFailed
    else if validation == ValidationPending || validation == ValidationRunning || validation == InProgress
    then Validating
    else if run == RunCompleted &&
            (validation == AllPassed || validation == PassedWithWarnings || validation == NotStarted)
    then Success
    else if exists e <- es :: Active(e.item) then LifecycleRunning
    else if (exists e <- es :: e.item.status == Queued) || run == RunQueued then LifecyclePending
    else LifecycleRunning
  }

  function LifecycleOf(workspaceError: bool, run: RunStatus, es: seq<Entry>): Lifecycle {
    DeriveLifecycle(workspaceError, run, es, DeriveValidation(workspaceError, es), DeriveRetry(es))
  }

  /** A canceled validation item keeps validation in progress for good, unless some validation item
      failed in a tolerated way. */
  predicate StuckValidation(es: seq<Entry>) {
    && (exists e <- es :: Live(e) && e.item.status == Canceled)
    && !(exists e <- es :: Live(e) && NonBlockingFailure(e.item))
  }

  predicate ValidationLost(es: seq<Entry>) {
    exists e <- es :: Live(e) && BlockingFailure(e.item)
  }

  lemma ValidationWhenDone(es: seq<Entry>)
    requires forall e <- es :: Terminal(e.item)
    ensures DeriveValidation(false, es) == ValidationFailed <==> ValidationLost(es)
    ensures !ValidationLost(es) ==>
              (DeriveValidation(false, es) == InProgress <==> StuckValidation(es))
    ensures DeriveValidation(false, es) != ValidationRunning && DeriveValidation(false, es) != ValidationPending
  {
    forall e | e in es && Live(e) && !BlockingFailure(e.item) && !NonBlockingFailure(e.item)
      ensures Finished(e.item) || e.item.status == Canceled
    {
      if e.item.status == Failed {
        BlockingIff(e.item);
      }
    }
  }

  /** What a run shows once every row is terminal, whatever its history: failed by its status or by a
      validation item, stuck in validation, successful only if completed. A canceled run shows as
      running. */
  lemma FinishedRunShows(workspaceError: bool, run: RunStatus, es: seq<Entry>)
    requires forall e <- es :: Terminal(e.item)
    ensures LifecycleOf(workspaceError, run, es) ==
            if workspaceError then LifecycleBlocked
            else if run == RunFailed || ValidationLost(es) then LifecycleFailed
            else if StuckValidation(es) then Validating
            else if run == RunCompleted then Success
            else if run == RunQueued then LifecyclePending
            else LifecycleRunning
  {
    ValidationWhenDone(es);
    assert DeriveRetry(es) != Retrying;
  }

  predicate OverBudget(e: Entry) {
    e.recovery && e.item.status == Failed && e.overBudget
  }

  predicate Waiting(e: Entry) {
    e.recovery && (e.item.status == Queued || e.item.status == Claimed || e.item.status == Running)
  }

  /** When each retry state is shown: a recovery stopped by the budget comes first, then one under way, exhausted
      retries of any item, a recovery that succeeded, and one that did not. */
  lemma RetryShows(es: seq<Entry>)
    ensures var budget, waiting := exists e <- es :: OverBudget(e), exists e <- es :: Waiting(e);
      var exhausted := exists e <- es :: e.exhausted;
      var done := exists e <- es :: e.recovery && (e.item.status == Done || e.item.status == Skipped);
      && (DeriveRetry(es) == BlockedBudget <==> budget)
      && (DeriveRetry(es) == Retrying <==> waiting && !budget)
      && (DeriveRetry(es) == Exhausted <==> exhausted && !budget && !waiting)
      && (DeriveRetry(es) == Recovered <==> done && !budget && !waiting && !exhausted)
      && (DeriveRetry(es) == Idle <==> !exhausted && forall e <- es :: !e.recovery)
  {
  }

  /** Some validation item is under way or waits, or validation is stuck. */
  predicate OpenValidation(es: seq<Entry>) {
    || (exists e <- es :: Live(e) && (Active(e.item) || e.item.status == Queued))
    || StuckValidation(es)
  }

  /** When each validation state is shown. */
  lemma ValidationShows(es: seq<Entry>)
    ensures var s := DeriveValidation(false, es);
      && (s == ValidationFailed <==> ValidationLost(es))
      && (s == ValidationRunning || s == ValidationPending || s == InProgress <==>
            !ValidationLost(es) && OpenValidation(es))
      && (s == NotStarted <==> forall e <- es :: !Live(e))
      && (s == AllPassed <==>
            ((exists e <- es :: Live(e)) &&
             forall e <- es :: Live(e) ==> e.item.status == Done || e.item.status == Skipped))
  {
    forall e | e in es && Live(e) && !BlockingFailure(e.item) && !NonBlockingFailure(e.item)
      ensures Finished(e.item) || Active(e.item) || e.item.status == Queued || e.item.status == Canceled
    {
      if e.item.status == Failed {
        BlockingIff(e.item);
      }
    }
  }

  /** What a run shows while rows are active or queued and its status is neither completed nor failed: a recovery
      under way first, then a lost validation, validation that is open, rows at work, and rows that wait. */
  lemma LiveRunShows(run: RunStatus, es: seq<Entry>)
    requires run != RunCompleted && run != RunFailed
    requires exists e <- es :: Active(e.item) || e.item.status == Queued
    ensures LifecycleOf(false, run, es) ==
            if (exists e <- es :: Waiting(e)) && !(exists e <- es :: OverBudget(e)) then LifecycleRetrying
            else if ValidationLost(es) then LifecycleFailed
            else if OpenValidation(es) then Validating
            else if exists e <- es :: Active(e.item) then LifecycleRunning
            else LifecyclePending
  {
    RetryShows(es);
    ValidationShows(es);
  }

  function Rows(es: seq<Entry>): seq<Item> {
    seq(|es|, k requires 0 <= k < |es| => es[k].item)
  }

  /** The run loop and the derivation agree: when the loop has drained and written its status, the run
      shows success exactly when nothing blocks it and no canceled validation item holds it, with failures
      outside validation forgiven when runs may not fail. */
  lemma DrainedRunShows(es: seq<Entry>, runFailed: bool, neverFail: bool, seen: RunStatus)
    requires Over(Rows(es), runFailed) && !RunOver(seen)
    ensures var shown := LifecycleOf(false, FinalStatus(runFailed, neverFail, seen), es);
      && (shown == Success <==> (!runFailed || neverFail) && !ValidationLost(es) && !StuckValidation(es))
      && (shown == LifecycleFailed <==> (runFailed && !neverFail) || ValidationLost(es))
      && (shown == Success || shown == LifecycleFailed || shown == Validating)
      && (ValidationLost(es) ==> runFailed)
  {
    forall e | e in es ensures Terminal(e.item) {
      var k :| 0 <= k < |es| && es[k] == e;
      assert Rows(es)[k] == e.item;
    }
    FinishedRunShows(false, FinalStatus(runFailed, neverFail, seen), es);
    if e :| e in es && Live(e) && BlockingFailure(e.item) {
      var k :| 0 <= k < |es| && es[k] == e;
      assert Rows(es)[k] == e.item;
    }
  }

  /** A completed run without blocking failures can show as validating for ever. */
  lemma CompletedButValidating(validation: Profile) returns (es: seq<Entry>)
    ensures Over(Rows(es), false)
    ensures FinalStatus(false, false, RunRunning) == RunCompleted
    ensures LifecycleOf(false, RunCompleted, es) == Validating
  {
    var e := Entry(Item(Canceled, validation, NO_FLAGS, 0), true, false, false, false);
    es := [e];
    assert es[0] == e;
    FinishedRunShows(false, RunCompleted, es);
  }
}
