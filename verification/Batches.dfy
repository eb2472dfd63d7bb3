/** One batch of the embedded run loop. The batch is one transaction: an exception while an item runs rolls
    back everything the earlier items of the same pass wrote, and only then is that one item marked
    FAILED. */
module Batches {
  import opened WorkItems
  import opened Scheduler

  datatype Verdict = Succeeded | Rejected | Passed

  function StatusOf(v: Verdict): Status {
    match v case Succeeded => Done case Rejected => Failed case Passed => Skipped
  }

  /** What one executor call does. The flags describe the row after the error text was written and recovery
      has classified the failure; `retry` says that recovery chose to queue the item again. */
  datatype Outcome =
    | Returned(verdict: Verdict, flags: Flags, retry: bool)
    | Raised(flags: Flags, retry: bool)

  predicate Settled(i: Item) {
    i.status == Done || i.status == Skipped || i.status == Failed
  }

  /** Recovery's in-place retry, which has its own cap. */
  function Recover(i: Item, retry: bool): (r: Item)
    ensures i.status != Failed ==> r == i
    ensures r.status == Queued && i.status == Failed ==> r.attempt == i.attempt + 1 < r.profile.maxAttempts
  {
    if i.status == Failed && retry && i.attempt + 1 < i.profile.maxAttempts
    then i.(status := Queued, attempt := i.attempt + 1)
    else i
  }

  function Settle(i: Item, o: Outcome): (r: Item)
    ensures r.status == Queued || Settled(r)
    ensures r.profile == i.profile
  {
    match o
    case Returned(v, flags, retry) =>
      Recover(i.(status := StatusOf(v), flags := flags), retry)
    case Raised(flags, retry) =>
      Recover(i.(status := Failed, flags := flags), retry)
  }

  /** The rows after item `x` of a pass that started from `base` did `o`. */
  function RunOne(base: seq<Item>, rows: seq<Item>, x: nat, o: Outcome): (r: seq<Item>)
    requires |rows| == |base| && x < |base|
    ensures |r| == |base|
  {
    var kept := if o.Raised? then base else rows;
    kept[x := Settle(kept[x], o)]
  }

  type Executor = (nat, nat) -> Outcome  // (number of the call, row)

  // ---------------------------------------------------------------- one batch

  /** The rows after the first `n` items of a batch, the pass having started from `base`. */
  function AfterBatch(base: seq<Item>, batch: seq<nat>, n: nat, calls: nat, exec: Executor): (r: seq<Item>)
    requires n <= |batch| && InRange(base, batch)
    ensures |r| == |base|
  {
    if n == 0 then base
    else
      RunOne(base, AfterBatch(base, batch, n - 1, calls, exec), batch[n - 1], exec(calls + n - 1, batch[n - 1]))
  }

  /** The rows that ran in this pass and are queued again: undone by a rollback, or retried. */
  function RequeuedIn(base: seq<Item>, batch: seq<nat>, n: nat, calls: nat, exec: Executor): seq<nat>
    requires n <= |batch| && InRange(base, batch)
  {
    if n == 0 then []
    else
      RequeueOne(base, batch[..n - 1], RequeuedIn(base, batch, n - 1, calls, exec), batch[n - 1],
                 exec(calls + n - 1, batch[n - 1]))
  }

  /** Extends the requeued rows: a rollback requeues everything `ran` so far in the pass. */
  function RequeueOne(base: seq<Item>, ran: seq<nat>, requeued: seq<nat>, x: nat, o: Outcome): seq<nat>
    requires x < |base|
  {
    (if o.Raised? then ran else requeued) + if Settle(base[x], o).status == Queued then [x] else []
  }

  ghost predicate Fresh(base: seq<Item>, batch: seq<nat>) {
    && InRange(base, batch)
    && (forall k :: 0 <= k < |batch| ==> base[batch[k]].status == Queued)
    && (forall j, k :: 0 <= j < k < |batch| ==> batch[j] != batch[k])
  }

  /** A batch touches only its own rows, and leaves each of them queued or settled. */
  lemma {:induction false} BatchFrame(base: seq<Item>, batch: seq<nat>, n: nat, calls: nat, exec: Executor)
    requires n <= |batch| && Fresh(base, batch)
    ensures forall y :: 0 <= y < |base| && y !in batch[..n] ==> AfterBatch(base, batch, n, calls, exec)[y] == base[y]
    ensures forall y :: 0 <= y < |base| && y in batch[..n] ==>
              || AfterBatch(base, batch, n, calls, exec)[y].status == Queued
              || Settled(AfterBatch(base, batch, n, calls, exec)[y])
    ensures forall y :: 0 <= y < |base| ==>
              AfterBatch(base, batch, n, calls, exec)[y].profile == base[y].profile
  {
    if n > 0 {
      BatchFrame(base, batch, n - 1, calls, exec);
      assert batch[..n] == batch[..n - 1] + [batch[n - 1]];
    }
  }

  /** Dependencies hold at the very moment each item starts, not just when the batch was chosen. */
  lemma StartsReady(base: seq<Item>, edges: seq<Edge>, batch: seq<nat>, k: nat, calls: nat, exec: Executor)
    requires WellFormed(base, edges) && k < |batch| && Fresh(base, batch)
    requires Ready(base, edges, batch[k])
    ensures var rows := AfterBatch(base, batch, k, calls, exec);
      WellFormed(rows, edges) && Ready(rows, edges, batch[k]) && rows[batch[k]] == base[batch[k]]
  {
    BatchFrame(base, batch, k, calls, exec);
    var rows := AfterBatch(base, batch, k, calls, exec);
    forall e | e in edges && e.1 == batch[k] ensures Releases(rows[e.0]) {
      assert Releases(base[e.0]);
    }
  }

  // ---------------------------------------------------------------- termination measure

  /** How many more times a row can be started. */
  function Budget(i: Item): nat {
    if i.status != Queued then 0
    else if i.attempt < i.profile.maxAttempts then 1 + i.profile.maxAttempts - i.attempt
    else 1
  }

  function Weight(items: seq<Item>): nat {
    if items == [] then 0 else Budget(items[0]) + Weight(items[1..])
  }

  lemma {:induction false} WeightMonotone(a: seq<Item>, b: seq<Item>)
    requires |a| == |b| && forall k :: 0 <= k < |a| ==> Budget(a[k]) <= Budget(b[k])
    ensures Weight(a) <= Weight(b)
    ensures (exists k :: 0 <= k < |a| && Budget(a[k]) < Budget(b[k])) ==> Weight(a) < Weight(b)
  {
    if a != [] {
      WeightMonotone(a[1..], b[1..]);
      if exists k :: 0 <= k < |a| && Budget(a[k]) < Budget(b[k]) {
        var k :| 0 <= k < |a| && Budget(a[k]) < Budget(b[k]);
        if k > 0 {
          assert Budget(a[1..][k - 1]) < Budget(b[1..][k - 1]);
        }
      }
    }
  }

  lemma {:induction false} BatchBudgets(base: seq<Item>, batch: seq<nat>, n: nat, calls: nat, exec: Executor)
    requires n <= |batch| && Fresh(base, batch)
    ensures forall y :: 0 <= y < |base| ==> Budget(AfterBatch(base, batch, n, calls, exec)[y]) <= Budget(base[y])
    ensures n > 0 ==> Budget(AfterBatch(base, batch, n, calls, exec)[batch[n - 1]]) < Budget(base[batch[n - 1]])
  {
    if n > 0 {
      BatchBudgets(base, batch, n - 1, calls, exec);
      BatchFrame(base, batch, n - 1, calls, exec);
    }
  }

  /** Every non-empty batch uses up work, even when rollbacks and retries queue rows again. */
  lemma BatchMakesProgress(base: seq<Item>, batch: seq<nat>, calls: nat, exec: Executor)
    requires Fresh(base, batch) && batch != []
    ensures Weight(AfterBatch(base, batch, |batch|, calls, exec)) < Weight(base)
  {
    BatchBudgets(base, batch, |batch|, calls, exec);
    var rows := AfterBatch(base, batch, |batch|, calls, exec);
    assert Budget(rows[batch[|batch| - 1]]) < Budget(base[batch[|batch| - 1]]);
    WeightMonotone(rows, base);
  }

  // ---------------------------------------------------------------- accounting

  /** How often `y` occurs. */
  function Count(s: seq<nat>, y: nat): nat {
    if s == [] then 0 else Count(s[..|s| - 1], y) + if s[|s| - 1] == y then 1 else 0
  }

  lemma CountSnoc(s: seq<nat>, x: nat, y: nat)
    ensures Count(s + [x], y) == Count(s, y) + if x == y then 1 else 0
  {
    assert (s + [x])[..|s|] == s;
  }

  lemma {:induction false} CountConcat(a: seq<nat>, b: seq<nat>, y: nat)
    ensures Count(a + b, y) == Count(a, y) + Count(b, y)
  {
    if b == [] {
      assert a + b == a;
    } else {
      assert (a + b)[..|a + b| - 1] == a + b[..|b| - 1];
      CountConcat(a, b[..|b| - 1], y);
    }
  }

  lemma {:induction false} Occurs(s: seq<nat>, y: nat)
    ensures Count(s, y) > 0 <==> y in s
  {
    if s != [] {
      var t := s[..|s| - 1];
      assert s == t + [s[|s| - 1]];
      Occurs(t, y);
    }
  }

  lemma {:induction false} OccursOnce(s: seq<nat>, y: nat)
    ensures Count(s, y) <= 1 <==> forall j, k :: 0 <= j < |s| && 0 <= k < |s| && s[j] == s[k] == y ==> j == k
  {
    if s != [] {
      var t := s[..|s| - 1];
      assert s == t + [s[|s| - 1]];
      OccursOnce(t, y);
      Occurs(t, y);
      if s[|s| - 1] == y && y in t {
        var j :| 0 <= j < |t| && t[j] == y;
        assert s[j] == y;
      }
    }
  }

  /** 1 when row `y` was queued at the start and has since settled. */
  function SettledOnce(initial: seq<Item>, items: seq<Item>, y: nat): nat
    requires y < |initial| == |items|
  {
    if initial[y].status == Queued && Settled(items[y]) then 1 else 0
  }

  /** Calls for row `y` in a pass from `base` to `rows`: each is either requeued or settles the row. */
  predicate Accounted(initial: seq<Item>, base: seq<Item>, rows: seq<Item>, ran: seq<nat>, requeued: seq<nat>, y: nat)
    requires y < |initial| == |base| == |rows|
  {
    SettledOnce(initial, base, y) + Count(ran, y) == Count(requeued, y) + SettledOnce(initial, rows, y)
  }

  /** The executor calls a batch makes for a row are either requeued or settle it, exactly once. */
  lemma {:induction false} BatchAccounting(initial: seq<Item>, base: seq<Item>, batch: seq<nat>, n: nat, calls: nat,
                                           exec: Executor, y: nat)
    requires y < |initial| == |base| && n <= |batch| && Fresh(base, batch)
    requires forall k :: 0 <= k < |base| && base[k].status == Queued ==> initial[k].status == Queued
    ensures Accounted(initial, base, AfterBatch(base, batch, n, calls, exec), batch[..n],
                      RequeuedIn(base, batch, n, calls, exec), y)
  {
    if n > 0 {
      BatchAccounting(initial, base, batch, n - 1, calls, exec, y);
      assert AfterBatch(base, batch, n - 1, calls, exec)[batch[n - 1]] == base[batch[n - 1]] by {
        BatchFrame(base, batch, n - 1, calls, exec);
      }
      BatchStep(initial, base, batch, n, calls, exec, y);
    }
  }

  lemma BatchStep(initial: seq<Item>, base: seq<Item>, batch: seq<nat>, n: nat, calls: nat, exec: Executor, y: nat)
    requires y < |initial| == |base| && 0 < n <= |batch| && InRange(base, batch)
    requires base[batch[n - 1]].status == initial[batch[n - 1]].status == Queued
    requires AfterBatch(base, batch, n - 1, calls, exec)[batch[n - 1]] == base[batch[n - 1]]
    requires Accounted(initial, base, AfterBatch(base, batch, n - 1, calls, exec), batch[..n - 1],
                       RequeuedIn(base, batch, n - 1, calls, exec), y)
    ensures Accounted(initial, base, AfterBatch(base, batch, n, calls, exec), batch[..n],
                      RequeuedIn(base, batch, n, calls, exec), y)
  {
    var ran, x := batch[..n - 1], batch[n - 1];
    StepAccounting(initial, base, AfterBatch(base, batch, n - 1, calls, exec), ran,
                   RequeuedIn(base, batch, n - 1, calls, exec), x, exec(calls + n - 1, x), y);
    assert batch[..n] == ran + [x];
  }

  lemma StepAccounting(initial: seq<Item>, base: seq<Item>, rows: seq<Item>, ran: seq<nat>, requeued: seq<nat>,
                       x: nat, o: Outcome, y: nat)
    requires y < |initial| == |base| == |rows| && x < |base|
    requires base[x].status == Queued && rows[x] == base[x] && initial[x].status == Queued
    requires Accounted(initial, base, rows, ran, requeued, y)
    ensures Accounted(initial, base, RunOne(base, rows, x, o), ran + [x], RequeueOne(base, ran, requeued, x, o), y)
  {
    SettledAfter(initial, base, rows, x, o, y);
    CountSnoc(ran, x, y);
    RequeuedAfter(base, ran, requeued, x, o, y);
    if y == x {
      assert SettledOnce(initial, base, y) == SettledOnce(initial, rows, y) == 0;
    }
  }

  lemma RequeuedAfter(base: seq<Item>, ran: seq<nat>, requeued: seq<nat>, x: nat, o: Outcome, y: nat)
    requires x < |base|
    ensures Count(RequeueOne(base, ran, requeued, x, o), y) ==
            Count(if o.Raised? then ran else requeued, y)
            + if x == y && Settle(base[x], o).status == Queued then 1 else 0
  {
    var kept := if o.Raised? then ran else requeued;
    CountSnoc(kept, x, y);
    assert kept + [] == kept;
  }

  /** The row that ran settles unless it is queued again; the others are as they were, or as they were
      before the pass if it was rolled back. */
  lemma SettledAfter(initial: seq<Item>, base: seq<Item>, rows: seq<Item>, x: nat, o: Outcome, y: nat)
    requires y < |initial| == |base| == |rows| && x < |base|
    requires rows[x] == base[x] && initial[x].status == Queued
    ensures SettledOnce(initial, RunOne(base, rows, x, o), y) ==
            if y == x then (if Settle(base[x], o).status == Queued then 0 else 1)
            else SettledOnce(initial, if o.Raised? then base else rows, y)
  {
  }

  /** A pass runs nothing twice exactly when no item after the first raises and none is retried:
      a raise at a later position sends all the earlier items of the batch back to the queue. */
  lemma {:induction false} NothingRequeuedIff(base: seq<Item>, batch: seq<nat>, n: nat, calls: nat, exec: Executor)
    requires n <= |batch| && InRange(base, batch)
    ensures RequeuedIn(base, batch, n, calls, exec) == []
       <==> forall k :: 0 <= k < n ==>
              && (exec(calls + k, batch[k]).Raised? ==> k == 0)
              && Settle(base[batch[k]], exec(calls + k, batch[k])).status != Queued
  {
    if n > 0 {
      NothingRequeuedIff(base, batch, n - 1, calls, exec);
      assert |batch[..n - 1]| == n - 1;
      var k := n - 1;
      assert calls + k == calls + n - 1;
    }
  }

  /** The call at position `j` of a batch came to nothing: it requeued its row, or a later one raised. */
  ghost predicate UndoneIn(base: seq<Item>, batch: seq<nat>, n: nat, calls: nat, exec: Executor, j: nat)
    requires j < n <= |batch| && InRange(base, batch)
  {
    || Settle(base[batch[j]], exec(calls + j, batch[j])).status == Queued
    || exists m :: j < m < n && exec(calls + m, batch[m]).Raised?
  }

  /** The requeued rows are those of the calls that came to nothing. */
  lemma {:induction false} RequeuedAreUndone(base: seq<Item>, batch: seq<nat>, n: nat, calls: nat, exec: Executor,
                                             y: nat)
    requires n <= |batch| && InRange(base, batch)
    ensures y in RequeuedIn(base, batch, n, calls, exec)
       <==> exists j :: 0 <= j < n && batch[j] == y && UndoneIn(base, batch, n, calls, exec, j)
  {
    if n > 0 {
      RequeuedAreUndone(base, batch, n - 1, calls, exec, y);
      forall j | 0 <= j < n - 1
        ensures UndoneIn(base, batch, n, calls, exec, j) <==>
                UndoneIn(base, batch, n - 1, calls, exec, j) || exec(calls + n - 1, batch[n - 1]).Raised?
      {
        UndoneByNext(base, batch, n, calls, exec, j);
      }
    }
  }

  lemma UndoneByNext(base: seq<Item>, batch: seq<nat>, n: nat, calls: nat, exec: Executor, j: nat)
    requires j + 1 < n <= |batch| && InRange(base, batch)
    ensures UndoneIn(base, batch, n, calls, exec, j) <==>
            UndoneIn(base, batch, n - 1, calls, exec, j) || exec(calls + n - 1, batch[n - 1]).Raised?
  {
    if exec(calls + n - 1, batch[n - 1]).Raised? {
      assert exec(calls + (n - 1), batch[n - 1]).Raised?;
    }
  }

  /** An item that was done and is queued again, because the next one of its batch raised. */
  lemma RollbackRepeats(p: Profile) returns (base: seq<Item>, exec: Executor)
    ensures Fresh(base, [0, 1])
    ensures AfterBatch(base, [0, 1], 1, 0, exec)[0].status == Done
    ensures AfterBatch(base, [0, 1], 2, 0, exec)[0] == base[0] && 0 in RequeuedIn(base, [0, 1], 2, 0, exec)
  {
    var item := Item(Queued, p, NO_FLAGS, 0);
    base := [item, item];
    exec := (call: nat, row: nat) =>
      if call == 0 then Returned(Succeeded, NO_FLAGS, false) else Raised(NO_FLAGS, false);
    var batch: seq<nat> := [0, 1];
    assert batch[..1] == [0];
    assert AfterBatch(base, batch, 0, 0, exec) == base;
    var first := AfterBatch(base, batch, 1, 0, exec);
    assert batch[0] == 0 && exec(0 + 1 - 1, batch[0]) == exec(0, 0);
    assert first == RunOne(base, base, 0, exec(0, 0));
    assert AfterBatch(base, batch, 2, 0, exec) == RunOne(base, first, 1, exec(1, 1));
  }
}
