/** The lease protocol. Workers hold an item by extending its lease; two sweeps put items back in
    the queue when the lease has run out or the worker is gone. One keep-alive transaction is one
    step, and so is one sweep (its query together with its compare-and-set updates). */
module Leases {
  import opened Wrappers
  import opened WorkItems

  // ---------------------------------------------------------------- lease arithmetic

  datatype ExecutorName = Codex | TestRunner | OtherExecutor

  const MIN_LEASE_SECONDS: int := 60
  const LEASE_BUFFER_SECONDS: int := 60

  function MaxInt(a: int, b: int): int { if a > b then a else b }
  function MaxReal(a: real, b: real): real { if a > b then a else b }
  function MinReal(a: real, b: real): real { if a < b then a else b }

  function LeaseSeconds(e: ExecutorName, codexTimeout: int, testTimeout: int): int {
    var timeout := match e
      case Codex => codexTimeout
      case TestRunner => testTimeout
      case OtherExecutor => 0;
    MaxInt(MIN_LEASE_SECONDS, timeout + LEASE_BUFFER_SECONDS)
  }

  function RefreshInterval(lease: int): real {
    MaxReal(5.0, MinReal(15.0, MaxInt(1, lease) as real / 3.0))
  }

  /** Four refreshes fit into one lease exactly from the minimum lease on. */
  lemma FourRefreshesPerLease(lease: int)
    ensures 4.0 * RefreshInterval(lease) <= lease as real <==> lease >= MIN_LEASE_SECONDS
  {
  }

  /** So every executor, whatever its timeout, may miss three refreshes in a row. */
  lemma EveryExecutorRefreshesInTime(e: ExecutorName, codexTimeout: int, testTimeout: int)
    ensures 4.0 * RefreshInterval(LeaseSeconds(e, codexTimeout, testTimeout))
         <= LeaseSeconds(e, codexTimeout, testTimeout) as real
  {
    FourRefreshesPerLease(LeaseSeconds(e, codexTimeout, testTimeout));
  }

  /** A lease outlasts its own executor's timeout by a minute, and is no longer than that and the minimum ask for. */
  lemma LeaseOutlastsTimeout(e: ExecutorName, codexTimeout: int, testTimeout: int)
    ensures var lease := LeaseSeconds(e, codexTimeout, testTimeout);
      && lease >= 60
      && (e.Codex? ==> lease >= codexTimeout + 60 && (lease == codexTimeout + 60 || lease == 60))
      && (e.TestRunner? ==> lease >= testTimeout + 60 && (lease == testTimeout + 60 || lease == 60))
      && (e.OtherExecutor? ==> lease == 60)
  {
  }

  /** Every executor's worker refreshes at the same pace, four times a minute. */
  lemma RefreshesEveryFifteenSeconds(e: ExecutorName, codexTimeout: int, testTimeout: int)
    ensures RefreshInterval(LeaseSeconds(e, codexTimeout, testTimeout)) == 15.0
  {
    LeaseOutlastsTimeout(e, codexTimeout, testTimeout);
  }

  /** Whatever the lease, the interval is a third of it, but between five and fifteen seconds. */
  lemma RefreshIntervalIs(lease: int)
    ensures var r := RefreshInterval(lease);
      && 5.0 <= r <= 15.0 && (5.0 < r < 15.0 ==> 3.0 * r == lease as real)
      && (r == 5.0 ==> lease <= 15) && (r == 15.0 ==> lease >= 45)
  {
  }

  // ---------------------------------------------------------------- rows

  type AgentId = nat

  datatype Row = Row(status: Status, owner: Option<AgentId>, lease: Option<real>, started: Option<real>)

  predicate Held(r: Row) {
    r.status == Claimed || r.status == Running
  }

  /** The query of the first sweep. */
  predicate Expired(r: Row, now: real) {
    Held(r) && r.lease.Some? && r.lease.value < now
  }

  /** The query of the second sweep. `agents` maps the known agents to whether they are ACTIVE. */
  predicate Orphaned(r: Row, agents: map<AgentId, bool>) {
    Held(r) && (r.owner == None || r.owner.value !in agents || !agents[r.owner.value])
  }

  const REQUEUED: Row := Row(Queued, None, None, None)

  function SweptExpired(rows: seq<Row>, now: real): (r: seq<Row>)
    ensures |r| == |rows|
    ensures forall i :: 0 <= i < |rows| ==> r[i] == if Expired(rows[i], now) then REQUEUED else rows[i]
  {
    seq(|rows|, i requires 0 <= i < |rows| => if Expired(rows[i], now) then REQUEUED else rows[i])
  }

  function SweptOrphans(rows: seq<Row>, agents: map<AgentId, bool>): (r: seq<Row>)
    ensures |r| == |rows|
    ensures forall i :: 0 <= i < |rows| ==> r[i] == if Orphaned(rows[i], agents) then REQUEUED else rows[i]
  {
    seq(|rows|, i requires 0 <= i < |rows| => if Orphaned(rows[i], agents) then REQUEUED else rows[i])
  }

  function Refreshed(r: Row, w: AgentId, known: bool, now: real, lease: real): Row {
    if known && r.owner == Some(w) && Held(r) then r.(lease := Some(now + lease)) else r
  }

  class LeaseTable {
    var rows: seq<Row>
    var agents: map<AgentId, bool>

    constructor (rows: seq<Row>, agents: map<AgentId, bool>)
      ensures this.rows == rows && this.agents == agents
    {
      this.rows, this.agents := rows, agents;
    }

    /** The compare-and-set that both sweeps go through. */
    method UpdateStatus(i: nat) returns (ok: bool)
      requires i < |rows|
      modifies `rows
      ensures ok == Held(old(rows)[i])
      ensures rows == if ok then old(rows)[i := REQUEUED] else old(rows)
      ensures ok ==> rows[i] == Row(Queued, None, None, None)
    {
      ok := Held(rows[i]);
      if ok {
        rows := rows[i := REQUEUED];
      }
    }

    method ReclaimExpired(now: real) returns (recovered: seq<nat>)
      modifies `rows
      ensures rows == SweptExpired(old(rows), now)
      ensures forall i {:trigger i in recovered} :: i in recovered <==> 0 <= i < |rows| && Expired(old(rows)[i], now)
    {
      var selected := rows;
      recovered := [];
      for i := 0 to |selected|
        invariant |rows| == |selected|
        invariant forall k :: 0 <= k < i ==> rows[k] == SweptExpired(selected, now)[k]
        invariant forall k :: i <= k < |rows| ==> rows[k] == selected[k]
        invariant forall k :: k in recovered <==> 0 <= k < i && Expired(selected[k], now)
      {
        if Expired(selected[i], now) {
          var ok := UpdateStatus(i);
          if ok {
            recovered := recovered + [i];
          }
        }
      }
    }

    method ReclaimOrphaned() returns (recovered: seq<nat>)
      modifies `rows
      ensures rows == SweptOrphans(old(rows), agents)
      ensures forall i {:trigger i in recovered} ::
                i in recovered <==> 0 <= i < |rows| && Orphaned(old(rows)[i], agents)
    {
      var selected := rows;
      recovered := [];
      for i := 0 to |selected|
        invariant |rows| == |selected|
        invariant forall k :: 0 <= k < i ==> rows[k] == SweptOrphans(selected, agents)[k]
        invariant forall k :: i <= k < |rows| ==> rows[k] == selected[k]
        invariant forall k :: k in recovered <==> 0 <= k < i && Orphaned(selected[k], agents)
      {
        if Orphaned(selected[i], agents) {
          var ok := UpdateStatus(i);
          if ok {
            recovered := recovered + [i];
          }
        }
      }
    }

    /** One turn of the keep-alive loop; `goOn` is false when the loop returns. */
    method KeepAlive(w: AgentId, i: nat, now: real, lease: real) returns (goOn: bool)
      modifies `rows
      ensures |rows| == |old(rows)|
      ensures forall k :: 0 <= k < |rows| ==>
                rows[k] == if k == i then Refreshed(old(rows)[k], w, w in agents, now, lease) else old(rows)[k]
      ensures goOn <==> i < |rows| && w in agents && old(rows)[i].owner == Some(w) && Held(old(rows)[i])
    {
      if i >= |rows| || w !in agents {
        return false;
      }
      if rows[i].owner != Some(w) || !Held(rows[i]) {
        return false;
      }
      rows := rows[i := rows[i].(lease := Some(now + lease))];
      return true;
    }
  }

  // ---------------------------------------------------------------- one state

  /** After both sweeps every held item has an active owner and no expired lease; and the sweeps
      take nothing away from an item that already was in that state. */
  lemma SweepsRestoreOwnership(rows: seq<Row>, agents: map<AgentId, bool>, now: real)
    ensures var after := SweptOrphans(SweptExpired(rows, now), agents);
      && after == SweptExpired(SweptOrphans(rows, agents), now)
      && (forall i :: 0 <= i < |after| && Held(after[i]) ==>
            && after[i].owner.Some? && after[i].owner.value in agents && agents[after[i].owner.value]
            && (after[i].lease.Some? ==> now <= after[i].lease.value))
      && (forall i :: 0 <= i < |rows| && !Expired(rows[i], now) && !Orphaned(rows[i], agents) ==> after[i] == rows[i])
  {
  }

  // ---------------------------------------------------------------- all interleavings

  datatype World = World(rows: seq<Row>, agents: map<AgentId, bool>, now: real)

  datatype Step =
    | Wait(dt: real)
    | Claim(w: AgentId, i: nat, lease: real)
    | Refresh(w: AgentId, i: nat, lease: real)
    | Finish(w: AgentId, i: nat, verdict: Status)  // the final write of a worker, displaced or not
    | SweepExpired
    | SweepOrphans
    | Retire(w: AgentId)

  function Next(s: World, step: Step): World {
    match step
    case Wait(dt) => if dt >= 0.0 then s.(now := s.now + dt) else s
    case Claim(w, i, lease) =>
      if i < |s.rows| && s.rows[i].status == Queued && w in s.agents && s.agents[w]
      then s.(rows := s.rows[i := Row(Running, Some(w), Some(s.now + lease), Some(s.now))])
      else s
    case Refresh(w, i, lease) =>
      if i < |s.rows| then s.(rows := s.rows[i := Refreshed(s.rows[i], w, w in s.agents, s.now, lease)]) else s
    case Finish(w, i, verdict) =>
      if i < |s.rows| && (verdict == Done || verdict == Skipped || verdict == Failed)
      then s.(rows := s.rows[i := s.rows[i].(status := verdict)])
      else s
    case SweepExpired => s.(rows := SweptExpired(s.rows, s.now))
    case SweepOrphans => s.(rows := SweptOrphans(s.rows, s.agents))
    case Retire(w) => if w in s.agents then s.(agents := s.agents[w := false]) else s
  }

  function Run(s: World, steps: seq<Step>): World
    decreases |steps|
  {
    if steps == [] then s else Next(Run(s, steps[..|steps| - 1]), steps[|steps| - 1])
  }

  lemma {:induction false} RunKeepsRows(s: World, steps: seq<Step>)
    ensures |Run(s, steps).rows| == |s.rows|
  {
    if steps != [] {
      RunKeepsRows(s, steps[..|steps| - 1]);
    }
  }

  /** No interleaving of sweeps, claims and refreshes revives a terminal item. */
  lemma {:induction false} TerminalForever(s: World, steps: seq<Step>, i: nat)
    requires i < |s.rows| && s.rows[i].status != Queued && !Held(s.rows[i])
    ensures |Run(s, steps).rows| == |s.rows|
    ensures Run(s, steps).rows[i].status != Queued && !Held(Run(s, steps).rows[i])
  {
    if steps != [] {
      TerminalForever(s, steps[..|steps| - 1], i);
    }
  }

  /** The step in which `w` last touched the lease of `i`. */
  predicate Grants(step: Step, w: AgentId, i: nat, at: real, until: real) {
    || (step.Claim? && step.w == w && step.i == i && until == at + step.lease)
    || (step.Refresh? && step.w == w && step.i == i && until == at + step.lease)
  }

  /** Where a lease comes from: in every run, the lease on a held item was written by its present
      owner. A displaced agent, whatever it still sends, never extends the new owner's lease. */
  lemma {:induction false} LeaseProvenance(s: World, steps: seq<Step>, i: nat, w: AgentId) returns (k: nat)
    requires i < |s.rows| && s.rows[i] == REQUEUED
    requires |Run(s, steps).rows| == |s.rows|
    requires Held(Run(s, steps).rows[i]) && Run(s, steps).rows[i].owner == Some(w)
    requires Run(s, steps).rows[i].lease.Some?
    ensures k < |steps| && Grants(steps[k], w, i, Run(s, steps[..k]).now, Run(s, steps).rows[i].lease.value)
    decreases |steps|
  {
    var front, last := steps[..|steps| - 1], steps[|steps| - 1];
    RunKeepsRows(s, front);
    var before := Run(s, front).rows[i];
    var after := Run(s, steps).rows[i];
    if Grants(last, w, i, Run(s, front).now, after.lease.value) {
      k := |front|;
    } else {
      InertStep(Run(s, front), last, i, w);
      k := LeaseProvenance(s, front, i, w);
      assert front[..k] == steps[..k];
    }
  }

  /** A step that leaves an item held by `w` without granting it a lease did not change it. */
  lemma InertStep(s: World, step: Step, i: nat, w: AgentId)
    requires i < |s.rows| && Held(Next(s, step).rows[i]) && Next(s, step).rows[i].owner == Some(w)
    requires Next(s, step).rows[i].lease.Some?
    requires !Grants(step, w, i, s.now, Next(s, step).rows[i].lease.value)
    ensures Next(s, step).rows[i] == s.rows[i]
  {
  }

  ghost predicate Holds(s: World, w: AgentId, i: nat, deadline: real) {
    && i < |s.rows|
    && Held(s.rows[i])
    && s.rows[i].owner == Some(w)
    && s.rows[i].lease == Some(deadline)
    && w in s.agents && s.agents[w]
  }

  /** The deadline of `w` on `i` after the steps, if every refresh comes before the last one ran out
      and nobody finishes the item or retires the worker; otherwise nothing. */
  function Deadline(now: real, deadline: real, steps: seq<Step>, w: AgentId, i: nat): Option<real>
    decreases |steps|
  {
    if steps == [] then Some(deadline)
    else
      match steps[0]
      case Wait(dt) =>
        if dt < 0.0 then Deadline(now, deadline, steps[1..], w, i)
        else if now + dt > deadline then None
        else Deadline(now + dt, deadline, steps[1..], w, i)
      case Refresh(v, j, lease) =>
        if lease < 0.0 then None
        else Deadline(now, if v == w && j == i then now + lease else deadline, steps[1..], w, i)
      case Finish(v, j, verdict) => if j == i then None else Deadline(now, deadline, steps[1..], w, i)
      case Retire(v) => if v == w then None else Deadline(now, deadline, steps[1..], w, i)
      case _ => Deadline(now, deadline, steps[1..], w, i)
  }

  lemma {:induction false} RunFront(s: World, steps: seq<Step>)
    requires steps != []
    ensures Run(s, steps) == Run(Next(s, steps[0]), steps[1..])
  {
    if |steps| > 1 {
      var front := steps[..|steps| - 1];
      RunFront(s, front);
      assert front[1..] == steps[1..][..|steps[1..]| - 1];
    } else {
      assert steps[..0] == [] && steps[1..] == [];
    }
  }

  /** A punctual worker is never reclaimed: whatever other agents and both sweeps do in between,
      it still holds its item, with the deadline of its last refresh. */
  lemma {:induction false} PunctualWorkerKeepsItem(s: World, steps: seq<Step>, w: AgentId, i: nat, deadline: real)
    requires Holds(s, w, i, deadline) && s.now <= deadline
    requires Deadline(s.now, deadline, steps, w, i).Some?
    ensures Holds(Run(s, steps), w, i, Deadline(s.now, deadline, steps, w, i).value)
    ensures Run(s, steps).now <= Deadline(s.now, deadline, steps, w, i).value
    decreases |steps|
  {
    if steps != [] {
      RunFront(s, steps);
      var step := steps[0];
      var until := if step.Refresh? && step.w == w && step.i == i then s.now + step.lease else deadline;
      assert Holds(Next(s, step), w, i, until);
      PunctualWorkerKeepsItem(Next(s, step), steps[1..], w, i, until);
    }
  }

  /** In these steps `w` refreshes `i` with the same lease at least every `gap` seconds, the last time `since`
      seconds ago; nobody finishes the item or retires the worker. */
  predicate Paced(since: real, steps: seq<Step>, w: AgentId, i: nat, lease: real, gap: real)
    decreases |steps|
  {
    if steps == [] then true
    else
      match steps[0]
      case Wait(dt) =>
        if dt < 0.0 then Paced(since, steps[1..], w, i, lease, gap)
        else since + dt <= gap && Paced(since + dt, steps[1..], w, i, lease, gap)
      case Refresh(v, j, more) =>
        if v == w && j == i then more == lease && Paced(0.0, steps[1..], w, i, lease, gap)
        else more >= 0.0 && Paced(since, steps[1..], w, i, lease, gap)
      case Finish(v, j, verdict) => j != i && Paced(since, steps[1..], w, i, lease, gap)
      case Retire(v) => v != w && Paced(since, steps[1..], w, i, lease, gap)
      case _ => Paced(since, steps[1..], w, i, lease, gap)
  }

  lemma {:induction false} PacedIsPunctual(now: real, since: real, steps: seq<Step>, w: AgentId, i: nat, lease: real,
                                           gap: real)
    requires Paced(since, steps, w, i, lease, gap) && gap <= lease && lease >= 0.0
    ensures Deadline(now, now - since + lease, steps, w, i).Some?
    decreases |steps|
  {
    if steps != [] {
      match steps[0]
      case Wait(dt) =>
        if dt < 0.0 {
          PacedIsPunctual(now, since, steps[1..], w, i, lease, gap);
        } else {
          PacedIsPunctual(now + dt, since + dt, steps[1..], w, i, lease, gap);
        }
      case Refresh(v, j, more) =>
        PacedIsPunctual(now, if v == w && j == i then 0.0 else since, steps[1..], w, i, lease, gap);
      case _ =>
        PacedIsPunctual(now, since, steps[1..], w, i, lease, gap);
    }
  }

  /** The intervals fit the leases in every interleaving: an executor's worker that refreshes at every interval,
      missing up to three in a row, keeps its item, whatever its timeout and whatever everybody else does. */
  lemma RefreshingWorkerKeepsItem(s: World, steps: seq<Step>, w: AgentId, i: nat, e: ExecutorName, codexTimeout: int,
                                  testTimeout: int)
    requires var lease := LeaseSeconds(e, codexTimeout, testTimeout);
      && Holds(s, w, i, s.now + lease as real)
      && Paced(0.0, steps, w, i, lease as real, 4.0 * RefreshInterval(lease))
    ensures var t := Run(s, steps);
      i < |t.rows| && Held(t.rows[i]) && t.rows[i].owner == Some(w) && !Expired(t.rows[i], t.now)
  {
    var lease := LeaseSeconds(e, codexTimeout, testTimeout);
    EveryExecutorRefreshesInTime(e, codexTimeout, testTimeout);
    PacedIsPunctual(s.now, 0.0, steps, w, i, lease as real, 4.0 * RefreshInterval(lease));
    PunctualWorkerKeepsItem(s, steps, w, i, s.now + lease as real);
  }

  /** And a late one is: the first expiry sweep after the deadline takes the item away. */
  lemma LateWorkerLosesItem(s: World, w: AgentId, i: nat, deadline: real)
    requires Holds(s, w, i, deadline)
    ensures Holds(Next(s, SweepExpired), w, i, deadline) <==> s.now <= deadline
    ensures s.now > deadline ==> Next(s, SweepExpired).rows[i] == REQUEUED
  {
  }
}
