/** How often one `execute` may call the model: the attempt loop, the repair loop behind its one-shot
    flags, and the parse retries inside every repair. What the model answers and what the checks find is
    arbitrary; a `World` holds an answer for every point at which the code asks. */
module ExecuteLoop {

  const STRUCTURED_OUTPUT_RETRY_LIMIT := 1
  const REPAIR_STRUCTURED_OUTPUT_RETRY_LIMIT := 2

  // ---------------------------------------------------------------- the attempt loop

  /** What one attempt comes to. `RaisesFirst` is an exception before the call, `Raises` one after it
      that no handler takes. */
  datatype Attempt = GoodPlan | BudgetBlocked | ParseFailure | Transient | Fatal | RaisesFirst | Raises

  datatype Stop =
    | BudgetExhausted
    | OutputContractInvalid
    | ModelCallFailed
    | PlanMissing
    | LowConfidence
    | ConfirmationRequired
    | GuardViolation
    | ActionError
    | Raised

  datatype Attempted = Planned(calls: nat) | Halted(stop: Stop, calls: nat)

  function OneMore(a: Attempted): Attempted {
    a.(calls := a.calls + 1)
  }

  function MaxAttempts(maxRetries: int): int {
    maxRetries + STRUCTURED_OUTPUT_RETRY_LIMIT + 1
  }

  /** The loop from attempt `k` on, after so many parse and model retries. */
  function Attempts(answers: nat -> Attempt, maxRetries: int, k: nat, parse: nat, model: nat): Attempted
    decreases MaxAttempts(maxRetries) - k
  {
    if k >= MaxAttempts(maxRetries) then Halted(PlanMissing, 0)
    else
      match answers(k)
      case GoodPlan => Planned(1)
      case BudgetBlocked => Halted(BudgetExhausted, 1)
      case ParseFailure =>
        if parse < STRUCTURED_OUTPUT_RETRY_LIMIT then OneMore(Attempts(answers, maxRetries, k + 1, parse + 1, model))
        else Halted(OutputContractInvalid, 1)
      case Transient =>
        if model < maxRetries then OneMore(Attempts(answers, maxRetries, k + 1, parse, model + 1))
        else Halted(ModelCallFailed, 1)
      case Fatal => Halted(ModelCallFailed, 1)
      case RaisesFirst => Halted(Raised, 0)
      case Raises => Halted(Raised, 1)
  }

  method RunAttempts(answers: nat -> Attempt, maxRetries: int) returns (r: Attempted)
    ensures r == Attempts(answers, maxRetries, 0, 0, 0)
  {
    var calls, parseRetryCount, modelRetryCount: nat := 0, 0, 0;
    var attempt: nat := 0;
    while attempt < MaxAttempts(maxRetries)
      invariant Plus(calls, Attempts(answers, maxRetries, attempt, parseRetryCount, modelRetryCount)) ==
                Attempts(answers, maxRetries, 0, 0, 0)
      decreases MaxAttempts(maxRetries) - attempt
    {
      var answer := answers(attempt);
      if answer == RaisesFirst {
        return Halted(Raised, calls);
      }
      calls := calls + 1;
      if answer == GoodPlan {
        return Planned(calls);
      }
      if answer == BudgetBlocked {
        return Halted(BudgetExhausted, calls);
      }
      if answer == Raises {
        return Halted(Raised, calls);
      }
      var parseFailure := answer == ParseFailure;
      if parseFailure && parseRetryCount < STRUCTURED_OUTPUT_RETRY_LIMIT {
        parseRetryCount := parseRetryCount + 1;
        attempt := attempt + 1;
        continue;
      }
      if !parseFailure && modelRetryCount < maxRetries && answer == Transient {
        modelRetryCount := modelRetryCount + 1;
        attempt := attempt + 1;
        continue;
      }
      return Halted(if parseFailure then OutputContractInvalid else ModelCallFailed, calls);
    }
    return Halted(PlanMissing, calls);
  }

  function Plus(n: nat, a: Attempted): Attempted {
    a.(calls := a.calls + n)
  }

  function Count(answers: nat -> Attempt, what: Attempt, k: nat): nat {
    if k == 0 then 0 else (if answers(k - 1) == what then 1 else 0) + Count(answers, what, k - 1)
  }

  /** The first `k` attempts all fail in a way the loop retries. */
  predicate AllRetried(answers: nat -> Attempt, maxRetries: int, k: nat) {
    && Count(answers, ParseFailure, k) + Count(answers, Transient, k) == k
    && Count(answers, ParseFailure, k) <= STRUCTURED_OUTPUT_RETRY_LIMIT
    && Count(answers, Transient, k) <= maxRetries
  }

  lemma {:induction false} CountsFit(answers: nat -> Attempt, k: nat)
    ensures Count(answers, ParseFailure, k) + Count(answers, Transient, k) <= k
  {
    if k > 0 {
      CountsFit(answers, k - 1);
    }
  }

  lemma {:induction false} RetriedPrefix(answers: nat -> Attempt, maxRetries: int, j: nat, k: nat)
    requires j <= k && AllRetried(answers, maxRetries, k)
    ensures AllRetried(answers, maxRetries, j)
    decreases k
  {
    if j < k {
      CountsFit(answers, k - 1);
      RetriedPrefix(answers, maxRetries, j, k - 1);
    }
  }

  /** The loop's state after `k` retried attempts, in terms of the answers alone. */
  lemma {:induction false} StateAfter(answers: nat -> Attempt, maxRetries: int, k: nat)
    requires maxRetries >= 0 && AllRetried(answers, maxRetries, k)
    ensures k < MaxAttempts(maxRetries)
    ensures Attempts(answers, maxRetries, 0, 0, 0) ==
            Plus(k, Attempts(answers, maxRetries, k, Count(answers, ParseFailure, k), Count(answers, Transient, k)))
  {
    if k > 0 {
      CountsFit(answers, k - 1);
      assert AllRetried(answers, maxRetries, k - 1) by {
        RetriedPrefix(answers, maxRetries, k - 1, k);
      }
      StateAfter(answers, maxRetries, k - 1);
    }
  }

  /** A plan comes out exactly when some attempt yields one after failures that were all retried: at most
      one of them a parse failure, at most `maxRetries` of them transient. */
  lemma PlannedIff(answers: nat -> Attempt, maxRetries: int, n: nat)
    requires maxRetries >= 0
    ensures Attempts(answers, maxRetries, 0, 0, 0) == Planned(n) <==>
            n > 0 && answers(n - 1) == GoodPlan && AllRetried(answers, maxRetries, n - 1)
  {
    if n > 0 && answers(n - 1) == GoodPlan && AllRetried(answers, maxRetries, n - 1) {
      StateAfter(answers, maxRetries, n - 1);
    }
    if Attempts(answers, maxRetries, 0, 0, 0) == Planned(n) {
      PlanComesFrom(answers, maxRetries, 0, n);
    }
  }

  lemma {:induction false} PlanComesFrom(answers: nat -> Attempt, maxRetries: int, k: nat, n: nat)
    requires maxRetries >= 0 && AllRetried(answers, maxRetries, k) && k < MaxAttempts(maxRetries)
    requires Attempts(answers, maxRetries, k, Count(answers, ParseFailure, k), Count(answers, Transient, k)) ==
             Planned(n)
    ensures n > 0 && answers(k + n - 1) == GoodPlan && AllRetried(answers, maxRetries, k + n - 1)
    decreases MaxAttempts(maxRetries) - k
  {
    if answers(k) != GoodPlan {
      assert AllRetried(answers, maxRetries, k + 1);
      PlanComesFrom(answers, maxRetries, k + 1, n - 1);
    }
  }

  lemma {:induction false} AttemptBound(answers: nat -> Attempt, maxRetries: int, k: nat, parse: nat, model: nat)
    requires k == parse + model && parse <= STRUCTURED_OUTPUT_RETRY_LIMIT && model <= maxRetries
    ensures var r := Attempts(answers, maxRetries, k, parse, model);
      r.calls <= MaxAttempts(maxRetries) - k && (r.Halted? ==> r.stop != PlanMissing)
    decreases MaxAttempts(maxRetries) - k
  {
    if answers(k) == ParseFailure && parse < STRUCTURED_OUTPUT_RETRY_LIMIT {
      AttemptBound(answers, maxRetries, k + 1, parse + 1, model);
    } else if answers(k) == Transient && model < maxRetries {
      AttemptBound(answers, maxRetries, k + 1, parse, model + 1);
    }
  }

  /** The missing-plan exit is reached exactly for a negative retry limit: below minus one always, at
      minus one when the only attempt fails to parse. */
  lemma PlanMissingIff(answers: nat -> Attempt, maxRetries: int)
    ensures var r := Attempts(answers, maxRetries, 0, 0, 0);
      r.Halted? && r.stop == PlanMissing <==> maxRetries <= -2 || (maxRetries == -1 && answers(0) == ParseFailure)
  {
    if maxRetries >= 0 {
      AttemptBound(answers, maxRetries, 0, 0, 0);
    }
  }

  // ---------------------------------------------------------------- one repair

  /** What one repair call comes to: a plan, output that fails to parse or validate, output that breaks
      the parser otherwise, or a failed call; the flag says whether its message reads like the repair's
      own complaint about invalid output. */
  datatype Reply = NewPlan | Malformed | Broken | CallError(complains: bool)

  datatype Repaired = Repaired(ok: bool, invalid: bool, calls: nat)

  function Repair(replies: nat -> Reply, limit: nat, retry: nat): Repaired
    requires retry <= limit
    decreases limit - retry
  {
    match replies(retry)
    case NewPlan => Repaired(true, false, 1)
    case Malformed =>
      if retry < limit then
        var r := Repair(replies, limit, retry + 1);
        r.(calls := r.calls + 1)
      else Repaired(false, true, 1)
    case Broken => Repaired(false, true, 1)
    case CallError(complains) => Repaired(false, complains, 1)
  }

  method RepairPlan(replies: nat -> Reply, limit: nat) returns (r: Repaired)
    ensures r == Repair(replies, limit, 0)
  {
    var calls := 0;
    for retryCount := 0 to limit + 1
      invariant retryCount <= limit ==>
                  Repair(replies, limit, 0) ==
                  (var rest := Repair(replies, limit, retryCount); rest.(calls := rest.calls + calls))
      invariant retryCount <= limit
    {
      calls := calls + 1;
      match replies(retryCount) {
        case NewPlan => return Repaired(true, false, calls);
        case Malformed =>
          if retryCount == limit {
            return Repaired(false, true, calls);
          }
        case Broken => return Repaired(false, true, calls);
        case CallError(complains) => return Repaired(false, complains, calls);
      }
    }
  }

  lemma {:induction false} RepairBound(replies: nat -> Reply, limit: nat, retry: nat)
    requires retry <= limit
    ensures 1 <= Repair(replies, limit, retry).calls <= limit + 1 - retry
    decreases limit - retry
  {
    if replies(retry) == Malformed && retry < limit {
      RepairBound(replies, limit, retry + 1);
    }
  }

  // ---------------------------------------------------------------- the repair loop

  /** After a successful repair: on with the loop, stopped by the budget, or an exception. */
  datatype Aftermath = Goes | Blocked | Escapes

  /** What the checks of one round find. */
  datatype Round = Round(
    raises: bool,
    projectRepairable: bool,
    confirmation: bool,
    guardOk: bool,
    stageRepairable: bool,
    applies: bool,
    patchRepairable: bool,
    recoversAlone: bool,
    payloadIsDict: bool,
    drifts: bool)

  datatype World = World(
    attempts: nat -> Attempt,
    lowConfidence: bool,
    rounds: nat -> Round,
    project: nat -> Reply,
    afterProject: Aftermath,
    stage: nat -> Reply,
    afterStage: Aftermath,
    patch: nat -> Reply,
    afterPatch: Aftermath,
    forced: nat -> Reply,
    afterForced: Aftermath)

  /** The one-shot flags. */
  datatype Flags = Flags(project: bool, stage: bool, patch: bool, forced: bool)

  const NONE_USED := Flags(false, false, false, false)

  /** Calls made so far, by the place that made them. */
  datatype Calls = Calls(attempts: nat, project: nat, stage: nat, patch: nat, rounds: nat)

  function Total(c: Calls): nat {
    c.attempts + c.project + c.stage + c.patch
  }

  datatype Step = Again(flags: Flags, calls: Calls) | Done(calls: Calls) | Failed(stop: Stop, calls: Calls)

  function Settle(after: Aftermath, flags: Flags, c: Calls): Step {
    match after
    case Goes => Again(flags, c)
    case Blocked => Failed(BudgetExhausted, c)
    case Escapes => Failed(Raised, c)
  }

  function PatchLimit(r: Round): nat {
    REPAIR_STRUCTURED_OUTPUT_RETRY_LIMIT + if r.drifts then 1 else 0
  }

  /** The handler for an action that raised. */
  function PatchStep(w: World, r: Round, f: Flags, c: Calls): Step {
    if f.patch || !r.patchRepairable then Failed(ActionError, c)
    else
      var f := f.(patch := true);
      if r.recoversAlone then Again(f, c)
      else
        var p := Repair(w.patch, PatchLimit(r), 0);
        var c := c.(patch := c.patch + p.calls);
        if p.ok then Settle(w.afterPatch, f, c)
        else if !p.invalid || !r.payloadIsDict || f.forced then Failed(ActionError, c)
        else
          var q := Repair(w.forced, PatchLimit(r), 0);
          var c := c.(patch := c.patch + q.calls);
          var f := f.(forced := true);
          if q.ok then Settle(w.afterForced, f, c) else Failed(ActionError, c)
  }

  /** A round past the project contract check. */
  function GuardStep(w: World, r: Round, f: Flags, c: Calls): Step {
    if r.confirmation then Failed(ConfirmationRequired, c)
    else if !r.guardOk then
      if f.stage || !r.stageRepairable then Failed(GuardViolation, c)
      else
        var s := Repair(w.stage, REPAIR_STRUCTURED_OUTPUT_RETRY_LIMIT, 0);
        var c := c.(stage := c.stage + s.calls);
        if s.ok then Settle(w.afterStage, f.(stage := true), c) else Failed(GuardViolation, c)
    else if r.applies then Done(c)
    else PatchStep(w, r, f, c)
  }

  function RoundStep(w: World, f: Flags, c: Calls): Step {
    var r := w.rounds(c.rounds);
    var c := c.(rounds := c.rounds + 1);
    if r.raises then Failed(Raised, c)
    else if r.projectRepairable && !f.project then
      var p := Repair(w.project, REPAIR_STRUCTURED_OUTPUT_RETRY_LIMIT, 0);
      var c := c.(project := c.project + p.calls);
      var f := f.(project := true);
      if p.ok then Settle(w.afterProject, f, c) else GuardStep(w, r, f, c)
    else GuardStep(w, r, f, c)
  }

  function Unused(f: Flags): nat {
    (if f.project then 0 else 1) + (if f.stage then 0 else 1) + (if f.patch then 0 else 1)
  }

  /** Every round that goes on has used up a flag. */
  lemma AgainUsesFlag(w: World, f: Flags, c: Calls)
    ensures var s := RoundStep(w, f, c); s.Again? ==> Unused(s.flags) < Unused(f)
  {
  }

  function Rounds(w: World, f: Flags, c: Calls): (s: Step)
    ensures !s.Again?
    decreases Unused(f)
  {
    AgainUsesFlag(w, f, c);
    var s := RoundStep(w, f, c);
    if s.Again? then Rounds(w, s.flags, s.calls) else s
  }

  function Execute(w: World, maxRetries: int): Step {
    var a := Attempts(w.attempts, maxRetries, 0, 0, 0);
    var c := Calls(a.calls, 0, 0, 0, 0);
    if a.Halted? then Failed(a.stop, c)
    else if w.lowConfidence then Failed(LowConfidence, c)
    else Rounds(w, NONE_USED, c)
  }

  method RunExecute(w: World, maxRetries: int) returns (s: Step)
    ensures s == Execute(w, maxRetries)
  {
    var a := RunAttempts(w.attempts, maxRetries);
    var calls := Calls(a.calls, 0, 0, 0, 0);
    if a.Halted? {
      return Failed(a.stop, calls);
    }
    if w.lowConfidence {
      return Failed(LowConfidence, calls);
    }
    var flags := NONE_USED;
    while true
      invariant Rounds(w, flags, calls) == Execute(w, maxRetries)
      decreases Unused(flags)
    {
      AgainUsesFlag(w, flags, calls);
      s := RunRound(w, flags, calls);
      if s.Again? {
        flags, calls := s.flags, s.calls;
        continue;
      }
      return;
    }
  }

  method RunRound(w: World, flags: Flags, calls: Calls) returns (s: Step)
    ensures s == RoundStep(w, flags, calls)
  {
    var r := w.rounds(calls.rounds);
    var f, c := flags, calls.(rounds := calls.rounds + 1);
    if r.raises {
      return Failed(Raised, c);
    }
    if r.projectRepairable && !f.project {
      f := f.(project := true);
      var p := RepairPlan(w.project, REPAIR_STRUCTURED_OUTPUT_RETRY_LIMIT);
      c := c.(project := c.project + p.calls);
      if p.ok {
        return Settle(w.afterProject, f, c);
      }
    }
    if r.confirmation {
      return Failed(ConfirmationRequired, c);
    }
    if !r.guardOk {
      if !f.stage && r.stageRepairable {
        f := f.(stage := true);
        var p := RepairPlan(w.stage, REPAIR_STRUCTURED_OUTPUT_RETRY_LIMIT);
        c := c.(stage := c.stage + p.calls);
        if p.ok {
          return Settle(w.afterStage, f, c);
        }
      }
      return Failed(GuardViolation, c);
    }
    if r.applies {
      return Done(c);
    }
    s := RunPatchRepair(w, r, f, c);
  }

  method RunPatchRepair(w: World, r: Round, flags: Flags, calls: Calls) returns (s: Step)
    ensures s == PatchStep(w, r, flags, calls)
  {
    var f, c := flags, calls;
    if !f.patch && r.patchRepairable {
      f := f.(patch := true);
      if r.recoversAlone {
        return Again(f, c);
      }
      var p := RepairPlan(w.patch, PatchLimit(r));
      c := c.(patch := c.patch + p.calls);
      if p.ok {
        return Settle(w.afterPatch, f, c);
      }
      if p.invalid && r.payloadIsDict && !f.forced {
        f := f.(forced := true);
        p := RepairPlan(w.forced, PatchLimit(r));
        c := c.(patch := c.patch + p.calls);
        if p.ok {
          return Settle(w.afterForced, f, c);
        }
      }
    }
    return Failed(ActionError, c);
  }

  // ---------------------------------------------------------------- bounds

  /** What the flags still allow. */
  predicate Within(f: Flags, before: Calls, after: Calls) {
    && after.attempts == before.attempts
    && after.rounds <= before.rounds + Unused(f) + 1
    && before.project <= after.project <= before.project + (if f.project then 0 else 3)
    && before.stage <= after.stage <= before.stage + (if f.stage then 0 else 3)
    && before.patch <= after.patch <= before.patch + (if f.patch then 0 else 8)
  }

  lemma PatchWithin(w: World, r: Round, f: Flags, c: Calls)
    ensures var s := PatchStep(w, r, f, c);
      && s.calls == c.(patch := s.calls.patch)
      && c.patch <= s.calls.patch <= c.patch + (if f.patch then 0 else 8)
      && (s.Again? ==> !f.patch && s.flags.patch && s.flags == f.(patch := true, forced := s.flags.forced))
  {
    RepairBound(w.patch, PatchLimit(r), 0);
    RepairBound(w.forced, PatchLimit(r), 0);
  }

  lemma GuardWithin(w: World, r: Round, f: Flags, c: Calls)
    ensures var s := GuardStep(w, r, f, c);
      && s.calls == c.(stage := s.calls.stage, patch := s.calls.patch)
      && c.stage <= s.calls.stage <= c.stage + (if f.stage then 0 else 3)
      && c.patch <= s.calls.patch <= c.patch + (if f.patch then 0 else 8)
      && (s.Again? ==>
            && s.flags == f.(stage := s.flags.stage, patch := s.flags.patch, forced := s.flags.forced)
            && (f.stage ==> s.flags.stage) && (f.patch ==> s.flags.patch)
            && (s.calls.stage > c.stage ==> s.flags.stage) && (s.calls.patch > c.patch ==> s.flags.patch))
  {
    RepairBound(w.stage, REPAIR_STRUCTURED_OUTPUT_RETRY_LIMIT, 0);
    PatchWithin(w, r, f, c);
  }

  predicate StepWithin(s: Step, f: Flags, c: Calls) {
    && s.calls.attempts == c.attempts && s.calls.rounds == c.rounds
    && c.project <= s.calls.project <= c.project + (if f.project then 0 else 3)
    && c.stage <= s.calls.stage <= c.stage + (if f.stage then 0 else 3)
    && c.patch <= s.calls.patch <= c.patch + (if f.patch then 0 else 8)
    && (s.Again? ==>
          && (f.project || s.calls.project > c.project ==> s.flags.project)
          && (f.stage || s.calls.stage > c.stage ==> s.flags.stage)
          && (f.patch || s.calls.patch > c.patch ==> s.flags.patch))
  }

  lemma GuardStepWithin(w: World, r: Round, f: Flags, c: Calls)
    ensures StepWithin(GuardStep(w, r, f, c), f, c)
    ensures GuardStep(w, r, f, c).calls.project == c.project
    ensures GuardStep(w, r, f, c).Again? ==> GuardStep(w, r, f, c).flags.project == f.project
  {
    GuardWithin(w, r, f, c);
  }

  /** A round whose project repair failed goes on with the flag set and the calls counted. */
  lemma AfterProjectRepair(s: Step, f: Flags, c: Calls, spent: nat)
    requires !f.project && spent <= 3
    requires StepWithin(s, f.(project := true), c.(project := c.project + spent))
    requires s.calls.project == c.project + spent
    ensures StepWithin(s, f, c)
  {
  }

  lemma ProjectRepairWithin(w: World, r: Round, f: Flags, c: Calls)
    requires !f.project
    ensures var p := Repair(w.project, REPAIR_STRUCTURED_OUTPUT_RETRY_LIMIT, 0);
      var f2, c2 := f.(project := true), c.(project := c.project + p.calls);
      StepWithin(if p.ok then Settle(w.afterProject, f2, c2) else GuardStep(w, r, f2, c2), f, c)
  {
    var p := Repair(w.project, REPAIR_STRUCTURED_OUTPUT_RETRY_LIMIT, 0);
    RepairBound(w.project, REPAIR_STRUCTURED_OUTPUT_RETRY_LIMIT, 0);
    var f2, c2 := f.(project := true), c.(project := c.project + p.calls);
    if !p.ok {
      GuardStepWithin(w, r, f2, c2);
      AfterProjectRepair(GuardStep(w, r, f2, c2), f, c, p.calls);
    }
  }

  lemma RaisingRoundWithin(w: World, f: Flags, c: Calls)
    requires w.rounds(c.rounds).raises
    ensures StepWithin(RoundStep(w, f, c), f, c.(rounds := c.rounds + 1))
  {
  }

  lemma RepairingRoundWithin(w: World, f: Flags, c: Calls)
    requires var r := w.rounds(c.rounds); !r.raises && r.projectRepairable && !f.project
    ensures StepWithin(RoundStep(w, f, c), f, c.(rounds := c.rounds + 1))
  {
    ProjectRepairWithin(w, w.rounds(c.rounds), f, c.(rounds := c.rounds + 1));
  }

  lemma GuardedRoundWithin(w: World, f: Flags, c: Calls)
    requires var r := w.rounds(c.rounds); !r.raises && !(r.projectRepairable && !f.project)
    ensures StepWithin(RoundStep(w, f, c), f, c.(rounds := c.rounds + 1))
  {
    var r, c1 := w.rounds(c.rounds), c.(rounds := c.rounds + 1);
    GuardStepWithin(w, r, f, c1);
    assert RoundStep(w, f, c) == GuardStep(w, r, f, c1);
  }

  lemma RoundWithin(w: World, f: Flags, c: Calls)
    ensures StepWithin(RoundStep(w, f, c), f, c.(rounds := c.rounds + 1))
  {
    var r := w.rounds(c.rounds);
    if r.raises {
      RaisingRoundWithin(w, f, c);
    } else if r.projectRepairable && !f.project {
      RepairingRoundWithin(w, f, c);
    } else {
      GuardedRoundWithin(w, f, c);
    }
  }

  lemma {:induction false} RoundsWithin(w: World, f: Flags, c: Calls)
    ensures Within(f, c, Rounds(w, f, c).calls)
    decreases Unused(f)
  {
    var s := RoundStep(w, f, c);
    RoundWithin(w, f, c);
    AgainUsesFlag(w, f, c);
    if s.Again? {
      RoundsWithin(w, s.flags, s.calls);
    }
  }

  /** One `execute` makes at most `maxRetries` + 16 model calls: `maxRetries` + 2 attempts, three for
      each of the two contract repairs, eight for the patch repair and its forced second go; and it goes
      through at most four rounds. */
  lemma CallBound(w: World, maxRetries: int)
    requires maxRetries >= 0
    ensures var c := Execute(w, maxRetries).calls;
      && c.attempts <= maxRetries + 2 && c.project <= 3 && c.stage <= 3 && c.patch <= 8
      && c.rounds <= 4 && Total(c) <= maxRetries + 16
    ensures Execute(w, maxRetries).Failed? ==> Execute(w, maxRetries).stop != PlanMissing
  {
    var a := Attempts(w.attempts, maxRetries, 0, 0, 0);
    AttemptBound(w.attempts, maxRetries, 0, 0, 0);
    var c := Calls(a.calls, 0, 0, 0, 0);
    if a.Planned? && !w.lowConfidence {
      RoundsWithin(w, NONE_USED, c);
      NeverMissing(w, NONE_USED, c);
    }
  }

  lemma {:induction false} NeverMissing(w: World, f: Flags, c: Calls)
    ensures Rounds(w, f, c).Failed? ==> Rounds(w, f, c).stop != PlanMissing
    decreases Unused(f)
  {
    AgainUsesFlag(w, f, c);
    if RoundStep(w, f, c).Again? {
      NeverMissing(w, RoundStep(w, f, c).flags, RoundStep(w, f, c).calls);
    }
  }

  /** The bound is met for every retry limit, and so are the four rounds. */
  lemma CallBoundMet(maxRetries: nat) returns (w: World)
    ensures var s := Execute(w, maxRetries);
      s.Done? && Total(s.calls) == maxRetries + 16 && s.calls.rounds == 4
  {
    var answers := (k: nat) => if k < maxRetries then Transient else if k == maxRetries then ParseFailure else GoodPlan;
    var third := (k: nat) => if k < 2 then Malformed else NewPlan;
    var never := (k: nat) => Malformed;
    var fourth := (k: nat) => if k < 3 then Malformed else NewPlan;
    var rounds := (k: nat) =>
      if k == 0 then Round(false, true, false, true, false, true, false, false, true, true)
      else if k == 1 then Round(false, false, false, false, true, true, false, false, true, true)
      else if k == 2 then Round(false, false, false, true, false, false, true, false, true, true)
      else Round(false, false, false, true, false, true, false, false, true, true);
    w := World(answers, false, rounds, third, Goes, third, Goes, never, Goes, fourth, Goes);
    RetriesThenPlan(answers, maxRetries, 0);
    LastReply(third, 2, 0, 2);
    LastReply(never, 3, 0, 3);
    LastReply(fourth, 3, 0, 3);
    FourRounds(w, Calls(maxRetries + 2, 0, 0, 0, 0));
  }

  lemma {:induction false} LastReply(replies: nat -> Reply, limit: nat, retry: nat, last: nat)
    requires retry <= last <= limit && forall j :: retry <= j < last ==> replies(j) == Malformed
    requires replies(last) == NewPlan || (last == limit && replies(last) == Malformed)
    ensures Repair(replies, limit, retry) ==
            Repaired(replies(last) == NewPlan, replies(last) == Malformed, last - retry + 1)
    decreases last - retry
  {
    if retry < last {
      LastReply(replies, limit, retry + 1, last);
    }
  }

  /** One round for each repair, the patch repair taken twice, and one that succeeds. */
  lemma FourRounds(w: World, c: Calls)
    requires c.rounds == 0 && c.project == c.stage == c.patch == 0
    requires w.afterProject == w.afterStage == w.afterForced == Goes
    requires !w.rounds(0).raises && w.rounds(0).projectRepairable
    requires !w.rounds(1).raises && !w.rounds(1).projectRepairable && !w.rounds(1).confirmation && !w.rounds(1).guardOk
    requires w.rounds(1).stageRepairable
    requires !w.rounds(2).raises && !w.rounds(2).projectRepairable && !w.rounds(2).confirmation && w.rounds(2).guardOk
    requires !w.rounds(2).applies && w.rounds(2).patchRepairable && !w.rounds(2).recoversAlone
    requires w.rounds(2).payloadIsDict && w.rounds(2).drifts
    requires !w.rounds(3).raises && !w.rounds(3).projectRepairable && !w.rounds(3).confirmation && w.rounds(3).guardOk
    requires w.rounds(3).applies
    requires Repair(w.project, 2, 0) == Repaired(true, false, 3) && Repair(w.stage, 2, 0) == Repaired(true, false, 3)
    requires Repair(w.patch, 3, 0) == Repaired(false, true, 4) && Repair(w.forced, 3, 0) == Repaired(true, false, 4)
    ensures Rounds(w, NONE_USED, c) == Done(Calls(c.attempts, 3, 3, 8, 4))
  {
    var f1, c1 := NONE_USED.(project := true), Calls(c.attempts, 3, 0, 0, 1);
    var f2, c2 := f1.(stage := true), Calls(c.attempts, 3, 3, 0, 2);
    var f3, c3 := f2.(patch := true, forced := true), Calls(c.attempts, 3, 3, 8, 3);
    assert Rounds(w, f3, c3) == Done(Calls(c.attempts, 3, 3, 8, 4)) by {
      assert RoundStep(w, f3, c3) == Done(Calls(c.attempts, 3, 3, 8, 4));
    }
    assert Rounds(w, f2, c2) == Rounds(w, f3, c3) by {
      assert RoundStep(w, f2, c2) == Again(f3, c3);
    }
    assert Rounds(w, f1, c1) == Rounds(w, f2, c2) by {
      assert RoundStep(w, f1, c1) == Again(f2, c2);
    }
    assert RoundStep(w, NONE_USED, c) == Again(f1, c1);
  }

  lemma {:induction false} RetriesThenPlan(answers: nat -> Attempt, maxRetries: nat, k: nat)
    requires k <= maxRetries
    requires forall j :: k <= j < maxRetries ==> answers(j) == Transient
    requires answers(maxRetries) == ParseFailure && answers(maxRetries + 1) == GoodPlan
    ensures Attempts(answers, maxRetries, k, 0, k) == Planned(maxRetries + 2 - k)
    decreases maxRetries - k
  {
    if k < maxRetries {
      RetriesThenPlan(answers, maxRetries, k + 1);
    } else {
      assert Attempts(answers, maxRetries, k + 1, 1, k) == Planned(1);
    }
  }
}
