/** Where one `execute` ends: which answers and which findings of the checks lead to which exit. Everything here
    is said about the model's answers and about the rounds as the checks find them. */
module Exits {
  import opened ExecuteLoop

  // ---------------------------------------------------------------- repairs

  predicate AllMalformed(replies: nat -> Reply, k: nat) {
    forall j: nat :: j < k ==> replies(j) == Malformed
  }

  /** A plan comes back, after malformed output at most `limit` times. */
  ghost predicate Works(replies: nat -> Reply, limit: nat) {
    exists k: nat :: k <= limit && replies(k) == NewPlan && AllMalformed(replies, k)
  }

  /** The repair ends with output it calls invalid. */
  ghost predicate EndsInvalid(replies: nat -> Reply, limit: nat) {
    exists k: nat :: k <= limit && AllMalformed(replies, k) &&
      (replies(k) == Broken || replies(k) == CallError(true) || (k == limit && replies(k) == Malformed))
  }

  lemma {:induction false} RepairIs(replies: nat -> Reply, limit: nat, retry: nat)
    requires retry <= limit && AllMalformed(replies, retry)
    ensures Repair(replies, limit, retry).ok <==> Works(replies, limit)
    ensures Repair(replies, limit, retry).invalid <==> EndsInvalid(replies, limit)
    decreases limit - retry
  {
    if replies(retry) == Malformed && retry < limit {
      RepairIs(replies, limit, retry + 1);
    } else {
      assert forall k: nat :: k <= limit && AllMalformed(replies, k) && k > retry ==> replies(retry) == Malformed;
    }
  }

  // ---------------------------------------------------------------- rounds

  /** Round `n` is the first to find a project violation that can be repaired, and the repair works. */
  ghost predicate Mended(w: World, n: nat) {
    && w.rounds(n).projectRepairable && (forall i: nat :: i < n ==> !w.rounds(i).projectRepairable)
    && Works(w.project, 2)
  }

  /** The round gets as far as the guard. */
  ghost predicate Guarded(w: World, n: nat) {
    !w.rounds(n).raises && !Mended(w, n) && !w.rounds(n).confirmation
  }

  /** The guard refuses, and the stage could be repaired. */
  ghost predicate StageBroken(w: World, n: nat) {
    Guarded(w, n) && !w.rounds(n).guardOk && w.rounds(n).stageRepairable
  }

  /** The actions fail, and the patch could be repaired. */
  ghost predicate PatchBroken(w: World, n: nat) {
    Guarded(w, n) && w.rounds(n).guardOk && !w.rounds(n).applies && w.rounds(n).patchRepairable
  }

  ghost predicate FirstStage(w: World, n: nat) {
    StageBroken(w, n) && forall i: nat :: i < n ==> !StageBroken(w, i)
  }

  ghost predicate FirstPatch(w: World, n: nat) {
    PatchBroken(w, n) && forall i: nat :: i < n ==> !PatchBroken(w, i)
  }

  function Retries(r: Round): nat {
    if r.drifts then 3 else 2
  }

  /** The patch repair needs its forced second go, and gets it. */
  ghost predicate ForcedWorks(w: World, n: nat) {
    && !Works(w.patch, Retries(w.rounds(n))) && EndsInvalid(w.patch, Retries(w.rounds(n)))
    && w.rounds(n).payloadIsDict && Works(w.forced, Retries(w.rounds(n)))
  }

  /** Round `n` ends with a repair that works, and this is what comes of it. */
  ghost predicate Repairs(w: World, n: nat, after: Aftermath) {
    || (!w.rounds(n).raises && Mended(w, n) && w.afterProject == after)
    || (FirstStage(w, n) && Works(w.stage, 2) && w.afterStage == after)
    || (FirstPatch(w, n) && w.rounds(n).recoversAlone && after == Goes)
    || (FirstPatch(w, n) && !w.rounds(n).recoversAlone && Works(w.patch, Retries(w.rounds(n))) && w.afterPatch == after)
    || (FirstPatch(w, n) && !w.rounds(n).recoversAlone && ForcedWorks(w, n) && w.afterForced == after)
  }

  ghost predicate Repaired(w: World, n: nat) {
    Repairs(w, n, Goes) || Repairs(w, n, Blocked) || Repairs(w, n, Escapes)
  }

  /** What leads to each exit of a round. */
  ghost predicate Causes(w: World, n: nat, stop: Stop) {
    match stop
    case Raised => w.rounds(n).raises || Repairs(w, n, Escapes)
    case BudgetExhausted => Repairs(w, n, Blocked)
    case ConfirmationRequired => !w.rounds(n).raises && !Mended(w, n) && w.rounds(n).confirmation
    case GuardViolation => Guarded(w, n) && !w.rounds(n).guardOk && !Repaired(w, n)
    case ActionError => Guarded(w, n) && w.rounds(n).guardOk && !w.rounds(n).applies && !Repaired(w, n)
    case _ => false
  }

  ghost predicate Succeeds(w: World, n: nat) {
    Guarded(w, n) && w.rounds(n).guardOk && w.rounds(n).applies
  }

  /** The flags at the beginning of round `c.rounds`. */
  ghost predicate At(w: World, f: Flags, c: Calls) {
    && (forall i: nat :: i < c.rounds ==> Repairs(w, i, Goes))
    && (f.project <==> exists i: nat :: i < c.rounds && w.rounds(i).projectRepairable)
    && (f.stage <==> exists i: nat :: i < c.rounds && StageBroken(w, i))
    && (f.patch <==> exists i: nat :: i < c.rounds && PatchBroken(w, i))
    && (f.forced ==> f.patch)
  }

  lemma RepairsAre(w: World, r: Round)
    ensures Repair(w.project, REPAIR_STRUCTURED_OUTPUT_RETRY_LIMIT, 0).ok <==> Works(w.project, 2)
    ensures Repair(w.stage, REPAIR_STRUCTURED_OUTPUT_RETRY_LIMIT, 0).ok <==> Works(w.stage, 2)
    ensures Repair(w.patch, PatchLimit(r), 0).ok <==> Works(w.patch, Retries(r))
    ensures Repair(w.patch, PatchLimit(r), 0).invalid <==> EndsInvalid(w.patch, Retries(r))
    ensures Repair(w.forced, PatchLimit(r), 0).ok <==> Works(w.forced, Retries(r))
  {
    RepairIs(w.project, 2, 0);
    RepairIs(w.stage, 2, 0);
    RepairIs(w.patch, Retries(r), 0);
    RepairIs(w.forced, Retries(r), 0);
  }

  /** What the handler for failed actions comes to. */
  lemma PatchExit(w: World, f: Flags, c: Calls, n: nat)
    requires PatchBroken(w, n) || (Guarded(w, n) && w.rounds(n).guardOk && !w.rounds(n).applies)
    requires PatchBroken(w, n) ==> (!f.patch <==> FirstPatch(w, n))
    requires f.forced ==> f.patch
    ensures var s := PatchStep(w, w.rounds(n), f, c);
      && (s.Again? <==> Repairs(w, n, Goes)) && !s.Done?
      && (s.Failed? ==> Causes(w, n, s.stop))
      && (s.Again? ==> s.flags == f.(patch := true, forced := s.flags.forced) && s.calls.rounds == c.rounds)
      && s.calls.rounds == c.rounds
  {
    RepairsAre(w, w.rounds(n));
  }

  lemma GuardExit(w: World, f: Flags, c: Calls, n: nat)
    requires !w.rounds(n).raises && !Mended(w, n)
    requires StageBroken(w, n) ==> (!f.stage <==> FirstStage(w, n))
    requires PatchBroken(w, n) ==> (!f.patch <==> FirstPatch(w, n))
    requires f.forced ==> f.patch
    ensures var s := GuardStep(w, w.rounds(n), f, c);
      && (s.Again? <==> Repairs(w, n, Goes)) && (s.Done? <==> Succeeds(w, n))
      && (s.Failed? ==> Causes(w, n, s.stop))
      && s.calls.rounds == c.rounds
      && (s.Again? ==>
            && s.flags.project == f.project && (s.flags.forced ==> s.flags.patch)
            && (s.flags.stage <==> f.stage || StageBroken(w, n)) && (s.flags.patch <==> f.patch || PatchBroken(w, n)))
  {
    RepairsAre(w, w.rounds(n));
    if Guarded(w, n) && w.rounds(n).guardOk && !w.rounds(n).applies {
      PatchExit(w, f, c, n);
    }
  }

  /** What a round shows of itself. */
  ghost predicate Leaves(w: World, f: Flags, n: nat, s: Step) {
    && (s.Again? <==> Repairs(w, n, Goes)) && (s.Done? <==> Succeeds(w, n))
    && (s.Failed? ==> Causes(w, n, s.stop))
    && s.calls.rounds == n + 1
    && (s.Again? ==>
          && (s.flags.project <==> f.project || w.rounds(n).projectRepairable)
          && (s.flags.stage <==> f.stage || StageBroken(w, n))
          && (s.flags.patch <==> f.patch || PatchBroken(w, n))
          && (s.flags.forced ==> s.flags.patch))
  }

  lemma MendedRound(w: World, f: Flags, c: Calls)
    requires At(w, f, c) && !w.rounds(c.rounds).raises && Mended(w, c.rounds)
    ensures Leaves(w, f, c.rounds, RoundStep(w, f, c))
  {
    RepairIs(w.project, 2, 0);
    assert !f.project;
  }

  lemma GuardedRound(w: World, f: Flags, c: Calls)
    requires At(w, f, c) && !w.rounds(c.rounds).raises && !Mended(w, c.rounds)
    ensures Leaves(w, f, c.rounds, RoundStep(w, f, c))
  {
    var f2, c2 := PastProject(w, f, c);
    FirstsKnown(w, f, c);
    GuardExit(w, f2, c2, c.rounds);
  }

  /** The round goes on to the guard, after a failed project repair or without one. */
  lemma PastProject(w: World, f: Flags, c: Calls) returns (f2: Flags, c2: Calls)
    requires At(w, f, c) && !w.rounds(c.rounds).raises && !Mended(w, c.rounds)
    ensures RoundStep(w, f, c) == GuardStep(w, w.rounds(c.rounds), f2, c2)
    ensures f2 == f.(project := f.project || w.rounds(c.rounds).projectRepairable) && c2.rounds == c.rounds + 1
  {
    f2, c2 := f, c.(rounds := c.rounds + 1);
    if w.rounds(c.rounds).projectRepairable && !f.project {
      RepairIs(w.project, 2, 0);
      f2 := f.(project := true);
      c2 := c2.(project := c2.project + Repair(w.project, REPAIR_STRUCTURED_OUTPUT_RETRY_LIMIT, 0).calls);
    }
  }

  /** A flag is unused exactly in the first round that has a use for it. */
  lemma FirstsKnown(w: World, f: Flags, c: Calls)
    requires At(w, f, c)
    ensures StageBroken(w, c.rounds) ==> (!f.stage <==> FirstStage(w, c.rounds))
    ensures PatchBroken(w, c.rounds) ==> (!f.patch <==> FirstPatch(w, c.rounds))
  {
  }

  lemma RoundExit(w: World, f: Flags, c: Calls)
    requires At(w, f, c)
    ensures Leaves(w, f, c.rounds, RoundStep(w, f, c))
    ensures var s := RoundStep(w, f, c); s.Again? ==> At(w, s.flags, s.calls)
  {
    if w.rounds(c.rounds).raises {
    } else if Mended(w, c.rounds) {
      MendedRound(w, f, c);
    } else {
      GuardedRound(w, f, c);
    }
    var s := RoundStep(w, f, c);
    if s.Again? {
      AtNext(w, f, c, s);
    }
  }

  lemma AtNext(w: World, f: Flags, c: Calls, s: Step)
    requires At(w, f, c) && s.Again? && Leaves(w, f, c.rounds, s)
    ensures At(w, s.flags, s.calls)
  {
  }

  /** Rounds go on while a repair works, and the first without one decides. */
  ghost predicate EndsAt(w: World, n: nat, s: Step) {
    && (forall i: nat :: i < n ==> Repairs(w, i, Goes)) && !Repairs(w, n, Goes)
    && s.calls.rounds == n + 1
    && (s.Done? <==> Succeeds(w, n))
    && (s.Failed? ==> Causes(w, n, s.stop))
  }

  lemma {:induction false} RoundsExit(w: World, f: Flags, c: Calls)
    requires At(w, f, c)
    ensures var s := Rounds(w, f, c); s.calls.rounds > 0 && EndsAt(w, s.calls.rounds - 1, s)
    decreases Unused(f)
  {
    RoundExit(w, f, c);
    AgainUsesFlag(w, f, c);
    var s := RoundStep(w, f, c);
    if s.Again? {
      RoundsExit(w, s.flags, s.calls);
    }
  }

  /** A round has one way out. */
  lemma OneWayOut(w: World, n: nat, a: Stop, b: Stop)
    requires Causes(w, n, a)
    ensures !Succeeds(w, n) && !Repairs(w, n, Goes)
    ensures Causes(w, n, b) ==> a == b
  {
  }

  // ---------------------------------------------------------------- the attempts

  /** The exit that the last attempt leads to, when all before it were retried. */
  function AttemptExit(last: Attempt, k: nat): Attempted {
    match last
    case GoodPlan => Planned(k + 1)
    case BudgetBlocked => Halted(BudgetExhausted, k + 1)
    case ParseFailure => Halted(OutputContractInvalid, k + 1)
    case Transient => Halted(ModelCallFailed, k + 1)
    case Fatal => Halted(ModelCallFailed, k + 1)
    case RaisesFirst => Halted(Raised, k)
    case Raises => Halted(Raised, k + 1)
  }

  /** The attempts go on while failures are retried, and the first that is not decides. */
  lemma AttemptsExit(answers: nat -> Attempt, maxRetries: int) returns (k: nat)
    requires maxRetries >= 0
    ensures AllRetried(answers, maxRetries, k) && !AllRetried(answers, maxRetries, k + 1)
    ensures Attempts(answers, maxRetries, 0, 0, 0) == AttemptExit(answers(k), k)
  {
    k := 0;
    while AllRetried(answers, maxRetries, k + 1)
      invariant AllRetried(answers, maxRetries, k)
      decreases MaxAttempts(maxRetries) - k
    {
      k := k + 1;
      StateAfter(answers, maxRetries, k);
    }
    StateAfter(answers, maxRetries, k);
    CountsFit(answers, k);
  }

  // ---------------------------------------------------------------- the whole execution

  predicate FailsWith(s: Step, stop: Stop) {
    s.Failed? && s.stop == stop
  }

  /** Which exit `execute` takes, for every world. The rounds it goes through are those whose repairs work; success
      and every way of failing are decided by the last one. */
  lemma ExecuteExits(w: World, maxRetries: int)
    ensures var s, a := Execute(w, maxRetries), Attempts(w.attempts, maxRetries, 0, 0, 0);
      && (a.Halted? ==> s.Failed? && s.stop == a.stop && s.calls.rounds == 0)
      && (a.Planned? && w.lowConfidence ==> s.Failed? && s.stop == LowConfidence && s.calls.rounds == 0)
      && (a.Planned? && !w.lowConfidence ==>
            && s.calls.rounds > 0 && EndsAt(w, s.calls.rounds - 1, s)
            && forall stop :: FailsWith(s, stop) <==> Causes(w, s.calls.rounds - 1, stop))
  {
    var s, a := Execute(w, maxRetries), Attempts(w.attempts, maxRetries, 0, 0, 0);
    if a.Planned? && !w.lowConfidence {
      RoundsExit(w, NONE_USED, Calls(a.calls, 0, 0, 0, 0));
      var n := s.calls.rounds - 1;
      forall stop ensures FailsWith(s, stop) <==> Causes(w, n, stop) {
        if Causes(w, n, stop) {
          OneWayOut(w, n, stop, stop);
          OneWayOut(w, n, s.stop, stop);
        }
      }
    }
  }

  /** Success, exactly: a plan comes out, it is confident enough, and in the last round nothing raises, no project
      repair takes over, no confirmation is asked for, the guard agrees and the actions apply. */
  lemma SucceedsIff(w: World, maxRetries: int)
    ensures var s := Execute(w, maxRetries);
      s.Done? <==>
        && Attempts(w.attempts, maxRetries, 0, 0, 0).Planned? && !w.lowConfidence && s.calls.rounds > 0
        && var n := s.calls.rounds - 1; var r := w.rounds(n);
        !r.raises && !Mended(w, n) && !r.confirmation && r.guardOk && r.applies
  {
    ExecuteExits(w, maxRetries);
  }
}
