/** The execution budget ledger: clamped token and cost counters, a main partition, a recovery
    reserve with a fallback to the main partition, and three modes. It is rebuilt from its
    serialised form on every call. Money is in units of 1e-4 cents, so rounding to four decimals
    only matters where a product or a quotient is taken. */
module Budget {
  import opened Wrappers

  function Max(a: int, b: int): int { if a > b then a else b }
  function Min(a: int, b: int): int { if a < b then a else b }

  /** Division rounded to the nearest integer, ties to even. */
  function RoundDiv(n: int, d: int): int
    requires d > 0
  {
    var q, r := n / d, n % d;
    if 2 * r < d then q else if 2 * r > d then q + 1 else if q % 2 == 0 then q else q + 1
  }

  datatype Tier = Premium | Standard | Economy | NoModel

  datatype Rates = Rates(input: nat, output: nat)  // units per 1000 tokens

  datatype Settings = Settings(
    maxRunTokens: int,
    maxRunCost: int,
    stepCost: int,            // planned cost of one budgeted step
    codexMaxTokens: int,
    economyTokens: int,
    standardTokens: int,
    backgroundBudget: int,
    economyBudget: int,
    reserveMin: int,
    reserveFraction: int,     // in 1/10000 of the maximum cost
    premium: Rates,
    standard: Rates,
    economy: Rates
  )

  function RatesOf(cfg: Settings, tier: Tier): Rates {
    match tier
    case Premium => cfg.premium
    case Standard => cfg.standard
    case Economy => cfg.economy
    case NoModel => Rates(0, 0)
  }

  function EstimateCost(cfg: Settings, tier: Tier, input: int, output: int): int {
    var r := RatesOf(cfg, tier);
    RoundDiv(Max(0, input) * r.input + Max(0, output) * r.output, 1000)
  }

  lemma CostIsNonNegative(cfg: Settings, tier: Tier, input: int, output: int)
    ensures EstimateCost(cfg, tier, input, output) >= 0
  {
    var r := RatesOf(cfg, tier);
    ProductNonNegative(Max(0, input), r.input);
    ProductNonNegative(Max(0, output), r.output);
  }

  lemma ProductNonNegative(a: int, b: int)
    requires a >= 0 && b >= 0
    ensures a * b >= 0
  {
  }

  // ---------------------------------------------------------------- counters and view

  /** What is stored; a zero in the serialised form reads as a missing key. */
  datatype Counters = Counters(
    maxTokens: int,
    maxCost: int,
    usedInput: int,
    usedOutput: int,
    usedCost: int,
    reserve: int,
    usedRecovery: int
  )

  datatype Partition = Main | MainFallback | Recovery
  datatype Mode = Normal | Constrained | Blocked
  datatype Reason = NoReason | RecoveryExhausted | CostExhausted | TokensExhausted | CostLow | TokensLow

  /** What `refresh` derives from the counters. */
  datatype View = View(
    usedTokens: int,
    remainingTokens: int,
    remainingCost: int,
    remainingRecovery: int,
    partition: Partition,
    mode: Mode,
    completionCap: int,
    reason: Reason
  )

  function ConfiguredReserve(cfg: Settings, maxCost: int): int {
    Max(cfg.reserveMin, RoundDiv(maxCost * Max(0, cfg.reserveFraction), 10000))
  }

  function Clamped(c: Counters, cfg: Settings): Counters {
    var maxCost := Max(0, c.maxCost);
    Counters(
      Max(0, c.maxTokens), maxCost, Max(0, c.usedInput), Max(0, c.usedOutput), Max(0, c.usedCost),
      Max(0, if c.reserve != 0 then c.reserve else ConfiguredReserve(cfg, maxCost)), Max(0, c.usedRecovery))
  }

  /** The partition that pays, and the cost limit that goes with it. */
  function Partitioned(c: Counters, cfg: Settings, recovery: bool): (Partition, int) {
    if !recovery then (Main, c.maxCost)
    else if Max(0, c.reserve - c.usedRecovery) <= cfg.backgroundBudget
         && Max(0, c.maxCost - c.usedCost) > cfg.backgroundBudget then (MainFallback, c.maxCost)
    else (Recovery, c.maxCost + c.reserve)
  }

  function Derived(c: Counters, cfg: Settings, recovery: bool): View {
    var used := Max(0, c.usedInput + c.usedOutput);
    var tokens := Max(0, c.maxTokens - used);
    var reserve := Max(0, c.reserve - c.usedRecovery);
    var (partition, limit) := Partitioned(c, cfg, recovery);
    var cost := Max(0, limit - c.usedCost);
    var exhausted := partition == Recovery && reserve <= cfg.backgroundBudget;
    if tokens < Max(256, cfg.economyTokens) || cost <= cfg.backgroundBudget || exhausted then
      View(used, tokens, cost, reserve, partition, Blocked, 0,
        if exhausted then RecoveryExhausted
        else if cost <= cfg.backgroundBudget then CostExhausted
        else TokensExhausted)
    else if tokens < Max(cfg.codexMaxTokens * 4, cfg.standardTokens * 2) || cost <= cfg.economyBudget then
      View(used, tokens, cost, reserve, partition, Constrained, Max(256, Min(cfg.economyTokens, tokens / 2)),
        if cost <= cfg.economyBudget then CostLow else TokensLow)
    else
      View(used, tokens, cost, reserve, partition, Normal, Min(cfg.codexMaxTokens, tokens), NoReason)
  }

  function Severity(m: Mode): nat {
    match m case Normal => 0 case Constrained => 1 case Blocked => 2
  }

  // ---------------------------------------------------------------- the object

  class ExecutionBudgetLedger {
    var maxTokens: int
    var maxCost: int
    var usedInput: int
    var usedOutput: int
    var usedTokens: int
    var remainingTokens: int
    var usedCost: int
    var remainingCost: int
    var reserve: int
    var usedRecovery: int
    var remainingRecovery: int
    var partition: Partition
    var mode: Mode
    var completionCap: int
    var reason: Reason

    function ToDict(): Counters
      reads this
    {
      Counters(maxTokens, maxCost, usedInput, usedOutput, usedCost, reserve, usedRecovery)
    }

    function Shown(): View
      reads this
    {
      View(usedTokens, remainingTokens, remainingCost, remainingRecovery, partition, mode, completionCap, reason)
    }

    constructor (maxTokens: int, maxCost: int)
      ensures ToDict() == Counters(maxTokens, maxCost, 0, 0, 0, 0, 0)
    {
      this.maxTokens, this.maxCost := maxTokens, maxCost;
      usedInput, usedOutput, usedTokens, remainingTokens := 0, 0, 0, 0;
      usedCost, remainingCost, reserve, usedRecovery, remainingRecovery := 0, 0, 0, 0, 0;
      partition, mode, completionCap, reason := Main, Normal, 0, NoReason;
    }

    constructor FromDict(p: Counters, cfg: Settings)
      ensures ToDict() == Loaded(p, cfg)
    {
      maxTokens := if p.maxTokens != 0 then p.maxTokens else cfg.maxRunTokens;
      maxCost := if p.maxCost != 0 then p.maxCost else cfg.maxRunCost;
      usedInput, usedOutput, usedTokens, remainingTokens := p.usedInput, p.usedOutput, 0, 0;
      usedCost, remainingCost := p.usedCost, 0;
      reserve, usedRecovery, remainingRecovery := p.reserve, p.usedRecovery, 0;
      partition, mode, completionCap, reason := Main, Normal, 0, NoReason;
      new;
      Refresh(cfg, false);
    }

    method ClampCounters(cfg: Settings)
      modifies this
      ensures ToDict() == Clamped(old(ToDict()), cfg)
    {
      maxTokens := Max(0, maxTokens);
      maxCost := Max(0, maxCost);
      var configured := ConfiguredReserve(cfg, maxCost);
      reserve := Max(0, if reserve != 0 then reserve else configured);
      usedInput := Max(0, usedInput);
      usedOutput := Max(0, usedOutput);
      usedCost := Max(0, usedCost);
      usedRecovery := Max(0, usedRecovery);
    }

    /** What is left, and which partition pays for it. */
    method Measure(cfg: Settings, recovery: bool) returns (exhausted: bool)
      modifies `usedTokens, `remainingTokens, `remainingRecovery, `remainingCost, `partition
      ensures partition == Main <==> !recovery
      ensures partition == MainFallback <==>
                && recovery && 0 <= cfg.backgroundBudget
                && reserve - usedRecovery <= cfg.backgroundBudget < maxCost - usedCost
      ensures remainingCost == Max(0, (if partition == Recovery then maxCost + reserve else maxCost) - usedCost)
      ensures partition == Partitioned(ToDict(), cfg, recovery).0
      ensures remainingCost == Max(0, Partitioned(ToDict(), cfg, recovery).1 - usedCost)
      ensures usedTokens == Max(0, usedInput + usedOutput)
      ensures remainingTokens == Max(0, maxTokens - usedTokens)
      ensures remainingRecovery == Max(0, reserve - usedRecovery)
      ensures exhausted <==> partition == Recovery && remainingRecovery <= cfg.backgroundBudget
    {
      usedTokens := Max(0, usedInput + usedOutput);
      remainingTokens := Max(0, maxTokens - usedTokens);
      remainingRecovery := Max(0, reserve - usedRecovery);
      var limit := maxCost;
      partition := Main;
      var fallback := false;
      if recovery {
        var recoveryRemaining := Max(0, reserve - usedRecovery);
        var mainRemaining := Max(0, maxCost - usedCost);
        if recoveryRemaining <= cfg.backgroundBudget && mainRemaining > cfg.backgroundBudget {
          fallback := true;
          partition := MainFallback;
        } else {
          limit := maxCost + reserve;
          partition := Recovery;
        }
      }
      remainingCost := Max(0, limit - usedCost);
      exhausted := recovery && !fallback && remainingRecovery <= cfg.backgroundBudget;
    }

    method Refresh(cfg: Settings, recovery: bool)
      modifies this
      ensures ToDict() == Clamped(old(ToDict()), cfg)
      ensures Shown() == Derived(ToDict(), cfg, recovery)
    {
      ClampCounters(cfg);
      var exhausted := Measure(cfg, recovery);
      ChooseMode(cfg, exhausted);
    }

    method ChooseMode(cfg: Settings, exhausted: bool)
      modifies `mode, `completionCap, `reason
      ensures mode == Blocked <==>
                remainingTokens < Max(256, cfg.economyTokens) || remainingCost <= cfg.backgroundBudget || exhausted
      ensures mode != Blocked ==>
                (mode == Constrained <==>
                 remainingTokens < Max(cfg.codexMaxTokens * 4, cfg.standardTokens * 2)
                 || remainingCost <= cfg.economyBudget)
      ensures completionCap ==
              match mode
              case Blocked => 0
              case Constrained => Max(256, Min(cfg.economyTokens, remainingTokens / 2))
              case Normal => Min(cfg.codexMaxTokens, remainingTokens)
      ensures reason ==
              match mode
              case Blocked =>
                if exhausted then RecoveryExhausted
                else if remainingCost <= cfg.backgroundBudget then CostExhausted else TokensExhausted
              case Constrained => if remainingCost <= cfg.economyBudget then CostLow else TokensLow
              case Normal => NoReason
    {
      if remainingTokens < Max(256, cfg.economyTokens) || remainingCost <= cfg.backgroundBudget || exhausted {
        mode := Blocked;
        completionCap := 0;
        if exhausted {
          reason := RecoveryExhausted;
        } else if remainingCost <= cfg.backgroundBudget {
          reason := CostExhausted;
        } else {
          reason := TokensExhausted;
        }
        return;
      }
      if remainingTokens < Max(cfg.codexMaxTokens * 4, cfg.standardTokens * 2) || remainingCost <= cfg.economyBudget {
        mode := Constrained;
        completionCap := Max(256, Min(cfg.economyTokens, remainingTokens / 2));
        reason := if remainingCost <= cfg.economyBudget then CostLow else TokensLow;
        return;
      }
      mode := Normal;
      completionCap := Min(cfg.codexMaxTokens, remainingTokens);
      reason := NoReason;
    }
  }

  /** The counters after deserialising, which refreshes once. */
  function Loaded(p: Counters, cfg: Settings): Counters {
    Clamped(p.(maxTokens := if p.maxTokens != 0 then p.maxTokens else cfg.maxRunTokens,
               maxCost := if p.maxCost != 0 then p.maxCost else cfg.maxRunCost), cfg)
  }

  function PlannedCost(cfg: Settings, steps: Option<nat>): int {
    if steps.None? then cfg.maxRunCost else Max(cfg.maxRunCost, steps.value * cfg.stepCost)
  }

  /** The counters of a freshly built contract. */
  function Built(p: Option<Counters>, cfg: Settings, planned: int): Counters {
    match p
    case None => Clamped(Counters(cfg.maxRunTokens, planned, 0, 0, 0, 0, 0), cfg)
    case Some(c) => var l := Loaded(c, cfg); Clamped(l.(maxCost := Max(l.maxCost, planned)), cfg)
  }

  datatype Usage = Usage(tier: Tier, input: int, output: int, recovery: bool, steps: Option<nat>)

  /** The counters after one recorded call. */
  function Recorded(p: Option<Counters>, cfg: Settings, u: Usage): Counters {
    var c := Built(p, cfg, PlannedCost(cfg, u.steps));
    var cost := EstimateCost(cfg, u.tier, u.input, u.output);
    Clamped(c.(usedInput := c.usedInput + Max(0, u.input),
               usedOutput := c.usedOutput + Max(0, u.output),
               usedCost := c.usedCost + cost,
               usedRecovery := c.usedRecovery + if u.recovery then cost else 0), cfg)
  }

  method BuildLedger(p: Option<Counters>, cfg: Settings, planned: int) returns (ledger: ExecutionBudgetLedger)
    ensures fresh(ledger)
    ensures ledger.ToDict() == Built(p, cfg, planned)
    ensures ledger.Shown() == Derived(ledger.ToDict(), cfg, false)
  {
    if p.Some? {
      ledger := new ExecutionBudgetLedger.FromDict(p.value, cfg);
      ledger.maxCost := Max(ledger.maxCost, planned);
    } else {
      ledger := new ExecutionBudgetLedger(cfg.maxRunTokens, planned);
    }
    ledger.Refresh(cfg, false);
  }

  method RecordRunBudgetUsage(p: Option<Counters>, cfg: Settings, u: Usage) returns (saved: Counters, shown: View)
    ensures saved == Recorded(p, cfg, u)
    ensures shown == Derived(saved, cfg, u.recovery)
  {
    var ledger := BuildLedger(p, cfg, PlannedCost(cfg, u.steps));
    ledger.usedInput := ledger.usedInput + Max(0, u.input);
    ledger.usedOutput := ledger.usedOutput + Max(0, u.output);
    var cost := EstimateCost(cfg, u.tier, u.input, u.output);
    ledger.usedCost := ledger.usedCost + cost;
    if u.recovery {
      ledger.usedRecovery := ledger.usedRecovery + cost;
    }
    ledger.Refresh(cfg, u.recovery);
    saved, shown := ledger.ToDict(), ledger.Shown();
  }

  // ---------------------------------------------------------------- severity

  /** The same limits, and no less used on any counter. */
  predicate UsedMore(c: Counters, d: Counters) {
    && d.maxTokens == c.maxTokens && d.maxCost == c.maxCost && d.reserve == c.reserve
    && c.usedInput <= d.usedInput && c.usedOutput <= d.usedOutput
    && c.usedCost <= d.usedCost && c.usedRecovery <= d.usedRecovery
  }

  /** More usage never relaxes the mode, through clamping, the fallback and back. */
  lemma SeverityIsMonotone(c: Counters, d: Counters, cfg: Settings, recovery: bool)
    requires UsedMore(c, d)
    ensures Severity(Derived(Clamped(c, cfg), cfg, recovery).mode)
         <= Severity(Derived(Clamped(d, cfg), cfg, recovery).mode)
  {
    var c', d' := Clamped(c, cfg), Clamped(d, cfg);
    assert UsedMore(c', d') && c'.reserve >= 0;
    assert Partitioned(c', cfg, recovery).0 == MainFallback && Partitioned(d', cfg, recovery).0 == Recovery
           ==> Derived(d', cfg, recovery).mode == Blocked;
  }

  /** Reloading a ledger shows it in main mode, which is never more permissive than the recovery
      mode it was saved in. */
  lemma MainViewIsStricter(c: Counters, cfg: Settings)
    ensures Severity(Derived(Clamped(c, cfg), cfg, true).mode) <= Severity(Derived(Clamped(c, cfg), cfg, false).mode)
  {
    assert Clamped(c, cfg).reserve >= 0;
  }

  /** A refresh never offers more completion tokens than are left, and a run that is not blocked
      has at least 256 left. */
  lemma CapWithinRemaining(c: Counters, cfg: Settings, recovery: bool)
    ensures var v := Derived(c, cfg, recovery);
      && v.completionCap <= v.remainingTokens
      && (v.mode != Blocked ==> v.remainingTokens >= 256 && v.remainingTokens == c.maxTokens - v.usedTokens)
      && (v.mode == Constrained ==> v.completionCap >= 256)
      && (v.mode == Blocked ==> v.completionCap == 0)
  {
  }

  // ---------------------------------------------------------------- histories

  /** The serialised ledger after a sequence of recorded calls. */
  function Saved(cfg: Settings, us: seq<Usage>): Option<Counters>
    decreases |us|
  {
    if us == [] then None
    else Some(Recorded(Saved(cfg, us[..|us| - 1]), cfg, us[|us| - 1]))
  }

  function SumInput(us: seq<Usage>): nat {
    if us == [] then 0 else SumInput(us[..|us| - 1]) + Max(0, us[|us| - 1].input)
  }

  function SumOutput(us: seq<Usage>): nat {
    if us == [] then 0 else SumOutput(us[..|us| - 1]) + Max(0, us[|us| - 1].output)
  }

  function SumCost(cfg: Settings, us: seq<Usage>, recoveryOnly: bool): int {
    if us == [] then 0
    else
      var u := us[|us| - 1];
      SumCost(cfg, us[..|us| - 1], recoveryOnly)
      + if recoveryOnly && !u.recovery then 0 else EstimateCost(cfg, u.tier, u.input, u.output)
  }

  lemma {:induction false} SumsOrdered(cfg: Settings, us: seq<Usage>)
    ensures 0 <= SumCost(cfg, us, true) <= SumCost(cfg, us, false)
  {
    if us != [] {
      SumsOrdered(cfg, us[..|us| - 1]);
      var u := us[|us| - 1];
      CostIsNonNegative(cfg, u.tier, u.input, u.output);
    }
  }

  /** The persisted ledger is a plain sum: loading, clamping and saving on every call loses and
      invents nothing, and recovery spending is part of the total. */
  lemma {:induction false} LedgerIsPlainSum(cfg: Settings, us: seq<Usage>)
    requires us != []
    ensures Saved(cfg, us).Some?
    ensures var c := Saved(cfg, us).value;
      && c.usedInput == SumInput(us) && c.usedOutput == SumOutput(us)
      && c.usedCost == SumCost(cfg, us, false) && c.usedRecovery == SumCost(cfg, us, true)
      && c.usedRecovery <= c.usedCost
      && c.maxTokens == Max(0, cfg.maxRunTokens)
      && c.maxCost >= Max(0, cfg.maxRunCost)
      && c.reserve >= 0
  {
    var front, u := us[..|us| - 1], us[|us| - 1];
    SumsOrdered(cfg, us);
    SumsOrdered(cfg, front);
    CostIsNonNegative(cfg, u.tier, u.input, u.output);
    if front != [] {
      LedgerIsPlainSum(cfg, front);
      RecordAdds(Saved(cfg, front).value, cfg, u);
    }
  }

  /** A ledger that could have been saved. */
  predicate Sane(c: Counters, cfg: Settings) {
    && c.maxTokens == Max(0, cfg.maxRunTokens) && c.maxCost >= Max(0, cfg.maxRunCost)
    && c.usedInput >= 0 && c.usedOutput >= 0 && c.usedCost >= 0 && c.usedRecovery >= 0 && c.reserve >= 0
  }

  /** One call on a saved ledger: counters grow by exactly the recorded amounts, the cost limit
      never falls, and a reserve once set stays. */
  lemma RecordAdds(c: Counters, cfg: Settings, u: Usage)
    requires Sane(c, cfg)
    ensures var d := Recorded(Some(c), cfg, u);
      && Sane(d, cfg)
      && d.usedInput == c.usedInput + Max(0, u.input) && d.usedOutput == c.usedOutput + Max(0, u.output)
      && d.usedCost == c.usedCost + EstimateCost(cfg, u.tier, u.input, u.output)
      && d.usedRecovery == c.usedRecovery + (if u.recovery then EstimateCost(cfg, u.tier, u.input, u.output) else 0)
      && d.maxCost == Max(c.maxCost, PlannedCost(cfg, u.steps))
      && (c.reserve != 0 ==> d.reserve == c.reserve)
  {
    CostIsNonNegative(cfg, u.tier, u.input, u.output);
  }

  /** Over a whole history the cost limit never falls and the reserve is fixed once set. */
  lemma {:induction false} LimitsOnlyGrow(cfg: Settings, us: seq<Usage>, n: nat)
    requires 0 < n <= |us|
    ensures Saved(cfg, us[..n]).Some? && Saved(cfg, us).Some?
    ensures Saved(cfg, us[..n]).value.maxCost <= Saved(cfg, us).value.maxCost
    ensures Saved(cfg, us[..n]).value.reserve != 0 ==> Saved(cfg, us).value.reserve == Saved(cfg, us[..n]).value.reserve
    decreases |us|
  {
    if n == |us| {
      assert us[..n] == us;
    } else {
      var front := us[..|us| - 1];
      assert front[..n] == us[..n];
      LimitsOnlyGrow(cfg, front, n);
      LedgerIsPlainSum(cfg, front);
      RecordAdds(Saved(cfg, front).value, cfg, us[|us| - 1]);
    }
  }

  // ---------------------------------------------------------------- overshoot

  /** The caller looks at a refresh of the saved ledger first, does not call when it says BLOCKED,
      keeps the output within the cap and the input within `bound`. */
  predicate Disciplined(p: Option<Counters>, cfg: Settings, u: Usage, bound: nat, recovery: bool) {
    var v := Derived(Built(p, cfg, PlannedCost(cfg, u.steps)), cfg, recovery);
    v.mode != Blocked && u.output <= v.completionCap && u.input <= bound
  }

  lemma DisciplinedCall(p: Option<Counters>, cfg: Settings, u: Usage, bound: nat, recovery: bool)
    requires p.None? || Sane(p.value, cfg)
    requires Disciplined(p, cfg, u, bound, recovery)
    ensures var d := Recorded(p, cfg, u); d.usedInput + d.usedOutput <= d.maxTokens + bound
  {
    CapWithinRemaining(Built(p, cfg, PlannedCost(cfg, u.steps)), cfg, recovery);
  }

  /** Such a caller never uses more than the token limit and one prompt, whichever of the two
      views it looked at before each call. */
  lemma {:induction false} OvershootBound(cfg: Settings, us: seq<Usage>, bound: nat, views: seq<bool>)
    requires us != [] && |views| == |us|
    requires forall n :: 0 <= n < |us| ==> Disciplined(Saved(cfg, us[..n]), cfg, us[n], bound, views[n])
    ensures Saved(cfg, us).Some?
    ensures Saved(cfg, us).value.usedInput + Saved(cfg, us).value.usedOutput <= Saved(cfg, us).value.maxTokens + bound
  {
    var n := |us| - 1;
    if n > 0 {
      LedgerIsPlainSum(cfg, us[..n]);
      SumsOrdered(cfg, us[..n]);
    }
    DisciplinedCall(Saved(cfg, us[..n]), cfg, us[n], bound, views[n]);
  }
}
