/** What the ledger's amounts come to in money: prices per tier up to rounding, the planned limit, the reserve, and
    the limits of a loaded ledger. */
module Spending {
  import opened Wrappers
  import opened Budget

  /** `q` is `n / d` rounded to the nearest integer, to the even one on a tie. */
  predicate Nearest(q: int, n: int, d: int) {
    -d <= 2 * (q * d - n) <= d && (2 * (q * d - n) == d || 2 * (q * d - n) == -d ==> q % 2 == 0)
  }

  lemma RoundDivIsNearest(n: int, d: int)
    requires d > 0
    ensures Nearest(RoundDiv(n, d), n, d)
  {
    var q, r := n / d, n % d;
    assert n == q * d + r;
    assert (q + 1) * d == q * d + d;
  }

  function InputRate(cfg: Settings, tier: Tier): nat {
    if tier.Premium? then cfg.premium.input
    else if tier.Standard? then cfg.standard.input
    else if tier.Economy? then cfg.economy.input
    else 0
  }

  function OutputRate(cfg: Settings, tier: Tier): nat {
    if tier.Premium? then cfg.premium.output
    else if tier.Standard? then cfg.standard.output
    else if tier.Economy? then cfg.economy.output
    else 0
  }

  /** A thousand times the price before rounding; a negative number of tokens counts as none. */
  function Exact(cfg: Settings, tier: Tier, input: int, output: int): int {
    (if input > 0 then input else 0) * InputRate(cfg, tier) + (if output > 0 then output else 0) * OutputRate(cfg, tier)
  }

  /** A call costs its input at the input rate and its output at the output rate of its tier, per thousand tokens, to
      the nearest unit. */
  lemma CostIs(cfg: Settings, tier: Tier, input: int, output: int)
    ensures Nearest(EstimateCost(cfg, tier, input, output), Exact(cfg, tier, input, output), 1000)
  {
    RoundDivIsNearest(Exact(cfg, tier, input, output), 1000);
  }

  function SumExact(cfg: Settings, us: seq<Usage>, recoveryOnly: bool): int {
    if us == [] then 0
    else
      var u := us[|us| - 1];
      SumExact(cfg, us[..|us| - 1], recoveryOnly)
      + if recoveryOnly && !u.recovery then 0 else Exact(cfg, u.tier, u.input, u.output)
  }

  lemma {:induction false} SumsRounded(cfg: Settings, us: seq<Usage>, recoveryOnly: bool)
    ensures -500 * |us| <= 1000 * SumCost(cfg, us, recoveryOnly) - SumExact(cfg, us, recoveryOnly) <= 500 * |us|
  {
    if us != [] {
      SumsRounded(cfg, us[..|us| - 1], recoveryOnly);
      var u := us[|us| - 1];
      CostIs(cfg, u.tier, u.input, u.output);
    }
  }

  /** Over any history the persisted costs are the exact prices, up to half a unit for every call. */
  lemma LedgerCostIs(cfg: Settings, us: seq<Usage>)
    requires us != []
    ensures Saved(cfg, us).Some?
    ensures var c := Saved(cfg, us).value;
      && -500 * |us| <= 1000 * c.usedCost - SumExact(cfg, us, false) <= 500 * |us|
      && -500 * |us| <= 1000 * c.usedRecovery - SumExact(cfg, us, true) <= 500 * |us|
  {
    LedgerIsPlainSum(cfg, us);
    SumsRounded(cfg, us, false);
    SumsRounded(cfg, us, true);
  }

  /** The planned limit is the configured one, or the price of the budgeted steps if that is more. */
  lemma PlannedCostIs(cfg: Settings, steps: Option<nat>)
    ensures var c := PlannedCost(cfg, steps);
      && c >= cfg.maxRunCost
      && (steps.None? ==> c == cfg.maxRunCost)
      && (steps.Some? ==> c >= steps.value * cfg.stepCost && (c == cfg.maxRunCost || c == steps.value * cfg.stepCost))
  {
  }

  /** `part` is the configured fraction of the limit, to the nearest unit. */
  predicate PartOf(cfg: Settings, maxCost: int, part: int) {
    Nearest(part, maxCost * (if cfg.reserveFraction > 0 then cfg.reserveFraction else 0), 10000)
  }

  /** `r` is the reserve for a cost limit: the configured fraction of it, but no less than the configured minimum,
      and never negative. */
  ghost predicate ReserveFor(cfg: Settings, maxCost: int, r: int) {
    && r >= 0 && r >= cfg.reserveMin
    && exists part :: PartOf(cfg, maxCost, part) && part <= r && (r == part || r == cfg.reserveMin || r == 0)
  }

  lemma ReserveIs(cfg: Settings, maxCost: int)
    ensures ReserveFor(cfg, maxCost, Max(0, ConfiguredReserve(cfg, maxCost)))
  {
    var fraction := if cfg.reserveFraction > 0 then cfg.reserveFraction else 0;
    assert Max(0, cfg.reserveFraction) == fraction;
    RoundDivIsNearest(maxCost * fraction, 10000);
    assert PartOf(cfg, maxCost, RoundDiv(maxCost * fraction, 10000));
  }

  /** The first recorded call sets the limits and the reserve. */
  lemma FirstRecord(cfg: Settings, u: Usage)
    ensures var c := Recorded(None, cfg, u);
      && c.maxTokens == (if cfg.maxRunTokens > 0 then cfg.maxRunTokens else 0)
      && c.maxCost == (var planned := PlannedCost(cfg, u.steps); if planned > 0 then planned else 0)
      && ReserveFor(cfg, c.maxCost, c.reserve)
  {
    CostIsNonNegative(cfg, u.tier, u.input, u.output);
    var planned := PlannedCost(cfg, u.steps);
    ReserveIs(cfg, if planned > 0 then planned else 0);
  }

  /** A limit that was saved as zero counts as missing, a negative one as zero; a saved reserve is kept, a missing
      one is set. */
  lemma LoadedLimits(p: Counters, cfg: Settings)
    ensures var c := Loaded(p, cfg);
      && (p.maxTokens > 0 ==> c.maxTokens == p.maxTokens) && (p.maxTokens < 0 ==> c.maxTokens == 0)
      && (p.maxTokens == 0 ==> c.maxTokens == if cfg.maxRunTokens > 0 then cfg.maxRunTokens else 0)
      && (p.maxCost > 0 ==> c.maxCost == p.maxCost) && (p.maxCost < 0 ==> c.maxCost == 0)
      && (p.maxCost == 0 ==> c.maxCost == if cfg.maxRunCost > 0 then cfg.maxRunCost else 0)
      && (p.reserve > 0 ==> c.reserve == p.reserve) && (p.reserve < 0 ==> c.reserve == 0)
      && (p.reserve == 0 ==> ReserveFor(cfg, c.maxCost, c.reserve))
      && c.usedInput == (if p.usedInput > 0 then p.usedInput else 0)
      && c.usedOutput == (if p.usedOutput > 0 then p.usedOutput else 0)
      && c.usedCost == (if p.usedCost > 0 then p.usedCost else 0)
      && c.usedRecovery == (if p.usedRecovery > 0 then p.usedRecovery else 0)
  {
    ReserveIs(cfg, Loaded(p, cfg).maxCost);
  }
}
