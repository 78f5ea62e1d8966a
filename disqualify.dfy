/** Hard filters that reject a backtest result before any costlier
    validation: enough trades overall and per year, a bounded drawdown, a
    profit factor above break-even and a plausible win rate. */
module Disqualify {
  import opened Wrappers

  datatype Rules = Rules(
    minTrades: int,
    minTradesPerYear: real,
    maxDrawdown: real,
    minProfitFactor: real,
    minWinRate: real,
    maxWinRate: real)

  const DefaultRules := Rules(30, 6.0, 25.0, 1.05, 0.35, 0.85)

  /** The metrics of one backtest result; a metric the result lacks is read
      as zero. */
  datatype Summary = Summary(
    totalTrades: Option<int>,
    maxDrawdown: Option<real>,
    profitFactor: Option<real>,
    winRate: Option<real>)

  /** Why a result was rejected, with the offending value and its limit. */
  datatype Reason =
    | TooFewTrades(trades: int, limit: int)
    | TooFewTradesPerYear(perYear: real, limitPerYear: real)
    | DrawdownTooHigh(drawdown: real, maxAllowed: real)
    | ProfitFactorTooLow(factor: real, minFactor: real)
    | WinRateTooLow(rate: real, minRate: real)
    | WinRateTooHigh(rate: real, maxRate: real)

  datatype Verdict = Verdict(passes: bool, reason: Option<Reason>)

  /** The rules in force: the supplied ones, or the defaults when none (or
      an empty set) are supplied. */
  function RulesInForce(rules: Option<Rules>): (r: Rules)
    ensures rules.Some? ==> r == rules.value
    ensures rules.None? ==> r == DefaultRules
  {
    rules.GetOr(DefaultRules)
  }

  /** The per-year check applies only to a known, positive number of years. */
  function TradesPerYear(trades: int, years: Option<real>): Option<real>
  {
    if years.Some? && years.value > 0.0 then Some(trades as real / years.value) else None
  }

  /** Applies the checks in their fixed order and reports the first one a
      result fails. */
  function PassesDisqualification(result: Summary, years: Option<real>, rules: Option<Rules>): (v: Verdict)
    ensures v.passes <==> v.reason.None?
    ensures v.passes <==> AllPass(result, years, RulesInForce(rules))
    ensures !v.passes ==> Violated(v.reason.value, result, years, RulesInForce(rules))
    ensures !v.passes ==> forall k :: 0 <= k < Rank(v.reason.value) ==> !Fails(k, result, years, RulesInForce(rules))
  {
    var r := RulesInForce(rules);
    var trades := result.totalTrades.GetOr(0);
    var perYear := TradesPerYear(trades, years);
    var drawdown := result.maxDrawdown.GetOr(0.0);
    var factor := result.profitFactor.GetOr(0.0);
    var rate := result.winRate.GetOr(0.0);
    if trades < r.minTrades then
      Verdict(false, Some(TooFewTrades(trades, r.minTrades)))
    else if perYear.Some? && perYear.value < r.minTradesPerYear then
      Verdict(false, Some(TooFewTradesPerYear(perYear.value, r.minTradesPerYear)))
    else if drawdown > r.maxDrawdown then
      Verdict(false, Some(DrawdownTooHigh(drawdown, r.maxDrawdown)))
    else if factor < r.minProfitFactor then
      Verdict(false, Some(ProfitFactorTooLow(factor, r.minProfitFactor)))
    else if rate < r.minWinRate then
      Verdict(false, Some(WinRateTooLow(rate, r.minWinRate)))
    else if rate > r.maxWinRate then
      Verdict(false, Some(WinRateTooHigh(rate, r.maxWinRate)))
    else
      Verdict(true, None)
  }

  /** The position of each check in the fixed order the checks run in. */
  function Rank(reason: Reason): (k: nat)
    ensures k < 6
  {
    match reason
    case TooFewTrades(_, _) => 0
    case TooFewTradesPerYear(_, _) => 1
    case DrawdownTooHigh(_, _) => 2
    case ProfitFactorTooLow(_, _) => 3
    case WinRateTooLow(_, _) => 4
    case WinRateTooHigh(_, _) => 5
  }

  /** The result fails the check at position `k` of the fixed order. */
  predicate Fails(k: nat, result: Summary, years: Option<real>, r: Rules)
  {
    var trades := result.totalTrades.GetOr(0);
    var rate := result.winRate.GetOr(0.0);
    match k
    case 0 => trades < r.minTrades
    case 1 => years.Some? && years.value > 0.0 && trades as real / years.value < r.minTradesPerYear
    case 2 => result.maxDrawdown.GetOr(0.0) > r.maxDrawdown
    case 3 => result.profitFactor.GetOr(0.0) < r.minProfitFactor
    case 4 => rate < r.minWinRate
    case 5 => rate > r.maxWinRate
    case _ => false
  }

  /** A result passes when it meets every rule at once. */
  predicate AllPass(result: Summary, years: Option<real>, r: Rules)
  {
    var trades := result.totalTrades.GetOr(0);
    && trades >= r.minTrades
    && (years.Some? && years.value > 0.0 ==> trades as real / years.value >= r.minTradesPerYear)
    && result.maxDrawdown.GetOr(0.0) <= r.maxDrawdown
    && result.profitFactor.GetOr(0.0) >= r.minProfitFactor
    && r.minWinRate <= result.winRate.GetOr(0.0) <= r.maxWinRate
  }

  /** The reason names a rule the result really breaks, with the result's own
      value and the rule's limit. */
  predicate Violated(reason: Reason, result: Summary, years: Option<real>, r: Rules)
  {
    var trades := result.totalTrades.GetOr(0);
    match reason
    case TooFewTrades(t, limit) => t == trades && limit == r.minTrades && t < limit
    case TooFewTradesPerYear(p, limit) =>
      years.Some? && years.value > 0.0 && p == trades as real / years.value
      && limit == r.minTradesPerYear && p < limit
    case DrawdownTooHigh(d, limit) => d == result.maxDrawdown.GetOr(0.0) && limit == r.maxDrawdown && d > limit
    case ProfitFactorTooLow(f, limit) => f == result.profitFactor.GetOr(0.0) && limit == r.minProfitFactor && f < limit
    case WinRateTooLow(w, limit) => w == result.winRate.GetOr(0.0) && limit == r.minWinRate && w < limit
    case WinRateTooHigh(w, limit) => w == result.winRate.GetOr(0.0) && limit == r.maxWinRate && w > limit
  }

  /** The reported reason is the first failing check: any failing check
      makes the result fail, with a reason no later than that check and
      itself failing. */
  lemma FirstFailingReported(result: Summary, years: Option<real>, rules: Option<Rules>, k: nat)
    requires Fails(k, result, years, RulesInForce(rules))
    ensures var v := PassesDisqualification(result, years, rules);
      && !v.passes
      && Rank(v.reason.value) <= k
      && Fails(Rank(v.reason.value), result, years, RulesInForce(rules))
  {
  }

  /** The trade-count rule is checked first: too few trades is reported as
      such whatever else is wrong with the result. */
  lemma TradeCountFirst(result: Summary, years: Option<real>, rules: Option<Rules>)
    requires result.totalTrades.GetOr(0) < RulesInForce(rules).minTrades
    ensures PassesDisqualification(result, years, rules).reason
      == Some(TooFewTrades(result.totalTrades.GetOr(0), RulesInForce(rules).minTrades))
  {
  }

  /** The limits are inclusive: a result exactly on the drawdown limit is
      not rejected for its drawdown, nor one exactly on a win-rate bound for
      its win rate. */
  lemma LimitsInclusive(result: Summary, years: Option<real>, rules: Option<Rules>)
    requires RulesInForce(rules).minWinRate <= RulesInForce(rules).maxWinRate
    requires result.maxDrawdown.GetOr(0.0) == RulesInForce(rules).maxDrawdown
    requires result.winRate.GetOr(0.0) == RulesInForce(rules).minWinRate
          || result.winRate.GetOr(0.0) == RulesInForce(rules).maxWinRate
    ensures var v := PassesDisqualification(result, years, rules);
      v.reason.Some? ==> !v.reason.value.DrawdownTooHigh? && !v.reason.value.WinRateTooLow?
                         && !v.reason.value.WinRateTooHigh?
  {
  }

  /** A metric the result lacks is judged exactly as a zero would be. */
  lemma MissingReadsAsZero(result: Summary, years: Option<real>, rules: Option<Rules>)
    ensures PassesDisqualification(result, years, rules)
      == PassesDisqualification(Summary(Some(result.totalTrades.GetOr(0)), Some(result.maxDrawdown.GetOr(0.0)),
                                        Some(result.profitFactor.GetOr(0.0)), Some(result.winRate.GetOr(0.0))),
                                years, rules)
  {
  }

  /** Without a known, positive number of years the per-year rule never
      applies: the verdict is the one given with no years at all. */
  lemma PerYearNeedsYears(result: Summary, years: Option<real>, rules: Option<Rules>)
    requires years.None? || years.value <= 0.0
    ensures PassesDisqualification(result, years, rules) == PassesDisqualification(result, None, rules)
    ensures var v := PassesDisqualification(result, years, rules);
      v.reason.Some? ==> !v.reason.value.TooFewTradesPerYear?
  {
  }

  /** Loosening every limit never turns a passing result into a failing one. */
  lemma LooserRulesKeepPassing(result: Summary, years: Option<real>, strict: Rules, loose: Rules)
    requires loose.minTrades <= strict.minTrades && loose.minTradesPerYear <= strict.minTradesPerYear
    requires loose.maxDrawdown >= strict.maxDrawdown && loose.minProfitFactor <= strict.minProfitFactor
    requires loose.minWinRate <= strict.minWinRate && loose.maxWinRate >= strict.maxWinRate
    requires PassesDisqualification(result, years, Some(strict)).passes
    ensures PassesDisqualification(result, years, Some(loose)).passes
  {
  }
}
