/** The event-driven backtest: for every bar it marks the broker to the close,
    lets the strategy place its orders, sets the next-open execution override
    and records mark-to-market equity; afterwards it derives the performance
    metrics from the broker's realised trades. The strategy is represented by
    the orders it places on each bar. */
module Backtesting {
  import opened Wrappers
  import opened Numeric
  import opened PaperTrading

  /** One row of price data: its epoch second, its calendar day, and OHLC. */
  datatype Bar = Bar(stamp: int, day: string, open: real, high: real, low: real, close: real)

  /** A chart time: a `YYYY-MM-DD` day for daily data, epoch seconds otherwise. */
  datatype Time = Day(text: string) | Seconds(secs: int)

  datatype EquityPoint = EquityPoint(time: Time, equity: real)

  datatype Candle = Candle(time: Time, open: real, high: real, low: real, close: real)

  datatype Results = Results(
    initialCapital: real, finalEquity: real, totalTrades: nat, returnPct: real,
    winRate: real, avgWin: real, avgLoss: real, profitFactor: real, maxDrawdown: real,
    equityCurve: seq<EquityPoint>, orders: seq<OrderRecord>, tradeHistory: seq<TradeRecord>,
    chartData: seq<Candle>)

  /** The broker state the backtest loop drives. */
  datatype BrokerState = BrokerState(ledger: Ledger, prices: map<string, real>, overridePrice: Option<real>)

  /** Everything a run depends on: the data, the strategy's orders per bar and
      the settings. */
  datatype Config = Config(
    rows: seq<Bar>, script: seq<seq<OrderRequest>>, symbol: string, spread: real,
    account: string, delay: int, interval: string, initialCapital: real)

  const DefaultSymbol: string := "Unknown"
  const DailyInterval: string := "1d"

  function TimeOf(bar: Bar, interval: string): (t: Time)
    ensures t.Day? <==> interval == DailyInterval
  {
    if interval == DailyInterval then Day(bar.day) else Seconds(bar.stamp)
  }

  function CandleOf(bar: Bar, interval: string): Candle
  {
    Candle(TimeOf(bar, interval), bar.open, bar.high, bar.low, bar.close)
  }

  /** The spread a run uses: the one given to the backtester unless that is
      zero, else the `spread` parameter, else zero. */
  function EffectiveSpread(configured: real, parameter: Option<real>): (r: real)
    ensures configured != 0.0 ==> r == configured
    ensures configured == 0.0 && parameter.None? ==> r == 0.0
    ensures configured == 0.0 && parameter.Some? ==> r == parameter.value
  {
    if configured != 0.0 then configured else parameter.GetOr(0.0)
  }

  /** The execution override set after bar `i`: the open `delay` bars ahead
      when that bar exists; never anything with no delay. */
  function OverrideFor(rows: seq<Bar>, i: nat, delay: int): (r: Option<real>)
    ensures r.Some? ==> delay > 0 && i + delay < |rows| && r.value == rows[i + delay].open
    ensures delay > 0 && i + delay < |rows| ==> r.Some?
  {
    if delay > 0 && i + delay < |rows| then Some(rows[i + delay].open) else None
  }

  /** The orders the strategy places on bar `i` (none past the script's end). */
  function ScriptAt(script: seq<seq<OrderRequest>>, i: nat): seq<OrderRequest>
  {
    if i < |script| then script[i] else []
  }

  function StateOf(p: PaperTrader): BrokerState
    reads p
  {
    BrokerState(p.Snapshot(), p.currentPrices, p.overridePrice)
  }

  ghost function EquityOfState(b: BrokerState, account: string): real
  {
    EquityOf(b.ledger.cash, b.ledger.positions, b.prices, account)
  }

  /** The broker after placing `orders` one by one, each capped by the equity
      at the moment it is placed. */
  ghost function PlaceAll(b: BrokerState, spread: real, account: string, orders: seq<OrderRequest>): BrokerState
    decreases |orders|
  {
    if orders == [] then b
    else
      var prev := PlaceAll(b, spread, account, orders[..|orders| - 1]);
      var step := ApplyOrder(prev.ledger, EquityOfState(prev, account), prev.prices, prev.overridePrice,
                             spread, account, orders[|orders| - 1]);
      prev.(ledger := step.1)
  }

  /** One iteration of the run loop on bar `i`: mark to the close, place the
      bar's orders, set the override for the next bar, record equity. */
  ghost function StepBar(c: Config, b: BrokerState, i: nat): (BrokerState, EquityPoint)
    requires i < |c.rows|
  {
    var marked := b.(prices := b.prices[c.symbol := c.rows[i].close]);
    var traded := PlaceAll(marked, c.spread, c.account, ScriptAt(c.script, i));
    var next := traded.(overridePrice := OverrideFor(c.rows, i, c.delay));
    (next, EquityPoint(TimeOf(c.rows[i], c.interval), EquityOfState(next, c.account)))
  }

  function InitialState(initialCapital: real): BrokerState
  {
    BrokerState(Ledger(initialCapital, map[], [], []), map[], None)
  }

  /** The broker and the equity points after the first `n` bars. */
  ghost function Simulate(c: Config, n: nat): (BrokerState, seq<EquityPoint>)
    requires n <= |c.rows|
  {
    if n == 0 then (InitialState(c.initialCapital), [])
    else
      var prev := Simulate(c, n - 1);
      var step := StepBar(c, prev.0, n - 1);
      (step.0, prev.1 + [step.1])
  }

  /** One equity point per bar, in bar order, each stamped with its bar's time. */
  lemma {:induction false} OnePointPerBar(c: Config, n: nat)
    requires n <= |c.rows|
    ensures |Simulate(c, n).1| == n
    ensures forall i :: 0 <= i < n ==> Simulate(c, n).1[i].time == TimeOf(c.rows[i], c.interval)
  {
    if n > 0 {
      OnePointPerBar(c, n - 1);
    }
  }

  /** After bar n-1 the broker is marked at that bar's close and carries that
      bar's override. */
  lemma {:induction false} MarkedAndOverridden(c: Config, n: nat)
    requires 0 < n <= |c.rows|
    ensures c.symbol in Simulate(c, n).0.prices && Simulate(c, n).0.prices[c.symbol] == c.rows[n - 1].close
    ensures Simulate(c, n).0.overridePrice == OverrideFor(c.rows, n - 1, c.delay)
    ensures Simulate(c, n).0.prices.Keys == Simulate(c, n - 1).0.prices.Keys + {c.symbol}
  {
    var prev := Simulate(c, n - 1).0;
    var marked := prev.(prices := prev.prices[c.symbol := c.rows[n - 1].close]);
    PlaceAllKeepsMarket(marked, c.spread, c.account, ScriptAt(c.script, n - 1));
  }

  /** Placing orders never changes the marks or the override. */
  lemma {:induction false} PlaceAllKeepsMarket(b: BrokerState, spread: real, account: string,
                                               orders: seq<OrderRequest>)
    ensures PlaceAll(b, spread, account, orders).prices == b.prices
    ensures PlaceAll(b, spread, account, orders).overridePrice == b.overridePrice
    decreases |orders|
  {
    if orders != [] {
      PlaceAllKeepsMarket(b, spread, account, orders[..|orders| - 1]);
    }
  }

  /** A strategy that never trades leaves cash at the initial capital and
      every recorded equity equal to it. */
  lemma {:induction false} IdleRunKeepsCapital(c: Config, n: nat)
    requires n <= |c.rows|
    requires forall i :: 0 <= i < |c.script| ==> c.script[i] == []
    ensures Simulate(c, n).0.ledger == Ledger(c.initialCapital, map[], [], [])
    ensures forall i :: 0 <= i < |Simulate(c, n).1| ==> Simulate(c, n).1[i].equity == c.initialCapital
  {
    if n > 0 {
      IdleRunKeepsCapital(c, n - 1);
      assert ScriptAt(c.script, n - 1) == [];
      var b := Simulate(c, n).0;
      EquityFlat(c.initialCapital, b.prices, c.account);
    }
  }

  /** Realised profit and loss of each trade, in order. */
  function PnlsOf(trades: seq<TradeRecord>): (r: seq<real>)
    ensures |r| == |trades|
    ensures forall i :: 0 <= i < |trades| ==> r[i] == trades[i].pnl
  {
    if trades == [] then [] else PnlsOf(trades[..|trades| - 1]) + [trades[|trades| - 1].pnl]
  }

  function ReturnPct(finalEquity: real, initialCapital: real): real
    requires initialCapital != 0.0
  {
    (finalEquity - initialCapital) / initialCapital * 100.0
  }

  /** Fraction (not percent) of trades that made money; zero with no trades. */
  function WinRate(pnls: seq<real>): real
  {
    if pnls == [] then 0.0 else |Positives(pnls)| as real / |pnls| as real
  }

  function MeanOrZero(s: seq<real>): real
  {
    if s == [] then 0.0 else Sum(s) / |s| as real
  }

  /** |gross profit / gross loss|, or zero when there is no loss to divide by. */
  function ProfitFactor(pnls: seq<real>): real
  {
    var wins := Positives(pnls);
    var losses := NonPositives(pnls);
    if losses != [] && Sum(losses) != 0.0 then Abs(Sum(wins) / Sum(losses)) else 0.0
  }

  /** Closed-trade equity after the trades in `pnls`. */
  function ClosedEquity(initialCapital: real, pnls: seq<real>): real
  {
    initialCapital + Sum(pnls)
  }

  /** The running peak of closed-trade equity, starting at the initial capital. */
  function Peak(initialCapital: real, pnls: seq<real>): real
  {
    if pnls == [] then initialCapital
    else Max(Peak(initialCapital, pnls[..|pnls| - 1]), ClosedEquity(initialCapital, pnls))
  }

  /** The largest fractional fall from the running peak over the trades. */
  function MaxDrawdown(initialCapital: real, pnls: seq<real>): real
    requires initialCapital > 0.0
  {
    if pnls == [] then 0.0
    else
      PeakAtLeast(initialCapital, pnls);
      var peak := Peak(initialCapital, pnls);
      Max(MaxDrawdown(initialCapital, pnls[..|pnls| - 1]), (peak - ClosedEquity(initialCapital, pnls)) / peak)
  }

  /** The peak is never below the initial capital nor below any closed equity
      reached so far. */
  lemma {:induction false} PeakAtLeast(initialCapital: real, pnls: seq<real>)
    ensures Peak(initialCapital, pnls) >= initialCapital
    ensures forall k :: 0 <= k <= |pnls| ==> Peak(initialCapital, pnls) >= ClosedEquity(initialCapital, pnls[..k])
  {
    if pnls != [] {
      var init := pnls[..|pnls| - 1];
      PeakAtLeast(initialCapital, init);
      forall k | 0 <= k <= |pnls|
        ensures Peak(initialCapital, pnls) >= ClosedEquity(initialCapital, pnls[..k])
      {
        if k < |pnls| {
          assert pnls[..k] == init[..k];
        } else {
          assert pnls[..k] == pnls;
        }
      }
    }
  }

  /** The drawdown is never negative and never shrinks as trades are added. */
  lemma {:induction false} DrawdownMonotone(initialCapital: real, pnls: seq<real>, k: nat)
    requires initialCapital > 0.0 && k <= |pnls|
    ensures 0.0 <= MaxDrawdown(initialCapital, pnls[..k]) <= MaxDrawdown(initialCapital, pnls)
    decreases |pnls|
  {
    if k == |pnls| {
      assert pnls[..k] == pnls;
      if pnls != [] {
        DrawdownMonotone(initialCapital, pnls[..|pnls| - 1], |pnls| - 1);
        assert pnls[..|pnls| - 1][..|pnls| - 1] == pnls[..|pnls| - 1];
      }
    } else {
      var init := pnls[..|pnls| - 1];
      DrawdownMonotone(initialCapital, init, k);
      assert init[..k] == pnls[..k];
    }
  }

  /** With no losing trade there is no drawdown. */
  lemma {:induction false} NoLossNoDrawdown(initialCapital: real, pnls: seq<real>)
    requires initialCapital > 0.0
    requires forall i :: 0 <= i < |pnls| ==> pnls[i] >= 0.0
    ensures MaxDrawdown(initialCapital, pnls) == 0.0
    ensures Peak(initialCapital, pnls) == ClosedEquity(initialCapital, pnls)
  {
    if pnls != [] {
      var init := pnls[..|pnls| - 1];
      NoLossNoDrawdown(initialCapital, init);
      assert init + [pnls[|pnls| - 1]] == pnls;
      SumSnoc(init, pnls[|pnls| - 1]);
      PeakAtLeast(initialCapital, pnls);
      var peak := Peak(initialCapital, pnls);
      assert peak == ClosedEquity(initialCapital, pnls);
      assert (peak - ClosedEquity(initialCapital, pnls)) / peak == 0.0;
    }
  }

  /** Winning (pnl > 0) and losing (pnl <= 0) trades partition the trades, so
      the win rate is a fraction between 0 and 1 and scales back to the
      number of winners. */
  lemma {:induction false} WinRateMeaning(pnls: seq<real>)
    ensures 0.0 <= WinRate(pnls) <= 1.0
    ensures |Positives(pnls)| + |NonPositives(pnls)| == |pnls|
    ensures pnls != [] ==> WinRate(pnls) * |pnls| as real == |Positives(pnls)| as real
  {
    PartitionCount(pnls);
    if pnls != [] {
      var k := |Positives(pnls)|;
      FractionOfCount(k, |pnls|);
    }
  }

  lemma FractionOfCount(k: nat, n: nat)
    requires k <= n && n > 0
    ensures 0.0 <= k as real / n as real <= 1.0
    ensures k as real / n as real * n as real == k as real
  {
    Fraction(k as real, n as real);
  }

  /** The average win is positive when there are wins, the average loss is
      never positive, and both are zero when there is nothing to average. */
  lemma {:induction false} AverageSigns(pnls: seq<real>)
    ensures Positives(pnls) == [] ==> MeanOrZero(Positives(pnls)) == 0.0
    ensures Positives(pnls) != [] ==> MeanOrZero(Positives(pnls)) > 0.0
    ensures MeanOrZero(NonPositives(pnls)) <= 0.0
  {
    var wins := Positives(pnls);
    if wins != [] {
      SumPositiveWhenNonEmpty(wins);
      DivPositive(Sum(wins), |wins| as real);
      assert MeanOrZero(wins) == Sum(wins) / |wins| as real;
    }
    var losses := NonPositives(pnls);
    if losses != [] {
      SumNonPositivesNonPositive(pnls);
      DivMonotone(Sum(losses), 0.0, |losses| as real);
      assert MeanOrZero(losses) == Sum(losses) / |losses| as real;
    }
  }

  lemma {:induction false} SumPositiveWhenNonEmpty(s: seq<real>)
    requires s != [] && forall i :: 0 <= i < |s| ==> s[i] > 0.0
    ensures Sum(s) > 0.0
  {
    if |s| > 1 {
      SumPositiveWhenNonEmpty(s[..|s| - 1]);
    }
  }

  /** The profit factor is non-negative, zero when there is no loss to divide
      by, and otherwise exceeds one exactly when gross profit exceeds gross
      loss. */
  lemma {:induction false} ProfitFactorMeaning(pnls: seq<real>)
    ensures ProfitFactor(pnls) >= 0.0
    ensures NonPositives(pnls) == [] ==> ProfitFactor(pnls) == 0.0
    ensures Sum(NonPositives(pnls)) == 0.0 ==> ProfitFactor(pnls) == 0.0
    ensures Sum(NonPositives(pnls)) != 0.0 ==>
      ProfitFactor(pnls) == Sum(Positives(pnls)) / -Sum(NonPositives(pnls))
    ensures Sum(NonPositives(pnls)) != 0.0 ==>
      (ProfitFactor(pnls) > 1.0 <==> Sum(Positives(pnls)) > -Sum(NonPositives(pnls)))
  {
    var w := Sum(Positives(pnls));
    var l := Sum(NonPositives(pnls));
    SumPositivesNonNegative(pnls);
    SumNonPositivesNonPositive(pnls);
    if NonPositives(pnls) != [] && l != 0.0 {
      assert ProfitFactor(pnls) == Abs(w / l);
      RatioIsGrossOverLoss(w, l);
      RatioAgainstLoss(w, l);
    }
  }

  /** For gross profit w >= 0 and gross loss l < 0, |w / l| is w over the
      size of the loss. */
  lemma RatioIsGrossOverLoss(w: real, l: real)
    requires w >= 0.0 && l < 0.0
    ensures Abs(w / l) == w / -l
  {
    var q := w / -l;
    assert q * -l == w;
    assert q >= 0.0;
    assert w / l == -q;
  }

  /** For gross profit w >= 0 and gross loss l < 0, |w / l| exceeds one
      exactly when w exceeds -l. */
  lemma RatioAgainstLoss(w: real, l: real)
    requires w >= 0.0 && l < 0.0
    ensures Abs(w / l) > 1.0 <==> w > -l
  {
    var loss := -l;
    NegDiv(w, loss);
    assert w / l == -(w / loss);
    var r := w / loss;
    assert r * loss == w;
    if w > loss {
      assert r * loss > 1.0 * loss;
    } else {
      assert r * loss <= 1.0 * loss;
    }
  }

  /** A run gains exactly when its final equity exceeds the capital. */
  lemma ReturnSign(finalEquity: real, initialCapital: real)
    requires initialCapital > 0.0
    ensures ReturnPct(finalEquity, initialCapital) > 0.0 <==> finalEquity > initialCapital
    ensures ReturnPct(finalEquity, initialCapital) == 0.0 <==> finalEquity == initialCapital
  {
    var d := finalEquity - initialCapital;
    if d > 0.0 {
      DivMonotone(0.0, d, initialCapital);
      assert d / initialCapital != 0.0;
    } else if d < 0.0 {
      DivMonotone(d, 0.0, initialCapital);
      assert d / initialCapital != 0.0;
    }
  }

  /** Places the strategy's orders for one bar on the broker, in order. */
  method Submit(broker: PaperTrader, orders: seq<OrderRequest>)
    requires broker.Valid()
    modifies broker
    ensures broker.Valid()
    ensures StateOf(broker) == PlaceAll(old(StateOf(broker)), broker.spread, broker.accountCurrency, orders)
    ensures broker.spread == old(broker.spread) && broker.accountCurrency == old(broker.accountCurrency)
    ensures broker.initialCapital == old(broker.initialCapital)
  {
    var k := 0;
    while k < |orders|
      invariant 0 <= k <= |orders|
      invariant broker.Valid()
      invariant StateOf(broker) == PlaceAll(old(StateOf(broker)), broker.spread, broker.accountCurrency, orders[..k])
      invariant broker.spread == old(broker.spread) && broker.accountCurrency == old(broker.accountCurrency)
      invariant broker.initialCapital == old(broker.initialCapital)
    {
      assert orders[..k + 1][..k] == orders[..k];
      var _ := broker.PlaceOrder(orders[k]);
      k := k + 1;
    }
    assert orders[..k] == orders;
  }

  /** The candles for the chart, one per bar in order. */
  method ChartData(rows: seq<Bar>, interval: string) returns (chart: seq<Candle>)
    ensures |chart| == |rows|
    ensures forall i :: 0 <= i < |rows| ==> chart[i] == CandleOf(rows[i], interval)
  {
    chart := [];
    for i := 0 to |rows|
      invariant |chart| == i
      invariant forall j :: 0 <= j < i ==> chart[j] == CandleOf(rows[j], interval)
    {
      chart := chart + [CandleOf(rows[i], interval)];
    }
  }

  /** Collects the realised profit of every trade. */
  method CollectPnls(trades: seq<TradeRecord>) returns (pnls: seq<real>)
    ensures pnls == PnlsOf(trades)
  {
    pnls := [];
    for i := 0 to |trades|
      invariant pnls == PnlsOf(trades[..i])
    {
      assert trades[..i + 1][..i] == trades[..i];
      pnls := pnls + [trades[i].pnl];
    }
    assert trades[..|trades|] == trades;
  }

  /** Scans the closed-trade equity curve with a running peak and returns the
      maximum drawdown in percent. */
  method ClosedTradeDrawdown(initialCapital: real, pnls: seq<real>) returns (maxDrawdownPct: real)
    requires initialCapital > 0.0
    ensures maxDrawdownPct == MaxDrawdown(initialCapital, pnls) * 100.0
    ensures maxDrawdownPct >= 0.0
  {
    var currentEquity := initialCapital;
    var peakEquity := initialCapital;
    var maxDrawdown := 0.0;
    for i := 0 to |pnls|
      invariant currentEquity == ClosedEquity(initialCapital, pnls[..i])
      invariant peakEquity == Peak(initialCapital, pnls[..i])
      invariant maxDrawdown == MaxDrawdown(initialCapital, pnls[..i])
    {
      var prefix := pnls[..i + 1];
      assert prefix[..i] == pnls[..i];
      SumSnoc(pnls[..i], pnls[i]);
      assert pnls[..i] + [pnls[i]] == prefix;
      PeakAtLeast(initialCapital, prefix);
      currentEquity := currentEquity + pnls[i];
      if currentEquity > peakEquity {
        peakEquity := currentEquity;
      }
      var drawdown := (peakEquity - currentEquity) / peakEquity;
      if drawdown > maxDrawdown {
        maxDrawdown := drawdown;
      }
    }
    assert pnls[..|pnls|] == pnls;
    DrawdownMonotone(initialCapital, pnls, 0);
    maxDrawdownPct := maxDrawdown * 100.0;
  }

  class Backtester {
    const rows: seq<Bar>
    const symbol: string
    const parameterSpread: Option<real>
    const initialCapital: real
    const spread: real
    const executionDelay: int
    const interval: string
    var broker: PaperTrader
    var equityHistory: seq<EquityPoint>
    var results: Option<Results>

    /** `symbol` and `parameterSpread` are the `symbol` and `spread` entries
        of the strategy parameters, when present. */
    constructor (rows: seq<Bar>, symbol: Option<string>, parameterSpread: Option<real>,
                 initialCapital: real, spread: real, executionDelay: int, interval: string)
      ensures this.rows == rows && this.symbol == symbol.GetOr(DefaultSymbol)
      ensures this.parameterSpread == parameterSpread && this.initialCapital == initialCapital
      ensures this.spread == spread && this.executionDelay == executionDelay && this.interval == interval
      ensures fresh(broker) && broker.Valid() && StateOf(broker) == InitialState(initialCapital)
      ensures equityHistory == [] && results == None
    {
      this.rows := rows;
      this.symbol := symbol.GetOr(DefaultSymbol);
      this.parameterSpread := parameterSpread;
      this.initialCapital := initialCapital;
      this.spread := spread;
      this.executionDelay := executionDelay;
      this.interval := interval;
      broker := new PaperTrader(initialCapital, spread, "USD");
      equityHistory := [];
      results := None;
    }

    /** The configuration of a run with the given strategy orders. */
    function ConfigFor(script: seq<seq<OrderRequest>>): Config
      reads this
    {
      Config(rows, script, symbol, EffectiveSpread(spread, parameterSpread), "USD", executionDelay,
             interval, initialCapital)
    }

    /** Runs the simulation on a fresh broker, bar by bar, appending one
        equity point per bar to the history, then computes the results. */
    method Run(script: seq<seq<OrderRequest>>) returns (res: Results)
      requires initialCapital > 0.0
      modifies this
      ensures fresh(broker) && broker.Valid()
      ensures StateOf(broker) == Simulate(ConfigFor(script), |rows|).0
      ensures equityHistory == old(equityHistory) + Simulate(ConfigFor(script), |rows|).1
      ensures results == Some(res)
      ensures res.equityCurve == equityHistory
      ensures res.finalEquity == EquityOfState(StateOf(broker), "USD")
      ensures res.tradeHistory == broker.tradeHistory && res.orders == broker.orders
      ensures res.initialCapital == initialCapital && res.totalTrades == |broker.tradeHistory|
      ensures res.returnPct == ReturnPct(res.finalEquity, initialCapital)
      ensures var pnls := PnlsOf(broker.tradeHistory);
        && res.winRate == WinRate(pnls)
        && res.avgWin == MeanOrZero(Positives(pnls))
        && res.avgLoss == MeanOrZero(NonPositives(pnls))
        && res.profitFactor == ProfitFactor(pnls)
        && res.maxDrawdown == MaxDrawdown(initialCapital, pnls) * 100.0
      ensures |res.chartData| == |rows|
      ensures forall i :: 0 <= i < |rows| ==> res.chartData[i] == CandleOf(rows[i], interval)
    {
      var c := ConfigFor(script);
      var b := new PaperTrader(initialCapital, c.spread, "USD");
      broker := b;
      for i := 0 to |rows|
        invariant broker == b && fresh(b) && b.Valid()
        invariant b.spread == c.spread && b.accountCurrency == "USD" && b.initialCapital == initialCapital
        invariant c == ConfigFor(script)
        invariant StateOf(b) == Simulate(c, i).0
        invariant equityHistory == old(equityHistory) + Simulate(c, i).1
      {
        b.UpdatePrice(symbol, rows[i].close);
        Submit(b, ScriptAt(script, i));
        b.SetExecutionOverride(OverrideFor(rows, i, executionDelay));
        var equity := b.GetEquity();
        equityHistory := equityHistory + [EquityPoint(TimeOf(rows[i], interval), equity)];
      }
      res := CalculateResults();
      results := Some(res);
    }

    /** The performance summary of the broker's current state. */
    method CalculateResults() returns (r: Results)
      requires initialCapital > 0.0 && broker.Valid()
      ensures r.initialCapital == initialCapital
      ensures r.finalEquity == broker.Equity()
      ensures r.returnPct == ReturnPct(r.finalEquity, initialCapital)
      ensures r.totalTrades == |broker.tradeHistory| && r.tradeHistory == broker.tradeHistory
      ensures r.orders == broker.orders && r.equityCurve == equityHistory
      ensures var pnls := PnlsOf(broker.tradeHistory);
        && r.winRate == WinRate(pnls)
        && r.avgWin == MeanOrZero(Positives(pnls))
        && r.avgLoss == MeanOrZero(NonPositives(pnls))
        && r.profitFactor == ProfitFactor(pnls)
        && r.maxDrawdown == MaxDrawdown(initialCapital, pnls) * 100.0
      ensures |r.chartData| == |rows|
      ensures forall i :: 0 <= i < |rows| ==> r.chartData[i] == CandleOf(rows[i], interval)
    {
      var finalEquity := broker.GetEquity();
      var chart := ChartData(rows, interval);
      var pnls := CollectPnls(broker.tradeHistory);
      var wins := Positives(pnls);
      var losses := NonPositives(pnls);
      var maxDrawdownPct := ClosedTradeDrawdown(initialCapital, pnls);
      r := Results(initialCapital, finalEquity, |broker.tradeHistory|,
                   ReturnPct(finalEquity, initialCapital),
                   WinRate(pnls), MeanOrZero(wins), MeanOrZero(losses), ProfitFactor(pnls),
                   maxDrawdownPct, equityHistory, broker.orders, broker.tradeHistory, chart);
    }
  }
}
