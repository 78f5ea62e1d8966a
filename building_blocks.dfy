/** The composable strategy blocks the combination generator draws from:
    the zone-tracking StochRSI entry, the opposite-zone, fixed ATR and
    trailing ATR exits, and the fixed-percentage and ATR-risk sizers. The
    zone entry and the trailing stop keep their memory in the per-strategy
    state they are handed. */
module BuildingBlocks {
  import opened Wrappers
  import opened Numeric

  datatype Side = Long | Short

  /** The state a composable strategy hands to its blocks: the zone flags of
      the StochRSI entry, the ATR at entry and the best price since entry. */
  class BlockState {
    var inOversold: bool
    var inOverbought: bool
    var entryAtr: Option<real>
    var bestPrice: Option<real>

    constructor ()
      ensures !inOversold && !inOverbought && entryAtr.None? && bestPrice.None?
    {
      inOversold := false;
      inOverbought := false;
      entryAtr := None;
      bestPrice := None;
    }
  }

  /** The zone entry on one bar, from the flags before it: the signal, and
      the oversold and overbought flags after it. */
  function ZoneStep(inOversold: bool, inOverbought: bool, prevK: real, k: real, oversold: real, overbought: real)
    : (r: (Option<Side>, bool, bool))
    ensures r.0 == Some(Long) <==> k > 50.0 && (inOversold || prevK <= oversold)
    ensures r.0 == Some(Short) <==> k < 50.0 && (inOverbought || prevK >= overbought)
    ensures k > 50.0 ==> !r.1
    ensures k < 50.0 ==> !r.2
    ensures k <= 50.0 ==> r.1 == (inOversold || prevK <= oversold)
    ensures k >= 50.0 && r.0 != Some(Long) ==> r.2 == (inOverbought || prevK >= overbought)
    ensures r.0 == Some(Long) ==> r.2 == inOverbought
  {
    var os := inOversold || prevK <= oversold;
    if k > 50.0 && os then (Some(Long), false, inOverbought)
    else
      var os' := if k > 50.0 then false else os;
      var ob := inOverbought || prevK >= overbought;
      if k < 50.0 && ob then (Some(Short), os', false)
      else (None, os', if k < 50.0 then false else ob)
  }

  /** The StochRSI zone entry: a long once %K climbs above 50 after having
      been at or below the oversold level, a short once it falls below 50
      after having been at or above the overbought level. */
  method StochRsiCross(state: BlockState, prevK: real, k: real, oversold: real, overbought: real)
    returns (signal: Option<Side>)
    modifies state
    ensures (signal, state.inOversold, state.inOverbought)
      == ZoneStep(old(state.inOversold), old(state.inOverbought), prevK, k, oversold, overbought)
    ensures state.entryAtr == old(state.entryAtr) && state.bestPrice == old(state.bestPrice)
  {
    if prevK <= oversold {
      state.inOversold := true;
    }
    if k > 50.0 {
      if state.inOversold {
        state.inOversold := false;
        return Some(Long);
      }
      state.inOversold := false;
    }
    if prevK >= overbought {
      state.inOverbought := true;
    }
    if k < 50.0 {
      if state.inOverbought {
        state.inOverbought := false;
        return Some(Short);
      }
      state.inOverbought := false;
    }
    return None;
  }

  /** A dip into the oversold zone is remembered: once %K then closes above
      50 on a later bar, the entry goes long whatever %K did in between on
      that bar's predecessor. */
  lemma DipThenRecovery(inOversold: bool, inOverbought: bool, prevK1: real, k1: real, k2: real, prevK2: real,
                        oversold: real, overbought: real)
    requires prevK1 <= oversold && k1 <= 50.0 && k2 > 50.0
    ensures var s1 := ZoneStep(inOversold, inOverbought, prevK1, k1, oversold, overbought);
      ZoneStep(s1.1, s1.2, prevK2, k2, oversold, overbought).0 == Some(Long)
  {
    var s1 := ZoneStep(inOversold, inOverbought, prevK1, k1, oversold, overbought);
    assert s1.1;
  }

  /** Without a dip there is no long: a bar above 50 clears the memory, so
      the next bar above 50 goes long only on a fresh dip. */
  lemma NoDipNoLong(inOversold: bool, inOverbought: bool, prevK1: real, k1: real, k2: real, prevK2: real,
                    oversold: real, overbought: real)
    requires k1 > 50.0 && prevK2 > oversold
    ensures var s1 := ZoneStep(inOversold, inOverbought, prevK1, k1, oversold, overbought);
      ZoneStep(s1.1, s1.2, prevK2, k2, oversold, overbought).0 != Some(Long)
  {
    var s1 := ZoneStep(inOversold, inOverbought, prevK1, k1, oversold, overbought);
    assert !s1.1;
  }

  /** Exit when %K reaches the opposite zone of the position. */
  function OppositeZone(k: real, side: Side, oversold: real, overbought: real): (exit: bool)
    ensures side == Long ==> (exit <==> k > overbought)
    ensures side == Short ==> (exit <==> k < oversold)
  {
    match side
    case Long => k > overbought
    case Short => k < oversold
  }

  /** The stop distance: the ATR recorded at entry, else the bar's ATR,
      times the multiplier. */
  function StopDistance(entryAtr: Option<real>, rowAtr: real, multiplier: real): real
  {
    entryAtr.GetOr(rowAtr) * multiplier
  }

  /** A fixed stop at a multiple of the ATR from the entry price. */
  function AtrStop(entryAtr: Option<real>, rowAtr: real, multiplier: real, side: Side,
                   low: real, high: real, entryPrice: real): (exit: bool)
    ensures side == Long ==> (exit <==> low <= entryPrice - StopDistance(entryAtr, rowAtr, multiplier))
    ensures side == Short ==> (exit <==> high >= entryPrice + StopDistance(entryAtr, rowAtr, multiplier))
  {
    var stop := StopDistance(entryAtr, rowAtr, multiplier);
    match side
    case Long => low <= entryPrice - stop
    case Short => high >= entryPrice + stop
  }

  /** A wider stop (a larger multiple of a non-negative ATR) never exits
      where a tighter one would not. */
  lemma WiderStopExitsLess(entryAtr: Option<real>, rowAtr: real, tight: real, wide: real, side: Side,
                           low: real, high: real, entryPrice: real)
    requires entryAtr.GetOr(rowAtr) >= 0.0 && tight <= wide
    requires AtrStop(entryAtr, rowAtr, wide, side, low, high, entryPrice)
    ensures AtrStop(entryAtr, rowAtr, tight, side, low, high, entryPrice)
  {
    var a := entryAtr.GetOr(rowAtr);
    assert a * tight <= a * wide by {
      assert a * wide - a * tight == a * (wide - tight);
    }
  }

  /** The best price since entry, falling back to the entry price. */
  function Best(bestPrice: Option<real>, entryPrice: real): real
  {
    bestPrice.GetOr(entryPrice)
  }

  /** The trailing stop on one bar: whether it exits, and the recorded best
      price after the bar. */
  function TrailStep(bestPrice: Option<real>, side: Side, entryPrice: real, high: real, low: real,
                     atr: real, multiplier: real): (r: (bool, Option<real>))
    ensures atr <= 0.0 ==> !r.0 && r.1 == bestPrice
    ensures atr > 0.0 && side == Long ==> Best(r.1, entryPrice) == Max(Best(bestPrice, entryPrice), high)
    ensures atr > 0.0 && side == Short ==> Best(r.1, entryPrice) == Min(Best(bestPrice, entryPrice), low)
    ensures atr > 0.0 && side == Long ==> (r.0 <==> low <= Best(r.1, entryPrice) - atr * multiplier)
    ensures atr > 0.0 && side == Short ==> (r.0 <==> high >= Best(r.1, entryPrice) + atr * multiplier)
  {
    if atr <= 0.0 then (false, bestPrice)
    else
      var best := Best(bestPrice, entryPrice);
      match side
      case Long =>
        var b := if high > best then Some(high) else bestPrice;
        (low <= Best(b, entryPrice) - atr * multiplier, b)
      case Short =>
        var b := if low < best then Some(low) else bestPrice;
        (high >= Best(b, entryPrice) + atr * multiplier, b)
  }

  /** A trailing stop at a multiple of the bar's ATR from the best price
      since entry. */
  method TrailingAtr(state: BlockState, side: Side, entryPrice: real, high: real, low: real,
                     atr: real, multiplier: real) returns (exit: bool)
    modifies state
    ensures (exit, state.bestPrice) == TrailStep(old(state.bestPrice), side, entryPrice, high, low, atr, multiplier)
    ensures state.inOversold == old(state.inOversold) && state.inOverbought == old(state.inOverbought)
    ensures state.entryAtr == old(state.entryAtr)
  {
    if atr <= 0.0 {
      return false;
    }
    match side {
      case Long =>
        var best := state.bestPrice.GetOr(entryPrice);
        if high > best {
          best := high;
          state.bestPrice := Some(best);
        }
        exit := low <= best - atr * multiplier;
      case Short =>
        var best := state.bestPrice.GetOr(entryPrice);
        if low < best {
          best := low;
          state.bestPrice := Some(best);
        }
        exit := high >= best + atr * multiplier;
    }
  }

  /** One bar as the trailing stop reads it. */
  datatype Range = Range(high: real, low: real, atr: real)

  /** The recorded best price after a run of bars. */
  function TrailAll(bestPrice: Option<real>, side: Side, entryPrice: real, bars: seq<Range>, multiplier: real)
    : Option<real>
  {
    if bars == [] then bestPrice
    else
      var last := bars[|bars| - 1];
      TrailStep(TrailAll(bestPrice, side, entryPrice, bars[..|bars| - 1], multiplier), side, entryPrice,
                last.high, last.low, last.atr, multiplier).1
  }

  function Highs(bars: seq<Range>): (r: seq<real>)
    ensures |r| == |bars| && forall i :: 0 <= i < |bars| ==> r[i] == bars[i].high
  {
    if bars == [] then [] else Highs(bars[..|bars| - 1]) + [bars[|bars| - 1].high]
  }

  /** For a long with a positive ATR on every bar, the trailing stop's best
      price is the highest of the entry price and every high since entry,
      so it only ever rises. */
  lemma {:induction false} LongBestIsHighest(entryPrice: real, bars: seq<Range>, multiplier: real)
    requires bars != []
    requires forall i :: 0 <= i < |bars| ==> bars[i].atr > 0.0
    ensures Best(TrailAll(None, Long, entryPrice, bars, multiplier), entryPrice)
      == Max(entryPrice, SeqMax(Highs(bars)))
  {
    var init := bars[..|bars| - 1];
    if init != [] {
      LongBestIsHighest(entryPrice, init, multiplier);
      assert Highs(bars)[..|bars| - 1] == Highs(init);
    }
  }

  /** Fixed-fraction sizing: the position's value is `pct` of equity. */
  function FixedPct(equity: real, price: real, pct: real): (size: real)
    requires price != 0.0
    ensures size * price == equity * pct
  {
    (equity * pct) / price
  }

  /** Risk sizing: the size that loses `riskPct` of equity at a stop
      `atrMult` ATRs away, capped at a quarter of equity in value; no size
      without a positive stop distance. */
  function RiskAtr(equity: real, price: real, atr: real, riskPct: real, atrMult: real): (size: real)
    requires atr * atrMult > 0.0 ==> price != 0.0
    ensures atr * atrMult <= 0.0 ==> size == 0.0
    ensures atr * atrMult > 0.0 ==> size <= (equity * 0.25) / price
    ensures atr * atrMult > 0.0 ==> size <= (equity * riskPct) / (atr * atrMult)
    ensures atr * atrMult > 0.0 ==>
      size == (equity * 0.25) / price || size == (equity * riskPct) / (atr * atrMult)
  {
    var stop := atr * atrMult;
    if stop <= 0.0 then 0.0
    else
      var size := (equity * riskPct) / stop;
      var maxSize := (equity * 0.25) / price;
      Min(size, maxSize)
  }

  /** With a positive price and non-negative equity, a risk-sized position
      is worth at most a quarter of equity and loses at most `riskPct` of
      equity if the stop is hit. */
  lemma RiskAtrBounds(equity: real, price: real, atr: real, riskPct: real, atrMult: real)
    requires price > 0.0 && equity >= 0.0 && atr * atrMult > 0.0
    ensures RiskAtr(equity, price, atr, riskPct, atrMult) * price <= 0.25 * equity
    ensures RiskAtr(equity, price, atr, riskPct, atrMult) * (atr * atrMult) <= equity * riskPct
  {
    var size := RiskAtr(equity, price, atr, riskPct, atrMult);
    var stop := atr * atrMult;
    var cap := (equity * 0.25) / price;
    var risk := (equity * riskPct) / stop;
    assert cap * price == equity * 0.25;
    assert risk * stop == equity * riskPct;
    assert size * price <= cap * price by {
      assert (cap - size) * price >= 0.0;
    }
    assert size * stop <= risk * stop by {
      assert (risk - size) * stop >= 0.0;
    }
  }

  /** The names of the default blocks the combination generator draws from. */
  const EntryNames: seq<string> := [
    "stochrsi_cross(os=20,ob=80)", "stochrsi_cross(os=15,ob=85)", "macd_cross", "bollinger_bounce",
    "donchian_breakout", "rsi_extreme(os=30,ob=70)", "sma_cross(50/200)"]

  const ExitNames: seq<string> := [
    "opposite_zone(os=20,ob=80)", "atr_stop(2.0x)", "atr_stop(3.0x)", "bollinger_exit", "donchian_exit",
    "trailing_atr(2.0x)", "trailing_atr(3.0x)"]

  const FilterNames: seq<string> := [
    "no_filter", "adx_ranging(<25)", "adx_trending(>25)", "chop_trending(<38.2)", "chop_ranging(>61.8)",
    "sma_uptrend"]

  const SizerNames: seq<string> := ["fixed_pct(25%)", "risk_atr(2%,2.0x)", "risk_atr(2%,3.0x)"]
}
