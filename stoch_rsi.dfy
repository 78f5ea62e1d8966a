/** The streaming Stochastic RSI: once the inner RSI is ready, each RSI
    value enters a window of the last `period` values; a full window gives a
    raw reading of where the newest value sits between the window's lowest
    and highest; the last `smoothK` readings average to %K (scaled to 100)
    and the last `smoothD` %K values average to %D. */
module StochRsiIndicator {
  import opened Numeric
  import opened Wrappers
  import opened RsiIndicator

  /** The last `n` elements of `xs`, or all of them when there are fewer:
      what a list keeps when every append is followed by dropping the oldest
      element once it is longer than `n`. */
  function Last(xs: seq<real>, n: nat): (w: seq<real>)
    ensures |w| == if |xs| <= n then |xs| else n
  {
    if |xs| <= n then xs else xs[|xs| - n..]
  }

  /** Appending to a bounded window and dropping its oldest element when it
      overflows keeps it equal to the last `n` elements of the history. */
  lemma SlideWindow(xs: seq<real>, x: real, n: nat)
    requires n >= 1
    ensures var w := Last(xs, n) + [x];
      Last(xs + [x], n) == if |w| > n then w[1..] else w
  {
    var ys := xs + [x];
    if |xs| < n {
      assert Last(xs, n) == xs && Last(ys, n) == ys;
    } else {
      var w := xs[|xs| - n..] + [x];
      assert Last(xs, n) + [x] == w;
      assert w[1..] == ys[|ys| - n..];
    }
  }

  /** Where `x` sits between `lo` and `hi`, as a fraction; 0 when the two
      coincide. */
  function Position(x: real, lo: real, hi: real): real
  {
    if hi == lo then 0.0 else (x - lo) / (hi - lo)
  }

  /** Between the bounds the position is a fraction in [0, 1]. */
  lemma PositionInUnit(x: real, lo: real, hi: real)
    requires lo <= x <= hi
    ensures 0.0 <= Position(x, lo, hi) <= 1.0
  {
    if hi != lo {
      Fraction(x - lo, hi - lo);
    }
  }

  /** The lower bound sits at 0 and, when distinct, the upper bound at 1. */
  lemma PositionAtBounds(lo: real, hi: real)
    ensures Position(lo, lo, hi) == 0.0
    ensures hi != lo ==> Position(hi, lo, hi) == 1.0
  {
    if hi != lo {
      ZeroOver(hi - lo);
      SelfRatio(hi - lo);
    }
  }

  lemma ZeroOver(d: real)
    requires d != 0.0
    ensures 0.0 / d == 0.0
  {
  }

  /** Where the newest value of a window sits between its lowest and
      highest. */
  function Raw(window: seq<real>): (r: real)
    requires |window| > 0
    ensures 0.0 <= r <= 1.0
  {
    var x := window[|window| - 1];
    PositionInUnit(x, SeqMin(window), SeqMax(window));
    Position(x, SeqMin(window), SeqMax(window))
  }

  /** The newest value at the window's lowest reads 0, at its highest (in a
      window that is not flat) reads 1. */
  lemma RawExtremes(window: seq<real>)
    requires |window| > 0
    ensures window[|window| - 1] == SeqMin(window) ==> Raw(window) == 0.0
    ensures window[|window| - 1] == SeqMax(window) != SeqMin(window) ==> Raw(window) == 1.0
  {
    PositionAtBounds(SeqMin(window), SeqMax(window));
  }

  /** The raw readings produced by a history of RSI values: one for each
      full window of `period` consecutive values. */
  ghost function RawSeries(values: seq<real>, period: nat): (raws: seq<real>)
    requires period >= 1
    ensures |raws| == if |values| < period then 0 else |values| - period + 1
  {
    var n := if |values| < period then 0 else |values| - period + 1;
    seq(n, i requires 0 <= i < n => Raw(values[i..i + period]))
  }

  /** The mean of a full window. */
  function Mean(window: seq<real>, n: nat): real
    requires n >= 1
  {
    Sum(window) / n as real
  }

  /** The %K values produced by a series of raw readings: one for each full
      window of `smoothK` consecutive readings, as a percentage. */
  ghost function KSeries(raws: seq<real>, smoothK: nat): (ks: seq<real>)
    requires smoothK >= 1
    ensures |ks| == if |raws| < smoothK then 0 else |raws| - smoothK + 1
  {
    var n := if |raws| < smoothK then 0 else |raws| - smoothK + 1;
    seq(n, i requires 0 <= i < n => Mean(raws[i..i + smoothK], smoothK) * 100.0)
  }

  /** Every raw reading is a fraction in [0, 1]. */
  lemma RawSeriesInUnit(values: seq<real>, period: nat)
    requires period >= 1
    ensures forall i :: 0 <= i < |RawSeries(values, period)| ==> 0.0 <= RawSeries(values, period)[i] <= 1.0
  {
    var raws := RawSeries(values, period);
    forall i | 0 <= i < |raws|
      ensures 0.0 <= raws[i] <= 1.0
    {
      assert raws[i] == Raw(values[i..i + period]);
    }
  }

  /** Every %K value is a percentage in [0, 100] when the readings are
      fractions. */
  lemma KSeriesPercent(raws: seq<real>, smoothK: nat)
    requires smoothK >= 1
    requires forall i :: 0 <= i < |raws| ==> 0.0 <= raws[i] <= 1.0
    ensures forall i :: 0 <= i < |KSeries(raws, smoothK)| ==> 0.0 <= KSeries(raws, smoothK)[i] <= 100.0
  {
    var ks := KSeries(raws, smoothK);
    forall i | 0 <= i < |ks|
      ensures 0.0 <= ks[i] <= 100.0
    {
      var w := raws[i..i + smoothK];
      assert forall j :: 0 <= j < |w| ==> w[j] == raws[i + j];
      MeanBounds(w, 0.0, 1.0);
    }
  }

  /** One more RSI value adds one raw reading once the first window is full. */
  lemma RawSeriesSnoc(values: seq<real>, v: real, period: nat)
    requires period >= 1 && |values| + 1 >= period
    ensures RawSeries(values + [v], period) == RawSeries(values, period) + [Raw(Last(values + [v], period))]
  {
    var vs := values + [v];
    var a, b := RawSeries(vs, period), RawSeries(values, period) + [Raw(Last(vs, period))];
    forall i | 0 <= i < |a|
      ensures a[i] == b[i]
    {
      if i < |a| - 1 {
        RawSeriesKeeps(values, v, period, i);
      } else {
        RawSeriesNewest(vs, period);
      }
    }
  }

  lemma RawSeriesKeeps(values: seq<real>, v: real, period: nat, i: nat)
    requires period >= 1 && i < |RawSeries(values, period)|
    ensures RawSeries(values + [v], period)[i] == RawSeries(values, period)[i]
  {
    assert (values + [v])[i..i + period] == values[i..i + period];
  }

  lemma RawSeriesNewest(values: seq<real>, period: nat)
    requires period >= 1 && |values| >= period
    ensures RawSeries(values, period)[|values| - period] == Raw(Last(values, period))
  {
    var i := |values| - period;
    assert values[i..i + period] == Last(values, period);
  }

  /** One more raw reading adds one %K value once the first window is full. */
  lemma KSeriesSnoc(raws: seq<real>, r: real, smoothK: nat)
    requires smoothK >= 1 && |raws| + 1 >= smoothK
    ensures KSeries(raws + [r], smoothK) == KSeries(raws, smoothK) + [Mean(Last(raws + [r], smoothK), smoothK) * 100.0]
  {
    var rs := raws + [r];
    var a, b := KSeries(rs, smoothK), KSeries(raws, smoothK) + [Mean(Last(rs, smoothK), smoothK) * 100.0];
    forall i | 0 <= i < |a|
      ensures a[i] == b[i]
    {
      if i < |a| - 1 {
        assert rs[i..i + smoothK] == raws[i..i + smoothK];
      } else {
        assert rs[i..i + smoothK] == Last(rs, smoothK);
      }
    }
  }

  /** The %K value a full window of readings adds to the series. */
  lemma KStep(raws: seq<real>, raw: real, smoothK: nat, ks: seq<real>, window: seq<real>, kVal: real)
    requires smoothK >= 1 && ks == KSeries(raws, smoothK)
    requires window == Last(raws + [raw], smoothK) && |window| == smoothK
    requires kVal == Mean(window, smoothK) * 100.0
    ensures KSeries(raws + [raw], smoothK) == ks + [kVal]
  {
    KSeriesSnoc(raws, raw, smoothK);
  }

  /** Before the first window is full, another RSI value adds no reading. */
  lemma TooShortForRaw(values: seq<real>, v: real, period: nat)
    requires period >= 1 && |values| + 1 < period
    ensures RawSeries(values + [v], period) == RawSeries(values, period) == []
  {
  }

  /** Before the first window of readings is full, another reading adds no
      %K value. */
  lemma TooShortForK(raws: seq<real>, r: real, smoothK: nat)
    requires smoothK >= 1 && |raws| + 1 < smoothK
    ensures KSeries(raws + [r], smoothK) == KSeries(raws, smoothK) == []
  {
  }

  /** %K is the newest %K value (0 before the first); the indicator is ready
      exactly once `smoothD` %K values exist, and %D is then the mean of the
      last `smoothD` of them. */
  ghost predicate Readings(ks: seq<real>, kValues: seq<real>, k: real, d: real, ready: bool, smoothD: nat)
  {
    && smoothD >= 1
    && (ks == [] ==> k == 0.0)
    && (ks != [] ==> k == ks[|ks| - 1])
    && (ready <==> |ks| >= smoothD)
    && (!ready ==> d == 0.0)
    && (ready ==> d == Mean(kValues, smoothD))
  }

  /** The state kept between updates, for the RSI values `values` recorded
      so far: the three bounded lists are the last `period` RSI values, the
      last `smoothK` raw readings and the last `smoothD` %K values, and %K,
      %D and readiness follow the %K series. */
  ghost predicate Tracks(values: seq<real>, history: seq<real>, window: seq<real>, kValues: seq<real>,
                         k: real, d: real, ready: bool, period: nat, smoothK: nat, smoothD: nat)
  {
    && period >= 1 && smoothK >= 1 && smoothD >= 1
    && history == Last(values, period)
    && window == Last(RawSeries(values, period), smoothK)
    && kValues == Last(KSeries(RawSeries(values, period), smoothK), smoothD)
    && Readings(KSeries(RawSeries(values, period), smoothK), kValues, k, d, ready, smoothD)
  }

  class StochRSI {
    const period: nat
    const smoothK: nat
    const smoothD: nat
    const rsi: RSI
    var rsiHistory: seq<real>
    var stochRsiRaw: seq<real>
    var kValues: seq<real>
    var k: real
    var d: real
    var ready: bool
    /** Every RSI value recorded so far: one per update on a ready RSI. */
    ghost var values: seq<real>

    ghost predicate Valid()
      reads this, rsi
    {
      && rsi.Valid() && rsi.period == period
      && Tracks(values, rsiHistory, stochRsiRaw, kValues, k, d, ready, period, smoothK, smoothD)
    }

    constructor (period: nat, smoothK: nat, smoothD: nat)
      requires period >= 1 && smoothK >= 1 && smoothD >= 1
      ensures Valid() && fresh(rsi)
      ensures this.period == period && this.smoothK == smoothK && this.smoothD == smoothD
      ensures values == [] && rsi.changes == [] && !ready
    {
      this.period := period;
      this.smoothK := smoothK;
      this.smoothD := smoothD;
      rsi := new RSI(period);
      rsiHistory := [];
      stochRsiRaw := [];
      kValues := [];
      k := 0.0;
      d := 0.0;
      ready := false;
      values := [];
    }

    /** Feeds a price to the inner RSI; while it is not ready nothing else
        changes, otherwise its value is recorded. */
    method Update(price: real)
      requires Valid()
      modifies this, rsi
      ensures Valid()
      ensures rsi.prevPrice == Some(price)
      ensures old(rsi.prevPrice).Some? ==> rsi.changes == old(rsi.changes) + [price - old(rsi.prevPrice).value]
      ensures old(rsi.prevPrice).None? ==> rsi.changes == old(rsi.changes)
      ensures values == old(values) + if rsi.ready then [rsi.value] else []
      ensures old(ready) ==> ready
    {
      rsi.Update(price);
      if rsi.ready {
        Push(rsi.value);
      }
    }

    /** Records a value of the ready RSI. */
    method Push(v: real)
      requires Tracks(values, rsiHistory, stochRsiRaw, kValues, k, d, ready, period, smoothK, smoothD)
      modifies this
      ensures values == old(values) + [v]
      ensures Tracks(values, rsiHistory, stochRsiRaw, kValues, k, d, ready, period, smoothK, smoothD)
      ensures old(ready) ==> ready
    {
      ghost var vs := values + [v];
      var h, w, kv, k', d', r' := Record(values, rsiHistory, stochRsiRaw, kValues, k, d, ready, period, smoothK, smoothD, v);
      values, rsiHistory, stochRsiRaw, kValues, k, d, ready := vs, h, w, kv, k', d', r';
    }
  }

  /** Records one RSI value in the window of the last `period` of them; a
      full window gives the next raw reading. */
  method Record(ghost values: seq<real>, history: seq<real>, window: seq<real>, kValues: seq<real>,
                k: real, d: real, ready: bool, period: nat, smoothK: nat, smoothD: nat, v: real)
    returns (history': seq<real>, window': seq<real>, kValues': seq<real>, k': real, d': real, ready': bool)
    requires Tracks(values, history, window, kValues, k, d, ready, period, smoothK, smoothD)
    ensures Tracks(values + [v], history', window', kValues', k', d', ready', period, smoothK, smoothD)
    ensures ready ==> ready'
  {
    SlideWindow(values, v, period);
    history' := history + [v];
    if |history'| > period {
      history' := history'[1..];
    }
    if |history'| == period {
      RawSeriesSnoc(values, v, period);
      var raw := Raw(history');
      window', kValues', k', d', ready' :=
        AddRaw(RawSeries(values, period), KSeries(RawSeries(values, period), smoothK),
               window, kValues, k, d, ready, smoothK, smoothD, raw);
    } else {
      TooShortForRaw(values, v, period);
      window', kValues', k', d', ready' := window, kValues, k, d, ready;
    }
  }

  /** Records a raw reading in the window of the last `smoothK` readings and,
      when that window is full, the %K value it gives. */
  method AddRaw(ghost raws: seq<real>, ghost ks: seq<real>, window: seq<real>, kValues: seq<real>,
                k: real, d: real, ready: bool, smoothK: nat, smoothD: nat, raw: real)
    returns (window': seq<real>, kValues': seq<real>, k': real, d': real, ready': bool)
    requires smoothK >= 1 && ks == KSeries(raws, smoothK)
    requires window == Last(raws, smoothK) && kValues == Last(ks, smoothD)
    requires Readings(ks, kValues, k, d, ready, smoothD)
    ensures window' == Last(raws + [raw], smoothK)
    ensures kValues' == Last(KSeries(raws + [raw], smoothK), smoothD)
    ensures Readings(KSeries(raws + [raw], smoothK), kValues', k', d', ready', smoothD)
    ensures ready ==> ready'
  {
    SlideWindow(raws, raw, smoothK);
    window' := window + [raw];
    if |window'| > smoothK {
      window' := window'[1..];
    }
    if |window'| == smoothK {
      var kVal := Mean(window', smoothK) * 100.0;
      KStep(raws, raw, smoothK, ks, window', kVal);
      kValues', k', d', ready' := AddK(ks, kValues, k, d, ready, smoothD, kVal);
    } else {
      TooShortForK(raws, raw, smoothK);
      kValues', k', d', ready' := kValues, k, d, ready;
    }
  }

  /** Records a %K value in the window of the last `smoothD` of them; %D
      follows when that window is full. */
  method AddK(ghost ks: seq<real>, kValues: seq<real>, k: real, d: real, ready: bool, smoothD: nat, kVal: real)
    returns (kValues': seq<real>, k': real, d': real, ready': bool)
    requires Readings(ks, kValues, k, d, ready, smoothD) && kValues == Last(ks, smoothD)
    ensures kValues' == Last(ks + [kVal], smoothD)
    ensures Readings(ks + [kVal], kValues', k', d', ready', smoothD)
    ensures ready ==> ready'
  {
    SlideWindow(ks, kVal, smoothD);
    k', d', ready' := kVal, d, ready;
    kValues' := kValues + [kVal];
    if |kValues'| > smoothD {
      kValues' := kValues'[1..];
    }
    if |kValues'| == smoothD {
      d' := Mean(kValues', smoothD);
      ready' := true;
    }
  }

  /** Once ready, %K and %D are percentages in [0, 100]. */
  lemma ReadingsArePercentages(values: seq<real>, period: nat, smoothK: nat, smoothD: nat)
    requires period >= 1 && smoothK >= 1 && smoothD >= 1
    requires |KSeries(RawSeries(values, period), smoothK)| >= smoothD
    ensures var ks := KSeries(RawSeries(values, period), smoothK);
      && 0.0 <= ks[|ks| - 1] <= 100.0
      && 0.0 <= Mean(Last(ks, smoothD), smoothD) <= 100.0
  {
    var raws := RawSeries(values, period);
    RawSeriesInUnit(values, period);
    KSeriesPercent(raws, smoothK);
    var ks := KSeries(raws, smoothK);
    var w := Last(ks, smoothD);
    assert forall i :: 0 <= i < |w| ==> w[i] == ks[|ks| - smoothD + i];
    MeanBounds(w, 0.0, 100.0);
  }

  /** A ready indicator reports %K and %D as percentages in [0, 100]. */
  lemma ReadyIndicatorInRange(s: StochRSI)
    requires s.Valid() && s.ready
    ensures 0.0 <= s.k <= 100.0 && 0.0 <= s.d <= 100.0
  {
    ReadingsArePercentages(s.values, s.period, s.smoothK, s.smoothD);
  }

  /** Nothing is read until `period + smoothK + smoothD - 2` RSI values have
      been recorded: that is exactly when the indicator becomes ready. */
  lemma ReadyAfter(values: seq<real>, period: nat, smoothK: nat, smoothD: nat)
    requires period >= 1 && smoothK >= 1 && smoothD >= 1
    ensures |KSeries(RawSeries(values, period), smoothK)| >= smoothD
        <==> |values| >= period + smoothK + smoothD - 2
  {
  }
}
