/** The streaming RSI: each price change is split into a gain and a loss;
    the first `period` of them are averaged, later ones are folded in with
    Wilder's smoothing, and the index is 100 - 100 / (1 + gain / loss). */
module RsiIndicator {
  import opened Wrappers
  import opened Numeric

  function Gain(change: real): real
  {
    Max(change, 0.0)
  }

  function Loss(change: real): real
  {
    Max(-change, 0.0)
  }

  /** A change splits into a gain and a loss that are both non-negative, of
      which at most one is non-zero, and whose difference is the change. */
  lemma GainLossSplit(change: real)
    ensures Gain(change) >= 0.0 && Loss(change) >= 0.0
    ensures Gain(change) == 0.0 || Loss(change) == 0.0
    ensures Gain(change) - Loss(change) == change
  {
  }

  /** The gains of a run of changes, one per change. */
  function GainsOf(changes: seq<real>): (r: seq<real>)
    ensures |r| == |changes|
  {
    if changes == [] then [] else GainsOf(changes[..|changes| - 1]) + [Gain(changes[|changes| - 1])]
  }

  /** The losses of a run of changes, one per change. */
  function LossesOf(changes: seq<real>): (r: seq<real>)
    ensures |r| == |changes|
  {
    if changes == [] then [] else LossesOf(changes[..|changes| - 1]) + [Loss(changes[|changes| - 1])]
  }

  /** Position by position, the gains and losses are those of the changes,
      so none is negative. */
  lemma {:induction false} SplitEach(changes: seq<real>)
    ensures forall i :: 0 <= i < |changes| ==> GainsOf(changes)[i] == Gain(changes[i]) >= 0.0
    ensures forall i :: 0 <= i < |changes| ==> LossesOf(changes)[i] == Loss(changes[i]) >= 0.0
  {
    if changes != [] {
      var init := changes[..|changes| - 1];
      SplitEach(init);
      assert forall i :: 0 <= i < |init| ==> init[i] == changes[i];
    }
  }

  /** Wilder's average of `xs`: the plain mean of the first `period` values,
      then each later value weighted 1/period against the running average. */
  function Smoothed(xs: seq<real>, period: int): real
    requires period >= 1 && |xs| >= period
    decreases |xs|
  {
    if |xs| == period then Sum(xs) / period as real
    else Wilder(Smoothed(xs[..|xs| - 1], period), xs[|xs| - 1], period)
  }

  /** One smoothing step: the running average `prev` moves 1/period of the
      way towards the new value `x`. */
  function Wilder(prev: real, x: real, period: int): real
    requires period >= 1
  {
    (prev * (period - 1) as real + x) / period as real
  }

  /** Wilder's average stays within the range of the values it averages. */
  lemma {:induction false} SmoothedBounds(xs: seq<real>, period: int, lo: real, hi: real)
    requires period >= 1 && |xs| >= period
    requires forall i :: 0 <= i < |xs| ==> lo <= xs[i] <= hi
    ensures lo <= Smoothed(xs, period) <= hi
    decreases |xs|
  {
    if |xs| == period {
      MeanBounds(xs, lo, hi);
    } else {
      var init := xs[..|xs| - 1];
      assert forall i :: 0 <= i < |init| ==> init[i] == xs[i];
      SmoothedBounds(init, period, lo, hi);
      WilderBetween(Smoothed(init, period), xs[|xs| - 1], period, lo, hi);
    }
  }

  lemma WilderBetween(prev: real, x: real, period: int, lo: real, hi: real)
    requires period >= 1 && lo <= prev <= hi && lo <= x <= hi
    ensures lo <= Wilder(prev, x, period) <= hi
  {
    var a := (period - 1) as real;
    WeightedMeanBetween(a, 1.0, prev, x);
    assert prev * a + x == a * prev + 1.0 * x && a + 1.0 == period as real;
  }

  /** The index for average gain `g` and average loss `l`. */
  function RsiValue(g: real, l: real): real
    requires g >= 0.0 && l >= 0.0
  {
    if l == 0.0 then 100.0 else 100.0 - 100.0 / (1.0 + g / l)
  }

  /** 100 / (1 + g / l) is the losses' share of all movement, in percent. */
  lemma LossShare(g: real, l: real)
    requires g >= 0.0 && l > 0.0
    ensures 100.0 / (1.0 + g / l) * (g + l) == 100.0 * l
  {
    var d := 1.0 + g / l;
    assert g / l * l == g;
    assert d * l == g + l;
    var q := 100.0 / d;
    assert q * d == 100.0;
    assert q * (d * l) == 100.0 * l;
  }

  /** The index is the gains' share of all movement, in percent: it lies in
      [0, 100], is 100 without losses, and 50 when gains and losses match. */
  lemma RsiMeaning(g: real, l: real)
    requires g >= 0.0 && l >= 0.0
    ensures l > 0.0 ==> RsiValue(g, l) * (g + l) == 100.0 * g
    ensures 0.0 <= RsiValue(g, l) <= 100.0
    ensures l == 0.0 ==> RsiValue(g, l) == 100.0
    ensures l > 0.0 && g == l ==> RsiValue(g, l) == 50.0
  {
    if l > 0.0 {
      var r := g / l;
      DivMonotone(0.0, g, l);
      var d := 1.0 + r;
      Fraction(1.0, d);
      var q := 100.0 / d;
      assert q == 100.0 * (1.0 / d);
      assert RsiValue(g, l) == 100.0 - q;
      LossShare(g, l);
      assert (100.0 - q) * (g + l) == 100.0 * (g + l) - q * (g + l);
      if g == l {
        SelfRatio(l);
        assert d == 2.0;
      }
    }
  }

  lemma SelfRatio(l: real)
    requires l != 0.0
    ensures l / l == 1.0
  {
    assert l / l * l == l;
  }

  class RSI {
    const period: int
    var gains: seq<real>
    var losses: seq<real>
    var avgGain: real
    var avgLoss: real
    var value: real
    var ready: bool
    var prevPrice: Option<real>
    /** Every price change seen so far. */
    ghost var changes: seq<real>

    /** The indicator is a function of the changes seen: not ready (and
        neutral) until `period` of them have arrived, then the Wilder
        averages of all of them. */
    ghost predicate Valid()
      reads this
    {
      && (prevPrice.None? ==> changes == [])
      && (ready <==> period >= 1 && |changes| >= period)
      && (!ready ==>
            gains == GainsOf(changes) && losses == LossesOf(changes)
            && avgGain == 0.0 && avgLoss == 0.0 && value == 50.0)
      && (ready ==>
            gains == GainsOf(changes[..period]) && losses == LossesOf(changes[..period])
            && avgGain == Smoothed(GainsOf(changes), period)
            && avgLoss == Smoothed(LossesOf(changes), period)
            && avgGain >= 0.0 && avgLoss >= 0.0
            && value == RsiValue(avgGain, avgLoss))
    }

    constructor (period: int)
      ensures Valid() && this.period == period && changes == [] && prevPrice.None?
    {
      this.period := period;
      gains := [];
      losses := [];
      avgGain := 0.0;
      avgLoss := 0.0;
      value := 50.0;
      ready := false;
      prevPrice := None;
      changes := [];
    }

    /** The first price is only remembered; every later one adds its change
        from the previous price. */
    method Update(price: real)
      requires Valid()
      modifies this
      ensures Valid()
      ensures prevPrice == Some(price)
      ensures old(prevPrice).None? ==> changes == old(changes)
      ensures old(prevPrice).Some? ==> changes == old(changes) + [price - old(prevPrice).value]
      ensures old(ready) ==> ready
    {
      if prevPrice.None? {
        prevPrice := Some(price);
        return;
      }
      var change := price - prevPrice.value;
      prevPrice := Some(price);
      if !ready {
        Collect(change);
      } else {
        Smooth(change);
      }
    }

    /** Before the indicator is ready the gain and loss are buffered; the
        `period`-th change turns the buffers into the first averages. */
    method Collect(change: real)
      requires Valid() && !ready && prevPrice.Some?
      modifies this`changes, this`gains, this`losses, this`avgGain, this`avgLoss, this`ready, this`value
      ensures Valid() && changes == old(changes) + [change]
    {
      ghost var before := changes;
      changes := changes + [change];
      ChangesSnoc(before, change);
      gains := gains + [Gain(change)];
      losses := losses + [Loss(change)];
      if |gains| == period {
        avgGain := Sum(gains) / period as real;
        avgLoss := Sum(losses) / period as real;
        ready := true;
        FirstAverages(changes, period);
        Calculate();
      }
    }

    /** Once ready, each change is folded into the averages by Wilder's
        smoothing; the buffers are left as they are. */
    method Smooth(change: real)
      requires Valid() && ready && prevPrice.Some?
      modifies this`changes, this`avgGain, this`avgLoss, this`value
      ensures Valid() && changes == old(changes) + [change]
    {
      ghost var before := changes;
      changes := changes + [change];
      ChangesSnoc(before, change);
      assert changes[..period] == before[..period];
      WilderStep(GainsOf(before), Gain(change), period);
      WilderStep(LossesOf(before), Loss(change), period);
      avgGain := Wilder(avgGain, Gain(change), period);
      avgLoss := Wilder(avgLoss, Loss(change), period);
      assert GainsOf(changes) == GainsOf(before) + [Gain(change)];
      assert avgGain == Smoothed(GainsOf(changes), period);
      assert avgLoss == Smoothed(LossesOf(changes), period);
      AveragesNonNegative(changes, period);
      Calculate();
    }

    method Calculate()
      requires avgGain >= 0.0 && avgLoss >= 0.0
      modifies this`value
      ensures value == RsiValue(avgGain, avgLoss)
    {
      if avgLoss == 0.0 {
        value := 100.0;
      } else {
        var rs := avgGain / avgLoss;
        value := 100.0 - 100.0 / (1.0 + rs);
      }
    }
  }

  lemma ChangesSnoc(changes: seq<real>, c: real)
    ensures GainsOf(changes + [c]) == GainsOf(changes) + [Gain(c)]
    ensures LossesOf(changes + [c]) == LossesOf(changes) + [Loss(c)]
  {
    assert (changes + [c])[..|changes|] == changes;
  }

  /** One more value moves Wilder's average 1/period of the way towards it. */
  lemma WilderStep(xs: seq<real>, x: real, period: int)
    requires period >= 1 && |xs| >= period
    ensures Smoothed(xs + [x], period) == Wilder(Smoothed(xs, period), x, period)
  {
    var ys := xs + [x];
    assert ys[..|ys| - 1] == xs;
  }

  lemma FirstAverages(changes: seq<real>, period: int)
    requires period >= 1 && |changes| == period
    ensures changes[..period] == changes
    ensures Smoothed(GainsOf(changes), period) == Sum(GainsOf(changes)) / period as real
    ensures Smoothed(LossesOf(changes), period) == Sum(LossesOf(changes)) / period as real
    ensures Smoothed(GainsOf(changes), period) >= 0.0 && Smoothed(LossesOf(changes), period) >= 0.0
  {
    AveragesNonNegative(changes, period);
  }

  lemma AveragesNonNegative(changes: seq<real>, period: int)
    requires period >= 1 && |changes| >= period
    ensures Smoothed(GainsOf(changes), period) >= 0.0 && Smoothed(LossesOf(changes), period) >= 0.0
  {
    var gs := GainsOf(changes);
    var ls := LossesOf(changes);
    SplitEach(changes);
    SmoothedBounds(gs, period, 0.0, SeqMax(gs));
    SmoothedBounds(ls, period, 0.0, SeqMax(ls));
  }

  /** A ready indicator's value is in [0, 100]. */
  lemma ReadyValueInRange(changes: seq<real>, period: int)
    requires period >= 1 && |changes| >= period
    ensures Smoothed(GainsOf(changes), period) >= 0.0 && Smoothed(LossesOf(changes), period) >= 0.0
    ensures 0.0 <= RsiValue(Smoothed(GainsOf(changes), period), Smoothed(LossesOf(changes), period)) <= 100.0
  {
    AveragesNonNegative(changes, period);
    RsiMeaning(Smoothed(GainsOf(changes), period), Smoothed(LossesOf(changes), period));
  }

  /** Steady rises give no losses, so a ready indicator then reads 100. */
  lemma {:induction false} OnlyRisesGiveHundred(changes: seq<real>, period: int)
    requires period >= 1 && |changes| >= period
    requires forall i :: 0 <= i < |changes| ==> changes[i] >= 0.0
    ensures Smoothed(GainsOf(changes), period) >= 0.0
    ensures Smoothed(LossesOf(changes), period) == 0.0
    ensures RsiValue(Smoothed(GainsOf(changes), period), Smoothed(LossesOf(changes), period)) == 100.0
  {
    AveragesNonNegative(changes, period);
    SplitEach(changes);
    SmoothedBounds(LossesOf(changes), period, 0.0, 0.0);
  }
}
