/** The dashboard's equity chart transform, shared by the test-details page and
    the composite overview page: each equity sample is paired with its
    drawdown from the running peak, which starts at minus infinity. */
module DrawdownChart {
  import opened Wrappers
  import opened Numeric

  /** The time of an equity sample as the backend sends it: epoch seconds for
      intraday runs, a date string for daily runs. */
  datatype SampleTime = Secs(secs: int) | DateText(text: string)

  datatype Sample = Sample(time: SampleTime, equity: real)

  /** What `new Date(...)` is built from: milliseconds, or a string to parse. */
  datatype Moment = Millis(ms: int) | Parsed(text: string)

  datatype ChartPoint = ChartPoint(moment: Moment, equity: real, drawdown: real)

  /** The running peak: minus infinity before any sample. */
  datatype Peak = NegInf | Fin(value: real)

  function MomentOf(t: SampleTime): (m: Moment)
    ensures t.Secs? ==> m == Millis(t.secs * 1000)
    ensures t.DateText? ==> m == Parsed(t.text)
  {
    match t
    case Secs(s) => Millis(s * 1000)
    case DateText(text) => Parsed(text)
  }

  function Raise(peak: Peak, equity: real): Peak
  {
    if peak.NegInf? || equity > peak.value then Fin(equity) else peak
  }

  /** The fractional drawdown of `equity` below a positive peak; zero when the
      peak is not positive. */
  function DrawdownFrom(peak: Peak, equity: real): real
  {
    if peak.Fin? && peak.value > 0.0 then (equity - peak.value) / peak.value else 0.0
  }

  /** The peak after the samples `s`. */
  function PeakOf(s: seq<Sample>): Peak
  {
    if s == [] then NegInf else Raise(PeakOf(s[..|s| - 1]), s[|s| - 1].equity)
  }

  /** The chart series for the samples `s`. */
  function Series(s: seq<Sample>): seq<ChartPoint>
  {
    if s == [] then []
    else
      var last := s[|s| - 1];
      Series(s[..|s| - 1]) + [ChartPoint(MomentOf(last.time), last.equity, DrawdownFrom(PeakOf(s), last.equity))]
  }

  function Equities(s: seq<Sample>): (r: seq<real>)
    ensures |r| == |s| && forall i :: 0 <= i < |s| ==> r[i] == s[i].equity
  {
    if s == [] then [] else Equities(s[..|s| - 1]) + [s[|s| - 1].equity]
  }

  /** Builds the chart series, carrying the running peak across the samples;
      no curve at all gives an empty series. */
  method ChartData(curve: Option<seq<Sample>>) returns (chart: seq<ChartPoint>)
    ensures curve.None? ==> chart == []
    ensures curve.Some? ==> chart == Series(curve.value)
  {
    if curve.None? {
      return [];
    }
    var points := curve.value;
    var peak := NegInf;
    chart := [];
    for i := 0 to |points|
      invariant peak == PeakOf(points[..i])
      invariant chart == Series(points[..i])
    {
      assert points[..i + 1][..i] == points[..i];
      var equity := points[i].equity;
      if peak.NegInf? || equity > peak.value {
        peak := Fin(equity);
      }
      var drawdown := if peak.Fin? && peak.value > 0.0 then (equity - peak.value) / peak.value else 0.0;
      chart := chart + [ChartPoint(MomentOf(points[i].time), equity, drawdown)];
    }
    assert points[..|points|] == points;
  }

  /** The series is one point per sample, in order, keeping each equity and
      turning epoch seconds into milliseconds. */
  lemma {:induction false} SeriesShape(s: seq<Sample>)
    ensures |Series(s)| == |s|
    ensures forall i :: 0 <= i < |s| ==>
      Series(s)[i].equity == s[i].equity && Series(s)[i].moment == MomentOf(s[i].time)
  {
    if s != [] {
      SeriesShape(s[..|s| - 1]);
    }
  }

  /** The peak after a non-empty prefix is the largest equity in it. */
  lemma {:induction false} PeakIsMax(s: seq<Sample>)
    ensures s == [] <==> PeakOf(s).NegInf?
    ensures s != [] ==> PeakOf(s) == Fin(SeqMax(Equities(s)))
  {
    if s != [] {
      var init := s[..|s| - 1];
      PeakIsMax(init);
      assert Equities(s)[..|s| - 1] == Equities(init);
    }
  }

  /** Point i of the series is measured against the peak of the first i+1
      samples. */
  lemma {:induction false} SeriesAt(s: seq<Sample>, i: nat)
    requires i < |s|
    ensures |Series(s)| == |s|
    ensures Series(s)[i].drawdown == DrawdownFrom(PeakOf(s[..i + 1]), s[i].equity)
    decreases |s|
  {
    SeriesShape(s);
    if i < |s| - 1 {
      var init := s[..|s| - 1];
      SeriesAt(init, i);
      assert init[..i + 1] == s[..i + 1];
    } else {
      assert s[..i + 1] == s;
    }
  }

  /** Below or at a peak, the drawdown is never positive, and for a
      non-negative equity never below -100%. */
  lemma DrawdownFromBounds(peak: Peak, equity: real)
    requires peak.Fin? ==> equity <= peak.value
    ensures DrawdownFrom(peak, equity) <= 0.0
    ensures equity >= 0.0 ==> DrawdownFrom(peak, equity) >= -1.0
  {
    if peak.Fin? && peak.value > 0.0 {
      var p := peak.value;
      DivMonotone(equity - p, 0.0, p);
      if equity >= 0.0 {
        DivMonotone(-p, equity - p, p);
        assert -p / p == -1.0;
      }
    }
  }

  /** No sample ever sits above its running peak, so no drawdown is positive;
      a non-negative equity never falls more than 100% below it. */
  lemma {:induction false} DrawdownBounds(s: seq<Sample>, i: nat)
    requires i < |s|
    ensures |Series(s)| == |s|
    ensures Series(s)[i].drawdown <= 0.0
    ensures s[i].equity >= 0.0 ==> Series(s)[i].drawdown >= -1.0
  {
    SeriesAt(s, i);
    var prefix := s[..i + 1];
    PeakIsMax(prefix);
    assert Equities(prefix)[i] == s[i].equity;
    DrawdownFromBounds(PeakOf(prefix), s[i].equity);
  }

  /** A sample at or above every earlier sample sets the peak and has zero
      drawdown. */
  lemma {:induction false} NewPeakNoDrawdown(s: seq<Sample>, i: nat)
    requires i < |s|
    requires forall j :: 0 <= j < i ==> s[j].equity <= s[i].equity
    ensures |Series(s)| == |s|
    ensures PeakOf(s[..i + 1]) == Fin(s[i].equity)
    ensures Series(s)[i].drawdown == 0.0
  {
    SeriesAt(s, i);
    var prefix := s[..i + 1];
    PeakIsMax(prefix);
    var m := SeqMax(Equities(prefix));
    assert Equities(prefix)[i] == s[i].equity;
    assert forall j :: 0 <= j < |prefix| ==> Equities(prefix)[j] <= s[i].equity;
    assert m == s[i].equity;
  }

  /** An equity curve that never falls is never under water. */
  lemma NonDecreasingFlat(s: seq<Sample>)
    requires forall i, j :: 0 <= i < j < |s| ==> s[i].equity <= s[j].equity
    ensures |Series(s)| == |s|
    ensures forall i :: 0 <= i < |s| ==> Series(s)[i].drawdown == 0.0
  {
    SeriesShape(s);
    forall i | 0 <= i < |s| ensures Series(s)[i].drawdown == 0.0 {
      NewPeakNoDrawdown(s, i);
    }
  }
}
