/** The event-surprise diagnostic's matching and classification: an economic
    event is matched to the 15-minute bar containing or just following it,
    the price reaction is measured over fixed windows of bars, and the
    surprises are split into beats, misses and in-line releases. Times are
    whole seconds. */
module EventSurprise {
  import opened Wrappers

  /** Bar timestamps in ascending order, as a time index keeps them. */
  predicate Ascending(bars: seq<int>)
  {
    forall i, j :: 0 <= i < j < |bars| ==> bars[i] <= bars[j]
  }

  /** Binary search for the first position in [lo, hi) whose timestamp is
      not before `t`. */
  function BisectLeft(bars: seq<int>, t: int, lo: nat, hi: nat): (i: nat)
    requires lo <= hi <= |bars| && Ascending(bars)
    requires lo > 0 ==> bars[lo - 1] < t
    requires hi < |bars| ==> bars[hi] >= t
    ensures lo <= i <= hi
    ensures forall j :: 0 <= j < i ==> bars[j] < t
    ensures forall j :: i <= j < |bars| ==> bars[j] >= t
    decreases hi - lo
  {
    if lo == hi then lo
    else
      var mid := (lo + hi) / 2;
      if bars[mid] < t then BisectLeft(bars, t, mid + 1, hi) else BisectLeft(bars, t, lo, mid)
  }

  const ForwardWindow := 1800
  const BarSeconds := 900

  /** The bar an event belongs to: the first bar at or after it if that bar
      opens within 30 minutes, else the last bar before it if the event
      falls inside that bar's 15 minutes, else none. */
  function FindEventBar(t: int, bars: seq<int>): (r: Option<nat>)
    requires Ascending(bars)
    ensures r.Some? ==> r.value < |bars|
    ensures r.Some? ==> (0 <= bars[r.value] - t <= ForwardWindow) || (0 <= t - bars[r.value] < BarSeconds)
    ensures r.Some? && bars[r.value] >= t ==> forall k :: 0 <= k < r.value ==> bars[k] < t
    ensures r.Some? && bars[r.value] < t ==>
      && (forall k :: r.value < k < |bars| ==> bars[k] >= t)
      && (forall k :: 0 <= k < |bars| ==> !(0 <= bars[k] - t <= ForwardWindow))
  {
    var idx := BisectLeft(bars, t, 0, |bars|);
    if idx < |bars| && 0 <= bars[idx] - t <= ForwardWindow then Some(idx)
    else if idx > 0 && 0 <= t - bars[idx - 1] < BarSeconds then Some(idx - 1)
    else None
  }

  /** A bar opening within 30 minutes after the event always wins, and it is
      the earliest bar not before the event. */
  lemma FollowingBarPreferred(t: int, bars: seq<int>, j: nat)
    requires Ascending(bars) && j < |bars| && 0 <= bars[j] - t <= ForwardWindow
    ensures var r := FindEventBar(t, bars);
      r.Some? && t <= bars[r.value] <= bars[j]
      && forall k :: 0 <= k < r.value ==> bars[k] < t
  {
  }

  /** No match means no bar opens in the 30 minutes from the event and the
      event falls inside no bar's 15 minutes. */
  lemma NoMatchMeansNoBar(t: int, bars: seq<int>)
    requires Ascending(bars) && FindEventBar(t, bars).None?
    ensures forall j :: 0 <= j < |bars| ==> !(0 <= bars[j] - t <= ForwardWindow)
    ensures forall j :: 0 <= j < |bars| ==> !(0 <= t - bars[j] < BarSeconds)
  {
    var idx := BisectLeft(bars, t, 0, |bars|);
    assert idx < |bars| ==> bars[idx] - t > ForwardWindow;
    assert idx > 0 ==> t - bars[idx - 1] >= BarSeconds;
    forall j | 0 <= j < |bars| ensures !(0 <= bars[j] - t <= ForwardWindow) {
      if j >= idx {
        assert bars[idx] <= bars[j];
      }
    }
    forall j | 0 <= j < |bars| ensures !(0 <= t - bars[j] < BarSeconds) {
      if j < idx {
        assert bars[j] <= bars[idx - 1];
      } else {
        assert bars[idx] <= bars[j];
      }
    }
  }


  /** A reaction window: its name and its length in bars. */
  type Window = (string, nat)

  function MaxBars(windows: seq<Window>): (m: nat)
    requires windows != []
    ensures forall j :: 0 <= j < |windows| ==> windows[j].1 <= m
    ensures exists j :: 0 <= j < |windows| && windows[j].1 == m
  {
    if |windows| == 1 then windows[0].1
    else
      var rest := MaxBars(windows[..|windows| - 1]);
      var last := windows[|windows| - 1].1;
      assert forall j :: 0 <= j < |windows| - 1 ==> windows[..|windows| - 1][j] == windows[j];
      if last > rest then last else rest
  }

  /** The percentage move from `from` to `to`. */
  function PctChange(from: real, to: real): (pct: real)
    requires from != 0.0
    ensures from * (1.0 + pct / 100.0) == to
  {
    (to - from) / from * 100.0
  }

  /** A move up from a positive price is a positive change, a move down a
      negative one. */
  lemma PctChangeSign(from: real, to: real)
    requires from > 0.0
    ensures to > from <==> PctChange(from, to) > 0.0
    ensures to < from <==> PctChange(from, to) < 0.0
  {
    var pct := PctChange(from, to);
    assert from * pct == (to - from) * 100.0;
  }

  /** The close-to-close move over each window from the event bar, or none
      when the longest window runs past the data or the event close is 0. */
  method MeasureReaction(closes: seq<real>, barPos: nat, windows: seq<Window>)
    returns (reactions: Option<seq<(string, real)>>)
    requires windows != []
    ensures reactions.None? <==> barPos + MaxBars(windows) >= |closes| || closes[barPos] == 0.0
    ensures reactions.Some? ==>
      && |reactions.value| == |windows|
      && forall j :: 0 <= j < |windows| ==>
        && barPos + windows[j].1 < |closes|
        && reactions.value[j] == (windows[j].0, PctChange(closes[barPos], closes[barPos + windows[j].1]))
  {
    var maxBars := MaxBars(windows);
    if barPos + maxBars >= |closes| {
      return None;
    }
    var eventClose := closes[barPos];
    if eventClose == 0.0 {
      return None;
    }
    var out: seq<(string, real)> := [];
    for j := 0 to |windows|
      invariant |out| == j
      invariant forall k :: 0 <= k < j ==>
        out[k] == (windows[k].0, PctChange(eventClose, closes[barPos + windows[k].1]))
    {
      var futureClose := closes[barPos + windows[j].1];
      var pct := (futureClose - eventClose) / eventClose * 100.0;
      out := out + [(windows[j].0, pct)];
    }
    return Some(out);
  }

  /** The positions of `s` whose value lies in the class `c` of the
      threshold `t`, in ascending order. */
  function Positions(s: seq<real>, t: real, c: Class): seq<nat>
  {
    if s == [] then []
    else Positions(s[..|s| - 1], t, c) + (if ClassOf(s[|s| - 1], t) == c then [|s| - 1] else [])
  }

  datatype Class = Beat | Miss | Inline

  /** A surprise above the threshold beats, one below its negation misses,
      anything else is in line. */
  function ClassOf(x: real, t: real): Class
  {
    if x > t then Beat else if x < -t then Miss else Inline
  }

  /** Splits the surprises into beats, misses and in-line releases by index;
      fewer than three surprises are not classified at all. The threshold
      (half the standard deviation, or a small floor) is supplied. */
  method ClassifySurprises(surprises: seq<real>, threshold: real)
    returns (beats: seq<nat>, misses: seq<nat>, inlines: seq<nat>)
    ensures |surprises| < 3 ==> beats == [] && misses == [] && inlines == []
    ensures |surprises| >= 3 ==>
      && beats == Positions(surprises, threshold, Beat)
      && misses == Positions(surprises, threshold, Miss)
      && inlines == Positions(surprises, threshold, Inline)
  {
    if |surprises| < 3 {
      return [], [], [];
    }
    beats, misses, inlines := [], [], [];
    for i := 0 to |surprises|
      invariant beats == Positions(surprises[..i], threshold, Beat)
      invariant misses == Positions(surprises[..i], threshold, Miss)
      invariant inlines == Positions(surprises[..i], threshold, Inline)
    {
      assert surprises[..i + 1][..i] == surprises[..i];
      var s := surprises[i];
      if s > threshold {
        beats := beats + [i];
      } else if s < -threshold {
        misses := misses + [i];
      } else {
        inlines := inlines + [i];
      }
    }
    assert surprises[..|surprises|] == surprises;
  }

  /** Each class lists exactly the indices of its surprises, in strictly
      ascending order. */
  lemma {:induction false} PositionsMeaning(s: seq<real>, t: real, c: Class)
    ensures forall i: nat :: i in Positions(s, t, c) <==> i < |s| && ClassOf(s[i], t) == c
    ensures forall a, b :: 0 <= a < b < |Positions(s, t, c)| ==> Positions(s, t, c)[a] < Positions(s, t, c)[b]
  {
    if s != [] {
      var init := s[..|s| - 1];
      PositionsMeaning(init, t, c);
      forall i: nat ensures i in Positions(s, t, c) <==> i < |s| && ClassOf(s[i], t) == c {
        if i < |s| - 1 {
          assert init[i] == s[i];
        }
      }
      var p := Positions(init, t, c);
      forall k | 0 <= k < |p| ensures p[k] < |s| - 1 {
        assert p[k] in p;
      }
    }
  }

  /** The three lists partition the indices: every surprise lands in exactly
      one of them, so their lengths add up to the number of surprises. */
  lemma {:induction false} Partition(s: seq<real>, t: real)
    ensures |Positions(s, t, Beat)| + |Positions(s, t, Miss)| + |Positions(s, t, Inline)| == |s|
    ensures forall i :: 0 <= i < |s| ==>
      i in Positions(s, t, Beat) || i in Positions(s, t, Miss) || i in Positions(s, t, Inline)
    ensures forall i ::
      && !(i in Positions(s, t, Beat) && i in Positions(s, t, Miss))
      && !(i in Positions(s, t, Beat) && i in Positions(s, t, Inline))
      && !(i in Positions(s, t, Miss) && i in Positions(s, t, Inline))
  {
    if s != [] {
      Partition(s[..|s| - 1], t);
    }
    PositionsMeaning(s, t, Beat);
    PositionsMeaning(s, t, Miss);
    PositionsMeaning(s, t, Inline);
  }

  /** With a positive threshold a surprise of zero is in line, and a beat and
      a miss are at least twice the threshold apart. */
  lemma BeatsAndMissesApart(x: real, y: real, t: real)
    requires t > 0.0 && ClassOf(x, t) == Beat && ClassOf(y, t) == Miss
    ensures x - y > 2.0 * t && ClassOf(0.0, t) == Inline
  {
  }
}
