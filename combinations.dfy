/** The combination generator: every entry, exit, filter and sizer of the
    block lists, in product order, with the entry/exit/filter pairings that
    make no sense dropped by a small type system on block names. Blocks are
    represented by their names, which is all the generator looks at. */
module Combinations {
  import opened Text
  import opened Grid
  import BuildingBlocks

  const MeanReversion := "mean_reversion"
  const Trend := "trend"
  const Generic := "generic"
  const NoFilter := "no_filter"

  const EntryType: map<string, string> := map[
    "stochrsi_cross" := MeanReversion, "macd_cross" := Trend, "bollinger_bounce" := MeanReversion,
    "donchian_breakout" := Trend, "rsi_extreme" := MeanReversion, "sma_cross" := Trend]

  const ExitType: map<string, string> := map[
    "opposite_zone" := MeanReversion, "atr_stop" := Generic, "bollinger_exit" := MeanReversion,
    "donchian_exit" := Trend, "trailing_atr" := Generic]

  const FilterCompat: map<string, seq<string>> := map[
    MeanReversion := [NoFilter, "adx_ranging", "chop_ranging", "sma_uptrend"],
    Trend := [NoFilter, "adx_trending", "chop_trending", "sma_uptrend"]]

  /** A block's name without its parameter list: everything before the first
      '(' or the whole name when there is none. */
  function BaseName(name: string): (base: string)
    ensures base <= name && '(' !in base
    ensures |base| < |name| ==> name[|base|] == '('
  {
    PrefixBefore(name, '(')
  }

  function TypeOf(types: map<string, string>, name: string): (t: string)
    ensures BaseName(name) in types ==> t == types[BaseName(name)]
    ensures BaseName(name) !in types ==> t == Generic
  {
    var base := BaseName(name);
    if base in types then types[base] else Generic
  }

  function AllowedFilters(entryType: string): seq<string>
  {
    if entryType in FilterCompat then FilterCompat[entryType] else [NoFilter]
  }

  /** The exit must share the entry's type or be generic, and the filter
      must be one the entry's type allows. */
  predicate IsCompatible(entry: string, exit: string, filter: string)
  {
    var entryType := TypeOf(EntryType, entry);
    var exitType := TypeOf(ExitType, exit);
    if exitType != entryType && exitType != Generic then false
    else BaseName(filter) in AllowedFilters(entryType)
  }

  /** An entry the type system does not know is generic: it pairs only with
      generic exits (or unknown ones) and takes no filter. */
  lemma UnknownEntry(entry: string, exit: string, filter: string)
    requires BaseName(entry) !in EntryType
    ensures IsCompatible(entry, exit, filter) <==> TypeOf(ExitType, exit) == Generic && BaseName(filter) == NoFilter
  {
  }

  /** Trend entries never pair with mean-reversion exits, nor the other way
      round. */
  lemma NoCrossedStyles(entry: string, exit: string, filter: string)
    requires TypeOf(EntryType, entry) != TypeOf(ExitType, exit)
    requires TypeOf(ExitType, exit) != Generic
    ensures !IsCompatible(entry, exit, filter)
  {
  }

  /** Leaving a position unfiltered is always allowed: every compatible
      entry/exit pair is compatible with no filter. */
  lemma NoFilterAlwaysAllowed(entry: string, exit: string, filter: string)
    requires IsCompatible(entry, exit, filter)
    ensures IsCompatible(entry, exit, NoFilter)
  {
    NoFilterBase();
  }

  lemma NoFilterBase()
    ensures BaseName(NoFilter) == NoFilter
  {
    BaseOfPlain(NoFilter);
  }

  /** The base name of a name whose first '(' is at position i (or that
      has none, i being its length). */
  lemma BaseNameOf(name: string, i: nat)
    requires i <= |name| && (i < |name| ==> name[i] == '(')
    requires forall j :: 0 <= j < i ==> name[j] != '('
    ensures BaseName(name) == name[..i]
  {
  }

  /** A block name with a parameter list has the name before it as base. */
  lemma BaseOfCall(base: string, params: string)
    requires '(' !in base
    ensures BaseName(base + "(" + params) == base
  {
    BaseNameOf(base + "(" + params, |base|);
  }

  /** A block name without a parameter list is its own base. */
  lemma BaseOfPlain(name: string)
    requires '(' !in name
    ensures BaseName(name) == name
  {
    BaseNameOf(name, |name|);
  }

  /** The StochRSI entry takes its zone exit and a ranging filter, whatever
      the blocks' parameters. */
  lemma ZonePairing(p1: string, p2: string, p3: string)
    ensures IsCompatible("stochrsi_cross" + "(" + p1, "opposite_zone" + "(" + p2, "adx_ranging" + "(" + p3)
  {
    BaseOfCall("stochrsi_cross", p1);
    BaseOfCall("opposite_zone", p2);
    BaseOfCall("adx_ranging", p3);
  }

  /** A breakout entry takes a generic trailing stop and a trending filter. */
  lemma BreakoutPairing(entry: string, p2: string, p3: string)
    requires BaseName(entry) == "donchian_breakout"
    ensures IsCompatible(entry, "trailing_atr" + "(" + p2, "chop_trending" + "(" + p3)
  {
    BaseOfCall("trailing_atr", p2);
    BaseOfCall("chop_trending", p3);
  }

  /** A breakout entry never takes the mean-reversion zone exit. */
  lemma BreakoutRejectsZoneExit(entry: string, p2: string, filter: string)
    requires BaseName(entry) == "donchian_breakout"
    ensures !IsCompatible(entry, "opposite_zone" + "(" + p2, filter)
  {
    BaseOfCall("opposite_zone", p2);
  }

  /** A trend entry never takes a ranging filter, even with a generic exit. */
  lemma TrendRejectsRanging(p2: string, p3: string)
    ensures !IsCompatible("macd_cross", "atr_stop" + "(" + p2, "adx_ranging" + "(" + p3)
  {
    MacdIsTrend();
    AtrStopIsGeneric(p2);
    AdxRangingBase(p3);
    RangingNotForTrend();
  }

  lemma MacdIsTrend()
    ensures TypeOf(EntryType, "macd_cross") == Trend
  {
    BaseOfPlain("macd_cross");
  }

  lemma AtrStopIsGeneric(params: string)
    ensures TypeOf(ExitType, "atr_stop" + "(" + params) == Generic
  {
    BaseOfCall("atr_stop", params);
  }

  lemma AdxRangingBase(params: string)
    ensures BaseName("adx_ranging" + "(" + params) == "adx_ranging"
  {
    BaseOfCall("adx_ranging", params);
  }

  lemma RangingNotForTrend()
    ensures "adx_ranging" !in AllowedFilters(Trend)
  {
    assert AllowedFilters(Trend) == [NoFilter, "adx_trending", "chop_trending", "sma_uptrend"];
  }

  /** One generated combination: the parameters handed to the composable
      strategy, blocks named, with its label. */
  datatype Combination = Combination(
    symbol: string, entry: string, exit: string, filter: string, sizer: string, labelText: string)

  function Label(entry: string, exit: string, filter: string, sizer: string): string
  {
    entry + " | " + exit + " | " + filter + " | " + sizer
  }

  /** A block list, or the defaults when none (or an empty one) is given. */
  function OrDefault(given: seq<string>, defaults: seq<string>): (r: seq<string>)
    ensures r == if given == [] then defaults else given
  {
    if given == [] then defaults else given
  }

  function MakeCombination(symbol: string, t: seq<string>): Combination
    requires |t| == 4
  {
    Combination(symbol, t[0], t[1], t[2], t[3], Label(t[0], t[1], t[2], t[3]))
  }

  predicate Keep(checkCompat: bool, t: seq<string>)
    requires |t| == 4
  {
    !checkCompat || IsCompatible(t[0], t[1], t[2])
  }

  /** The combinations built from `tuples`, each a 4-tuple, in order,
      dropping the incompatible ones when checking. */
  function Emit(symbol: string, checkCompat: bool, tuples: seq<seq<string>>): seq<Combination>
    requires forall i :: 0 <= i < |tuples| ==> |tuples[i]| == 4
  {
    if tuples == [] then []
    else
      var t := tuples[|tuples| - 1];
      Emit(symbol, checkCompat, tuples[..|tuples| - 1]) + (if Keep(checkCompat, t) then [MakeCombination(symbol, t)] else [])
  }

  function Lists(entries: seq<string>, exits: seq<string>, filters: seq<string>, sizers: seq<string>)
    : seq<seq<string>>
  {
    [OrDefault(entries, BuildingBlocks.EntryNames), OrDefault(exits, BuildingBlocks.ExitNames),
     OrDefault(filters, BuildingBlocks.FilterNames), OrDefault(sizers, BuildingBlocks.SizerNames)]
  }

  lemma TuplesHaveFour(lists: seq<seq<string>>)
    requires |lists| == 4
    ensures forall i :: 0 <= i < |Product(lists)| ==> |Product(lists)[i]| == 4
  {
    forall i | 0 <= i < |Product(lists)| ensures |Product(lists)[i]| == 4 {
      ProductMembers(lists, Product(lists)[i]);
    }
  }

  /** Generates the combinations of the given block lists (the defaults for
      any list left empty) for `symbol`. */
  method GenerateCombinations(entries: seq<string>, exits: seq<string>, filters: seq<string>,
                              sizers: seq<string>, symbol: string, checkCompat: bool)
    returns (combos: seq<Combination>)
    ensures forall i :: 0 <= i < |Product(Lists(entries, exits, filters, sizers))| ==>
      |Product(Lists(entries, exits, filters, sizers))[i]| == 4
    ensures combos == Emit(symbol, checkCompat, Product(Lists(entries, exits, filters, sizers)))
  {
    var lists := Lists(entries, exits, filters, sizers);
    var tuples := Product(lists);
    TuplesHaveFour(lists);
    combos := [];
    for i := 0 to |tuples|
      invariant combos == Emit(symbol, checkCompat, tuples[..i])
    {
      assert tuples[..i + 1][..i] == tuples[..i];
      var t := tuples[i];
      var entry, exit, filter, sizer := t[0], t[1], t[2], t[3];
      if checkCompat && !IsCompatible(entry, exit, filter) {
        continue;
      }
      var labelText := entry + " | " + exit + " | " + filter + " | " + sizer;
      combos := combos + [Combination(symbol, entry, exit, filter, sizer, labelText)];
    }
    assert tuples[..|tuples|] == tuples;
  }

  /** Every emitted combination comes from a tuple, carries the symbol and
      the label of its four names, and is compatible when checking. */
  lemma {:induction false} EmitSound(symbol: string, checkCompat: bool, tuples: seq<seq<string>>)
    requires forall i :: 0 <= i < |tuples| ==> |tuples[i]| == 4
    ensures forall c :: c in Emit(symbol, checkCompat, tuples) ==>
      && [c.entry, c.exit, c.filter, c.sizer] in tuples
      && c.symbol == symbol
      && c.labelText == Label(c.entry, c.exit, c.filter, c.sizer)
      && (checkCompat ==> IsCompatible(c.entry, c.exit, c.filter))
  {
    if tuples != [] {
      var init := tuples[..|tuples| - 1];
      EmitSound(symbol, checkCompat, init);
      var t := tuples[|tuples| - 1];
      assert [t[0], t[1], t[2], t[3]] == t;
      forall c | c in Emit(symbol, checkCompat, init) ensures [c.entry, c.exit, c.filter, c.sizer] in tuples {
        var j :| 0 <= j < |init| && init[j] == [c.entry, c.exit, c.filter, c.sizer];
        assert tuples[j] == init[j];
      }
    }
  }

  /** Every tuple that is kept is emitted. */
  lemma {:induction false} EmitComplete(symbol: string, checkCompat: bool, tuples: seq<seq<string>>, t: seq<string>)
    requires forall i :: 0 <= i < |tuples| ==> |tuples[i]| == 4
    requires t in tuples && |t| == 4 && Keep(checkCompat, t)
    ensures MakeCombination(symbol, t) in Emit(symbol, checkCompat, tuples)
  {
    var init := tuples[..|tuples| - 1];
    if t != tuples[|tuples| - 1] {
      var j :| 0 <= j < |tuples| && tuples[j] == t;
      assert init[j] == t;
      EmitComplete(symbol, checkCompat, init, t);
    }
  }

  /** Without the compatibility check nothing is dropped: combination i is
      tuple i of the product. */
  lemma {:induction false} EmitAll(symbol: string, tuples: seq<seq<string>>)
    requires forall i :: 0 <= i < |tuples| ==> |tuples[i]| == 4
    ensures |Emit(symbol, false, tuples)| == |tuples|
    ensures forall i :: 0 <= i < |tuples| ==> Emit(symbol, false, tuples)[i] == MakeCombination(symbol, tuples[i])
  {
    if tuples != [] {
      EmitAll(symbol, tuples[..|tuples| - 1]);
    }
  }

  lemma CountFour<T>(lists: seq<seq<T>>)
    requires |lists| == 4
    ensures CountProduct(lists) == |lists[0]| * (|lists[1]| * (|lists[2]| * |lists[3]|))
  {
    assert lists[1..][1..] == lists[2..] && lists[2..][1..] == lists[3..] && lists[3..][1..] == [];
    assert CountProduct(lists[3..]) == |lists[3]| * 1;
    assert CountProduct(lists[2..]) == |lists[2]| * CountProduct(lists[3..]);
    assert CountProduct(lists[1..]) == |lists[1]| * CountProduct(lists[2..]);
  }

  /** Without the check, the generator produces all |entries| x |exits| x
      |filters| x |sizers| combinations, one per product tuple in order
      (entries varying slowest, sizers fastest). */
  lemma GeneratorCount(entries: seq<string>, exits: seq<string>, filters: seq<string>, sizers: seq<string>,
                       symbol: string)
    ensures var lists := Lists(entries, exits, filters, sizers);
      forall i :: 0 <= i < |Product(lists)| ==> |Product(lists)[i]| == 4
    ensures var lists := Lists(entries, exits, filters, sizers);
      |Emit(symbol, false, Product(lists))| == |lists[0]| * (|lists[1]| * (|lists[2]| * |lists[3]|))
  {
    var lists := Lists(entries, exits, filters, sizers);
    TuplesHaveFour(lists);
    EmitAll(symbol, Product(lists));
    ProductLength(lists);
    CountFour(lists);
  }

  /** With the check, a choice of one block from each list is produced
      exactly when its entry, exit and filter are compatible. */
  lemma GeneratorExact(entries: seq<string>, exits: seq<string>, filters: seq<string>, sizers: seq<string>,
                       symbol: string, e: string, x: string, f: string, s: string)
    requires var lists := Lists(entries, exits, filters, sizers);
      e in lists[0] && x in lists[1] && f in lists[2] && s in lists[3]
    ensures var lists := Lists(entries, exits, filters, sizers);
      forall i :: 0 <= i < |Product(lists)| ==> |Product(lists)[i]| == 4
    ensures IsCompatible(e, x, f) <==>
      Combination(symbol, e, x, f, s, Label(e, x, f, s)) in Emit(symbol, true, Product(Lists(entries, exits, filters, sizers)))
  {
    var lists := Lists(entries, exits, filters, sizers);
    TuplesHaveFour(lists);
    var tuples := Product(lists);
    var t := [e, x, f, s];
    ProductComplete(lists, t);
    EmitSound(symbol, true, tuples);
    if IsCompatible(e, x, f) {
      EmitComplete(symbol, true, tuples, t);
    }
  }
}
