/** The parameter sweep: every combination of a parameter grid is backtested
    once for one symbol and timeframe, combinations already recorded by the
    experiment tracker are skipped, and the scored runs come back best
    first. */
module Sweep {
  import opened Wrappers
  import opened Grid
  import opened Sorting

  /** A strategy parameter value. */
  datatype Value = Num(num: real) | Str(str: string) | Flag(flag: bool)

  type Params = map<string, Value>

  const SymbolKey := "symbol"

  /** One grid entry: a parameter name and the values to try for it. */
  type Axis = (string, seq<Value>)

  function Keys(grid: seq<Axis>): (ks: seq<string>)
    ensures |ks| == |grid| && forall k :: 0 <= k < |grid| ==> ks[k] == grid[k].0
  {
    if grid == [] then [] else [grid[0].0] + Keys(grid[1..])
  }

  function ValueLists(grid: seq<Axis>): (vs: seq<seq<Value>>)
    ensures |vs| == |grid| && forall k :: 0 <= k < |grid| ==> vs[k] == grid[k].1
  {
    if grid == [] then [] else [grid[0].1] + ValueLists(grid[1..])
  }

  /** A grid is a dictionary: no parameter name appears twice. */
  predicate DistinctKeys(grid: seq<Axis>)
  {
    forall i, j :: 0 <= i < j < |grid| ==> grid[i].0 != grid[j].0
  }

  /** The dictionary pairing each key with the value at the same position. */
  function Zip(keys: seq<string>, combo: seq<Value>): Params
    requires |keys| == |combo|
  {
    if keys == [] then map[] else Zip(keys[1..], combo[1..])[keys[0] := combo[0]]
  }

  lemma {:induction false} ZipAt(keys: seq<string>, combo: seq<Value>)
    requires |keys| == |combo|
    requires forall i, j :: 0 <= i < j < |keys| ==> keys[i] != keys[j]
    ensures Zip(keys, combo).Keys == set k | k in keys
    ensures forall k :: 0 <= k < |keys| ==> Zip(keys, combo)[keys[k]] == combo[k]
  {
    if keys != [] {
      ZipAt(keys[1..], combo[1..]);
      forall k | 0 < k < |keys| ensures Zip(keys, combo)[keys[k]] == combo[k] {
        assert keys[k] == keys[1..][k - 1];
      }
    }
  }

  /** The grid's combinations, in product order; no grid (or an empty one)
      gives a single empty combination. */
  function ExpandGrid(grid: Option<seq<Axis>>): seq<Params>
  {
    if grid.None? || grid.value == [] then [map[]]
    else
      var keys := Keys(grid.value);
      var combos := Product(ValueLists(grid.value));
      seq(|combos|, i requires 0 <= i < |combos| =>
        ProductMembers(ValueLists(grid.value), combos[i]);
        Zip(keys, combos[i]))
  }

  /** The combinations are exactly the ways of picking one listed value per
      parameter: each binds every parameter to one of its values, every such
      binding occurs, and there are as many as the product of the list
      lengths. */
  lemma ExpandGridMeaning(grid: seq<Axis>)
    requires grid != [] && DistinctKeys(grid)
    ensures |ExpandGrid(Some(grid))| == CountProduct(ValueLists(grid))
    ensures forall p :: p in ExpandGrid(Some(grid)) ==> Binds(grid, p)
    ensures forall c :: |c| == |grid| && (forall k :: 0 <= k < |grid| ==> c[k] in grid[k].1) ==>
      Zip(Keys(grid), c) in ExpandGrid(Some(grid))
  {
    ProductLength(ValueLists(grid));
    forall p | p in ExpandGrid(Some(grid)) ensures Binds(grid, p) {
      CombinationBinds(grid, p);
    }
    forall c | |c| == |grid| && (forall k :: 0 <= k < |grid| ==> c[k] in grid[k].1)
      ensures Zip(Keys(grid), c) in ExpandGrid(Some(grid))
    {
      BindingListed(grid, c);
    }
  }

  lemma CombinationBinds(grid: seq<Axis>, p: Params)
    requires grid != [] && DistinctKeys(grid) && p in ExpandGrid(Some(grid))
    ensures Binds(grid, p)
  {
    var vs := ValueLists(grid);
    var combos := Product(vs);
    var out := ExpandGrid(Some(grid));
    var i :| 0 <= i < |out| && out[i] == p;
    ProductMembers(vs, combos[i]);
    ZipAt(Keys(grid), combos[i]);
  }

  lemma BindingListed(grid: seq<Axis>, c: seq<Value>)
    requires grid != [] && |c| == |grid| && forall k :: 0 <= k < |grid| ==> c[k] in grid[k].1
    ensures Zip(Keys(grid), c) in ExpandGrid(Some(grid))
  {
    var vs := ValueLists(grid);
    var combos := Product(vs);
    ProductComplete(vs, c);
    var i :| 0 <= i < |combos| && combos[i] == c;
    assert ExpandGrid(Some(grid))[i] == Zip(Keys(grid), c);
  }

  /** `p` binds exactly the grid's parameters, each to one of its values. */
  predicate Binds(grid: seq<Axis>, p: Params)
  {
    && p.Keys == (set k | 0 <= k < |grid| :: grid[k].0)
    && forall k :: 0 <= k < |grid| ==> p[grid[k].0] in grid[k].1
  }

  /** What backtesting and scoring one combination gave: an exception, or a
      score together with whether the tracker managed to record the run. */
  datatype Outcome = Crashed | Scored(score: real, saved: bool)

  /** A recorded experiment, as the tracker looks it up. */
  datatype Experiment = Experiment(strategy: string, symbol: string, timeframe: string, params: Params)

  datatype SweepResult = SweepResult(params: Params, score: real)

  /** The fixed inputs of one sweep. */
  datatype SweepRun = SweepRun(
    strategy: string, symbol: string, timeframe: string, skipTested: bool,
    evaluate: Params -> Outcome)

  /** The running state of the sweep loop. */
  datatype Tally = Tally(results: seq<SweepResult>, skipped: nat, errors: nat, recorded: set<Experiment>)

  /** A combination with the sweep's symbol filled in. */
  function WithSymbol(run: SweepRun, params: Params): (p: Params)
    ensures p.Keys == params.Keys + {SymbolKey} && p[SymbolKey] == Str(run.symbol)
  {
    params[SymbolKey := Str(run.symbol)]
  }

  function KeyOf(run: SweepRun, p: Params): Experiment
  {
    Experiment(run.strategy, run.symbol, run.timeframe, p)
  }

  /** One combination: skipped when already recorded and skipping is on;
      otherwise backtested, a score appended, the run recorded, and any
      exception (from the backtest or from recording it) counted. */
  function Step(run: SweepRun, t: Tally, params: Params): Tally
  {
    var p := WithSymbol(run, params);
    if run.skipTested && KeyOf(run, p) in t.recorded then t.(skipped := t.skipped + 1)
    else
      match run.evaluate(p)
      case Crashed => t.(errors := t.errors + 1)
      case Scored(score, saved) =>
        if saved then t.(results := t.results + [SweepResult(p, score)], recorded := t.recorded + {KeyOf(run, p)})
        else t.(results := t.results + [SweepResult(p, score)], errors := t.errors + 1)
  }

  /** The state after the loop has seen all of `combos`. */
  function RunAll(run: SweepRun, start: Tally, combos: seq<Params>): Tally
  {
    if combos == [] then start else Step(run, RunAll(run, start, combos[..|combos| - 1]), combos[|combos| - 1])
  }

  predicate ByScoreDesc(a: SweepResult, b: SweepResult)
  {
    a.score >= b.score
  }

  lemma ScoreOrderIsPreorder()
    ensures TotalPreorder(ByScoreDesc)
  {
  }

  /** The sort keeps equal scores in the order they were collected, so the
      reported best is the FIRST collected result with the highest score. */
  lemma ReportedBest(collected: seq<SweepResult>, sorted: seq<SweepResult>, m: nat)
    requires SortedBy(sorted, ByScoreDesc) && StablePermutation(collected, sorted, ByScoreDesc)
    requires m < |collected| && forall k :: 0 <= k < |collected| ==> collected[k].score <= collected[m].score
    requires forall k :: 0 <= k < m ==> collected[k].score < collected[m].score
    ensures sorted[0] == collected[m]
  {
    ScoreOrderIsPreorder();
    StableHead(collected, sorted, ByScoreDesc, m);
  }

  /** The tracker records every scored run. */
  ghost predicate SaveNeverFails(run: SweepRun)
  {
    forall p :: run.evaluate(p).Scored? ==> run.evaluate(p).saved
  }

  /** Every combination is counted once: as skipped, as a result, or as an
      error; a result whose recording failed is both a result and an error,
      and when recording never fails the three counts add up exactly. */
  lemma {:induction false} Accounting(run: SweepRun, recorded: set<Experiment>, combos: seq<Params>)
    ensures var t := RunAll(run, Tally([], 0, 0, recorded), combos);
      t.skipped + |t.results| <= |combos| <= t.skipped + |t.results| + t.errors
    ensures var t := RunAll(run, Tally([], 0, 0, recorded), combos);
      SaveNeverFails(run) ==> t.skipped + |t.results| + t.errors == |combos|
  {
    if combos != [] {
      Accounting(run, recorded, combos[..|combos| - 1]);
    }
  }

  /** Every result carries the sweep's symbol and comes from one of the
      combinations; with skipping on, none was recorded before the sweep. */
  lemma {:induction false} ResultsFromCombos(run: SweepRun, start: Tally, combos: seq<Params>)
    requires start.results == []
    ensures var t := RunAll(run, start, combos);
      forall r :: r in t.results ==>
        && SymbolKey in r.params && r.params[SymbolKey] == Str(run.symbol)
        && (exists i :: 0 <= i < |combos| && r.params == WithSymbol(run, combos[i]))
        && (run.skipTested ==> KeyOf(run, r.params) !in start.recorded)
    ensures start.recorded <= RunAll(run, start, combos).recorded
  {
    if combos != [] {
      var init := combos[..|combos| - 1];
      ResultsFromCombos(run, start, init);
      var t := RunAll(run, start, init);
      forall r | r in RunAll(run, start, combos).results
        ensures exists i :: 0 <= i < |combos| && r.params == WithSymbol(run, combos[i])
      {
        if r !in t.results {
          assert r.params == WithSymbol(run, combos[|combos| - 1]);
        } else {
          var i :| 0 <= i < |init| && r.params == WithSymbol(run, init[i]);
          assert combos[i] == init[i];
        }
      }
    }
  }

  /** With skipping on and recording never failing, no combination is
      backtested twice within a sweep, even when the grid repeats a value:
      the results have pairwise different parameters. */
  lemma {:induction false} EachComboOnce(run: SweepRun, recorded: set<Experiment>, combos: seq<Params>)
    requires run.skipTested && SaveNeverFails(run)
    ensures var t := RunAll(run, Tally([], 0, 0, recorded), combos);
      && (forall r :: r in t.results ==> KeyOf(run, r.params) in t.recorded)
      && (forall i, j :: 0 <= i < j < |t.results| ==> t.results[i].params != t.results[j].params)
  {
    if combos != [] {
      var init := combos[..|combos| - 1];
      EachComboOnce(run, recorded, init);
      var t := RunAll(run, Tally([], 0, 0, recorded), init);
      var p := WithSymbol(run, combos[|combos| - 1]);
      if KeyOf(run, p) !in t.recorded && run.evaluate(p).Scored? {
        assert run.evaluate(p).saved;
        forall i | 0 <= i < |t.results| ensures t.results[i].params != p {
          assert t.results[i] in t.results;
        }
      }
    }
  }

  /** The sweep's loop over the combinations: skips those already recorded
      (when skipping is on), runs the others, and counts the errors; the
      tracker's records grow with every saved result. */
  method SweepLoop(run: SweepRun, combos: seq<Params>, recorded: set<Experiment>)
    returns (collected: seq<SweepResult>, skipped: nat, errors: nat, recordedAfter: set<Experiment>)
    ensures Tally(collected, skipped, errors, recordedAfter) == RunAll(run, Tally([], 0, 0, recorded), combos)
  {
    collected, skipped, errors, recordedAfter := [], 0, 0, recorded;
    ghost var start := Tally([], 0, 0, recorded);
    for i := 0 to |combos|
      invariant Tally(collected, skipped, errors, recordedAfter) == RunAll(run, start, combos[..i])
    {
      assert RunAll(run, start, combos[..i + 1]) == Step(run, RunAll(run, start, combos[..i]), combos[i]) by {
        assert combos[..i + 1][..i] == combos[..i];
      }
      var params := combos[i][SymbolKey := Str(run.symbol)];
      var key := Experiment(run.strategy, run.symbol, run.timeframe, params);
      if run.skipTested && key in recordedAfter {
        skipped := skipped + 1;
        continue;
      }
      var outcome := run.evaluate(params);
      match outcome {
        case Crashed =>
          errors := errors + 1;
        case Scored(score, saved) =>
          collected := collected + [SweepResult(params, score)];
          if saved {
            recordedAfter := recordedAfter + {key};
          } else {
            errors := errors + 1;
          }
      }
    }
    assert combos[..|combos|] == combos;
  }

  /** The engine's accumulated results and the experiments its tracker has
      recorded. */
  class SweepEngine {
    const spread: real
    const initialCapital: real
    var results: seq<SweepResult>
    var experiments: set<Experiment>

    constructor (spread: real, initialCapital: real, experiments: set<Experiment>)
      ensures this.spread == spread && this.initialCapital == initialCapital
      ensures results == [] && this.experiments == experiments
    {
      this.spread := spread;
      this.initialCapital := initialCapital;
      results := [];
      this.experiments := experiments;
    }

    /** Sweeps the grid for one strategy, symbol and timeframe. Without data
        nothing runs; otherwise the results are those of the loop, best
        score first, and are added to the engine's results. The two counts
        are the ones the sweep reports in its summary. */
    method RunSweep(grid: Option<seq<Axis>>, run: SweepRun, hasData: bool)
      returns (sweepResults: seq<SweepResult>, skipped: nat, errors: nat)
      modifies this
      ensures !hasData ==> sweepResults == [] && results == old(results) && experiments == old(experiments)
      ensures hasData ==>
        var t := RunAll(run, Tally([], 0, 0, old(experiments)), ExpandGrid(grid));
        && SortedBy(sweepResults, ByScoreDesc)
        && multiset(sweepResults) == multiset(t.results)
        && StablePermutation(t.results, sweepResults, ByScoreDesc)
        && skipped == t.skipped && errors == t.errors
        && experiments == t.recorded
        && results == old(results) + sweepResults
    {
      if !hasData {
        return [], 0, 0;
      }
      var combos := ExpandGrid(grid);
      var collected, recorded;
      collected, skipped, errors, recorded := SweepLoop(run, combos, experiments);
      experiments := recorded;
      ScoreOrderIsPreorder();
      sweepResults := SortSeq(collected, ByScoreDesc);
      results := results + sweepResults;
    }
  }
}
