/** The dashboard's data shaping: the chained filters and sort behind the run
    matrix, the option lists of the filter menus, the per-edge yearly
    drill-down and the win-rate display rule. */
module Dashboard {
  import opened Wrappers
  import opened Text
  import opened Sorting

  /** One backtest run as the dashboard receives it. */
  datatype TestRun = TestRun(
    testId: string, strategy: string, symbol: string, timeframe: string, startDate: string,
    returnPct: real, maxDrawdown: real, winRate: real)

  /** The filter menus and the sort toggle. */
  datatype Selection = Selection(
    strategy: string, symbol: string, timeframe: string, year: string, sortByReturn: bool)

  /** An edge card: its strategy, symbol and (possibly missing) timeframe. */
  datatype Edge = Edge(strategy: string, symbol: string, timeframe: Option<string>, avgWinRate: real)

  /** The menu value that disables a filter. */
  const All: string := "All"
  const DefaultEdgeTimeframe: string := "1h"

  /** The elements of `s` that `keep` accepts, in order. */
  function Filter<T>(s: seq<T>, keep: T -> bool): (r: seq<T>)
    ensures |r| <= |s|
  {
    if s == [] then []
    else if keep(s[|s| - 1]) then Filter(s[..|s| - 1], keep) + [s[|s| - 1]]
    else Filter(s[..|s| - 1], keep)
  }

  /** Filtering keeps exactly the accepted elements, each as often as it occurs. */
  lemma {:induction false} FilterCounts<T>(s: seq<T>, keep: T -> bool)
    ensures forall x :: multiset(Filter(s, keep))[x] == if keep(x) then multiset(s)[x] else 0
  {
    if s != [] {
      var init := s[..|s| - 1];
      FilterCounts(init, keep);
      assert s == init + [s[|s| - 1]];
    }
  }

  /** Filtering twice is filtering once by both tests. */
  lemma {:induction false} FilterTwice<T>(s: seq<T>, p: T -> bool, q: T -> bool)
    ensures Filter(Filter(s, p), q) == Filter(s, x => p(x) && q(x))
  {
    if s != [] {
      var init := s[..|s| - 1];
      FilterTwice(init, p, q);
      if p(s[|s| - 1]) {
        var f := Filter(init, p);
        assert (f + [s[|s| - 1]])[..|f|] == f;
      }
    }
  }

  lemma {:induction false} FilterAll<T>(s: seq<T>, keep: T -> bool)
    requires forall x :: keep(x)
    ensures Filter(s, keep) == s
  {
    if s != [] {
      FilterAll(s[..|s| - 1], keep);
    }
  }

  /** The year a run starts in: `start_date.split('-')[0]`. */
  function YearOf(r: TestRun): string
  {
    PrefixBefore(r.startDate, '-')
  }

  predicate StrategyOk(sel: Selection, r: TestRun) { sel.strategy == All || r.strategy == sel.strategy }
  predicate SymbolOk(sel: Selection, r: TestRun) { sel.symbol == All || r.symbol == sel.symbol }
  predicate TimeframeOk(sel: Selection, r: TestRun) { sel.timeframe == All || r.timeframe == sel.timeframe }
  predicate YearOk(sel: Selection, r: TestRun) { sel.year == All || StartsWith(r.startDate, sel.year) }

  /** A run passes every active filter. */
  predicate Matches(sel: Selection, r: TestRun)
  {
    StrategyOk(sel, r) && SymbolOk(sel, r) && TimeframeOk(sel, r) && YearOk(sel, r)
  }

  /** The filters applied one after another, each only when its menu is not 'All'. */
  function Chained(runs: seq<TestRun>, sel: Selection): seq<TestRun>
  {
    var a := if sel.strategy != All then Filter(runs, (r: TestRun) => r.strategy == sel.strategy) else runs;
    var b := if sel.symbol != All then Filter(a, (r: TestRun) => r.symbol == sel.symbol) else a;
    var c := if sel.timeframe != All then Filter(b, (r: TestRun) => r.timeframe == sel.timeframe) else b;
    if sel.year != All then Filter(c, (r: TestRun) => StartsWith(r.startDate, sel.year)) else c
  }

  /** The chain equals one filter by the conjunction of the active tests. */
  lemma ChainIsConjunction(runs: seq<TestRun>, sel: Selection)
    ensures Chained(runs, sel) == Filter(runs, (r: TestRun) => Matches(sel, r))
  {
    var t0 := (r: TestRun) => true;
    FilterAll(runs, t0);
    var a := if sel.strategy != All then Filter(runs, (r: TestRun) => r.strategy == sel.strategy) else runs;
    var t1 := (r: TestRun) => t0(r) && StrategyOk(sel, r);
    FilterStep(runs, t0, sel.strategy != All, (r: TestRun) => r.strategy == sel.strategy, t1);
    assert a == Filter(runs, t1);
    var b := if sel.symbol != All then Filter(a, (r: TestRun) => r.symbol == sel.symbol) else a;
    var t2 := (r: TestRun) => t1(r) && SymbolOk(sel, r);
    FilterStep(runs, t1, sel.symbol != All, (r: TestRun) => r.symbol == sel.symbol, t2);
    assert b == Filter(runs, t2);
    var c := if sel.timeframe != All then Filter(b, (r: TestRun) => r.timeframe == sel.timeframe) else b;
    var t3 := (r: TestRun) => t2(r) && TimeframeOk(sel, r);
    FilterStep(runs, t2, sel.timeframe != All, (r: TestRun) => r.timeframe == sel.timeframe, t3);
    assert c == Filter(runs, t3);
    var t4 := (r: TestRun) => t3(r) && YearOk(sel, r);
    FilterStep(runs, t3, sel.year != All, (r: TestRun) => StartsWith(r.startDate, sel.year), t4);
    FilterCongruent(runs, t4, (r: TestRun) => Matches(sel, r));
  }

  /** One link of the chain: filtering by `test` when `active`, after `acc`,
      is filtering once by `next`, the conjunction of `acc` and the link. */
  lemma FilterStep<T>(s: seq<T>, acc: T -> bool, active: bool, test: T -> bool, next: T -> bool)
    requires forall x :: next(x) == (acc(x) && (!active || test(x)))
    ensures (if active then Filter(Filter(s, acc), test) else Filter(s, acc)) == Filter(s, next)
  {
    if active {
      FilterTwice(s, acc, test);
      FilterCongruent(s, x => acc(x) && test(x), next);
    } else {
      FilterCongruent(s, acc, next);
    }
  }

  /** Filtering depends only on which elements the test accepts. */
  lemma {:induction false} FilterCongruent<T>(s: seq<T>, p: T -> bool, q: T -> bool)
    requires forall x :: p(x) == q(x)
    ensures Filter(s, p) == Filter(s, q)
  {
    if s != [] {
      FilterCongruent(s[..|s| - 1], p, q);
    }
  }

  /** Largest return first: `b.return_pct - a.return_pct`. */
  predicate ByReturnDesc(a: TestRun, b: TestRun) { a.returnPct >= b.returnPct }

  /** Earliest start first: `a.start_date.localeCompare(b.start_date)`. */
  predicate ByDateAsc(a: TestRun, b: TestRun) { LexLe(a.startDate, b.startDate) }

  /** Latest start first: `b.start_date.localeCompare(a.start_date)`. */
  predicate ByDateDesc(a: TestRun, b: TestRun) { LexLe(b.startDate, a.startDate) }

  lemma LexLeIsTotalPreorder()
    ensures TotalPreorder((a: string, b: string) => LexLe(a, b))
  {
    forall x: string, y: string ensures LexLe(x, y) || LexLe(y, x) {
      LexLeTotal(x, y);
    }
    forall x: string, y: string, z: string | LexLe(x, y) && LexLe(y, z) ensures LexLe(x, z) {
      LexLeTransitive(x, y, z);
    }
  }

  lemma OrdersArePreorders()
    ensures TotalPreorder(ByReturnDesc)
    ensures TotalPreorder(ByDateAsc)
    ensures TotalPreorder(ByDateDesc)
  {
    LexLeIsTotalPreorder();
    forall x: TestRun, y: TestRun ensures ByDateAsc(x, y) || ByDateAsc(y, x) {
      LexLeTotal(x.startDate, y.startDate);
    }
    forall x: TestRun, y: TestRun, z: TestRun | ByDateAsc(x, y) && ByDateAsc(y, z) ensures ByDateAsc(x, z) {
      LexLeTransitive(x.startDate, y.startDate, z.startDate);
    }
    forall x: TestRun, y: TestRun ensures ByDateDesc(x, y) || ByDateDesc(y, x) {
      LexLeTotal(x.startDate, y.startDate);
    }
    forall x: TestRun, y: TestRun, z: TestRun | ByDateDesc(x, y) && ByDateDesc(y, z) ensures ByDateDesc(x, z) {
      LexLeTransitive(z.startDate, y.startDate, x.startDate);
    }
  }

  /** The run matrix: the runs passing every active filter, each kept as
      often as it occurs, ordered by return (descending) or by start date. */
  method FilteredRuns(runs: seq<TestRun>, sel: Selection) returns (res: seq<TestRun>)
    ensures forall r :: r in res ==> Matches(sel, r)
    ensures forall r :: multiset(res)[r] == if Matches(sel, r) then multiset(runs)[r] else 0
    ensures sel.sortByReturn ==> SortedBy(res, ByReturnDesc)
    ensures !sel.sortByReturn ==> SortedBy(res, ByDateAsc)
    ensures StablePermutation(Chained(runs, sel), res, if sel.sortByReturn then ByReturnDesc else ByDateAsc)
  {
    var kept := Chained(runs, sel);
    ChainIsConjunction(runs, sel);
    FilterCounts(runs, (r: TestRun) => Matches(sel, r));
    OrdersArePreorders();
    if sel.sortByReturn {
      res := SortSeq(kept, ByReturnDesc);
    } else {
      res := SortSeq(kept, ByDateAsc);
    }
    forall r | r in res ensures Matches(sel, r) {
      assert multiset(res)[r] > 0;
    }
  }

  /** The distinct values of `s` in order of first occurrence (a JavaScript
      `Set` spread into an array). */
  function Distinct<T(==,!new)>(s: seq<T>): (r: seq<T>)
    ensures forall x :: x in r <==> x in s
    ensures forall i, j :: 0 <= i < j < |r| ==> r[i] != r[j]
  {
    if s == [] then []
    else
      var d := Distinct(s[..|s| - 1]);
      if s[|s| - 1] in d then d else d + [s[|s| - 1]]
  }

  /** `x` occurs in `s` before every occurrence of `y`. */
  ghost predicate SeenBefore<T>(s: seq<T>, x: T, y: T)
  {
    forall b :: 0 <= b < |s| && s[b] == y ==> x in s[..b]
  }

  /** The distinct values keep the order of their first occurrences. */
  lemma {:induction false} DistinctOrder<T(!new)>(s: seq<T>)
    ensures forall i, j :: 0 <= i < j < |Distinct(s)| ==> SeenBefore(s, Distinct(s)[i], Distinct(s)[j])
  {
    if s != [] {
      var init := s[..|s| - 1];
      var z := s[|s| - 1];
      var d := Distinct(init);
      var r := Distinct(s);
      assert s[..|s| - 1] == init;
      assert r == if z in d then d else d + [z];
      DistinctOrder(init);
      forall i, j | 0 <= i < j < |r| ensures SeenBefore(s, r[i], r[j]) {
        forall b | 0 <= b < |s| && s[b] == r[j] ensures r[i] in s[..b] {
          if j < |d| {
            assert r[i] == d[i] && r[j] == d[j];
            if b < |init| {
              assert s[..b] == init[..b] && init[b] == d[j];
              assert SeenBefore(init, d[i], d[j]);
            } else {
              assert s[..b] == init;
            }
          } else {
            assert r[j] == z && z !in init;
            assert b == |init|;
            assert s[..b] == init && r[i] in d;
          }
        }
      }
    }
  }

  /** A filter menu: 'All' and then every value that occurs, once each. */
  function OptionList(values: seq<string>): (r: seq<string>)
    ensures |r| >= 1 && r[0] == All
    ensures forall v :: v in values ==> v in r[1..]
    ensures forall v :: v in r[1..] ==> v in values
    ensures forall i, j :: 1 <= i < j < |r| ==> r[i] != r[j]
    ensures forall i, j :: 1 <= i < j < |r| ==> SeenBefore(values, r[i], r[j])
  {
    var d := Distinct(values);
    DistinctOrder(values);
    assert forall i :: 1 <= i < |d| + 1 ==> ([All] + d)[i] == d[i - 1];
    [All] + d
  }

  /** One field of every run, in run order (`runs.map(r => r.field)`). */
  function Column(runs: seq<TestRun>, field: TestRun -> string): (r: seq<string>)
    ensures |r| == |runs| && forall i :: 0 <= i < |runs| ==> r[i] == field(runs[i])
  {
    if runs == [] then [] else Column(runs[..|runs| - 1], field) + [field(runs[|runs| - 1])]
  }

  /** A column holds exactly the field values of the runs. */
  lemma ColumnCovers(runs: seq<TestRun>, field: TestRun -> string)
    ensures forall r :: r in runs ==> field(r) in Column(runs, field)
    ensures forall v :: v in Column(runs, field) ==> exists r :: r in runs && field(r) == v
  {
    forall r | r in runs ensures field(r) in Column(runs, field) {
      var i :| 0 <= i < |runs| && runs[i] == r;
      assert Column(runs, field)[i] == field(r);
    }
    forall v | v in Column(runs, field) ensures exists r :: r in runs && field(r) == v {
      var i :| 0 <= i < |runs| && Column(runs, field)[i] == v;
      assert runs[i] in runs;
    }
  }

  /** The strategy, symbol and timeframe menus: after 'All', every value some
      run has, and only those, each once. */
  lemma MenuOfColumn(runs: seq<TestRun>, field: TestRun -> string)
    ensures var menu := OptionList(Column(runs, field));
      && (forall r :: r in runs ==> field(r) in menu[1..])
      && (forall v :: v in menu[1..] ==> exists r :: r in runs && field(r) == v)
      && (forall i, j :: 1 <= i < j < |menu| ==> menu[i] != menu[j])
  {
    ColumnCovers(runs, field);
  }

  /** The year menu: 'All', then each start year once, in ascending order. */
  method YearOptions(runs: seq<TestRun>) returns (opts: seq<string>)
    ensures |opts| >= 1 && opts[0] == All
    ensures SortedBy(opts[1..], (a: string, b: string) => LexLe(a, b))
    ensures forall r :: r in runs ==> YearOf(r) in opts[1..]
    ensures forall y :: y in opts[1..] ==> exists r :: r in runs && YearOf(r) == y
    ensures forall i, j :: 1 <= i < j < |opts| ==> opts[i] != opts[j]
  {
    var distinct := Distinct(Column(runs, YearOf));
    LexLeIsTotalPreorder();
    var sorted := SortSeq(distinct, (a: string, b: string) => LexLe(a, b));
    opts := [All] + sorted;
    assert opts[1..] == sorted;
    ColumnCovers(runs, YearOf);
    SameElements(distinct, sorted);
  }

  /** A reordering of a duplicate-free sequence has the same elements and no
      duplicates. */
  lemma SameElements<T>(d: seq<T>, s: seq<T>)
    requires multiset(s) == multiset(d)
    requires forall i, j :: 0 <= i < j < |d| ==> d[i] != d[j]
    ensures forall x :: x in s <==> x in d
    ensures forall i, j :: 0 <= i < j < |s| ==> s[i] != s[j]
  {
    forall x ensures x in s <==> x in d {
      assert x in s <==> multiset(s)[x] > 0;
      assert x in d <==> multiset(d)[x] > 0;
    }
    forall i, j | 0 <= i < j < |s| ensures s[i] != s[j] {
      if s[i] == s[j] {
        DuplicateCount(s, i, j);
        DistinctCount(d, s[i]);
        assert false;
      }
    }
  }

  lemma DuplicateCount<T>(s: seq<T>, i: nat, j: nat)
    requires i < j < |s| && s[i] == s[j]
    ensures multiset(s)[s[i]] >= 2
  {
    assert s == s[..i] + [s[i]] + s[i + 1..j] + [s[j]] + s[j + 1..];
  }

  lemma {:induction false} DistinctCount<T>(s: seq<T>, x: T)
    requires forall i, j :: 0 <= i < j < |s| ==> s[i] != s[j]
    ensures multiset(s)[x] <= 1
  {
    if s != [] {
      var init := s[..|s| - 1];
      DistinctCount(init, x);
      assert s == init + [s[|s| - 1]];
      if s[|s| - 1] == x {
        assert x !in init;
      }
    }
  }

  /** `edge.timeframe || '1h'`: a missing or empty timeframe means hourly. */
  function EdgeTimeframe(e: Edge): (tf: string)
    ensures tf != ""
    ensures e.timeframe.Some? && e.timeframe.value != "" ==> tf == e.timeframe.value
  {
    if e.timeframe.Some? && e.timeframe.value != "" then e.timeframe.value else DefaultEdgeTimeframe
  }

  predicate OfEdge(e: Edge, r: TestRun)
  {
    r.strategy == e.strategy && r.symbol == e.symbol && r.timeframe == EdgeTimeframe(e)
  }

  /** The runs of an edge, in the order of `runs`. */
  function EdgeMembers(runs: seq<TestRun>, e: Edge): seq<TestRun>
  {
    Filter(runs, (r: TestRun) => OfEdge(e, r))
  }

  /** The yearly breakdown of an edge: its runs, latest start first. */
  method EdgeRuns(runs: seq<TestRun>, e: Edge) returns (rows: seq<TestRun>)
    ensures forall r :: multiset(rows)[r] == if OfEdge(e, r) then multiset(runs)[r] else 0
    ensures SortedBy(rows, ByDateDesc)
    ensures StablePermutation(EdgeMembers(runs, e), rows, ByDateDesc)
  {
    var kept := EdgeMembers(runs, e);
    FilterCounts(runs, (r: TestRun) => OfEdge(e, r));
    OrdersArePreorders();
    rows := SortSeq(kept, ByDateDesc);
  }

  /** Win rates above 1 are taken to be percentages already; others are
      fractions and are scaled to percent. */
  function WinRatePercent(v: real): (p: real)
    ensures 0.0 <= v <= 100.0 ==> 0.0 <= p <= 100.0
    ensures v > 1.0 ==> p == v
    ensures v <= 1.0 ==> p == v * 100.0
  {
    if v > 1.0 then v else v * 100.0
  }
}
