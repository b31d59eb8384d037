/** The monthly sales series of the overview pages: the window's facts
    grouped by the month of `issued_at` (`to_period('M')`), the months
    between the first and the last observed one filled in with 0
    (`reindex(...).fillna(0)`), and the month-over-month growth
    (`pct_change() * 100`, then `fillna(0)`). ibiomed.py also averages the
    growth of the observed months, without the filled-in ones. */
module Monthly {
  import opened Common
  import opened Seqs
  import opened Calendar
  import opened Records
  import opened Ordering
  import opened Reconcile

  function MonthOf(f: Fact): int { MonthIndex(f.key.issuedAt) }

  /** The months of the facts, each once, ascending: the groups of
      `groupby(issued_at.dt.to_period('M'))`. */
  function ObservedMonths(w: seq<Fact>): seq<int> {
    AscendingKeys(w, MonthOf)
  }

  /** The summed `item_sales` of month `m`; 0 for a month without facts. */
  function MonthTotal(w: seq<Fact>, m: int): real {
    SumWhere(w, MonthOf, m, FactItemSales)
  }

  /** One row of the monthly grouping: a month and its summed sales. */
  datatype MonthRow = MonthRow(month: int, total: real)

  /** `groupby(to_period('M')).agg({'item_sales': 'sum'})`. */
  function ObservedTotals(w: seq<Fact>): (r: seq<MonthRow>)
    ensures |r| == |ObservedMonths(w)|
    ensures forall i :: 0 <= i < |r| ==>
      r[i].month == ObservedMonths(w)[i] && r[i].total == MonthTotal(w, r[i].month)
  {
    var ms := ObservedMonths(w);
    seq(|ms|, i requires 0 <= i < |ms| => MonthRow(ms[i], MonthTotal(w, ms[i])))
  }

  /** The position of the row of month `m`, if there is one. */
  function MonthPosition(rows: seq<MonthRow>, m: int): (r: Option<nat>)
    ensures r.Some? ==> r.value < |rows| && rows[r.value].month == m
    ensures r.Some? ==> forall j :: 0 <= j < r.value ==> rows[j].month != m
    ensures r.None? ==> forall j :: 0 <= j < |rows| ==> rows[j].month != m
  {
    if rows == [] then None
    else if rows[0].month == m then Some(0)
    else
      match MonthPosition(rows[1..], m)
      case None => None
      case Some(i) => Some(i + 1)
  }

  /** The total that `reindex(...).fillna(0)` finds for month `m`: the row
      of that month, or 0 when there is none. */
  function Lookup(rows: seq<MonthRow>, m: int): real {
    match MonthPosition(rows, m)
    case None => 0.0
    case Some(i) => rows[i].total
  }

  /** Looking a month up among the observed totals gives its total. */
  lemma LookupObserved(w: seq<Fact>, m: int)
    ensures Lookup(ObservedTotals(w), m) == MonthTotal(w, m)
  {
    var rows := ObservedTotals(w);
    var ms := ObservedMonths(w);
    AscendingKeysMembers(w, MonthOf);
    if m in ms {
      var i :| 0 <= i < |ms| && ms[i] == m;
      assert rows[i].month == m;
    } else {
      forall f | f in w ensures MonthOf(f) != m {
      }
      SumWhereAbsent(w, MonthOf, m, FactItemSales);
    }
  }

  /** The growth of one month over the previous one, in percent:
      `pct_change() * 100` followed by `fillna(0)`. After a month with no
      sales it is an infinity, or 0 when this month has none either. */
  function Growth(prev: real, curr: real): (g: Ext)
    ensures prev != 0.0 ==> g == Fin((curr - prev) / prev * 100.0)
    ensures prev == 0.0 && curr == 0.0 ==> g == Fin(0.0)
    ensures prev == 0.0 && curr > 0.0 ==> g == PosInf
    ensures prev == 0.0 && curr < 0.0 ==> g == NegInf
  {
    FillNaN(Percent(curr - prev, prev), 0.0)
  }

  /** One bar of the monthly chart. */
  datatype Bucket = Bucket(month: int, total: real, growth: Ext)

  function BucketTotal(b: Bucket): real { b.total }

  /** The first observed month (`monthly_sales['month'].min()`). */
  function FirstMonth(w: seq<Fact>): int
    requires w != []
  {
    AscendingKeysBounds(w, MonthOf);
    ObservedMonths(w)[0]
  }

  /** The last observed month (`monthly_sales['month'].max()`). */
  function LastMonth(w: seq<Fact>): int
    requires w != []
  {
    AscendingKeysBounds(w, MonthOf);
    var ms := ObservedMonths(w);
    ms[|ms| - 1]
  }

  /** The first and the last observed month are the earliest and the
      latest month of a fact. */
  lemma MonthRange(w: seq<Fact>)
    requires w != []
    ensures forall f :: f in w ==> FirstMonth(w) <= MonthOf(f) <= LastMonth(w)
    ensures exists f :: f in w && MonthOf(f) == FirstMonth(w)
    ensures exists f :: f in w && MonthOf(f) == LastMonth(w)
    ensures FirstMonth(w) <= LastMonth(w)
  {
    MonthBounds(w);
    MonthEnds(w);
    assert w[0] in w;
  }

  lemma MonthBounds(w: seq<Fact>)
    requires w != []
    ensures forall f :: f in w ==> FirstMonth(w) <= MonthOf(f) <= LastMonth(w)
  {
    AscendingKeysBounds(w, MonthOf);
  }

  lemma MonthEnds(w: seq<Fact>)
    requires w != []
    ensures exists f :: f in w && MonthOf(f) == FirstMonth(w)
    ensures exists f :: f in w && MonthOf(f) == LastMonth(w)
  {
    AscendingKeysEnds(w, MonthOf);
  }

  /** One bucket for every month from `lo` to `hi`, with the month's total
      (0 for a month without facts) and its growth over the month before;
      the first month's growth is 0. */
  function FilledSeries(w: seq<Fact>, lo: int, hi: int): (r: seq<Bucket>)
    requires lo <= hi
    ensures |r| == hi - lo + 1
    ensures forall i :: 0 <= i < |r| ==> r[i].month == lo + i
    ensures forall i :: 0 <= i < |r| ==> r[i].total == MonthTotal(w, r[i].month)
    ensures r[0].growth == Fin(0.0)
    ensures forall i :: 0 < i < |r| ==> r[i].growth == Growth(r[i - 1].total, r[i].total)
  {
    seq(hi - lo + 1, i requires 0 <= i <= hi - lo =>
      Bucket(lo + i, MonthTotal(w, lo + i),
             if i == 0 then Fin(0.0) else Growth(MonthTotal(w, lo + i - 1), MonthTotal(w, lo + i))))
  }

  /** The gap-filled series of a window: from its first to its last
      observed month. */
  function MonthlySeries(w: seq<Fact>): (r: seq<Bucket>)
    requires w != []
    ensures r != [] && r[0].month == FirstMonth(w) && r[|r| - 1].month == LastMonth(w)
  {
    MonthRange(w);
    FilledSeries(w, FirstMonth(w), LastMonth(w))
  }

  /** The observed totals run from the first to the last observed month. */
  lemma ObservedEnds(w: seq<Fact>)
    requires w != []
    ensures var rows := ObservedTotals(w);
      rows != [] && rows[0].month == FirstMonth(w) && rows[|rows| - 1].month == LastMonth(w)
      && FirstMonth(w) <= LastMonth(w)
  {
    AscendingKeysBounds(w, MonthOf);
    assert w[0] in w;
  }

  /** The buckets `reindex(...).fillna(0)` and `pct_change()` make of the
      grouped rows for the months `lo..hi`. */
  function GapFilled(rows: seq<MonthRow>, lo: int, hi: int): (r: seq<Bucket>)
    requires lo <= hi
    ensures |r| == hi - lo + 1
  {
    seq(hi - lo + 1, i requires 0 <= i <= hi - lo =>
      Bucket(lo + i, Lookup(rows, lo + i),
             if i == 0 then Fin(0.0) else Growth(Lookup(rows, lo + i - 1), Lookup(rows, lo + i))))
  }

  /** Filling the gaps of the observed totals gives the series of the window. */
  lemma GapFilledObserved(w: seq<Fact>, lo: int, hi: int)
    requires lo <= hi
    ensures GapFilled(ObservedTotals(w), lo, hi) == FilledSeries(w, lo, hi)
  {
    var a, b := GapFilled(ObservedTotals(w), lo, hi), FilledSeries(w, lo, hi);
    forall i | 0 <= i < |a| ensures a[i] == b[i] {
      LookupObserved(w, lo + i);
      if i > 0 {
        LookupObserved(w, lo + i - 1);
      }
    }
  }

  /** app.py:126-149 and ibiomed.py:124-147, step by step: group by month,
      then fill the gaps and add the growth column. An empty window has no
      series: the range of months of an empty frame cannot be built. */
  method MonthlySalesTable(w: seq<Fact>) returns (r: Option<seq<Bucket>>)
    ensures w == [] ==> r == None
    ensures w != [] ==> r == Some(MonthlySeries(w))
  {
    if w == [] {
      return None;
    }
    var observed := ObservedTotals(w);
    ObservedEnds(w);
    var buckets := FillMonths(observed, observed[0].month, observed[|observed| - 1].month);
    GapFilledObserved(w, FirstMonth(w), LastMonth(w));
    return Some(buckets);
  }

  /** Reindexes the grouped rows over the months `lo..hi` with 0 for the
      missing ones, then computes the growth column. */
  method FillMonths(observed: seq<MonthRow>, lo: int, hi: int) returns (buckets: seq<Bucket>)
    requires lo <= hi
    ensures buckets == GapFilled(observed, lo, hi)
  {
    var filled: seq<MonthRow> := [];
    var m := lo;
    while m <= hi
      invariant lo <= m <= hi + 1
      invariant |filled| == m - lo
      invariant forall i :: 0 <= i < |filled| ==> filled[i] == MonthRow(lo + i, Lookup(observed, lo + i))
    {
      filled := filled + [MonthRow(m, Lookup(observed, m))];
      m := m + 1;
    }
    var series := GapFilled(observed, lo, hi);
    buckets := [];
    for i := 0 to |filled|
      invariant |buckets| == i
      invariant forall j :: 0 <= j < i ==> buckets[j] == series[j]
    {
      var g := if i == 0 then Fin(0.0) else Growth(filled[i - 1].total, filled[i].total);
      buckets := buckets + [Bucket(filled[i].month, filled[i].total, g)];
    }
  }

  /** Every fact falls in a bucket of the series. */
  lemma SeriesCoversFacts(w: seq<Fact>)
    requires w != []
    ensures forall f :: f in w ==> exists i :: 0 <= i < |MonthlySeries(w)| && MonthlySeries(w)[i].month == MonthOf(f)
  {
    var r := MonthlySeries(w);
    MonthRange(w);
    forall f | f in w ensures exists i :: 0 <= i < |r| && r[i].month == MonthOf(f) {
      var i := MonthOf(f) - FirstMonth(w);
      assert r[i].month == MonthOf(f);
    }
  }

  /** A month of the range with no facts has a zero bucket. */
  lemma GapMonthZero(w: seq<Fact>, i: int)
    requires w != [] && 0 <= i < |MonthlySeries(w)|
    requires forall f :: f in w ==> MonthOf(f) != MonthlySeries(w)[i].month
    ensures MonthlySeries(w)[i].total == 0.0
  {
    SumWhereAbsent(w, MonthOf, MonthlySeries(w)[i].month, FactItemSales);
  }

  /** The buckets from position `k` on add up to the facts of their months. */
  lemma {:induction false} FilledTailSum(w: seq<Fact>, lo: int, hi: int, k: nat)
    requires lo <= hi && k <= hi - lo + 1
    ensures Sum(FilledSeries(w, lo, hi)[k..], BucketTotal)
      == SumOverKeys(Range(lo + k, hi), w, MonthOf, FactItemSales)
    decreases hi - lo + 1 - k
  {
    var r := FilledSeries(w, lo, hi);
    if k < |r| {
      FilledTailSum(w, lo, hi, k + 1);
      assert r[k..][1..] == r[k + 1..];
      assert Range(lo + k, hi)[1..] == Range(lo + k + 1, hi);
    }
  }

  lemma FilledSum(w: seq<Fact>, lo: int, hi: int)
    requires lo <= hi
    ensures Sum(FilledSeries(w, lo, hi), BucketTotal) == SumOverKeys(Range(lo, hi), w, MonthOf, FactItemSales)
  {
    FilledTailSum(w, lo, hi, 0);
    assert FilledSeries(w, lo, hi)[0..] == FilledSeries(w, lo, hi);
  }

  /** Gap-filling adds only zeros: the buckets add up to the window's sales. */
  lemma SeriesSum(w: seq<Fact>)
    requires w != []
    ensures Sum(MonthlySeries(w), BucketTotal) == Sum(w, FactItemSales)
  {
    MonthRange(w);
    FilledSum(w, FirstMonth(w), LastMonth(w));
    RangeSum(w, MonthOf, FactItemSales, FirstMonth(w), LastMonth(w));
  }

  // ---------------------------------------------------------------------
  // Average growth (ibiomed.py:109-115)

  /** `pct_change() * 100` of the observed totals, without filling: the
      first entry is NaN. */
  function ObservedGrowths(rows: seq<MonthRow>): (g: seq<Ext>)
    ensures |g| == |rows|
    ensures |rows| > 0 ==> g[0] == NaN
    ensures forall i :: 0 < i < |rows| ==> g[i] == Percent(rows[i].total - rows[i - 1].total, rows[i - 1].total)
  {
    seq(|rows|, i requires 0 <= i < |rows| =>
      if i == 0 then NaN else Percent(rows[i].total - rows[i - 1].total, rows[i - 1].total))
  }

  /** `monthly_growth['item_sales'].mean()`. With fewer than two observed
      months there is no growth to average. */
  function AverageGrowth(w: seq<Fact>): (a: Ext)
    ensures |ObservedMonths(w)| < 2 ==> a == NaN
  {
    var g := ObservedGrowths(ObservedTotals(w));
    assert |g| == 1 ==> g[1..] == [];
    MeanSkipNaN(g)
  }

  /** When no observed month has zero sales, the average is the mean of the
      growths of the observed months after the first. */
  lemma AverageGrowthFinite(w: seq<Fact>)
    requires |ObservedMonths(w)| >= 2
    requires forall i :: 0 <= i < |ObservedTotals(w)| ==> ObservedTotals(w)[i].total != 0.0
    ensures AverageGrowth(w) == Fin(SumFinite(ObservedGrowths(ObservedTotals(w)))
                                   / (|ObservedTotals(w)| - 1) as real)
  {
    MeanGrowthFinite(ObservedTotals(w));
  }

  lemma MeanGrowthFinite(rows: seq<MonthRow>)
    requires |rows| >= 2
    requires forall i :: 0 <= i < |rows| ==> rows[i].total != 0.0
    ensures MeanSkipNaN(ObservedGrowths(rows)) == Fin(SumFinite(ObservedGrowths(rows)) / (|rows| - 1) as real)
  {
    var g := ObservedGrowths(rows);
    assert forall i :: 0 < i < |g| ==> g[i].Fin?;
    CountPresentAll(g[1..]);
    assert CountPresent(g) == |rows| - 1;
  }

  lemma {:induction false} CountPresentAll(xs: seq<Ext>)
    requires forall i :: 0 <= i < |xs| ==> xs[i].Fin?
    ensures CountPresent(xs) == |xs|
  {
    if xs != [] {
      CountPresentAll(xs[1..]);
    }
  }
}
