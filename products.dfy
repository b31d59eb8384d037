/** The products page. It works on the raw feed lines (no reconciliation),
    without the lines of the sample customer: the running sales of each
    product category month by month, the filters of the detail section, the
    three key figures and the per-product summary. */
module Products {
  import opened Common
  import opened Seqs
  import opened Strings
  import opened Ordering
  import opened Calendar
  import opened Records
  import opened Reconcile

  // ---------------------------------------------------------------------
  // The lines of the page

  /** The sample customer's number. */
  const SampleNumber := 105272981

  /** `payee_nit != 105272981`: a comparison with the number. */
  predicate NotSampleNumber(l: RawLine) { l.payeeNit != NitNumber(SampleNumber) }

  /** The lines every figure of the page is computed from. */
  function ProductLines(lines: seq<RawLine>): (r: seq<RawLine>)
    ensures forall l :: l in r <==> l in lines && l.payeeNit != NitNumber(SampleNumber)
  {
    FilterMembers(lines, NotSampleNumber);
    Filter(lines, NotSampleNumber)
  }

  /** The comparison is with a number: when the feed delivers the sample
      customer's number as text, its lines stay on the page. */
  lemma TextSampleKept(lines: seq<RawLine>)
    requires forall l :: l in lines ==> l.payeeNit == NitText("105272981")
    ensures ProductLines(lines) == lines
  {
    FilterAll(lines, NotSampleNumber);
  }

  /** `issued_at.dt.to_period('M').astype(str)`: the `YYYY-MM` text. */
  function LineMonth(l: RawLine): (m: string)
    ensures |m| == 7 && m[4] == '-'
  {
    MonthLabel(MonthIndex(l.issuedAt))
  }

  /** Month texts sort like the months, and equal texts are the same month. */
  lemma LineMonthOrder(a: RawLine, b: RawLine)
    ensures StrLess(LineMonth(a), LineMonth(b)) <==> MonthIndex(a.issuedAt) < MonthIndex(b.issuedAt)
    ensures LineMonth(a) == LineMonth(b) <==> MonthIndex(a.issuedAt) == MonthIndex(b.issuedAt)
  {
    MonthLabelOrder(MonthIndex(a.issuedAt), MonthIndex(b.issuedAt));
  }

  // ---------------------------------------------------------------------
  // The category-by-month grid

  function Category(l: RawLine): string { l.itemCategory }

  function CategoryMonth(l: RawLine): (string, string) { (l.itemCategory, LineMonth(l)) }

  /** One cell of the grid: a category, a month and an amount. */
  datatype GridCell = GridCell(category: string, month: string, sales: real)

  function CellCategory(g: GridCell): string { g.category }

  function CellSales(g: GridCell): real { g.sales }

  function CellPair(g: GridCell): (string, string) { (g.category, g.month) }

  /** `groupby(['item_category', 'month'])['item_sales'].sum()` at one pair,
      0 for a pair without lines (`reindex(..., fill_value=0)`). */
  function PairSales(lines: seq<RawLine>, c: string, m: string): real {
    SumWhere(lines, CategoryMonth, (c, m), ItemSales)
  }

  /** The categories and the months, each in order of first appearance. */
  function Categories(lines: seq<RawLine>): seq<string> { Unique(Map(lines, Category)) }

  function Months(lines: seq<RawLine>): seq<string> { Unique(Map(lines, LineMonth)) }

  /** The cells of category `c`, one per month of `ms`. */
  function GridRow(lines: seq<RawLine>, c: string, ms: seq<string>): (r: seq<GridCell>)
    ensures |r| == |ms|
    ensures forall j :: 0 <= j < |r| ==> r[j] == GridCell(c, ms[j], PairSales(lines, c, ms[j]))
  {
    if ms == [] then [] else [GridCell(c, ms[0], PairSales(lines, c, ms[0]))] + GridRow(lines, c, ms[1..])
  }

  lemma GridRowMembers(lines: seq<RawLine>, c: string, ms: seq<string>)
    ensures forall g :: (g in GridRow(lines, c, ms)
      <==> g.category == c && g.month in ms && g.sales == PairSales(lines, c, g.month))
  {
    var r := GridRow(lines, c, ms);
    forall g: GridCell | g.category == c && g.month in ms && g.sales == PairSales(lines, c, g.month)
      ensures g in r
    {
      var j :| 0 <= j < |ms| && ms[j] == g.month;
      assert r[j] == g;
    }
  }

  /** `MultiIndex.from_product([categories, months])` with each pair's sales:
      the cells category by category, months in the order of `ms`. */
  function GridOf(lines: seq<RawLine>, cs: seq<string>, ms: seq<string>): (r: seq<GridCell>)
    ensures forall i :: 0 <= i < |r| ==>
      r[i].category in cs && r[i].month in ms && r[i].sales == PairSales(lines, r[i].category, r[i].month)
  {
    if cs == [] then []
    else
      var row := GridRow(lines, cs[0], ms);
      var rest := GridOf(lines, cs[1..], ms);
      assert forall i :: 0 <= i < |rest| ==> rest[i].category in cs by {
        assert forall c :: c in cs[1..] ==> c in cs;
      }
      row + rest
  }

  /** One cell per pair of a category and a month. */
  lemma {:induction false} GridOfLength(lines: seq<RawLine>, cs: seq<string>, ms: seq<string>)
    ensures |GridOf(lines, cs, ms)| == |cs| * |ms|
  {
    if cs != [] {
      GridOfLength(lines, cs[1..], ms);
      assert |cs| * |ms| == |ms| + (|cs| - 1) * |ms|;
    }
  }

  /** Every pair of a listed category and a listed month has its cell. */
  lemma {:induction false} GridOfHas(lines: seq<RawLine>, cs: seq<string>, ms: seq<string>, c: string, m: string)
    requires c in cs && m in ms
    ensures GridCell(c, m, PairSales(lines, c, m)) in GridOf(lines, cs, ms)
  {
    var row := GridRow(lines, cs[0], ms);
    if cs[0] == c {
      GridRowMembers(lines, c, ms);
      assert GridCell(c, m, PairSales(lines, c, m)) in row;
    } else {
      assert c in cs[1..] by {
        assert cs == [cs[0]] + cs[1..];
      }
      GridOfHas(lines, cs[1..], ms, c, m);
    }
    assert GridOf(lines, cs, ms) == row + GridOf(lines, cs[1..], ms);
  }

  /** The page's grid. */
  function Grid(lines: seq<RawLine>): (g: seq<GridCell>)
    ensures |g| == |Categories(lines)| * |Months(lines)|
    ensures PairsOnce(g)
  {
    GridOfLength(lines, Categories(lines), Months(lines));
    GridOnce(lines, Categories(lines), Months(lines));
    GridOf(lines, Categories(lines), Months(lines))
  }

  /** No two cells of `g` share a category and a month. */
  predicate PairsOnce(g: seq<GridCell>) {
    forall i, j :: 0 <= i < j < |g| ==> CellPair(g[i]) != CellPair(g[j])
  }

  /** Each pair of a category and a month has exactly one cell. */
  lemma {:induction false} GridOnce(lines: seq<RawLine>, cs: seq<string>, ms: seq<string>)
    requires Distinct(cs) && Distinct(ms)
    ensures PairsOnce(GridOf(lines, cs, ms))
  {
    if cs != [] {
      var row := GridRow(lines, cs[0], ms);
      var rest := GridOf(lines, cs[1..], ms);
      assert Distinct(cs[1..]) by {
        forall i, j | 0 <= i < j < |cs[1..]| ensures cs[1..][i] != cs[1..][j] {
          assert cs[1..][i] == cs[i + 1] && cs[1..][j] == cs[j + 1];
        }
      }
      GridOnce(lines, cs[1..], ms);
      assert cs[0] !in cs[1..] by {
        forall j | 0 <= j < |cs[1..]| ensures cs[1..][j] != cs[0] {
          assert cs[1..][j] == cs[j + 1];
        }
      }
      var g := row + rest;
      forall i, j | 0 <= i < j < |g| ensures CellPair(g[i]) != CellPair(g[j]) {
        if j < |row| {
          assert g[i] == row[i] && g[j] == row[j];
          assert row[i].month == ms[i] && row[j].month == ms[j];
        } else if i >= |row| {
          assert g[i] == rest[i - |row|] && g[j] == rest[j - |row|];
          assert CellPair(rest[i - |row|]) != CellPair(rest[j - |row|]);
        } else {
          assert g[i] == row[i] && g[j] == rest[j - |row|];
          assert row[i].category == cs[0];
          assert rest[j - |row|].category in cs[1..];
          assert row[i].category != rest[j - |row|].category;
        }
      }
    }
  }

  /** Every line's category and month has its cell, with the pair's sales. */
  lemma GridCoversLines(lines: seq<RawLine>)
    ensures forall l :: l in lines ==>
      GridCell(l.itemCategory, LineMonth(l), PairSales(lines, l.itemCategory, LineMonth(l))) in Grid(lines)
  {
    forall l | l in lines
      ensures GridCell(l.itemCategory, LineMonth(l), PairSales(lines, l.itemCategory, LineMonth(l))) in Grid(lines)
    {
      var i :| 0 <= i < |lines| && lines[i] == l;
      assert Map(lines, Category)[i] == l.itemCategory;
      assert Map(lines, LineMonth)[i] == LineMonth(l);
      GridOfHas(lines, Categories(lines), Months(lines), l.itemCategory, LineMonth(l));
    }
  }

  /** A cell whose pair no line has holds 0. */
  lemma GridUnsoldZero(lines: seq<RawLine>, x: GridCell)
    requires x in Grid(lines)
    requires forall l :: l in lines ==> CategoryMonth(l) != CellPair(x)
    ensures x.sales == 0.0
  {
    var g := Grid(lines);
    var k :| 0 <= k < |g| && g[k] == x;
    SumWhereAbsent(lines, CategoryMonth, (x.category, x.month), ItemSales);
  }

  // ---------------------------------------------------------------------
  // Sorting and running totals

  /** `sort_values(by=['item_category', 'month'])`. */
  predicate CellFirst(a: GridCell, b: GridCell) {
    || StrLess(a.category, b.category)
    || (a.category == b.category && (a.month == b.month || StrLess(a.month, b.month)))
  }

  lemma CellFirstPreorder()
    ensures TotalPreorder(CellFirst)
  {
    StrLessFacts();
  }

  /** `groupby(level=0).cumsum()`: each cell carries the sales of its
      category up to and including it. */
  function Cumulative(cells: seq<GridCell>): (r: seq<GridCell>)
    ensures |r| == |cells|
    ensures forall i :: 0 <= i < |r| ==> r[i].category == cells[i].category && r[i].month == cells[i].month
  {
    seq(|cells|, i requires 0 <= i < |cells| =>
      GridCell(cells[i].category, cells[i].month, SumWhere(cells[..i + 1], CellCategory, cells[i].category, CellSales)))
  }

  /** In category order, the cells of one category are adjacent. */
  lemma Adjacent(cells: seq<GridCell>, i: int, j: int, k: int)
    requires forall a, b :: 0 <= a < b < |cells| ==> CellFirst(cells[a], cells[b])
    requires 0 <= i <= j <= k < |cells| && cells[i].category == cells[k].category
    ensures cells[j].category == cells[i].category
  {
    StrLessFacts();
    if i < j < k {
      assert CellFirst(cells[i], cells[j]) && CellFirst(cells[j], cells[k]);
    }
  }

  /** A cell of another category between two cells separates them: they
      cannot share a category. */
  lemma Separated(cells: seq<GridCell>, i: int, m: int, k: int)
    requires forall a, b :: 0 <= a < b < |cells| ==> CellFirst(cells[a], cells[b])
    requires 0 <= i <= m <= k < |cells|
    requires cells[m].category != cells[i].category || cells[m].category != cells[k].category
    ensures cells[i].category != cells[k].category
  {
    if cells[i].category == cells[k].category {
      Adjacent(cells, i, m, k);
    }
  }

  /** A running total continues its category's previous cell, or starts
      afresh at a category's first cell. */
  lemma CumulativeStep(cells: seq<GridCell>, i: int)
    requires forall a, b :: 0 <= a < b < |cells| ==> CellFirst(cells[a], cells[b])
    requires 0 <= i < |cells|
    ensures var r := Cumulative(cells);
      r[i].sales == (if i > 0 && cells[i - 1].category == cells[i].category then r[i - 1].sales else 0.0) + cells[i].sales
  {
    var c := cells[i].category;
    assert cells[..i + 1] == cells[..i] + [cells[i]];
    SumWhereAppend(cells[..i], [cells[i]], CellCategory, c, CellSales);
    if !(i > 0 && cells[i - 1].category == c) {
      EarlierCellsOther(cells, i);
      SumWhereAbsent(cells[..i], CellCategory, c, CellSales);
    }
  }

  /** Before a category's first cell there is no cell of that category. */
  lemma EarlierCellsOther(cells: seq<GridCell>, i: int)
    requires forall a, b :: 0 <= a < b < |cells| ==> CellFirst(cells[a], cells[b])
    requires 0 <= i < |cells|
    requires i == 0 || cells[i - 1].category != cells[i].category
    ensures forall x :: x in cells[..i] ==> CellCategory(x) != cells[i].category
  {
    forall j | 0 <= j < i ensures cells[j].category != cells[i].category {
      Separated(cells, j, i - 1, i);
    }
    assert forall j :: 0 <= j < i ==> cells[..i][j] == cells[j];
  }

  /** After a category's last cell there is no cell of that category. */
  lemma LaterCellsOther(cells: seq<GridCell>, i: int)
    requires forall a, b :: 0 <= a < b < |cells| ==> CellFirst(cells[a], cells[b])
    requires 0 <= i < |cells|
    requires i == |cells| - 1 || cells[i + 1].category != cells[i].category
    ensures forall x :: x in cells[i + 1..] ==> CellCategory(x) != cells[i].category
  {
    forall j | i + 1 <= j < |cells| ensures cells[j].category != cells[i].category {
      Separated(cells, i, i + 1, j);
    }
  }

  /** At a category's last cell the running total is the category's total. */
  lemma CumulativeLast(cells: seq<GridCell>, i: int)
    requires forall a, b :: 0 <= a < b < |cells| ==> CellFirst(cells[a], cells[b])
    requires 0 <= i < |cells|
    requires i == |cells| - 1 || cells[i + 1].category != cells[i].category
    ensures Cumulative(cells)[i].sales == SumWhere(cells, CellCategory, cells[i].category, CellSales)
  {
    var c := cells[i].category;
    assert cells == cells[..i + 1] + cells[i + 1..];
    SumWhereAppend(cells[..i + 1], cells[i + 1..], CellCategory, c, CellSales);
    LaterCellsOther(cells, i);
    SumWhereAbsent(cells[i + 1..], CellCategory, c, CellSales);
  }

  // ---------------------------------------------------------------------
  // Category totals

  lemma {:induction false} PairSalesOfCategory(lines: seq<RawLine>, c: string, m: string)
    ensures PairSales(lines, c, m) == SumWhere(Group(lines, Category, c), LineMonth, m, ItemSales)
  {
    if lines != [] {
      PairSalesOfCategory(lines[1..], c, m);
    }
  }

  lemma {:induction false} GridRowSum(lines: seq<RawLine>, c: string, ms: seq<string>)
    ensures Sum(GridRow(lines, c, ms), CellSales) == SumOverKeys(ms, Group(lines, Category, c), LineMonth, ItemSales)
  {
    if ms != [] {
      assert GridRow(lines, c, ms)[1..] == GridRow(lines, c, ms[1..]);
      GridRowSum(lines, c, ms[1..]);
      PairSalesOfCategory(lines, c, ms[0]);
    }
  }

  /** A category's own row of the grid adds up to the category's sales. */
  lemma GridRowCategorySum(lines: seq<RawLine>, c: string, ms: seq<string>)
    requires Distinct(ms)
    requires forall l :: l in lines ==> LineMonth(l) in ms
    ensures SumWhere(GridRow(lines, c, ms), CellCategory, c, CellSales) == SumWhere(lines, Category, c, ItemSales)
  {
    GridRowMembers(lines, c, ms);
    SumWhereAll(GridRow(lines, c, ms), CellCategory, c, CellSales);
    GridRowSum(lines, c, ms);
    var group := Group(lines, Category, c);
    assert forall l :: l in group ==> LineMonth(l) in ms;
    PartitionSum(ms, group, LineMonth, ItemSales);
    GroupSize(lines, Category, c, ItemSales);
  }

  /** When `ms` lists every month once, a category's cells add up to the
      category's sales. */
  lemma {:induction false} GridCategorySum(lines: seq<RawLine>, cs: seq<string>, ms: seq<string>, c: string)
    requires Distinct(cs) && Distinct(ms) && c in cs
    requires forall l :: l in lines ==> LineMonth(l) in ms
    ensures SumWhere(GridOf(lines, cs, ms), CellCategory, c, CellSales) == SumWhere(lines, Category, c, ItemSales)
  {
    var row := GridRow(lines, cs[0], ms);
    var rest := GridOf(lines, cs[1..], ms);
    SumWhereAppend(row, rest, CellCategory, c, CellSales);
    DistinctTail(cs);
    if cs[0] == c {
      SumWhereAbsent(rest, CellCategory, c, CellSales);
      GridRowCategorySum(lines, c, ms);
    } else {
      GridRowMembers(lines, cs[0], ms);
      SumWhereAbsent(row, CellCategory, c, CellSales);
      assert c in cs[1..] by {
        assert cs == [cs[0]] + cs[1..];
      }
      GridCategorySum(lines, cs[1..], ms, c);
    }
  }

  // ---------------------------------------------------------------------
  // The chart

  /** One point of the chart: a category's month, its running total and
      the month's own sales (the tooltip). */
  datatype ChartRow = ChartRow(category: string, month: string, cumulative: real, monthSales: real)

  /** Running totals paired, position by position, with the month sales
      of `sales`. */
  function Attach(cum: seq<GridCell>, sales: seq<GridCell>): (r: seq<ChartRow>)
    requires |cum| == |sales|
    ensures |r| == |cum|
    ensures forall i :: 0 <= i < |r| ==>
      r[i] == ChartRow(cum[i].category, cum[i].month, cum[i].sales, sales[i].sales)
  {
    seq(|cum|, i requires 0 <= i < |cum| => ChartRow(cum[i].category, cum[i].month, cum[i].sales, sales[i].sales))
  }

  /** As written: the running totals are computed on the sorted grid, but
      the month sales are attached by position in the grid's unsorted
      order. */
  function ChartAsWritten(grid: seq<GridCell>): (r: seq<ChartRow>)
    ensures |r| == |grid|
  {
    var sorted := SortBy(grid, CellFirst);
    Attach(Cumulative(sorted), grid)
  }

  /** Each point carries its own cell's month sales. */
  function Chart(grid: seq<GridCell>): (r: seq<ChartRow>)
    ensures |r| == |grid|
  {
    var sorted := SortBy(grid, CellFirst);
    Attach(Cumulative(sorted), sorted)
  }

  /** Each point shows the sales of its own category and month. */
  predicate ShowsOwnSales(lines: seq<RawLine>, r: seq<ChartRow>) {
    forall i :: 0 <= i < |r| ==> r[i].monthSales == PairSales(lines, r[i].category, r[i].month)
  }

  /** Category by category, months ascending within a category. */
  predicate CategoryThenMonth(r: seq<ChartRow>) {
    forall i, j :: 0 <= i < j < |r| ==>
      StrLess(r[i].category, r[j].category) || (r[i].category == r[j].category && StrLess(r[i].month, r[j].month))
  }

  /** Each running total continues its category's previous point, or starts
      afresh at a category's first point. */
  predicate RunningSteps(r: seq<ChartRow>) {
    forall i :: 0 <= i < |r| ==>
      r[i].cumulative == (if i > 0 && r[i - 1].category == r[i].category then r[i - 1].cumulative else 0.0) + r[i].monthSales
  }

  /** At a category's last point the running total is the category's sales. */
  predicate EndsAtCategoryTotal(lines: seq<RawLine>, r: seq<ChartRow>) {
    forall i :: 0 <= i < |r| && (i == |r| - 1 || r[i + 1].category != r[i].category) ==>
      r[i].cumulative == SumWhere(lines, Category, r[i].category, ItemSales)
  }

  /** The points of the chart are the grid's cells, in sorted order. */
  lemma ChartCells(g: seq<GridCell>)
    ensures var r := Chart(g);
      forall i :: 0 <= i < |r| ==> GridCell(r[i].category, r[i].month, r[i].monthSales) in g
  {
    var sorted := SortBy(g, CellFirst);
    forall i | 0 <= i < |sorted| ensures sorted[i] in g {
      assert sorted[i] in multiset(g);
    }
  }

  /** When no pair has two cells, the chart runs category by category,
      months in ascending order within a category. */
  lemma ChartSorted(g: seq<GridCell>)
    requires PairsOnce(g)
    ensures CategoryThenMonth(Chart(g))
  {
    var sorted := SortBy(g, CellFirst);
    CellFirstPreorder();
    SortBySorted(g, CellFirst);
    forall i, j | 0 <= i < j < |g| ensures g[i] != g[j] {
      assert CellPair(g[i]) != CellPair(g[j]);
    }
    DistinctPermutation(g, sorted);
    forall i, j | 0 <= i < j < |sorted|
      ensures StrLess(sorted[i].category, sorted[j].category)
        || (sorted[i].category == sorted[j].category && StrLess(sorted[i].month, sorted[j].month))
    {
      assert sorted[i] in multiset(g) && sorted[j] in multiset(g);
      var a :| 0 <= a < |g| && g[a] == sorted[i];
      var b :| 0 <= b < |g| && g[b] == sorted[j];
      assert a != b;
      assert CellPair(g[a]) != CellPair(g[b]) by {
        if a < b {
        } else {
        }
      }
    }
  }

  /** At a category's last point the running total is the category's total
      over the grid `g`. */
  predicate EndsAtGridTotal(g: seq<GridCell>, r: seq<ChartRow>) {
    forall i :: 0 <= i < |r| && (i == |r| - 1 || r[i + 1].category != r[i].category) ==>
      r[i].cumulative == SumWhere(g, CellCategory, r[i].category, CellSales)
  }

  /** The running total starts afresh at each category and adds each
      month's sales; at a category's last month it is the category's total
      over the grid. */
  lemma ChartRunning(g: seq<GridCell>)
    ensures RunningSteps(Chart(g))
    ensures EndsAtGridTotal(g, Chart(g))
  {
    var r := Chart(g);
    forall i | 0 <= i < |r|
      ensures r[i].cumulative == (if i > 0 && r[i - 1].category == r[i].category then r[i - 1].cumulative else 0.0) + r[i].monthSales
      ensures (i == |r| - 1 || r[i + 1].category != r[i].category) ==>
        r[i].cumulative == SumWhere(g, CellCategory, r[i].category, CellSales)
    {
      ChartPoint(g, i);
    }
  }

  lemma ChartPoint(g: seq<GridCell>, i: int)
    requires 0 <= i < |g|
    ensures var r := Chart(g);
      r[i].cumulative == (if i > 0 && r[i - 1].category == r[i].category then r[i - 1].cumulative else 0.0) + r[i].monthSales
    ensures var r := Chart(g);
      (i == |r| - 1 || r[i + 1].category != r[i].category) ==>
        r[i].cumulative == SumWhere(g, CellCategory, r[i].category, CellSales)
  {
    var sorted := SortBy(g, CellFirst);
    CellFirstPreorder();
    SortBySorted(g, CellFirst);
    CumulativeStep(sorted, i);
    if i == |sorted| - 1 || sorted[i + 1].category != sorted[i].category {
      CumulativeLast(sorted, i);
      SumWherePermutation(sorted, g, CellCategory, sorted[i].category, CellSales);
    }
  }

  /** A cell of the page's grid holds its pair's sales, for a category and
      a month of the lines. */
  lemma GridCellFacts(lines: seq<RawLine>, x: GridCell)
    requires x in Grid(lines)
    ensures x.sales == PairSales(lines, x.category, x.month)
    ensures x.category in Categories(lines) && x.month in Months(lines)
  {
    var g := Grid(lines);
    var k :| 0 <= k < |g| && g[k] == x;
  }

  /** Every point of the chart shows the sales of its own category and
      month. */
  lemma ChartMonthSales(lines: seq<RawLine>)
    ensures ShowsOwnSales(lines, Chart(Grid(lines)))
  {
    var r := Chart(Grid(lines));
    ChartCells(Grid(lines));
    forall i | 0 <= i < |r| ensures r[i].monthSales == PairSales(lines, r[i].category, r[i].month) {
      GridCellFacts(lines, GridCell(r[i].category, r[i].month, r[i].monthSales));
    }
  }

  /** The chart runs category by category, months in ascending order
      within a category. */
  lemma ChartOrder(lines: seq<RawLine>)
    ensures CategoryThenMonth(Chart(Grid(lines)))
  {
    GridOnce(lines, Categories(lines), Months(lines));
    ChartSorted(Grid(lines));
  }

  /** At a category's last month the running total is the category's
      sales. */
  lemma ChartTotals(lines: seq<RawLine>)
    ensures EndsAtCategoryTotal(lines, Chart(Grid(lines)))
  {
    var r := Chart(Grid(lines));
    forall i | 0 <= i < |r| && (i == |r| - 1 || r[i + 1].category != r[i].category)
      ensures r[i].cumulative == SumWhere(lines, Category, r[i].category, ItemSales)
    {
      ChartTotalAt(lines, i);
    }
  }

  /** The running total at a category's last point, one point at a time. */
  lemma ChartTotalAt(lines: seq<RawLine>, i: int)
    requires 0 <= i < |Chart(Grid(lines))|
    ensures var r := Chart(Grid(lines));
      (i == |r| - 1 || r[i + 1].category != r[i].category) ==>
        r[i].cumulative == SumWhere(lines, Category, r[i].category, ItemSales)
  {
    var g := Grid(lines);
    var r := Chart(g);
    ChartPoint(g, i);
    if i == |r| - 1 || r[i + 1].category != r[i].category {
      ChartCells(g);
      MonthsListed(lines);
      GridCellFacts(lines, GridCell(r[i].category, r[i].month, r[i].monthSales));
      GridCategorySum(lines, Categories(lines), Months(lines), r[i].category);
    }
  }

  lemma MonthsListed(lines: seq<RawLine>)
    ensures forall l :: l in lines ==> LineMonth(l) in Months(lines)
  {
    forall l | l in lines ensures LineMonth(l) in Months(lines) {
      var i :| 0 <= i < |lines| && lines[i] == l;
      assert Map(lines, LineMonth)[i] == LineMonth(l);
    }
  }

  /** The page's chart (pages/2:37-62): the kept lines' grid, sorted,
      with running totals per category and each point's month sales. */
  function CategoryChart(lines: seq<RawLine>): (rows: seq<ChartRow>)
    ensures CategoryThenMonth(rows)
    ensures RunningSteps(rows)
    ensures ShowsOwnSales(ProductLines(lines), rows)
    ensures EndsAtCategoryTotal(ProductLines(lines), rows)
  {
    var kept := ProductLines(lines);
    ChartMonthSales(kept);
    ChartOrder(kept);
    ChartTotals(kept);
    ChartRunning(Grid(kept));
    Chart(Grid(kept))
  }

  // ---------------------------------------------------------------------
  // The month sales attached by position

  /** Two months of one category whose grid order is not month order: the
      first chart point, the earlier month, shows the later month's
      sales as written, and its own with the corrected attachment. */
  lemma MonthSalesMisaligned(c: string, later: string, earlier: string, x: real, y: real)
    requires StrLess(earlier, later)
    ensures ChartAsWritten([GridCell(c, later, x), GridCell(c, earlier, y)])[0] == ChartRow(c, earlier, y, x)
    ensures Chart([GridCell(c, later, x), GridCell(c, earlier, y)])[0] == ChartRow(c, earlier, y, y)
  {
    var a, b := GridCell(c, later, x), GridCell(c, earlier, y);
    StrLessFacts();
    assert !CellFirst(a, b);
    SortByTwoSwapped(a, b, CellFirst);
    assert [b, a][..1] == [b];
    assert [b][1..] == [];
    assert SumWhere([b], CellCategory, c, CellSales) == y;
    assert Cumulative([b, a])[0] == GridCell(c, earlier, y);
  }

  /** Two kept lines of one category, the first one of a later month: the
      grid lists the later month first. */
  lemma LaterMonthFirst(l1: RawLine, l2: RawLine)
    requires NotSampleNumber(l1) && NotSampleNumber(l2)
    requires l1.itemCategory == l2.itemCategory && MonthIndex(l2.issuedAt) < MonthIndex(l1.issuedAt)
    ensures Grid(ProductLines([l1, l2]))
      == [GridCell(l1.itemCategory, LineMonth(l1), l1.itemSales), GridCell(l1.itemCategory, LineMonth(l2), l2.itemSales)]
    ensures StrLess(LineMonth(l2), LineMonth(l1))
  {
    var lines := [l1, l2];
    var c, m1, m2 := l1.itemCategory, LineMonth(l1), LineMonth(l2);
    FilterTwoKept(l1, l2, NotSampleNumber);
    LineMonthOrder(l2, l1);
    assert Categories(lines) == [c] by {
      assert Map(lines, Category) == [c, c];
      UniqueTwo(c, c);
    }
    assert Months(lines) == [m1, m2] by {
      assert Map(lines, LineMonth) == [m1, m2];
      UniqueTwo(m1, m2);
    }
    TwoLinesPairSales(l1, l2);
    assert GridOf(lines, [c], [m1, m2]) == GridRow(lines, c, [m1, m2]) + GridOf(lines, [], [m1, m2]);
  }

  /** Two lines of one category and two months: each month's cell holds
      its line's sales. */
  lemma TwoLinesPairSales(l1: RawLine, l2: RawLine)
    requires l1.itemCategory == l2.itemCategory && LineMonth(l1) != LineMonth(l2)
    ensures PairSales([l1, l2], l1.itemCategory, LineMonth(l1)) == l1.itemSales
    ensures PairSales([l1, l2], l1.itemCategory, LineMonth(l2)) == l2.itemSales
  {
    SumWhereTwo(l1, l2, CategoryMonth, (l1.itemCategory, LineMonth(l1)), ItemSales);
    SumWhereTwo(l1, l2, CategoryMonth, (l1.itemCategory, LineMonth(l2)), ItemSales);
  }

  /** So, with two such lines of different sales, the as-written chart's
      first point shows the wrong month's sales. */
  lemma MonthSalesMisalignedLines(l1: RawLine, l2: RawLine)
    requires NotSampleNumber(l1) && NotSampleNumber(l2)
    requires l1.itemCategory == l2.itemCategory && MonthIndex(l2.issuedAt) < MonthIndex(l1.issuedAt)
    ensures ChartAsWritten(Grid(ProductLines([l1, l2])))[0].monthSales == l1.itemSales
    ensures Chart(Grid(ProductLines([l1, l2])))[0].monthSales == l2.itemSales
    ensures Chart(Grid(ProductLines([l1, l2])))[0].month == LineMonth(l2)
  {
    LaterMonthFirst(l1, l2);
    MonthSalesMisaligned(l1.itemCategory, LineMonth(l1), LineMonth(l2), l1.itemSales, l2.itemSales);
  }

  // ---------------------------------------------------------------------
  // The detail filters

  function ItemName(l: RawLine): string { l.itemName }

  function PayeeName(l: RawLine): string { l.payeeName }

  function UnitPrice(l: RawLine): real { l.unitPrice }

  function Quantity(l: RawLine): real { l.quantity }

  /** The choices of the three filter widgets: categories, product names
      and a price range. An empty list of choices filters nothing. */
  datatype Selection = Selection(categories: seq<string>, items: seq<string>, minPrice: real, maxPrice: real)

  /** `item_category.isin(categories)`, `item_name.isin(items)` and the
      price range. */
  predicate CategoryChosen(sel: Selection, l: RawLine) { l.itemCategory in sel.categories }

  predicate ItemChosen(sel: Selection, l: RawLine) { l.itemName in sel.items }

  predicate InPriceRange(sel: Selection, l: RawLine) { sel.minPrice <= l.unitPrice <= sel.maxPrice }

  /** A chosen-categories mask that an empty choice switches off, and the
      same for names. */
  predicate InCategories(sel: Selection, l: RawLine) { sel.categories == [] || CategoryChosen(sel, l) }

  predicate InItems(sel: Selection, l: RawLine) { sel.items == [] || ItemChosen(sel, l) }

  /** The three masks together. */
  predicate Selected(sel: Selection, l: RawLine) {
    InCategories(sel, l) && InItems(sel, l) && InPriceRange(sel, l)
  }

  /** The masks as functions of a line. */
  function CategoriesMask(sel: Selection): RawLine -> bool { l => InCategories(sel, l) }

  function ItemsMask(sel: Selection): RawLine -> bool { l => InItems(sel, l) }

  function PriceMask(sel: Selection): RawLine -> bool { l => InPriceRange(sel, l) }

  function SelectedMask(sel: Selection): RawLine -> bool { l => Selected(sel, l) }

  /** pages/2:117-118: the category mask, only when categories are chosen. */
  function ByCategory(lines: seq<RawLine>, sel: Selection): (r: seq<RawLine>)
    ensures r == Filter(lines, CategoriesMask(sel))
  {
    if sel.categories != [] then
      FilterSame(lines, l => CategoryChosen(sel, l), CategoriesMask(sel));
      Filter(lines, l => CategoryChosen(sel, l))
    else
      FilterAll(lines, CategoriesMask(sel));
      lines
  }

  /** pages/2:119-120: the name mask, only when names are chosen. */
  function ByItem(lines: seq<RawLine>, sel: Selection): (r: seq<RawLine>)
    ensures r == Filter(lines, ItemsMask(sel))
  {
    if sel.items != [] then
      FilterSame(lines, l => ItemChosen(sel, l), ItemsMask(sel));
      Filter(lines, l => ItemChosen(sel, l))
    else
      FilterAll(lines, ItemsMask(sel));
      lines
  }

  /** pages/2:116-123: categories, then names, then the price range. The
      three steps keep, in order, exactly the lines of the one combined
      mask. */
  function Filtered(lines: seq<RawLine>, sel: Selection): (r: seq<RawLine>)
    ensures r == Filter(lines, SelectedMask(sel))
    ensures forall l :: l in r <==> l in lines && Selected(sel, l)
  {
    FilterThree(lines, CategoriesMask(sel), ItemsMask(sel), PriceMask(sel), SelectedMask(sel));
    FilterMembers(lines, SelectedMask(sel));
    Filter(ByItem(ByCategory(lines, sel), sel), PriceMask(sel))
  }

  /** With nothing chosen and the price range spanning every price (the
      widgets' defaults), the filters keep every line. */
  lemma DefaultSelectionKeepsAll(lines: seq<RawLine>, lo: real, hi: real)
    requires forall l :: l in lines ==> lo <= l.unitPrice <= hi
    ensures Filtered(lines, Selection([], [], lo, hi)) == lines
  {
    FilterAll(lines, SelectedMask(Selection([], [], lo, hi)));
  }

  // ---------------------------------------------------------------------
  // The three key figures

  /** "Número de productos distintos": `item_name.nunique()`. */
  function DistinctProducts(lines: seq<RawLine>): (n: nat)
    ensures n == |set l | l in lines :: l.itemName|
  {
    var names := Unique(Map(lines, ItemName));
    DistinctCardinality(names);
    assert (set x | x in names) == (set l | l in lines :: l.itemName) by {
      forall l | l in lines ensures l.itemName in names {
        var i :| 0 <= i < |lines| && lines[i] == l;
        assert Map(lines, ItemName)[i] == l.itemName;
      }
      forall x | x in names ensures exists l :: l in lines && l.itemName == x {
        var i :| 0 <= i < |names| && names[i] == x;
        var j :| 0 <= j < |lines| && Map(lines, ItemName)[j] == x;
        assert lines[j] in lines;
      }
    }
    |names|
  }

  /** "Precio unitario promedio": the mean unit price, NaN without lines. */
  function AveragePrice(lines: seq<RawLine>): (r: Ext)
    ensures r == NaN <==> lines == []
    ensures r.Fin? ==> r.v * |lines| as real == Sum(lines, UnitPrice)
  {
    if lines == [] then NaN else Fin(Sum(lines, UnitPrice) / |lines| as real)
  }

  /** The mean price lies within the range of the prices. */
  lemma AveragePriceBounds(lines: seq<RawLine>, lo: real, hi: real)
    requires lines != []
    requires forall l :: l in lines ==> lo <= l.unitPrice <= hi
    ensures AveragePrice(lines).Fin? && lo <= AveragePrice(lines).v <= hi
  {
    MeanBounds(lines, UnitPrice, lo, hi);
  }

  /** The mean quantity of one invoice's lines (0 for an invoice without
      lines, which the page never asks for). */
  function InvoiceMean(lines: seq<RawLine>, invoice: string): real {
    if CountWhere(lines, InvoiceOf, invoice) > 0 then MeanWhere(lines, InvoiceOf, invoice, Quantity) else 0.0
  }

  function InvoiceMeans(lines: seq<RawLine>): string -> real { inv => InvoiceMean(lines, inv) }

  /** The invoices of the lines, each once. */
  function Invoices(lines: seq<RawLine>): (r: seq<string>)
    ensures forall inv :: inv in r ==> CountWhere(lines, InvoiceOf, inv) > 0
    ensures |r| == 0 <==> lines == []
  {
    var r := Unique(Map(lines, InvoiceOf));
    forall inv | inv in r ensures CountWhere(lines, InvoiceOf, inv) > 0 {
      var i :| 0 <= i < |r| && r[i] == inv;
      var j :| 0 <= j < |lines| && Map(lines, InvoiceOf)[j] == inv;
    }
    assert lines != [] ==> Map(lines, InvoiceOf)[0] in r;
    r
  }

  /** "Promedio de unidades vendidas por factura":
      `groupby('invoice_number')['item_quantity'].mean().mean()`, the mean
      over the invoices of each invoice's mean quantity; NaN without lines. */
  function UnitsPerInvoice(lines: seq<RawLine>): (r: Ext)
    ensures r == NaN <==> lines == []
  {
    var invoices := Invoices(lines);
    if invoices == [] then NaN else Fin(Sum(invoices, InvoiceMeans(lines)) / |invoices| as real)
  }

  /** The units per invoice lie within the range of the quantities. */
  lemma UnitsPerInvoiceBounds(lines: seq<RawLine>, lo: real, hi: real)
    requires lines != []
    requires forall l :: l in lines ==> lo <= l.quantity <= hi
    ensures UnitsPerInvoice(lines).Fin? && lo <= UnitsPerInvoice(lines).v <= hi
  {
    var invoices := Invoices(lines);
    forall inv | inv in invoices ensures lo <= InvoiceMeans(lines)(inv) <= hi {
      MeanWhereBounds(lines, InvoiceOf, inv, Quantity, lo, hi);
    }
    MeanBounds(invoices, InvoiceMeans(lines), lo, hi);
  }

  // ---------------------------------------------------------------------
  // The per-product summary

  /** The candidate of `cands` that occurs most often in `values`, the
      earliest one among equals. */
  function MostFrequentOf(cands: seq<string>, values: seq<string>): (r: string)
    requires cands != []
    ensures r in cands
    ensures forall c :: c in cands ==> multiset(values)[c] <= multiset(values)[r]
  {
    if |cands| == 1 then cands[0]
    else
      var best := MostFrequentOf(cands[1..], values);
      assert forall c :: c in cands ==> c == cands[0] || c in cands[1..] by {
        assert cands == [cands[0]] + cands[1..];
      }
      if multiset(values)[cands[0]] >= multiset(values)[best] then cands[0] else best
  }

  /** `value_counts().idxmax()`: the most frequent value, the first to
      appear among equally frequent ones. */
  function MostFrequent(values: seq<string>): (r: string)
    requires values != []
    ensures r in values
    ensures forall x :: multiset(values)[x] <= multiset(values)[r]
  {
    var cands := Unique(values);
    assert values[0] in cands;
    var r := MostFrequentOf(cands, values);
    forall x ensures multiset(values)[x] <= multiset(values)[r] {
      if x in values {
        var i :| 0 <= i < |values| && values[i] == x;
      }
    }
    r
  }

  /** One row of the summary table. */
  datatype ItemSummary = ItemSummary(item: string, totalSales: real, topPayee: string, lastSaleToTopPayee: Date)

  /** The lines of one product sold to one payee. */
  function SalesTo(lines: seq<RawLine>, item: string, payee: string): (r: seq<RawLine>)
    ensures forall l :: l in r <==> l in lines && l.itemName == item && l.payeeName == payee
  {
    FilterMembers(lines, (l: RawLine) => l.itemName == item && l.payeeName == payee);
    Filter(lines, (l: RawLine) => l.itemName == item && l.payeeName == payee)
  }

  /** How many of a product's lines went to `payee` (`value_counts()`). */
  function PurchaseCount(lines: seq<RawLine>, item: string, payee: string): nat {
    multiset(Map(Group(lines, ItemName, item), PayeeName))[payee]
  }

  /** `top_payee`: the payee that appears on most of the product's lines. */
  function TopPayee(lines: seq<RawLine>, item: string): (p: string)
    requires exists l :: l in lines && l.itemName == item
    ensures exists l :: l in lines && l.itemName == item && l.payeeName == p
    ensures forall q :: PurchaseCount(lines, item, q) <= PurchaseCount(lines, item, p)
  {
    var group := Group(lines, ItemName, item);
    GroupMembers(lines, ItemName, item);
    var payees := Map(group, PayeeName);
    var p := MostFrequent(payees);
    var j :| 0 <= j < |payees| && payees[j] == p;
    assert group[j] in lines;
    p
  }

  /** `last_sale_to_top_payee`: the latest issue date of the product's
      lines to `payee`. */
  function LastSaleTo(lines: seq<RawLine>, item: string, payee: string): (d: Date)
    requires exists l :: l in lines && l.itemName == item && l.payeeName == payee
    ensures exists l :: l in lines && l.itemName == item && l.payeeName == payee && l.issuedAt == d
    ensures forall l :: l in lines && l.itemName == item && l.payeeName == payee ==> DateLe(l.issuedAt, d)
  {
    var sold := SalesTo(lines, item, payee);
    var x :| x in lines && x.itemName == item && x.payeeName == payee;
    assert x in sold;
    var dates := Map(sold, IssuedAt);
    var d := Latest(dates);
    var k :| 0 <= k < |sold| && dates[k] == d;
    assert sold[k] in sold;
    forall l | l in lines && l.itemName == item && l.payeeName == payee ensures DateLe(l.issuedAt, d) {
      var i :| 0 <= i < |sold| && sold[i] == l;
      assert dates[i] == l.issuedAt;
    }
    d
  }

  /** pages/2:153-168 for one product that has lines: its summed sales,
      its most frequent payee and the last date it was sold to that payee. */
  function SummaryOf(lines: seq<RawLine>, item: string): (r: ItemSummary)
    requires exists l :: l in lines && l.itemName == item
    ensures r.item == item
    ensures r.totalSales == SumWhere(lines, ItemName, item, ItemSales)
    ensures r.topPayee == TopPayee(lines, item)
    ensures r.lastSaleToTopPayee == LastSaleTo(lines, item, r.topPayee)
  {
    var top := TopPayee(lines, item);
    ItemSummary(item, SumWhere(lines, ItemName, item, ItemSales), top, LastSaleTo(lines, item, top))
  }

  /** The product names of the lines, in text order (the order of
      `groupby('item_name')`), each once. */
  function ItemNames(lines: seq<RawLine>): (r: seq<string>)
    ensures forall i :: 0 <= i < |r| ==> exists l :: l in lines && l.itemName == r[i]
    ensures forall l :: l in lines ==> l.itemName in r
    ensures forall i, j :: 0 <= i < j < |r| ==> StrLess(r[i], r[j])
  {
    var r := SortedDistinct(Map(lines, ItemName), StrLess);
    StrLessOrder();
    SortedDistinctSorted(Map(lines, ItemName), StrLess);
    ItemNamesCover(lines, r);
    r
  }

  /** The distinct names are exactly the names the lines carry. */
  lemma ItemNamesCover(lines: seq<RawLine>, r: seq<string>)
    requires r == SortedDistinct(Map(lines, ItemName), StrLess)
    ensures forall i :: 0 <= i < |r| ==> exists l :: l in lines && l.itemName == r[i]
    ensures forall l :: l in lines ==> l.itemName in r
  {
    forall i | 0 <= i < |r| ensures exists l :: l in lines && l.itemName == r[i] {
      var l := NameSource(lines, r[i]);
    }
    forall l | l in lines ensures l.itemName in r {
      NameListed(lines, l);
    }
  }

  lemma NameSource(lines: seq<RawLine>, n: string) returns (l: RawLine)
    requires n in Map(lines, ItemName)
    ensures l in lines && l.itemName == n
  {
    var m := Map(lines, ItemName);
    var j :| 0 <= j < |m| && m[j] == n;
    l := lines[j];
  }

  lemma NameListed(lines: seq<RawLine>, l: RawLine)
    requires l in lines
    ensures l.itemName in SortedDistinct(Map(lines, ItemName), StrLess)
  {
    var j :| 0 <= j < |lines| && lines[j] == l;
    assert Map(lines, ItemName)[j] == l.itemName;
  }

  /** The summary table: one row per product, in name order. */
  function Summaries(lines: seq<RawLine>): (r: seq<ItemSummary>)
    ensures |r| == |ItemNames(lines)|
    ensures forall i :: 0 <= i < |r| ==> r[i].item == ItemNames(lines)[i]
  {
    var names := ItemNames(lines);
    seq(|names|, i requires 0 <= i < |names| => SummaryOf(lines, names[i]))
  }

  /** Every product of the lines has a row, and the rows are in strict
      name order, so no product has two. */
  lemma SummaryCovers(lines: seq<RawLine>)
    ensures forall l :: l in lines ==> exists i :: 0 <= i < |Summaries(lines)| && Summaries(lines)[i].item == l.itemName
    ensures forall i, j :: 0 <= i < j < |Summaries(lines)| ==> StrLess(Summaries(lines)[i].item, Summaries(lines)[j].item)
  {
    var r := Summaries(lines);
    var names := ItemNames(lines);
    forall l | l in lines ensures exists i :: 0 <= i < |r| && r[i].item == l.itemName {
      var i :| 0 <= i < |names| && names[i] == l.itemName;
      assert r[i].item == l.itemName;
    }
  }

  /** Each row holds its product's summed sales, a payee that bought it on
      no fewer lines than any other, and the last date that payee bought
      it. */
  lemma SummaryRow(lines: seq<RawLine>, i: int)
    requires 0 <= i < |Summaries(lines)|
    ensures var x := Summaries(lines)[i];
      && x.totalSales == SumWhere(lines, ItemName, x.item, ItemSales)
      && (exists l :: l in lines && l.itemName == x.item && l.payeeName == x.topPayee)
      && (forall q :: PurchaseCount(lines, x.item, q) <= PurchaseCount(lines, x.item, x.topPayee))
      && (exists l :: l in lines && l.itemName == x.item && l.payeeName == x.topPayee && l.issuedAt == x.lastSaleToTopPayee)
      && (forall l :: l in lines && l.itemName == x.item && l.payeeName == x.topPayee ==>
            DateLe(l.issuedAt, x.lastSaleToTopPayee))
  {
    var names := ItemNames(lines);
    assert Summaries(lines)[i] == SummaryOf(lines, names[i]);
  }
}
