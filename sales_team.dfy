/** The sales-team page: the reconciled frame with upper-cased seller names,
    the seller selection, and one card per selected seller with the sales
    of the year to date against the same span a year earlier, the sales of
    the last 30 days day by day, and the current month's running total
    against the previous month. `now` stands for `pd.Timestamp.now()`;
    instants are compared in seconds since 1970-01-01 00:00, and an issue
    date stands for its midnight. */
module SalesTeam {
  import opened Seqs
  import opened Strings
  import opened Ordering
  import opened Calendar
  import opened Records
  import opened Reconcile

  // ---------------------------------------------------------------------
  // The frame and the selection

  function SellerOf(f: Fact): string { f.key.sellerName }

  /** `str.upper()` of the seller column, row by row. */
  function UpperSeller(f: Fact): (g: Fact)
    ensures g.key.sellerName == Upper(f.key.sellerName)
    ensures g.key.issuedAt == f.key.issuedAt && g.itemSales == f.itemSales
  {
    f.(key := f.key.(sellerName := Upper(f.key.sellerName)))
  }

  /** The frame of the page: the inclusive reconciliation with the seller
      names upper-cased afterwards. */
  function TeamFacts(lines: seq<RawLine>): (r: seq<Fact>)
    ensures |r| == |Reconcile.Reconcile(lines, Inclusive)|
  {
    Map(Reconcile.Reconcile(lines, Inclusive), UpperSeller)
  }

  lemma {:induction false} UpperKeepsSales(facts: seq<Fact>)
    ensures Sum(Map(facts, UpperSeller), FactItemSales) == Sum(facts, FactItemSales)
  {
    if facts != [] {
      assert Map(facts, UpperSeller)[1..] == Map(facts[1..], UpperSeller);
      UpperKeepsSales(facts[1..]);
    }
  }

  /** Upper-casing renames sellers only: the page's frame adds up to the
      sales of the lines without a credit note. */
  lemma TeamNetSales(lines: seq<RawLine>)
    ensures Sum(TeamFacts(lines), FactItemSales) == Sum(Filter(lines, Uncredited), ItemSales)
  {
    UpperKeepsSales(Reconcile.Reconcile(lines, Inclusive));
    InclusiveNetSales(lines);
  }

  /** `seller_name.unique()`: each seller once, in order of first appearance. */
  function SellerNames(frame: seq<Fact>): (r: seq<string>)
    ensures Distinct(r)
    ensures forall s :: s in r <==> exists f :: f in frame && SellerOf(f) == s
  {
    SellerNamesMembers(frame);
    Unique(Map(frame, SellerOf))
  }

  lemma SellerNamesMembers(frame: seq<Fact>)
    ensures forall s :: s in Unique(Map(frame, SellerOf)) <==> exists f :: f in frame && SellerOf(f) == s
  {
    var names := Map(frame, SellerOf);
    forall s ensures s in Unique(names) <==> exists f :: f in frame && SellerOf(f) == s {
      if s in Unique(names) {
        var i :| 0 <= i < |names| && names[i] == s;
        assert frame[i] in frame;
      }
      if exists f :: f in frame && SellerOf(f) == s {
        var f :| f in frame && SellerOf(f) == s;
        var i :| 0 <= i < |frame| && frame[i] == f;
        assert names[i] in Unique(names);
      }
    }
  }

  /** The sellers preselected when they occur. */
  const DefaultSellers: seq<string> := ["ISABEL DE LEONARDO", "BRETZY MARTINEZ", "DELIA RODRIGUEZ"]

  /** The candidates that occur among `names`, in the candidates' order. */
  function KeepListed(candidates: seq<string>, names: seq<string>): (r: seq<string>)
    ensures forall s :: s in r <==> s in candidates && s in names
    ensures |r| <= |candidates|
  {
    if candidates == [] then []
    else
      var rest := KeepListed(candidates[1..], names);
      assert candidates == [candidates[0]] + candidates[1..];
      if candidates[0] in names then [candidates[0]] + rest else rest
  }

  /** The default of the seller multiselect: exactly the default sellers
      that sell in the frame. */
  function DefaultSelection(frame: seq<Fact>): (r: seq<string>)
    ensures forall s :: s in r <==> s in DefaultSellers && exists f :: f in frame && SellerOf(f) == s
  {
    KeepListed(DefaultSellers, SellerNames(frame))
  }

  /** `sales_data[sales_data['seller_name'].isin(selected_sellers)]`. */
  function ForSellers(frame: seq<Fact>, selected: seq<string>): (r: seq<Fact>)
    ensures forall f :: f in r <==> f in frame && SellerOf(f) in selected
    ensures |r| <= |frame|
  {
    if frame == [] then []
    else
      var rest := ForSellers(frame[1..], selected);
      assert frame == [frame[0]] + frame[1..];
      if SellerOf(frame[0]) in selected then [frame[0]] + rest else rest
  }

  // ---------------------------------------------------------------------
  // Time spans

  /** `lo <= issued_at <= hi`. */
  predicate InSpan(lo: int, hi: int, f: Fact) {
    lo <= MidnightSeconds(f.key.issuedAt) <= hi
  }

  /** The facts issued inside `[lo, hi]`, in frame order. */
  function Span(w: seq<Fact>, lo: int, hi: int): (r: seq<Fact>)
    ensures forall f :: f in r <==> f in w && InSpan(lo, hi, f)
  {
    if w == [] then []
    else
      var rest := Span(w[1..], lo, hi);
      assert w == [w[0]] + w[1..];
      if InSpan(lo, hi, w[0]) then [w[0]] + rest else rest
  }

  /** The facts of seller `s` issued inside `[lo, hi]`, in frame order. */
  function SellerSpan(w: seq<Fact>, s: string, lo: int, hi: int): (r: seq<Fact>)
    ensures forall f :: f in r <==> f in w && SellerOf(f) == s && InSpan(lo, hi, f)
  {
    if w == [] then []
    else
      var rest := SellerSpan(w[1..], s, lo, hi);
      assert w == [w[0]] + w[1..];
      if SellerOf(w[0]) == s && InSpan(lo, hi, w[0]) then [w[0]] + rest else rest
  }

  /** `now - pd.DateOffset(years=1)`, with the time of day kept. */
  function YearEarlier(now: Instant): (r: Instant)
    requires now.date.year > MinYear
    ensures r.date == YearBefore(now.date) && r.second == now.second
  {
    Moment(YearBefore(now.date), now.second)
  }

  /** The year to date: from January 1 to `now`. */
  function YtdStart(now: Instant): int {
    MidnightSeconds(FirstOfYear(now.date))
  }

  /** The same span a year earlier: from January 1 of the previous year to
      `now` one year back. */
  function PreviousYtdStart(now: Instant): int
    requires now.date.year > MinYear
  {
    MidnightSeconds(FirstOfYear(YearBefore(now.date)))
  }

  /** A span from the midnight of `first` to `now` holds the dates from
      `first` to today, whatever the time of day. */
  lemma SpanToNow(first: Date, now: Instant, d: Date)
    ensures MidnightSeconds(first) <= MidnightSeconds(d) <= Seconds(now)
      <==> DateLe(first, d) && DateLe(d, now.date)
  {
    DayNumberOrder(first, d);
    DayNumberOrder(d, now.date);
    MidnightNotAfter(d, now);
  }

  /** The year-to-date span holds this year's dates up to today. */
  lemma YtdSpanDates(now: Instant, f: Fact)
    ensures InSpan(YtdStart(now), Seconds(now), f)
      <==> f.key.issuedAt.year == now.date.year && DateLe(f.key.issuedAt, now.date)
  {
    SpanToNow(FirstOfYear(now.date), now, f.key.issuedAt);
  }

  /** The comparison span holds last year's dates up to today's date one
      year back. */
  lemma PreviousYtdSpanDates(now: Instant, f: Fact)
    requires now.date.year > MinYear
    ensures InSpan(PreviousYtdStart(now), Seconds(YearEarlier(now)), f)
      <==> f.key.issuedAt.year == now.date.year - 1 && DateLe(f.key.issuedAt, YearBefore(now.date))
  {
    SpanToNow(FirstOfYear(YearBefore(now.date)), YearEarlier(now), f.key.issuedAt);
  }

  /** The current-month span holds this month's dates up to today. */
  lemma MonthSpanDates(now: Instant, f: Fact)
    ensures InSpan(MidnightSeconds(FirstOfMonth(now.date)), Seconds(now), f)
      <==> MonthIndex(f.key.issuedAt) == MonthIndex(now.date) && DateLe(f.key.issuedAt, now.date)
  {
    SpanToNow(FirstOfMonth(now.date), now, f.key.issuedAt);
  }

  /** The previous-month span: from the first of the previous month to the
      midnight of the day before this month's first. */
  function PreviousMonthEnd(now: Instant): int {
    MidnightSeconds(FirstOfMonth(now.date)) - 86400
  }

  /** It holds exactly the dates of the previous month. */
  lemma PreviousMonthSpanDates(now: Instant, f: Fact)
    requires now.date.year > MinYear
    ensures InSpan(MidnightSeconds(PreviousMonthStart(now.date)), PreviousMonthEnd(now), f)
      <==> MonthIndex(f.key.issuedAt) == MonthIndex(now.date) - 1
  {
    var d := f.key.issuedAt;
    OnOrAfterMonthStart(PreviousMonthStart(now.date), d);
    OnOrAfterMonthStart(FirstOfMonth(now.date), d);
  }

  // ---------------------------------------------------------------------
  // Year to date per seller

  /** The change is 0 without a base; otherwise it is the difference in
      percent of the base. */
  function ChangePercent(curr: real, prev: real): (c: real)
    ensures prev == 0.0 ==> c == 0.0
    ensures prev != 0.0 ==> c * prev == (curr - prev) * 100.0
  {
    if prev == 0.0 then 0.0
    else
      var q := (curr - prev) / prev;
      assert q * prev == curr - prev;
      q * 100.0
  }

  /** The change is positive exactly when sales grew over a positive base,
      and 0 exactly when they stayed level. */
  lemma ChangePercentCases(curr: real, prev: real)
    ensures prev > 0.0 ==> (ChangePercent(curr, prev) > 0.0 <==> curr > prev)
    ensures prev > 0.0 ==> (ChangePercent(curr, prev) == 0.0 <==> curr == prev)
  {
    if prev != 0.0 {
      var q := (curr - prev) / prev;
      assert q * prev == curr - prev;
      if prev > 0.0 {
        assert q > 0.0 <==> curr - prev > 0.0;
        assert q == 0.0 <==> curr - prev == 0.0;
      }
    }
  }

  /** One seller's year-to-date sales and its growth over a year before. */
  datatype YearRow = YearRow(seller: string, ytd: real, yoy: real)

  function RowYtd(r: YearRow): real { r.ytd }

  /** `groupby('seller_name')['item_sales'].sum().reindex(selected_sellers,
      fill_value=0)` over both spans, and the growth between them. */
  function YearRows(w: seq<Fact>, selected: seq<string>, now: Instant): (r: seq<YearRow>)
    requires now.date.year > MinYear
    ensures |r| == |selected|
    ensures forall i :: 0 <= i < |r| ==> r[i].seller == selected[i]
    ensures forall i :: 0 <= i < |r| ==>
      var prev := SumWhere(Span(w, PreviousYtdStart(now), Seconds(YearEarlier(now))), SellerOf, selected[i], FactItemSales);
      && r[i].ytd == SumWhere(Span(w, YtdStart(now), Seconds(now)), SellerOf, selected[i], FactItemSales)
      && r[i].yoy == ChangePercent(r[i].ytd, prev)
  {
    if selected == [] then []
    else
      var s := selected[0];
      var ytd := SumWhere(Span(w, YtdStart(now), Seconds(now)), SellerOf, s, FactItemSales);
      var prev := SumWhere(Span(w, PreviousYtdStart(now), Seconds(YearEarlier(now))), SellerOf, s, FactItemSales);
      [YearRow(s, ytd, ChangePercent(ytd, prev))] + YearRows(w, selected[1..], now)
  }

  /** A selected seller without sales this year shows 0, and 0% growth when
      it did not sell in the comparison span either. */
  lemma YearRowWithoutSales(w: seq<Fact>, selected: seq<string>, now: Instant, i: nat)
    requires now.date.year > MinYear && i < |selected|
    requires forall f :: f in w && SellerOf(f) == selected[i] ==> !InSpan(YtdStart(now), Seconds(now), f)
    ensures YearRows(w, selected, now)[i].ytd == 0.0
    ensures (forall f :: f in w && SellerOf(f) == selected[i]
               ==> !InSpan(PreviousYtdStart(now), Seconds(YearEarlier(now)), f))
      ==> YearRows(w, selected, now)[i].yoy == 0.0
  {
    var s := selected[i];
    SumWhereAbsent(Span(w, YtdStart(now), Seconds(now)), SellerOf, s, FactItemSales);
    if forall f :: f in w && SellerOf(f) == s ==> !InSpan(PreviousYtdStart(now), Seconds(YearEarlier(now)), f) {
      SumWhereAbsent(Span(w, PreviousYtdStart(now), Seconds(YearEarlier(now))), SellerOf, s, FactItemSales);
    }
  }

  lemma {:induction false} YearRowsSum(w: seq<Fact>, selected: seq<string>, now: Instant)
    requires now.date.year > MinYear
    ensures Sum(YearRows(w, selected, now), RowYtd)
      == SumOverKeys(selected, Span(w, YtdStart(now), Seconds(now)), SellerOf, FactItemSales)
  {
    if selected != [] {
      YearRowsSum(w, selected[1..], now);
    }
  }

  /** When the frame is the selected sellers' and no seller is selected
      twice, the year-to-date figures add up to the year's sales. */
  lemma YearRowsCoverSelection(frame: seq<Fact>, selected: seq<string>, now: Instant)
    requires now.date.year > MinYear && Distinct(selected)
    ensures var w := ForSellers(frame, selected);
      Sum(YearRows(w, selected, now), RowYtd) == Sum(Span(w, YtdStart(now), Seconds(now)), FactItemSales)
  {
    var w := ForSellers(frame, selected);
    YearRowsSum(w, selected, now);
    PartitionSum(selected, Span(w, YtdStart(now), Seconds(now)), SellerOf, FactItemSales);
  }

  /** `sort_values('Seller Name')`. */
  predicate NameFirst(a: YearRow, b: YearRow) {
    a.seller == b.seller || StrLess(a.seller, b.seller)
  }

  lemma NameFirstPreorder()
    ensures TotalPreorder(NameFirst)
  {
    StrLessFacts();
  }

  /** The rows in card order. */
  function CardRows(w: seq<Fact>, selected: seq<string>, now: Instant): (r: seq<YearRow>)
    requires now.date.year > MinYear
    ensures multiset(r) == multiset(YearRows(w, selected, now))
    ensures |r| == |selected|
  {
    SortBy(YearRows(w, selected, now), NameFirst)
  }

  /** The cards run in name order and hold one row per selected seller. */
  lemma CardRowsOrder(w: seq<Fact>, selected: seq<string>, now: Instant)
    requires now.date.year > MinYear
    ensures var r := CardRows(w, selected, now);
      forall i, j :: 0 <= i < j < |r| ==> NameFirst(r[i], r[j])
  {
    NameFirstPreorder();
    SortBySorted(YearRows(w, selected, now), NameFirst);
  }

  // ---------------------------------------------------------------------
  // Daily series

  /** One point of a daily chart: a day (as a day number) and its sales. */
  datatype DayPoint = DayPoint(day: int, sales: real)

  function PointSales(p: DayPoint): real { p.sales }

  function DayOf(f: Fact): int { DayNumber(f.key.issuedAt) }

  /** The seller and the day of a fact, the key of "that seller's sales on
      that day". */
  function SellerDay(f: Fact): (string, int) { (f.key.sellerName, DayOf(f)) }

  /** `groupby('issued_at')['item_sales'].sum()` read at the days `ks`, a
      missing day reading 0. */
  function DayTotals(data: seq<Fact>, ks: seq<int>): (r: seq<DayPoint>)
    ensures |r| == |ks|
    ensures forall i :: 0 <= i < |r| ==> r[i] == DayPoint(ks[i], SumWhere(data, DayOf, ks[i], FactItemSales))
  {
    if ks == [] then []
    else [DayPoint(ks[0], SumWhere(data, DayOf, ks[0], FactItemSales))] + DayTotals(data, ks[1..])
  }

  lemma {:induction false} DayTotalsSum(data: seq<Fact>, ks: seq<int>)
    ensures Sum(DayTotals(data, ks), PointSales) == SumOverKeys(ks, data, DayOf, FactItemSales)
  {
    if ks != [] {
      assert DayTotals(data, ks)[1..] == DayTotals(data, ks[1..]);
      DayTotalsSum(data, ks[1..]);
    }
  }

  /** `pd.date_range(now - 30 days, now)`: the 31 days ending today. */
  function ChartDays(now: Instant): seq<int> {
    Range(DayNumber(now.date) - 30, DayNumber(now.date))
  }

  /** The bar chart: one point per chart day. */
  function DailySeries(data: seq<Fact>, now: Instant): (r: seq<DayPoint>)
    ensures |r| == 31
    ensures forall i :: 0 <= i < 31 ==> r[i].day == DayNumber(now.date) - 30 + i
  {
    DayTotals(data, ChartDays(now))
  }

  /** A chart day without sales reads 0. */
  lemma DailySeriesGaps(data: seq<Fact>, now: Instant, i: nat)
    requires i < 31
    requires forall f :: f in data ==> DayOf(f) != DayNumber(now.date) - 30 + i
    ensures DailySeries(data, now)[i].sales == 0.0
  {
    SumWhereAbsent(data, DayOf, DayNumber(now.date) - 30 + i, FactItemSales);
  }

  /** Facts issued on the chart days add up to the chart's bars. */
  lemma DailySeriesSum(data: seq<Fact>, now: Instant)
    requires forall f :: f in data ==> DayNumber(now.date) - 30 <= DayOf(f) <= DayNumber(now.date)
    ensures Sum(DailySeries(data, now), PointSales) == Sum(data, FactItemSales)
  {
    DayTotalsSum(data, ChartDays(now));
    RangeSum(data, DayOf, FactItemSales, DayNumber(now.date) - 30, DayNumber(now.date));
  }

  /** A seller's facts of a span, read on one day: that seller's sales of
      that day when the day's midnight is inside the span, else 0. */
  lemma {:induction false} SpanDaySales(w: seq<Fact>, s: string, lo: int, hi: int, n: int)
    ensures SumWhere(SellerSpan(w, s, lo, hi), DayOf, n, FactItemSales)
      == if lo <= n * 86400 <= hi then SumWhere(w, SellerDay, (s, n), FactItemSales) else 0.0
  {
    if w != [] {
      SpanDaySales(w[1..], s, lo, hi, n);
    }
  }

  // ---------------------------------------------------------------------
  // Month to date

  /** `cumsum()`: each point carries the sales of its day and of every
      earlier point. */
  function Running(ps: seq<DayPoint>): (r: seq<DayPoint>)
    ensures |r| == |ps|
    ensures forall i :: 0 <= i < |r| ==> r[i].day == ps[i].day
    ensures ps != [] ==> r[0].sales == ps[0].sales
    ensures forall i :: 0 < i < |r| ==> r[i].sales == r[i - 1].sales + ps[i].sales
  {
    if ps == [] then []
    else
      var front := Running(ps[..|ps| - 1]);
      var last := ps[|ps| - 1];
      front + [DayPoint(last.day, (if front == [] then 0.0 else front[|front| - 1].sales) + last.sales)]
  }

  /** The running total ends at the total. */
  lemma {:induction false} RunningLast(ps: seq<DayPoint>)
    requires ps != []
    ensures Running(ps)[|ps| - 1].sales == Sum(ps, PointSales)
  {
    var n := |ps|;
    assert ps == ps[..n - 1] + [ps[n - 1]];
    SumAppend(ps[..n - 1], [ps[n - 1]], PointSales);
    if n > 1 {
      RunningLast(ps[..n - 1]);
      assert Running(ps)[n - 2] == Running(ps[..n - 1])[n - 2];
    }
  }

  /** `groupby('issued_at')['item_sales'].sum().cumsum()`: the days with
      sales, ascending, each with the sales up to and including it. */
  function MonthCumulative(data: seq<Fact>): (r: seq<DayPoint>)
    ensures |r| == |AscendingKeys(data, DayOf)|
  {
    Running(DayTotals(data, AscendingKeys(data, DayOf)))
  }

  /** The running line has a point per day with sales, in day order, and
      ends at the month's total. */
  lemma MonthCumulativeEnds(data: seq<Fact>)
    ensures var r := MonthCumulative(data);
      && (r == [] <==> data == [])
      && (forall i, j :: 0 <= i < j < |r| ==> r[i].day < r[j].day)
      && (r != [] ==> r[|r| - 1].sales == Sum(data, FactItemSales))
  {
    var ks := AscendingKeys(data, DayOf);
    var ps := DayTotals(data, ks);
    AscendingKeysSorted(data, DayOf);
    AscendingKeysMembers(data, DayOf);
    if data != [] {
      assert data[0] in data;
      RunningLast(ps);
      DayTotalsSum(data, ks);
      PartitionSum(ks, data, DayOf, FactItemSales);
    } else {
      assert |Map(data, DayOf)| == 0;
    }
  }

  // ---------------------------------------------------------------------
  // The cards

  /** One seller's card. */
  datatype SellerCard = SellerCard(
    seller: string,
    ytd: real,
    yoy: real,
    last30: real,
    daily: seq<DayPoint>,
    cumulative: seq<DayPoint>,
    month: real,
    mom: real)

  /** Where the last-30-days filter starts, as written: exactly 30 days
      before `now`, time of day included. */
  function Last30StartAsWritten(now: Instant): int {
    Seconds(now) - 30 * 86400
  }

  /** Where it starts so as to cover the chart's first day: that day's
      midnight. */
  function Last30Start(now: Instant): int {
    (DayNumber(now.date) - 30) * 86400
  }

  /** The card of the row `row` (the loop body): last 30 days, the chart,
      the month's running total, the month's sales and their growth over
      the previous month. */
  function CardOf(w: seq<Fact>, row: YearRow, now: Instant): (c: SellerCard)
    requires now.date.year > MinYear
    ensures c.seller == row.seller && c.ytd == row.ytd && c.yoy == row.yoy
  {
    var s := row.seller;
    var recent := SellerSpan(w, s, Last30Start(now), Seconds(now));
    var month := SellerSpan(w, s, MidnightSeconds(FirstOfMonth(now.date)), Seconds(now));
    var previous := SellerSpan(w, s, MidnightSeconds(PreviousMonthStart(now.date)), PreviousMonthEnd(now));
    var m := Sum(month, FactItemSales);
    SellerCard(s, row.ytd, row.yoy, SumWhere(recent, SellerOf, s, FactItemSales),
               DailySeries(recent, now), MonthCumulative(month), m,
               ChangePercent(m, Sum(previous, FactItemSales)))
  }

  /** The last-30-days figure is the sum of the chart's bars, and each bar
      is the seller's sales of its day. */
  lemma CardLast30(w: seq<Fact>, row: YearRow, now: Instant)
    requires now.date.year > MinYear
    ensures var c := CardOf(w, row, now);
      && c.last30 == Sum(c.daily, PointSales)
      && forall i :: 0 <= i < 31 ==>
           c.daily[i].sales == SumWhere(w, SellerDay, (row.seller, DayNumber(now.date) - 30 + i), FactItemSales)
  {
    CardLast30Total(w, row, now);
    CardLast30Daily(w, row, now);
  }

  lemma CardLast30Total(w: seq<Fact>, row: YearRow, now: Instant)
    requires now.date.year > MinYear
    ensures var c := CardOf(w, row, now); c.last30 == Sum(c.daily, PointSales)
  {
    var s := row.seller;
    var recent := SellerSpan(w, s, Last30Start(now), Seconds(now));
    SumWhereAll(recent, SellerOf, s, FactItemSales);
    forall f | f in recent ensures DayNumber(now.date) - 30 <= DayOf(f) <= DayNumber(now.date) {
      MidnightNotAfter(f.key.issuedAt, now);
    }
    DailySeriesSum(recent, now);
  }

  lemma CardLast30Daily(w: seq<Fact>, row: YearRow, now: Instant)
    requires now.date.year > MinYear
    ensures var c := CardOf(w, row, now);
      forall i :: 0 <= i < 31 ==>
        c.daily[i].sales == SumWhere(w, SellerDay, (row.seller, DayNumber(now.date) - 30 + i), FactItemSales)
  {
    var s := row.seller;
    var recent := SellerSpan(w, s, Last30Start(now), Seconds(now));
    forall i | 0 <= i < 31
      ensures DailySeries(recent, now)[i].sales
        == SumWhere(w, SellerDay, (s, DayNumber(now.date) - 30 + i), FactItemSales)
    {
      SpanDaySales(w, s, Last30Start(now), Seconds(now), DayNumber(now.date) - 30 + i);
    }
  }

  /** The running line ends at the month's figure, which grows over the
      previous month's sales by the card's month-over-month percentage. */
  lemma CardMonth(w: seq<Fact>, row: YearRow, now: Instant)
    requires now.date.year > MinYear
    ensures var c := CardOf(w, row, now);
      var previous := SellerSpan(w, row.seller, MidnightSeconds(PreviousMonthStart(now.date)), PreviousMonthEnd(now));
      && (c.cumulative != [] ==> c.cumulative[|c.cumulative| - 1].sales == c.month)
      && (c.cumulative == [] ==> c.month == 0.0)
      && c.mom == ChangePercent(c.month, Sum(previous, FactItemSales))
  {
    MonthCumulativeEnds(SellerSpan(w, row.seller, MidnightSeconds(FirstOfMonth(now.date)), Seconds(now)));
  }

  /** The cards of `rows`, one per row, in order. */
  function CardsOf(w: seq<Fact>, rows: seq<YearRow>, now: Instant): (r: seq<SellerCard>)
    requires now.date.year > MinYear
    ensures |r| == |rows|
  {
    if rows == [] then []
    else CardsOf(w, rows[..|rows| - 1], now) + [CardOf(w, rows[|rows| - 1], now)]
  }

  lemma {:induction false} CardsOfAt(w: seq<Fact>, rows: seq<YearRow>, now: Instant, i: int)
    requires now.date.year > MinYear
    requires 0 <= i < |rows|
    ensures CardsOf(w, rows, now)[i] == CardOf(w, rows[i], now)
  {
    if i < |rows| - 1 {
      CardsOfAt(w, rows[..|rows| - 1], now, i);
    }
  }

  /** Card `i` is the card of row `i`. */
  lemma CardsOfIndexed(w: seq<Fact>, rows: seq<YearRow>, now: Instant)
    requires now.date.year > MinYear
    ensures forall i :: 0 <= i < |rows| ==> CardsOf(w, rows, now)[i] == CardOf(w, rows[i], now)
  {
    forall i | 0 <= i < |rows| ensures CardsOf(w, rows, now)[i] == CardOf(w, rows[i], now) {
      CardsOfAt(w, rows, now, i);
    }
  }

  /** pages/3:59-185: filter the selected sellers, compute their year rows
      in name order, and build one card per row. */
  method SellerCards(frame: seq<Fact>, selected: seq<string>, now: Instant) returns (cards: seq<SellerCard>)
    requires now.date.year > MinYear
    ensures var w := ForSellers(frame, selected);
      cards == CardsOf(w, CardRows(w, selected, now), now)
    ensures |cards| == |selected|
    ensures forall i, j :: 0 <= i < j < |cards| ==>
      cards[i].seller == cards[j].seller || StrLess(cards[i].seller, cards[j].seller)
    ensures forall i :: 0 <= i < |cards| ==> cards[i].last30 == Sum(cards[i].daily, PointSales)
    ensures forall i :: 0 <= i < |cards| && cards[i].cumulative != [] ==>
      cards[i].cumulative[|cards[i].cumulative| - 1].sales == cards[i].month
  {
    var w := ForSellers(frame, selected);
    cards := BuildCards(w, CardRows(w, selected, now), now);
    CardsOfFacts(w, selected, now);
  }

  /** The loop over the rows: one card per row, in order. */
  method BuildCards(w: seq<Fact>, rows: seq<YearRow>, now: Instant) returns (cards: seq<SellerCard>)
    requires now.date.year > MinYear
    ensures cards == CardsOf(w, rows, now)
  {
    cards := [];
    for i := 0 to |rows|
      invariant cards == CardsOf(w, rows[..i], now)
    {
      assert rows[..i + 1][..i] == rows[..i];
      cards := cards + [CardOf(w, rows[i], now)];
    }
    assert rows[..|rows|] == rows;
  }

  lemma CardsOfFacts(w: seq<Fact>, selected: seq<string>, now: Instant)
    requires now.date.year > MinYear
    ensures var cards := CardsOf(w, CardRows(w, selected, now), now);
      && |cards| == |selected|
      && (forall i :: 0 <= i < |cards| ==> cards[i] == CardOf(w, CardRows(w, selected, now)[i], now))
      && (forall i, j :: 0 <= i < j < |cards| ==>
            cards[i].seller == cards[j].seller || StrLess(cards[i].seller, cards[j].seller))
      && (forall i :: 0 <= i < |cards| ==> cards[i].last30 == Sum(cards[i].daily, PointSales))
      && (forall i :: 0 <= i < |cards| && cards[i].cumulative != [] ==>
            cards[i].cumulative[|cards[i].cumulative| - 1].sales == cards[i].month)
  {
    var rows := CardRows(w, selected, now);
    CardsOfIndexed(w, rows, now);
    CardRowsOrder(w, selected, now);
    CardsFigures(w, rows, CardsOf(w, rows, now), now);
  }

  lemma CardsFigures(w: seq<Fact>, rows: seq<YearRow>, cards: seq<SellerCard>, now: Instant)
    requires now.date.year > MinYear
    requires |cards| == |rows| && forall j :: 0 <= j < |rows| ==> cards[j] == CardOf(w, rows[j], now)
    ensures forall i :: 0 <= i < |cards| ==> cards[i].last30 == Sum(cards[i].daily, PointSales)
    ensures forall i :: 0 <= i < |cards| && cards[i].cumulative != [] ==>
      cards[i].cumulative[|cards[i].cumulative| - 1].sales == cards[i].month
  {
    forall i | 0 <= i < |cards|
      ensures cards[i].last30 == Sum(cards[i].daily, PointSales)
      ensures cards[i].cumulative != [] ==> cards[i].cumulative[|cards[i].cumulative| - 1].sales == cards[i].month
    {
      CardLast30(w, rows[i], now);
      CardMonth(w, rows[i], now);
    }
  }

  // ---------------------------------------------------------------------
  // The first day of the chart, as written

  /** As written, after midnight the filter starts after the chart's first
      day begins: that day's bar reads 0 whatever the seller sold. */
  lemma Last30FirstDayDropped(w: seq<Fact>, s: string, now: Instant)
    requires now.second > 0
    ensures DailySeries(SellerSpan(w, s, Last30StartAsWritten(now), Seconds(now)), now)[0].sales == 0.0
  {
    SpanDaySales(w, s, Last30StartAsWritten(now), Seconds(now), DayNumber(now.date) - 30);
  }

  /** One sale on the chart's first day, seen after midnight: the bar reads
      0 as written and the sale with the corrected start. */
  lemma Last30FirstDayExample(f: Fact, now: Instant)
    requires now.second > 0 && DayOf(f) == DayNumber(now.date) - 30 && f.itemSales != 0.0
    ensures DailySeries(SellerSpan([f], SellerOf(f), Last30StartAsWritten(now), Seconds(now)), now)[0].sales == 0.0
    ensures DailySeries(SellerSpan([f], SellerOf(f), Last30Start(now), Seconds(now)), now)[0].sales == f.itemSales
  {
    Last30FirstDayDropped([f], SellerOf(f), now);
    SpanDaySales([f], SellerOf(f), Last30Start(now), Seconds(now), DayNumber(now.date) - 30);
    assert SumWhere([f], SellerDay, (SellerOf(f), DayNumber(now.date) - 30), FactItemSales) == f.itemSales;
  }
}
