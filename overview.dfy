/** The header of the two overview pages: the frame each page reconciles,
    the facts inside the selected date range, the period's sales and
    amount due, the sales without the sample customer (ibiomed.py), and
    the growth indicator (the regression trend of app.py, the average
    month-over-month growth of ibiomed.py). */
module Overview {
  import opened Common
  import opened Seqs
  import opened Calendar
  import opened Records
  import opened Reconcile
  import opened Discount
  import opened Monthly

  /** The frame of app.py: `item_sales` recomputed from the discounted
      unit prices, then reconciled without the credited lines. */
  function AppFacts(lines: seq<RawLine>): (r: seq<Fact>)
    requires FirstSubtotalsNonZero(lines)
    ensures AppSalesFirst(lines, r, AppSalesCount(lines))
    ensures AppReversalsAfter(lines, r, AppSalesCount(lines))
  {
    AppSalesKeys(lines);
    AppReversals(lines);
    Reconcile.Reconcile(WithDiscountedSales(lines), Exclusive)
  }

  /** The number of sales facts in app.py's frame: its groups of
      uncredited lines. */
  function AppSalesCount(lines: seq<RawLine>): nat
    requires FirstSubtotalsNonZero(lines)
  {
    |GroupKeys(OriginalRows(WithDiscountedSales(lines), Exclusive))|
  }

  /** The first `n` facts are sales: each is keyed like an uncredited line,
      and every uncredited line's key has one. */
  predicate AppSalesFirst(lines: seq<RawLine>, r: seq<Fact>, n: nat) {
    && n <= |r|
    && (forall i :: 0 <= i < n ==> exists l :: l in lines && Uncredited(l) && KeyOf(l) == r[i].key)
    && (forall l :: l in lines && Uncredited(l) ==> exists i :: 0 <= i < n && r[i].key == KeyOf(l))
  }

  /** The facts after the first `n` are reversals: each owes nothing and
      is dated on the credit note of a credited line. */
  predicate AppReversalsAfter(lines: seq<RawLine>, r: seq<Fact>, n: nat) {
    forall i :: n <= i < |r| ==>
      (r[i].due == 0.0 && exists l :: l in lines && Credited(l) && l.creditnoteDate == Some(r[i].key.issuedAt))
  }

  lemma AppSalesKeys(lines: seq<RawLine>)
    requires FirstSubtotalsNonZero(lines)
    ensures AppSalesFirst(lines, Reconcile.Reconcile(WithDiscountedSales(lines), Exclusive), AppSalesCount(lines))
  {
    AppSalesKeyed(lines);
    AppSalesCovered(lines);
  }

  lemma AppSalesKeyed(lines: seq<RawLine>)
    requires FirstSubtotalsNonZero(lines)
    ensures var r := Reconcile.Reconcile(WithDiscountedSales(lines), Exclusive);
      forall i :: 0 <= i < AppSalesCount(lines) ==>
        exists l :: l in lines && Uncredited(l) && KeyOf(l) == r[i].key
  {
    var d := WithDiscountedSales(lines);
    var r := Reconcile.Reconcile(d, Exclusive);
    forall i | 0 <= i < AppSalesCount(lines)
      ensures exists l :: l in lines && Uncredited(l) && KeyOf(l) == r[i].key
    {
      var x := SalesAt(d, i);
      var j := DiscountedIndex(lines, x);
    }
  }

  lemma AppSalesCovered(lines: seq<RawLine>)
    requires FirstSubtotalsNonZero(lines)
    ensures var r := Reconcile.Reconcile(WithDiscountedSales(lines), Exclusive);
      forall l :: l in lines && Uncredited(l) ==>
        exists i :: 0 <= i < AppSalesCount(lines) && r[i].key == KeyOf(l)
  {
    var d := WithDiscountedSales(lines);
    var r := Reconcile.Reconcile(d, Exclusive);
    forall l | l in lines && Uncredited(l)
      ensures exists i :: 0 <= i < AppSalesCount(lines) && r[i].key == KeyOf(l)
    {
      var x := DiscountedLine(lines, l);
      var i := SalesCover(d, x);
    }
  }

  /** The recomputed frame holds each line with its key and credit note. */
  lemma DiscountedLine(lines: seq<RawLine>, l: RawLine) returns (x: RawLine)
    requires FirstSubtotalsNonZero(lines)
    requires l in lines
    ensures x in WithDiscountedSales(lines) && KeyOf(x) == KeyOf(l) && x.creditnoteDate == l.creditnoteDate
  {
    var j :| 0 <= j < |lines| && lines[j] == l;
    x := WithDiscountedSales(lines)[j];
  }

  lemma AppReversals(lines: seq<RawLine>)
    requires FirstSubtotalsNonZero(lines)
    ensures AppReversalsAfter(lines, Reconcile.Reconcile(WithDiscountedSales(lines), Exclusive), AppSalesCount(lines))
  {
    var d := WithDiscountedSales(lines);
    var r := Reconcile.Reconcile(d, Exclusive);
    var n := AppSalesCount(lines);
    forall i | n <= i < |r|
      ensures r[i].due == 0.0
      ensures exists l :: l in lines && Credited(l) && l.creditnoteDate == Some(r[i].key.issuedAt)
    {
      var y := ReversalAt(d, i);
      var j := DiscountedIndex(lines, y);
    }
  }

  /** Fact `i` of the sales part of an exclusive frame is keyed like an
      uncredited line. */
  lemma SalesAt(d: seq<RawLine>, i: int) returns (l: RawLine)
    requires 0 <= i < |GroupKeys(OriginalRows(d, Exclusive))|
    ensures l in d && Uncredited(l) && KeyOf(l) == Reconcile.Reconcile(d, Exclusive)[i].key
  {
    ExclusiveHead(d, i);
    l := GroupSource(OriginalRows(d, Exclusive), MeanAgg, i);
  }

  /** An uncredited line's key has a fact in the sales part. */
  lemma SalesCover(d: seq<RawLine>, l: RawLine) returns (i: int)
    requires l in d && Uncredited(l)
    ensures 0 <= i < |GroupKeys(OriginalRows(d, Exclusive))|
    ensures Reconcile.Reconcile(d, Exclusive)[i].key == KeyOf(l)
  {
    i := GroupCover(OriginalRows(d, Exclusive), MeanAgg, l);
    ExclusiveHead(d, i);
  }

  /** Fact `i` past the sales part is a reversal: it owes nothing and is
      dated on the credit note of a credited line. */
  lemma ReversalAt(d: seq<RawLine>, i: int) returns (l: RawLine)
    requires |GroupKeys(OriginalRows(d, Exclusive))| <= i < |Reconcile.Reconcile(d, Exclusive)|
    ensures Reconcile.Reconcile(d, Exclusive)[i].due == 0.0
    ensures l in d && Credited(l) && l.creditnoteDate == Some(Reconcile.Reconcile(d, Exclusive)[i].key.issuedAt)
  {
    ExclusiveTail(d, i);
    l := ReversalGroupAt(d, i - |GroupKeys(OriginalRows(d, Exclusive))|);
  }

  /** A fact of the grouped reversal rows owes nothing and is dated on a
      credited line's credit note. */
  lemma ReversalGroupAt(d: seq<RawLine>, k: int) returns (l: RawLine)
    requires 0 <= k < |GroupRows(ReversalRows(d), MeanAgg)|
    ensures GroupRows(ReversalRows(d), MeanAgg)[k].due == 0.0
    ensures l in d && Credited(l) && l.creditnoteDate == Some(GroupRows(ReversalRows(d), MeanAgg)[k].key.issuedAt)
  {
    var v := GroupRows(ReversalRows(d), MeanAgg);
    ReversalFactsNothingDue(d, MeanAgg);
    assert v[k] in v;
    var x := GroupSource(ReversalRows(d), MeanAgg, k);
    l := ReversalSource(d, x);
  }

  /** A reversal row comes from a credited line, dated on its credit note. */
  lemma ReversalSource(d: seq<RawLine>, x: RawLine) returns (l: RawLine)
    requires x in ReversalRows(d)
    ensures l in d && Credited(l) && l.creditnoteDate == Some(x.issuedAt)
  {
    ReversalRowsFacts(d);
    l :| l in d && Credited(l) && l.creditnoteDate == Some(x.issuedAt);
  }

  /** Recomputing `item_sales` keeps each line's other columns: a line of
      the recomputed frame has the group key and credit note of the line
      at its position. */
  lemma DiscountedIndex(lines: seq<RawLine>, x: RawLine) returns (j: nat)
    requires FirstSubtotalsNonZero(lines)
    requires x in WithDiscountedSales(lines)
    ensures j < |lines| && KeyOf(lines[j]) == KeyOf(x) && lines[j].creditnoteDate == x.creditnoteDate
  {
    var d := WithDiscountedSales(lines);
    j :| 0 <= j < |d| && d[j] == x;
  }

  /** The frame of ibiomed.py: the feed's own `item_sales`, reconciled with
      the credited lines kept. Its sales add up to those of the lines
      without a credit note: a credited line's sale and its reversal
      cancel. */
  function IbiomedFacts(lines: seq<RawLine>): (r: seq<Fact>)
    ensures Sum(r, FactItemSales) == Sum(Filter(lines, Uncredited), ItemSales)
  {
    InclusiveNetSales(lines);
    Reconcile.Reconcile(lines, Inclusive)
  }

  // ---------------------------------------------------------------------
  // The selected period

  /** `issued_at >= start` and `issued_at <= end`, both days included. */
  predicate InWindow(start: Date, end: Date, d: Date) {
    DateLe(start, d) && DateLe(d, end)
  }

  /** The facts issued inside the period, in frame order. */
  function Window(facts: seq<Fact>, start: Date, end: Date): (r: seq<Fact>)
    ensures forall f :: f in r <==> f in facts && InWindow(start, end, f.key.issuedAt)
    ensures |r| <= |facts|
  {
    if facts == [] then []
    else
      var rest := Window(facts[1..], start, end);
      assert facts == [facts[0]] + facts[1..];
      if InWindow(start, end, facts[0].key.issuedAt) then [facts[0]] + rest else rest
  }

  /** Filtering the concatenation of two frames filters each part and keeps
      their order. */
  lemma {:induction false} WindowAppend(a: seq<Fact>, b: seq<Fact>, start: Date, end: Date)
    ensures Window(a + b, start, end) == Window(a, start, end) + Window(b, start, end)
  {
    if a == [] {
      assert a + b == b;
    } else {
      assert (a + b)[1..] == a[1..] + b;
      WindowAppend(a[1..], b, start, end);
    }
  }

  /** A period that covers every issue date keeps the whole frame. */
  lemma {:induction false} WindowAll(facts: seq<Fact>, start: Date, end: Date)
    requires forall f :: f in facts ==> InWindow(start, end, f.key.issuedAt)
    ensures Window(facts, start, end) == facts
  {
    if facts != [] {
      assert facts[0] in facts;
      assert forall f :: f in facts[1..] ==> f in facts;
      WindowAll(facts[1..], start, end);
      assert facts == [facts[0]] + facts[1..];
    }
  }

  /** Filtering twice by the same period changes nothing. */
  lemma WindowIdempotent(facts: seq<Fact>, start: Date, end: Date)
    ensures Window(Window(facts, start, end), start, end) == Window(facts, start, end)
  {
    WindowAll(Window(facts, start, end), start, end);
  }

  /** A period whose end is before its start selects nothing. */
  lemma EmptyWindow(facts: seq<Fact>, start: Date, end: Date)
    requires DateLess(end, start)
    ensures Window(facts, start, end) == []
  {
  }

  // ---------------------------------------------------------------------
  // The header figures

  /** The number of the sample customer, as a text. */
  const SampleNit := "105272981"

  /** `payee_nit != '105272981'`. */
  predicate NotSampleText(f: Fact) { f.key.payeeNit != NitText(SampleNit) }

  predicate SampleText(f: Fact) { f.key.payeeNit == NitText(SampleNit) }

  /** "Sin Muestras": the period's sales without the sample customer, that
      is the total less the sample customer's own sales. */
  function SalesWithoutSamples(w: seq<Fact>): (r: real)
    ensures r == Sum(w, FactItemSales) - Sum(Filter(w, SampleText), FactItemSales)
  {
    SumFilterSplit(w, NotSampleText, SampleText, FactItemSales);
    Sum(Filter(w, NotSampleText), FactItemSales)
  }

  /** The comparison is with a text: a fact whose NIT the feed delivers as
      a number, the sample customer's included, stays in "Sin Muestras". */
  lemma NumericSampleNotExcluded(w: seq<Fact>)
    ensures forall f :: f in w && f.key.payeeNit.NitNumber? ==> f in Filter(w, NotSampleText)
  {
    FilterMembers(w, NotSampleText);
  }

  /** The figures of ibiomed.py's header. */
  datatype Header = Header(total: real, withoutSamples: real, due: real, averageGrowth: Ext)

  /** ibiomed.py:82-115: nothing until both ends of the period are chosen
      (the date picker yields zero, one or two dates); then the period's
      sales, the sales without samples, the amount due and the average
      month-over-month growth. */
  function IbiomedHeader(facts: seq<Fact>, picked: seq<Date>): (h: Option<Header>)
    requires |picked| <= 2
    ensures h.None? <==> |picked| < 2
    ensures h.Some? ==> var w := Window(facts, picked[0], picked[1]);
      && h.value.total == Sum(w, FactItemSales)
      && h.value.withoutSamples == SalesWithoutSamples(w)
      && h.value.due == Sum(w, FactDue)
      && h.value.averageGrowth == AverageGrowth(w)
  {
    if |picked| < 2 then None
    else
      var w := Window(facts, picked[0], picked[1]);
      Some(Header(Sum(w, FactItemSales), SalesWithoutSamples(w), Sum(w, FactDue), AverageGrowth(w)))
  }

  /** The trend is the slope in percent of the first month's sales; with no
      sales in the first month it is 0. */
  function TrendPercent(slope: real, first: real): (r: real)
    ensures first == 0.0 ==> r == 0.0
    ensures first != 0.0 ==> r * first == slope * 100.0
  {
    if first != 0.0 then
      var q := slope / first;
      assert q * first == slope;
      q * 100.0
    else 0.0
  }

  /** Its sign is the slope's when the first month sold, and the opposite
      when it was a net return. */
  lemma TrendPercentCases(slope: real, first: real)
    ensures first > 0.0 ==> (TrendPercent(slope, first) > 0.0 <==> slope > 0.0)
    ensures first < 0.0 ==> (TrendPercent(slope, first) > 0.0 <==> slope < 0.0)
  {
    if first != 0.0 {
      var q := slope / first;
      assert q * first == slope;
      if first > 0.0 {
        assert q > 0.0 <==> slope > 0.0;
      } else {
        assert q > 0.0 <==> slope < 0.0;
      }
    }
  }

  /** `monthly_totals['item_sales'].iloc[0]`: the sales of the first
      observed month. */
  function FirstMonthSales(w: seq<Fact>): (r: real)
    requires w != []
    ensures r == MonthTotal(w, FirstMonth(w))
  {
    ObservedEnds(w);
    ObservedTotals(w)[0].total
  }

  /** The figures of app.py's header. */
  datatype AppHeader = AppHeader(total: real, due: real, trend: real)

  /** app.py:76-124 for the dates picked in the period widget; `slope` is
      the slope the regression finds over the monthly totals. The page
      unpacks the picked dates without checking how many there are, so it
      fails until both ends are chosen. An empty period has no first month,
      so it fails too. Both failures give no figures. */
  function AppHeaderFigures(facts: seq<Fact>, picked: seq<Date>, slope: real): (h: Option<AppHeader>)
    requires |picked| <= 2
    ensures h.None? <==> |picked| < 2 || Window(facts, picked[0], picked[1]) == []
    ensures h.Some? ==> var w := Window(facts, picked[0], picked[1]);
      && h.value.total == Sum(w, FactItemSales)
      && h.value.due == Sum(w, FactDue)
      && h.value.trend == TrendPercent(slope, MonthTotal(w, FirstMonth(w)))
  {
    if |picked| < 2 then None
    else
      var w := Window(facts, picked[0], picked[1]);
      if w == [] then None
      else
        Some(AppHeader(Sum(w, FactItemSales), Sum(w, FactDue), TrendPercent(slope, FirstMonthSales(w))))
  }
}
