/** The customers page. It works on the raw feed lines: one summary row per
    customer (total sales, number of distinct purchase dates, days since the
    last purchase), a six-way segmentation by recency and frequency, the
    sales and customer count of each segment, and the filters of the detail
    table. */
module Customers {
  import opened Common
  import opened Seqs
  import opened Strings
  import opened Ordering
  import opened Calendar
  import opened Records
  import opened Reconcile

  // ---------------------------------------------------------------------
  // The customer summary

  /** A customer is a pair of `payee_nit` and `payee_name`. */
  datatype Customer = Customer(nit: Nit, name: string)

  function CustomerOf(l: RawLine): Customer { Customer(l.payeeNit, l.payeeName) }

  /** The order of the groups of `groupby(['payee_nit', 'payee_name'])`. */
  predicate CustomerLess(a: Customer, b: Customer) {
    NitLess(a.nit, b.nit) || (a.nit == b.nit && StrLess(a.name, b.name))
  }

  lemma CustomerLessOrder()
    ensures StrictTotalOrder(CustomerLess)
  {
    NitLessOrder();
    StrLessFacts();
  }

  /** The customers of the lines, each once, in group order. */
  function CustomersOf(lines: seq<RawLine>): (r: seq<Customer>)
    ensures forall i :: 0 <= i < |r| ==> exists l :: l in lines && CustomerOf(l) == r[i]
    ensures forall c :: c in r ==> c in Map(lines, CustomerOf)
    ensures forall l :: l in lines ==> CustomerOf(l) in r
    ensures forall i, j :: 0 <= i < j < |r| ==> CustomerLess(r[i], r[j])
  {
    var m := Map(lines, CustomerOf);
    var r := SortedDistinct(m, CustomerLess);
    CustomerLessOrder();
    SortedDistinctSorted(m, CustomerLess);
    MapImage(lines, CustomerOf);
    r
  }

  /** `issued_at.nunique()`: the number of distinct issue dates of the
      customer's lines. */
  function Frequency(lines: seq<RawLine>, c: Customer): nat {
    |Unique(Map(Group(lines, CustomerOf, c), IssuedAt))|
  }

  /** The customer's frequency is the number of distinct dates among its lines. */
  lemma FrequencyDates(lines: seq<RawLine>, c: Customer)
    ensures Frequency(lines, c) == |set l | l in lines && CustomerOf(l) == c :: l.issuedAt|
  {
    var dates := Unique(Map(Group(lines, CustomerOf, c), IssuedAt));
    DistinctCardinality(dates);
    GroupDatesCovered(lines, c);
    GroupDatesWitnessed(lines, c);
    assert (set d | d in dates) == (set l | l in lines && CustomerOf(l) == c :: l.issuedAt);
  }

  lemma GroupDatesCovered(lines: seq<RawLine>, c: Customer)
    ensures forall l :: l in lines && CustomerOf(l) == c ==>
      l.issuedAt in Unique(Map(Group(lines, CustomerOf, c), IssuedAt))
  {
    var group := Group(lines, CustomerOf, c);
    GroupMembers(lines, CustomerOf, c);
    forall l | l in lines && CustomerOf(l) == c ensures l.issuedAt in Unique(Map(group, IssuedAt)) {
      var i :| 0 <= i < |group| && group[i] == l;
      assert Map(group, IssuedAt)[i] == l.issuedAt;
    }
  }

  lemma GroupDatesWitnessed(lines: seq<RawLine>, c: Customer)
    ensures forall d :: d in Unique(Map(Group(lines, CustomerOf, c), IssuedAt)) ==>
      exists l :: l in lines && CustomerOf(l) == c && l.issuedAt == d
  {
    var group := Group(lines, CustomerOf, c);
    var dates := Unique(Map(group, IssuedAt));
    forall d | d in dates ensures exists l :: l in lines && CustomerOf(l) == c && l.issuedAt == d {
      var j :| 0 <= j < |group| && Map(group, IssuedAt)[j] == d;
      assert group[j] in lines;
    }
  }

  /** The latest issue date of the customer's lines. */
  function LastPurchase(lines: seq<RawLine>, c: Customer): Date
    requires c in Map(lines, CustomerOf)
  {
    var group := Group(lines, CustomerOf, c);
    assert group != [] by {
      GroupMembers(lines, CustomerOf, c);
      var j :| 0 <= j < |lines| && Map(lines, CustomerOf)[j] == c;
      assert lines[j] in group;
    }
    Latest(Map(group, IssuedAt))
  }

  /** The last purchase is the date of one of the customer's lines, and no
      line of the customer is later. */
  lemma LastPurchaseLatest(lines: seq<RawLine>, c: Customer)
    requires c in Map(lines, CustomerOf)
    ensures exists l :: l in lines && CustomerOf(l) == c && l.issuedAt == LastPurchase(lines, c)
    ensures forall l :: l in lines && CustomerOf(l) == c ==> DateLe(l.issuedAt, LastPurchase(lines, c))
  {
    var group := Group(lines, CustomerOf, c);
    GroupMembers(lines, CustomerOf, c);
    MapImage(group, IssuedAt);
    var l :| l in group && l.issuedAt == LastPurchase(lines, c);
    var i :| 0 <= i < |group| && group[i] == l;
  }

  /** `(now - issued_at.max()).days`: the days since the last purchase, the
      fewest days since any of the customer's purchases. */
  function Recency(lines: seq<RawLine>, c: Customer, now: Instant): int
    requires c in Map(lines, CustomerOf)
  {
    ElapsedDays(now, LastPurchase(lines, c))
  }

  /** The recency is the fewest days since any of the customer's purchases. */
  lemma RecencyLeast(lines: seq<RawLine>, c: Customer, now: Instant)
    requires c in Map(lines, CustomerOf)
    ensures exists l :: l in lines && CustomerOf(l) == c && Recency(lines, c, now) == ElapsedDays(now, l.issuedAt)
    ensures forall l :: l in lines && CustomerOf(l) == c ==> Recency(lines, c, now) <= ElapsedDays(now, l.issuedAt)
  {
    var d := LastPurchase(lines, c);
    LastPurchaseLatest(lines, c);
    forall l | l in lines && CustomerOf(l) == c ensures ElapsedDays(now, d) <= ElapsedDays(now, l.issuedAt) {
      DayNumberOrder(l.issuedAt, d);
    }
  }

  /** One row of `summary`, before the segment column is added. */
  datatype Stats = Stats(customer: Customer, totalSales: real, frequency: nat, recency: int)

  function StatsOf(lines: seq<RawLine>, c: Customer, now: Instant): Stats
    requires c in Map(lines, CustomerOf)
  {
    Stats(c, SumWhere(lines, CustomerOf, c, ItemSales), Frequency(lines, c), Recency(lines, c, now))
  }

  function StatsSales(s: Stats): real { s.totalSales }

  /** The rows of the customers `cs`, in order. */
  function StatsRows(lines: seq<RawLine>, cs: seq<Customer>, now: Instant): (r: seq<Stats>)
    requires forall c :: c in cs ==> c in Map(lines, CustomerOf)
    ensures |r| == |cs|
    ensures forall i :: 0 <= i < |r| ==> r[i].customer == cs[i]
    ensures forall i :: 0 <= i < |r| ==> r[i].totalSales == SumWhere(lines, CustomerOf, cs[i], ItemSales)
  {
    seq(|cs|, i requires 0 <= i < |cs| => StatsOf(lines, cs[i], now))
  }

  lemma StatsRowsSales(lines: seq<RawLine>, cs: seq<Customer>, now: Instant)
    requires forall c :: c in cs ==> c in Map(lines, CustomerOf)
    ensures Sum(StatsRows(lines, cs, now), StatsSales) == SumOverKeys(cs, lines, CustomerOf, ItemSales)
  {
    RowTotals(StatsRows(lines, cs, now), cs, lines);
  }

  /** Rows whose totals are the customers' sums add up to the sum over those customers. */
  lemma {:induction false} RowTotals(r: seq<Stats>, cs: seq<Customer>, lines: seq<RawLine>)
    requires |r| == |cs|
    requires forall i :: 0 <= i < |r| ==> r[i].totalSales == SumWhere(lines, CustomerOf, cs[i], ItemSales)
    ensures Sum(r, StatsSales) == SumOverKeys(cs, lines, CustomerOf, ItemSales)
  {
    if r != [] {
      assert forall i :: 0 <= i < |r[1..]| ==> r[1..][i] == r[i + 1];
      RowTotals(r[1..], cs[1..], lines);
    }
  }

  /** pages/1:34-38: one row per customer, in group order. */
  function Summary(lines: seq<RawLine>, now: Instant): (r: seq<Stats>)
    ensures |r| == |CustomersOf(lines)|
    ensures forall i :: 0 <= i < |r| ==> r[i].customer == CustomersOf(lines)[i]
  {
    StatsRows(lines, CustomersOf(lines), now)
  }

  /** Every customer of the lines has a row. */
  lemma SummaryComplete(lines: seq<RawLine>, now: Instant)
    ensures forall l :: l in lines ==> exists i :: 0 <= i < |Summary(lines, now)| && Summary(lines, now)[i].customer == CustomerOf(l)
  {
    var r := Summary(lines, now);
    var cs := CustomersOf(lines);
    forall l | l in lines ensures exists i :: 0 <= i < |r| && r[i].customer == CustomerOf(l) {
      var i :| 0 <= i < |cs| && cs[i] == CustomerOf(l);
      assert r[i].customer == CustomerOf(l);
    }
  }

  /** No customer has two rows. */
  lemma SummaryDistinct(lines: seq<RawLine>, now: Instant)
    ensures forall i, j :: 0 <= i < j < |Summary(lines, now)| ==> Summary(lines, now)[i].customer != Summary(lines, now)[j].customer
  {
    CustomerLessOrder();
  }

  /** The rows add up to the sales of all lines. */
  lemma SummarySales(lines: seq<RawLine>, now: Instant)
    ensures Sum(Summary(lines, now), StatsSales) == Sum(lines, ItemSales)
  {
    var cs := CustomersOf(lines);
    CustomerLessOrder();
    assert Distinct(cs);
    StatsRowsSales(lines, cs, now);
    PartitionSum(cs, lines, CustomerOf, ItemSales);
  }

  /** The row of a customer holds its sales, its number of purchase dates
      and the days since its last purchase. */
  lemma SummaryRow(lines: seq<RawLine>, now: Instant, i: int)
    requires 0 <= i < |Summary(lines, now)|
    ensures var s := Summary(lines, now)[i];
      && s.totalSales == SumWhere(lines, CustomerOf, s.customer, ItemSales)
      && s.frequency == |set l | l in lines && CustomerOf(l) == s.customer :: l.issuedAt|
      && (exists l :: l in lines && CustomerOf(l) == s.customer && s.recency == ElapsedDays(now, l.issuedAt))
      && (forall l :: l in lines && CustomerOf(l) == s.customer ==> s.recency <= ElapsedDays(now, l.issuedAt))
  {
    var c := CustomersOf(lines)[i];
    assert Summary(lines, now)[i] == StatsOf(lines, c, now);
    FrequencyDates(lines, c);
    RecencyLeast(lines, c, now);
  }

  // ---------------------------------------------------------------------
  // The segments

  /** `avg_distinct_days`: the mean frequency of the customers. */
  function AverageFrequency(rows: seq<Stats>): (r: Ext)
    ensures r == NaN <==> rows == []
  {
    if rows == [] then NaN else Fin(Sum(rows, StatsFrequency) / |rows| as real)
  }

  function StatsFrequency(s: Stats): real { s.frequency as real }

  /** Some customer buys at least as often as the average: the frequent
      half of the segments is never empty. */
  lemma SomeAtOrAboveAverage(rows: seq<Stats>)
    requires rows != []
    ensures exists i :: 0 <= i < |rows| && rows[i].frequency as real >= AverageFrequency(rows).v
  {
    var avg := AverageFrequency(rows).v;
    AverageTimesCount(rows);
    if forall i :: 0 <= i < |rows| ==> StatsFrequency(rows[i]) < avg {
      StrictSumBound(rows, avg);
      assert false;
    }
  }

  lemma AverageTimesCount(rows: seq<Stats>)
    requires rows != []
    ensures |rows| as real * AverageFrequency(rows).v == Sum(rows, StatsFrequency)
  {
  }

  /** Values all below `avg` add up to less than `n * avg`. */
  lemma {:induction false} StrictSumBound(rows: seq<Stats>, avg: real)
    requires rows != []
    requires forall i :: 0 <= i < |rows| ==> StatsFrequency(rows[i]) < avg
    ensures Sum(rows, StatsFrequency) < |rows| as real * avg
  {
    if |rows| > 1 {
      assert forall i :: 0 <= i < |rows[1..]| ==> rows[1..][i] == rows[i + 1];
      StrictSumBound(rows[1..], avg);
      assert |rows| as real * avg == |rows[1..]| as real * avg + avg;
    }
  }

  /** The six labels of `choices`, and 'unknown'. */
  datatype Segment = Nuevo | Leal | Curioso | Latente | OneTimer | Olvidado | Unknown

  function SegmentLabel(s: Segment): string {
    match s
    case Nuevo => "Nuevo"
    case Leal => "Leal"
    case Curioso => "Curioso"
    case Latente => "Latente"
    case OneTimer => "1 Timer"
    case Olvidado => "Olvidado"
    case Unknown => "unknown"
  }

  const SixMonths := 180
  const OneYear := 365

  /** pages/1:44-55: `np.select` takes the first condition that holds. The
      six conditions split recency into three bands and frequency into two,
      so every customer gets exactly the label of its band and 'unknown' is
      never chosen. */
  function Classify(recency: int, frequency: nat, avg: real): (s: Segment)
    ensures s != Unknown
    ensures s == Nuevo <==> recency <= SixMonths && (frequency as real) < avg
    ensures s == Leal <==> recency <= SixMonths && (frequency as real) >= avg
    ensures s == Curioso <==> SixMonths < recency <= OneYear && (frequency as real) < avg
    ensures s == Latente <==> SixMonths < recency <= OneYear && (frequency as real) >= avg
    ensures s == OneTimer <==> OneYear < recency && (frequency as real) < avg
    ensures s == Olvidado <==> OneYear < recency && (frequency as real) >= avg
  {
    var f := frequency as real;
    if recency <= SixMonths && f < avg then Nuevo
    else if recency <= SixMonths && f >= avg then Leal
    else if recency <= OneYear && f < avg then Curioso
    else if recency <= OneYear && f >= avg then Latente
    else if recency > OneYear && f < avg then OneTimer
    else if recency > OneYear && f >= avg then Olvidado
    else Unknown
  }

  /** The band edges: 180 days is still recent, 365 days still within the
      year, 366 days beyond it. */
  lemma ClassifyBoundaries(frequency: nat, avg: real)
    ensures Classify(180, frequency, avg) in {Nuevo, Leal}
    ensures Classify(181, frequency, avg) in {Curioso, Latente}
    ensures Classify(365, frequency, avg) in {Curioso, Latente}
    ensures Classify(366, frequency, avg) in {OneTimer, Olvidado}
  {
  }

  /** With an average of 10 purchase days, a customer last seen 200 days ago
      on 5 days is Curioso: the first rule fails on recency. */
  lemma ClassifyExample()
    ensures Classify(200, 5, 10.0) == Curioso
  {
  }

  /** A row of the detail table: the summary row and its segment. */
  datatype CustomerRow = CustomerRow(stats: Stats, segment: Segment)

  function RowSegment(r: CustomerRow): Segment { r.segment }

  function RowSales(r: CustomerRow): real { r.stats.totalSales }

  /** pages/1:42-55: `summary` with its `category` column. */
  function Segmented(lines: seq<RawLine>, now: Instant): (r: seq<CustomerRow>)
    ensures |r| == |Summary(lines, now)|
    ensures forall i :: 0 <= i < |r| ==> r[i].stats == Summary(lines, now)[i] && r[i].segment != Unknown
  {
    SegmentRows(Summary(lines, now))
  }

  /** Each summary row with its segment, against the rows' average
      frequency. */
  function SegmentRows(rows: seq<Stats>): (r: seq<CustomerRow>)
    ensures |r| == |rows|
    ensures forall i :: 0 <= i < |r| ==> r[i].stats == rows[i] && r[i].segment != Unknown
  {
    if rows == [] then []
    else
      var avg := AverageFrequency(rows).v;
      seq(|rows|, i requires 0 <= i < |rows| => SegmentRow(rows[i], avg))
  }

  /** One summary row with the segment its recency and frequency give. */
  function SegmentRow(row: Stats, avg: real): (c: CustomerRow)
    ensures c.stats == row && c.segment != Unknown
  {
    CustomerRow(row, Classify(row.recency, row.frequency, avg))
  }

  /** A customer bought recently (within 180 days) exactly when it is Nuevo
      or Leal, it is Olvidado or 1 Timer exactly when its last purchase is
      more than a year old, and it is in a frequent segment exactly when it
      buys at least as often as the average customer. */
  lemma SegmentedBands(lines: seq<RawLine>, now: Instant, i: int)
    requires 0 <= i < |Segmented(lines, now)|
    ensures var r := Segmented(lines, now)[i];
      var avg := AverageFrequency(Summary(lines, now)).v;
      && (r.segment in {Nuevo, Leal} <==> r.stats.recency <= SixMonths)
      && (r.segment in {Olvidado, OneTimer} <==> r.stats.recency > OneYear)
      && (r.segment in {Leal, Latente, Olvidado} <==> r.stats.frequency as real >= avg)
  {
  }

  /** Whenever there are customers, one of them is in a frequent segment. */
  lemma SomeFrequentCustomer(lines: seq<RawLine>, now: Instant)
    requires lines != []
    ensures exists i :: 0 <= i < |Segmented(lines, now)| && Segmented(lines, now)[i].segment in {Leal, Latente, Olvidado}
  {
    var rows := Summary(lines, now);
    assert CustomerOf(lines[0]) in CustomersOf(lines);
    SomeAtOrAboveAverage(rows);
    var i :| 0 <= i < |rows| && rows[i].frequency as real >= AverageFrequency(rows).v;
    SegmentedBands(lines, now, i);
  }

  // ---------------------------------------------------------------------
  // Sales by segment

  /** One card of "Ventas por Categoría". */
  datatype SegmentTotal = SegmentTotal(segment: string, totalSales: real, clientCount: nat)

  function RowLabel(r: CustomerRow): string { SegmentLabel(r.segment) }

  function TotalSales(t: SegmentTotal): real { t.totalSales }

  function TotalCount(t: SegmentTotal): real { t.clientCount as real }

  function One(r: CustomerRow): real { 1.0 }

  /** `groupby('category')`: one total per label of `labels`. */
  function TotalsFor(rows: seq<CustomerRow>, labels: seq<string>): (r: seq<SegmentTotal>)
    ensures |r| == |labels|
    ensures forall i :: 0 <= i < |r| ==> r[i] == SegmentTotal(labels[i], SumWhere(rows, RowLabel, labels[i], RowSales), CountWhere(rows, RowLabel, labels[i]))
  {
    if labels == [] then []
    else (
      [SegmentTotal(labels[0], SumWhere(rows, RowLabel, labels[0], RowSales), CountWhere(rows, RowLabel, labels[0]))]
      + TotalsFor(rows, labels[1..]))
  }

  /** `sort_values(by='total_sales', ascending=False)`. */
  predicate SalesAtLeast(a: SegmentTotal, b: SegmentTotal) { a.totalSales >= b.totalSales }

  lemma SalesAtLeastPreorder()
    ensures TotalPreorder(SalesAtLeast)
  {
  }

  /** The segment labels of the rows, in text order. */
  function Labels(rows: seq<CustomerRow>): seq<string> {
    SortedDistinct(Map(rows, RowLabel), StrLess)
  }

  /** pages/1:103-109: sales and customer count per segment, largest sales
      first. */
  function SegmentTotals(rows: seq<CustomerRow>): (r: seq<SegmentTotal>)
    ensures multiset(r) == multiset(TotalsFor(rows, Labels(rows)))
    ensures forall i, j :: 0 <= i < j < |r| ==> r[i].totalSales >= r[j].totalSales
  {
    SalesAtLeastPreorder();
    SortBySorted(TotalsFor(rows, Labels(rows)), SalesAtLeast);
    SortBy(TotalsFor(rows, Labels(rows)), SalesAtLeast)
  }

  lemma {:induction false} TotalsForSums(rows: seq<CustomerRow>, labels: seq<string>)
    ensures Sum(TotalsFor(rows, labels), TotalSales) == SumOverKeys(labels, rows, RowLabel, RowSales)
    ensures Sum(TotalsFor(rows, labels), TotalCount) == SumOverKeys(labels, rows, RowLabel, One)
  {
    if labels != [] {
      TotalsForSums(rows, labels[1..]);
      SumWhereConstant(rows, RowLabel, labels[0], One, 1.0);
    }
  }

  /** The cards lose nothing: their sales add up to the customers' sales
      and their counts to the number of customers. */
  lemma SegmentTotalsSum(rows: seq<CustomerRow>)
    ensures Sum(SegmentTotals(rows), TotalSales) == Sum(rows, RowSales)
    ensures Sum(SegmentTotals(rows), TotalCount) == |rows| as real
  {
    var labels := Labels(rows);
    assert Distinct(labels) by {
      StrLessOrder();
      SortedDistinctSorted(Map(rows, RowLabel), StrLess);
    }
    forall x | x in rows ensures RowLabel(x) in labels {
      var j :| 0 <= j < |rows| && rows[j] == x;
      assert Map(rows, RowLabel)[j] == RowLabel(x);
    }
    TotalsForSums(rows, labels);
    PartitionSum(labels, rows, RowLabel, RowSales);
    PartitionSum(labels, rows, RowLabel, One);
    SumOnes(rows);
    SumPermutation(SegmentTotals(rows), TotalsFor(rows, labels), TotalSales);
    SumPermutation(SegmentTotals(rows), TotalsFor(rows, labels), TotalCount);
  }

  lemma {:induction false} SumOnes(rows: seq<CustomerRow>)
    ensures Sum(rows, One) == |rows| as real
  {
    if rows != [] {
      SumOnes(rows[1..]);
    }
  }

  // ---------------------------------------------------------------------
  // The detail table's filters

  /** `payee_nit.astype(str)`. */
  function NitAsText(n: Nit): (r: string)
    ensures n.NitNumber? ==> |r| >= 1 && (n.number < 0 <==> r[0] == '-')
    ensures n.NitNumber? && n.number >= 0 ==> forall k :: 0 <= k < |r| ==> '0' <= r[k] <= '9'
  {
    match n
    case NitText(t) => t
    case NitNumber(k) =>
      if k >= 0 then NatToStringDigits(k); IntToString(k) else IntToString(k)
  }

  /** The text typed for the number, the text typed for the name and the
      chosen segments. */
  datatype TableFilter = TableFilter(nit: string, name: string, segments: seq<string>)

  predicate NitMatches(f: TableFilter, r: CustomerRow) { ContainsIgnoringCase(NitAsText(r.stats.customer.nit), f.nit) }

  predicate NameMatches(f: TableFilter, r: CustomerRow) { ContainsIgnoringCase(r.stats.customer.name, f.name) }

  predicate SegmentChosen(f: TableFilter, r: CustomerRow) { SegmentLabel(r.segment) in f.segments }

  /** Each filter, switched off when left empty, and the three together. */
  predicate InNit(f: TableFilter, r: CustomerRow) { f.nit == [] || NitMatches(f, r) }

  predicate InName(f: TableFilter, r: CustomerRow) { f.name == [] || NameMatches(f, r) }

  predicate InSegments(f: TableFilter, r: CustomerRow) { f.segments == [] || SegmentChosen(f, r) }

  predicate Shown(f: TableFilter, r: CustomerRow) { InNit(f, r) && InName(f, r) && InSegments(f, r) }

  function ShownMask(f: TableFilter): CustomerRow -> bool { r => Shown(f, r) }

  /** pages/1:145-153: `filtered_table` narrowed by each filter that is not
      empty, in turn. */
  method FilterTable(rows: seq<CustomerRow>, f: TableFilter) returns (shown: seq<CustomerRow>)
    ensures shown == Filter(rows, ShownMask(f))
    ensures forall r :: r in shown <==> r in rows && Shown(f, r)
  {
    var nitMask: CustomerRow -> bool := r => InNit(f, r);
    var nameMask: CustomerRow -> bool := r => InName(f, r);
    var segmentMask: CustomerRow -> bool := r => InSegments(f, r);
    shown := rows;
    if f.nit != [] {
      FilterSame(shown, r => NitMatches(f, r), nitMask);
      shown := Filter(shown, r => NitMatches(f, r));
    } else {
      FilterAll(shown, nitMask);
    }
    assert shown == Filter(rows, nitMask);
    var afterNit := shown;
    if f.name != [] {
      FilterSame(shown, r => NameMatches(f, r), nameMask);
      shown := Filter(shown, r => NameMatches(f, r));
    } else {
      FilterAll(shown, nameMask);
    }
    assert shown == Filter(afterNit, nameMask);
    var afterName := shown;
    if f.segments != [] {
      FilterSame(shown, r => SegmentChosen(f, r), segmentMask);
      shown := Filter(shown, r => SegmentChosen(f, r));
    } else {
      FilterAll(shown, segmentMask);
    }
    assert shown == Filter(afterName, segmentMask);
    FilterThree(rows, nitMask, nameMask, segmentMask, ShownMask(f));
    FilterMembers(rows, ShownMask(f));
  }

  /** With the three filters left empty the table shows every customer. */
  lemma EmptyFiltersShowAll(rows: seq<CustomerRow>)
    ensures Filter(rows, ShownMask(TableFilter([], [], []))) == rows
  {
    FilterAll(rows, ShownMask(TableFilter([], [], [])));
  }
}
