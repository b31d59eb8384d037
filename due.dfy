/** The tables of amounts still owed. app.py lists the ten facts of the
    period with the largest amount due, oldest first among equal amounts.
    ibiomed.py lists every sold fact of the whole frame that is still owed,
    with the days since issue (flagged past 90 days), averaged per
    (issue date, days, invoice, seller, customer). */
module Due {
  import opened Common
  import opened Seqs
  import opened Strings
  import opened Ordering
  import opened Calendar
  import opened Records
  import opened Reconcile

  /** `sort_values(['due', 'issued_at'], ascending=[False, True])`: larger
      amounts first, then older issue dates. */
  predicate DueFirst(a: Fact, b: Fact) {
    a.due > b.due || (a.due == b.due && DateLe(a.key.issuedAt, b.key.issuedAt))
  }

  lemma DueFirstPreorder()
    ensures TotalPreorder(DueFirst)
  {
    DateLessOrder();
  }

  // ---------------------------------------------------------------------
  // app.py:211-216

  /** One row of app.py's table. */
  datatype DueRow = DueRow(issued: string, invoice: string, seller: string, payee: string, due: real)

  function DueRowOf(f: Fact): (r: DueRow)
    ensures r.issued == DateLabel(f.key.issuedAt) && r.due == f.due
    ensures r.invoice == f.key.invoiceNumber && r.seller == f.key.sellerName && r.payee == f.key.payeeName
  {
    DueRow(DateLabel(f.key.issuedAt), f.key.invoiceNumber, f.key.sellerName, f.key.payeeName, f.due)
  }

  const ShownDue := 10

  /** The whole period's facts in table order. */
  function DueOrder(w: seq<Fact>): (r: seq<Fact>)
    ensures multiset(r) == multiset(w)
  {
    SortBy(w, DueFirst)
  }

  /** `.head(10)` of that order. */
  function HighestDueFacts(w: seq<Fact>): (t: seq<Fact>)
    ensures |t| == if |w| < ShownDue then |w| else ShownDue
  {
    Take(DueOrder(w), ShownDue)
  }

  /** The table with its columns projected and the date written out. */
  function HighestDue(w: seq<Fact>): (r: seq<DueRow>)
    ensures |r| == |HighestDueFacts(w)|
    ensures forall i :: 0 <= i < |r| ==> r[i] == DueRowOf(HighestDueFacts(w)[i])
  {
    Map(HighestDueFacts(w), DueRowOf)
  }

  /** The shown facts come first in the table order: amounts descending,
      older first among equal amounts, and no fact left out is owed more
      than a shown one. */
  lemma HighestDueOrder(w: seq<Fact>)
    ensures var s := DueOrder(w);
      var t := HighestDueFacts(w);
      && t == s[..|t|]
      && (forall i, j :: 0 <= i < j < |t| ==> DueFirst(t[i], t[j]))
      && (forall i, j :: 0 <= i < |t| <= j < |s| ==> t[i].due >= s[j].due)
  {
    DueFirstPreorder();
    SortBySorted(w, DueFirst);
  }

  // ---------------------------------------------------------------------
  // ibiomed.py:218-233

  predicate Sold(f: Fact) { f.itemSales > 0.0 }

  predicate Owed(f: Fact) { f.due > 0.0 }

  /** Days past which the days column carries the alert sign. */
  const AlertDays := 90

  /** The days column: the number, followed by " 🚨" past 90 days. */
  function DaysLabel(days: int): (r: string)
    ensures |r| >= |IntToString(days)| && r[..|IntToString(days)|] == IntToString(days)
    ensures |r| > |IntToString(days)| <==> days > AlertDays
  {
    if days > AlertDays then IntToString(days) + " 🚨" else IntToString(days)
  }

  /** The five columns of the final `groupby`, as the texts they are by then. */
  datatype AlertKey = AlertKey(issued: string, days: string, invoice: string, seller: string, payee: string)

  /** One projected row: its group key and its amount due. */
  datatype AlertLine = AlertLine(key: AlertKey, due: real)

  function LineKey(l: AlertLine): AlertKey { l.key }

  function LineDue(l: AlertLine): real { l.due }

  /** The row of fact `f` on day `now`. */
  function AlertLineOf(f: Fact, now: Instant): (l: AlertLine)
    ensures l.key.issued == DateLabel(f.key.issuedAt)
    ensures l.key.days == DaysLabel(DayNumber(now.date) - DayNumber(f.key.issuedAt))
    ensures l.key.invoice == f.key.invoiceNumber && l.key.seller == f.key.sellerName
    ensures l.key.payee == f.key.payeeName && l.due == f.due
  {
    var days := ElapsedDays(now, f.key.issuedAt);
    AlertLine(AlertKey(DateLabel(f.key.issuedAt), DaysLabel(days), f.key.invoiceNumber,
                       f.key.sellerName, f.key.payeeName), f.due)
  }

  /** The projection applied row by row. */
  function AlertLines(rows: seq<Fact>, now: Instant): (r: seq<AlertLine>)
    ensures |r| == |rows|
    ensures forall i :: 0 <= i < |rows| ==> r[i] == AlertLineOf(rows[i], now)
  {
    if rows == [] then [] else [AlertLineOf(rows[0], now)] + AlertLines(rows[1..], now)
  }

  /** The group order: column by column, each as text. */
  predicate AlertKeyLess(a: AlertKey, b: AlertKey) {
    || StrLess(a.issued, b.issued)
    || (a.issued == b.issued && StrLess(a.days, b.days))
    || (a.issued == b.issued && a.days == b.days && StrLess(a.invoice, b.invoice))
    || (a.issued == b.issued && a.days == b.days && a.invoice == b.invoice && StrLess(a.seller, b.seller))
    || (a.issued == b.issued && a.days == b.days && a.invoice == b.invoice && a.seller == b.seller
        && StrLess(a.payee, b.payee))
  }

  lemma AlertKeyLessOrder()
    ensures StrictTotalOrder(AlertKeyLess)
  {
    StrLessFacts();
    forall a: AlertKey, b: AlertKey, c: AlertKey | AlertKeyLess(a, b) && AlertKeyLess(b, c)
      ensures AlertKeyLess(a, c)
    {
    }
    forall a: AlertKey, b: AlertKey | a != b ensures AlertKeyLess(a, b) || AlertKeyLess(b, a) {
    }
  }

  /** One row of the alert table: a group and its mean amount due. */
  datatype Alert = Alert(key: AlertKey, due: real)

  function AlertsFor(lines: seq<AlertLine>, ks: seq<AlertKey>): (r: seq<Alert>)
    requires forall k :: k in ks ==> CountWhere(lines, LineKey, k) > 0
    ensures |r| == |ks|
    ensures forall i :: 0 <= i < |ks| ==> r[i] == Alert(ks[i], MeanWhere(lines, LineKey, ks[i], LineDue))
  {
    if ks == [] then [] else [Alert(ks[0], MeanWhere(lines, LineKey, ks[0], LineDue))] + AlertsFor(lines, ks[1..])
  }

  /** The rows that reach the final `groupby`: the sold facts of the whole
      frame, in table order, that are still owed. */
  function OwedRows(frame: seq<Fact>): (r: seq<Fact>)
    ensures forall f :: f in r <==> f in frame && Sold(f) && Owed(f)
  {
    var sold := Filter(frame, Sold);
    var sorted := DueOrder(sold);
    FilterMembers(frame, Sold);
    FilterMembers(sorted, Owed);
    assert forall f :: f in sorted <==> f in sold by {
      forall f ensures f in sorted <==> f in sold {
        assert f in sorted <==> f in multiset(sorted);
      }
    }
    Filter(sorted, Owed)
  }

  function AlertKeys(lines: seq<AlertLine>): (ks: seq<AlertKey>)
    ensures forall k :: k in ks ==> CountWhere(lines, LineKey, k) > 0
  {
    var ks := SortedDistinct(Map(lines, LineKey), AlertKeyLess);
    assert forall k :: k in ks ==> CountWhere(lines, LineKey, k) > 0 by {
      forall k | k in ks ensures CountWhere(lines, LineKey, k) > 0 {
        var j :| 0 <= j < |lines| && Map(lines, LineKey)[j] == k;
      }
    }
    ks
  }

  /** ibiomed.py:218-233 as written: the final `groupby(...).mean()` lists
      its groups in key order, so the table ends up ordered by issue date
      text, not by amount due. */
  function GroupedAlerts(frame: seq<Fact>, now: Instant): (r: seq<Alert>)
    ensures forall i, j :: 0 <= i < j < |r| ==> AlertKeyLess(r[i].key, r[j].key)
  {
    var lines := AlertLines(OwedRows(frame), now);
    assert StrictlySorted(AlertKeys(lines), AlertKeyLess) by {
      AlertKeyLessOrder();
      SortedDistinctSorted(Map(lines, LineKey), AlertKeyLess);
    }
    AlertsFor(lines, AlertKeys(lines))
  }

  /** The order the sort before the grouping asks for: larger amounts
      first, then older issue dates (their texts sort like the dates). */
  predicate AlertFirst(a: Alert, b: Alert) {
    a.due > b.due || (a.due == b.due && (a.key.issued == b.key.issued || StrLess(a.key.issued, b.key.issued)))
  }

  lemma AlertFirstPreorder()
    ensures TotalPreorder(AlertFirst)
  {
    StrLessFacts();
  }

  /** The table in the order the code sorts for: the grouped rows sorted
      by amount due, largest first. */
  function CorrectedAlerts(frame: seq<Fact>, now: Instant): (r: seq<Alert>)
    ensures multiset(r) == multiset(GroupedAlerts(frame, now))
  {
    SortBy(GroupedAlerts(frame, now), AlertFirst)
  }

  /** The corrected table is ordered by amount due, largest first. */
  lemma CorrectedAlertsOrder(frame: seq<Fact>, now: Instant)
    ensures var r := CorrectedAlerts(frame, now);
      forall i, j :: 0 <= i < j < |r| ==> r[i].due >= r[j].due
  {
    AlertFirstPreorder();
    SortBySorted(GroupedAlerts(frame, now), AlertFirst);
  }

  /** Every projected row is owed. */
  lemma OwedLines(frame: seq<Fact>, now: Instant)
    ensures forall l :: l in AlertLines(OwedRows(frame), now) ==> l.due > 0.0
  {
    var rows := OwedRows(frame);
    var lines := AlertLines(rows, now);
    forall l | l in lines ensures l.due > 0.0 {
      var i :| 0 <= i < |lines| && lines[i] == l;
      assert rows[i] in rows;
    }
  }

  /** Every alert is a group of sold, owed facts: its mean amount due is
      positive. */
  lemma AlertsOwed(frame: seq<Fact>, now: Instant)
    ensures forall a :: a in CorrectedAlerts(frame, now) ==> a.due > 0.0
  {
    var lines := AlertLines(OwedRows(frame), now);
    var g := GroupedAlerts(frame, now);
    OwedLines(frame, now);
    forall a | a in CorrectedAlerts(frame, now) ensures a.due > 0.0 {
      assert a in multiset(g);
      var i :| 0 <= i < |g| && g[i] == a;
      MeanWherePositive(lines, LineKey, a.key, LineDue);
    }
  }

  /** ibiomed.py:218-233 step by step: keep the sold facts, sort, keep the
      owed ones, compute the days column row by row, group, and order the
      groups by amount due. `now` stands for `pd.Timestamp.today()`. */
  method AlertTable(frame: seq<Fact>, now: Instant) returns (table: seq<Alert>)
    ensures table == CorrectedAlerts(frame, now)
    ensures forall i, j :: 0 <= i < j < |table| ==> table[i].due >= table[j].due
    ensures forall a :: a in table ==> a.due > 0.0
  {
    var rows := Filter(frame, Sold);
    rows := DueOrder(rows);
    rows := Filter(rows, Owed);
    assert rows == OwedRows(frame);
    var lines := ProjectLines(rows, now);
    var grouped := AlertsFor(lines, AlertKeys(lines));
    table := SortBy(grouped, AlertFirst);
    CorrectedAlertsOrder(frame, now);
    AlertsOwed(frame, now);
  }

  /** The `days` column and the projection, computed row by row. */
  method ProjectLines(rows: seq<Fact>, now: Instant) returns (lines: seq<AlertLine>)
    ensures lines == AlertLines(rows, now)
  {
    lines := [];
    for i := 0 to |rows|
      invariant |lines| == i
      invariant forall j :: 0 <= j < i ==> lines[j] == AlertLineOf(rows[j], now)
    {
      lines := lines + [AlertLineOf(rows[i], now)];
    }
  }

  // ---------------------------------------------------------------------
  // The order the grouping loses

  /** Two sold, owed facts, the older one owing less (say one issued on
      2024-01-01 owing 10 and one issued on 2024-02-01 owing 100). As
      written the table lists the older, smaller one first; sorted by
      amount due the larger one comes first. */
  lemma AlertsOrderLost(a: Fact, b: Fact, now: Instant)
    requires Sold(a) && Owed(a) && Sold(b) && Owed(b)
    requires DateLess(a.key.issuedAt, b.key.issuedAt) && a.due < b.due
    ensures GroupedAlerts([a, b], now) == [Alert(AlertLineOf(a, now).key, a.due), Alert(AlertLineOf(b, now).key, b.due)]
    ensures CorrectedAlerts([a, b], now) == [Alert(AlertLineOf(b, now).key, b.due), Alert(AlertLineOf(a, now).key, a.due)]
  {
    var la, lb := AlertLineOf(a, now), AlertLineOf(b, now);
    GroupedTwo(a, b, now);
    SortByTwoSwapped(Alert(la.key, la.due), Alert(lb.key, lb.due), AlertFirst);
  }

  /** Two owed sales, the older owing less: the grouping lists the older
      one first. */
  lemma GroupedTwo(a: Fact, b: Fact, now: Instant)
    requires Sold(a) && Owed(a) && Sold(b) && Owed(b)
    requires DateLess(a.key.issuedAt, b.key.issuedAt) && a.due < b.due
    ensures GroupedAlerts([a, b], now) == [Alert(AlertLineOf(a, now).key, a.due), Alert(AlertLineOf(b, now).key, b.due)]
  {
    var la, lb := AlertLineOf(a, now), AlertLineOf(b, now);
    OwedTwoSwapped(a, b);
    AlertLinesTwo(b, a, now);
    DateLabelOrder(a.key.issuedAt, b.key.issuedAt);
    GroupTwo(la, lb);
  }

  lemma AlertLinesTwo(x: Fact, y: Fact, now: Instant)
    ensures AlertLines([x, y], now) == [AlertLineOf(x, now), AlertLineOf(y, now)]
  {
    assert [x, y][1..] == [y];
  }

  /** Two owed sales, the second owing more: the owed rows list it first. */
  lemma OwedTwoSwapped(a: Fact, b: Fact)
    requires Sold(a) && Owed(a) && Sold(b) && Owed(b) && a.due < b.due
    ensures OwedRows([a, b]) == [b, a]
  {
    FilterTwoKept(a, b, Sold);
    SortByTwoSwapped(a, b, DueFirst);
    FilterTwoKept(b, a, Owed);
  }

  /** Two rows of different groups, the first one's key the larger: the
      grouping puts the second one's group first. */
  lemma GroupTwo(la: AlertLine, lb: AlertLine)
    requires AlertKeyLess(la.key, lb.key)
    ensures AlertsFor([lb, la], AlertKeys([lb, la])) == [Alert(la.key, la.due), Alert(lb.key, lb.due)]
  {
    var lines := [lb, la];
    AlertKeyLessOrder();
    assert Map(lines, LineKey) == [lb.key, la.key];
    SortedDistinctTwoSwapped(lb.key, la.key, AlertKeyLess);
    assert AlertKeys(lines) == [la.key, lb.key];
    MeanWhereConstant(lines, LineKey, la.key, LineDue, la.due);
    MeanWhereConstant(lines, LineKey, lb.key, LineDue, lb.due);
  }
}
