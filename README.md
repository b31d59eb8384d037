# Sales dashboard reconciliation and aggregation, in Dafny

This project models the data pipeline of a sales dashboard for a medical
supplies distributor. The model covers the overview pages `app.py` and
`ibiomed.py` and the three pages `pages/1_Clientes.py`,
`pages/2_Productos.py` and `pages/3_Equipo_de_ventas.py`. Every page loads
the same `/sales/details` feed of invoice lines. It then reconciles credit
notes, groups and ranks, and shows figures. The model states those steps on
values and proves what they guarantee. The steps are:

- **Credit-note reconciliation** (`reconcile.dfy`). `app.py` keeps
  uncredited lines as issued. `ibiomed.py` and the sales-team page keep
  every line. Both add one reversal per credited line: it is dated on the
  credit note, its `total` and `item_sales` are negated and nothing is due.
  Both then group by the six key columns. `app.py` averages `item_sales`
  per group; the other two sum it.
- **Recomputed line sales of `app.py`** (`discount.dfy`). The invoice's
  extra discount is spread over its lines in proportion to their unit
  prices.
- **Overview header and monthly series** (`overview.dfy`, `monthly.dfy`):
  - the period window and the period's totals;
  - the "without samples" total;
  - the regression trend, with the slope taken as a parameter;
  - the gap-filled monthly series with month-over-month growth;
  - the average monthly growth.
- **Rankings** (`rankings.dfy`). Sellers are ranked by summed amount, with
  percentage shares. The top ten items are listed. `app.py` sums the
  invoice `total` here, which counts an invoice once per item (see
  Findings); the corrected rankings sum `item_sales`.
- **Amounts owed** (`due.dfy`). `app.py` lists the ten largest amounts due.
  `ibiomed.py` groups the owed invoices into an alert table that marks
  invoices older than 90 days.
- **Customers page** (`customers.dfy`):
  - one row per customer, with total sales, purchase days and days since
    the last purchase;
  - the six recency/frequency segments;
  - sales and customer count per segment;
  - the detail-table filters.
- **Products page** (`products.dfy`):
  - the sample customer is excluded;
  - the category × month grid, filled with zeros;
  - the cumulative chart with its per-month tooltip;
  - the filters and the three metric cards;
  - the per-product summary.
- **Sales-team page** (`sales_team.dfy`):
  - seller names upper-cased, and the default and chosen sellers;
  - year-to-date sales and year-over-year growth;
  - the last-30-days figure and its daily chart;
  - the month's running total;
  - the month-over-month change.

The shared modules hold the vocabulary:
- `common.dfy`: float outcomes (`Ext`: finite, ±inf, NaN) and `Option`;
- `calendar.dfy`: civil dates, day numbers, months and "now" as an instant;
- `records.dfy`: feed lines, group keys and facts;
- `seqs.dfy`: sums, filters and group sums over sequences;
- `ordering.dfy`: the key order of `groupby` and the stable
  `sort_values`;
- `strings.dfy`: text order, upper-casing and number formatting.

Money is an exact `real`. The page's wall clock ("now") is a parameter.

## Model

| member | source | states |
|---|---|---|
| Calendar.ElapsedDays | pages/1_Clientes.py:37 | `(now - date).days` is the difference of day numbers, whatever the time of day of `now` |
| Calendar.MonthLabel | ibiomed.py:143 | the month text has the `YYYY-MM` shape |
| Calendar.MonthLabelOrder | pages/2_Productos.py:41 | `YYYY-MM` labels sort as text exactly as their months sort, and equal labels mean equal months |
| Calendar.DateLabelOrder | ibiomed.py:226 | `YYYY-MM-DD` labels sort as text in calendar order and identify their date |
| Calendar.YearBefore | pages/3_Equipo_de_ventas.py:81-82 | one year back keeps month and day; 29 February becomes 28 February |
| Calendar.PreviousMonthStart | pages/3_Equipo_de_ventas.py:171 | the first day of the month before `d` |
| Calendar.FirstOfMonth | pages/3_Equipo_de_ventas.py:152 | the first day of `d`'s month |
| Common.Div | ibiomed.py:113 | float division: a quotient for a non-zero divisor, else +inf, -inf or NaN by the sign of the dividend |
| Common.Percent | app.py:148 | `a / b * 100` is finite exactly when `b` is not 0 |
| Common.FillNaN | app.py:149 | `fillna` replaces NaN only; infinities stay |
| Common.MeanSkipNaN | ibiomed.py:115 | `mean()` skips NaN, is NaN when nothing is left, and is the average of the finite entries when there are no infinities |
| Discount.FirstOf | app.py:41 | the group's first line (`.iloc[0]`) is the earliest line of the same invoice |
| Discount.WithDiscountedSales | app.py:39-45 | the frame keeps its length, and each line is the input line with only `item_sales` replaced by its recomputed sales |
| Discount.ApplyDiscounts | app.py:39-45 | rewriting the `item_sales` column in place gives the recomputed frame |
| Discount.DiscountedSales | app.py:41-45 | a line's new sales are its undiscounted amount times `1 - extra_discount / subtotal` of its invoice's first line, whose subtotal is not 0 |
| Discount.PriceScaling | app.py:40-45 | spreading the discount over unit prices scales `price * quantity` by `1 - d/s` |
| Discount.DiscountExample | app.py:39-45 | prices 100 and 300 with subtotal 400 and discount 40 give line sales 90 and 270 |
| Reconcile.OriginalRows | app.py:49 | the exclusive variant keeps exactly the uncredited lines; the inclusive one (ibiomed.py:42) keeps all |
| Reconcile.Reversal | app.py:57-62 | a reversal is dated on the credit note, negates `total` and `item_sales`, owes 0, and keeps the other key columns |
| Reconcile.ReversalRows | app.py:55-62 | one reversal per credited line |
| Reconcile.GroupFact | app.py:63-64 | a group's fact has the mean `total`, the mean `due` and the mean (app.py) or sum (ibiomed.py:57) of `item_sales` |
| Reconcile.GroupRows | app.py:50-51 | one fact per distinct group key |
| Reconcile.GroupRowsSorted | app.py:50 | the grouped facts are in ascending key order, each key once |
| Reconcile.GroupRowsKeys | app.py:50-51 | every line's key has a fact, and every fact's key comes from a line |
| Reconcile.Reconcile | app.py:48-68 | the frame is the grouped originals followed by the grouped reversals |
| Reconcile.Partition | app.py:49-56 | in app.py every line is either kept as issued or reversed, never both; in ibiomed.py every line is kept |
| Reconcile.ReversalRowsFacts | app.py:55-62 | every reversal row comes from a credited line, dated on its credit note, negated, with nothing due |
| Reconcile.ReversalFactsNothingDue | app.py:61-64 | every reversal fact owes 0 |
| Reconcile.ReversalTotals | app.py:59-64 | a reversal fact's total is minus the mean total of its credited lines |
| Reconcile.ConstantMean | app.py:51 | when a group's lines share `total` and `due`, the means are those values |
| Reconcile.GroupRowsSum | ibiomed.py:43-44 | summing `item_sales` per group keeps the column total |
| Reconcile.InclusiveNetSales | ibiomed.py:41-61 | in ibiomed.py's frame a credited line and its reversal cancel: net sales are the uncredited lines' sales |
| Overview.AppFacts | app.py:39-68 | the frame starts with the sales facts, each keyed like an uncredited line and one for every uncredited line's key; every later fact owes 0 and is dated on a credited line's credit note |
| Overview.IbiomedFacts | ibiomed.py:41-61 | the reconciled frame's `item_sales` add up to the sales of the uncredited lines |
| Overview.Window | ibiomed.py:88-91 | the window keeps exactly the facts issued from start to end, both days included |
| Overview.WindowAppend | app.py:84-87 | filtering a concatenation filters each part, in order |
| Overview.WindowAll | app.py:84-87 | a period covering every issue date keeps the whole frame |
| Overview.WindowIdempotent | app.py:84-87 | filtering twice by the same period changes nothing |
| Overview.EmptyWindow | app.py:84-87 | an end before the start selects nothing |
| Overview.SalesWithoutSamples | ibiomed.py:95-96 | the total without samples is the total less the sample customer's sales |
| Overview.NumericSampleNotExcluded | ibiomed.py:96 | the sample filter compares with text, so every fact whose NIT is number-typed is kept |
| Overview.IbiomedHeader | ibiomed.py:83-115 | nothing until two dates are picked; then total, total without samples, amount due and average growth of the window |
| Overview.TrendPercent | app.py:120 | the trend is 0 with a zero first month, else the value whose product with the first month is `slope * 100` |
| Overview.TrendPercentCases | app.py:120-121 | the trend has the slope's sign when the first month is positive, and the opposite sign when it is negative |
| Overview.FirstMonthSales | app.py:101-119 | `iloc[0]` of the monthly totals is the earliest month's sales |
| Overview.AppHeaderFigures | app.py:76-121 | nothing while fewer than two dates are picked or the window is empty; otherwise the window's total, amount due and trend on its first month |
| Monthly.ObservedTotals | ibiomed.py:125-131 | one row per month with facts, ascending, holding that month's summed sales |
| Monthly.MonthPosition | app.py:143 | the first row of the month, or none when the month has no row |
| Monthly.LookupObserved | app.py:143 | reindexing the observed totals finds each month's total, 0 when absent |
| Monthly.Growth | app.py:148-149 | `pct_change() * 100` then `fillna(0)`: relative change in percent, 0 for 0→0, ±inf from 0 |
| Monthly.MonthRange | app.py:138-142 | the first and last month bound every fact's month and are attained |
| Monthly.FilledSeries | app.py:138-149 | one bucket per month from first to last, with the month's total, first growth 0, then the change over the previous bucket |
| Monthly.MonthlySeries | app.py:138-142 | the series runs from the earliest to the latest month of the window |
| Monthly.ObservedEnds | ibiomed.py:136-140 | the observed rows start at the first month and end at the last |
| Monthly.GapFilled | ibiomed.py:141-147 | one bucket per month of the range |
| Monthly.GapFilledObserved | ibiomed.py:141 | filling the observed totals' gaps gives the series of the window |
| Monthly.MonthlySalesTable | ibiomed.py:125-147 | computed step by step, the table is the gap-filled series; none for an empty window |
| Monthly.FillMonths | ibiomed.py:141-147 | the reindex-and-growth loop produces the gap-filled buckets |
| Monthly.SeriesCoversFacts | ibiomed.py:136-141 | every fact's month has a bucket |
| Monthly.GapMonthZero | ibiomed.py:141 | a month without facts reads 0 |
| Monthly.FilledSum | app.py:143 | the buckets of a range add up to the sales of their months |
| Monthly.SeriesSum | ibiomed.py:141 | gap filling adds only zeros: the buckets add up to the window's sales |
| Monthly.ObservedGrowths | ibiomed.py:109-114 | the first growth is NaN; each later one is the percent change over the previous observed month |
| Monthly.AverageGrowth | ibiomed.py:109-115 | with fewer than two observed months the average growth is NaN |
| Monthly.AverageGrowthFinite | ibiomed.py:109-115 | when no month sums to 0, the average growth is the mean of the n-1 finite changes |
| Monthly.MeanGrowthFinite | ibiomed.py:115 | the same, stated on the grouped rows |
| Rankings.AmountAtLeastPreorder | app.py:181 | "larger amount first" is a total preorder |
| Rankings.Ranking | app.py:176-182 | the ranking holds the grouped rows, rearranged |
| Rankings.RankingSorted | app.py:181 | the ranking descends by amount |
| Rankings.RankingRows | ibiomed.py:174-180 | each row holds its name's summed amount, and the name occurs in the frame |
| Rankings.RankingComplete | app.py:179 | every name of the frame has a row |
| Rankings.RankingNamesDistinct | app.py:179 | no name has two rows |
| Rankings.RankingSum | ibiomed.py:174-180 | the ranking adds up to the frame's total |
| Rankings.Shares | app.py:183 | one share per shown row |
| Rankings.SharesTotal | app.py:183 | when the shown rows do not sum to 0, their shares add up to 100 % |
| Rankings.SharesUndefined | app.py:183 | when they sum to 0, no share is a number |
| Rankings.Top | app.py:199 | at most ten rows |
| Rankings.TopIsBest | app.py:194-200 | the shown rows are the ranking's prefix, and no row left out sold more than a shown one |
| Rankings.AppSellerRanking | app.py:175-183 | as written: sellers by summed `total`; the ranking adds up to the frame's `total` column |
| Rankings.AppTopItems | app.py:194-199 | as written: the first ten rows of the item ranking by `total`, or all when fewer |
| Rankings.SellerRanking | ibiomed.py:174-181 | sellers ranked by summed `item_sales`; the ranking adds up to the period's overall total (app.py:176-183 corrected) |
| Rankings.TopItems | ibiomed.py:197-204 | the first ten rows of the item ranking by `item_sales`, or all when fewer (app.py:194-201 corrected) |
| Rankings.AppRankingCountsTotalTwice | app.py:176-183 | as written, a seller's invoice with two items is ranked at twice its `total`; corrected, at the two lines' sales |
| Due.DueFirstPreorder | app.py:214 | "larger due, then older" is a total preorder |
| Due.DueRowOf | app.py:216-218 | the projection keeps date (as `YYYY-MM-DD`), invoice, seller, payee and due |
| Due.DueOrder | app.py:214 | the sorted frame holds the same facts |
| Due.HighestDueFacts | app.py:215 | ten rows, or all when fewer |
| Due.HighestDue | app.py:212-218 | the table is the projection of the shown facts |
| Due.HighestDueOrder | app.py:212-216 | the shown facts are the sorted prefix, ordered, and none left out owes more |
| Due.DaysLabel | ibiomed.py:229-231 | the days column starts with the number, and has the alert sign exactly past 90 days |
| Due.AlertLineOf | ibiomed.py:223-231 | a fact's alert row: date label, days label, invoice, seller, payee, due |
| Due.AlertLines | ibiomed.py:223-231 | the projection row by row |
| Due.AlertKeyLessOrder | ibiomed.py:233 | the five-column group order is a strict total order |
| Due.AlertsFor | ibiomed.py:233 | each group's row holds the mean amount due |
| Due.OwedRows | ibiomed.py:220-222 | exactly the sold facts that are owed |
| Due.AlertKeys | ibiomed.py:233 | every group key names a non-empty group |
| Due.GroupedAlerts | ibiomed.py:233 | as written, the alert table is in ascending key (issue date first) order |
| Due.AlertFirstPreorder | ibiomed.py:221 | "larger due first" is a total preorder |
| Due.CorrectedAlerts | ibiomed.py:221-233 | the corrected table holds the same alert rows |
| Due.CorrectedAlertsOrder | ibiomed.py:221 | the corrected table descends by amount due |
| Due.OwedLines | ibiomed.py:220-222 | every projected row owes a positive amount |
| Due.AlertsOwed | ibiomed.py:220-233 | every alert owes a positive mean amount |
| Due.AlertTable | ibiomed.py:219-233 | computed step by step: the corrected table, descending by due, all owed |
| Due.ProjectLines | ibiomed.py:223-231 | the loop computes the row-by-row projection |
| Due.AlertsOrderLost | ibiomed.py:221-233 | with an older smaller debt and a newer larger one, as written the smaller comes first; corrected, the larger does |
| Due.GroupTwo | ibiomed.py:233 | two rows of different groups come out in key order |
| SalesTeam.UpperSeller | pages/3_Equipo_de_ventas.py:59 | only the seller name changes, to upper case |
| SalesTeam.TeamFacts | pages/3_Equipo_de_ventas.py:36-59 | one row per reconciled fact |
| SalesTeam.UpperKeepsSales | pages/3_Equipo_de_ventas.py:59 | upper-casing keeps the sales total |
| SalesTeam.TeamNetSales | pages/3_Equipo_de_ventas.py:36-59 | the page's frame adds up to the uncredited lines' sales |
| SalesTeam.SellerNames | pages/3_Equipo_de_ventas.py:60 | each seller of the frame once, and nothing else |
| SalesTeam.SellerNamesMembers | pages/3_Equipo_de_ventas.py:60 | the unique names are exactly the frame's sellers |
| SalesTeam.KeepListed | pages/3_Equipo_de_ventas.py:65 | the candidates that occur among the names |
| SalesTeam.DefaultSelection | pages/3_Equipo_de_ventas.py:61-66 | the default holds exactly the three named sellers that sell in the frame |
| SalesTeam.ForSellers | pages/3_Equipo_de_ventas.py:67 | exactly the facts of the selected sellers |
| SalesTeam.Span | pages/3_Equipo_de_ventas.py:75-78 | exactly the facts issued inside the span |
| SalesTeam.SellerSpan | pages/3_Equipo_de_ventas.py:116-120 | exactly the seller's facts issued inside the span |
| SalesTeam.YearEarlier | pages/3_Equipo_de_ventas.py:82 | a year before `now`, same time of day |
| SalesTeam.SpanToNow | pages/3_Equipo_de_ventas.py:76-77 | a span from a midnight to `now` holds the dates from that day to today |
| SalesTeam.YtdSpanDates | pages/3_Equipo_de_ventas.py:72-78 | the YTD span holds this year's dates up to today |
| SalesTeam.PreviousYtdSpanDates | pages/3_Equipo_de_ventas.py:81-86 | the comparison span holds last year's dates up to today's date a year back |
| SalesTeam.MonthSpanDates | pages/3_Equipo_de_ventas.py:152-157 | the month span holds this month's dates up to today |
| SalesTeam.PreviousMonthSpanDates | pages/3_Equipo_de_ventas.py:171-177 | the previous-month span holds exactly last month's dates |
| SalesTeam.ChangePercent | pages/3_Equipo_de_ventas.py:183-185 | 0 without a base; else the value whose product with the base is the change times 100 |
| SalesTeam.ChangePercentCases | pages/3_Equipo_de_ventas.py:183-185 | over a positive base, the change is positive exactly when sales grew and 0 exactly when they stayed level |
| SalesTeam.YearRows | pages/3_Equipo_de_ventas.py:89-93 | one row per selected seller, in selection order, with YTD sales and YoY change |
| SalesTeam.YearRowWithoutSales | pages/3_Equipo_de_ventas.py:89-93 | a seller without YTD sales shows 0, and 0 % when last year was empty too |
| SalesTeam.YearRowsSum | pages/3_Equipo_de_ventas.py:89 | the YTD column adds up to the selected sellers' YTD sales |
| SalesTeam.YearRowsCoverSelection | pages/3_Equipo_de_ventas.py:67-89 | with distinct selected sellers, the YTD column adds up to the whole YTD span of the filtered frame |
| SalesTeam.NameFirstPreorder | pages/3_Equipo_de_ventas.py:99 | name order is a total preorder |
| SalesTeam.CardRows | pages/3_Equipo_de_ventas.py:95-99 | the cards hold the year rows, rearranged |
| SalesTeam.CardRowsOrder | pages/3_Equipo_de_ventas.py:99 | the cards run in name order |
| SalesTeam.DayTotals | pages/3_Equipo_de_ventas.py:131-136 | each chart day reads that day's summed sales |
| SalesTeam.DailySeries | pages/3_Equipo_de_ventas.py:135-136 | 31 bars, from 30 days before today to today |
| SalesTeam.DailySeriesGaps | pages/3_Equipo_de_ventas.py:136 | a day without sales reads 0 |
| SalesTeam.DailySeriesSum | pages/3_Equipo_de_ventas.py:131-137 | facts of the chart days add up to the bars |
| SalesTeam.SpanDaySales | pages/3_Equipo_de_ventas.py:116-131 | a seller's span read on one day: the seller's sales that day when its midnight is inside the span, else 0 |
| SalesTeam.Running | pages/3_Equipo_de_ventas.py:163 | `cumsum`: each point adds its day's sales to the previous point |
| SalesTeam.RunningLast | pages/3_Equipo_de_ventas.py:163 | the running total ends at the total |
| SalesTeam.MonthCumulative | pages/3_Equipo_de_ventas.py:160-165 | one point per day with sales |
| SalesTeam.MonthCumulativeEnds | pages/3_Equipo_de_ventas.py:160-168 | the points ascend by day and end at the month's sales |
| SalesTeam.CardOf | pages/3_Equipo_de_ventas.py:103-185 | a card carries its row's seller, YTD and YoY (pages/3_Equipo_de_ventas.py:114-117 corrected) |
| SalesTeam.CardLast30 | pages/3_Equipo_de_ventas.py:114-137 | the last-30-days figure is the sum of the bars, and each bar is the seller's sales of its day (pages/3_Equipo_de_ventas.py:114-117 corrected) |
| SalesTeam.CardMonth | pages/3_Equipo_de_ventas.py:151-185 | the running line ends at the month's sales, and MoM is their change over last month |
| SalesTeam.SellerCards | pages/3_Equipo_de_ventas.py:102-185 | one card per selected seller in name order, each consistent with its charts (pages/3_Equipo_de_ventas.py:114-117 corrected) |
| SalesTeam.BuildCards | pages/3_Equipo_de_ventas.py:102-185 | the loop over the year rows builds one card per row, in order |
| SalesTeam.Last30FirstDayDropped | pages/3_Equipo_de_ventas.py:115-117 | as written, after midnight the chart's first day always reads 0 |
| SalesTeam.Last30FirstDayExample | pages/3_Equipo_de_ventas.py:115-135 | one sale on the first chart day: 0 as written, the sale with the corrected start |
| Products.ProductLines | pages/2_Productos.py:37 | exactly the lines whose NIT is not the number 105272981 |
| Products.TextSampleKept | pages/2_Productos.py:37 | a text-typed sample NIT is not excluded |
| Products.LineMonth | pages/2_Productos.py:41 | the month label has the `YYYY-MM` shape |
| Products.LineMonthOrder | pages/2_Productos.py:41-56 | month labels sort as their months do |
| Products.GridRow | pages/2_Productos.py:44-53 | one cell per month for a category, each holding that pair's sales |
| Products.GridRowMembers | pages/2_Productos.py:44-53 | a category's cells are exactly its months with their sales |
| Products.GridOf | pages/2_Productos.py:44-53 | every cell pairs a listed category and month and holds that pair's sales |
| Products.GridOfLength | pages/2_Productos.py:44-47 | categories × months cells |
| Products.GridOfHas | pages/2_Productos.py:44-53 | every pair of a category and a month has its cell |
| Products.GridOnce | pages/2_Productos.py:44-47 | no pair has two cells |
| Products.Grid | pages/2_Productos.py:44-53 | the grid has categories × months cells, each pair once |
| Products.GridCoversLines | pages/2_Productos.py:50-53 | every line's pair has a cell holding its sales |
| Products.GridUnsoldZero | pages/2_Productos.py:53 | an unsold pair reads 0 |
| Products.CellFirstPreorder | pages/2_Productos.py:56 | category-then-month order is a total preorder |
| Products.Cumulative | pages/2_Productos.py:59 | the running totals keep each cell's category and month |
| Products.CumulativeStep | pages/2_Productos.py:59 | within a category each total adds the cell to the previous total; a new category restarts |
| Products.CumulativeLast | pages/2_Productos.py:59 | a category's last total is its summed sales |
| Products.GridCategorySum | pages/2_Productos.py:50-53 | a category's cells add up to its lines' sales |
| Products.Attach | pages/2_Productos.py:62 | `month_sales` is attached row by row, by position |
| Products.ChartAsWritten | pages/2_Productos.py:56-62 | one chart row per cell |
| Products.Chart | pages/2_Productos.py:56-62 | one chart row per cell |
| Products.ChartCells | pages/2_Productos.py:56-62 | each corrected row's category, month and month sales form a grid cell |
| Products.ChartSorted | pages/2_Productos.py:56 | the chart is in category-then-month order |
| Products.ChartRunning | pages/2_Productos.py:59 | running totals restart per category and end at each category's total |
| Products.ChartPoint | pages/2_Productos.py:59 | one row's running total, and a category's last row holds the category's total |
| Products.GridCellFacts | pages/2_Productos.py:50-53 | a cell holds its pair's sales and its category and month are listed |
| Products.ChartMonthSales | pages/2_Productos.py:62 | corrected, every row's month sales are that category's sales in that month |
| Products.ChartOrder | pages/2_Productos.py:56 | the page's chart is in category-then-month order |
| Products.ChartTotals | pages/2_Productos.py:59 | each category's line ends at its total sales |
| Products.MonthsListed | pages/2_Productos.py:45 | every line's month is among the listed months |
| Products.CategoryChart | pages/2_Productos.py:37-62 | the chart is ordered, accumulates per category, ends at each category's total, and shows each row's own month sales (pages/2_Productos.py:62 corrected) |
| Products.MonthSalesMisaligned | pages/2_Productos.py:62 | with months listed later-first, as written the first row shows the later month's sales |
| Products.LaterMonthFirst | pages/2_Productos.py:44-53 | two lines of one category, the later month first in the feed, give the grid with the later month first |
| Products.TwoLinesPairSales | pages/2_Productos.py:50 | each of two months of one category holds its own line's sales |
| Products.MonthSalesMisalignedLines | pages/2_Productos.py:37-62 | for such lines the first row's month sales are the later line's as written, the earlier line's corrected |
| Products.ByCategory | pages/2_Productos.py:117-118 | the category filter, skipped when nothing is chosen |
| Products.ByItem | pages/2_Productos.py:119-120 | the product filter, skipped when nothing is chosen |
| Products.Filtered | pages/2_Productos.py:116-123 | exactly the lines that pass all three filters, in order |
| Products.DefaultSelectionKeepsAll | pages/2_Productos.py:93-123 | with no choices and the full price range every line is kept |
| Products.DistinctProducts | pages/2_Productos.py:131 | the number of distinct product names |
| Products.AveragePrice | pages/2_Productos.py:137 | NaN exactly for no lines; else the mean unit price |
| Products.AveragePriceBounds | pages/2_Productos.py:137 | the mean lies inside the price range of the lines |
| Products.Invoices | pages/2_Productos.py:144 | each invoice has lines; none exactly when there are no lines |
| Products.UnitsPerInvoice | pages/2_Productos.py:141-145 | NaN exactly for no lines |
| Products.UnitsPerInvoiceBounds | pages/2_Productos.py:144 | the mean of invoice means lies inside the quantity range |
| Products.MostFrequentOf | pages/2_Productos.py:155 | a candidate no other candidate outnumbers |
| Products.MostFrequent | pages/2_Productos.py:155 | a value no other value outnumbers |
| Products.SalesTo | pages/2_Productos.py:163-166 | exactly the product's lines to that payee |
| Products.TopPayee | pages/2_Productos.py:155 | a payee of the product that no other payee outnumbers |
| Products.LastSaleTo | pages/2_Productos.py:162-168 | the latest date the product was sold to that payee |
| Products.SummaryOf | pages/2_Productos.py:153-168 | the product's summed sales, top payee and last sale to it |
| Products.ItemNames | pages/2_Productos.py:153 | each product name once, in text order |
| Products.Summaries | pages/2_Productos.py:153-168 | one summary per product name, in order |
| Products.SummaryCovers | pages/2_Productos.py:153-156 | every product has a summary, in strictly ascending name order |
| Products.SummaryRow | pages/2_Productos.py:153-168 | each summary's figures: sales, top payee, last sale to it |
| Customers.CustomerLessOrder | pages/1_Clientes.py:34 | the group order of (NIT, name) is a strict total order |
| Customers.CustomersOf | pages/1_Clientes.py:34 | each customer of the lines once, in group order |
| Customers.Frequency | pages/1_Clientes.py:36 | the number of distinct issue dates of the customer's lines |
| Customers.LastPurchase | pages/1_Clientes.py:37 | the latest issue date of the customer's lines |
| Customers.Recency | pages/1_Clientes.py:37 | the days since the last purchase: the fewest days since any purchase |
| Customers.StatsOf | pages/1_Clientes.py:34-38 | a customer's sales, purchase days and days since the last purchase |
| Customers.StatsRows | pages/1_Clientes.py:34-38 | one row per listed customer, in order, whose total is that customer's sales |
| Customers.StatsRowsSales | pages/1_Clientes.py:35 | the rows' sales add up to the listed customers' sales |
| Customers.Summary | pages/1_Clientes.py:34-38 | one row per customer, in group order |
| Customers.SummaryComplete | pages/1_Clientes.py:34-38 | every customer of the lines has a row |
| Customers.SummaryDistinct | pages/1_Clientes.py:34-38 | no customer has two rows |
| Customers.SummarySales | pages/1_Clientes.py:35 | the rows add up to the sales of all lines |
| Customers.SummaryRow | pages/1_Clientes.py:34-38 | each row's sales, number of purchase days and days since the last purchase |
| Customers.AverageFrequency | pages/1_Clientes.py:42 | NaN exactly when there are no customers |
| Customers.AverageTimesCount | pages/1_Clientes.py:42 | the average times the count is the sum of purchase days |
| Customers.SomeAtOrAboveAverage | pages/1_Clientes.py:42-46 | some customer buys at least as often as the average |
| Customers.Classify | pages/1_Clientes.py:44-55 | 'unknown' is never chosen; each label holds exactly for its recency band and frequency side |
| Customers.ClassifyBoundaries | pages/1_Clientes.py:40-50 | 180 days is recent, 181 and 365 are within the year, 366 is beyond it |
| Customers.ClassifyExample | pages/1_Clientes.py:44-55 | 200 days and 5 purchase days against an average of 10 is Curioso |
| Customers.Segmented | pages/1_Clientes.py:42-55 | each summary row gets a segment, never 'unknown' |
| Customers.SegmentedBands | pages/1_Clientes.py:44-55 | Nuevo/Leal exactly within 180 days; 1 Timer/Olvidado exactly beyond a year; Leal/Latente/Olvidado exactly at or above the average |
| Customers.SomeFrequentCustomer | pages/1_Clientes.py:44-55 | with any lines, some customer is Leal, Latente or Olvidado |
| Customers.TotalsFor | pages/1_Clientes.py:103-106 | each segment's card holds its summed sales and customer count |
| Customers.SalesAtLeastPreorder | pages/1_Clientes.py:109 | "larger sales first" is a total preorder |
| Customers.SegmentTotals | pages/1_Clientes.py:103-109 | the cards hold the per-segment totals, largest sales first |
| Customers.TotalsForSums | pages/1_Clientes.py:103-106 | the cards' sales and counts add up per segment |
| Customers.SegmentTotalsSum | pages/1_Clientes.py:103-109 | the cards' sales add up to all customers' sales, their counts to the number of customers |
| Customers.FilterTable | pages/1_Clientes.py:145-153 | the table keeps exactly the rows that pass each non-empty filter, in order |
| Customers.NitAsText | pages/1_Clientes.py:146-147 | `astype(str)` of a number-typed NIT is non-empty, starts with `-` exactly for a negative number, and is all digits otherwise |
| Customers.EmptyFiltersShowAll | pages/1_Clientes.py:145-153 | with the three filters empty every row is shown |

## Left out

- HTTP fetch, response caching, environment configuration and the password
  gate (SHA-256 of the typed password): I/O and hashing, not modelled.
- The linear regression of app.py:112-117: the slope is a parameter of
  `Overview.AppHeaderFigures`.
- The fitted trend line and scatter of pages/2_Productos.py:185-212, and
  every chart, colour map, caption and layout call: presentation only.
- Number formatting (`Q{:,.2f}`, `.round(1)`, `.round(2)`) and the
  `strftime('%B %Y')` month names: display text, not modelled.
- The wall clock (`pd.Timestamp.now()`/`today()`): "now" is a parameter.
- Floating point: money is an exact real, so rounding errors are not
  modelled. Divisions by zero are modelled (`Common.Ext`).
- `issued_at` and `creditnote_date` are taken to be dates at midnight. A
  feed time of day is not modelled.
- Calendar.ElapsedDays: dates are limited to the years 1678–2261, the range
  of a pandas timestamp.
- SalesTeam.YearRows: requires the current year to be after 1678 so that
  "a year earlier" is a date. The same holds for SalesTeam.YearEarlier,
  SalesTeam.CardRows, SalesTeam.CardOf and SalesTeam.SellerCards.
- Discount.WithDiscountedSales: requires a non-zero `subtotal` on the first
  line of every invoice. pandas would produce inf or NaN there.
- Discount.ApplyDiscounts: the same non-zero `subtotal` requirement.
- Products.MostFrequent: among equally frequent payees the model picks the
  first in order of appearance. pandas' `value_counts` tie order is not
  modelled, so the contract only promises a most frequent payee.
- Products.TopPayee: the same tie rule as Products.MostFrequent.
- Products.UnitsPerInvoice: the contract states only the NaN case. Its
  bounds are proved in Products.UnitsPerInvoiceBounds.
- Customers.FilterTable: `str.contains(..., case=False)` is modelled as a
  literal substring test with ASCII and Latin-1 case folding. Regular
  expressions and full Unicode case folding are not modelled.
- Rankings.Ranking: rows with equal amounts keep their group order, as a
  stable sort would. pandas' default sort is not stable.
- Monthly.MonthlySalesTable: an empty window gives no table. pandas would
  fail to build a date range there.
- Overview.AppHeaderFigures: an empty period gives no figures. app.py
  shows the period's total and amount due first (lines 94-98) and then
  fails in the regression fit (line 114) and in `.iloc[0]` (line 119);
  the figures shown before the failure are not modelled.
- Overview.AppHeaderFigures: while only one date is picked, app.py fails
  when it unpacks the picked dates (line 76). The model gives no figures
  there and does not model the error itself.
- SalesTeam.UpperSeller: `str.upper()` is modelled for ASCII and Latin-1
  letters only (`Strings.Upper`). Letters beyond U+00FF, such as `ő` or
  `ą`, keep their case, so two seller names that differ only in such a
  letter's case stay apart in the model. The same holds for the
  upper-cased seller names of Rankings.AppSellerRanking and
  Rankings.SellerRanking (app.py:178, ibiomed.py:176).
- Reconcile.GroupRows: `invoice_number` is taken to be text, and groups
  order by its text ("10" before "9"). If the feed sends numbers, pandas
  orders them numerically; that order is not modelled. The same holds for
  Reconcile.GroupRowsSorted and Due.GroupedAlerts.
- SalesTeam.SellerCards: with no seller selected the model returns no
  cards. The page fails there, since `st.columns(0)` raises
  (pages/3_Equipo_de_ventas.py:102). SalesTeam.BuildCards is affected
  the same way.
- Customers.SegmentTotals: with no customers the model returns no cards.
  The page fails there, since `st.columns(0)` raises
  (pages/1_Clientes.py:111).
- Reconcile.GroupRows: pandas' `groupby` drops rows with a null key
  column. The model's key columns are never null, so that case is not
  modelled. The same holds for every other grouping (Customers.Summary,
  Rankings.Ranking, Products.Grid, Due.GroupedAlerts).
- Rankings.Shares: the `.astype(str) + '%'` text of each share is not
  modelled.

## Findings

| source | as written | input that shows it | evidently intended | confidence | as-written member | corrected member |
|---|---|---|---|---|---|---|
| ibiomed.py:233 | the final `groupby(...)['due'].mean()` re-sorts the alert table by its key columns (issue date first), undoing the sort by amount due at line 221 | two owed, sold facts: one issued 2024-01-01 owing 10 and one issued 2024-02-01 owing 100; the table lists the 10 first | the table in descending order of amount due | not executed | Due.AlertsOrderLost | Due.CorrectedAlerts |
| pages/2_Productos.py:62 | `month_sales` is attached by position from the unsorted grid (categories and months in order of first appearance), while the rows were sorted by category and month at line 56 | two lines of one category, the first in the feed from 2024-03 and the second from 2024-01; the 2024-01 row shows the 2024-03 sales | each row shows the sales of its own category and month | not executed | Products.MonthSalesMisalignedLines | Products.CategoryChart |
| pages/3_Equipo_de_ventas.py:115-117 | the last-30-days filter starts exactly 30 days before `now`, time of day included, while the chart (line 135) shows the full day 30 days back | `now` at 10:00 and a sale issued 30 days earlier; the chart's first bar reads 0 and the card's figure leaves the sale out | the filter starts at midnight of the chart's first day, so the figure covers the 31 days the chart shows; the other reading, a 30-day figure with the chart starting at day −29, was considered and not chosen, since the chart's `date_range` (line 135) spans 31 days | not executed | SalesTeam.Last30FirstDayExample | SalesTeam.CardLast30 |
| app.py:176-201 | the seller and item rankings sum the invoice-level `total`, which every item fact of an invoice repeats, so an invoice counts once per item; ibiomed.py:174-204 sums `item_sales` in the same chains | one invoice of seller ANA with two items and a `total` of 100; ANA is ranked with 200 | each line counted once: rank by `item_sales`, so the ranking adds up to the overall total | not executed | Rankings.AppRankingCountsTotalTwice | Rankings.SellerRanking |
