# Cake sales dashboard: the data pipeline, verified in Dafny

This project models the data steps of a Streamlit sales dashboard (`app.py`).
The dashboard loads a CSV of cake orders and drops rows whose OrderDate does not parse.
It then restricts the orders to a date range picked in the sidebar and computes three metrics:
total sales, the number of distinct orders and the best-selling cake.
It also builds a daily sales trend, a top-10 bestseller list and a detail table sorted latest first.
Every step is a pure function over `seq<Record>`, stated with contracts and lemmas.

Modules, one per stage of the script:

- `Wrappers`: `Option` and `Result`.
- `Seqs`: the generic boolean-mask filter and a stable descending sort on an integer key.
- `Sales`: raw rows, records and the loader `load_data`.
- `DateFilter`: minimum and maximum date, the picker's default range and the range filter.
- `Kpi`: total sales, total orders, `value_counts` and the top cake.
- `Daily`: the per-date sales trend.
- `Charts`: the top-10 bestsellers and the detail table.
- `Dashboard`: one whole evaluation of the script, plus a worked example.

Representation choices:

- A parsed OrderDate is a timestamp: an `int` of seconds since the epoch. It may carry a time of day.
- A calendar day (`Day`) is an `int` counted from the epoch. `DayOf` rounds a timestamp down to its day, and `Midnight` goes back.
- Prices are integer cents. Order numbers are integers. Cake names are strings.
- The tolerant date parser is not modelled. Its outcome is the `Option<Timestamp>` in each `RawRow`.

Choices that follow the code:

- `idxmax` raises on an empty series, so `TopCake` and `Render` require a non-empty selection.
- With start > end the mask selects nothing, and both filters prove it.
- `groupby('OrderDate')` groups by the full timestamp, so `DailySales` is keyed by timestamp. This gives one entry per day when each day's orders share one timestamp, for example all at midnight.

## Model

| member | source | states |
|---|---|---|
| `Sales.Load` | app.py:10-11 | The output length is the row count minus the rows whose date did not parse. |
| `Sales.LoadOrigin` | app.py:10-11 | Every output record is the cleaned form of some row whose date parsed. Every row whose date parsed has its record in the output. |
| `Sales.LoadAppend` | app.py:11 | Loading distributes over concatenation, so the surviving rows keep their original order. |
| `Sales.LoadSingle` | app.py:10-11 | A single row loads to its own record when its date parsed, and to nothing otherwise. |
| `Sales.Malformed` | app.py:11 | The dropped-row count is at most the row count. It is 0 exactly when every date parsed. |
| `Sales.LoadData` | app.py:7-14 | An unreadable source yields the empty record set. A readable one yields as many records as rows with a parsed date. |
| `DateFilter.DayOf` | app.py:22 | The day of a timestamp is the one whose midnight is at or before it and whose next midnight is after it. |
| `DateFilter.DayOfMidnight` | app.py:22-24 | Converting a picked day to its midnight and back gives the same day. |
| `DateFilter.MinDate` | app.py:20 | The minimum is some record's date, and no record's date is smaller. |
| `DateFilter.MaxDate` | app.py:21 | The maximum is some record's date, and no record's date is larger. |
| `DateFilter.DefaultRange` | app.py:20-22 | The default range runs from the earliest order's day to the latest order's day. Both ends are attained, and every record's day lies between them. |
| `DateFilter.FilterAsWritten` | app.py:24 | The mask as written: a record is kept exactly when midnight of the start day <= its date <= midnight of the end day. With start > end nothing is kept. |
| `DateFilter.FilterAsWrittenKeepsOrder` | app.py:24 | The result of the mask as written is a subsequence of the input. |
| `DateFilter.AsWrittenKeepsAllIff` | app.py:20-24 | Under the default range, the mask as written keeps every record exactly when the latest order is stamped at midnight. |
| `DateFilter.AsWrittenDropsLastDay` | app.py:20-24 | Counterexample: one order at 01:00 on day 1 gets the default range [1, 1], and the mask as written keeps nothing. |
| `DateFilter.FilterByDay` | app.py:24 | A record is kept exactly when its day lies in [start, end], inclusive at both ends. Equivalently, midnight of start <= date < midnight after end. With start > end nothing is kept. |
| `DateFilter.FilterByDayKeepsOrder` | app.py:24 | The filtered records are a subsequence of the input, in their original order. |
| `DateFilter.DefaultRangeKeepsAll` | app.py:20-24 | Filtering by day with the default range returns every loaded record, unchanged. |
| `DateFilter.FiltersAgreeOnMidnights` | app.py:24 | When every order is stamped at midnight, the mask as written and the day-based filter give the same records. |
| `Seqs.FilterAppend` | app.py:24 | The boolean-mask filter distributes over concatenation. |
| `Kpi.TotalSales` | app.py:30 | Total sales is 0 for no records. It is non-negative when no price is negative. |
| `Kpi.TotalSalesAppend` | app.py:30 | The total of a concatenation is the sum of the two totals. |
| `Kpi.TotalOrders` | app.py:31 | Total orders is the number of distinct order numbers. It is at most the number of records, and 0 exactly for no records. |
| `Kpi.TotalOrdersOfSubset` | app.py:24-31 | A selection of the records never has more distinct orders than the whole set. |
| `Kpi.OrderNumbersAppend` | app.py:31 | The distinct orders of two record sets taken together are the union of their distinct orders. |
| `Kpi.OrderNumbersOfPermutation` | app.py:31 | Reordering the records keeps the same distinct orders, so `nunique` does not depend on row order. |
| `Kpi.Occurrences` | app.py:32 | A name's occurrence count is at most the record count. It is positive exactly when some record has that name. |
| `Kpi.Tally` | app.py:32 | The tally has one entry per distinct cake name and no name twice. Each entry's count is that name's number of occurrences. |
| `Kpi.ValueCounts` | app.py:32 | `value_counts` holds the same entries as the tally, with counts non-increasing along the list. |
| `Kpi.TopCake` | app.py:32 | On a non-empty selection, the top cake occurs in it. Every cake name occurs at most as often as the top cake. |
| `Daily.AddSale` | app.py:40 | Adding a sale keeps the trend strictly increasing by date. It adds the sale's date to the dates, adds its price to that date's total only, and adds its price to the sum of all entries. |
| `Daily.DailySales` | app.py:40 | The trend's dates are exactly the record dates, strictly increasing, so there is one entry per date. Each date's total is the sum of prices on that date. The entries sum to total sales. |
| `Daily.DailySalesEntries` | app.py:30-40 | Each trend entry's value is the sum of the prices of the records with its date. The entries sum to total sales. |
| `Charts.TopCakes` | app.py:46 | The bestseller list has min(10, number of names) entries with distinct names and exact counts. Counts are non-increasing. No unlisted name occurs more often than any listed one. |
| `Charts.PrefixOfRanking` | app.py:46 | Cutting a ranking after k entries keeps it a ranking. No name cut off outnumbers a kept one. |
| `Charts.TopCakesListsAllWhenFew` | app.py:46 | With at most ten cake names, every name appears in the list. |
| `Charts.TopCakeHeadsChart` | app.py:32-46 | The top-cake metric is the first bar of the bestseller chart, and that bar's count is its occurrence count. |
| `Charts.DetailTable` | app.py:53 | The detail table is a permutation of the selected records, ordered by date non-increasing. |
| `Dashboard.Render` | app.py:30-53 | For any non-empty selection, from either filter: total sales equals the sum of the trend, and the trend's dates are the selection's dates. Orders are between 1 and the number of detail rows, and the detail table has the same orders. The detail table is a permutation of the selection. The top cake is maximal and heads the bestseller list. |
| `Dashboard.DefaultViewCoversAll` | app.py:20-53 | Under the default range, the day-based selection is the whole loaded data set, and so are the metrics, trend and table. |
| `Dashboard.AsWrittenDefaultViewAtMidnight` | app.py:20-53 | When the latest order is stamped at midnight, the script as written shows the whole data set under the default range, the same view as the day-based filter. |
| `Dashboard.ThreeSalesTotals` | app.py:30-31 | Worked example: three sales of 10.00, 5.00 and 7.00 in three orders give total sales 22.00 and 3 orders. |
| `Dashboard.ThreeSalesTopCake` | app.py:32 | Worked example: "A" sold twice and "B" once, so the top cake is "A". |
| `Dashboard.ThreeSalesTrend` | app.py:40 | Worked example: the trend is 15.00 on the first day and 7.00 on the second. |

## Findings

| source | as written | input that shows it | evidently intended | confidence | as-written member | corrected member |
|---|---|---|---|---|---|---|
| app.py:20-24 | The picker shows days, so the latest order's timestamp becomes its day, and that day is compared as its midnight. `OrderDate <= end` then drops every order later than midnight on the end day, including under the default range. | One order stamped 01:00 on day 1: the default range is [day 1, day 1] and the filtered set is empty. In the running script, the top-cake metric then raises. | The end day is included in full, so the default range shows every loaded order. | medium, not executed; the data may carry dates without a time of day, and then the two agree (`FiltersAgreeOnMidnights`) | `DateFilter.AsWrittenDropsLastDay` | `DateFilter.DefaultRangeKeepsAll` |

`DateFilter.FilterAsWritten` is the mask as the code writes it. `DateFilter.FilterByDay` is the corrected filter. `Dashboard.Render` takes the selection of either one, and `Dashboard.DefaultViewCoversAll` states the dashboard with the corrected one.

## Left out

- Reading the CSV (`pd.read_csv`) and the tolerant date parser are I/O and library parsing. The parser's outcome is an input, the `Option` date of each `RawRow`. A read failure is the `Failure` case of `LoadData`.
- Missing values in the RetailPrice, FSOrderNumber and CakeName columns are not modelled. Those fields are always present here, so the skipping of missing values by `sum`, `nunique` and `value_counts` is not represented.
- The `@st.cache` memoisation of the loader is framework state with no effect on the values computed.
- Streamlit output is presentation and is not modelled: the sidebar, date picker widget, titles, metrics, the error banner and `st.dataframe`.
- The picker can return a single date while the user is still choosing. The unpacking then fails. This is widget behaviour and is not modelled.
- The Plotly charts and the column relabelling used only for the bar chart (app.py:47) are presentation.
- Floating-point prices and the currency formatting of total sales are not modelled. Prices are exact integer cents.
- Timestamps are whole seconds without time zones. Sub-second parts and time-zone-aware dates are not modelled.
- Where the script stops is captured only as the preconditions of `MinDate`, `MaxDate`, `DefaultRange`, `TopCake` and `Render`. After a read failure the empty frame has no OrderDate column, so the lookup at app.py:20 raises. When no date parsed, `min` and `max` give NaT, and the picker at app.py:22 cannot take it. An empty selection makes `idxmax` raise at app.py:32.
- Kpi.TopCake: among equally frequent names, pandas does not fix which one `idxmax` returns after the sort. The model returns the first one to appear in the records, and the contract promises only maximality.
- Charts.TopCakes: pandas does not fix the order of names with equal counts. The model keeps first appearance, and the contract promises only the order-independent properties.
- Charts.DetailTable: `sort_values` uses an unstable sort by default, so pandas does not fix the order of records with the same date. The model keeps input order, and the contract promises only a permutation ordered by date.
