# Expense tracker: filters, listing and monthly analytics

A Dafny model of the query and aggregation logic of a small expense tracker. It has an
Express/MongoDB server and a React client. The model covers two pieces.

- **Filter builder and facets.** The client keeps a filter state: a date range plus checked
  categories and payment modes. A checkbox toggles a value in or out of its list. The state is
  written into the listing URL as `dateRange=…&category=a,b&paymentMode=…&`. The server reads
  these parameters and builds a MongoDB-style predicate. The predicate has a `$in` clause per
  comma-separated list and a `$gte` lower date bound derived from the range and the current
  time. The matching records come back newest first.
- **Monthly category analytics.** The server runs a three-stage pipeline: group by
  (month, year, category) and sum `amount`; regroup by (month, year) and push the
  (category, total) pairs; sort by year, then month. The client turns each period into a chart
  row labelled `month/year`. Every offered category gets a key in that row, with 0 when the
  period has no total for it.

Modules, one per file:

| file | module | what it holds |
|---|---|---|
| `wrappers.dfy` | `Wrappers` | `Option` |
| `text.dfy` | `Text` | JavaScript `split`/`join` on one character, decimal numerals |
| `calendar.dfy` | `Calendar` | proleptic Gregorian dates, day numbers, the `setDate` and `new Date(y, m, 1)` arithmetic |
| `catalog.dfy` | `Catalog` | the client's category, payment-mode and date-range constants |
| `expenses.dfy` | `Expenses` | the expense record |
| `sorting.dfy` | `Sorting` | sorting by an integer key (for `.sort` and `$sort`) |
| `sums.dfy` | `Sums` | sums of a measure over a sequence (for `$sum` and the totals) |
| `url_query.dfy` | `UrlQuery` | `key=value&` encoding and the server-side parse of the query string |
| `expense_query.dfy` | `ExpenseQuery` | the listing route: parameters → predicate → matching records, newest first |
| `facets.dfy` | `Facets` | the client's filter state, the toggles, the listing URL, and the end-to-end lemmas |
| `analytics.dfy` | `Analytics` | the three pipeline stages and their properties |
| `chart.dfy` | `Chart` | the client's reshape into chart rows, as in-place loops and a reference function |
| `scenarios.dfy` | `Scenarios` | three concrete records through the listing and the chart |

The current time is a parameter (`now`), never a clock. Amounts are integers, for example
minor currency units, so every sum is exact. The server handler builds its predicate in place,
so `ExpenseQuery.BuildFilter` is a method that sets one field at a time. The client builds its
URL with successive `+=`, so `Facets.FetchExpensesUrl` is a method as well. The chart reshape
fills an object in two `forEach` loops: `Chart.CopyPairs` and `Chart.FillOfferedCategories`
are methods with loops. Each method is proved equal to a reference function: `FilterFor`,
`EncodeQuery(QueryParams(…))` and `RowOf`. The properties are proved about those functions.

Two places where the code does something other than its obvious reading, as modelled:

- The densification loop only adds keys. A category outside the offered list, if stored, is
  passed through to the row with its total (`Chart.RowContents`). So a row's keys are the
  offered categories plus the ones recorded in that period. They are not the offered list alone.
- Toggling an unchecked value twice restores the state (`Facets.ToggleTwiceRestoresUnchecked`).
  Toggling a checked value twice does not, in general. It keeps the same values but moves that
  value to the end of its list. The state comes back unchanged exactly when the value was
  already last (`Facets.ToggleTwiceMovesCheckedToEnd`).

## Model

| member | source | states |
|---|---|---|
| Text.Split | server/routes/expenses.js:25 | `split(',')` gives at least one piece and no piece contains the separator |
| Text.JoinSplit | server/routes/expenses.js:25 | joining the pieces of a split with the separator gives back the original string |
| Text.SplitJoin | client/src/App.jsx:86 | for a non-empty list of comma-free values, splitting their comma join gives back the same list |
| Text.JoinAvoids | client/src/App.jsx:86 | a character other than the separator that occurs in no value does not occur in the join |
| Text.NatToString | client/src/App.jsx:109 | a natural number is written in decimal digits, with a leading zero only for 0 itself |
| Text.ParseIntToString | client/src/App.jsx:109 | the decimal text of an integer reads back as that integer, so equal texts mean equal numbers |
| Calendar.DaysInMonth | server/routes/expenses.js:39-43 | months have 28 to 31 days, and February has 29 exactly in leap years |
| Calendar.PrevDay | server/routes/expenses.js:41 | stepping back one calendar day lowers the day number by one and keeps the time of day |
| Calendar.MinusDays | server/routes/expenses.js:41-43 | `setDate(getDate() - n)` goes back n calendar days, keeps the time of day, and moves the instant back n whole days |
| Calendar.StartOfMonth | server/routes/expenses.js:39 | `new Date(year, month, 1)`: same year and month, day 1, midnight, never later than the given date |
| Catalog.OfferedValuesArePlain | client/src/App.jsx:7-14 | every offered category, payment mode and range value is non-empty, free of ',' and '&', and listed once |
| Sorting.SortBy | server/routes/expenses.js:84 | the sorted sequence is a permutation of the input, ascending in the key, and strictly ascending when keys are distinct |
| Sorting.SortBySorted | server/routes/expenses.js:84 | sorting a sequence that is already in key order leaves it unchanged |
| Sums.SumByPermutation | server/routes/expenses.js:72-82 | a sum over a sequence does not depend on the order of its elements |
| UrlQuery.SplitAtFirst | server/routes/expenses.js:20 | a `key=value` piece splits at its first '=' and the two parts rebuild the piece |
| UrlQuery.Lookup | server/routes/expenses.js:20 | a parameter is found exactly when some piece has that key, and the value found belongs to such a piece |
| UrlQuery.LookupAppend | server/routes/expenses.js:20 | in a concatenation, the first parameter with a key comes from the first part if it has one |
| UrlQuery.ParseEncode | client/src/App.jsx:84-87 | parsing the `k=v&` encoding of well-formed parameters gives back the same parameters, in order |
| ExpenseQuery.RequestQuery | server/routes/expenses.js:20 | each of `category`, `paymentMode` and `dateRange` is present exactly when the query string carries that key |
| ExpenseQuery.InClause | server/routes/expenses.js:24-27 | there is an `$in` clause exactly when the parameter is truthy; its list is non-empty, comma-free and joins back to the parameter |
| ExpenseQuery.FromDate | server/routes/expenses.js:38-44 | this_month gives day 1 of now's month at midnight; last_30/90_days give now minus 30/90 calendar days at the same time of day; any other value gives no bound; a bound is never after now |
| ExpenseQuery.FilterFor | server/routes/expenses.js:22-48 | each clause is present exactly when its parameter asks for it; each `$in` list is comma-free and joins back to its parameter, so it is that parameter's split; the date bound is `FromDate` of the range and never exceeds now |
| ExpenseQuery.BuildFilter | server/routes/expenses.js:22-48 | adding the clauses one field at a time to `{}` yields `FilterFor` of the query |
| ExpenseQuery.Select | server/routes/expenses.js:51 | a record is kept exactly when it is stored and matches every clause, and every stored occurrence of a matching record is kept |
| ExpenseQuery.Listing | server/routes/expenses.js:51 | the listing holds exactly the matching records, each once per occurrence, ordered newest first |
| ExpenseQuery.NoParametersMatchEverything | server/routes/expenses.js:22 | with no parameters the predicate is `{}` and every record matches |
| ExpenseQuery.OtherDateRangesAddNoClause | server/routes/expenses.js:34-48 | all_time or any unrecognised range adds no date clause and matches like no range at all |
| ExpenseQuery.LaterRecordsStillMatch | server/routes/expenses.js:46-48 | the date clause is only a lower bound: moving a matching record later keeps it matching |
| ExpenseQuery.NowIsNeverExcludedByDate | server/routes/expenses.js:38-47 | a record dated at now is never excluded by the date clause |
| ExpenseQuery.CategoryClauseMeaning | server/routes/expenses.js:24-27 | with a truthy category parameter, a record passes the category clause exactly when its category is one of the comma-separated names |
| ExpenseQuery.OfferedDateRangesAreRecognised | server/routes/expenses.js:38-44 | of the offered ranges, exactly the ones other than all_time produce a date bound |
| Facets.Without | client/src/App.jsx:44 | `filter(v => v !== value)` drops every occurrence of the value, keeps everything else, and changes nothing when the value is absent |
| Facets.HandleFilterChange | client/src/App.jsx:38-53 | a checked value is removed everywhere, an unchecked one is appended at the end; the range and the other facet are unchanged |
| Facets.ToggleKeepsDistinct | client/src/App.jsx:46-50 | a toggle keeps a duplicate-free list duplicate-free |
| Facets.ToggleTwiceRestoresUnchecked | client/src/App.jsx:41-50 | toggling an unchecked value twice gives back exactly the same state |
| Facets.MoveToEnd | client/src/App.jsx:44-49 | removing a value that occurs once and appending it again keeps the same values, and keeps the same list exactly when it was last |
| Facets.ToggleTwiceMovesCheckedToEnd | client/src/App.jsx:41-50 | toggling a checked value twice moves it to the end of its list; the state is unchanged exactly when it was already last |
| Facets.QueryParamsLookup | client/src/App.jsx:84-87 | `dateRange` is sent exactly when it is non-empty and not all_time; each list is sent exactly when non-empty, as its comma join |
| Facets.QueryParamKeys | client/src/App.jsx:84-87 | no parameter other than those three keys is sent |
| Facets.QueryParamsArePlain | client/src/App.jsx:84-87 | for plain values, every parameter sent survives the parse on the server |
| Facets.FetchExpensesUrl | client/src/App.jsx:84-87 | the URL built by successive `+=` is the endpoint, '?', then the `k=v&` encoding of the parameters |
| Facets.FacetReachesServer | client/src/App.jsx:86 | the server's split of a joined non-empty list of plain values gives back the list, and an empty list sends no clause |
| Facets.SelectionReachesServer | client/src/App.jsx:84-87 | through the query string, the server's category and payment-mode clauses are exactly the checked lists (none when empty), and its date bound is the one the selected range gives |
| Facets.InitialIsWellFormed | client/src/App.jsx:25-29 | the initial state (all_time, nothing checked) uses offered values only, each once |
| Facets.ToggleKeepsWellFormed | client/src/App.jsx:38-53 | toggling an offered value keeps the state made of offered values, each once |
| Facets.DateRangeChangeKeepsWellFormed | client/src/App.jsx:55-57 | choosing an offered range keeps the state well formed and leaves both checked lists unchanged |
| Facets.WellFormedIsPlain | client/src/App.jsx:7-14 | every state made of offered values passes through the query string unchanged |
| Facets.ListingShowsSelection | client/src/App.jsx:84-87 | for a reachable state, a record is listed exactly when it is stored, its category and payment mode are checked (or nothing is checked), and it is not older than the range's bound |
| Analytics.SumForAbsentKey | server/routes/expenses.js:69 | a (month, year, category) with no record sums to 0 |
| Analytics.AddAmount | server/routes/expenses.js:69 | adding a record to the running groups raises exactly its own group's total by its amount, creating that group if new, and keeps one group per key |
| Analytics.GroupByMonthYearCategory | server/routes/expenses.js:62-71 | exactly one group per (month, year, category) occurring in the records, whose total is the sum of `amount` over exactly those records |
| Analytics.FirstStageTotals | server/routes/expenses.js:62-71 | every first-stage document's total is the sum over the records of its key |
| Analytics.PushCategory | server/routes/expenses.js:72-82 | pushing a pair appends it to its period's list only, creating the period if new, and keeps one document per period |
| Analytics.PairsFor | server/routes/expenses.js:75-80 | a pair is in a period's list exactly when a first-stage document with that period, category and total exists |
| Analytics.GroupByMonthYear | server/routes/expenses.js:72-82 | exactly one document per (month, year) of the first stage, listing that period's pairs; the total over all documents is unchanged |
| Analytics.PairsForDistinct | server/routes/expenses.js:72-82 | a period's pushed list names each category once |
| Analytics.EmptyRecordsGiveNoPeriods | server/routes/expenses.js:61-86 | no records give an empty result |
| Analytics.ResultPeriods | server/routes/expenses.js:61-86 | the result's periods are exactly the (month, year) pairs of the records |
| Analytics.SecondStageMonths | server/routes/expenses.js:65 | every period's month is between 1 and 12 |
| Analytics.ResultIsChronological | server/routes/expenses.js:83-85 | output periods strictly increase by year, then month |
| Analytics.ResultTotals | server/routes/expenses.js:61-86 | in every period, categories are distinct, a category is present exactly when a record of that period has it, and its total is the sum over those records |
| Analytics.GrandTotal | server/routes/expenses.js:61-86 | the totals over all periods add up to the sum of all amounts |
| Chart.MonthLabelSplits | client/src/App.jsx:109 | the label splits at its one '/' into the month's and the year's decimal text |
| Chart.MonthLabelDeterminesPeriod | client/src/App.jsx:109 | two labels are equal exactly when month and year are equal |
| Chart.MonthLabelUnpadded | client/src/App.jsx:109 | a month from 1 to 9 is written as its single digit, with no padding |
| Chart.Names | client/src/App.jsx:111-113 | the set of categories named in a period's pair list |
| Chart.CopyPairs | client/src/App.jsx:110-113 | the first loop yields a key per category in the list, valued by the last pair for it |
| Chart.FillOfferedCategories | client/src/App.jsx:114-116 | the second loop adds every offered category as 0 when missing and changes no existing value |
| Chart.TransformEntry | client/src/App.jsx:108-118 | the row built by the two loops is `RowOf` the period |
| Chart.TransformAnalyticsData | client/src/App.jsx:107-119 | one row per period, in the same order, row i built from period i |
| Chart.LastTotalOfDistinct | client/src/App.jsx:111-113 | with distinct categories, each category's value is the total of its one pair |
| Chart.RowContents | client/src/App.jsx:110-117 | every offered category is a key; an offered category without a pair is 0; a category with a pair keeps its total, offered or not; no other key appears |
| Chart.RowIgnoresPushOrder | client/src/App.jsx:110-113 | the row does not depend on the order the pairs were pushed in |
| Chart.ChartValuesAreSums | client/src/App.jsx:107-119 | on the analytics result, each row's keys are the offered categories plus the recorded ones, and each value is the sum of `amount` over that period's records of that category (0 if none) |
| Chart.ChartLabelsAreDistinct | client/src/App.jsx:109 | the rows of the analytics result carry pairwise different labels |
| Scenarios.MonthlyTotalsOfThreeRecords | server/routes/expenses.js:61-86 | three records give January 2024 {Rental 500, Groceries 300}, then February 2024 {Rental 200} |
| Scenarios.ChartOfThreeRecords | client/src/App.jsx:107-119 | those become the rows "1/2024" (Rental 500, Groceries 300, the rest 0) and "2/2024" (Rental 200, the rest 0) |
| Scenarios.RentalListingOfThreeRecords | server/routes/expenses.js:51 | checking only Rental at all_time lists the February and then the January Rental record |

## Left out

- HTTP plumbing: Express routing, status codes and JSON responses, the POST route and
  `expense.save()` (server/routes/expenses.js:7-16), and the error branches that answer 500.
- Client I/O and UI: `fetch`, `alert`, React state hooks and effects, form handling, and the
  chart and table rendering. `fetchExpenses` is modelled only up to the URL it builds, and
  `fetchAnalytics` only through `transformAnalyticsData`.
- The Mongoose schema is used only to shape `Expenses.Expense`. The `id` field stands for
  the store's `_id`, so that two otherwise equal records stay distinct.
- The clock and time zones. `now` is a parameter. Dates are calendar fields plus milliseconds
  since midnight. `$month`/`$year` (which MongoDB evaluates in UTC) and the server handler's
  `new Date(y, m, 1)` (server/routes/expenses.js:39, in the server's local time) are read off
  the same fields, so time-zone offsets and daylight-saving
  shifts are not modelled.
- The server's `now.setDate(...)` changes `now` in place. Only one branch runs per request, so
  the model computes the bound as a pure function of `now`.
- Floating-point amounts: amounts are integers, so rounding in `$sum` is not modelled.
- Query-string decoding: percent-encoding, '+' for space, and repeated keys parsed into arrays
  are not modelled. `UrlQuery.ParseEncode` covers values free of '&', which includes every
  offered value. Of two pieces with the same key, the first is used.
- Malformed or missing `date` values: dates are valid by type (`Calendar.Date`), so the
  unparseable case cannot arise.
- Storage-engine order. MongoDB does not fix the order of `$push` within a period or the order
  of records with equal dates. The model fixes one order: stage-one order for pairs and a stable
  sort for the listing. `Chart.RowIgnoresPushOrder` shows the chart does not depend on the
  pair order.
- Analytics.MonthlyCategoryTotals: it has no contract of its own. Its properties are the
  lemmas `ResultPeriods`, `ResultIsChronological`, `ResultTotals` and `GrandTotal`.
- ExpenseQuery.Matches: the store's reading of a predicate, with no contract of its own. Its
  properties are the rows of `Select`, `Listing`, `NoParametersMatchEverything`,
  `LaterRecordsStillMatch`, `NowIsNeverExcludedByDate` and `CategoryClauseMeaning`.
- Facets.HandleDateRangeChange: replaces the range and nothing else, with no contract of its
  own. Its property is the row of `Facets.DateRangeChangeKeepsWellFormed`.
- Facets.QueryParams: the parameter list `fetchExpenses` writes, with no contract of its own.
  Its properties are the rows of `QueryParamsLookup`, `QueryParamKeys`, `QueryParamsArePlain`
  and `FetchExpensesUrl`.
- Text.Join: `join(',')`, with no contract of its own. Its properties are the rows of
  `Text.JoinSplit`, `Text.SplitJoin` and `Text.JoinAvoids`.
- UrlQuery.EncodeQuery: the `key=value&` encoding, with no contract of its own. Its properties
  are the rows of `UrlQuery.ParseEncode` and `Facets.FetchExpensesUrl`.
- UrlQuery.ParseQuery: the server's query-string parse, with no contract of its own. Its
  property is the row of `UrlQuery.ParseEncode`; the decoding it omits is listed above.
- Chart.MonthLabel: the `month/year` template literal, with no contract of its own. Its
  properties are the rows of `MonthLabelSplits`, `MonthLabelDeterminesPeriod` and
  `MonthLabelUnpadded`.
- Chart.RowOf: the reference row for one period, with no contract of its own. Its properties
  are the rows of `TransformEntry`, `RowContents`, `RowIgnoresPushOrder` and
  `ChartValuesAreSums`. Also, the client spreads the categories after the `month` key. A
  stored category literally named "month" would therefore replace the label. The model keeps
  the label and the totals in separate fields, so it does not reproduce that collision.
- ExpenseQuery.Listing: states newest-first order by instant only. Records with equal instants
  may come back in any order from the store; the model's order for them is not a promise of
  the source.
