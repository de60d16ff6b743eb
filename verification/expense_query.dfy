/**
 * The server's listing route: the request's query parameters become a MongoDB-style
 * predicate with optional `category $in`, `paymentMode $in` and `date $gte` clauses, and
 * the matching records are returned newest first.
 */
module ExpenseQuery {
  import opened Wrappers
  import opened Text
  import opened Calendar
  import opened Expenses
  import opened UrlQuery
  import Catalog
  import Sorting

  /** The three parameters the listing route reads; None when the request does not carry one. */
  datatype Query = Query(category: Option<string>, paymentMode: Option<string>, dateRange: Option<string>)

  /**
   * The predicate handed to the store: `{ category: { $in }, paymentMode: { $in }, date: { $gte } }`,
   * each clause present or absent on its own.
   */
  datatype Filter = Filter(category: Option<seq<string>>, paymentMode: Option<seq<string>>, date: Option<Date>)

  /** `{}`: the predicate with no clause. */
  const EmptyFilter := Filter(None, None, None)

  /** What the store does with a predicate: a record matches when it satisfies every clause present. */
  predicate Matches(f: Filter, e: Expense)
  {
    && (f.category.Some? ==> e.category in f.category.value)
    && (f.paymentMode.Some? ==> e.paymentMode in f.paymentMode.value)
    && (f.date.Some? ==> Instant(e.date) >= Instant(f.date.value))
  }

  /** The named parameters of a parsed query string. */
  function RequestQuery(ps: seq<Param>): (q: Query)
    ensures q.category.Some? <==> exists i :: 0 <= i < |ps| && ps[i].key == "category"
    ensures q.paymentMode.Some? <==> exists i :: 0 <= i < |ps| && ps[i].key == "paymentMode"
    ensures q.dateRange.Some? <==> exists i :: 0 <= i < |ps| && ps[i].key == "dateRange"
  {
    Query(Lookup(ps, "category"), Lookup(ps, "paymentMode"), Lookup(ps, "dateRange"))
  }

  /** A parameter is truthy in JavaScript when it is present and not the empty string. */
  predicate Truthy(p: Option<string>)
  {
    p.Some? && p.value != ""
  }

  /** An `$in` clause for a comma-separated parameter: present only for a truthy parameter. */
  function InClause(p: Option<string>): (r: Option<seq<string>>)
    ensures r.Some? <==> Truthy(p)
    ensures r.Some? ==> |r.value| >= 1 && Join(r.value, ',') == p.value
    ensures r.Some? ==> forall i :: 0 <= i < |r.value| ==> ',' !in r.value[i]
  {
    if Truthy(p) then
      JoinSplit(p.value, ',');
      Some(Split(p.value, ','))
    else None
  }

  /** The lower date bound a `dateRange` value asks for, relative to `now`; None for any other value. */
  function FromDate(dateRange: string, now: Date): (r: Option<Date>)
    ensures r.Some? <==> dateRange in {"this_month", "last_30_days", "last_90_days"}
    ensures dateRange == "this_month" ==>
      r.Some? && r.value.year == now.year && r.value.month == now.month && r.value.day == 1 && r.value.millis == 0
    ensures dateRange == "last_30_days" ==>
      r.Some? && DayNumber(r.value) == DayNumber(now) - 30 && r.value.millis == now.millis
    ensures dateRange == "last_90_days" ==>
      r.Some? && DayNumber(r.value) == DayNumber(now) - 90 && r.value.millis == now.millis
    ensures r.Some? ==> Instant(r.value) <= Instant(now)
  {
    if dateRange == "this_month" then Some(StartOfMonth(now))
    else if dateRange == "last_30_days" then Some(MinusDays(now, 30))
    else if dateRange == "last_90_days" then Some(MinusDays(now, 90))
    else None
  }

  /** The predicate the listing route builds for a query at time `now`. */
  function FilterFor(q: Query, now: Date): (f: Filter)
    ensures f.category.Some? <==> Truthy(q.category)
    ensures f.category.Some? ==> Join(f.category.value, ',') == q.category.value
    ensures f.category.Some? ==> forall i :: 0 <= i < |f.category.value| ==> ',' !in f.category.value[i]
    ensures f.paymentMode.Some? <==> Truthy(q.paymentMode)
    ensures f.paymentMode.Some? ==> Join(f.paymentMode.value, ',') == q.paymentMode.value
    ensures f.paymentMode.Some? ==> forall i :: 0 <= i < |f.paymentMode.value| ==> ',' !in f.paymentMode.value[i]
    ensures f.date.Some? <==> q.dateRange.Some? && q.dateRange.value in {"this_month", "last_30_days", "last_90_days"}
    ensures f.date.Some? ==> f.date == FromDate(q.dateRange.value, now)
    ensures f.date.Some? ==> Instant(f.date.value) <= Instant(now)
  {
    Filter(
      InClause(q.category),
      InClause(q.paymentMode),
      if Truthy(q.dateRange) then FromDate(q.dateRange.value, now) else None)
  }

  /** The route handler's construction: start from `{}` and add each clause the query asks for. */
  method BuildFilter(q: Query, now: Date) returns (filter: Filter)
    ensures filter == FilterFor(q, now)
  {
    filter := EmptyFilter;
    if Truthy(q.category) {
      var categories := Split(q.category.value, ',');
      filter := filter.(category := Some(categories));
    }
    if Truthy(q.paymentMode) {
      var modes := Split(q.paymentMode.value, ',');
      filter := filter.(paymentMode := Some(modes));
    }
    if Truthy(q.dateRange) {
      var fromDate: Option<Date> := None;
      if q.dateRange.value == "this_month" {
        fromDate := Some(StartOfMonth(now));
      } else if q.dateRange.value == "last_30_days" {
        fromDate := Some(MinusDays(now, 30));
      } else if q.dateRange.value == "last_90_days" {
        fromDate := Some(MinusDays(now, 90));
      }
      if fromDate.Some? {
        filter := filter.(date := fromDate);
      }
    }
  }

  /** The records of `records` that match f, in their stored order. */
  function Select(records: seq<Expense>, f: Filter): (r: seq<Expense>)
    ensures forall e :: e in r <==> e in records && Matches(f, e)
    ensures forall e :: multiset(r)[e] == if Matches(f, e) then multiset(records)[e] else 0
    ensures |r| <= |records|
  {
    if records == [] then []
    else
      var rest := Select(records[1..], f);
      assert records == [records[0]] + records[1..];
      if Matches(f, records[0]) then [records[0]] + rest else rest
  }

  /** Sort key for `.sort({ date: -1 })`: ascending in this key is descending in date. */
  function NewestFirst(e: Expense): int
  {
    -Instant(e.date)
  }

  /** `Expense.find(filter).sort({ date: -1 })`: the matching records, newest first. */
  function Listing(records: seq<Expense>, f: Filter): (r: seq<Expense>)
    ensures multiset(r) == multiset(Select(records, f))
    ensures forall e :: e in r <==> e in records && Matches(f, e)
    ensures forall i, j :: 0 <= i < j < |r| ==> Instant(r[j].date) <= Instant(r[i].date)
  {
    var r := Sorting.SortBy(Select(records, f), NewestFirst);
    assert forall e :: e in r <==> e in multiset(r);
    r
  }

  /** With no parameters at all the predicate is `{}` and every record matches. */
  lemma NoParametersMatchEverything(now: Date, e: Expense)
    ensures FilterFor(Query(None, None, None), now) == EmptyFilter
    ensures Matches(FilterFor(Query(None, None, None), now), e)
  {
  }

  /** Only the three recognised date ranges restrict by date; `all_time` and anything else do not. */
  lemma {:induction false} OtherDateRangesAddNoClause(q: Query, now: Date)
    requires q.dateRange.Some? ==> q.dateRange.value !in {"this_month", "last_30_days", "last_90_days"}
    ensures FilterFor(q, now).date == None
    ensures forall e :: Matches(FilterFor(q, now), e) <==> Matches(FilterFor(q.(dateRange := None), now), e)
  {
  }

  /** The date clause is a lower bound only: moving a matching record later in time keeps it matching. */
  lemma LaterRecordsStillMatch(f: Filter, e: Expense, later: Date)
    requires Matches(f, e)
    requires Instant(e.date) <= Instant(later)
    ensures Matches(f, e.(date := later))
  {
  }

  /** A record stamped at `now` always passes the date clause, whatever the date range. */
  lemma NowIsNeverExcludedByDate(q: Query, now: Date, e: Expense)
    requires e.date == now
    requires Matches(FilterFor(q.(dateRange := None), now), e)
    ensures Matches(FilterFor(q, now), e)
  {
  }

  /** The category clause keeps exactly the records whose category is one of the comma-separated names. */
  lemma {:induction false} CategoryClauseMeaning(q: Query, now: Date, e: Expense)
    requires Truthy(q.category)
    requires Matches(FilterFor(q.(category := None), now), e)
    ensures Matches(FilterFor(q, now), e) <==> e.category in Split(q.category.value, ',')
  {
  }

  /** Every date range the client offers other than `all_time` produces a date clause. */
  lemma {:induction false} OfferedDateRangesAreRecognised(now: Date)
    ensures forall i :: 0 <= i < |Catalog.DateRanges| ==>
      (FromDate(Catalog.DateRanges[i].value, now).Some? <==> Catalog.DateRanges[i].value != Catalog.AllTime)
  {
    forall i | 0 <= i < |Catalog.DateRanges|
      ensures FromDate(Catalog.DateRanges[i].value, now).Some? <==> Catalog.DateRanges[i].value != Catalog.AllTime
    {
      assert i == 0 || i == 1 || i == 2 || i == 3;
    }
  }
}
