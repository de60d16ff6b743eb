/**
 * The client's filter state: the selected date range and the checked categories and payment
 * modes, the checkbox toggle that edits them, and the listing URL built from them.
 */
module Facets {
  import opened Wrappers
  import opened Text
  import opened Calendar
  import opened UrlQuery
  import opened ExpenseQuery
  import opened Expenses
  import Catalog

  /** The two checkbox facets `handleFilterChange` is called with. */
  datatype FacetName = CategoryFacet | PaymentModeFacet

  /** `{ dateRange, category: [...], paymentMode: [...] }`; the lists keep the order values were checked in. */
  datatype Filters = Filters(dateRange: string, category: seq<string>, paymentMode: seq<string>)

  /** The state the page starts with. */
  const InitialFilters := Filters(Catalog.AllTime, [], [])

  const ExpensesEndpoint := "https://expense-app-zcuv.onrender.com/api/expenses"

  function Other(name: FacetName): FacetName
  {
    match name
    case CategoryFacet => PaymentModeFacet
    case PaymentModeFacet => CategoryFacet
  }

  function Selected(f: Filters, name: FacetName): seq<string>
  {
    match name
    case CategoryFacet => f.category
    case PaymentModeFacet => f.paymentMode
  }

  /** The values a facet's checkboxes offer. */
  function Offered(name: FacetName): seq<string>
  {
    match name
    case CategoryFacet => Catalog.CategoryOptions
    case PaymentModeFacet => Catalog.PaymentModes
  }

  predicate Distinct(xs: seq<string>)
  {
    forall i, j :: 0 <= i < j < |xs| ==> xs[i] != xs[j]
  }

  /** `xs.filter((x) => x !== v)`: every occurrence of v dropped, the rest kept in order. */
  function Without(xs: seq<string>, v: string): (r: seq<string>)
    ensures v !in r
    ensures forall x :: x in r <==> x in xs && x != v
    ensures multiset(r) == multiset(xs)[v := 0]
    ensures v !in xs ==> r == xs
  {
    if xs == [] then []
    else
      var rest := Without(xs[1..], v);
      assert xs == [xs[0]] + xs[1..];
      if xs[0] == v then rest else [xs[0]] + rest
  }

  lemma {:induction false} WithoutAppend(a: seq<string>, b: seq<string>, v: string)
    ensures Without(a + b, v) == Without(a, v) + Without(b, v)
    decreases |a|
  {
    if a == [] {
      assert a + b == b;
    } else {
      assert (a + b)[1..] == a[1..] + b;
      WithoutAppend(a[1..], b, v);
    }
  }

  lemma {:induction false} WithoutKeepsDistinct(xs: seq<string>, v: string)
    requires Distinct(xs)
    ensures Distinct(Without(xs, v))
    decreases |xs|
  {
    if xs != [] {
      WithoutKeepsDistinct(xs[1..], v);
      assert xs[0] !in xs[1..];
    }
  }

  /** `handleFilterChange(filterName, value)`: unchecks a checked value, checks an unchecked one. */
  function HandleFilterChange(prev: Filters, name: FacetName, value: string): (next: Filters)
    ensures next.dateRange == prev.dateRange
    ensures Selected(next, Other(name)) == Selected(prev, Other(name))
    ensures value in Selected(prev, name) ==>
      value !in Selected(next, name) &&
      multiset(Selected(next, name)) == multiset(Selected(prev, name))[value := 0]
    ensures value !in Selected(prev, name) ==> Selected(next, name) == Selected(prev, name) + [value]
  {
    var current := Selected(prev, name);
    var updated := if value in current then Without(current, value) else current + [value];
    match name
    case CategoryFacet => prev.(category := updated)
    case PaymentModeFacet => prev.(paymentMode := updated)
  }

  /** `handleDateRangeChange`: the chosen range replaces the old one, the checked lists stay. */
  function HandleDateRangeChange(prev: Filters, value: string): Filters
  {
    prev.(dateRange := value)
  }

  /** A toggle keeps a duplicate-free list duplicate-free. */
  lemma ToggleKeepsDistinct(prev: Filters, name: FacetName, value: string)
    requires Distinct(Selected(prev, name))
    ensures Distinct(Selected(HandleFilterChange(prev, name, value), name))
  {
    WithoutKeepsDistinct(Selected(prev, name), value);
  }

  /** Checking an unchecked value and unchecking it again gives back exactly the same state. */
  lemma {:induction false} ToggleTwiceRestoresUnchecked(prev: Filters, name: FacetName, value: string)
    requires value !in Selected(prev, name)
    ensures HandleFilterChange(HandleFilterChange(prev, name, value), name, value) == prev
  {
    var xs := Selected(prev, name);
    var mid := HandleFilterChange(prev, name, value);
    WithoutAppend(xs, [value], value);
    assert Without(xs + [value], value) == xs;
    match name
    case CategoryFacet =>
    case PaymentModeFacet =>
  }

  /**
   * Removing a value that occurs once and appending it again keeps the same values, and gives
   * back the same list exactly when the value was already last.
   */
  lemma {:induction false} MoveToEnd(xs: seq<string>, value: string)
    requires Distinct(xs)
    requires value in xs
    ensures multiset(Without(xs, value) + [value]) == multiset(xs)
    ensures Without(xs, value) + [value] == xs <==> xs[|xs| - 1] == value
  {
    var ys := Without(xs, value) + [value];
    assert multiset(ys) == multiset(xs) by {
      DistinctCountsOnce(xs, value);
    }
    if xs[|xs| - 1] == value {
      WithoutLast(xs, value);
    } else {
      assert |ys| == |xs| by {
        assert |multiset(ys)| == |multiset(xs)|;
      }
      assert ys[|ys| - 1] != xs[|xs| - 1];
    }
  }

  /** Removing the last value of a duplicate-free list leaves the values before it. */
  lemma WithoutLast(xs: seq<string>, value: string)
    requires Distinct(xs)
    requires xs != [] && xs[|xs| - 1] == value
    ensures Without(xs, value) + [value] == xs
  {
    var init := xs[..|xs| - 1];
    assert xs == init + [value];
    assert value !in init by {
      forall i | 0 <= i < |init| ensures init[i] != value {
        assert init[i] == xs[i];
      }
    }
    assert Without(init, value) == init;
    assert Without([value], value) == [] by {
      assert [value][1..] == [];
    }
    WithoutAppend(init, [value], value);
  }

  /**
   * Unchecking a checked value and checking it again keeps the same values but moves this one
   * to the end: the state comes back unchanged exactly when the value was already last.
   */
  lemma {:induction false} ToggleTwiceMovesCheckedToEnd(prev: Filters, name: FacetName, value: string)
    requires Distinct(Selected(prev, name))
    requires value in Selected(prev, name)
    ensures var xs := Selected(prev, name);
      var twice := HandleFilterChange(HandleFilterChange(prev, name, value), name, value);
      && Selected(twice, name) == Without(xs, value) + [value]
      && multiset(Selected(twice, name)) == multiset(xs)
      && (twice == prev <==> xs[|xs| - 1] == value)
  {
    var xs := Selected(prev, name);
    MoveToEnd(xs, value);
    match name
    case CategoryFacet =>
    case PaymentModeFacet =>
  }

  lemma {:induction false} DistinctCountsOnce(xs: seq<string>, v: string)
    requires Distinct(xs)
    requires v in xs
    ensures multiset(xs)[v] == 1
    decreases |xs|
  {
    assert xs == [xs[0]] + xs[1..];
    if xs[0] == v {
      assert v !in xs[1..];
    } else {
      DistinctCountsOnce(xs[1..], v);
    }
  }

  function DateRangeParam(f: Filters): seq<Param>
  {
    if f.dateRange != "" && f.dateRange != Catalog.AllTime then [Param("dateRange", f.dateRange)] else []
  }

  function ListParam(key: string, xs: seq<string>): seq<Param>
  {
    if |xs| > 0 then [Param(key, Join(xs, ','))] else []
  }

  /** The parameters the listing URL carries, in the order they are appended. */
  function QueryParams(f: Filters): seq<Param>
  {
    DateRangeParam(f) + ListParam("category", f.category) + ListParam("paymentMode", f.paymentMode)
  }

  /**
   * `dateRange` is sent exactly when the range is set and is not all_time; each list is sent
   * exactly when it is non-empty, as its values joined by ','.
   */
  lemma QueryParamsLookup(f: Filters)
    ensures Lookup(QueryParams(f), "dateRange") ==
      if f.dateRange != "" && f.dateRange != Catalog.AllTime then Some(f.dateRange) else None
    ensures Lookup(QueryParams(f), "category") == if |f.category| > 0 then Some(Join(f.category, ',')) else None
    ensures Lookup(QueryParams(f), "paymentMode") ==
      if |f.paymentMode| > 0 then Some(Join(f.paymentMode, ',')) else None
  {
    var d, c, m := DateRangeParam(f), ListParam("category", f.category), ListParam("paymentMode", f.paymentMode);
    assert Lookup(d + c + m, "dateRange") == Lookup(d, "dateRange") by {
      LookupInThree(d, c, m, "dateRange");
      LookupSingle(c, "dateRange");
      LookupSingle(m, "dateRange");
    }
    assert Lookup(d + c + m, "category") == Lookup(c, "category") by {
      LookupInThree(d, c, m, "category");
      LookupSingle(d, "category");
      LookupSingle(m, "category");
    }
    assert Lookup(d + c + m, "paymentMode") == Lookup(m, "paymentMode") by {
      LookupInThree(d, c, m, "paymentMode");
      LookupSingle(d, "paymentMode");
      LookupSingle(c, "paymentMode");
    }
    LookupSingle(d, "dateRange");
    LookupSingle(c, "category");
    LookupSingle(m, "paymentMode");
  }

  /** No other parameter is sent. */
  lemma QueryParamKeys(f: Filters)
    ensures forall i :: 0 <= i < |QueryParams(f)| ==> QueryParams(f)[i].key in {"dateRange", "category", "paymentMode"}
  {
    var d, c, m := DateRangeParam(f), ListParam("category", f.category), ListParam("paymentMode", f.paymentMode);
    forall i | 0 <= i < |d + c + m| ensures (d + c + m)[i].key in {"dateRange", "category", "paymentMode"} {
      if i < |d| {
        assert (d + c + m)[i] == d[i];
      } else if i < |d| + |c| {
        assert (d + c + m)[i] == c[i - |d|];
      } else {
        assert (d + c + m)[i] == m[i - |d| - |c|];
      }
    }
  }

  /** The first parameter named key in a + b + c. */
  lemma LookupInThree(a: seq<Param>, b: seq<Param>, c: seq<Param>, key: string)
    ensures Lookup(a + b + c, key) ==
      if Lookup(a, key).Some? then Lookup(a, key) else if Lookup(b, key).Some? then Lookup(b, key) else Lookup(c, key)
  {
    LookupAppend(a + b, c, key);
    LookupAppend(a, b, key);
  }

  /** Lookup in a list of at most one parameter. */
  lemma LookupSingle(ps: seq<Param>, key: string)
    requires |ps| <= 1
    ensures Lookup(ps, key) == if ps != [] && ps[0].key == key then Some(ps[0].value) else None
  {
  }

  predicate AllPlain(ps: seq<Param>)
  {
    forall i :: 0 <= i < |ps| ==> Plain(ps[i])
  }

  lemma AllPlainAppend(a: seq<Param>, b: seq<Param>)
    requires AllPlain(a) && AllPlain(b)
    ensures AllPlain(a + b)
  {
    forall i | 0 <= i < |a + b| ensures Plain((a + b)[i]) {
      if i >= |a| {
        assert (a + b)[i] == b[i - |a|];
      }
    }
  }

  lemma ListParamIsPlain(key: string, xs: seq<string>)
    requires key != "" && '=' !in key && '&' !in key
    requires forall i :: 0 <= i < |xs| ==> Catalog.PlainValue(xs[i])
    ensures AllPlain(ListParam(key, xs))
  {
    if |xs| > 0 {
      JoinAvoids(xs, ',', '&');
    }
  }

  lemma PartsArePlain(f: Filters)
    requires PlainFilters(f)
    ensures AllPlain(QueryParams(f))
  {
    var d, c, m := DateRangeParam(f), ListParam("category", f.category), ListParam("paymentMode", f.paymentMode);
    assert AllPlain(d) by {
      assert '=' !in "dateRange" && '&' !in "dateRange";
    }
    assert AllPlain(c) by {
      assert '=' !in "category" && '&' !in "category";
      ListParamIsPlain("category", f.category);
    }
    assert AllPlain(m) by {
      assert '=' !in "paymentMode" && '&' !in "paymentMode";
      ListParamIsPlain("paymentMode", f.paymentMode);
    }
    AllPlainAppend(d, c);
    AllPlainAppend(d + c, m);
  }

  /** Offered-style selections produce parameters that survive the round trip through the query string. */
  lemma QueryParamsArePlain(f: Filters)
    requires PlainFilters(f)
    ensures forall i :: 0 <= i < |QueryParams(f)| ==> Plain(QueryParams(f)[i])
  {
    PartsArePlain(f);
  }

  /** The listing URL `fetchExpenses` builds, one `+=` per parameter. */
  method FetchExpensesUrl(f: Filters) returns (url: string)
    ensures |url| > |ExpensesEndpoint| && url[..|ExpensesEndpoint| + 1] == ExpensesEndpoint + "?"
    ensures url[|ExpensesEndpoint| + 1..] == EncodeQuery(QueryParams(f))
  {
    var prefix := ExpensesEndpoint + "?";
    ghost var d, c, m := DateRangeParam(f), ListParam("category", f.category), ListParam("paymentMode", f.paymentMode);
    url := prefix;
    if f.dateRange != "" && f.dateRange != Catalog.AllTime {
      url := url + "dateRange=" + f.dateRange + "&";
      assert url == prefix + EncodeQuery(d) by {
        AppendedPiece(prefix, "dateRange=", "dateRange", f.dateRange);
      }
    }
    ghost var before := url;
    if |f.category| > 0 {
      url := url + "category=" + Join(f.category, ',') + "&";
      assert url == before + EncodeQuery(c) by {
        AppendedPiece(before, "category=", "category", Join(f.category, ','));
      }
    }
    assert url == prefix + EncodeQuery(d + c) by {
      EncodeAppend(d, c);
      ConcatAssoc(prefix, EncodeQuery(d), EncodeQuery(c));
    }
    before := url;
    if |f.paymentMode| > 0 {
      url := url + "paymentMode=" + Join(f.paymentMode, ',') + "&";
      assert url == before + EncodeQuery(m) by {
        AppendedPiece(before, "paymentMode=", "paymentMode", Join(f.paymentMode, ','));
      }
    }
    assert url == prefix + EncodeQuery(QueryParams(f)) by {
      EncodeAppend(d + c, m);
      ConcatAssoc(prefix, EncodeQuery(d + c), EncodeQuery(m));
    }
    assert url[..|prefix|] == prefix;
  }

  /** Regrouping a URL built in three parts; stated apart so the URL proof stays within its resource budget. */
  lemma ConcatAssoc(a: string, b: string, c: string)
    ensures (a + b) + c == a + (b + c)
  {
  }

  /** Appending `key=value&` to a URL is appending the encoding of that one parameter. */
  lemma AppendedPiece(url: string, keyEq: string, key: string, value: string)
    requires keyEq == key + "="
    ensures url + keyEq + value + "&" == url + EncodeQuery([Param(key, value)])
  {
    assert [Param(key, value)][1..] == [];
  }

  /** Selections whose values pass through the query string untouched. */
  predicate PlainFilters(f: Filters)
  {
    && '&' !in f.dateRange
    && (forall i :: 0 <= i < |f.category| ==> Catalog.PlainValue(f.category[i]))
    && (forall i :: 0 <= i < |f.paymentMode| ==> Catalog.PlainValue(f.paymentMode[i]))
  }

  lemma {:induction false} FacetReachesServer(xs: seq<string>)
    requires forall i :: 0 <= i < |xs| ==> Catalog.PlainValue(xs[i])
    ensures InClause(if |xs| > 0 then Some(Join(xs, ',')) else None) == if |xs| > 0 then Some(xs) else None
  {
    if |xs| > 0 {
      JoinStartsWithFirst(xs, ',');
      SplitJoin(xs, ',');
    }
  }

  /**
   * The client's selection arrives intact: the server splits each joined list back into the
   * checked values and derives its date clause from the selected range.
   */
  lemma {:induction false} SelectionReachesServer(f: Filters, now: Date)
    requires PlainFilters(f)
    ensures var filter := FilterFor(RequestQuery(ParseQuery(EncodeQuery(QueryParams(f)))), now);
      && filter.category == (if |f.category| > 0 then Some(f.category) else None)
      && filter.paymentMode == (if |f.paymentMode| > 0 then Some(f.paymentMode) else None)
      && filter.date == FromDate(f.dateRange, now)
  {
    var ps := QueryParams(f);
    QueryParamsLookup(f);
    QueryParamsArePlain(f);
    ParseEncode(ps);
    var q := RequestQuery(ps);
    assert q.dateRange == if f.dateRange != "" && f.dateRange != Catalog.AllTime then Some(f.dateRange) else None;
    FacetReachesServer(f.category);
    FacetReachesServer(f.paymentMode);
  }

  /** States the page can reach: checked values come from the offered ones, once each, and the range is an offered one. */
  predicate WellFormed(f: Filters)
  {
    && (exists i :: 0 <= i < |Catalog.DateRanges| && Catalog.DateRanges[i].value == f.dateRange)
    && (forall x :: x in f.category ==> x in Catalog.CategoryOptions)
    && (forall x :: x in f.paymentMode ==> x in Catalog.PaymentModes)
    && Distinct(f.category) && Distinct(f.paymentMode)
  }

  lemma InitialIsWellFormed()
    ensures WellFormed(InitialFilters)
  {
    assert Catalog.DateRanges[3].value == InitialFilters.dateRange;
  }

  /** Toggling an offered checkbox keeps the state well formed. */
  lemma {:induction false} ToggleKeepsWellFormed(prev: Filters, name: FacetName, value: string)
    requires WellFormed(prev)
    requires value in Offered(name)
    ensures WellFormed(HandleFilterChange(prev, name, value))
  {
    ToggleKeepsDistinct(prev, name, value);
    match name
    case CategoryFacet =>
    case PaymentModeFacet =>
  }

  /** Every well-formed state is sent through the query string intact. */
  lemma {:induction false} WellFormedIsPlain(f: Filters)
    requires WellFormed(f)
    ensures PlainFilters(f)
  {
    Catalog.OfferedValuesArePlain();
    var i :| 0 <= i < |Catalog.DateRanges| && Catalog.DateRanges[i].value == f.dateRange;
    assert i == 0 || i == 1 || i == 2 || i == 3;
    forall k | 0 <= k < |f.category| ensures Catalog.PlainValue(f.category[k]) {
      var x := f.category[k];
      assert x in Catalog.CategoryOptions;
    }
    forall k | 0 <= k < |f.paymentMode| ensures Catalog.PlainValue(f.paymentMode[k]) {
      var x := f.paymentMode[k];
      assert x in Catalog.PaymentModes;
    }
  }

  /** Choosing one of the offered ranges keeps the state well formed and leaves both checked lists as they were. */
  lemma DateRangeChangeKeepsWellFormed(prev: Filters, i: nat)
    requires WellFormed(prev)
    requires i < |Catalog.DateRanges|
    ensures var next := HandleDateRangeChange(prev, Catalog.DateRanges[i].value);
      && WellFormed(next)
      && next.category == prev.category && next.paymentMode == prev.paymentMode
  {
  }

  /**
   * What the listing shows for a reachable state: exactly the records whose category is checked
   * (any, when none is), whose payment mode is checked (any, when none is), and that are not
   * older than the bound the selected range gives at `now`.
   */
  lemma {:induction false} ListingShowsSelection(f: Filters, now: Date, records: seq<Expense>, e: Expense)
    requires WellFormed(f)
    ensures var filter := FilterFor(RequestQuery(ParseQuery(EncodeQuery(QueryParams(f)))), now);
      e in Listing(records, filter) <==>
        && e in records
        && (|f.category| > 0 ==> e.category in f.category)
        && (|f.paymentMode| > 0 ==> e.paymentMode in f.paymentMode)
        && (FromDate(f.dateRange, now).Some? ==> Instant(e.date) >= Instant(FromDate(f.dateRange, now).value))
  {
    WellFormedIsPlain(f);
    SelectionReachesServer(f, now);
  }
}
