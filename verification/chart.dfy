/**
 * The client's reshape of the analytics result into chart rows: each period becomes a row
 * labelled "month/year" whose keys are the period's categories plus every offered category,
 * an offered category without a total getting 0.
 */
module Chart {
  import opened Text
  import opened Analytics
  import Catalog
  import opened Expenses

  /** `{ month: "<m>/<y>", <category>: <total>, ... }`: the label and the category totals. */
  datatype ChartRow = ChartRow(month: string, totals: map<string, int>)

  /** The label `${month}/${year}`. */
  function MonthLabel(month: int, year: int): string
  {
    IntToString(month) + "/" + IntToString(year)
  }

  /** The label splits at its one '/' into the month and the year, each in plain decimal. */
  lemma MonthLabelSplits(month: int, year: int)
    ensures Split(MonthLabel(month, year), '/') == [IntToString(month), IntToString(year)]
  {
    IntToStringHasNo(month, '/');
    IntToStringHasNo(year, '/');
    SplitAfterPiece(IntToString(month), '/', IntToString(year));
    SplitWithoutSeparator(IntToString(year), '/');
  }

  /** A label names its period: two periods with the same label are the same period. */
  lemma {:induction false} MonthLabelDeterminesPeriod(m1: int, y1: int, m2: int, y2: int)
    ensures MonthLabel(m1, y1) == MonthLabel(m2, y2) <==> m1 == m2 && y1 == y2
  {
    if MonthLabel(m1, y1) == MonthLabel(m2, y2) {
      assert IntToString(m1) == IntToString(m2) && IntToString(y1) == IntToString(y2) by {
        MonthLabelSplits(m1, y1);
        MonthLabelSplits(m2, y2);
      }
      ParseIntToString(m1);
      ParseIntToString(m2);
      ParseIntToString(y1);
      ParseIntToString(y2);
    }
  }

  /** A one-digit month is written as that digit alone, straight before the '/'. */
  lemma MonthLabelUnpadded(month: int, year: int)
    requires 1 <= month <= 9
    ensures MonthLabel(month, year)[0] == DigitChar(month) && MonthLabel(month, year)[1] == '/'
  {
    assert IntToString(month) == [DigitChar(month)];
  }

  /** The categories named in a `categories` array. */
  function Names(cs: seq<CategoryTotal>): (r: set<string>)
    ensures forall c :: c in r <==> exists i :: 0 <= i < |cs| && cs[i].category == c
    decreases |cs|
  {
    if cs == [] then {}
    else
      var init := cs[..|cs| - 1];
      assert forall i :: 0 <= i < |init| ==> init[i] == cs[i];
      Names(init) + {cs[|cs| - 1].category}
  }

  /** The total the last entry for c carries, which is what `categories[cat.category] = cat.total` leaves; 0 without one. */
  function LastTotal(cs: seq<CategoryTotal>, c: string): int
    decreases |cs|
  {
    if cs == [] then 0
    else if cs[|cs| - 1].category == c then cs[|cs| - 1].total
    else LastTotal(cs[..|cs| - 1], c)
  }

  /** The row `transformAnalyticsData` produces for one period document. */
  function RowOf(entry: PeriodGroup): ChartRow
  {
    var names := Names(entry.categories);
    ChartRow(
      MonthLabel(entry.id.month, entry.id.year),
      map c | c in names + Catalog.CategorySet() :: if c in names then LastTotal(entry.categories, c) else 0)
  }

  /** The first `forEach`: each pair `{category, total}` sets that key, a later pair for the same category overwriting an earlier one. */
  method CopyPairs(cs: seq<CategoryTotal>) returns (categories: map<string, int>)
    ensures categories.Keys == Names(cs)
    ensures forall c :: c in categories ==> categories[c] == LastTotal(cs, c)
  {
    categories := map[];
    var i := 0;
    while i < |cs|
      invariant 0 <= i <= |cs|
      invariant categories.Keys == Names(cs[..i])
      invariant forall c :: c in categories ==> categories[c] == LastTotal(cs[..i], c)
    {
      var cat := cs[i];
      assert cs[..i + 1][..i] == cs[..i];
      categories := categories[cat.category := cat.total];
      i := i + 1;
    }
    assert cs[..i] == cs;
  }

  /**
   * The second `forEach`: every offered category whose value is missing or falsy is set to 0,
   * which leaves a present total (a present 0 stays 0) and adds 0 for an absent one.
   */
  method FillOfferedCategories(categories: map<string, int>) returns (filled: map<string, int>)
    ensures filled.Keys == categories.Keys + Catalog.CategorySet()
    ensures forall c :: c in filled ==> filled[c] == if c in categories then categories[c] else 0
  {
    filled := categories;
    var options := Catalog.CategoryOptions;
    var j := 0;
    while j < |options|
      invariant 0 <= j <= |options|
      invariant filled.Keys == categories.Keys + set c | c in options[..j]
      invariant forall c :: c in filled ==> filled[c] == if c in categories then categories[c] else 0
    {
      var cat := options[j];
      assert options[..j + 1] == options[..j] + [cat];
      if cat !in filled || filled[cat] == 0 {
        filled := filled[cat := 0];
      }
      j := j + 1;
    }
    assert options[..j] == options;
  }

  /** The callback of `data.map`: the label, then the copied pairs with the offered categories filled in. */
  method TransformEntry(entry: PeriodGroup) returns (row: ChartRow)
    ensures row == RowOf(entry)
  {
    var monthLabel := IntToString(entry.id.month) + "/" + IntToString(entry.id.year);
    var categories := CopyPairs(entry.categories);
    categories := FillOfferedCategories(categories);
    row := ChartRow(monthLabel, categories);
    assert categories.Keys == RowOf(entry).totals.Keys;
  }

  /** `transformAnalyticsData(data)`: one row per period document, in the same order. */
  method TransformAnalyticsData(data: seq<PeriodGroup>) returns (rows: seq<ChartRow>)
    ensures |rows| == |data|
    ensures forall i :: 0 <= i < |data| ==> rows[i] == RowOf(data[i])
  {
    rows := [];
    var i := 0;
    while i < |data|
      invariant 0 <= i <= |data|
      invariant |rows| == i
      invariant forall k :: 0 <= k < i ==> rows[k] == RowOf(data[k])
    {
      var row := TransformEntry(data[i]);
      rows := rows + [row];
      i := i + 1;
    }
  }

  /** The last entry for a named category is one of the period's pairs. */
  lemma {:induction false} LastTotalIsAnEntry(cs: seq<CategoryTotal>, c: string)
    requires c in Names(cs)
    ensures CategoryTotal(c, LastTotal(cs, c)) in cs
    decreases |cs|
  {
    if cs[|cs| - 1].category != c {
      var init := cs[..|cs| - 1];
      var i :| 0 <= i < |cs| && cs[i].category == c;
      assert init[i] == cs[i];
      LastTotalIsAnEntry(init, c);
      assert forall x :: x in init ==> x in cs;
    }
  }

  /** When categories are distinct, the entry for a category carries the total LastTotal reports. */
  lemma {:induction false} LastTotalOfDistinct(cs: seq<CategoryTotal>, ct: CategoryTotal)
    requires DistinctCategories(cs)
    requires ct in cs
    ensures LastTotal(cs, ct.category) == ct.total
    decreases |cs|
  {
    var n := |cs| - 1;
    if cs[n] != ct {
      var i :| 0 <= i < |cs| && cs[i] == ct;
      assert i < n;
      assert cs[n].category != ct.category;
      var init := cs[..n];
      assert init[i] == ct;
      assert DistinctCategories(init) by {
        forall a, b | 0 <= a < b < |init| ensures init[a].category != init[b].category {
          assert init[a] == cs[a] && init[b] == cs[b];
        }
      }
      LastTotalOfDistinct(init, ct);
    }
  }

  /**
   * Every offered category is a key of every row; an offered category the period lacks is 0;
   * a category the period has keeps its total, offered or not; no other key appears.
   */
  lemma RowContents(entry: PeriodGroup)
    requires DistinctCategories(entry.categories)
    ensures var row := RowOf(entry);
      && (forall c :: c in Catalog.CategoryOptions ==> c in row.totals)
      && (forall c :: c in row.totals <==> c in Catalog.CategoryOptions || c in Names(entry.categories))
      && (forall c :: c in Catalog.CategoryOptions && c !in Names(entry.categories) ==> row.totals[c] == 0)
      && (forall ct :: ct in entry.categories ==> row.totals[ct.category] == ct.total)
  {
    forall ct | ct in entry.categories ensures RowOf(entry).totals[ct.category] == ct.total {
      LastTotalOfDistinct(entry.categories, ct);
    }
  }

  /** The order `$push` left the pairs in does not change the row. */
  lemma RowIgnoresPushOrder(e1: PeriodGroup, e2: PeriodGroup)
    requires e1.id == e2.id
    requires multiset(e1.categories) == multiset(e2.categories)
    requires DistinctCategories(e1.categories)
    ensures RowOf(e1) == RowOf(e2)
  {
    var cs1, cs2 := e1.categories, e2.categories;
    SameElementsSameNames(cs1, cs2);
    var t1, t2 := RowOf(e1).totals, RowOf(e2).totals;
    assert t1.Keys == t2.Keys;
    forall c | c in t1 ensures t1[c] == t2[c] {
      if c in Names(cs1) {
        SameElementsSameLastTotal(cs1, cs2, c);
      }
    }
  }

  lemma SameElementsSameNames(cs1: seq<CategoryTotal>, cs2: seq<CategoryTotal>)
    requires multiset(cs1) == multiset(cs2)
    ensures Names(cs1) == Names(cs2)
  {
    forall c | c in Names(cs1) ensures c in Names(cs2) {
      var i :| 0 <= i < |cs1| && cs1[i].category == c;
      assert cs1[i] in multiset(cs2);
    }
    forall c | c in Names(cs2) ensures c in Names(cs1) {
      var i :| 0 <= i < |cs2| && cs2[i].category == c;
      assert cs2[i] in multiset(cs1);
    }
  }

  lemma SameElementsSameLastTotal(cs1: seq<CategoryTotal>, cs2: seq<CategoryTotal>, c: string)
    requires multiset(cs1) == multiset(cs2)
    requires DistinctCategories(cs1)
    requires c in Names(cs2)
    ensures LastTotal(cs1, c) == LastTotal(cs2, c)
  {
    LastTotalIsAnEntry(cs2, c);
    assert CategoryTotal(c, LastTotal(cs2, c)) in multiset(cs1);
    LastTotalOfDistinct(cs1, CategoryTotal(c, LastTotal(cs2, c)));
  }

  /**
   * Chart rows of the analytics result: for every key of row i, the value is the sum of
   * `amount` over the records of that category in that row's period, 0 when there are none;
   * the keys are the offered categories plus the categories recorded in that period.
   */
  lemma ChartValuesAreSums(rs: seq<Expense>, i: nat)
    requires i < |MonthlyCategoryTotals(rs)|
    ensures var g := MonthlyCategoryTotals(rs)[i];
      var row := RowOf(g);
      && (forall c :: c in row.totals <==>
            c in Catalog.CategoryOptions || GroupKey(g.id.month, g.id.year, c) in RecordKeys(rs))
      && (forall c :: c in row.totals ==> row.totals[c] == SumFor(rs, GroupKey(g.id.month, g.id.year, c)))
  {
    var g := MonthlyCategoryTotals(rs)[i];
    ResultTotals(rs, i);
    RowContents(g);
    forall c | c in RowOf(g).totals ensures RowOf(g).totals[c] == SumFor(rs, GroupKey(g.id.month, g.id.year, c)) {
      ChartValue(rs, g, c);
    }
    forall c ensures GroupKey(g.id.month, g.id.year, c) in RecordKeys(rs) <==> c in Names(g.categories) {
      NamedIffRecorded(rs, g, c);
    }
  }

  /** What ResultTotals states about one period document, taken as an assumption about g. */
  ghost predicate TotalsOfPeriod(rs: seq<Expense>, g: PeriodGroup)
  {
    && DistinctCategories(g.categories)
    && (forall ct :: ct in g.categories ==> ct.total == SumFor(rs, GroupKey(g.id.month, g.id.year, ct.category)))
    && (forall c :: (exists ct :: ct in g.categories && ct.category == c) <==>
          GroupKey(g.id.month, g.id.year, c) in RecordKeys(rs))
  }

  lemma NamedIffRecorded(rs: seq<Expense>, g: PeriodGroup, c: string)
    requires TotalsOfPeriod(rs, g)
    ensures GroupKey(g.id.month, g.id.year, c) in RecordKeys(rs) <==> c in Names(g.categories)
  {
    if GroupKey(g.id.month, g.id.year, c) in RecordKeys(rs) {
      var ct :| ct in g.categories && ct.category == c;
      var k :| 0 <= k < |g.categories| && g.categories[k] == ct;
    }
    if c in Names(g.categories) {
      var k :| 0 <= k < |g.categories| && g.categories[k].category == c;
      assert g.categories[k] in g.categories;
    }
  }

  lemma ChartValue(rs: seq<Expense>, g: PeriodGroup, c: string)
    requires TotalsOfPeriod(rs, g)
    requires c in RowOf(g).totals
    ensures RowOf(g).totals[c] == SumFor(rs, GroupKey(g.id.month, g.id.year, c))
  {
    RowContents(g);
    var key := GroupKey(g.id.month, g.id.year, c);
    NamedIffRecorded(rs, g, c);
    if key in RecordKeys(rs) {
      var ct :| ct in g.categories && ct.category == c;
    } else {
      SumForAbsentKey(rs, key);
    }
  }

  /** Chart rows come out in strictly increasing period order, so no label appears twice. */
  lemma ChartLabelsAreDistinct(rs: seq<Expense>)
    ensures var out := MonthlyCategoryTotals(rs);
      forall i, j :: 0 <= i < j < |out| ==> RowOf(out[i]).month != RowOf(out[j]).month
  {
    var out := MonthlyCategoryTotals(rs);
    ResultIsChronological(rs);
    forall i, j | 0 <= i < j < |out| ensures RowOf(out[i]).month != RowOf(out[j]).month {
      assert Earlier(out[i].id, out[j].id);
      MonthLabelDeterminesPeriod(out[i].id.month, out[i].id.year, out[j].id.month, out[j].id.year);
    }
  }
}
