/** Worked examples: three records run through the monthly aggregation and the chart reshape. */
module Scenarios {
  import opened Calendar
  import opened Expenses
  import opened Analytics
  import opened Chart
  import Sorting
  import opened Wrappers
  import Text
  import ExpenseQuery
  import Facets
  import UrlQuery

  function January5(): Expense { Expense(1, 500, "Rental", "", DateTime(2024, 1, 5, 0), "UPI") }
  function January20(): Expense { Expense(2, 300, "Groceries", "", DateTime(2024, 1, 20, 0), "Cash") }
  function February1(): Expense { Expense(3, 200, "Rental", "", DateTime(2024, 2, 1, 0), "UPI") }

  function ThreeRecords(): seq<Expense> { [January5(), January20(), February1()] }

  function JanuaryGroup(): PeriodGroup
  {
    PeriodGroup(Period(1, 2024), [CategoryTotal("Rental", 500), CategoryTotal("Groceries", 300)])
  }

  function FebruaryGroup(): PeriodGroup
  {
    PeriodGroup(Period(2, 2024), [CategoryTotal("Rental", 200)])
  }

  /** The first-stage documents of the three records. */
  function StageOneDocs(): seq<KeyTotal>
  {
    [ KeyTotal(GroupKey(1, 2024, "Rental"), 500),
      KeyTotal(GroupKey(1, 2024, "Groceries"), 300),
      KeyTotal(GroupKey(2, 2024, "Rental"), 200) ]
  }

  /** The first two records open two January documents. */
  lemma StageOneOfJanuary()
    ensures GroupByMonthYearCategory([January5(), January20()]) == StageOneDocs()[..2]
  {
    var a, b := January5(), January20();
    var ka := KeyTotal(KeyOf(a), 500);
    assert [a, b][..1] == [a];
    assert [a][..0] == [];
    assert GroupByMonthYearCategory([a]) == [ka];
    assert AddAmount([ka], KeyOf(b), 300) == [ka] + AddAmount([], KeyOf(b), 300);
  }

  /** The February record opens a third document after the two January ones. */
  lemma FebruaryAdd()
    ensures AddAmount(StageOneDocs()[..2], GroupKey(2, 2024, "Rental"), 200) == StageOneDocs()
  {
    var ka, kb := StageOneDocs()[0], StageOneDocs()[1];
    var k := GroupKey(2, 2024, "Rental");
    assert StageOneDocs()[..2] == [ka, kb];
    assert [ka, kb][1..] == [kb];
    assert [kb][1..] == [];
    assert AddAmount([kb], k, 200) == [kb] + AddAmount([], k, 200);
    assert AddAmount([ka, kb], k, 200) == [ka] + AddAmount([kb], k, 200);
  }

  /** The first stage: one document per (month, year, category), in order of first appearance. */
  lemma StageOneOfThreeRecords()
    ensures GroupByMonthYearCategory(ThreeRecords()) == StageOneDocs()
  {
    var rs := ThreeRecords();
    assert rs[..|rs| - 1] == [January5(), January20()];
    StageOneOfJanuary();
    FebruaryAdd();
    assert GroupByMonthYearCategory(rs) ==
      AddAmount(GroupByMonthYearCategory(rs[..|rs| - 1]), KeyOf(rs[|rs| - 1]), rs[|rs| - 1].amount);
  }

  /** The second stage on the two January documents alone. */
  lemma StageTwoOfJanuary()
    ensures GroupByMonthYear(StageOneDocs()[..2]) == [JanuaryGroup()]
  {
    var ka, kb := StageOneDocs()[0], StageOneDocs()[1];
    var jan := PeriodGroup(Period(1, 2024), [CategoryTotal("Rental", 500)]);
    assert GroupByMonthYear([ka]) == [jan] by {
      assert [ka][..0] == [];
    }
    assert [ka, kb][..1] == [ka];
    assert [jan][1..] == [];
    assert jan.categories + [CategoryTotal("Groceries", 300)] == JanuaryGroup().categories;
    assert PushFirst([jan], CategoryTotal("Groceries", 300)) == [JanuaryGroup()];
  }

  /** February's pair opens a second document after January's. */
  lemma FebruaryPush()
    ensures PushCategory([JanuaryGroup()], Period(2, 2024), CategoryTotal("Rental", 200)) == [JanuaryGroup(), FebruaryGroup()]
  {
    assert [JanuaryGroup()][1..] == [];
    assert PushCategory([JanuaryGroup()], Period(2, 2024), CategoryTotal("Rental", 200)) ==
      [JanuaryGroup()] + PushCategory([], Period(2, 2024), CategoryTotal("Rental", 200));
  }

  /** The second stage: January collects two pairs, February one. */
  lemma StageTwoOfThreeRecords()
    ensures GroupByMonthYear(GroupByMonthYearCategory(ThreeRecords())) == [JanuaryGroup(), FebruaryGroup()]
  {
    StageOneOfThreeRecords();
    StageTwoOfJanuary();
    FebruaryPush();
    var docs := StageOneDocs();
    assert docs[..|docs| - 1] == docs[..2];
    assert GroupByMonthYear(docs) ==
      PushCategory(GroupByMonthYear(docs[..2]), Period(2, 2024), CategoryTotal("Rental", 200));
  }

  /** The `$sort` stage keeps January before February. */
  lemma SortOfTwoPeriods()
    ensures Sorting.SortBy([JanuaryGroup(), FebruaryGroup()], PeriodIndex) == [JanuaryGroup(), FebruaryGroup()]
  {
    assert PeriodIndex(JanuaryGroup()) < PeriodIndex(FebruaryGroup());
    Sorting.SortBySorted([JanuaryGroup(), FebruaryGroup()], PeriodIndex);
  }

  /** The whole pipeline: January 2024 before February 2024. */
  lemma MonthlyTotalsOfThreeRecords()
    ensures MonthlyCategoryTotals(ThreeRecords()) == [JanuaryGroup(), FebruaryGroup()]
  {
    StageTwoOfThreeRecords();
    SortOfTwoPeriods();
  }

  /** The label "1/2024". */
  lemma JanuaryLabel()
    ensures MonthLabel(1, 2024) == "1/2024"
  {
    assert Text.NatToString(2) == "2";
    assert Text.NatToString(20) == "20";
    assert Text.NatToString(202) == "202";
    assert Text.NatToString(2024) == "2024";
  }

  /** The label "2/2024". */
  lemma FebruaryLabel()
    ensures MonthLabel(2, 2024) == "2/2024"
  {
    assert Text.NatToString(2) == "2";
    assert Text.NatToString(20) == "20";
    assert Text.NatToString(202) == "202";
    assert Text.NatToString(2024) == "2024";
  }

  function JanuaryRow(): ChartRow
  {
    ChartRow("1/2024", map["Rental" := 500, "Groceries" := 300, "Entertainment" := 0, "Travel" := 0, "Others" := 0])
  }

  function FebruaryRow(): ChartRow
  {
    ChartRow("2/2024", map["Rental" := 200, "Groceries" := 0, "Entertainment" := 0, "Travel" := 0, "Others" := 0])
  }

  lemma JanuaryNames()
    ensures Names(JanuaryGroup().categories) == {"Rental", "Groceries"}
  {
    var cs := JanuaryGroup().categories;
    assert cs[..1] == [CategoryTotal("Rental", 500)];
    assert cs[..1][..0] == [];
  }

  lemma JanuaryTotals()
    ensures LastTotal(JanuaryGroup().categories, "Rental") == 500
    ensures LastTotal(JanuaryGroup().categories, "Groceries") == 300
  {
    var cs := JanuaryGroup().categories;
    assert cs[..1] == [CategoryTotal("Rental", 500)];
  }

  /** January's pairs copied, the three missing offered categories filled with 0. */
  lemma RowOfJanuary()
    ensures RowOf(JanuaryGroup()) == JanuaryRow()
  {
    JanuaryLabel();
    JanuaryNames();
    JanuaryTotals();
    var totals := RowOf(JanuaryGroup()).totals;
    assert totals.Keys == JanuaryRow().totals.Keys;
    assert totals["Rental"] == 500 && totals["Groceries"] == 300;
  }

  lemma FebruaryNames()
    ensures Names(FebruaryGroup().categories) == {"Rental"}
  {
    assert FebruaryGroup().categories[..0] == [];
  }

  /** February's one pair copied, the four missing offered categories filled with 0. */
  lemma RowOfFebruary()
    ensures RowOf(FebruaryGroup()) == FebruaryRow()
  {
    FebruaryLabel();
    FebruaryNames();
    var totals := RowOf(FebruaryGroup()).totals;
    assert totals.Keys == FebruaryRow().totals.Keys;
    assert totals["Rental"] == 200;
  }

  /**
   * The chart rows of the three records: January shows Rental 500 and Groceries 300,
   * February shows Rental 200, and every other offered category shows 0.
   */
  lemma ChartOfThreeRecords()
    ensures var out := MonthlyCategoryTotals(ThreeRecords());
      |out| == 2 && RowOf(out[0]) == JanuaryRow() && RowOf(out[1]) == FebruaryRow()
  {
    MonthlyTotalsOfThreeRecords();
    RowOfJanuary();
    RowOfFebruary();
  }

  /** The selection {all_time, [Rental], []} reaches the server as a single category clause. */
  lemma RentalSelectionFilter(now: Date)
    ensures var selection := Facets.Filters("all_time", ["Rental"], []);
      var url := UrlQuery.EncodeQuery(Facets.QueryParams(selection));
      ExpenseQuery.FilterFor(ExpenseQuery.RequestQuery(UrlQuery.ParseQuery(url)), now)
        == ExpenseQuery.Filter(Some(["Rental"]), None, None)
  {
    var selection := Facets.Filters("all_time", ["Rental"], []);
    assert Facets.PlainFilters(selection);
    Facets.SelectionReachesServer(selection, now);
  }

  /** The Rental clause keeps the first and the third record. */
  lemma RentalSelection()
    ensures ExpenseQuery.Select(ThreeRecords(), ExpenseQuery.Filter(Some(["Rental"]), None, None))
      == [January5(), February1()]
  {
    var filter := ExpenseQuery.Filter(Some(["Rental"]), None, None);
    var a, b, c := January5(), January20(), February1();
    assert [a, b, c][1..] == [b, c];
    assert [b, c][1..] == [c];
    assert [c][1..] == [];
    assert ExpenseQuery.Matches(filter, a) && ExpenseQuery.Matches(filter, c);
    assert "Groceries" != "Rental";
    assert !ExpenseQuery.Matches(filter, b);
    assert ExpenseQuery.Select([c], filter) == [c];
    assert ExpenseQuery.Select([b, c], filter) == [c];
  }

  /** Newest first puts 1 February 2024 before 5 January 2024. */
  lemma RentalOrder()
    ensures Sorting.SortBy([January5(), February1()], ExpenseQuery.NewestFirst) == [February1(), January5()]
  {
    var a, c := January5(), February1();
    assert ExpenseQuery.NewestFirst(c) < ExpenseQuery.NewestFirst(a);
    assert [a, c][1..] == [c];
    assert [c][1..] == [];
    assert Sorting.SortBy([c], ExpenseQuery.NewestFirst) == [c];
    assert Sorting.Insert(a, [c], ExpenseQuery.NewestFirst) == [c, a];
  }

  /** The Rental clause lists the two Rental records, February first. */
  lemma RentalListing()
    ensures ExpenseQuery.Listing(ThreeRecords(), ExpenseQuery.Filter(Some(["Rental"]), None, None))
      == [February1(), January5()]
  {
    RentalSelection();
    RentalOrder();
  }

  /**
   * Checking only Rental with the range left at all_time lists the two Rental records, the
   * February one first, whatever the moment of the request.
   */
  lemma RentalListingOfThreeRecords(now: Date)
    ensures var selection := Facets.Filters("all_time", ["Rental"], []);
      var url := UrlQuery.EncodeQuery(Facets.QueryParams(selection));
      var filter := ExpenseQuery.FilterFor(ExpenseQuery.RequestQuery(UrlQuery.ParseQuery(url)), now);
      ExpenseQuery.Listing(ThreeRecords(), filter) == [February1(), January5()]
  {
    RentalSelectionFilter(now);
    RentalListing();
  }
}
