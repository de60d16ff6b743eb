/**
 * The server's analytics pipeline over all stored records: a `$group` by (month, year,
 * category) summing `amount`, a second `$group` by (month, year) pushing the
 * (category, total) pairs, and a `$sort` ascending by year, then month.
 */
module Analytics {
  import opened Calendar
  import opened Expenses
  import Sorting
  import Sums

  /** `_id` of a first-stage document: `{ month: { $month: date }, year: { $year: date }, category }`. */
  datatype GroupKey = GroupKey(month: int, year: int, category: string)

  /** A first-stage document: `{ _id, total }`. */
  datatype KeyTotal = KeyTotal(id: GroupKey, total: int)

  /** `_id` of a second-stage document: `{ month, year }`. */
  datatype Period = Period(month: int, year: int)

  /** One element of a second-stage `categories` array: `{ category, total }`. */
  datatype CategoryTotal = CategoryTotal(category: string, total: int)

  /** A second-stage document: `{ _id: { month, year }, categories: [...] }`. */
  datatype PeriodGroup = PeriodGroup(id: Period, categories: seq<CategoryTotal>)

  function KeyOf(e: Expense): GroupKey
  {
    GroupKey(e.date.month, e.date.year, e.category)
  }

  function PeriodOf(k: GroupKey): Period
  {
    Period(k.month, k.year)
  }

  // ---------------------------------------------------------------------------------------
  // Reference quantities over the records

  /** The sum of `amount` over the records whose group key is k. */
  function SumFor(rs: seq<Expense>, k: GroupKey): int
    decreases |rs|
  {
    if rs == [] then 0
    else SumFor(rs[..|rs| - 1], k) + (if KeyOf(rs[|rs| - 1]) == k then rs[|rs| - 1].amount else 0)
  }

  function Amount(e: Expense): int
  {
    e.amount
  }

  /** The sum of `amount` over all records. */
  function SumAll(rs: seq<Expense>): int
  {
    Sums.SumBy(rs, Amount)
  }

  function RecordKeys(rs: seq<Expense>): set<GroupKey>
  {
    set e | e in rs :: KeyOf(e)
  }

  function RecordPeriods(rs: seq<Expense>): set<Period>
  {
    set e | e in rs :: Period(e.date.month, e.date.year)
  }

  /** Records with none of a key contribute nothing to its sum. */
  lemma {:induction false} SumForAbsentKey(rs: seq<Expense>, k: GroupKey)
    requires k !in RecordKeys(rs)
    ensures SumFor(rs, k) == 0
    decreases |rs|
  {
    if rs != [] {
      var init := rs[..|rs| - 1];
      assert forall e :: e in init ==> e in rs;
      assert rs[|rs| - 1] in rs;
      SumForAbsentKey(init, k);
    }
  }

  // ---------------------------------------------------------------------------------------
  // Stage 1: group by (month, year, category), sum amount

  function Keys(gs: seq<KeyTotal>): set<GroupKey>
  {
    set g | g in gs :: g.id
  }

  lemma KeysCons(g: KeyTotal, gs: seq<KeyTotal>)
    ensures Keys([g] + gs) == {g.id} + Keys(gs)
  {
    assert forall x :: x in [g] + gs <==> x == g || x in gs;
  }

  predicate DistinctKeys(gs: seq<KeyTotal>)
  {
    forall i, j :: 0 <= i < j < |gs| ==> gs[i].id != gs[j].id
  }

  /** The total of the documents with key k (at most one once keys are distinct). */
  function TotalFor(gs: seq<KeyTotal>, k: GroupKey): int
  {
    if gs == [] then 0 else (if gs[0].id == k then gs[0].total else 0) + TotalFor(gs[1..], k)
  }

  function Total(g: KeyTotal): int
  {
    g.total
  }

  /** Adds one record's amount to the document for its key, creating the document when the key is new. */
  function AddAmount(gs: seq<KeyTotal>, k: GroupKey, amount: int): (r: seq<KeyTotal>)
    ensures Keys(r) == Keys(gs) + {k}
    ensures DistinctKeys(gs) ==> DistinctKeys(r)
    ensures forall k' :: TotalFor(r, k') == TotalFor(gs, k') + (if k' == k then amount else 0)
    ensures Sums.SumBy(r, Total) == Sums.SumBy(gs, Total) + amount
    decreases |gs|, 1
  {
    if gs == [] then [KeyTotal(k, amount)]
    else if gs[0].id == k then AddToFirst(gs, amount)
    else AddLater(gs, k, amount)
  }

  /** AddAmount when the first document has the record's key. */
  function AddToFirst(gs: seq<KeyTotal>, amount: int): (r: seq<KeyTotal>)
    requires gs != []
    ensures Keys(r) == Keys(gs)
    ensures DistinctKeys(gs) ==> DistinctKeys(r)
    ensures forall k' :: TotalFor(r, k') == TotalFor(gs, k') + (if k' == gs[0].id then amount else 0)
    ensures Sums.SumBy(r, Total) == Sums.SumBy(gs, Total) + amount
  {
    var g := KeyTotal(gs[0].id, gs[0].total + amount);
    assert gs == [gs[0]] + gs[1..];
    KeysCons(gs[0], gs[1..]);
    KeysCons(g, gs[1..]);
    assert ([g] + gs[1..])[1..] == gs[1..];
    [g] + gs[1..]
  }

  /** AddAmount when the first document has another key. */
  function AddLater(gs: seq<KeyTotal>, k: GroupKey, amount: int): (r: seq<KeyTotal>)
    requires gs != [] && gs[0].id != k
    ensures Keys(r) == Keys(gs) + {k}
    ensures DistinctKeys(gs) ==> DistinctKeys(r)
    ensures forall k' :: TotalFor(r, k') == TotalFor(gs, k') + (if k' == k then amount else 0)
    ensures Sums.SumBy(r, Total) == Sums.SumBy(gs, Total) + amount
    decreases |gs|, 0
  {
    var rest := AddAmount(gs[1..], k, amount);
    assert gs == [gs[0]] + gs[1..];
    KeysCons(gs[0], rest);
    KeysCons(gs[0], gs[1..]);
    KeepsDistinctKeys(gs, rest, k);
    assert ([gs[0]] + rest)[1..] == rest;
    [gs[0]] + rest
  }

  /** Replacing the tail of a key-distinct sequence by one that adds only a key other than the head's keeps keys distinct. */
  lemma KeepsDistinctKeys(gs: seq<KeyTotal>, rest: seq<KeyTotal>, k: GroupKey)
    requires gs != [] && gs[0].id != k
    requires Keys(rest) == Keys(gs[1..]) + {k}
    requires DistinctKeys(gs[1..]) ==> DistinctKeys(rest)
    ensures DistinctKeys(gs) ==> DistinctKeys([gs[0]] + rest)
  {
    if DistinctKeys(gs) {
      assert DistinctKeys(gs[1..]) by {
        forall i, j | 0 <= i < j < |gs[1..]| ensures gs[1..][i].id != gs[1..][j].id {
          assert gs[1..][i] == gs[i + 1] && gs[1..][j] == gs[j + 1];
        }
      }
      assert gs[0].id !in Keys(gs[1..]) by {
        forall g | g in gs[1..] ensures g.id != gs[0].id {
          var j :| 0 <= j < |gs[1..]| && gs[1..][j] == g;
          assert gs[j + 1] == g;
        }
      }
      var r := [gs[0]] + rest;
      forall i, j | 0 <= i < j < |r| ensures r[i].id != r[j].id {
        if i == 0 {
          assert r[j] == rest[j - 1];
          assert rest[j - 1].id in Keys(rest);
        } else {
          assert r[i] == rest[i - 1] && r[j] == rest[j - 1];
        }
      }
    }
  }

  /** The first `$group` stage: one document per (month, year, category) that occurs, with its sum. */
  function GroupByMonthYearCategory(rs: seq<Expense>): (gs: seq<KeyTotal>)
    ensures DistinctKeys(gs)
    ensures Keys(gs) == RecordKeys(rs)
    ensures forall k :: TotalFor(gs, k) == SumFor(rs, k)
    ensures Sums.SumBy(gs, Total) == SumAll(rs)
    decreases |rs|
  {
    if rs == [] then []
    else
      var init, last := rs[..|rs| - 1], rs[|rs| - 1];
      assert rs == init + [last];
      assert RecordKeys(rs) == RecordKeys(init) + {KeyOf(last)} by {
        assert forall e :: e in rs <==> e in init || e == last;
      }
      Sums.SumBySnoc(init, last, Amount);
      AddAmount(GroupByMonthYearCategory(init), KeyOf(last), last.amount)
  }

  /** With distinct keys, the total of a key is the total its one document carries. */
  lemma {:induction false} TotalForMember(gs: seq<KeyTotal>, i: nat)
    requires DistinctKeys(gs)
    requires i < |gs|
    ensures TotalFor(gs, gs[i].id) == gs[i].total
    decreases |gs|
  {
    if i == 0 {
      TotalForAbsent(gs[1..], gs[0].id);
    } else {
      TotalForMember(gs[1..], i - 1);
    }
  }

  lemma {:induction false} TotalForAbsent(gs: seq<KeyTotal>, k: GroupKey)
    requires forall j :: 0 <= j < |gs| ==> gs[j].id != k
    ensures TotalFor(gs, k) == 0
    decreases |gs|
  {
    if gs != [] {
      TotalForAbsent(gs[1..], k);
    }
  }

  /** Every first-stage total is the sum of `amount` over exactly the records of its group. */
  lemma FirstStageTotals(rs: seq<Expense>)
    ensures var gs := GroupByMonthYearCategory(rs);
      forall i :: 0 <= i < |gs| ==> gs[i].total == SumFor(rs, gs[i].id)
  {
    var gs := GroupByMonthYearCategory(rs);
    forall i | 0 <= i < |gs| ensures gs[i].total == SumFor(rs, gs[i].id) {
      TotalForMember(gs, i);
    }
  }

  // ---------------------------------------------------------------------------------------
  // Stage 2: group by (month, year), push (category, total)

  function Periods(ps: seq<PeriodGroup>): set<Period>
  {
    set g | g in ps :: g.id
  }

  lemma PeriodsCons(g: PeriodGroup, ps: seq<PeriodGroup>)
    ensures Periods([g] + ps) == {g.id} + Periods(ps)
  {
    assert forall x :: x in [g] + ps <==> x == g || x in ps;
  }

  predicate DistinctPeriods(ps: seq<PeriodGroup>)
  {
    forall i, j :: 0 <= i < j < |ps| ==> ps[i].id != ps[j].id
  }

  predicate DistinctCategories(cs: seq<CategoryTotal>)
  {
    forall i, j :: 0 <= i < j < |cs| ==> cs[i].category != cs[j].category
  }

  /** The categories of the first document for period p; none when p has no document. */
  function CategoriesOf(ps: seq<PeriodGroup>, p: Period): seq<CategoryTotal>
  {
    if ps == [] then [] else if ps[0].id == p then ps[0].categories else CategoriesOf(ps[1..], p)
  }

  function PairTotal(ct: CategoryTotal): int
  {
    ct.total
  }

  /** The sum of the totals a period document lists. */
  function GroupSum(g: PeriodGroup): int
  {
    Sums.SumBy(g.categories, PairTotal)
  }

  /** The stage-1 pairs of period p, in stage-1 order. */
  function PairsFor(gs: seq<KeyTotal>, p: Period): (r: seq<CategoryTotal>)
    ensures forall ct :: ct in r <==> KeyTotal(GroupKey(p.month, p.year, ct.category), ct.total) in gs
    decreases |gs|
  {
    if gs == [] then []
    else
      var init, last := gs[..|gs| - 1], gs[|gs| - 1];
      assert gs == init + [last];
      PairsFor(init, p) + (if PeriodOf(last.id) == p then [CategoryTotal(last.id.category, last.total)] else [])
  }

  /** Pushes one pair onto the document of period p, creating the document when p is new. */
  function PushCategory(ps: seq<PeriodGroup>, p: Period, ct: CategoryTotal): (r: seq<PeriodGroup>)
    ensures Periods(r) == Periods(ps) + {p}
    ensures DistinctPeriods(ps) ==> DistinctPeriods(r)
    ensures forall p' :: CategoriesOf(r, p') == CategoriesOf(ps, p') + (if p' == p then [ct] else [])
    ensures Sums.SumBy(r, GroupSum) == Sums.SumBy(ps, GroupSum) + ct.total
    decreases |ps|, 1
  {
    if ps == [] then
      assert Sums.SumBy([ct], PairTotal) == ct.total by {
        Sums.SumBySnoc([], ct, PairTotal);
      }
      [PeriodGroup(p, [ct])]
    else if ps[0].id == p then
      PushFirst(ps, ct)
    else
      PushLater(ps, p, ct)
  }

  /** PushCategory when the first document is the one of the pushed period. */
  function PushFirst(ps: seq<PeriodGroup>, ct: CategoryTotal): (r: seq<PeriodGroup>)
    requires ps != []
    ensures Periods(r) == Periods(ps)
    ensures DistinctPeriods(ps) ==> DistinctPeriods(r)
    ensures forall p' :: CategoriesOf(r, p') == CategoriesOf(ps, p') + (if p' == ps[0].id then [ct] else [])
    ensures Sums.SumBy(r, GroupSum) == Sums.SumBy(ps, GroupSum) + ct.total
  {
    var g := ps[0].(categories := ps[0].categories + [ct]);
    assert ps == [ps[0]] + ps[1..];
    assert (ps[0].categories + [ct])[..|ps[0].categories|] == ps[0].categories;
    PeriodsCons(ps[0], ps[1..]);
    PeriodsCons(g, ps[1..]);
    Sums.SumBySnoc(ps[0].categories, ct, PairTotal);
    [g] + ps[1..]
  }

  /** PushCategory when the first document belongs to another period. */
  function PushLater(ps: seq<PeriodGroup>, p: Period, ct: CategoryTotal): (r: seq<PeriodGroup>)
    requires ps != [] && ps[0].id != p
    ensures Periods(r) == Periods(ps) + {p}
    ensures DistinctPeriods(ps) ==> DistinctPeriods(r)
    ensures forall p' :: CategoriesOf(r, p') == CategoriesOf(ps, p') + (if p' == p then [ct] else [])
    ensures Sums.SumBy(r, GroupSum) == Sums.SumBy(ps, GroupSum) + ct.total
    decreases |ps|, 0
  {
    var rest := PushCategory(ps[1..], p, ct);
    assert ps == [ps[0]] + ps[1..];
    PeriodsCons(ps[0], ps[1..]);
    PeriodsCons(ps[0], rest);
    KeepsDistinctPeriods(ps, rest, p);
    assert ([ps[0]] + rest)[1..] == rest;
    [ps[0]] + rest
  }

  /** Replacing the tail of a period-distinct sequence by one that adds only a period other than the head's keeps periods distinct. */
  lemma KeepsDistinctPeriods(ps: seq<PeriodGroup>, rest: seq<PeriodGroup>, p: Period)
    requires ps != [] && ps[0].id != p
    requires Periods(rest) == Periods(ps[1..]) + {p}
    requires DistinctPeriods(ps[1..]) ==> DistinctPeriods(rest)
    ensures DistinctPeriods(ps) ==> DistinctPeriods([ps[0]] + rest)
  {
    if DistinctPeriods(ps) {
      assert DistinctPeriods(ps[1..]) by {
        forall i, j | 0 <= i < j < |ps[1..]| ensures ps[1..][i].id != ps[1..][j].id {
          assert ps[1..][i] == ps[i + 1] && ps[1..][j] == ps[j + 1];
        }
      }
      assert ps[0].id !in Periods(ps[1..]) by {
        forall g | g in ps[1..] ensures g.id != ps[0].id {
          var j :| 0 <= j < |ps[1..]| && ps[1..][j] == g;
          assert ps[j + 1] == g;
        }
      }
      var r := [ps[0]] + rest;
      forall i, j | 0 <= i < j < |r| ensures r[i].id != r[j].id {
        if i == 0 {
          assert r[j] == rest[j - 1];
          assert rest[j - 1].id in Periods(rest);
        } else {
          assert r[i] == rest[i - 1] && r[j] == rest[j - 1];
        }
      }
    }
  }

  /** The second `$group` stage: one document per (month, year), holding that period's stage-1 pairs. */
  function GroupByMonthYear(gs: seq<KeyTotal>): (ps: seq<PeriodGroup>)
    ensures DistinctPeriods(ps)
    ensures Periods(ps) == set g | g in gs :: PeriodOf(g.id)
    ensures forall p :: CategoriesOf(ps, p) == PairsFor(gs, p)
    ensures Sums.SumBy(ps, GroupSum) == Sums.SumBy(gs, Total)
    decreases |gs|
  {
    if gs == [] then []
    else
      var init, last := gs[..|gs| - 1], gs[|gs| - 1];
      assert gs == init + [last];
      assert (set g | g in gs :: PeriodOf(g.id)) == (set g | g in init :: PeriodOf(g.id)) + {PeriodOf(last.id)} by {
        assert forall g :: g in gs <==> g in init || g == last;
      }
      Sums.SumByAppend(init, [last], Total);
      PushCategory(GroupByMonthYear(init), PeriodOf(last.id), CategoryTotal(last.id.category, last.total))
  }

  /** With distinct periods, a document's categories are the ones CategoriesOf finds for its period. */
  lemma {:induction false} CategoriesOfMember(ps: seq<PeriodGroup>, g: PeriodGroup)
    requires DistinctPeriods(ps)
    requires g in ps
    ensures CategoriesOf(ps, g.id) == g.categories
    decreases |ps|
  {
    if ps[0] != g {
      assert g in ps[1..];
      var j :| 0 <= j < |ps[1..]| && ps[1..][j] == g;
      assert ps[j + 1] == g;
      CategoriesOfMember(ps[1..], g);
    }
  }

  /** Distinct stage-1 keys give each period a list of distinct categories. */
  lemma PairsForDistinct(gs: seq<KeyTotal>, p: Period)
    requires DistinctKeys(gs)
    ensures DistinctCategories(PairsFor(gs, p))
  {
    var cs := PairsFor(gs, p);
    forall i, j | 0 <= i < j < |cs| ensures cs[i].category != cs[j].category {
      var a, b := cs[i], cs[j];
      assert a in cs && b in cs;
      var ka, kb := KeyTotal(GroupKey(p.month, p.year, a.category), a.total), KeyTotal(GroupKey(p.month, p.year, b.category), b.total);
      assert ka in gs && kb in gs;
      if a.category == b.category {
        PairsForSameKey(gs, p, i, j);
      }
    }
  }

  /** Two entries of a period's pair list never come from the same stage-1 document key. */
  lemma {:induction false} PairsForSameKey(gs: seq<KeyTotal>, p: Period, i: nat, j: nat)
    requires DistinctKeys(gs)
    requires i < j < |PairsFor(gs, p)|
    ensures PairsFor(gs, p)[i].category != PairsFor(gs, p)[j].category
    decreases |gs|
  {
    var init, last := gs[..|gs| - 1], gs[|gs| - 1];
    var prev := PairsFor(init, p);
    assert DistinctKeys(init) by {
      forall a, b | 0 <= a < b < |init| ensures init[a].id != init[b].id {
        assert init[a] == gs[a] && init[b] == gs[b];
      }
    }
    if j < |prev| {
      PairsForSameKey(init, p, i, j);
    } else {
      var c := PairsFor(gs, p)[i];
      assert c == prev[i];
      assert c in prev;
      var kc := KeyTotal(GroupKey(p.month, p.year, c.category), c.total);
      assert kc in init;
      var m :| 0 <= m < |init| && init[m] == kc;
      assert gs[m] == kc;
      assert PeriodOf(last.id) == p;
      assert gs[m].id != last.id;
    }
  }

  // ---------------------------------------------------------------------------------------
  // Stage 3: sort ascending by (year, month), and the whole pipeline

  /** Months counted from year 0: ascending in this index is ascending by year, then month. */
  function PeriodIndex(g: PeriodGroup): int
  {
    g.id.year * 12 + g.id.month
  }

  /** (y1, m1) comes strictly before (y2, m2). */
  predicate Earlier(a: Period, b: Period)
  {
    a.year < b.year || (a.year == b.year && a.month < b.month)
  }

  /** The analytics route's result: the two `$group` stages followed by the `$sort` stage. */
  function MonthlyCategoryTotals(rs: seq<Expense>): (out: seq<PeriodGroup>)
  {
    Sorting.SortBy(GroupByMonthYear(GroupByMonthYearCategory(rs)), PeriodIndex)
  }

  /** No records, no periods. */
  lemma EmptyRecordsGiveNoPeriods()
    ensures MonthlyCategoryTotals([]) == []
  {
  }

  /** The periods of the result are exactly the (month, year) pairs of the records. */
  lemma ResultPeriods(rs: seq<Expense>)
    ensures Periods(MonthlyCategoryTotals(rs)) == RecordPeriods(rs)
  {
    var gs := GroupByMonthYearCategory(rs);
    var ps := GroupByMonthYear(gs);
    var out := MonthlyCategoryTotals(rs);
    assert forall g :: g in out <==> g in ps by {
      assert forall g :: g in out <==> g in multiset(out);
    }
    assert Periods(out) == Periods(ps);
    forall p | p in RecordPeriods(rs) ensures p in Periods(ps) {
      var e :| e in rs && Period(e.date.month, e.date.year) == p;
      assert KeyOf(e) in RecordKeys(rs);
      var g :| g in gs && g.id == KeyOf(e);
      assert PeriodOf(g.id) == p;
    }
    forall p | p in Periods(ps) ensures p in RecordPeriods(rs) {
      var g :| g in gs && PeriodOf(g.id) == p;
      assert g.id in Keys(gs);
      var e :| e in rs && KeyOf(e) == g.id;
    }
  }

  /** Every second-stage document is for a real month, 1 to 12. */
  lemma SecondStageMonths(rs: seq<Expense>)
    ensures forall g :: g in GroupByMonthYear(GroupByMonthYearCategory(rs)) ==> 1 <= g.id.month <= 12
  {
    var gs := GroupByMonthYearCategory(rs);
    var ps := GroupByMonthYear(gs);
    forall g | g in ps ensures 1 <= g.id.month <= 12 {
      assert g.id in Periods(ps);
      var d :| d in gs && PeriodOf(d.id) == g.id;
      assert d.id in Keys(gs);
      var e :| e in rs && KeyOf(e) == d.id;
    }
  }

  /** Distinct periods in real months have distinct indices. */
  lemma DistinctPeriodIndices(ps: seq<PeriodGroup>)
    requires DistinctPeriods(ps)
    requires forall g :: g in ps ==> 1 <= g.id.month <= 12
    ensures Sorting.DistinctBy(ps, PeriodIndex)
  {
    forall i, j | 0 <= i < j < |ps| ensures PeriodIndex(ps[i]) != PeriodIndex(ps[j]) {
      assert ps[i] in ps && ps[j] in ps;
      assert ps[i].id != ps[j].id;
    }
  }

  /** Output periods are strictly increasing by year, then month: sorted, and no period twice. */
  lemma ResultIsChronological(rs: seq<Expense>)
    ensures var out := MonthlyCategoryTotals(rs);
      forall i, j :: 0 <= i < j < |out| ==> Earlier(out[i].id, out[j].id)
  {
    var ps := GroupByMonthYear(GroupByMonthYearCategory(rs));
    var out := MonthlyCategoryTotals(rs);
    SecondStageMonths(rs);
    DistinctPeriodIndices(ps);
    assert Sorting.StrictlySortedBy(out, PeriodIndex);
    forall i, j | 0 <= i < j < |out| ensures Earlier(out[i].id, out[j].id) {
      assert out[i] in multiset(ps) && out[j] in multiset(ps);
      assert PeriodIndex(out[i]) < PeriodIndex(out[j]);
    }
  }

  /**
   * Within every output period, categories are distinct, a category appears exactly when some
   * record of that period has it, and its total is the sum of `amount` over those records.
   */
  lemma ResultTotals(rs: seq<Expense>, i: nat)
    requires i < |MonthlyCategoryTotals(rs)|
    ensures var g := MonthlyCategoryTotals(rs)[i];
      && DistinctCategories(g.categories)
      && (forall ct :: ct in g.categories ==> ct.total == SumFor(rs, GroupKey(g.id.month, g.id.year, ct.category)))
      && (forall c :: (exists ct :: ct in g.categories && ct.category == c) <==>
            GroupKey(g.id.month, g.id.year, c) in RecordKeys(rs))
  {
    var gs := GroupByMonthYearCategory(rs);
    var ps := GroupByMonthYear(gs);
    var g := MonthlyCategoryTotals(rs)[i];
    assert g in ps by {
      assert g in multiset(MonthlyCategoryTotals(rs));
    }
    CategoriesOfMember(ps, g);
    assert g.categories == PairsFor(gs, g.id);
    PairsForDistinct(gs, g.id);
    forall ct | ct in g.categories
      ensures ct.total == SumFor(rs, GroupKey(g.id.month, g.id.year, ct.category))
    {
      var k := KeyTotal(GroupKey(g.id.month, g.id.year, ct.category), ct.total);
      var m :| 0 <= m < |gs| && gs[m] == k;
      TotalForMember(gs, m);
    }
    forall c ensures (exists ct :: ct in g.categories && ct.category == c) <==>
        GroupKey(g.id.month, g.id.year, c) in RecordKeys(rs)
    {
      var key := GroupKey(g.id.month, g.id.year, c);
      if key in RecordKeys(rs) {
        var d :| d in gs && d.id == key;
        assert CategoryTotal(c, d.total) in g.categories;
      }
      if exists ct :: ct in g.categories && ct.category == c {
        var ct :| ct in g.categories && ct.category == c;
        assert KeyTotal(key, ct.total) in gs;
        assert key in Keys(gs);
      }
    }
  }

  /** Summing every pushed total over every period gives the sum of all amounts. */
  lemma GrandTotal(rs: seq<Expense>)
    ensures Sums.SumBy(MonthlyCategoryTotals(rs), GroupSum) == SumAll(rs)
  {
    var ps := GroupByMonthYear(GroupByMonthYearCategory(rs));
    Sums.SumByPermutation(MonthlyCategoryTotals(rs), ps, GroupSum);
  }
}
