/**
 * The fixed facet enumerations the client offers: expense categories, payment modes and
 * date ranges. The server's filter builder and the chart reshape depend on the same values.
 */
module Catalog {

  const CategoryOptions: seq<string> := ["Rental", "Groceries", "Entertainment", "Travel", "Others"]

  const PaymentModes: seq<string> := ["UPI", "Credit Card", "Net Banking", "Cash"]

  datatype DateRangeOption = DateRangeOption(caption: string, value: string)

  const DateRanges: seq<DateRangeOption> := [
    DateRangeOption("This Month", "this_month"),
    DateRangeOption("Last 30 Days", "last_30_days"),
    DateRangeOption("Last 90 Days", "last_90_days"),
    DateRangeOption("All Time", "all_time")
  ]

  /** The date-range value meaning "no date restriction"; the client leaves it out of the query string. */
  const AllTime := "all_time"

  function CategorySet(): (r: set<string>)
    ensures forall c :: c in r <==> c in CategoryOptions
  {
    set c | c in CategoryOptions
  }

  /** A facet value the client can put in a comma-separated query parameter as it is. */
  predicate PlainValue(v: string)
  {
    v != "" && ',' !in v && '&' !in v
  }

  /** Every category, payment mode and date-range value offered is a plain value, and no value is offered twice. */
  lemma OfferedValuesArePlain()
    ensures forall i :: 0 <= i < |CategoryOptions| ==> PlainValue(CategoryOptions[i])
    ensures forall i :: 0 <= i < |PaymentModes| ==> PlainValue(PaymentModes[i])
    ensures forall i, j :: 0 <= i < j < |CategoryOptions| ==> CategoryOptions[i] != CategoryOptions[j]
    ensures forall i, j :: 0 <= i < j < |PaymentModes| ==> PaymentModes[i] != PaymentModes[j]
    ensures forall i :: 0 <= i < |DateRanges| ==> PlainValue(DateRanges[i].value)
    ensures forall i, j :: 0 <= i < j < |DateRanges| ==> DateRanges[i].value != DateRanges[j].value
  {
    CategoriesArePlain();
    PaymentModesArePlain();
    DateRangeValuesArePlain();
  }

  lemma CategoriesArePlain()
    ensures forall i :: 0 <= i < |CategoryOptions| ==> PlainValue(CategoryOptions[i])
    ensures forall i, j :: 0 <= i < j < |CategoryOptions| ==> CategoryOptions[i] != CategoryOptions[j]
  {
  }

  lemma PaymentModesArePlain()
    ensures forall i :: 0 <= i < |PaymentModes| ==> PlainValue(PaymentModes[i])
    ensures forall i, j :: 0 <= i < j < |PaymentModes| ==> PaymentModes[i] != PaymentModes[j]
  {
  }

  lemma DateRangeValuesArePlain()
    ensures forall i :: 0 <= i < |DateRanges| ==> PlainValue(DateRanges[i].value)
    ensures forall i, j :: 0 <= i < j < |DateRanges| ==> DateRanges[i].value != DateRanges[j].value
  {
    DateRangeValuesPlain();
    DateRangeValuesDistinct();
  }

  lemma DateRangeValuesPlain()
    ensures forall i :: 0 <= i < |DateRanges| ==> PlainValue(DateRanges[i].value)
  {
  }

  lemma DateRangeValuesDistinct()
    ensures forall i, j :: 0 <= i < j < |DateRanges| ==> DateRanges[i].value != DateRanges[j].value
  {
  }
}
