/** The expense record as the storage layer holds it. */
module Expenses {
  import opened Calendar

  /**
   * One stored expense. The amount is an integer number of minor currency units so that
   * sums are exact; category and payment mode are free strings, as in the stored schema.
   */
  datatype Expense = Expense(
    id: nat,
    amount: int,
    category: string,
    notes: string,
    date: Date,
    paymentMode: string)
}
