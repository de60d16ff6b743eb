/** The optional-value datatype used for absent query parameters and absent filter clauses. */
module Wrappers {

  datatype Option<+T> = None | Some(value: T)

}
