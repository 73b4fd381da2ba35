/** What several modules need. */
module Prelude {

  datatype Option<+T> = None | Some(value: T)

  /** A run that either produces a value or stops the program with an exit status. */
  datatype Outcome<+T> = Done(value: T) | Exit(status: Status)

  /** `ReturnOne` is `return 1`; `Terminated` is an exception nobody catches. */
  datatype Status = ReturnOne | Terminated

  predicate Distinct<T(==)>(s: seq<T>) {
    forall j, k | 0 <= j < k < |s| :: s[j] != s[k]
  }
}
