// The Option type used wherever the Go code tests a pointer, or an `ok` flag, for absence.
module Wrappers {
  datatype Option<+T> = None | Some(value: T)

  ghost predicate AnyNone<T>(xs: seq<Option<T>>) {
    exists k :: 0 <= k < |xs| && xs[k].None?
  }

  function Values<T>(xs: seq<Option<T>>): seq<T>
    requires forall k :: 0 <= k < |xs| ==> xs[k].Some?
  {
    seq(|xs|, k requires 0 <= k < |xs| => xs[k].value)
  }

  ghost predicate Distinct<T>(xs: seq<T>) {
    forall j, k :: 0 <= j < k < |xs| ==> xs[j] != xs[k]
  }
}
