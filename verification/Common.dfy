/** What several modules need. */
module Common {
  datatype Option<+T> = None | Some(value: T)

  /** No item occurs twice. */
  ghost predicate Distinct<T>(s: seq<T>) {
    forall i, j :: 0 <= i < j < |s| ==> s[i] != s[j]
  }
}
