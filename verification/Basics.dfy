/** What several of the models share. */
module Basics {
  datatype Option<+T> = None | Some(value: T)

  /** Concatenation associates, and the empty sequence adds nothing at the end. */
  lemma Regroup<T>(a: seq<T>, b: seq<T>, c: seq<T>)
    ensures a + (b + c) == (a + b) + c && a + [] == a
  {
  }
}
