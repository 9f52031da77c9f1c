/** What several parts of the model share. */
module Basics {

  datatype Option<+T> = None | Some(value: T)

  /** A subset has fewer elements, or it is the whole set. */
  lemma SubsetSize<T>(a: set<T>, b: set<T>)
    requires a <= b
    ensures |a| <= |b| && (|a| == |b| ==> a == b)
  {
    assert b == a + (b - a);
    assert |a| == |b| ==> |b - a| == 0;
  }
}
