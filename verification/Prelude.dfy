/** Small shared vocabulary: optional values and members of a set. */
module Prelude {
  datatype Option<+T> = None | Some(value: T)

  lemma SubsetCount<T>(a: set<T>, b: set<T>)
    requires a <= b
    ensures |a| <= |b|
  {
    assert b == a + (b - a);
  }

  /** A set with at least two members has one besides any given value. */
  lemma AnotherMember<T>(s: set<T>, x: T) returns (y: T)
    requires |s| >= 2
    ensures y in s && y != x
  {
    assert |s - {x}| >= 1;
    y :| y in s - {x};
  }
}
