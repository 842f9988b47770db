/** The result types and the facts about sizes of sets that the components share. */
module Wrappers {
  datatype Option<+T> = None | Some(value: T)

  datatype Result<+T, +E> = Success(value: T) | Failure(error: E)

  function Max(a: int, b: int): int {
    if a >= b then a else b
  }

  function Min(a: int, b: int): int {
    if a <= b then a else b
  }

  /** How many members of `all` are not among `seen`. */
  ghost function Left<T>(all: set<T>, seen: set<T>): nat {
    |all - seen|
  }

  lemma OneFewer<T>(all: set<T>, seen: set<T>, x: T)
    requires x in all && x !in seen
    ensures Left(all, seen + {x}) < Left(all, seen)
  {
    assert all - seen == (all - (seen + {x})) + {x};
  }

  lemma FewerLeft<T>(all: set<T>, a: set<T>, b: set<T>)
    requires a <= b <= all
    ensures |a| <= |b| <= |all| && Left(all, b) <= Left(all, a)
    ensures a < b ==> |a| < |b| && Left(all, b) < Left(all, a)
  {
    Complement(all, a);
    Complement(all, b);
    Complement(b, a);
    assert a < b ==> b - a != {};
  }

  lemma Complement<T>(all: set<T>, a: set<T>)
    requires a <= all
    ensures |all| == |a| + Left(all, a)
  {
    assert all == a + (all - a);
  }
}
