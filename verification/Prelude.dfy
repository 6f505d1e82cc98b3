/** Small shared vocabulary: optional values, and the facts about finite sets used across modules. */
module Prelude {
  datatype Option<+T> = None | Some(value: T) {
    predicate IsFailure() {
      None?
    }

    function PropagateFailure<U>(): Option<U>
      requires None?
    {
      None
    }

    function Extract(): T
      requires Some?
    {
      value
    }
  }

  datatype Result<+T, +E> = Ok(value: T) | Err(error: E)

  /** A subset is no larger than the set that holds it. */
  lemma {:induction false} SubsetSize<T>(a: set<T>, b: set<T>)
    requires a <= b
    ensures |a| <= |b|
  {
    if a != {} {
      var x :| x in a;
      SubsetSize(a - {x}, b - {x});
    }
  }

  /** A set whose members are pairwise told apart by `key`, with every key below `n`, has at most `n` members. */
  lemma {:induction false} DistinctKeysBound<T(!new)>(s: set<T>, key: T -> nat, n: nat)
    requires forall x <- s :: key(x) < n
    requires forall x <- s, y <- s :: key(x) == key(y) ==> x == y
    ensures |s| <= n
  {
    if n == 0 {
      assert s == {};
    } else if exists x :: x in s && key(x) == n - 1 {
      var x :| x in s && key(x) == n - 1;
      DistinctKeysBound(s - {x}, key, n - 1);
    } else {
      DistinctKeysBound(s, key, n - 1);
    }
  }
}
