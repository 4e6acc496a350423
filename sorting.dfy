/** `sorted(set(xs))`: the distinct elements of a sequence in ascending order,
    for any strict total order `lt` (Python's `<` on the element type). */
module Sorting {
  import Strings

  ghost predicate StrictTotalOrder<T(!new)>(lt: (T, T) -> bool) {
    && (forall x :: !lt(x, x))
    && (forall x, y, z :: lt(x, y) && lt(y, z) ==> lt(x, z))
    && (forall x, y :: x != y ==> lt(x, y) || lt(y, x))
  }

  /** Every element is below every later one, so there are no repeats either. */
  ghost predicate StrictlySorted<T>(lt: (T, T) -> bool, s: seq<T>) {
    forall i, j | 0 <= i < j < |s| :: lt(s[i], s[j])
  }

  /** Insert `x` into a strictly sorted sequence unless it is already there. */
  function Insert<T(==,!new)>(lt: (T, T) -> bool, x: T, s: seq<T>): (r: seq<T>)
    requires StrictTotalOrder(lt) && StrictlySorted(lt, s)
    ensures StrictlySorted(lt, r)
    ensures forall y :: y in r <==> y == x || y in s
  {
    if s == [] then [x]
    else if x == s[0] then s
    else if lt(x, s[0]) then [x] + s
    else
      var t := Insert(lt, x, s[1..]);
      assert forall j | 0 <= j < |t| :: lt(s[0], t[j]) by {
        forall j | 0 <= j < |t|
          ensures lt(s[0], t[j])
        {
          assert t[j] == x || t[j] in s[1..];
        }
      }
      [s[0]] + t
  }

  /** The distinct elements of `xs`, ascending. */
  function SortedDistinct<T(==,!new)>(lt: (T, T) -> bool, xs: seq<T>): (r: seq<T>)
    requires StrictTotalOrder(lt)
    ensures StrictlySorted(lt, r)
    ensures forall y :: y in r <==> y in xs
  {
    if xs == [] then []
    else Insert(lt, xs[|xs| - 1], SortedDistinct(lt, xs[..|xs| - 1]))
  }

  /** A strictly sorted sequence has no element twice. */
  lemma StrictlySortedDistinct<T(!new)>(lt: (T, T) -> bool, s: seq<T>, i: int, j: int)
    requires StrictTotalOrder(lt) && StrictlySorted(lt, s)
    requires 0 <= i < |s| && 0 <= j < |s| && i != j
    ensures s[i] != s[j]
  {
    if i < j {
      assert lt(s[i], s[j]);
    } else {
      assert lt(s[j], s[i]);
    }
  }

  /** `<` on integers. */
  function IntLess(a: int, b: int): bool {
    a < b
  }

  lemma IntLessIsStrictTotal()
    ensures StrictTotalOrder(IntLess)
  {
  }

  /** Python's `<` on strings is a strict total order. */
  lemma StringLessIsStrictTotal()
    ensures StrictTotalOrder(Strings.Less)
  {
    forall x: string
      ensures !Strings.Less(x, x)
    {
      Strings.LessIrreflexive(x);
    }
    forall x: string, y: string, z: string | Strings.Less(x, y) && Strings.Less(y, z)
      ensures Strings.Less(x, z)
    {
      Strings.LessTransitive(x, y, z);
    }
    forall x: string, y: string | x != y
      ensures Strings.Less(x, y) || Strings.Less(y, x)
    {
      Strings.LessTotal(x, y);
    }
  }

  /** Two strictly sorted sequences with the same elements are the same sequence. */
  lemma {:induction false} StrictlySortedUnique<T(!new)>(lt: (T, T) -> bool, a: seq<T>, b: seq<T>)
    requires StrictTotalOrder(lt) && StrictlySorted(lt, a) && StrictlySorted(lt, b)
    requires forall x :: x in a <==> x in b
    ensures a == b
  {
    SameElementsBothEmpty(a, b);
    if a != [] && b != [] {
      assert a[0] == b[0] by {
        assert a[0] in a && b[0] in b;
      }
      forall x
        ensures x in a[1..] <==> x in b[1..]
      {
        assert a == [a[0]] + a[1..] && b == [b[0]] + b[1..];
        if x in a[1..] {
          var j :| 0 <= j < |a[1..]| && a[1..][j] == x;
          assert a[j + 1] == x && lt(a[0], x) && x in a;
        }
        if x in b[1..] {
          var j :| 0 <= j < |b[1..]| && b[1..][j] == x;
          assert b[j + 1] == x && lt(b[0], x) && x in b;
        }
      }
      StrictlySortedUnique(lt, a[1..], b[1..]);
      assert a == [a[0]] + a[1..] && b == [b[0]] + b[1..];
    }
  }

  lemma SameElementsBothEmpty<T>(a: seq<T>, b: seq<T>)
    requires forall x :: x in a <==> x in b
    ensures a == [] <==> b == []
  {
    if a != [] {
      assert a[0] in b;
    }
    if b != [] {
      assert b[0] in a;
    }
  }

  /** Under a transitive order, a sequence is strictly sorted once each element is below its
      successor. */
  lemma {:induction false} AdjacentSorted<T(!new)>(lt: (T, T) -> bool, s: seq<T>)
    requires StrictTotalOrder(lt)
    requires forall i | 0 <= i < |s| - 1 :: lt(s[i], s[i + 1])
    ensures StrictlySorted(lt, s)
  {
    if |s| > 1 {
      var t := s[1..];
      assert forall i | 0 <= i < |t| - 1 :: lt(t[i], t[i + 1]) by {
        forall i | 0 <= i < |t| - 1
          ensures lt(t[i], t[i + 1])
        {
          assert t[i] == s[i + 1] && t[i + 1] == s[i + 2];
        }
      }
      AdjacentSorted(lt, t);
      forall i, j | 0 <= i < j < |s|
        ensures lt(s[i], s[j])
      {
        if i > 0 {
          assert s[i] == t[i - 1] && s[j] == t[j - 1];
        } else if j > 1 {
          assert s[1] == t[0] && s[j] == t[j - 1];
          assert lt(s[0], s[1]) && lt(s[1], s[j]);
        }
      }
    }
  }

  /** No element occurs twice. */
  predicate Distinct<T(==)>(xs: seq<T>) {
    forall i, j | 0 <= i < j < |xs| :: xs[i] != xs[j]
  }

  /** Inserting a new element makes the sequence one longer. */
  lemma {:induction false} InsertLength<T(!new)>(lt: (T, T) -> bool, x: T, s: seq<T>)
    requires StrictTotalOrder(lt) && StrictlySorted(lt, s) && x !in s
    ensures |Insert(lt, x, s)| == |s| + 1
    decreases |s|
  {
    if s != [] && !lt(x, s[0]) {
      assert x != s[0];
      assert StrictlySorted(lt, s[1..]) by {
        assert forall i | 0 <= i < |s| - 1 :: s[1..][i] == s[i + 1];
      }
      InsertLength(lt, x, s[1..]);
    }
  }

  /** Sorting distinct elements keeps all of them: nothing is dropped as a repeat. */
  lemma {:induction false} SortedDistinctLength<T(!new)>(lt: (T, T) -> bool, xs: seq<T>)
    requires StrictTotalOrder(lt) && Distinct(xs)
    ensures |SortedDistinct(lt, xs)| == |xs|
    decreases |xs|
  {
    if xs != [] {
      var init := xs[..|xs| - 1];
      var x := xs[|xs| - 1];
      assert Distinct(init);
      SortedDistinctLength(lt, init);
      assert x !in init;
      InsertLength(lt, x, SortedDistinct(lt, init));
    }
  }
}
