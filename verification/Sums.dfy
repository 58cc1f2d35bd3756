/** Sums over finite sets, and the sizes of sets. */
module Sums {
  lemma {:induction false} SubsetSize<T>(a: set<T>, b: set<T>)
    requires a <= b
    ensures |a| <= |b|
    decreases |a|
  {
    if a != {} {
      var x :| x in a;
      SubsetSize(a - {x}, b - {x});
    }
  }

  /** The sum of `f` over a finite set; the order of summation is left open. */
  ghost function Sum<T>(s: set<T>, f: T -> int): int
  {
    if s == {} then 0 else
      var x :| x in s;
      f(x) + Sum(s - {x}, f)
  }

  /** Any element may be taken out of the sum first. */
  lemma {:induction false} SumTake<T>(s: set<T>, f: T -> int, x: T)
    requires x in s
    ensures Sum(s, f) == f(x) + Sum(s - {x}, f)
    decreases s
  {
    var y :| y in s && Sum(s, f) == f(y) + Sum(s - {y}, f);
    if y != x {
      SumTake(s - {y}, f, x);
      SumTake(s - {x}, f, y);
      assert s - {y} - {x} == s - {x} - {y};
    }
  }

  lemma SumAdd<T>(s: set<T>, f: T -> int, x: T)
    requires x !in s
    ensures Sum(s + {x}, f) == Sum(s, f) + f(x)
  {
    SumTake(s + {x}, f, x);
    assert s + {x} - {x} == s;
  }

  /** Two functions that agree on the set have the same sum. */
  lemma {:induction false} SumSame<T>(s: set<T>, f: T -> int, g: T -> int)
    requires forall x :: x in s ==> f(x) == g(x)
    ensures Sum(s, f) == Sum(s, g)
    decreases s
  {
    if s != {} {
      var x :| x in s;
      SumTake(s, f, x);
      SumTake(s, g, x);
      SumSame(s - {x}, f, g);
    }
  }

  /** Changing the function at one point changes the sum by the difference there. */
  lemma SumChange<T>(s: set<T>, f: T -> int, g: T -> int, x: T)
    requires x in s
    requires forall y :: y in s && y != x ==> f(y) == g(y)
    ensures Sum(s, g) == Sum(s, f) - f(x) + g(x)
  {
    SumTake(s, f, x);
    SumTake(s, g, x);
    SumSame(s - {x}, f, g);
  }

  lemma {:induction false} SumNonNegative<T>(s: set<T>, f: T -> int)
    requires forall x :: x in s ==> f(x) >= 0
    ensures Sum(s, f) >= 0
    decreases s
  {
    if s != {} {
      var x :| x in s;
      SumTake(s, f, x);
      SumNonNegative(s - {x}, f);
    }
  }

  lemma {:induction false} SumZero<T>(s: set<T>, f: T -> int)
    requires forall x :: x in s ==> f(x) == 0
    ensures Sum(s, f) == 0
    decreases s
  {
    if s != {} {
      var x :| x in s;
      SumTake(s, f, x);
      SumZero(s - {x}, f);
    }
  }

  /** A sum of non-negative terms is at least each of its terms. */
  lemma SumAtLeast<T>(s: set<T>, f: T -> int, x: T)
    requires x in s
    requires forall y :: y in s ==> f(y) >= 0
    ensures Sum(s, f) >= f(x)
  {
    SumTake(s, f, x);
    SumNonNegative(s - {x}, f);
  }

  /** A larger set of non-negative terms has a larger sum. */
  lemma {:induction false} SumMonotone<T>(s: set<T>, t: set<T>, f: T -> int)
    requires s <= t
    requires forall y :: y in t ==> f(y) >= 0
    ensures Sum(s, f) <= Sum(t, f)
    decreases t
  {
    if s == {} {
      SumNonNegative(t, f);
    } else {
      var x :| x in s;
      SumTake(s, f, x);
      SumTake(t, f, x);
      SumMonotone(s - {x}, t - {x}, f);
    }
  }

  /** Elements where the function is zero may be left out of the set. */
  lemma {:induction false} SumDropZeros<T>(s: set<T>, t: set<T>, f: T -> int)
    requires s <= t
    requires forall x :: x in t && x !in s ==> f(x) == 0
    ensures Sum(s, f) == Sum(t, f)
    decreases t
  {
    if s == {} {
      SumZero(t, f);
    } else {
      var x :| x in s;
      SumTake(s, f, x);
      SumTake(t, f, x);
      SumDropZeros(s - {x}, t - {x}, f);
    }
  }
}
