/** Integer sums over finite sets, independent of the order of summation. */
module Sums {

  ghost function SumOver<T(!new)>(s: set<T>, f: T -> int): int {
    if s == {} then 0 else
      var x :| x in s;
      f(x) + SumOver(s - {x}, f)
  }

  lemma {:induction false} SumExtract<T(!new)>(s: set<T>, f: T -> int, x: T)
    requires x in s
    ensures SumOver(s, f) == f(x) + SumOver(s - {x}, f)
    decreases s
  {
    var y :| y in s && SumOver(s, f) == f(y) + SumOver(s - {y}, f);
    if y != x {
      SumExtract(s - {y}, f, x);
      SumExtract(s - {x}, f, y);
      assert s - {y} - {x} == s - {x} - {y};
    }
  }

  lemma SumInsert<T(!new)>(s: set<T>, f: T -> int, x: T)
    requires x !in s
    ensures SumOver(s + {x}, f) == f(x) + SumOver(s, f)
  {
    SumExtract(s + {x}, f, x);
    assert s + {x} - {x} == s;
  }

  lemma {:induction false} SumSame<T(!new)>(s: set<T>, f: T -> int, g: T -> int)
    requires forall x :: x in s ==> f(x) == g(x)
    ensures SumOver(s, f) == SumOver(s, g)
    decreases s
  {
    if s != {} {
      var x :| x in s;
      SumExtract(s, f, x);
      SumExtract(s, g, x);
      SumSame(s - {x}, f, g);
    }
  }

  /** Two functions that differ at one element. */
  lemma SumDiffersAt<T(!new)>(s: set<T>, f: T -> int, g: T -> int, x: T)
    requires x in s && forall y :: y in s && y != x ==> f(y) == g(y)
    ensures SumOver(s, g) == SumOver(s, f) + g(x) - f(x)
  {
    SumExtract(s, f, x);
    SumExtract(s, g, x);
    SumSame(s - {x}, f, g);
  }

  lemma {:induction false} SumBounded<T(!new)>(s: set<T>, f: T -> int, g: T -> int)
    requires forall x :: x in s ==> -g(x) <= f(x) <= g(x)
    ensures -SumOver(s, g) <= SumOver(s, f) <= SumOver(s, g)
    decreases s
  {
    if s != {} {
      var x :| x in s;
      SumExtract(s, f, x);
      SumExtract(s, g, x);
      SumBounded(s - {x}, f, g);
    }
  }
}
