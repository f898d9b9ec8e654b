/** Adding up the weights of the elements of a multiset. */
module Sums {
  ghost function Sum<T(!new)>(m: multiset<T>, w: T -> nat): nat
    decreases |m|
  {
    if m == multiset{} then 0
    else
      var x :| x in m;
      w(x) + Sum(m - multiset{x}, w)
  }

  lemma TakeBoth<T>(m: multiset<T>, x: T, y: T)
    requires x in m && y in m && x != y
    ensures m - multiset{x} - multiset{y} == m - multiset{y} - multiset{x}
    ensures y in m - multiset{x} && x in m - multiset{y}
  {
  }

  /** Which element is counted first does not matter. */
  lemma {:induction false} SumTake<T(!new)>(m: multiset<T>, w: T -> nat, x: T)
    requires x in m
    ensures Sum(m, w) == w(x) + Sum(m - multiset{x}, w)
    decreases |m|
  {
    var y :| y in m && Sum(m, w) == w(y) + Sum(m - multiset{y}, w);
    if y != x {
      TakeBoth(m, x, y);
      SumTake(m - multiset{y}, w, x);
      SumTake(m - multiset{x}, w, y);
    }
  }

  lemma {:induction false} SumSame<T(!new)>(m: multiset<T>, w: T -> nat, w': T -> nat)
    requires forall x :: x in m ==> w(x) == w'(x)
    ensures Sum(m, w) == Sum(m, w')
    decreases |m|
  {
    if m != multiset{} {
      var x :| x in m;
      SumTake(m, w, x);
      SumTake(m, w', x);
      SumSame(m - multiset{x}, w, w');
    }
  }
}
