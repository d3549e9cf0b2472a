/** Sums over sequences, for termination potentials. */
module Sums {
  function Sum<T>(s: seq<T>, f: T -> nat): nat {
    if s == [] then 0 else Sum(s[..|s| - 1], f) + f(s[|s| - 1])
  }

  lemma SumAppend<T>(s: seq<T>, x: T, f: T -> nat)
    ensures Sum(s + [x], f) == Sum(s, f) + f(x)
  {
    assert (s + [x])[..|s|] == s;
  }

  lemma {:induction false} SumUpdate<T>(s: seq<T>, i: nat, x: T, f: T -> nat)
    requires i < |s|
    ensures Sum(s[i := x], f) + f(s[i]) == Sum(s, f) + f(x)
  {
    var n := |s| - 1;
    if i == n {
      assert s[i := x][..n] == s[..n];
    } else {
      assert s[i := x][..n] == s[..n][i := x];
      SumUpdate(s[..n], i, x, f);
    }
  }

  lemma {:induction false} SumLess<T>(s: seq<T>, f: T -> nat, g: T -> nat)
    requires forall x :: x in s ==> g(x) <= f(x)
    ensures Sum(s, g) <= Sum(s, f)
  {
    if s != [] {
      SumLess(s[..|s| - 1], f, g);
    }
  }

  lemma {:induction false} SumDrops<T>(s: seq<T>, f: T -> nat, g: T -> nat, k: T)
    requires forall x :: x in s ==> g(x) <= f(x)
    requires k in s && g(k) == 0
    ensures Sum(s, g) + f(k) <= Sum(s, f)
  {
    var n := |s| - 1;
    if s[n] == k {
      SumLess(s[..n], f, g);
    } else {
      assert k in s[..n];
      SumDrops(s[..n], f, g, k);
    }
  }
}
