/** Totals over the threads of a state machine, and how they change when one thread moves. */
module Counting {

  function Total<T>(weight: T -> nat, xs: seq<T>): nat {
    if xs == [] then 0 else weight(xs[0]) + Total(weight, xs[1..])
  }

  lemma {:induction false} TotalUpdate<T>(weight: T -> nat, xs: seq<T>, i: nat, x: T)
    requires i < |xs|
    ensures Total(weight, xs[i := x]) == Total(weight, xs) - weight(xs[i]) + weight(x)
  {
    if i == 0 {
      assert xs[0 := x][1..] == xs[1..];
    } else {
      assert xs[i := x][1..] == xs[1..][i - 1 := x];
      TotalUpdate(weight, xs[1..], i - 1, x);
    }
  }

  lemma {:induction false} TotalSame<T>(weight: T -> nat, a: seq<T>, b: seq<T>)
    requires |a| == |b| && forall i | 0 <= i < |a| :: weight(a[i]) == weight(b[i])
    ensures Total(weight, a) == Total(weight, b)
  {
    if a != [] {
      TotalSame(weight, a[1..], b[1..]);
    }
  }

  lemma {:induction false} TotalZero<T>(weight: T -> nat, xs: seq<T>)
    ensures Total(weight, xs) == 0 <==> forall i | 0 <= i < |xs| :: weight(xs[i]) == 0
  {
    if xs != [] {
      TotalZero(weight, xs[1..]);
      assert forall i | 0 < i < |xs| :: xs[i] == xs[1..][i - 1];
    }
  }

  /** A total of weights that are at most one is at most the number of threads. */
  lemma {:induction false} TotalAtMost<T>(weight: T -> nat, xs: seq<T>)
    requires forall i | 0 <= i < |xs| :: weight(xs[i]) <= 1
    ensures Total(weight, xs) <= |xs|
    ensures Total(weight, xs) == |xs| ==> forall i | 0 <= i < |xs| :: weight(xs[i]) == 1
  {
    if xs != [] {
      TotalAtMost(weight, xs[1..]);
      assert forall i | 0 < i < |xs| :: xs[i] == xs[1..][i - 1];
    }
  }
}
