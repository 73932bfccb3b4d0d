/** Sums and gathered multisets over sequences, shared by the other modules. */
module Collections {

  datatype Option<+T> = None | Some(value: T)

  /** The sum of `f` over the elements of `xs`. */
  ghost function SumBy<T>(xs: seq<T>, f: T -> int): int {
    if xs == [] then 0 else f(xs[0]) + SumBy(xs[1..], f)
  }

  lemma {:induction false} SumByUpdate<T>(xs: seq<T>, i: nat, x: T, f: T -> int)
    requires i < |xs|
    ensures SumBy(xs[i := x], f) == SumBy(xs, f) - f(xs[i]) + f(x)
  {
    if i == 0 {
      assert xs[i := x][1..] == xs[1..];
    } else {
      assert xs[i := x][1..] == xs[1..][i - 1 := x];
      SumByUpdate(xs[1..], i - 1, x, f);
    }
  }

  lemma {:induction false} SumByConcat<T>(xs: seq<T>, ys: seq<T>, f: T -> int)
    ensures SumBy(xs + ys, f) == SumBy(xs, f) + SumBy(ys, f)
  {
    if xs == [] {
      assert xs + ys == ys;
    } else {
      assert (xs + ys)[1..] == xs[1..] + ys;
      SumByConcat(xs[1..], ys, f);
    }
  }

  /** Two functions that agree on every element have the same sum. */
  lemma {:induction false} SumByAgree<T>(xs: seq<T>, f: T -> int, g: T -> int)
    requires forall x :: x in xs ==> f(x) == g(x)
    ensures SumBy(xs, f) == SumBy(xs, g)
  {
    if xs != [] {
      SumByAgree(xs[1..], f, g);
    }
  }

  lemma {:induction false} SumByZero<T>(xs: seq<T>, f: T -> int)
    requires forall x :: x in xs ==> f(x) == 0
    ensures SumBy(xs, f) == 0
  {
    if xs != [] {
      SumByZero(xs[1..], f);
    }
  }

  /** `f` bounded by `g` on every element gives bounded sums; equal sums force equality everywhere. */
  lemma {:induction false} SumByBounded<T>(xs: seq<T>, f: T -> int, g: T -> int)
    requires forall x :: x in xs ==> f(x) <= g(x)
    ensures SumBy(xs, f) <= SumBy(xs, g)
  {
    if xs != [] {
      SumByBounded(xs[1..], f, g);
    }
  }

  /** The multiset union of `f` over the elements of `xs`. */
  ghost function Gather<T, U>(xs: seq<T>, f: T -> multiset<U>): multiset<U> {
    if xs == [] then multiset{} else f(xs[0]) + Gather(xs[1..], f)
  }

  lemma GatherOne<T, U>(x: T, f: T -> multiset<U>)
    ensures Gather([x], f) == f(x)
  {
    assert Gather([x], f) == f(x) + Gather([], f);
  }

  lemma {:induction false} GatherUpdate<T, U>(xs: seq<T>, i: nat, x: T, f: T -> multiset<U>)
    requires i < |xs|
    ensures Gather(xs[i := x], f) + f(xs[i]) == Gather(xs, f) + f(x)
  {
    if i == 0 {
      assert xs[i := x][1..] == xs[1..];
    } else {
      assert xs[i := x][1..] == xs[1..][i - 1 := x];
      GatherUpdate(xs[1..], i - 1, x, f);
      calc {
        Gather(xs[i := x], f) + f(xs[i]);
        f(xs[0]) + Gather(xs[1..][i - 1 := x], f) + f(xs[i]);
        f(xs[0]) + (Gather(xs[1..][i - 1 := x], f) + f(xs[1..][i - 1]));
        f(xs[0]) + (Gather(xs[1..], f) + f(x));
        Gather(xs, f) + f(x);
      }
    }
  }

  lemma {:induction false} GatherConcat<T, U>(xs: seq<T>, ys: seq<T>, f: T -> multiset<U>)
    ensures Gather(xs + ys, f) == Gather(xs, f) + Gather(ys, f)
  {
    if xs == [] {
      assert xs + ys == ys;
    } else {
      assert (xs + ys)[1..] == xs[1..] + ys;
      GatherConcat(xs[1..], ys, f);
    }
  }

  /** Every element's share is part of the whole. */
  lemma {:induction false} GatherContains<T, U>(xs: seq<T>, i: nat, f: T -> multiset<U>)
    requires i < |xs|
    ensures f(xs[i]) <= Gather(xs, f)
  {
    if i > 0 {
      GatherContains(xs[1..], i - 1, f);
    }
  }

  lemma {:induction false} GatherEmpty<T, U>(xs: seq<T>, f: T -> multiset<U>)
    requires forall x :: x in xs ==> f(x) == multiset{}
    ensures Gather(xs, f) == multiset{}
  {
    if xs != [] {
      GatherEmpty(xs[1..], f);
    }
  }

  /** An element of the gathered whole comes from some position. */
  lemma {:induction false} GatherSource<T, U>(xs: seq<T>, u: U, f: T -> multiset<U>) returns (i: nat)
    requires u in Gather(xs, f)
    ensures i < |xs| && u in f(xs[i])
  {
    if u in f(xs[0]) {
      i := 0;
    } else {
      var j := GatherSource(xs[1..], u, f);
      i := j + 1;
    }
  }

  /** Two positions that both hold `u` make its multiplicity at least two. */
  lemma {:induction false} GatherTwice<T, U>(xs: seq<T>, i: nat, j: nat, u: U, f: T -> multiset<U>)
    requires i < j < |xs| && u in f(xs[i]) && u in f(xs[j])
    ensures Gather(xs, f)[u] >= 2
  {
    if i == 0 {
      GatherContains(xs[1..], j - 1, f);
    } else {
      GatherTwice(xs[1..], i - 1, j - 1, u, f);
    }
  }
}
