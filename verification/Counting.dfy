/** Counting the members of a list that satisfy a predicate, and sums over a list. */
module Counting {

  function Count<T>(p: T -> bool, xs: seq<T>): (n: nat)
    ensures n <= |xs|
  {
    if xs == [] then 0 else (if p(xs[0]) then 1 else 0) + Count(p, xs[1..])
  }

  lemma {:induction false} CountUpdate<T>(p: T -> bool, xs: seq<T>, i: nat, x: T)
    requires i < |xs|
    ensures Count(p, xs[i := x]) == Count(p, xs) - (if p(xs[i]) then 1 else 0) + (if p(x) then 1 else 0)
  {
    if i == 0 {
      assert xs[0 := x][1..] == xs[1..];
    } else {
      assert xs[i := x][1..] == xs[1..][i - 1 := x];
      CountUpdate(p, xs[1..], i - 1, x);
    }
  }

  lemma {:induction false} CountAppend<T>(p: T -> bool, xs: seq<T>, x: T)
    ensures Count(p, xs + [x]) == Count(p, xs) + if p(x) then 1 else 0
  {
    if xs == [] {
      assert [] + [x] == [x];
    } else {
      assert (xs + [x])[1..] == xs[1..] + [x];
      CountAppend(p, xs[1..], x);
    }
  }

  lemma {:induction false} CountPositive<T>(p: T -> bool, xs: seq<T>, i: nat)
    requires i < |xs| && p(xs[i])
    ensures Count(p, xs) > 0
  {
    if i > 0 {
      CountPositive(p, xs[1..], i - 1);
    }
  }

  lemma {:induction false} CountMember<T>(p: T -> bool, xs: seq<T>) returns (i: nat)
    requires Count(p, xs) > 0
    ensures i < |xs| && p(xs[i])
  {
    if p(xs[0]) {
      i := 0;
    } else {
      i := CountMember(p, xs[1..]);
      i := i + 1;
    }
  }

  lemma {:induction false} CountNone<T>(p: T -> bool, xs: seq<T>)
    requires forall i | 0 <= i < |xs| :: !p(xs[i])
    ensures Count(p, xs) == 0
  {
    if xs != [] {
      CountNone(p, xs[1..]);
    }
  }

  lemma {:induction false} CountLess<T>(p: T -> bool, xs: seq<T>, i: nat)
    requires i < |xs| && !p(xs[i])
    ensures Count(p, xs) < |xs|
  {
    if i > 0 {
      CountLess(p, xs[1..], i - 1);
    }
  }

  lemma {:induction false} CountEvery<T>(p: T -> bool, xs: seq<T>)
    requires forall i | 0 <= i < |xs| :: p(xs[i])
    ensures Count(p, xs) == |xs|
  {
    if xs != [] {
      CountEvery(p, xs[1..]);
    }
  }

  lemma {:induction false} CountAll<T>(p: T -> bool, xs: seq<T>)
    requires Count(p, xs) == |xs|
    ensures forall i | 0 <= i < |xs| :: p(xs[i])
  {
    if xs != [] {
      CountAll(p, xs[1..]);
    }
  }

  function Sum<T>(f: T -> nat, xs: seq<T>): nat {
    if xs == [] then 0 else f(xs[0]) + Sum(f, xs[1..])
  }

  lemma {:induction false} SumUpdate<T>(f: T -> nat, xs: seq<T>, i: nat, x: T)
    requires i < |xs|
    ensures Sum(f, xs[i := x]) + f(xs[i]) == Sum(f, xs) + f(x)
  {
    if i == 0 {
      assert xs[0 := x][1..] == xs[1..];
    } else {
      assert xs[i := x][1..] == xs[1..][i - 1 := x];
      SumUpdate(f, xs[1..], i - 1, x);
    }
  }

  lemma {:induction false} SumAppend<T>(f: T -> nat, xs: seq<T>, x: T)
    ensures Sum(f, xs + [x]) == Sum(f, xs) + f(x)
  {
    if xs == [] {
      assert [] + [x] == [x];
    } else {
      assert (xs + [x])[1..] == xs[1..] + [x];
      SumAppend(f, xs[1..], x);
    }
  }
}
