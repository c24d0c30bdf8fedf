/** The effect of qsort on a batch: some order of the same members in which the
    keys do not decrease. Nothing is claimed about members with equal keys. */
module Sorting {
  import opened Text

  ghost predicate SortedBy<T(!new)>(key: T -> string, xs: seq<T>) {
    forall i, j | 0 <= i < j < |xs| :: AtMost(key(xs[i]), key(xs[j]))
  }

  /** That is, each key is a beginning of every later one, or smaller at the first byte
      that is not the same. */
  lemma SortedByIff<T(!new)>(key: T -> string, xs: seq<T>)
    ensures SortedBy(key, xs) <==>
            forall i, j | 0 <= i < j < |xs| ::
              var a, b := key(xs[i]), key(xs[j]);
              a <= b || exists n :: 0 <= n < |a| && n < |b| && a[..n] == b[..n] && a[n] < b[n]
  {
    forall i, j | 0 <= i < j < |xs|
      ensures var a, b := key(xs[i]), key(xs[j]);
              AtMost(a, b) <==>
              a <= b || exists n :: 0 <= n < |a| && n < |b| && a[..n] == b[..n] && a[n] < b[n]
    {
      AtMostIff(key(xs[i]), key(xs[j]));
    }
  }

  function Insert<T(!new)>(key: T -> string, x: T, xs: seq<T>): (r: seq<T>)
    requires SortedBy(key, xs)
    ensures SortedBy(key, r) && multiset(r) == multiset(xs) + multiset{x}
  {
    if xs == [] then [x]
    else if AtMost(key(x), key(xs[0])) then
      InsertFirst(key, x, xs);
      assert multiset([x] + xs) == multiset(xs) + multiset{x};
      [x] + xs
    else
      AtMostTotal(key(x), key(xs[0]));
      var r := Insert(key, x, xs[1..]);
      InsertLater(key, x, xs, r);
      [xs[0]] + r
  }

  lemma InsertFirst<T(!new)>(key: T -> string, x: T, xs: seq<T>)
    requires SortedBy(key, xs) && xs != [] && AtMost(key(x), key(xs[0]))
    ensures SortedBy(key, [x] + xs)
  {
    forall j | 0 <= j < |xs| ensures AtMost(key(x), key(xs[j])) {
      if j > 0 {
        AtMostTransitive(key(x), key(xs[0]), key(xs[j]));
      }
    }
  }

  lemma InsertLater<T(!new)>(key: T -> string, x: T, xs: seq<T>, r: seq<T>)
    requires SortedBy(key, xs) && xs != [] && AtMost(key(xs[0]), key(x))
    requires SortedBy(key, r) && multiset(r) == multiset(xs[1..]) + multiset{x}
    ensures SortedBy(key, [xs[0]] + r)
    ensures multiset([xs[0]] + r) == multiset(xs) + multiset{x}
  {
    assert xs == [xs[0]] + xs[1..];
    forall j | 0 <= j < |r| ensures AtMost(key(xs[0]), key(r[j])) {
      assert r[j] in multiset(r);
      assert r[j] == x || r[j] in xs[1..];
    }
  }

  function Sort<T(!new)>(key: T -> string, xs: seq<T>): (r: seq<T>)
    ensures SortedBy(key, r) && multiset(r) == multiset(xs)
  {
    if xs == [] then [] else
    assert xs == [xs[0]] + xs[1..];
    Insert(key, xs[0], Sort(key, xs[1..]))
  }
}
