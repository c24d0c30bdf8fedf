/** When SHOW prints its pairs sorted by key, as the README of the repository says it
    does: not always, and exactly when. */
module ShowOrder {
  import opened Text
  import opened Tables
  import opened Batches
  import B = BatchMeaning

  ghost predicate Ascend(es: seq<Entry>) {
    forall i, j | 0 <= i < j < |es| :: AtMost(es[i].key, es[j].key)
  }

  ghost predicate Descend(es: seq<Entry>) {
    forall i, j | 0 <= i < j < |es| :: AtMost(es[j].key, es[i].key)
  }

  /** No key of the first list is greater than one of the second. */
  ghost predicate Before(a: seq<Entry>, b: seq<Entry>) {
    forall i, j | 0 <= i < |a| && 0 <= j < |b| :: AtMost(a[i].key, b[j].key)
  }

  /** The chains of the first n buckets ascend, and so do the buckets. */
  ghost predicate InOrder(t: Table, n: nat)
    requires n <= TABLE_SIZE
  {
    && (forall b | 0 <= b < n :: Ascend(t[b]))
    && forall b, b' | 0 <= b < b' < n :: Before(t[b], t[b'])
  }

  lemma AscendSplit(a: seq<Entry>, b: seq<Entry>)
    ensures Ascend(a + b) <==> Ascend(a) && Ascend(b) && Before(a, b)
  {
    var c := a + b;
    if Ascend(c) {
      assert forall i | 0 <= i < |a| :: a[i] == c[i];
      assert forall i | 0 <= i < |b| :: b[i] == c[|a| + i];
    }
  }

  lemma BeforeSplit(a: seq<Entry>, b: seq<Entry>, c: seq<Entry>)
    ensures Before(a + b, c) <==> Before(a, c) && Before(b, c)
  {
    var d := a + b;
    assert forall i | 0 <= i < |a| :: a[i] == d[i];
    assert forall i | 0 <= i < |b| :: b[i] == d[|a| + i];
  }

  lemma {:induction false} EntriesBefore(t: Table, n: nat, c: seq<Entry>)
    requires n <= TABLE_SIZE
    ensures Before(B.Entries(t, n), c) <==> forall b | 0 <= b < n :: Before(t[b], c)
  {
    if n > 0 {
      EntriesBefore(t, n - 1, c);
      BeforeSplit(B.Entries(t, n - 1), t[n - 1], c);
    }
  }

  /** SHOW is sorted if and only if every chain is, and no key of a bucket is greater
      than one of a later bucket. */
  lemma {:induction false} ShowSortedIff(t: Table, n: nat)
    requires n <= TABLE_SIZE
    ensures Ascend(B.Entries(t, n)) <==> InOrder(t, n)
  {
    if n > 0 {
      ShowSortedIff(t, n - 1);
      AscendSplit(B.Entries(t, n - 1), t[n - 1]);
      EntriesBefore(t, n - 1, t[n - 1]);
    }
  }

  // ---- the table after one batch ----

  ghost predicate AllDescend(t: Table) {
    forall b | 0 <= b < TABLE_SIZE :: Descend(t[b])
  }

  /** No key of the table is greater than one of the list. */
  ghost predicate Below(t: Table, ks: seq<Key>) {
    forall b, i, j | 0 <= b < TABLE_SIZE && 0 <= i < |t[b]| && 0 <= j < |ks| :: AtMost(t[b][i].key, ks[j])
  }

  /** A new key goes to the front of its chain. */
  lemma PutDescends(t: Table, key: Key, value: string)
    requires AllDescend(t) && Below(t, [key])
    ensures AllDescend(Put(t, key, value))
  {
    var c, c' := t[Bucket(key)], PutChain(t[Bucket(key)], key, value);
    assert forall i | 0 <= i < |c| :: AtMost(c[i].key, [key][0]);
    forall i, j | 0 <= i < j < |c'| ensures AtMost(c'[j].key, c'[i].key) {
      if |c'| == |c| {
        assert AtMost(c[j].key, c[i].key);
      } else {
        assert c'[j] == c[j - 1];
        assert i > 0 ==> c'[i] == c[i - 1];
      }
    }
    assert Descend(c');
  }

  lemma PutBelow(t: Table, key: Key, value: string, ks: seq<Key>)
    requires Below(t, ks) && forall j | 0 <= j < |ks| :: AtMost(key, ks[j])
    ensures Below(Put(t, key, value), ks)
  {
    var c, t' := t[Bucket(key)], Put(t, key, value);
    forall b, i, j | 0 <= b < TABLE_SIZE && 0 <= i < |t'[b]| && 0 <= j < |ks| ensures AtMost(t'[b][i].key, ks[j]) {
      if b == Bucket(key) {
        var f := Find(c, key);
        if f < |c| {
          assert t'[b][i].key == c[i].key;
        } else {
          assert i > 0 ==> t'[b][i] == c[i - 1];
        }
      }
    }
  }

  /** A sorted batch leaves every chain in descending order, if it finds it so. */
  lemma {:induction false} WritesDescend(ps: seq<Pair>, p: Progress)
    requires AllDescend(p.table) && Sorted(KeysOf(Write(ps))) && Below(p.table, KeysOf(Write(ps)))
    ensures AllDescend(RunActs(Acts(Write(ps)), p).table)
  {
    if ps != [] {
      var ks, rest := KeysOf(Write(ps)), KeysOf(Write(ps[1..]));
      assert rest == ks[1..];
      assert forall j | 0 <= j < |rest| :: rest[j] == ks[j + 1];
      B.FirstWrite(ps, p);
      assert [ps[0].key][0] == ks[0];
      PutDescends(p.table, ps[0].key, ps[0].value);
      PutBelow(p.table, ps[0].key, ps[0].value, rest);
      WritesDescend(ps[1..], p.(table := Put(p.table, ps[0].key, ps[0].value)));
    }
  }

  function TableOf(ps: seq<Pair>): Table { B.RunAlone(Write(ps), Empty()).table }

  predicate AllLowercase(ps: seq<Pair>) { forall i | 0 <= i < |ps| :: Lowercase(ps[i].key[0]) }

  /** Pairs with the same initial have the same key. */
  predicate DistinctInitials(ps: seq<Pair>) {
    forall i, j | 0 <= i < |ps| && 0 <= j < |ps| && ps[i].key[0] == ps[j].key[0] :: ps[i].key == ps[j].key
  }

  /** The keys of the table after a batch on an empty one are those of the batch. */
  lemma KeysOfTable(ps: seq<Pair>)
    ensures Valid(TableOf(ps)) && forall k: Key :: Get(TableOf(ps), k).Some? <==> k in B.AsMap(ps)
  {
    B.WriteMeaning(ps, Empty());
    assert Contents(Empty()) == map[];
    assert forall k: Key :: k in Contents(TableOf(ps)) <==> k in B.AsMap(ps);
  }

  lemma KeyInChain(ps: seq<Pair>, b: nat, i: nat)
    requires b < TABLE_SIZE && i < |TableOf(ps)[b]|
    ensures var k := TableOf(ps)[b][i].key; Bucket(k) == b && exists x :: 0 <= x < |ps| && ps[x].key == k
  {
    KeysOfTable(ps);
    B.OwnEntries(TableOf(ps), b);
    var e := TableOf(ps)[b][i];
    assert e in TableOf(ps)[b];
    B.AsMapSupplied(ps, e.key);
  }

  lemma PairInChain(ps: seq<Pair>, x: nat) returns (i: nat)
    requires x < |ps|
    ensures i < |TableOf(ps)[Bucket(ps[x].key)]| && TableOf(ps)[Bucket(ps[x].key)][i].key == ps[x].key
  {
    KeysOfTable(ps);
    B.AsMapSupplied(ps, ps[x].key);
    i := Find(TableOf(ps)[Bucket(ps[x].key)], ps[x].key);
  }

  lemma DistinctIsSorted(ps: seq<Pair>)
    requires AllLowercase(ps) && DistinctInitials(ps)
    ensures InOrder(TableOf(ps), TABLE_SIZE)
  {
    var t := TableOf(ps);
    KeysOfTable(ps);
    forall b | 0 <= b < TABLE_SIZE ensures Ascend(t[b]) {
      assert ValidChain(t[b], b);
      forall i, j | 0 <= i < j < |t[b]| ensures AtMost(t[b][i].key, t[b][j].key) {
        KeyInChain(ps, b, i);
        KeyInChain(ps, b, j);
      }
    }
    forall b, b' | 0 <= b < b' < TABLE_SIZE ensures Before(t[b], t[b']) {
      forall i, j | 0 <= i < |t[b]| && 0 <= j < |t[b']| ensures AtMost(t[b][i].key, t[b'][j].key) {
        KeyInChain(ps, b, i);
        KeyInChain(ps, b', j);
      }
    }
  }

  lemma SortedIsDistinct(ps: seq<Pair>)
    requires AllLowercase(ps) && Sorted(KeysOf(Write(ps))) && InOrder(TableOf(ps), TABLE_SIZE)
    ensures DistinctInitials(ps)
  {
    WritesDescend(ps, Progress(Empty(), "", false));
    forall x, y | 0 <= x < |ps| && 0 <= y < |ps| && ps[x].key[0] == ps[y].key[0] ensures ps[x].key == ps[y].key {
      var i := PairInChain(ps, x);
      var j := PairInChain(ps, y);
      var c := TableOf(ps)[Bucket(ps[x].key)];
      if i < j {
        AtMostAntisymmetric(c[i].key, c[j].key);
      } else if j < i {
        AtMostAntisymmetric(c[j].key, c[i].key);
      }
    }
  }

  lemma SameInitials(qs: seq<Pair>, ps: seq<Pair>)
    requires multiset(qs) == multiset(ps) && AllLowercase(qs)
    ensures AllLowercase(ps) && (DistinctInitials(ps) <==> DistinctInitials(qs))
  {
    forall p: Pair ensures p in ps <==> p in qs {
      assert p in ps <==> p in multiset(ps);
      assert p in qs <==> p in multiset(qs);
    }
    forall i | 0 <= i < |ps| ensures ps[i] in qs {}
    forall i | 0 <= i < |qs| ensures qs[i] in ps {}
  }

  /** After one WRITE of lowercase keys on an empty table, SHOW is sorted if and only
      if keys with the same initial are the same: sorting the batch puts the least
      key of a bucket into its chain first, and so at its end. */
  lemma BatchShowsSortedIff(qs: seq<Pair>, ps: seq<Pair>)
    requires Instance(Write(qs), Write(ps)) && AllLowercase(qs)
    ensures Ascend(B.Entries(TableOf(ps), TABLE_SIZE)) <==> DistinctInitials(qs)
  {
    ShowSortedIff(TableOf(ps), TABLE_SIZE);
    SameInitials(qs, ps);
    if DistinctInitials(ps) {
      DistinctIsSorted(ps);
    } else if InOrder(TableOf(ps), TABLE_SIZE) {
      SortedIsDistinct(ps);
    }
  }

  lemma {:induction false} OnlyFirstBucket(t: Table, n: nat)
    requires 0 < n <= TABLE_SIZE && forall b | 0 < b < n :: t[b] == []
    ensures B.Entries(t, n) == t[0]
  {
    if n > 1 {
      OnlyFirstBucket(t, n - 1);
      NothingAfter(t[0]);
    } else {
      assert B.Entries(t, 0) == [] && [] + t[0] == t[0];
    }
  }

  const TWO_PAIRS: seq<Pair> := [Pair("a", ""), Pair("ab", "")]

  lemma TwoPairsTable()
    ensures var t := TableOf(TWO_PAIRS);
            t[0] == [Entry("ab", "", []), Entry("a", "", [])] && forall b | 0 < b < TABLE_SIZE :: t[b] == []
  {
    var p, rest := Progress(Empty(), "", false), [Pair("ab", "")];
    assert TWO_PAIRS[1..] == rest && rest[1..] == [];
    B.FirstWrite(TWO_PAIRS, p);
    var t1 := Put(Empty(), "a", "");
    assert [Entry("a", "", [])] + [] == [Entry("a", "", [])];
    assert t1[0] == [Entry("a", "", [])];
    B.FirstWrite(rest, p.(table := t1));
    assert Find(t1[0], "ab") == 1 by {
      assert t1[0][1..] == [];
    }
    assert Acts(Write(rest[1..])) == [];
  }

  lemma TwoLines()
    ensures ShowChain([Entry("ab", "", []), Entry("a", "", [])]) == "(ab, )\n(a, )\n"
  {
    var c := [Entry("ab", "", []), Entry("a", "", [])];
    assert c[1..] == [Entry("a", "", [])] && c[1..][1..] == [];
    assert ShowLine(c[0]) == "(ab, )\n" && ShowLine(c[1]) == "(a, )\n";
    assert ShowChain(c[1..]) == "(a, )\n" + "" == "(a, )\n";
  }

  /** So SHOW need not be sorted: after WRITE [(a,)(ab,)] it prints ab first. */
  lemma ShowIsNotSorted()
    ensures Instance(Write(TWO_PAIRS), Write(TWO_PAIRS))
    ensures B.RunAlone(Show, TableOf(TWO_PAIRS)).out == "(ab, )\n(a, )\n"
    ensures !Ascend(B.Entries(TableOf(TWO_PAIRS), TABLE_SIZE))
  {
    var ks := KeysOf(Write(TWO_PAIRS));
    assert ks == ["a", "ab"] && AtMost("a", "ab");
    BatchShowsSortedIff(TWO_PAIRS, TWO_PAIRS);
    assert TWO_PAIRS[0].key[0] == TWO_PAIRS[1].key[0];
    TwoPairsTable();
    OnlyFirstBucket(TableOf(TWO_PAIRS), TABLE_SIZE);
    KeysOfTable(TWO_PAIRS);
    B.ShowMeaning(TableOf(TWO_PAIRS));
    TwoLines();
  }
}
