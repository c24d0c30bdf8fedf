/** When sorting a batch by key makes it lock its buckets in ascending order. */
module LockOrder {
  import opened Text
  import opened Batches

  ghost predicate Ascending(bs: seq<nat>) {
    forall i, j | 0 <= i < j < |bs| :: bs[i] < bs[j]
  }

  /** No key starts with a greater character than another key but hashes lower,
      unless a still earlier key already locks its bucket. A condition on the
      batch as a set: sorting does not change it. */
  ghost predicate NoInversion(keys: seq<Key>) {
    forall k1, k2 | k1 in keys && k2 in keys && k1[0] < k2[0] && Bucket(k2) < Bucket(k1) ::
      LockedEarlier(keys, k1, k2)
  }

  ghost predicate LockedEarlier(keys: seq<Key>, k1: Key, k2: Key) {
    exists k0 :: k0 in keys && Bucket(k0) == Bucket(k2) && k0[0] < k1[0]
  }

  /** All initials of one class, as kvs.c documents for its hash function. */
  ghost predicate OneClass(keys: seq<Key>) {
    || (forall k | k in keys :: Lowercase(k[0]))
    || (forall k | k in keys :: Uppercase(k[0]))
    || (forall k | k in keys :: Digit(k[0]))
  }

  lemma OneClassHasNoInversion(keys: seq<Key>)
    requires OneClass(keys)
    ensures NoInversion(keys)
  {
  }

  lemma {:induction false} FirstsOrder(bs: seq<nat>, i: nat, j: nat) returns (x: nat, y: nat)
    requires i < j < |Firsts(bs)|
    ensures x < y < |bs| && bs[x] == Firsts(bs)[i] && bs[y] == Firsts(bs)[j]
    ensures forall z | 0 <= z < y :: bs[z] != bs[y]
    ensures forall z | 0 <= z < x :: bs[z] != bs[x]
  {
    var init, r := bs[..|bs| - 1], Firsts(bs[..|bs| - 1]);
    if j < |r| {
      x, y := FirstsOrder(init, i, j);
    } else {
      y := |bs| - 1;
      assert forall z | 0 <= z < y :: bs[z] == init[z];
      assert r[i] in init;
      x :| 0 <= x < |init| && init[x] == r[i];
      x := FirstPosition(init, x);
    }
  }

  lemma {:induction false} FirstPosition(bs: seq<nat>, i: nat) returns (x: nat)
    requires i < |bs|
    ensures x <= i && x < |bs| && bs[x] == bs[i]
    ensures forall z | 0 <= z < x :: bs[z] != bs[x]
    decreases i
  {
    if z :| 0 <= z < i && bs[z] == bs[i] {
      x := FirstPosition(bs, z);
    } else {
      x := i;
    }
  }

  /** Later first occurrences come later in the list of acquisitions. */
  lemma {:induction false} FirstsKeepOrder(bs: seq<nat>, x: nat, y: nat) returns (i: nat, j: nat)
    requires x < y < |bs|
    requires forall z | 0 <= z < x :: bs[z] != bs[x]
    requires forall z | 0 <= z < y :: bs[z] != bs[y]
    ensures i < j < |Firsts(bs)| && Firsts(bs)[i] == bs[x] && Firsts(bs)[j] == bs[y]
  {
    var init, r := bs[..|bs| - 1], Firsts(bs[..|bs| - 1]);
    assert bs == init + [bs[|bs| - 1]];
    if y < |bs| - 1 {
      i, j := FirstsKeepOrder(init, x, y);
    } else {
      assert init[x] in init;
      i :| 0 <= i < |r| && r[i] == bs[x];
      assert forall z | 0 <= z < |init| :: init[z] != bs[y];
      j := |r|;
    }
  }

  lemma SortedInitials(keys: seq<Key>, i: nat, j: nat)
    requires Sorted(keys) && i <= j < |keys|
    ensures keys[i][0] <= keys[j][0]
  {
    if i < j {
      assert AtMost(keys[i], keys[j]);
    }
  }

  /** Sorted batches acquire their buckets in ascending order if and only if the
      batch has no inversion. */
  lemma AscendingIffNoInversion(keys: seq<Key>)
    requires Sorted(keys)
    ensures Ascending(Firsts(Buckets(keys))) <==> NoInversion(keys)
  {
    var bs := Buckets(keys);
    if NoInversion(keys) {
      forall i, j | 0 <= i < j < |Firsts(bs)| ensures Firsts(bs)[i] < Firsts(bs)[j] {
        var x, y := FirstsOrder(bs, i, j);
        SortedInitials(keys, x, y);
        forall k0 | k0 in keys && Bucket(k0) == Bucket(keys[y]) ensures keys[y][0] <= k0[0] {
          var z :| 0 <= z < |keys| && keys[z] == k0;
          assert bs[z] == bs[y];
          SortedInitials(keys, y, z);
        }
        assert !LockedEarlier(keys, keys[x], keys[y]);
      }
    } else {
      var k1, k2 :| k1 in keys && k2 in keys && k1[0] < k2[0] && Bucket(k2) < Bucket(k1)
        && !LockedEarlier(keys, k1, k2);
      var i, j := InversionOrder(keys, k1, k2);
      assert !Ascending(Firsts(bs));
    }
  }

  lemma InversionOrder(keys: seq<Key>, k1: Key, k2: Key) returns (i: nat, j: nat)
    requires Sorted(keys)
    requires k1 in keys && k2 in keys && k1[0] < k2[0] && Bucket(k2) < Bucket(k1)
    requires !LockedEarlier(keys, k1, k2)
    ensures i < j < |Firsts(Buckets(keys))|
    ensures Firsts(Buckets(keys))[i] == Bucket(k1) && Firsts(Buckets(keys))[j] == Bucket(k2)
  {
    var bs := Buckets(keys);
    var x0 :| 0 <= x0 < |keys| && keys[x0] == k1;
    var y :| 0 <= y < |keys| && keys[y] == k2;
    var x := FirstPosition(bs, x0);
    y := FirstPosition(bs, y);
    assert k1[0] <= keys[y][0];
    SortedInitials(keys, if y < x then y else x, x0);
    i, j := FirstsKeepOrder(bs, x, y);
  }

  lemma SameKeysSameInversions(keys: seq<Key>, keys': seq<Key>)
    requires forall k :: k in keys <==> k in keys'
    ensures NoInversion(keys) <==> NoInversion(keys')
  {
    assert forall k1, k2 :: LockedEarlier(keys, k1, k2) <==> LockedEarlier(keys', k1, k2);
  }

  /** The buckets of a command ascend, whatever order qsort leaves equal keys in,
      exactly when its batch has no inversion. SHOW always ascends. */
  lemma CommandLocksAscend(cmd: Command, x: Command)
    requires Instance(cmd, x)
    ensures Ascending(Locks(x)) <==> NoInversion(KeysOf(cmd))
  {
    if !cmd.Show? {
      SameKeys(cmd, x);
      SameKeysSameInversions(KeysOf(cmd), KeysOf(x));
      AscendingIffNoInversion(KeysOf(x));
    }
  }

  lemma SameKeys(cmd: Command, x: Command)
    requires Instance(cmd, x)
    ensures forall k :: k in KeysOf(cmd) <==> k in KeysOf(x)
  {
    forall k: Key ensures k in KeysOf(cmd) <==> k in KeysOf(x) {
      if cmd.Write? {
        KeyOfPair(cmd.pairs, x.pairs, k);
        KeyOfPair(x.pairs, cmd.pairs, k);
      } else {
        assert k in KeysOf(cmd) <==> k in multiset(KeysOf(cmd));
        assert k in KeysOf(x) <==> k in multiset(KeysOf(x));
      }
    }
  }

  lemma KeyOfPair(ps: seq<Pair>, qs: seq<Pair>, k: Key)
    requires multiset(ps) == multiset(qs)
    ensures k in KeysOf(Write(ps)) ==> k in KeysOf(Write(qs))
  {
    var ks, ls := KeysOf(Write(ps)), KeysOf(Write(qs));
    if k in ks {
      var i :| 0 <= i < |ks| && ks[i] == k;
      assert ps[i] in multiset(qs);
      var j :| 0 <= j < |qs| && qs[j] == ps[i];
      assert ls[j] == k;
    }
  }
}
