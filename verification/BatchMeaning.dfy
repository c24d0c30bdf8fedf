/** What a whole batch does, said about the table as a map. */
module BatchMeaning {
  import opened Text
  import opened Tables
  import opened Batches

  /** The result of running a command alone, starting with an empty file. */
  function RunAlone(cmd: Command, t: Table): Progress {
    RunActs(Acts(cmd), Progress(t, "", false))
  }

  lemma RunOne(a: Act, p: Progress)
    ensures RunActs([a], p) == DoAct(a, p)
  {
    assert [a][1..] == [];
    assert RunActs([], DoAct(a, p)) == DoAct(a, p);
  }

  // ---- WRITE ----

  ghost predicate Distinct(ps: seq<Pair>) {
    forall i, j | 0 <= i < j < |ps| :: ps[i].key != ps[j].key
  }

  /** The batch as a map: of several values for one key, the last. */
  function AsMap(ps: seq<Pair>): map<Key, string> {
    if ps == [] then map[] else map[ps[0].key := ps[0].value] + AsMap(ps[1..])
  }

  /** Its values are all values supplied for their keys. */
  lemma {:induction false} AsMapSupplied(ps: seq<Pair>, k: Key)
    ensures k in AsMap(ps) ==> Pair(k, AsMap(ps)[k]) in ps
    ensures k in AsMap(ps) <==> exists i :: 0 <= i < |ps| && ps[i].key == k
  {
    if ps != [] {
      AsMapSupplied(ps[1..], k);
      assert ps == [ps[0]] + ps[1..];
      if i :| 0 <= i < |ps[1..]| && ps[1..][i].key == k {
        assert ps[i + 1].key == k;
      } else {
        assert forall i | 0 < i < |ps| :: ps[i] == ps[1..][i - 1];
      }
    }
  }

  lemma OverrideTwice(m: map<Key, string>, k: Key, v: string, over: map<Key, string>)
    ensures m[k := v] + over == m + (map[k := v] + over)
  {
  }

  lemma FirstWrite(ps: seq<Pair>, p: Progress)
    requires ps != []
    ensures RunActs(Acts(Write(ps)), p) ==
            RunActs(Acts(Write(ps[1..])), p.(table := Put(p.table, ps[0].key, ps[0].value)))
  {
    var acts := Acts(Write(ps));
    assert acts[1..] == Acts(Write(ps[1..])) && acts[0] == WriteKey(ps[0].key, ps[0].value);
  }

  lemma {:induction false} WriteActs(ps: seq<Pair>, p: Progress)
    requires Valid(p.table)
    ensures var p' := RunActs(Acts(Write(ps)), p);
            && Valid(p'.table) && p'.out == p.out && p'.flag == p.flag
            && Contents(p'.table) == Contents(p.table) + AsMap(ps)
            && forall k: Key :: Subscribers(p'.table, k) == Subscribers(p.table, k)
  {
    var m := Contents(p.table);
    if ps == [] {
      assert m + AsMap(ps) == m;
    } else {
      var q := p.(table := Put(p.table, ps[0].key, ps[0].value));
      PutMeaning(p.table, ps[0].key, ps[0].value);
      FirstWrite(ps, p);
      WriteActs(ps[1..], q);
      OverrideTwice(m, ps[0].key, ps[0].value, AsMap(ps[1..]));
    }
  }

  /** WRITE overrides the map by the batch in its order, keeps all subscribers, and
      prints nothing. */
  lemma WriteMeaning(ps: seq<Pair>, t: Table)
    requires Valid(t)
    ensures Valid(RunAlone(Write(ps), t).table) && RunAlone(Write(ps), t).out == ""
    ensures Contents(RunAlone(Write(ps), t).table) == Contents(t) + AsMap(ps)
    ensures forall k: Key :: Subscribers(RunAlone(Write(ps), t).table, k) == Subscribers(t, k)
  {
    WriteActs(ps, Progress(t, "", false));
  }

  /** With distinct keys the result does not depend on the order qsort leaves. */
  lemma DistinctWritesCommute(ps: seq<Pair>, qs: seq<Pair>, t: Table)
    requires Valid(t) && Distinct(ps) && multiset(ps) == multiset(qs)
    ensures Valid(RunAlone(Write(ps), t).table) && Valid(RunAlone(Write(qs), t).table)
    ensures Contents(RunAlone(Write(ps), t).table) == Contents(RunAlone(Write(qs), t).table)
  {
    WriteMeaning(ps, t);
    WriteMeaning(qs, t);
    SameBatch(ps, qs);
  }

  lemma SameBatch(ps: seq<Pair>, qs: seq<Pair>)
    requires Distinct(ps) && multiset(ps) == multiset(qs)
    ensures AsMap(ps) == AsMap(qs)
  {
    forall p: Pair ensures p in qs <==> p in ps {
      assert p in ps <==> p in multiset(ps);
      assert p in qs <==> p in multiset(qs);
    }
    forall k: Key ensures k in AsMap(ps) <==> k in AsMap(qs) {
      AsMapSupplied(ps, k);
      AsMapSupplied(qs, k);
      if i :| 0 <= i < |ps| && ps[i].key == k {
        assert ps[i] in qs;
      }
    }
    forall k | k in AsMap(ps) ensures AsMap(ps)[k] == AsMap(qs)[k] {
      AsMapSupplied(ps, k);
      AsMapSupplied(qs, k);
      assert Pair(k, AsMap(qs)[k]) in ps;
    }
  }

  // ---- READ ----

  /** What READ prints for some keys. */
  function Answers(m: map<Key, string>, ks: seq<Key>): seq<string> {
    seq(|ks|, i requires 0 <= i < |ks| =>
      Cut("(" + ks[i] + "," + (if ks[i] in m then m[ks[i]] else "KVSERROR") + ")", 255))
  }

  function ReadActs(ks: seq<Key>): seq<Act> {
    seq(|ks|, i requires 0 <= i < |ks| => ReadKey(ks[i]))
  }

  lemma AnswerIsLine(t: Table, k: Key)
    requires Valid(t)
    ensures Answers(Contents(t), [k])[0] == ReadLine(k, Get(t, k))
  {
    assert [k][0] == k;
  }

  lemma {:induction false} ReadActsMeaning(ks: seq<Key>, p: Progress)
    requires Valid(p.table)
    ensures RunActs(ReadActs(ks), p) == p.(out := p.out + Concat(Answers(Contents(p.table), ks)))
  {
    if ks == [] {
      assert p.out + "" == p.out;
    } else {
      var m, a := Contents(p.table), ReadLine(ks[0], Get(p.table, ks[0]));
      AnswerIsLine(p.table, ks[0]);
      assert Answers(m, ks)[0] == Answers(m, [ks[0]])[0] && Answers(m, ks)[1..] == Answers(m, ks[1..]);
      assert ReadActs(ks)[1..] == ReadActs(ks[1..]) && ReadActs(ks)[0] == ReadKey(ks[0]);
      ReadActsMeaning(ks[1..], p.(out := p.out + a));
      Regroup(p.out, a, Concat(Answers(m, ks[1..])));
    }
  }

  /** READ prints the value of every key, in its order, and leaves the table alone; of
      what it prints for one key, at most 255 bytes. */
  lemma ReadMeaning(ks: seq<Key>, t: Table)
    requires Valid(t)
    ensures var m := Contents(t);
            var lines := seq(|ks|, i requires 0 <= i < |ks| =>
              Cut("(" + ks[i] + "," + (if ks[i] in m then m[ks[i]] else "KVSERROR") + ")", 255));
            RunAlone(Read(ks), t) == Progress(t, "[" + Concat(lines) + "]\n", false)
  {
    var p := Progress(t, "[", false);
    var acts := Acts(Read(ks));
    assert acts[1..] == ReadActs(ks) + [Emit("]\n")];
    assert "" + "[" == "[";
    RunActsSplit(ReadActs(ks), [Emit("]\n")], p);
    ReadActsMeaning(ks, p);
    RunOne(Emit("]\n"), RunActs(ReadActs(ks), p));
  }

  // ---- DELETE ----

  /** The keys absent at their turn: not in the map, or deleted a moment before. */
  function Missing(m: map<Key, string>, ks: seq<Key>): seq<Key> {
    if ks == [] then []
    else (if ks[0] in m then [] else [ks[0]]) + Missing(m - {ks[0]}, ks[1..])
  }

  /** What DELETE prints for them. */
  function MissingLines(ks: seq<Key>): seq<string> {
    seq(|ks|, i requires 0 <= i < |ks| => Cut("(" + ks[i] + ",KVSMISSING)", 255))
  }

  lemma FirstMissing(ks: seq<Key>)
    requires ks != []
    ensures MissingLines(ks)[0] == MissingLine(ks[0]) && MissingLines(ks)[1..] == MissingLines(ks[1..])
  {
  }

  function DeleteActs(ks: seq<Key>): seq<Act> {
    seq(|ks|, i requires 0 <= i < |ks| => DeleteKey(ks[i]))
  }

  /** One deletion: the key goes, and is reported if it was not there. */
  lemma DeleteOne(k: Key, p: Progress)
    requires Valid(p.table)
    ensures var q, m := DoAct(DeleteKey(k), p), Contents(p.table);
            && Valid(q.table) && Contents(q.table) == m - {k}
            && q.flag == (p.flag || k !in m)
            && q.out == p.out + if k in m then "" else Opening(p.flag, true) + MissingLine(k)
  {
    DropMeaning(p.table, k);
    DropAbsent(p.table, k);
    Regroup(p.out, Opening(p.flag, true), MissingLine(k));
  }

  function Opening(begun: bool, needed: bool): string { if needed && !begun then "[" else "" }

  lemma FirstDelete(ks: seq<Key>, p: Progress)
    requires ks != []
    ensures RunActs(DeleteActs(ks), p) == RunActs(DeleteActs(ks[1..]), DoAct(DeleteKey(ks[0]), p))
  {
    assert DeleteActs(ks)[1..] == DeleteActs(ks[1..]) && DeleteActs(ks)[0] == DeleteKey(ks[0]);
  }

  lemma {:induction false} DeleteActsMeaning(ks: seq<Key>, p: Progress)
    requires Valid(p.table)
    ensures var p', gone := RunActs(DeleteActs(ks), p), Missing(Contents(p.table), ks);
            && Valid(p'.table)
            && Contents(p'.table) == Contents(p.table) - (set k | k in ks)
            && p'.flag == (p.flag || gone != [])
            && p'.out == p.out + (Opening(p.flag, gone != []) + Concat(MissingLines(gone)))
  {
    var m, gone := Contents(p.table), Missing(Contents(p.table), ks);
    if ks == [] {
      assert p.out + "" == p.out;
      assert m - (set k | k in ks) == m;
    } else {
      var q := DoAct(DeleteKey(ks[0]), p);
      DeleteOne(ks[0], p);
      FirstDelete(ks, p);
      DeleteActsMeaning(ks[1..], q);
      WithoutAll(m, ks);
      MissingText(p.out, p.flag, m, ks);
    }
  }

  lemma NothingBefore(s: string)
    ensures "" + s == s
  {
  }

  lemma WithoutAll(m: map<Key, string>, ks: seq<Key>)
    requires ks != []
    ensures m - {ks[0]} - (set k | k in ks[1..]) == m - (set k | k in ks)
  {
    assert ks == [ks[0]] + ks[1..];
    assert (set k | k in ks) == {ks[0]} + set k | k in ks[1..];
  }

  lemma MissingText(out: string, begun: bool, m: map<Key, string>, ks: seq<Key>)
    requires ks != []
    ensures var k, gone, rest := ks[0], Missing(m, ks), Missing(m - {ks[0]}, ks[1..]);
            out + (if k in m then "" else Opening(begun, true) + MissingLine(k))
              + (Opening(begun || k !in m, rest != []) + Concat(MissingLines(rest)))
            == out + (Opening(begun, gone != []) + Concat(MissingLines(gone)))
  {
    var gone, rest := Missing(m, ks), Missing(m - {ks[0]}, ks[1..]);
    if ks[0] in m {
      assert gone == rest;
      Regroup(out, "", Opening(begun, rest != []) + Concat(MissingLines(rest)));
      NothingBefore(Opening(begun, rest != []) + Concat(MissingLines(rest)));
    } else {
      assert gone[1..] == rest && gone[0] == ks[0];
      FirstMissing(gone);
      var open, line := Opening(begun, true), MissingLine(ks[0]);
      NothingBefore(Concat(MissingLines(rest)));
      Regroup(open, line, Concat(MissingLines(rest)));
      Regroup(out, open + line, Concat(MissingLines(rest)));
    }
  }

  lemma DropAbsent(t: Table, k: Key)
    requires Valid(t)
    ensures k !in Contents(t) ==> Contents(t) - {k} == Contents(t)
  {
  }

  /** A key is printed as missing once for each of its turns but the one that
      removes it: absent from the map, or listed before. */
  lemma {:induction false} MissingMeans(m: map<Key, string>, ks: seq<Key>, k: Key)
    ensures multiset(Missing(m, ks))[k] ==
            if k in m && k in ks then multiset(ks)[k] - 1 else multiset(ks)[k]
  {
    if ks != [] {
      MissingMeans(m - {ks[0]}, ks[1..], k);
      assert ks == [ks[0]] + ks[1..];
      if k != ks[0] {
        assert k in ks <==> k in ks[1..];
      } else {
        assert multiset(ks)[k] == multiset(ks[1..])[k] + 1;
      }
    }
  }

  /** DELETE removes its keys, and prints those absent at their turn, in order, in
      one pair of brackets, each in at most 255 bytes; it prints nothing when there are
      none. */
  lemma DeleteMeaning(ks: seq<Key>, t: Table)
    requires Valid(t)
    ensures var p, gone := RunAlone(Delete(ks), t), Missing(Contents(t), ks);
            && Valid(p.table)
            && Contents(p.table) == Contents(t) - (set k | k in ks)
            && p.out == if gone == [] then "" else
                 "[" + Concat(seq(|gone|, i requires 0 <= i < |gone| =>
                   Cut("(" + gone[i] + ",KVSMISSING)", 255))) + "]\n"
  {
    var p, gone := Progress(t, "", false), Missing(Contents(t), ks);
    RunActsSplit(DeleteActs(ks), [EndDelete], p);
    DeleteActsMeaning(ks, p);
    RunOne(EndDelete, RunActs(DeleteActs(ks), p));
    assert Acts(Delete(ks)) == DeleteActs(ks) + [EndDelete];
    NothingBefore(Opening(false, gone != []) + Concat(MissingLines(gone)));
    if gone == [] {
      NothingBefore(Concat(MissingLines(gone)));
    }
  }

  // ---- SHOW ----

  /** All entries, bucket by bucket up to bucket n, in chain order. */
  function Entries(t: Table, n: nat): seq<Entry>
    requires n <= TABLE_SIZE
  {
    if n == 0 then [] else Entries(t, n - 1) + t[n - 1]
  }

  function ShowActs(n: nat, m: nat): seq<Act>
    requires n <= m
  {
    seq(m - n, i requires 0 <= i < m - n => ShowBucket(n + i))
  }

  lemma {:induction false} ShowChainSplit(a: Chain, b: Chain)
    ensures ShowChain(a + b) == ShowChain(a) + ShowChain(b)
  {
    if a == [] {
      assert a + b == b;
    } else {
      assert (a + b)[1..] == a[1..] + b;
      ShowChainSplit(a[1..], b);
    }
  }

  lemma OneMoreBucket(n: nat)
    requires n > 0
    ensures ShowActs(0, n) == ShowActs(0, n - 1) + [ShowBucket(n - 1)]
  {
  }

  lemma {:induction false} ShowActsMeaning(t: Table, n: nat, p: Progress)
    requires n <= TABLE_SIZE && p.table == t
    ensures RunActs(ShowActs(0, n), p) == p.(out := p.out + ShowChain(Entries(t, n)))
  {
    if n == 0 {
      assert p.out + "" == p.out;
    } else {
      ShowActsMeaning(t, n - 1, p);
      OneMoreBucket(n);
      RunActsSplit(ShowActs(0, n - 1), [ShowBucket(n - 1)], p);
      RunOne(ShowBucket(n - 1), RunActs(ShowActs(0, n - 1), p));
      ShowChainSplit(Entries(t, n - 1), t[n - 1]);
      Regroup(p.out, ShowChain(Entries(t, n - 1)), ShowChain(t[n - 1]));
    }
  }

  /** The chain of a bucket has the entries of its keys. */
  lemma OwnEntries(t: Table, b: nat)
    requires Valid(t) && b < TABLE_SIZE
    ensures forall e | e in t[b] :: Bucket(e.key) == b && Get(t, e.key) == Some(e)
    ensures forall k: Key | Bucket(k) == b && Get(t, k).Some? :: Get(t, k).value in t[b]
  {
    var c := t[b];
    assert ValidChain(c, b);
    forall i | 0 <= i < |c| ensures Get(t, c[i].key) == Some(c[i]) {
      FindIsUnique(c, b, i);
    }
  }

  lemma {:induction false} EntriesOnce(t: Table, n: nat)
    requires Valid(t) && n <= TABLE_SIZE
    ensures forall i, j | 0 <= i < j < |Entries(t, n)| :: Entries(t, n)[i].key != Entries(t, n)[j].key
    ensures forall e | e in Entries(t, n) :: Bucket(e.key) < n && Get(t, e.key) == Some(e)
    ensures forall k: Key | Bucket(k) < n && Get(t, k).Some? :: Get(t, k).value in Entries(t, n)
  {
    if n > 0 {
      EntriesOnce(t, n - 1);
      var c, es := t[n - 1], Entries(t, n - 1);
      assert ValidChain(c, n - 1);
      OwnEntries(t, n - 1);
      forall i, j | 0 <= i < |es| && 0 <= j < |c| ensures es[i].key != c[j].key {
        assert es[i] in es && c[j] in c;
      }
      NoKeyTwice(es, c);
    }
  }

  lemma NoKeyTwice(a: seq<Entry>, b: seq<Entry>)
    requires forall i, j | 0 <= i < j < |a| :: a[i].key != a[j].key
    requires forall i, j | 0 <= i < j < |b| :: b[i].key != b[j].key
    requires forall i, j | 0 <= i < |a| && 0 <= j < |b| :: a[i].key != b[j].key
    ensures forall i, j | 0 <= i < j < |a + b| :: (a + b)[i].key != (a + b)[j].key
  {
  }

  /** The lines of SHOW. */
  function ShowLines(es: seq<Entry>): seq<string> {
    seq(|es|, i requires 0 <= i < |es| => Cut("(" + es[i].key + ", " + es[i].value + ")\n", 255))
  }

  lemma {:induction false} ShowChainIs(es: seq<Entry>)
    ensures ShowChain(es) == Concat(ShowLines(es))
  {
    if es != [] {
      assert ShowLines(es)[1..] == ShowLines(es[1..]) && ShowLines(es)[0] == ShowLine(es[0]);
      ShowChainIs(es[1..]);
    }
  }

  /** SHOW prints every pair of the table exactly once, each in at most 255 bytes. */
  lemma ShowMeaning(t: Table)
    requires Valid(t)
    ensures var es := Entries(t, TABLE_SIZE);
            && RunAlone(Show, t) == Progress(t, ShowChain(es), false)
            && ShowChain(es) == Concat(seq(|es|, i requires 0 <= i < |es| =>
                 Cut("(" + es[i].key + ", " + es[i].value + ")\n", 255)))
            && (forall i, j | 0 <= i < j < |es| :: es[i].key != es[j].key)
            && (forall e | e in es :: e.key in Contents(t) && Contents(t)[e.key] == e.value)
            && (forall k | k in Contents(t) :: exists i :: 0 <= i < |es| && es[i].key == k)
  {
    var es := Entries(t, TABLE_SIZE);
    ShowChainIs(es);
    assert Acts(Show) == ShowActs(0, TABLE_SIZE);
    ShowActsMeaning(t, TABLE_SIZE, Progress(t, "", false));
    EntriesOnce(t, TABLE_SIZE);
    forall k | k in Contents(t) ensures exists i :: 0 <= i < |es| && es[i].key == k {
      var e := Get(t, k).value;
      assert e in es;
      assert e.key == k;
    }
  }
}
