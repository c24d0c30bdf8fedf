/** What a job of one line does, from the bytes of its file to the bytes it prints:
    the whole way through the parser, the job threads and the table, for every
    command. */
module OneLineJobs {
  import opened Text
  import opened Tables
  import opened Batches
  import opened Store
  import opened JobRuns
  import B = BatchMeaning
  import M = SerialMeaning
  import N = Numbers
  import R = Runs
  import P = Parsing
  import J = JobText

  /** All that a job thread may do with one file, from a table on, to the end. */
  ghost predicate Finishes(table: Table, file: string, limit: nat, ls: seq<Step>) {
    && FilesOk([file])
    && IsRun(Start(SystemOf(table, [file], limit)), ls)
    && R.AllIdle(After(Start(SystemOf(table, [file], limit)), ls))
  }

  /** The state it leaves. */
  ghost function Left(table: Table, file: string, limit: nat, ls: seq<Step>): (s: State)
    requires Finishes(table, file, limit, ls)
  {
    After(Start(SystemOf(table, [file], limit)), ls)
  }

  // ---- one command of one thread ----

  lemma {:induction false} OnlyThread(log: seq<Commit>)
    requires M.ThreadsKnown(log, 1)
    ensures |R.CommitsOf(log, 0)| == |log|
    ensures forall i | 0 <= i < |log| :: log[i] == Commit(0, R.CommitsOf(log, 0)[i])
  {
    if log != [] {
      var init := log[..|log| - 1];
      assert forall i | 0 <= i < |init| :: init[i] == log[i];
      OnlyThread(init);
    }
  }

  lemma OneCommand(table: Table, file: string, c: P.JobCommand, limit: nat, ls: seq<Step>) returns (x: Command)
    requires Valid(table) && Found(file) == [c] && Finishes(table, file, limit, ls)
    ensures var s := Left(table, file, limit, ls);
            && Carries(c, x) && s.log == [Commit(0, x)] && |s.threads| == 1
            && Valid(s.table) && Contents(s.table) == M.MapAfter(Contents(table), x)
            && M.Says(Contents(table), x, s.threads[0].out)
  {
    var s, m := Left(table, file, limit, ls), Contents(table);
    FilesMean(table, [file], limit, ls);
    LogOfThreads(Start(SystemOf(table, [file], limit)), ls);
    assert [file][0] == file && CarriedOut(file, R.CommitsOf(s.log, 0));
    OnlyThread(s.log);
    x := s.log[0].cmd;
    assert s.log == [Commit(0, x)];
    OneCommit(m, s.log, Outputs(s));
  }

  lemma OneCommit(m: map<Key, string>, log: seq<Commit>, outs: seq<string>)
    requires |log| == 1 && |outs| == 1 && log[0].thread == 0 && M.Tells(m, log, outs)
    ensures M.MapAfterAll(m, log) == M.MapAfter(m, log[0].cmd) && M.Says(m, log[0].cmd, outs[0])
  {
    var init := log[..0];
    assert init == [];
    var before: string, text: string :|
      M.Says(M.MapAfterAll(m, init), log[0].cmd, text) && M.Joined(before, text, outs[0]) &&
      M.Tells(m, init, outs[0 := before]);
    assert outs[0 := before][0] == "";
    assert "" + text == text;
  }

  /** The file of one command holds just that. */
  lemma FileOf(c: P.JobCommand)
    requires J.Printable(c, 256)
    ensures Found(J.CommandText(c)) == [c]
    ensures Storable(c) ==> FilesOk([J.CommandText(c)])
  {
    assert J.JobText([c]) == J.CommandText(c) + J.JobText([c][1..]) == J.CommandText(c);
    J.JobRoundTrip([c], 256, "");
    assert [J.CommandText(c)][0] == J.CommandText(c);
  }

  // ---- the lists ----

  /** A key or value that the parser can read. */
  predicate Readable(s: string) { |s| < 40 && forall c | c in s :: c !in " ,)]\0" }

  /** The file of one list of keys is found to be that. */
  lemma KeysFile(ks: seq<Key>)
    requires 0 < |ks| < 256 && forall i | 0 <= i < |ks| :: Readable(ks[i])
    ensures var list := "[" + (ks[0] + Concat(seq(|ks| - 1, i requires 0 <= i < |ks| - 1 => "," + ks[i + 1]))) + "]\n";
            && "READ " + list == J.CommandText(P.Read(ks)) && "DELETE " + list == J.CommandText(P.Delete(ks))
            && FilesOk(["READ " + list]) && Found("READ " + list) == [P.Read(ks)]
            && FilesOk(["DELETE " + list]) && Found("DELETE " + list) == [P.Delete(ks)]
  {
    J.KeysTextIs(ks);
    forall i | 0 <= i < |ks| ensures J.Plain(ks[i]) {
      J.PlainIs(ks[i]);
    }
    assert J.MoreKeys(ks) == seq(|ks| - 1, i requires 0 <= i < |ks| - 1 => "," + ks[i + 1]);
    FileOf(P.Read(ks));
    FileOf(P.Delete(ks));
  }

  /** And the file of one list of pairs. */
  lemma PairsFile(ps: seq<Pair>)
    requires 0 < |ps| < 256 && forall i | 0 <= i < |ps| :: Readable(ps[i].key) && Readable(ps[i].value)
    ensures var file := "WRITE " + ("[" + Concat(seq(|ps|, i requires 0 <= i < |ps| =>
                          "(" + ps[i].key + "," + ps[i].value + ")")) + "]\n");
            && file == J.CommandText(P.Write(Items(ps)))
            && FilesOk([file]) && Found(file) == [P.Write(Items(ps))]
  {
    var items := Items(ps);
    J.PairsTextIs(items);
    forall i | 0 <= i < |ps| ensures J.PlainItem(items[i]) {
      J.PlainIs(ps[i].key);
      J.PlainIs(ps[i].value);
    }
    assert J.PairTexts(items) == seq(|ps|, i requires 0 <= i < |ps| => "(" + ps[i].key + "," + ps[i].value + ")");
    FileOf(P.Write(items));
  }

  /** ks in the order of strcmp. */
  ghost predicate SortedAs(ks: seq<Key>, sorted: seq<Key>) {
    && multiset(sorted) == multiset(ks)
    && forall i, j | 0 <= i < j < |sorted| ::
         var a, b := sorted[i], sorted[j];
         a <= b || exists n :: 0 <= n < |a| && n < |b| && a[..n] == b[..n] && a[n] < b[n]
  }

  lemma SortedIs(ks: seq<Key>, sorted: seq<Key>)
    requires multiset(sorted) == multiset(ks) && Sorted(sorted)
    ensures SortedAs(ks, sorted) && (forall k :: k in sorted <==> k in ks)
    ensures (set k | k in sorted) == (set k | k in ks)
  {
    forall i, j | 0 <= i < j < |sorted|
      ensures var a, b := sorted[i], sorted[j];
              a <= b || exists n :: 0 <= n < |a| && n < |b| && a[..n] == b[..n] && a[n] < b[n]
    {
      AtMostIff(sorted[i], sorted[j]);
    }
    forall k ensures k in sorted <==> k in ks {
      assert k in sorted <==> k in multiset(sorted);
      assert k in ks <==> k in multiset(ks);
    }
  }

  // ---- the commands ----

  /** WRITE [(k,v)...]: the map has its old keys and these; each of these has a value
      that was given for it, and each other key the value it had. Nothing is printed. */
  lemma WriteJob(table: Table, ps: seq<Pair>, file: string, limit: nat, ls: seq<Step>)
    requires Valid(table)
    requires 0 < |ps| < 256 && forall i | 0 <= i < |ps| :: Readable(ps[i].key) && Readable(ps[i].value)
    requires file == "WRITE " + ("[" + Concat(seq(|ps|, i requires 0 <= i < |ps| =>
               "(" + ps[i].key + "," + ps[i].value + ")")) + "]\n")
    requires Finishes(table, file, limit, ls)
    ensures var s := Left(table, file, limit, ls);
            && |s.threads| == 1 && s.threads[0].out == "" && Valid(s.table)
            && (forall k: Key :: k in Contents(s.table) <==> k in Contents(table) || exists v :: Pair(k, v) in ps)
            && forall k | k in Contents(s.table) ::
                 Pair(k, Contents(s.table)[k]) in ps ||
                 (k in Contents(table) && Contents(s.table)[k] == Contents(table)[k] && forall v :: Pair(k, v) !in ps)
  {
    var c := P.Write(Items(ps));
    PairsFile(ps);
    var x := OneCommand(table, file, c, limit, ls);
    SamePairs(ps, x);
    BatchSupplied(ps, x.pairs, Contents(table));
  }

  lemma SamePairs(ps: seq<Pair>, x: Command)
    requires Carries(P.Write(Items(ps)), x)
    ensures x.Write? && multiset(Items(ps)) == multiset(Items(x.pairs))
  {
    assert Items(x.pairs) == seq(|x.pairs|, i requires 0 <= i < |x.pairs| => P.Item(x.pairs[i].key, x.pairs[i].value));
  }

  lemma BatchSupplied(ps: seq<Pair>, qs: seq<Pair>, m: map<Key, string>)
    requires multiset(Items(ps)) == multiset(Items(qs))
    ensures var m' := m + B.AsMap(qs);
            && (forall k: Key :: k in m' <==> k in m || exists v :: Pair(k, v) in ps)
            && forall k | k in m' :: Pair(k, m'[k]) in ps || (k in m && m'[k] == m[k] && forall v :: Pair(k, v) !in ps)
  {
    forall k: Key, v ensures Pair(k, v) in ps <==> Pair(k, v) in qs {
      InItems(ps, Pair(k, v));
      InItems(qs, Pair(k, v));
    }
    forall k: Key ensures k in B.AsMap(qs) <==> exists v :: Pair(k, v) in ps {
      B.AsMapSupplied(qs, k);
      if v :| Pair(k, v) in qs {
        var i :| 0 <= i < |qs| && qs[i] == Pair(k, v);
        assert qs[i].key == k;
      }
      if k in B.AsMap(qs) {
        assert Pair(k, B.AsMap(qs)[k]) in ps;
      }
    }
    forall k | k in B.AsMap(qs) ensures Pair(k, B.AsMap(qs)[k]) in ps {
      B.AsMapSupplied(qs, k);
    }
  }

  lemma InItems(ps: seq<Pair>, p: Pair)
    ensures p in ps <==> P.Item(p.key, p.value) in multiset(Items(ps))
  {
    var item := P.Item(p.key, p.value);
    if i :| 0 <= i < |ps| && ps[i] == p {
      assert Items(ps)[i] == item;
    }
    if item in Items(ps) {
      var i :| 0 <= i < |ps| && Items(ps)[i] == item;
      assert ps[i] == p;
    }
  }

  /** READ [k,...]: the map stays, and the keys are printed in sorted order, each with
      its value or KVSERROR; no line is cut. */
  lemma ReadJob(table: Table, ks: seq<Key>, file: string, limit: nat, ls: seq<Step>)
    returns (sorted: seq<Key>)
    requires Valid(table) && forall k | k in Contents(table) :: |Contents(table)[k]| < 40
    requires 0 < |ks| < 256 && forall i | 0 <= i < |ks| :: Readable(ks[i])
    requires file == "READ " + ("[" + (ks[0] + Concat(seq(|ks| - 1, i requires 0 <= i < |ks| - 1 =>
               "," + ks[i + 1]))) + "]\n")
    requires Finishes(table, file, limit, ls)
    ensures SortedAs(ks, sorted)
    ensures var s := Left(table, file, limit, ls);
            var m := Contents(table);
            && Valid(s.table) && Contents(s.table) == m && |s.threads| == 1
            && s.threads[0].out == "[" + Concat(seq(|sorted|, i requires 0 <= i < |sorted| =>
                 "(" + sorted[i] + "," + (if sorted[i] in m then m[sorted[i]] else "KVSERROR") + ")")) + "]\n"
  {
    var c, m := P.Read(ks), Contents(table);
    KeysFile(ks);
    var x := OneCommand(table, file, c, limit, ls);
    sorted := x.keys;
    SortedIs(ks, sorted);
    AnswersUncut(m, sorted, Left(table, file, limit, ls).threads[0].out);
  }

  lemma AnswersUncut(m: map<Key, string>, ks: seq<Key>, out: string)
    requires (forall k | k in m :: |m[k]| < 40) && (forall k | k in ks :: |k| < 40) && M.Says(m, Read(ks), out)
    ensures out == "[" + Concat(seq(|ks|, i requires 0 <= i < |ks| =>
              "(" + ks[i] + "," + (if ks[i] in m then m[ks[i]] else "KVSERROR") + ")")) + "]\n"
  {
    assert seq(|ks|, i requires 0 <= i < |ks| =>
        Cut("(" + ks[i] + "," + (if ks[i] in m then m[ks[i]] else "KVSERROR") + ")", 255)) ==
      seq(|ks|, i requires 0 <= i < |ks| =>
        "(" + ks[i] + "," + (if ks[i] in m then m[ks[i]] else "KVSERROR") + ")");
  }

  /** DELETE [k,...]: the map is without these keys, and those absent at their turn are
      printed in sorted order; no line is cut. */
  lemma DeleteJob(table: Table, ks: seq<Key>, file: string, limit: nat, ls: seq<Step>)
    returns (sorted: seq<Key>)
    requires Valid(table)
    requires 0 < |ks| < 256 && forall i | 0 <= i < |ks| :: Readable(ks[i])
    requires file == "DELETE " + ("[" + (ks[0] + Concat(seq(|ks| - 1, i requires 0 <= i < |ks| - 1 =>
               "," + ks[i + 1]))) + "]\n")
    requires Finishes(table, file, limit, ls)
    ensures SortedAs(ks, sorted)
    ensures var s := Left(table, file, limit, ls);
            var gone := B.Missing(Contents(table), sorted);
            && Valid(s.table) && Contents(s.table) == Contents(table) - (set k | k in ks) && |s.threads| == 1
            && s.threads[0].out == if gone == [] then "" else
                 "[" + Concat(seq(|gone|, i requires 0 <= i < |gone| => "(" + gone[i] + ",KVSMISSING)")) + "]\n"
  {
    var c := P.Delete(ks);
    KeysFile(ks);
    var x := OneCommand(table, file, c, limit, ls);
    sorted := x.keys;
    SortedIs(ks, sorted);
    MissingUncut(Contents(table), sorted, Left(table, file, limit, ls).threads[0].out);
  }

  lemma MissingUncut(m: map<Key, string>, ks: seq<Key>, out: string)
    requires (forall k | k in ks :: |k| < 40) && M.Says(m, Delete(ks), out)
    ensures var gone := B.Missing(m, ks);
            out == if gone == [] then "" else
              "[" + Concat(seq(|gone|, i requires 0 <= i < |gone| => "(" + gone[i] + ",KVSMISSING)")) + "]\n"
  {
    var gone := B.Missing(m, ks);
    forall i | 0 <= i < |gone| ensures |gone[i]| < 40 {
      MissingAreKeys(m, ks, gone[i]);
    }
    assert seq(|gone|, i requires 0 <= i < |gone| => Cut("(" + gone[i] + ",KVSMISSING)", 255)) ==
      seq(|gone|, i requires 0 <= i < |gone| => "(" + gone[i] + ",KVSMISSING)");
  }

  lemma MissingAreKeys(m: map<Key, string>, ks: seq<Key>, k: Key)
    requires k in B.Missing(m, ks)
    ensures k in ks
  {
    B.MissingMeans(m, ks, k);
    assert k in multiset(B.Missing(m, ks));
    assert k in multiset(ks);
  }

  /** SHOW: the map stays, and every pair of it is printed once, on a line of its own;
      no line is cut. */
  lemma ShowJob(table: Table, limit: nat, ls: seq<Step>) returns (es: seq<Entry>)
    requires Valid(table) && forall k | k in Contents(table) :: |k| < 40 && |Contents(table)[k]| < 40
    requires Finishes(table, "SHOW\n", limit, ls)
    ensures var s, m := Left(table, "SHOW\n", limit, ls), Contents(table);
            && Valid(s.table) && Contents(s.table) == m && |s.threads| == 1
            && M.Lists(m, es)
            && s.threads[0].out == Concat(seq(|es|, i requires 0 <= i < |es| =>
                 "(" + es[i].key + ", " + es[i].value + ")\n"))
  {
    FileOf(P.Show);
    var x := OneCommand(table, "SHOW\n", P.Show, limit, ls);
    var m, out := Contents(table), Left(table, "SHOW\n", limit, ls).threads[0].out;
    es := PairsUncut(m, out);
  }

  lemma PairsUncut(m: map<Key, string>, out: string) returns (es: seq<Entry>)
    requires (forall k | k in m :: |k| < 40 && |m[k]| < 40) && M.Says(m, Show, out)
    ensures M.Lists(m, es)
    ensures out == Concat(seq(|es|, i requires 0 <= i < |es| => "(" + es[i].key + ", " + es[i].value + ")\n"))
  {
    es :| M.Lists(m, es) && out == Concat(seq(|es|, i requires 0 <= i < |es| =>
      Cut("(" + es[i].key + ", " + es[i].value + ")\n", 255)));
    LinesUncut(m, es);
  }

  lemma LinesUncut(m: map<Key, string>, es: seq<Entry>)
    requires (forall k | k in m :: |k| < 40 && |m[k]| < 40) && M.Lists(m, es)
    ensures seq(|es|, i requires 0 <= i < |es| => Cut("(" + es[i].key + ", " + es[i].value + ")\n", 255)) ==
            seq(|es|, i requires 0 <= i < |es| => "(" + es[i].key + ", " + es[i].value + ")\n")
  {
    forall i | 0 <= i < |es| ensures |es[i].key| < 40 && |es[i].value| < 40 {
      assert es[i] in es;
    }
  }

  /** WAIT d: the map stays, and Waiting... is printed unless d is 0. */
  lemma WaitJob(table: Table, d: nat, limit: nat, ls: seq<Step>)
    requires Valid(table) && d <= 4_294_967_295
    requires Finishes(table, "WAIT " + N.Decimal(d) + "\n", limit, ls)
    ensures var s := Left(table, "WAIT " + N.Decimal(d) + "\n", limit, ls);
            && Valid(s.table) && Contents(s.table) == Contents(table) && |s.threads| == 1
            && s.threads[0].out == if d == 0 then "" else "Waiting...\n"
  {
    FileOf(P.Wait(d));
    var x := OneCommand(table, "WAIT " + N.Decimal(d) + "\n", P.Wait(d), limit, ls);
  }

  /** BACKUP: the map stays, nothing is printed, and a backup process that is through
      has written every pair of the map once, on a line of its own, of which the first
      39 bytes. */
  lemma BackupJob(table: Table, limit: nat, ls: seq<Step>)
    requires Valid(table) && Finishes(table, "BACKUP\n", limit, ls)
    ensures var s, m := Left(table, "BACKUP\n", limit, ls), Contents(table);
            && Valid(s.table) && Contents(s.table) == m && |s.threads| == 1 && s.threads[0].out == ""
            && forall c | 0 <= c < |s.children| && s.children[c].status != Running ::
                 exists es: seq<Entry> :: M.Lists(m, es) && s.children[c].out ==
                   Concat(seq(|es|, i requires 0 <= i < |es| => Cut("(" + es[i].key + ", " + es[i].value + ")\n", 39)))
  {
    FileOf(P.Backup);
    var x := OneCommand(table, "BACKUP\n", P.Backup, limit, ls);
    var s := Left(table, "BACKUP\n", limit, ls);
    forall c | 0 <= c < |s.children| && s.children[c].status != Running
      ensures M.BacksUp(Contents(table), s.children[c].out)
    {
      BackupsMean(table, ["BACKUP\n"], limit, ls, c);
      assert s.log[..s.children[c].at] == [];
    }
  }
}
