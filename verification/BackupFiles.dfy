/** What a backup process leaves in its file when calls of write may move less than
    asked, or fail (kvs_backup; write_str). */
module BackupFiles {
  import opened Text
  import opened Tables
  import opened Batches
  import opened Pipes
  import opened Printers

  function LinesOf(c: Chain): (r: seq<string>)
    ensures |r| == |c|
  {
    seq(|c|, i requires 0 <= i < |c| => BackupLine(c[i]))
  }

  /** The lines of a backup of the first n buckets. */
  function BackupLines(t: Table, n: nat): seq<string>
    requires n <= TABLE_SIZE
  {
    if n == 0 then [] else BackupLines(t, n - 1) + LinesOf(t[n - 1])
  }

  /** Of every line as many bytes as were written before a call of write failed. */
  function Printed(lines: seq<string>, lens: seq<nat>): string
    requires |lens| == |lines|
  {
    if lines == [] then "" else Cut(lines[0], lens[0]) + Printed(lines[1..], lens[1..])
  }

  lemma {:induction false} PrintedSplit(a: seq<string>, b: seq<string>, lens: seq<nat>, more: seq<nat>)
    requires |lens| == |a| && |more| == |b|
    ensures Printed(a + b, lens + more) == Printed(a, lens) + Printed(b, more)
  {
    if a == [] {
      assert a + b == b && lens + more == more;
    } else {
      assert (a + b)[1..] == a[1..] + b && (lens + more)[1..] == lens[1..] + more;
      PrintedSplit(a[1..], b, lens[1..], more);
      Regroup(Cut(a[0], lens[0]), Printed(a[1..], lens[1..]), Printed(b, more));
    }
  }

  /** Of how many lines that was not all. */
  function Short(lines: seq<string>, lens: seq<nat>): nat
    requires |lens| == |lines|
  {
    if lines == [] then 0 else (if lens[0] < |lines[0]| then 1 else 0) + Short(lines[1..], lens[1..])
  }

  lemma {:induction false} ShortSplit(a: seq<string>, b: seq<string>, lens: seq<nat>, more: seq<nat>)
    requires |lens| == |a| && |more| == |b|
    ensures Short(a + b, lens + more) == Short(a, lens) + Short(b, more)
  {
    if a == [] {
      assert a + b == b && lens + more == more;
    } else {
      assert (a + b)[1..] == a[1..] + b && (lens + more)[1..] == lens[1..] + more;
      ShortSplit(a[1..], b, lens[1..], more);
    }
  }

  /** The output after the lines of a chain. */
  function PrintChain(c: Chain, o: Output): Output
    decreases |c|
  {
    if c == [] then o else PrintChain(c[1..], Print(BackupLine(c[0]), o))
  }

  /** And after the first n buckets. */
  function PrintTable(t: Table, n: nat, o: Output): Output
    requires n <= TABLE_SIZE
  {
    if n == 0 then o else PrintChain(t[n - 1], PrintTable(t, n - 1, o))
  }

  lemma {:induction false} PrintChainMeaning(c: Chain, o: Output) returns (lens: seq<nat>)
    ensures |lens| == |c| && PrintChain(c, o).data == o.data + Printed(LinesOf(c), lens)
    ensures Failures(o.events) == Failures(PrintChain(c, o).events) + Short(LinesOf(c), lens)
    ensures Quiet(o.events) ==>
              PrintChain(c, o).data == o.data + BackupChain(c) && Quiet(PrintChain(c, o).events)
    decreases |c|
  {
    if c == [] {
      lens := [];
      assert o.data + "" == o.data;
    } else {
      var line, o' := BackupLine(c[0]), Print(BackupLine(c[0]), o);
      var len := PrintMeaning(line, o);
      assert len == |line| ==> line[..len] == line;
      lens := PrintChainMeaning(c[1..], o');
      FirstShort(c, len, lens);
      Regroup(o.data, line, BackupChain(c[1..]));
      FirstPrinted(o.data, c, len, lens);
      lens := [len] + lens;
    }
  }

  lemma LinesMore(c: Chain)
    requires c != []
    ensures LinesOf(c)[0] == BackupLine(c[0]) && LinesOf(c)[1..] == LinesOf(c[1..])
  {
  }

  lemma FirstShort(c: Chain, len: nat, lens: seq<nat>)
    requires c != [] && |lens| == |c| - 1
    ensures Short(LinesOf(c), [len] + lens) ==
            (if len < |BackupLine(c[0])| then 1 else 0) + Short(LinesOf(c[1..]), lens)
  {
    LinesMore(c);
    assert ([len] + lens)[1..] == lens;
  }

  lemma FirstPrinted(out: string, c: Chain, len: nat, lens: seq<nat>)
    requires c != [] && |lens| == |c| - 1
    ensures out + Cut(BackupLine(c[0]), len) + Printed(LinesOf(c[1..]), lens) == out + Printed(LinesOf(c), [len] + lens)
  {
    LinesMore(c);
    assert ([len] + lens)[1..] == lens;
    Regroup(out, Cut(BackupLine(c[0]), len), Printed(LinesOf(c[1..]), lens));
  }

  lemma MoreLines(out: string, a: seq<string>, b: seq<string>, lens: seq<nat>, more: seq<nat>)
    requires |lens| == |a| && |more| == |b|
    ensures out + Printed(a, lens) + Printed(b, more) == out + Printed(a + b, lens + more)
    ensures Short(a, lens) + Short(b, more) == Short(a + b, lens + more)
  {
    PrintedSplit(a, b, lens, more);
    ShortSplit(a, b, lens, more);
    Regroup(out, Printed(a, lens), Printed(b, more));
  }

  lemma NextBucket(t: Table, n: nat, o: Output, before: seq<nat>) returns (lens: seq<nat>)
    requires 0 < n <= TABLE_SIZE && |before| == |BackupLines(t, n - 1)|
    requires PrintTable(t, n - 1, o).data == o.data + Printed(BackupLines(t, n - 1), before)
    requires Failures(o.events) == Failures(PrintTable(t, n - 1, o).events) + Short(BackupLines(t, n - 1), before)
    ensures |lens| == |BackupLines(t, n)| && PrintTable(t, n, o).data == o.data + Printed(BackupLines(t, n), lens)
    ensures Failures(o.events) == Failures(PrintTable(t, n, o).events) + Short(BackupLines(t, n), lens)
  {
    var more := PrintChainMeaning(t[n - 1], PrintTable(t, n - 1, o));
    MoreLines(o.data, BackupLines(t, n - 1), LinesOf(t[n - 1]), before, more);
    lens := before + more;
  }

  lemma NoBucket(t: Table, o: Output)
    ensures PrintTable(t, 0, o).data == o.data + Printed(BackupLines(t, 0), [])
    ensures Failures(o.events) == Failures(PrintTable(t, 0, o).events) + Short(BackupLines(t, 0), [])
  {
    NothingAfter(o.data);
  }

  lemma {:induction false} CutLines(t: Table, n: nat, o: Output) returns (lens: seq<nat>)
    requires n <= TABLE_SIZE
    ensures |lens| == |BackupLines(t, n)| && PrintTable(t, n, o).data == o.data + Printed(BackupLines(t, n), lens)
    ensures Failures(o.events) == Failures(PrintTable(t, n, o).events) + Short(BackupLines(t, n), lens)
  {
    if n == 0 {
      lens := [];
      NoBucket(t, o);
    } else {
      var before := CutLines(t, n - 1, o);
      lens := NextBucket(t, n, o, before);
    }
  }

  lemma {:induction false} QuietBackup(t: Table, n: nat, o: Output)
    requires n <= TABLE_SIZE && Quiet(o.events)
    ensures PrintTable(t, n, o).data == o.data + BackupText(t, n) && Quiet(PrintTable(t, n, o).events)
  {
    if n == 0 {
      assert o.data + "" == o.data;
    } else {
      QuietBackup(t, n - 1, o);
      var more := PrintChainMeaning(t[n - 1], PrintTable(t, n - 1, o));
      Regroup(o.data, BackupText(t, n - 1), BackupChain(t[n - 1]));
    }
  }

  /** A call of write that fails or is interrupted costs a backup the rest of one line,
      and no other: of every line some first bytes are in the file, in order, and of
      exactly as many lines as calls fail these are not all. */
  lemma BackupMeaning(t: Table, n: nat, o: Output) returns (lens: seq<nat>)
    requires n <= TABLE_SIZE
    ensures |lens| == |BackupLines(t, n)| && PrintTable(t, n, o).data == o.data + Printed(BackupLines(t, n), lens)
    ensures Failures(o.events) == Failures(PrintTable(t, n, o).events) + Short(BackupLines(t, n), lens)
    ensures Quiet(o.events) ==>
              PrintTable(t, n, o).data == o.data + BackupText(t, n) && Quiet(PrintTable(t, n, o).events)
  {
    lens := CutLines(t, n, o);
    if Quiet(o.events) {
      QuietBackup(t, n, o);
    }
  }

  lemma PrintMore(c: Chain, i: nat, o: Output)
    requires i < |c|
    ensures PrintChain(c[i..], o) == PrintChain(c[i + 1..], Print(BackupLine(c[i]), o))
  {
    assert c[i..][1..] == c[i + 1..];
  }
}
