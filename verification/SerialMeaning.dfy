/** What the serial run of the commands does, said about the table as a map and
    about the texts the commands append to their files. */
module SerialMeaning {
  import opened Text
  import opened Tables
  import opened Batches
  import opened Store
  import B = BatchMeaning

  /** The map after a command. */
  function MapAfter(m: map<Key, string>, x: Command): map<Key, string> {
    match x
    case Write(ps) => m + B.AsMap(ps)
    case Delete(ks) => m - (set k | k in ks)
    case _ => m
  }

  function MapAfterAll(m: map<Key, string>, log: seq<Commit>): map<Key, string> {
    if log == [] then m else MapAfter(MapAfterAll(m, log[..|log| - 1]), log[|log| - 1].cmd)
  }

  /** The entries are the pairs of the map, each once. */
  ghost predicate Lists(m: map<Key, string>, es: seq<Entry>) {
    && (forall i, j | 0 <= i < j < |es| :: es[i].key != es[j].key)
    && (forall e | e in es :: e.key in m && m[e.key] == e.value)
    && (forall k | k in m :: exists i :: 0 <= i < |es| && es[i].key == k)
  }

  /** What a command prints when the table is this map. */
  ghost predicate Says(m: map<Key, string>, x: Command, text: string) {
    match x
    case Write(_) => text == ""
    case Read(ks) =>
      text == "[" + Concat(seq(|ks|, i requires 0 <= i < |ks| =>
        Cut("(" + ks[i] + "," + (if ks[i] in m then m[ks[i]] else "KVSERROR") + ")", 255))) + "]\n"
    case Delete(ks) =>
      var gone := B.Missing(m, ks);
      text == if gone == [] then "" else
        "[" + Concat(seq(|gone|, i requires 0 <= i < |gone| => Cut("(" + gone[i] + ",KVSMISSING)", 255))) + "]\n"
    case Show =>
      exists es: seq<Entry> :: Lists(m, es) && text == Concat(seq(|es|, i requires 0 <= i < |es| =>
        Cut("(" + es[i].key + ", " + es[i].value + ")\n", 255)))
    case Wait(delay) => text == if delay > 0 then "Waiting...\n" else ""
    case Backup => text == ""
  }

  /** The output files after the commands of log, started with this map: each command
      in turn appends what it prints to the file of its thread. */
  ghost predicate Tells(m: map<Key, string>, log: seq<Commit>, outs: seq<string>)
    decreases |log|
  {
    if log == [] then forall t | 0 <= t < |outs| :: outs[t] == ""
    else
      var init, c := log[..|log| - 1], log[|log| - 1];
      c.thread < |outs| &&
      exists before: string, text: string ::
        Says(MapAfterAll(m, init), c.cmd, text) && Joined(before, text, outs[c.thread]) &&
        Tells(m, init, outs[c.thread := before])
  }

  predicate Joined(a: string, b: string, whole: string) { whole == a + b }

  /** A backup file that prints every pair of the map once, of each line the first 39
      bytes. */
  ghost predicate BacksUp(m: map<Key, string>, text: string) {
    exists es: seq<Entry> :: Lists(m, es) && text == Concat(seq(|es|, i requires 0 <= i < |es| =>
      Cut("(" + es[i].key + ", " + es[i].value + ")\n", 39)))
  }

  /** The lines of a backup. */
  function BackupLines(es: seq<Entry>): seq<string> {
    seq(|es|, i requires 0 <= i < |es| => Cut("(" + es[i].key + ", " + es[i].value + ")\n", 39))
  }

  lemma {:induction false} BackupChainIs(es: seq<Entry>)
    ensures BackupChain(es) == Concat(BackupLines(es))
  {
    if es != [] {
      assert BackupLines(es)[1..] == BackupLines(es[1..]) && BackupLines(es)[0] == BackupLine(es[0]);
      BackupChainIs(es[1..]);
    }
  }

  lemma {:induction false} BackupChainSplit(a: Chain, b: Chain)
    ensures BackupChain(a + b) == BackupChain(a) + BackupChain(b)
  {
    if a == [] {
      assert a + b == b;
    } else {
      assert (a + b)[1..] == a[1..] + b;
      BackupChainSplit(a[1..], b);
    }
  }

  lemma {:induction false} BackupOfEntries(t: Table, n: nat)
    requires n <= TABLE_SIZE
    ensures BackupText(t, n) == BackupChain(B.Entries(t, n))
  {
    if n > 0 {
      BackupOfEntries(t, n - 1);
      BackupChainSplit(B.Entries(t, n - 1), t[n - 1]);
    }
  }

  lemma BackupMeans(t: Table)
    requires Valid(t)
    ensures BacksUp(Contents(t), BackupText(t, TABLE_SIZE))
    ensures Lists(Contents(t), B.Entries(t, TABLE_SIZE))
    ensures BackupText(t, TABLE_SIZE) == Concat(BackupLines(B.Entries(t, TABLE_SIZE)))
  {
    B.ShowMeaning(t);
    BackupOfEntries(t, TABLE_SIZE);
    BackupChainIs(B.Entries(t, TABLE_SIZE));
    assert Lists(Contents(t), B.Entries(t, TABLE_SIZE));
  }

  // ---- a command started with a file that is not empty ----

  lemma ActAppends(a: Act, p: Progress, before: string)
    ensures DoAct(a, p.(out := before + p.out)) == DoAct(a, p).(out := before + DoAct(a, p).out)
  {
    match a
    case Emit(text) => Regroup(before, p.out, text);
    case WriteKey(_, _) =>
    case ReadKey(k) => Regroup(before, p.out, ReadLine(k, Get(p.table, k)));
    case DeleteKey(k) =>
      var open := if p.flag then "" else "[";
      Regroup(before, p.out, open);
      Regroup(before, p.out + open, MissingLine(k));
    case EndDelete => Regroup(before, p.out, "]\n");
    case ShowBucket(b) =>
      if b < TABLE_SIZE {
        Regroup(before, p.out, ShowChain(p.table[b]));
      }
  }

  /** What a command prints does not depend on what the file holds. */
  lemma {:induction false} ActsAppend(acts: seq<Act>, p: Progress, before: string)
    ensures RunActs(acts, p.(out := before + p.out)) == RunActs(acts, p).(out := before + RunActs(acts, p).out)
  {
    if acts != [] {
      ActAppends(acts[0], p, before);
      ActsAppend(acts[1..], DoAct(acts[0], p), before);
    }
  }

  // ---- one command ----

  lemma WaitSays(delay: nat, t: Table)
    ensures B.RunAlone(Wait(delay), t) == Progress(t, if delay > 0 then "Waiting...\n" else "", false)
  {
    var p := Progress(t, "", false);
    if delay > 0 {
      B.RunOne(Emit(WAITING), p);
      assert "" + WAITING == WAITING;
    }
  }

  /** A command alone changes the map, and prints, as it should. */
  lemma AloneMeans(x: Command, t: Table)
    requires Valid(t)
    ensures var p := B.RunAlone(x, t);
            && Valid(p.table) && Contents(p.table) == MapAfter(Contents(t), x) && Says(Contents(t), x, p.out)
  {
    match x
    case Write(ps) => B.WriteMeaning(ps, t);
    case Read(ks) => B.ReadMeaning(ks, t);
    case Delete(ks) => B.DeleteMeaning(ks, t);
    case Show =>
      B.ShowMeaning(t);
      assert Lists(Contents(t), B.Entries(t, TABLE_SIZE));
    case Wait(delay) => WaitSays(delay, t);
    case Backup =>
  }

  /** And started with a file that holds something, it appends to that. */
  lemma AppendsMeaning(x: Command, t: Table, out: string) returns (text: string)
    requires Valid(t)
    ensures var p := RunActs(Acts(x), Progress(t, out, false));
            && Valid(p.table) && Contents(p.table) == MapAfter(Contents(t), x)
            && p.out == out + text && Says(Contents(t), x, text)
  {
    NothingAfter(out);
    ActsAppend(Acts(x), Progress(t, "", false), out);
    AloneMeans(x, t);
    text := B.RunAlone(x, t).out;
  }

  lemma CommandMeans(r: Serial, c: Commit) returns (text: string)
    requires Valid(r.table) && c.thread < |r.outs|
    ensures var r' := RunCommand(r, c);
            && Valid(r'.table) && Contents(r'.table) == MapAfter(Contents(r.table), c.cmd)
            && Says(Contents(r.table), c.cmd, text)
            && r'.outs == r.outs[c.thread := r.outs[c.thread] + text]
  {
    text := AppendsMeaning(c.cmd, r.table, r.outs[c.thread]);
  }

  // ---- all of them ----

  ghost predicate ThreadsKnown(log: seq<Commit>, n: nat) {
    forall i | 0 <= i < |log| :: log[i].thread < n
  }

  /** The serial run means: the table holds the map after all commands, and each file
      what its commands print, in turn, about the map as they find it. */
  lemma {:induction false} SerialMeans(sys: System, log: seq<Commit>)
    requires Valid(sys.table) && ThreadsKnown(log, |sys.programs|)
    ensures var r := SerialResult(sys, log);
            && Valid(r.table) && Contents(r.table) == MapAfterAll(Contents(sys.table), log)
            && |r.outs| == |sys.programs| && Tells(Contents(sys.table), log, r.outs)
    decreases |log|
  {
    if log != [] {
      var init, c := log[..|log| - 1], log[|log| - 1];
      SerialMeans(sys, init);
      var r, r' := SerialResult(sys, init), SerialResult(sys, log);
      var text := CommandMeans(r, c);
      var before := r.outs[c.thread];
      assert r'.outs[c.thread := before] == r.outs;
      assert Joined(before, text, r'.outs[c.thread]);
    }
  }
}
