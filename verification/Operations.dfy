/** The commands of a job as they run on the table in memory (operations.c): sort,
    lock, one key at a time, unlock. Each does to the table, the output and the
    subscribers what its plan in Batches says. */
module Operations {
  import opened Text
  import opened Tables
  import opened Batches
  import opened Sorting
  import opened HashTables
  import opened Pipes
  import opened Printers
  import opened BackupFiles
  import B = BatchMeaning
  import M = SerialMeaning

  // ---- qsort ----

  /** The array becomes some order of its members with the keys not decreasing: each is a
      beginning of every later one, or smaller at the first byte that is not the same. */
  method Qsort<T(!new)>(key: T -> string, a: array<T>)
    modifies a
    ensures SortedBy(key, a[..]) && multiset(a[..]) == multiset(old(a[..]))
    ensures forall i, j | 0 <= i < j < a.Length ::
              var x, y := key(a[..][i]), key(a[..][j]);
              x <= y || exists n :: 0 <= n < |x| && n < |y| && x[..n] == y[..n] && x[n] < y[n]
  {
    var r := Sort(key, a[..]);
    assert |multiset(r)| == |multiset(a[..])|;
    forall i | 0 <= i < a.Length {
      a[i] := r[i];
    }
    assert a[..] == r;
    SortedByIff(key, r);
  }

  // ---- the locks of a batch ----

  lemma FirstsMore(bs: seq<nat>, i: nat)
    requires i < |bs|
    ensures var r := Firsts(bs[..i]); Firsts(bs[..i + 1]) == if bs[i] in r then r else r + [bs[i]]
  {
    assert bs[..i + 1][..i] == bs[..i];
  }

  method NoLocks() returns (indexList: array<bool>)
    ensures fresh(indexList) && indexList.Length == TABLE_SIZE
    ensures forall b | 0 <= b < TABLE_SIZE :: !indexList[b]
  {
    indexList := new bool[TABLE_SIZE](_ => false);
  }

  /** Marks a bucket as taken, after some others. */
  method Mark(indexList: array<bool>, index: nat, ghost taken: seq<nat>)
    requires indexList.Length == TABLE_SIZE && index < TABLE_SIZE
    requires forall b | 0 <= b < TABLE_SIZE :: indexList[b] <==> b in taken
    modifies indexList
    ensures forall b | 0 <= b < TABLE_SIZE :: indexList[b] <==> b in taken + [index]
  {
    indexList[index] := true;
  }

  /** Locks every bucket of the keys that is not locked yet, in key order. */
  method LockList(keys: seq<Key>, indexList: array<bool>) returns (taken: seq<nat>)
    requires indexList.Length == TABLE_SIZE && forall b | 0 <= b < TABLE_SIZE :: !indexList[b]
    modifies indexList
    ensures taken == Firsts(Buckets(keys))
    ensures forall b | 0 <= b < TABLE_SIZE :: indexList[b] <==> b in taken
  {
    taken := [];
    ghost var bs := Buckets(keys);
    var i := 0;
    while i < |keys|
      invariant i <= |keys| && taken == Firsts(bs[..i])
      invariant forall b | 0 <= b < TABLE_SIZE :: indexList[b] <==> b in taken
    {
      var index := Bucket(keys[i]);
      FirstsMore(bs, i);
      if !indexList[index] {
        Mark(indexList, index, taken);
        taken := taken + [index];
      }
      i := i + 1;
    }
    assert bs[..i] == bs;
  }

  /** Unlocks, in bucket order, every bucket that is marked, once. */
  method UnlockList(indexList: array<bool>) returns (released: seq<nat>)
    requires indexList.Length == TABLE_SIZE
    modifies indexList
    ensures forall b | 0 <= b < TABLE_SIZE :: !indexList[b]
    ensures forall b: nat :: b in released <==> b < TABLE_SIZE && old(indexList[..])[b]
    ensures forall i, j | 0 <= i < j < |released| :: released[i] < released[j]
  {
    released := [];
    var i := 0;
    while i < TABLE_SIZE
      invariant i <= TABLE_SIZE
      invariant forall b | 0 <= b < i :: !indexList[b]
      invariant forall b | i <= b < TABLE_SIZE :: indexList[b] == old(indexList[b])
      invariant forall b: nat :: b in released <==> b < i && old(indexList[..])[b]
      invariant forall x, y | 0 <= x < y < |released| :: released[x] < released[y]
    {
      if indexList[i] {
        assert forall x | 0 <= x < |released| :: released[x] in released;
        released := released + [i];
        indexList[i] := false;
      }
      i := i + 1;
    }
  }

  /** The locks of a command were taken in the order of its plan, and each was
      released once. */
  ghost predicate LockedAndUnlocked(x: Command, taken: seq<nat>, released: seq<nat>) {
    && taken == Locks(x)
    && (forall b :: b in released <==> b in taken)
    && forall i, j | 0 <= i < j < |released| :: released[i] < released[j]
  }

  // ---- progress through a plan ----

  /** The state of a command that has done its first i actions. */
  ghost predicate Done(acts: seq<Act>, i: nat, start: Progress, now: Progress, sent: seq<Note>)
  {
    && i <= |acts|
    && RunActs(acts, start) == RunActs(acts[i..], now)
    && Sent(acts, start) == sent + Sent(acts[i..], now)
  }

  lemma DoneNone(acts: seq<Act>, p: Progress)
    ensures Done(acts, 0, p, p, [])
  {
    assert acts[0..] == acts;
    assert [] + Sent(acts, p) == Sent(acts, p);
  }

  lemma DoneAll(acts: seq<Act>, i: nat, start: Progress, now: Progress, sent: seq<Note>)
    requires Done(acts, i, start, now, sent) && i == |acts|
    ensures now == RunActs(acts, start) && sent == Sent(acts, start)
  {
    assert sent + [] == sent;
  }

  /** One more action that sends nothing. */
  lemma DoneQuietly(acts: seq<Act>, i: nat, start: Progress, now: Progress, sent: seq<Note>)
    requires Done(acts, i, start, now, sent) && i < |acts| && NotesOf(acts[i], now.table) == []
    ensures Done(acts, i + 1, start, DoAct(acts[i], now), sent)
  {
    DoneMore(acts, i, start, now, sent, []);
    assert sent + [] == sent;
  }

  /** One more action, and what it sends. */
  lemma DoneMore(acts: seq<Act>, i: nat, start: Progress, now: Progress, sent: seq<Note>, more: seq<Note>)
    requires Done(acts, i, start, now, sent) && i < |acts| && more == NotesOf(acts[i], now.table)
    ensures Done(acts, i + 1, start, DoAct(acts[i], now), sent + more)
  {
    var rest := acts[i..];
    assert rest[0] == acts[i] && rest[1..] == acts[i + 1..];
    Regroup(sent, more, Sent(acts[i + 1..], DoAct(acts[i], now)));
  }

  // ---- the commands ----

  /** x is the batch as sorted. The result is that of its plan. */
  method KvsWrite(table: HashTable, pairs: seq<Pair>)
    returns (r: int, ghost x: Command, taken: seq<nat>, released: seq<nat>, sent: seq<Note>)
    requires table.Valid()
    modifies table, table.table, table.Repr
    ensures table.Valid() && r == 0 && Instance(Write(pairs), x)
    ensures LockedAndUnlocked(x, taken, released)
    ensures table.view == RunActs(Acts(x), Progress(old(table.view), "", false)).table
    ensures sent == Sent(Acts(x), Progress(old(table.view), "", false))
    ensures x.Write? && Tables.Valid(old(table.view)) && Tables.Valid(table.view)
    ensures Contents(table.view) == Contents(old(table.view)) + B.AsMap(x.pairs)
  {
    table.IsTable();
    var sorted := SortPairs(pairs);
    x := Write(sorted);
    B.WriteMeaning(sorted, table.view);
    taken, released, sent := LockedWrite(table, sorted);
    r := 0;
  }

  /** The part of kvs_write after sorting. */
  method LockedWrite(table: HashTable, sorted: seq<Pair>)
    returns (taken: seq<nat>, released: seq<nat>, sent: seq<Note>)
    requires table.Valid()
    modifies table, table.table, table.Repr
    ensures table.Valid() && LockedAndUnlocked(Write(sorted), taken, released)
    ensures table.view == RunActs(Acts(Write(sorted)), Progress(old(table.view), "", false)).table
    ensures sent == Sent(Acts(Write(sorted)), Progress(old(table.view), "", false))
  {
    var keys := seq(|sorted|, i requires 0 <= i < |sorted| => sorted[i].key);
    assert keys == KeysOf(Write(sorted));
    var indexList := NoLocks();
    taken := LockList(keys, indexList);
    sent := WriteAll(table, sorted);
    released := UnlockList(indexList);
  }

  method SortPairs(pairs: seq<Pair>) returns (sorted: seq<Pair>)
    ensures Instance(Write(pairs), Write(sorted))
  {
    var a := new Pair[|pairs|](i requires 0 <= i < |pairs| => pairs[i]);
    assert a[..] == pairs;
    var key: Pair -> string := (p: Pair) => p.key;
    Qsort(key, a);
    sorted := a[..];
    assert forall i | 0 <= i < |sorted| :: KeysOf(Write(sorted))[i] == key(sorted[i]);
  }

  /** The loop of kvs_write. */
  method WriteAll(table: HashTable, pairs: seq<Pair>) returns (sent: seq<Note>)
    requires table.Valid()
    modifies table, table.table, table.Repr
    ensures table.Valid()
    ensures table.view == RunActs(Acts(Write(pairs)), Progress(old(table.view), "", false)).table
    ensures sent == Sent(Acts(Write(pairs)), Progress(old(table.view), "", false))
  {
    ghost var acts, start := Acts(Write(pairs)), Progress(table.view, "", false);
    sent := [];
    var i := 0;
    DoneNone(acts, start);
    while i < |pairs|
      invariant i <= |pairs| && table.Valid() && fresh(table.Repr - old(table.Repr))
      invariant Done(acts, i, start, Progress(table.view, "", false), sent)
    {
      ghost var was := Progress(table.view, "", false);
      var r, more := table.WritePair(pairs[i].key, pairs[i].value);
      DoneMore(acts, i, start, was, sent, more);
      sent := sent + more;
      i := i + 1;
    }
    DoneAll(acts, i, start, Progress(table.view, "", false), sent);
  }

  /** The keys are sorted in place. The output is appended to what out holds. */
  method KvsRead(table: HashTable, keys: array<Key>, out: string)
    returns (r: int, out': string, taken: seq<nat>, released: seq<nat>)
    requires table.Valid()
    modifies keys
    ensures r == 0 && Instance(Read(old(keys[..])), Read(keys[..]))
    ensures LockedAndUnlocked(Read(keys[..]), taken, released)
    ensures Progress(table.view, out', false) == RunActs(Acts(Read(keys[..])), Progress(table.view, out, false))
    ensures Tables.Valid(table.view)
    ensures var m, ks := Contents(table.view), keys[..];
            out' == out + ("[" + Concat(seq(|ks|, i requires 0 <= i < |ks| =>
              Cut("(" + ks[i] + "," + (if ks[i] in m then m[ks[i]] else "KVSERROR") + ")", 255))) + "]\n")
  {
    table.IsTable();
    SortKeys(keys);
    ghost var text := M.AppendsMeaning(Read(keys[..]), table.view, out);
    out', taken, released := LockedRead(table, keys[..], out);
    r := 0;
  }

  /** The part of kvs_read after sorting. */
  method LockedRead(table: HashTable, sorted: seq<Key>, out: string)
    returns (out': string, taken: seq<nat>, released: seq<nat>)
    requires table.Valid()
    ensures LockedAndUnlocked(Read(sorted), taken, released)
    ensures Progress(table.view, out', false) == RunActs(Acts(Read(sorted)), Progress(table.view, out, false))
  {
    var indexList := NoLocks();
    taken := LockList(sorted, indexList);
    out' := ReadAll(table, sorted, out);
    released := UnlockList(indexList);
  }

  method SortKeys(keys: array<Key>)
    modifies keys
    ensures Sorted(keys[..]) && multiset(keys[..]) == multiset(old(keys[..]))
  {
    var key: Key -> string := (k: Key) => k;
    Qsort(key, keys);
    assert forall i | 0 <= i < keys.Length :: keys[..][i] == key(keys[..][i]);
  }

  /** What snprintf and write add to the output. */
  method ReadAll(table: HashTable, keys: seq<Key>, out: string) returns (out': string)
    requires table.Valid()
    ensures Progress(table.view, out', false) == RunActs(Acts(Read(keys)), Progress(table.view, out, false))
  {
    ghost var acts, start := Acts(Read(keys)), Progress(table.view, out, false);
    DoneNone(acts, start);
    DoneQuietly(acts, 0, start, start, []);
    out' := out + "[";
    var i := 0;
    while i < |keys|
      invariant i <= |keys|
      invariant Done(acts, i + 1, start, Progress(table.view, out', false), [])
    {
      var result := table.ReadPair(keys[i]);
      var buffer := if result == None then Cut("(" + keys[i] + ",KVSERROR)", MAX_WRITE_SIZE - 1)
                    else Cut("(" + keys[i] + "," + result.value + ")", MAX_WRITE_SIZE - 1);
      DoneQuietly(acts, i + 1, start, Progress(table.view, out', false), []);
      out' := out' + buffer;
      i := i + 1;
    }
    DoneQuietly(acts, i + 1, start, Progress(table.view, out', false), []);
    out' := out' + "]\n";
    DoneAll(acts, i + 2, start, Progress(table.view, out', false), []);
  }

  method KvsDelete(table: HashTable, keys: array<Key>, out: string)
    returns (r: int, out': string, ghost x: Command, taken: seq<nat>, released: seq<nat>, sent: seq<Note>)
    requires table.Valid()
    modifies keys, table, table.table, table.Repr
    ensures table.Valid() && r == 0 && x == Delete(keys[..]) && Instance(Delete(old(keys[..])), x)
    ensures LockedAndUnlocked(x, taken, released)
    ensures var p := RunActs(Acts(x), Progress(old(table.view), out, false));
            table.view == p.table && out' == p.out
    ensures sent == Sent(Acts(x), Progress(old(table.view), out, false))
    ensures Tables.Valid(old(table.view)) && Tables.Valid(table.view)
    ensures Contents(table.view) == Contents(old(table.view)) - (set k | k in keys[..])
    ensures var gone := B.Missing(Contents(old(table.view)), keys[..]);
            out' == out + if gone == [] then "" else
              "[" + Concat(seq(|gone|, i requires 0 <= i < |gone| => Cut("(" + gone[i] + ",KVSMISSING)", 255))) + "]\n"
  {
    table.IsTable();
    SortKeys(keys);
    x := Delete(keys[..]);
    ghost var text := M.AppendsMeaning(x, table.view, out);
    out', taken, released, sent := LockedDelete(table, keys[..], out);
    r := 0;
  }

  /** The part of kvs_delete after sorting. */
  method LockedDelete(table: HashTable, sorted: seq<Key>, out: string)
    returns (out': string, taken: seq<nat>, released: seq<nat>, sent: seq<Note>)
    requires table.Valid()
    modifies table, table.table, table.Repr
    ensures table.Valid() && LockedAndUnlocked(Delete(sorted), taken, released)
    ensures var p := RunActs(Acts(Delete(sorted)), Progress(old(table.view), out, false));
            table.view == p.table && out' == p.out
    ensures sent == Sent(Acts(Delete(sorted)), Progress(old(table.view), out, false))
  {
    var indexList := NoLocks();
    taken := LockList(sorted, indexList);
    out', sent := DeleteAll(table, sorted, out);
    released := UnlockList(indexList);
  }

  /** The body of the loop of kvs_delete: aux says whether the bracket is open. */
  method DeleteOne(table: HashTable, key: Key, out: string, aux: bool)
    returns (out': string, aux': bool, sent: seq<Note>)
    requires table.Valid()
    modifies table, table.table, table.Repr
    ensures table.Valid() && table.Repr == old(table.Repr)
    ensures Progress(table.view, out', aux') == DoAct(DeleteKey(key), Progress(old(table.view), out, aux))
    ensures sent == NotesTo(Subscribers(old(table.view), key), key, "DELETE")
  {
    var status;
    status, sent := table.DeletePair(key);
    out', aux' := out, aux;
    if status != 0 {
      assert table.view == old(table.view);
      var buffer := Cut("(" + key + ",KVSMISSING)", MAX_WRITE_SIZE - 1);
      out' := out' + (if aux then "" else "[") + buffer;
      aux' := true;
    }
  }

  /** The loop of kvs_delete. */
  method DeleteAll(table: HashTable, keys: seq<Key>, out: string) returns (out': string, sent: seq<Note>)
    requires table.Valid()
    modifies table, table.table, table.Repr
    ensures table.Valid()
    ensures var p := RunActs(Acts(Delete(keys)), Progress(old(table.view), out, false));
            table.view == p.table && out' == p.out
    ensures sent == Sent(Acts(Delete(keys)), Progress(old(table.view), out, false))
  {
    ghost var acts, start := Acts(Delete(keys)), Progress(table.view, out, false);
    out', sent := out, [];
    var i, aux := 0, false;
    DoneNone(acts, start);
    while i < |keys|
      invariant i <= |keys| && table.Valid() && table.Repr == old(table.Repr)
      invariant Done(acts, i, start, Progress(table.view, out', aux), sent)
    {
      ghost var was := Progress(table.view, out', aux);
      var more;
      out', aux, more := DeleteOne(table, keys[i], out', aux);
      DoneMore(acts, i, start, was, sent, more);
      sent := sent + more;
      i := i + 1;
    }
    DoneQuietly(acts, i, start, Progress(table.view, out', aux), sent);
    if aux {
      out' := out' + "]\n";
    }
    DoneAll(acts, i + 1, start, Progress(table.view, out', aux), sent);
  }

  // ---- SHOW and backups ----

  /** Prints the pairs of one bucket. */
  method ShowSlot(slot: Slot, out: string) returns (out': string)
    requires slot.Linked()
    ensures out' == out + ShowChain(slot.View())
  {
    out' := out;
    var node := slot.head;
    ghost var i, c := 0, slot.View();
    assert c[0..] == c;
    while node != null
      invariant i <= |slot.nodes| && node == slot.NodeAt(i)
      invariant out + ShowChain(c) == out' + ShowChain(c[i..])
      decreases |slot.nodes| - i
    {
      var buffer := Cut("(" + node.key + ", " + node.value + ")\n", MAX_WRITE_SIZE - 1);
      assert buffer == ShowLine(c[i]);
      ShowMore(c, i, out');
      out' := out' + buffer;
      node, i := node.next, i + 1;
    }
    assert ShowChain(c[i..]) == "" && out' + "" == out';
  }

  method ShowBucket(table: HashTable, i: nat, out: string) returns (out': string)
    requires table.Valid() && i < TABLE_SIZE
    ensures out' == out + ShowChain(table.view[i])
  {
    assert table.InOrder(i);
    out' := ShowSlot(table.table[i], out);
  }

  lemma ShowMore(c: Chain, i: nat, out: string)
    requires i < |c|
    ensures out + ShowChain(c[i..]) == out + ShowLine(c[i]) + ShowChain(c[i + 1..])
  {
    assert c[i..][1..] == c[i + 1..];
    Regroup(out, ShowLine(c[i]), ShowChain(c[i + 1..]));
  }

  /** Locks all buckets, prints them one after the other, and unlocks. */
  method KvsShow(table: HashTable, out: string)
    returns (r: int, out': string, taken: seq<nat>, released: seq<nat>)
    requires table.Valid()
    ensures r == 0 && LockedAndUnlocked(Show, taken, released)
    ensures Progress(table.view, out', false) == RunActs(Acts(Show), Progress(table.view, out, false))
    ensures Tables.Valid(table.view) && M.Lists(Contents(table.view), B.Entries(table.view, TABLE_SIZE))
    ensures var es := B.Entries(table.view, TABLE_SIZE);
            out' == out + Concat(seq(|es|, i requires 0 <= i < |es| =>
              Cut("(" + es[i].key + ", " + es[i].value + ")\n", 255)))
  {
    table.IsTable();
    ShowText(table.view, out);
    taken := EveryBucket();
    out' := ShowAll(table, out);
    released := EveryBucket();
    r := 0;
  }

  lemma ShowText(t: Table, out: string)
    requires Tables.Valid(t)
    ensures M.Lists(Contents(t), B.Entries(t, TABLE_SIZE))
    ensures var es := B.Entries(t, TABLE_SIZE);
            && RunActs(Acts(Show), Progress(t, out, false)) == Progress(t, out + ShowChain(es), false)
            && ShowChain(es) == Concat(seq(|es|, i requires 0 <= i < |es| =>
                 Cut("(" + es[i].key + ", " + es[i].value + ")\n", 255)))
  {
    assert Acts(Show) == B.ShowActs(0, TABLE_SIZE);
    B.ShowActsMeaning(t, TABLE_SIZE, Progress(t, out, false));
    B.ShowMeaning(t);
  }

  /** The loops that lock, and unlock, one bucket after the other. */
  method EveryBucket() returns (buckets: seq<nat>)
    ensures buckets == Locks(Show)
  {
    buckets := [];
    var i := 0;
    while i < TABLE_SIZE
      invariant i <= TABLE_SIZE && |buckets| == i && forall b | 0 <= b < i :: buckets[b] == b
    {
      buckets := buckets + [i];
      i := i + 1;
    }
  }

  method ShowAll(table: HashTable, out: string) returns (out': string)
    requires table.Valid()
    ensures out' == out + ShowChain(B.Entries(table.view, TABLE_SIZE))
  {
    out' := out;
    var i := 0;
    assert out + "" == out;
    while i < TABLE_SIZE
      invariant i <= TABLE_SIZE && out' == out + ShowChain(B.Entries(table.view, i))
    {
      B.ShowChainSplit(B.Entries(table.view, i), table.view[i]);
      Regroup(out, ShowChain(B.Entries(table.view, i)), ShowChain(table.view[i]));
      out' := ShowBucket(table, i, out');
      i := i + 1;
    }
  }

  /** Prints the pairs of one bucket into a backup. */
  method BackupSlot(slot: Slot, fdBck: Sink)
    requires slot.Linked()
    modifies fdBck
    ensures fdBck.State() == PrintChain(slot.View(), old(fdBck.State()))
  {
    var node := slot.head;
    var aux := new char[MAX_STRING_SIZE];
    ghost var i, c := 0, slot.View();
    assert c[0..] == c;
    while node != null
      invariant i <= |slot.nodes| && node == slot.NodeAt(i)
      invariant PrintChain(c[i..], fdBck.State()) == PrintChain(c, old(fdBck.State()))
      decreases |slot.nodes| - i
    {
      PrintMore(c, i, fdBck.State());
      BackupEntry(fdBck, aux, node);
      node, i := node.next, i + 1;
    }
  }

  method BackupEntry(fdBck: Sink, aux: array<char>, node: KeyNode)
    requires aux.Length == MAX_STRING_SIZE
    modifies fdBck, aux
    ensures fdBck.State() == Print(BackupLine(node.View()), old(fdBck.State()))
  {
    var n := FormatBackupLine(aux, node.key, node.value);
    assert aux[..n] == BackupLine(node.View());
    WriteStr(fdBck, aux[..n]);
  }

  method BackupBucket(table: HashTable, i: nat, fdBck: Sink)
    requires table.Valid() && i < TABLE_SIZE
    modifies fdBck
    ensures fdBck.State() == PrintChain(table.view[i], old(fdBck.State()))
  {
    assert table.InOrder(i);
    BackupSlot(table.table[i], fdBck);
  }

  method BackupAll(table: HashTable, fdBck: Sink)
    requires table.Valid()
    modifies fdBck
    ensures fdBck.State() == PrintTable(table.view, TABLE_SIZE, old(fdBck.State()))
  {
    var i := 0;
    while i < TABLE_SIZE
      invariant i <= TABLE_SIZE && fdBck.State() == PrintTable(table.view, i, old(fdBck.State()))
    {
      BackupBucket(table, i, fdBck);
      i := i + 1;
    }
  }

  /** What a backup process does with its copy of the table. */
  method KvsBackup(table: HashTable, fdBck: Sink) returns (r: int)
    requires table.Valid()
    modifies fdBck
    ensures r == 0 && fdBck.State() == PrintTable(table.view, TABLE_SIZE, old(fdBck.State()))
    ensures Tables.Valid(table.view) && M.Lists(Contents(table.view), B.Entries(table.view, TABLE_SIZE))
    ensures var es := B.Entries(table.view, TABLE_SIZE);
            Quiet(old(fdBck.events)) ==> fdBck.data == old(fdBck.data) + Concat(seq(|es|, i requires 0 <= i < |es| =>
              Cut("(" + es[i].key + ", " + es[i].value + ")\n", 39)))
  {
    table.IsTable();
    M.BackupMeans(table.view);
    ghost var lens := BackupMeaning(table.view, TABLE_SIZE, fdBck.State());
    BackupAll(table, fdBck);
    r := 0;
  }
}
