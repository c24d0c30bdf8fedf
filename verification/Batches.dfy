/** The job commands as plans: the buckets each one locks, in order, and the
    single-key actions it then performs (operations.c). */
module Batches {
  import opened Text
  import opened Tables

  datatype Pair = Pair(key: Key, value: string)

  datatype Command =
    | Write(pairs: seq<Pair>)
    | Read(keys: seq<Key>)
    | Delete(keys: seq<Key>)
    | Show
    | Wait(delay: nat)
    | Backup

  datatype Mode = Shared | Exclusive

  /** What a command does between locking and unlocking, one key at a time. */
  datatype Act =
    | Emit(text: string)
    | WriteKey(key: Key, value: string)
    | ReadKey(key: Key)
    | DeleteKey(key: Key)
    | EndDelete
    | ShowBucket(bucket: nat)

  /** The table, the thread's output file, and DELETE's "already opened" flag. */
  datatype Progress = Progress(table: Table, out: string, flag: bool)

  /** A command the job loop passes on: its list is not empty. */
  predicate CommandOk(cmd: Command) {
    match cmd
    case Write(pairs) => pairs != []
    case Read(keys) => keys != []
    case Delete(keys) => keys != []
    case Show => true
    case Wait(_) => true
    case Backup => true
  }

  /** The commands that run under the locks of their buckets. */
  predicate TakesLocks(cmd: Command) { !cmd.Wait? && !cmd.Backup? }

  function KeysOf(cmd: Command): seq<Key> {
    match cmd
    case Write(pairs) => seq(|pairs|, i requires 0 <= i < |pairs| => pairs[i].key)
    case Read(keys) => keys
    case Delete(keys) => keys
    case Show => []
    case Wait(_) => []
    case Backup => []
  }

  /** x is cmd with its list in an order qsort may leave it in. */
  ghost predicate Instance(cmd: Command, x: Command) {
    && Sorted(KeysOf(x))
    && match cmd
       case Write(pairs) => x.Write? && multiset(x.pairs) == multiset(pairs)
       case Read(keys) => x.Read? && multiset(x.keys) == multiset(keys)
       case Delete(keys) => x.Delete? && multiset(x.keys) == multiset(keys)
       case Show => x.Show?
       case Wait(_) => x == cmd
       case Backup => x.Backup?
  }

  function ModeOf(cmd: Command): Mode {
    if cmd.Write? || cmd.Delete? then Exclusive else Shared
  }

  function Buckets(keys: seq<Key>): seq<nat> {
    seq(|keys|, i requires 0 <= i < |keys| => Bucket(keys[i]))
  }

  /** The members of a list in the order in which each occurs first. */
  function Firsts(bs: seq<nat>): (r: seq<nat>)
    ensures forall b :: b in r <==> b in bs
    ensures forall i, j | 0 <= i < j < |r| :: r[i] != r[j]
    ensures |r| <= |bs|
    ensures bs != [] ==> r != []
  {
    if bs == [] then [] else
    var r := Firsts(bs[..|bs| - 1]);
    var b := bs[|bs| - 1];
    assert bs == bs[..|bs| - 1] + [b];
    if b in r then r else r + [b]
  }

  /** The buckets locked, in the order of the acquisitions. */
  function Locks(cmd: Command): (r: seq<nat>)
    ensures forall b | b in r :: b < TABLE_SIZE
    ensures forall i | 0 <= i < |r| :: r[i] < TABLE_SIZE
    ensures forall i, j | 0 <= i < j < |r| :: r[i] != r[j]
    ensures CommandOk(cmd) && TakesLocks(cmd) ==> r != []
  {
    if cmd.Show? then seq(TABLE_SIZE, i => i) else
    var r := Firsts(Buckets(KeysOf(cmd)));
    assert forall i | 0 <= i < |r| :: r[i] in r;
    r
  }

  function Acts(cmd: Command): seq<Act> {
    match cmd
    case Write(ps) => seq(|ps|, i requires 0 <= i < |ps| => WriteKey(ps[i].key, ps[i].value))
    case Read(ks) =>
      [Emit("[")] + seq(|ks|, i requires 0 <= i < |ks| => ReadKey(ks[i])) + [Emit("]\n")]
    case Delete(ks) => seq(|ks|, i requires 0 <= i < |ks| => DeleteKey(ks[i])) + [EndDelete]
    case Show => seq(TABLE_SIZE, i requires 0 <= i < TABLE_SIZE => ShowBucket(i))
    case Wait(delay) => if delay > 0 then [Emit(WAITING)] else []
    case Backup => []
  }

  const WAITING := "Waiting...\n"

  /** What snprintf leaves of a line in its buffer: the buffer ends with a NUL. */
  function Buffered(s: string): string { Cut(s, MAX_WRITE_SIZE - 1) }

  function ReadLine(key: Key, found: Option<Entry>): string {
    match found
    case Some(e) => Buffered("(" + key + "," + e.value + ")")
    case None => Buffered("(" + key + ",KVSERROR)")
  }

  function MissingLine(key: Key): string { Buffered("(" + key + ",KVSMISSING)") }

  function ShowLine(e: Entry): string { Buffered("(" + e.key + ", " + e.value + ")\n") }

  /** A backup line is built in a string buffer and cut where the buffer ends. */
  function BackupLine(e: Entry): string {
    Cut("(" + e.key + ", " + e.value + ")\n", MAX_STRING_SIZE - 1)
  }

  function BackupChain(c: Chain): string {
    if c == [] then [] else BackupLine(c[0]) + BackupChain(c[1..])
  }

  /** A backup of the first n buckets. */
  function BackupText(t: Table, n: nat): string
    requires n <= TABLE_SIZE
  {
    if n == 0 then "" else BackupText(t, n - 1) + BackupChain(t[n - 1])
  }

  function ShowChain(c: Chain): string {
    if c == [] then [] else ShowLine(c[0]) + ShowChain(c[1..])
  }

  function DoAct(a: Act, p: Progress): Progress {
    match a
    case Emit(text) => p.(out := p.out + text)
    case WriteKey(k, v) => p.(table := Put(p.table, k, v))
    case ReadKey(k) => p.(out := p.out + ReadLine(k, Get(p.table, k)))
    case DeleteKey(k) =>
      if Get(p.table, k).Some? then p.(table := Drop(p.table, k))
      else p.(out := p.out + (if p.flag then "" else "[") + MissingLine(k), flag := true)
    case EndDelete => if p.flag then p.(out := p.out + "]\n") else p
    case ShowBucket(b) => if b < TABLE_SIZE then p.(out := p.out + ShowChain(p.table[b])) else p
  }

  function RunActs(acts: seq<Act>, p: Progress): Progress {
    if acts == [] then p else RunActs(acts[1..], DoAct(acts[0], p))
  }

  /** What an action sends to subscribers. */
  function NotesOf(a: Act, t: Table): seq<Note> {
    match a
    case WriteKey(k, v) => NotesTo(Subscribers(t, k), k, v)
    case DeleteKey(k) => NotesTo(Subscribers(t, k), k, "DELETE")
    case _ => []
  }

  /** What the actions of a command send to subscribers. */
  function Sent(acts: seq<Act>, p: Progress): seq<Note> {
    if acts == [] then [] else NotesOf(acts[0], p.table) + Sent(acts[1..], DoAct(acts[0], p))
  }

  lemma {:induction false} RunActsSplit(a: seq<Act>, b: seq<Act>, p: Progress)
    ensures RunActs(a + b, p) == RunActs(b, RunActs(a, p))
  {
    if a == [] {
      assert a + b == b;
    } else {
      assert (a + b)[1..] == a[1..] + b;
      RunActsSplit(a[1..], b, DoAct(a[0], p));
    }
  }

  // ---- locality: an action only sees and changes the bucket of its key ----

  predicate Touches(a: Act, b: nat) {
    match a
    case Emit(_) => false
    case WriteKey(k, _) => Bucket(k) == b
    case ReadKey(k) => Bucket(k) == b
    case DeleteKey(k) => Bucket(k) == b
    case EndDelete => false
    case ShowBucket(x) => x == b
  }

  predicate Writes(a: Act) { a.WriteKey? || a.DeleteKey? }

  ghost predicate Within(acts: seq<Act>, bs: seq<nat>) {
    forall i, b | 0 <= i < |acts| && Touches(acts[i], b) :: b in bs
  }

  ghost predicate Agree(t: Table, t': Table, bs: seq<nat>) {
    forall b | b in bs && b < TABLE_SIZE :: t[b] == t'[b]
  }

  lemma {:induction false} Locality(acts: seq<Act>, bs: seq<nat>, p: Progress, q: Progress)
    requires Within(acts, bs) && Agree(p.table, q.table, bs)
    requires p.out == q.out && p.flag == q.flag
    ensures var p', q' := RunActs(acts, p), RunActs(acts, q);
            Agree(p'.table, q'.table, bs) && p'.out == q'.out && p'.flag == q'.flag
  {
    if acts != [] {
      assert forall b | Touches(acts[0], b) :: b in bs;
      DoActLocal(acts[0], bs, p, q);
      assert Within(acts[1..], bs) by {
        forall i, b | 0 <= i < |acts[1..]| && Touches(acts[1..][i], b) ensures b in bs {
          assert acts[1..][i] == acts[i + 1];
        }
      }
      Locality(acts[1..], bs, DoAct(acts[0], p), DoAct(acts[0], q));
    }
  }

  lemma DoActLocal(a: Act, bs: seq<nat>, p: Progress, q: Progress)
    requires forall b | Touches(a, b) :: b in bs
    requires Agree(p.table, q.table, bs)
    requires p.out == q.out && p.flag == q.flag
    ensures var p', q' := DoAct(a, p), DoAct(a, q);
            Agree(p'.table, q'.table, bs) && p'.out == q'.out && p'.flag == q'.flag
  {
    match a
    case Emit(_) =>
    case EndDelete =>
    case ShowBucket(b) => assert Touches(a, b);
    case WriteKey(k, _) => assert Touches(a, Bucket(k));
    case ReadKey(k) => assert Touches(a, Bucket(k));
    case DeleteKey(k) => assert Touches(a, Bucket(k));
  }

  lemma {:induction false} Untouched(acts: seq<Act>, p: Progress, b: nat)
    requires b < TABLE_SIZE
    requires forall a | a in acts :: Writes(a) ==> !Touches(a, b)
    ensures RunActs(acts, p).table[b] == p.table[b]
  {
    if acts != [] {
      assert acts[0] in acts;
      Untouched(acts[1..], DoAct(acts[0], p), b);
    }
  }

  lemma ActsWithinLocks(cmd: Command)
    ensures Within(Acts(cmd), Locks(cmd))
    ensures ModeOf(cmd) == Shared ==> forall a | a in Acts(cmd) :: !Writes(a)
    ensures CommandOk(cmd) && TakesLocks(cmd) ==> Acts(cmd) != []
  {
    var acts := Acts(cmd);
    var ks := KeysOf(cmd);
    assert forall i | 0 <= i < |ks| :: Buckets(ks)[i] == Bucket(ks[i]);
    forall i, b: nat | 0 <= i < |acts| && Touches(acts[i], b) ensures b in Locks(cmd) {
      match cmd
      case Write(_) => assert Buckets(ks)[i] == b;
      case Read(_) => assert Buckets(ks)[i - 1] == b;
      case Delete(_) => assert Buckets(ks)[i] == b;
      case Show => assert Locks(cmd)[b] == b;
      case Wait(_) =>
      case Backup =>
    }
  }
}
