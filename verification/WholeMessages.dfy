/** When the two writes of a notification stay together on the pipe, and when they
    do not; and what that makes of the client's replay. */
module WholeMessages {
  import opened Text
  import opened Tables
  import opened Delivery
  import B = Batches
  import F = Framing
  import J = Store
  import L = Locking
  import N = Notifications
  import S = Subscriptions

  // ---- texts and pairs ----

  lemma {:induction false} TextsSplit(a: seq<Block>, b: seq<Block>, fd: int)
    ensures TextsTo(a + b, fd) == TextsTo(a, fd) + TextsTo(b, fd)
  {
    if a == [] {
      assert a + b == b;
    } else {
      assert (a + b)[1..] == a[1..] + b;
      TextsSplit(a[1..], b, fd);
    }
  }

  lemma {:induction false} BlocksSplit(a: seq<Note>, b: seq<Note>)
    ensures BlocksOf(a + b) == BlocksOf(a) + BlocksOf(b)
  {
    if a == [] {
      assert a + b == b;
    } else {
      assert (a + b)[1..] == a[1..] + b;
      BlocksSplit(a[1..], b);
    }
  }

  lemma TextsOfNote(n: Note, fd: int)
    ensures TextsTo(BlocksOfNote(n), fd) == if n.fd == fd then [n.key, n.text] else []
  {
    assert BlocksOfNote(n)[1..] == [Block(n.fd, n.text)];
    assert TextsTo([Block(n.fd, n.text)], fd) == if n.fd == fd then [n.text] else [];
  }

  /** Whole messages are read as whole messages. */
  lemma {:induction false} PairsOfBlocks(notes: seq<Note>, fd: int)
    ensures PairUp(TextsTo(BlocksOf(notes), fd)) == PairsTo(notes, fd)
  {
    if notes != [] {
      var rest := TextsTo(BlocksOf(notes[1..]), fd);
      TextsSplit(BlocksOfNote(notes[0]), BlocksOf(notes[1..]), fd);
      TextsOfNote(notes[0], fd);
      PairsOfBlocks(notes[1..], fd);
      if notes[0].fd == fd {
        var first: seq<string> := [notes[0].key, notes[0].text];
        assert (first + rest)[2..] == rest;
      } else {
        assert [] + rest == rest;
      }
    }
  }

  lemma {:induction false} PairPrefix(a: seq<string>, b: seq<string>)
    ensures PairUp(a) <= PairUp(a + b)
  {
    if |a| >= 2 {
      assert (a + b)[2..] == a[2..] + b;
      PairPrefix(a[2..], b);
    }
  }

  lemma {:induction false} OwedNone(boxes: seq<Outbox>, fd: int)
    requires forall t | 0 <= t < |boxes| :: TextsTo(boxes[t].blocks, fd) == []
    ensures Owed(boxes, fd) == []
  {
    if boxes != [] {
      OwedNone(boxes[1..], fd);
    }
  }

  /** If only one thread owes a client anything, that is all that is owed. */
  lemma {:induction false} OwedByOne(boxes: seq<Outbox>, t: nat, fd: int)
    requires t < |boxes|
    requires forall u | 0 <= u < |boxes| && u != t :: TextsTo(boxes[u].blocks, fd) == []
    ensures Owed(boxes, fd) == TextsTo(boxes[t].blocks, fd)
  {
    if t == 0 {
      OwedNone(boxes[1..], fd);
    } else {
      OwedByOne(boxes[1..], t - 1, fd);
    }
  }

  /** A box without a word to a client does not matter to it. */
  lemma {:induction false} OwedUpdate(boxes: seq<Outbox>, t: nat, box: Outbox, fd: int)
    requires t < |boxes| && TextsTo(box.blocks, fd) == TextsTo(boxes[t].blocks, fd)
    ensures Owed(boxes[t := box], fd) == Owed(boxes, fd)
  {
    if t == 0 {
      assert boxes[0 := box][1..] == boxes[1..];
    } else {
      assert boxes[t := box][1..] == boxes[1..][t - 1 := box];
      OwedUpdate(boxes[1..], t - 1, box, fd);
    }
  }

  // ---- what every step keeps ----

  /** A thread that has still to write holds the lock of the key's bucket alone. */
  ghost predicate BoxOk(s: State, t: nat)
    requires t < |s.boxes|
  {
    s.boxes[t].blocks != [] ==>
      s.boxes[t].about.Some? && L.ExclusiveHolder(s.jobs, Bucket(s.boxes[t].about.value), t)
  }

  ghost predicate Inv(s: State) {
    && L.LockInv(s.jobs) && |s.boxes| == |s.jobs.threads|
    && forall t | 0 <= t < |s.boxes| :: BoxOk(s, t)
  }

  lemma StartInv(sys: J.System, slots: S.Slots)
    requires sys.Ok()
    ensures Inv(Start(sys, slots))
  {
    L.StartLocks(sys);
  }

  /** Performing a write or deletion, a thread holds the bucket alone, and still does
      when the action is done. */
  lemma ActorHolds(jobs: J.State, j: J.Step)
    requires L.LockInv(jobs) && J.Enabled(jobs, j) && ActOf(jobs, j) != []
    requires B.Writes(ActOf(jobs, j)[0])
    ensures var b := Bucket(ActOf(jobs, j)[0].key);
            && L.ExclusiveHolder(jobs, b, j.t) && L.ExclusiveHolder(J.Do(jobs, j), b, j.t)
  {
    var x, i := jobs.threads[j.t].phase.cmd, jobs.threads[j.t].phase.done;
    var a := B.Acts(x)[i];
    B.ActsWithinLocks(x);
    assert a in B.Acts(x) && B.Touches(a, Bucket(a.key));
  }

  lemma JobInv(s: State, j: J.Step)
    requires Inv(s) && Enabled(s, Job(j))
    ensures Inv(DoJob(s, j))
  {
    var s' := DoJob(s, j);
    L.StepLocks(s.jobs, j);
    forall t | 0 <= t < |s'.boxes| ensures BoxOk(s', t) {
      assert BoxOk(s, t);
      if j.Thread? && t == j.t && ActOf(s.jobs, j) != [] && B.Writes(ActOf(s.jobs, j)[0]) {
        ActorHolds(s.jobs, j);
      }
    }
  }

  /** The locks have nothing to do with the table. */
  lemma TableFree(jobs: J.State, t: Table)
    requires L.LockInv(jobs)
    ensures L.LockInv(jobs.(table := t))
  {
    var jobs' := jobs.(table := t);
    forall b | 0 <= b < TABLE_SIZE ensures L.BucketLockOk(jobs', b) {
      assert L.BucketLockOk(jobs, b);
      assert forall u: nat :: L.SharedHolder(jobs', b, u) == L.SharedHolder(jobs, b, u);
      assert forall u: nat :: L.ExclusiveHolder(jobs', b, u) == L.ExclusiveHolder(jobs, b, u);
    }
    assert forall u: nat :: L.CommandReader(jobs', u) == L.CommandReader(jobs, u);
    assert forall u: nat :: L.BackupWriter(jobs', u) == L.BackupWriter(jobs, u);
  }

  lemma StepInv(s: State, l: Step)
    requires Inv(s) && Enabled(s, l)
    ensures Inv(Do(s, l))
  {
    match l
    case Job(j) => JobInv(s, j);
    case Send(t) =>
      forall u | 0 <= u < |s.boxes| ensures BoxOk(Do(s, l), u) {
        assert BoxOk(s, u);
      }
    case Ask(c) =>
      TableFree(s.jobs, Do(s, l).jobs.table);
      forall u | 0 <= u < |s.boxes| ensures BoxOk(Do(s, l), u) {
        assert BoxOk(s, u);
      }
  }

  // ---- whole messages ----

  /** From some point of the pipe and of the messages on, what was sent to a client is
      what it was written, and what it is owed. */
  ghost predicate Fits(s: State, fd: int, w: nat, n: nat) {
    && w <= |s.wire| && n <= |s.sent|
    && TextsTo(BlocksOf(s.sent[n..]), fd) == TextsTo(s.wire[w..], fd) + Owed(s.boxes, fd)
  }

  /** Two threads never owe the same client anything. */
  ghost predicate OneOwes(s: State, fd: int) {
    forall t, u | 0 <= t < |s.boxes| && 0 <= u < |s.boxes| && t != u ::
      TextsTo(s.boxes[t].blocks, fd) == [] || TextsTo(s.boxes[u].blocks, fd) == []
  }

  /** What a client reads from some point on, up to the end of the message that is
      being written to it. */
  function ReadSince(s: State, w: nat, fd: int): seq<(string, string)>
    requires w <= |s.wire|
  {
    PairUp(TextsTo(s.wire[w..], fd) + Owed(s.boxes, fd))
  }

  lemma FitsIsWhole(s: State, fd: int, w: nat, n: nat)
    requires Fits(s, fd, w, n)
    ensures PairUp(TextsTo(s.wire[w..], fd)) <= PairsTo(s.sent[n..], fd)
    ensures ReadSince(s, w, fd) == PairsTo(s.sent[n..], fd)
    ensures Owed(s.boxes, fd) == [] ==> PairUp(TextsTo(s.wire[w..], fd)) == PairsTo(s.sent[n..], fd)
  {
    PairsOfBlocks(s.sent[n..], fd);
    PairPrefix(TextsTo(s.wire[w..], fd), Owed(s.boxes, fd));
    assert TextsTo(s.wire[w..], fd) + [] == TextsTo(s.wire[w..], fd);
  }

  /** A write moves the first text owed to the pipe. */
  lemma SendFits(s: State, t: nat, fd: int, w: nat, n: nat)
    requires Fits(s, fd, w, n) && OneOwes(s, fd) && t < |s.boxes| && s.boxes[t].blocks != []
    ensures Fits(DoSend(s, t), fd, w, n) && OneOwes(DoSend(s, t), fd)
  {
    var s', blocks := DoSend(s, t), s.boxes[t].blocks;
    OneMoreBlock(s.wire, w, blocks[0]);
    FirstBlock(s.wire[w..], blocks, fd);
    SendOneOwes(s, t, fd);
    if blocks[0].fd == fd {
      OwedByOne(s.boxes, t, fd);
      OwedByOne(s'.boxes, t, fd);
    } else {
      OwedUpdate(s.boxes, t, s'.boxes[t], fd);
    }
  }

  lemma SendOneOwes(s: State, t: nat, fd: int)
    requires OneOwes(s, fd) && t < |s.boxes| && s.boxes[t].blocks != []
    ensures OneOwes(DoSend(s, t), fd)
    ensures s.boxes[t].blocks[0].fd == fd ==>
              forall u | 0 <= u < |s.boxes| && u != t :: TextsTo(s.boxes[u].blocks, fd) == []
  {
    var blocks := s.boxes[t].blocks;
    assert blocks[0].fd == fd ==> TextsTo(blocks, fd) != [];
    assert blocks[0].fd != fd ==> TextsTo(blocks[1..], fd) == TextsTo(blocks, fd);
  }

  lemma OneMoreBlock(wire: seq<Block>, w: nat, block: Block)
    requires w <= |wire|
    ensures (wire + [block])[w..] == wire[w..] + [block]
  {
  }

  /** The texts stay the same when the first block owed is written. */
  lemma FirstBlock(wire: seq<Block>, blocks: seq<Block>, fd: int)
    requires blocks != []
    ensures TextsTo(wire + [blocks[0]], fd) + TextsTo(blocks[1..], fd) == TextsTo(wire, fd) + TextsTo(blocks, fd)
    ensures blocks[0].fd != fd ==>
              TextsTo(wire + [blocks[0]], fd) == TextsTo(wire, fd) && TextsTo(blocks[1..], fd) == TextsTo(blocks, fd)
  {
    var head := [blocks[0]];
    assert blocks == head + blocks[1..];
    TextsSplit(wire, head, fd);
    TextsSplit(head, blocks[1..], fd);
    if blocks[0].fd == fd {
      Regroup(TextsTo(wire, fd), TextsTo(head, fd), TextsTo(blocks[1..], fd));
    } else {
      assert TextsTo(head, fd) == [] + TextsTo(head[1..], fd) == [];
      NothingAfter(TextsTo(wire, fd));
      assert [] + TextsTo(blocks[1..], fd) == TextsTo(blocks[1..], fd);
    }
  }

  /** An action keeps the books, if no other thread owes the clients it tells. */
  lemma JobFits(s: State, j: J.Step, fd: int, w: nat, n: nat)
    requires Fits(s, fd, w, n) && OneOwes(s, fd) && Enabled(s, Job(j))
    requires Tells(s, j, fd) ==> forall u | 0 <= u < |s.boxes| && u != j.t :: TextsTo(s.boxes[u].blocks, fd) == []
    ensures Fits(DoJob(s, j), fd, w, n) && OneOwes(DoJob(s, j), fd)
  {
    var s', acts := DoJob(s, j), ActOf(s.jobs, j);
    if acts != [] {
      var notes := B.NotesOf(acts[0], s.jobs.table);
      MoreSent(s.sent, n, notes, fd);
      if TextsTo(BlocksOf(notes), fd) == [] {
        OwedUpdate(s.boxes, j.t, s'.boxes[j.t], fd);
        NothingAfter(TextsTo(BlocksOf(s.sent[n..]), fd));
      } else {
        OwedByOne(s.boxes, j.t, fd);
        OwedByOne(s'.boxes, j.t, fd);
        NothingAfter(TextsTo(s.wire[w..], fd));
      }
    }
  }

  lemma MoreSent(sent: seq<Note>, n: nat, notes: seq<Note>, fd: int)
    requires n <= |sent|
    ensures TextsTo(BlocksOf((sent + notes)[n..]), fd) ==
            TextsTo(BlocksOf(sent[n..]), fd) + TextsTo(BlocksOf(notes), fd)
  {
    assert (sent + notes)[n..] == sent[n..] + notes;
    BlocksSplit(sent[n..], notes);
    TextsSplit(BlocksOf(sent[n..]), BlocksOf(notes), fd);
  }

  /** The step makes its thread owe the client something. */
  ghost predicate Tells(s: State, j: J.Step, fd: int)
    requires Enabled(s, Job(j))
  {
    j.Thread? && TextsTo(DoJob(s, j).boxes[j.t].blocks, fd) != []
  }

  // ---- one bucket ----

  /** The client is listed under keys of one bucket only. */
  ghost predicate ListedIn(t: Table, fd: int, b: nat) {
    forall k: Key | fd in Subscribers(t, k) :: Bucket(k) == b
  }

  /** And all it is owed is about keys of that bucket. */
  ghost predicate OwedIn(s: State, fd: int, b: nat) {
    forall t | 0 <= t < |s.boxes| && TextsTo(s.boxes[t].blocks, fd) != [] ::
      s.boxes[t].about.Some? && Bucket(s.boxes[t].about.value) == b
  }

  /** All texts of messages about one key go to its subscribers. */
  lemma {:induction false} NotListedNotTold(fds: seq<int>, key: Key, text: string, fd: int)
    requires fd !in fds
    ensures TextsTo(BlocksOf(NotesTo(fds, key, text)), fd) == []
  {
    if fds != [] {
      assert fds == [fds[0]] + fds[1..];
      assert NotesTo(fds, key, text)[1..] == NotesTo(fds[1..], key, text);
      TextsSplit(BlocksOfNote(Note(fds[0], key, text)), BlocksOf(NotesTo(fds[1..], key, text)), fd);
      TextsOfNote(Note(fds[0], key, text), fd);
      NotListedNotTold(fds[1..], key, text, fd);
    }
  }

  /** An action that tells a client something is on a key it is listed under. */
  lemma ToldIsListed(a: B.Act, t: Table, fd: int)
    requires TextsTo(BlocksOf(B.NotesOf(a, t)), fd) != []
    ensures B.Writes(a) && fd in Subscribers(t, a.key)
  {
    if B.Writes(a) && fd !in Subscribers(t, a.key) {
      NotListedNotTold(Subscribers(t, a.key), a.key, if a.WriteKey? then a.value else "DELETE", fd);
    }
  }

  /** The lock of the bucket keeps the other threads from owing the client. */
  lemma OthersOweNothing(s: State, j: J.Step, fd: int, b: nat)
    requires Inv(s) && OwedIn(s, fd, b) && ListedIn(s.jobs.table, fd, b)
    requires Enabled(s, Job(j)) && Tells(s, j, fd)
    ensures OwedIn(DoJob(s, j), fd, b)
    ensures forall u | 0 <= u < |s.boxes| && u != j.t :: TextsTo(s.boxes[u].blocks, fd) == []
  {
    var a := ActOf(s.jobs, j)[0];
    ToldIsListed(a, s.jobs.table, fd);
    ActorHolds(s.jobs, j);
    forall u | 0 <= u < |s.boxes| && u != j.t ensures TextsTo(s.boxes[u].blocks, fd) == [] {
      assert BoxOk(s, u);
      if TextsTo(s.boxes[u].blocks, fd) != [] {
        L.HoldersShare(s.jobs, b, j.t, u);
      }
    }
  }

  /** The client's books in a run: they are right, and one thread at most owes it. */
  ghost predicate Together(s: State, fd: int, w: nat, n: nat) { Inv(s) && Fits(s, fd, w, n) && OneOwes(s, fd) }

  lemma StepInOneBucket(s: State, l: Step, fd: int, w: nat, n: nat, b: nat)
    requires Together(s, fd, w, n) && OwedIn(s, fd, b) && ListedIn(s.jobs.table, fd, b) && Enabled(s, l)
    ensures Together(Do(s, l), fd, w, n) && OwedIn(Do(s, l), fd, b)
  {
    StepInv(s, l);
    match l
    case Job(j) =>
      if Tells(s, j, fd) {
        OthersOweNothing(s, j, fd, b);
      } else {
        QuietJob(s, j, fd, b);
      }
      JobFits(s, j, fd, w, n);
    case Send(t) =>
      SendFits(s, t, fd, w, n);
      SendOwedIn(s, t, fd, b);
    case Ask(c) => AskTogether(s, c, fd, w, n, b);
  }

  lemma QuietJob(s: State, j: J.Step, fd: int, b: nat)
    requires OwedIn(s, fd, b) && Enabled(s, Job(j)) && !Tells(s, j, fd)
    ensures OwedIn(DoJob(s, j), fd, b)
  {
    var s' := DoJob(s, j);
    forall t | 0 <= t < |s'.boxes| && TextsTo(s'.boxes[t].blocks, fd) != []
      ensures s'.boxes[t].about.Some? && Bucket(s'.boxes[t].about.value) == b
    {
      assert s'.boxes[t] == s.boxes[t];
    }
  }

  lemma SendOwedIn(s: State, t: nat, fd: int, b: nat)
    requires OwedIn(s, fd, b) && t < |s.boxes| && s.boxes[t].blocks != []
    ensures OwedIn(DoSend(s, t), fd, b)
  {
    var blocks := s.boxes[t].blocks;
    assert blocks == [blocks[0]] + blocks[1..];
    TextsSplit([blocks[0]], blocks[1..], fd);
  }

  lemma AskTogether(s: State, c: S.Call, fd: int, w: nat, n: nat, b: nat)
    requires Fits(s, fd, w, n) && OneOwes(s, fd) && OwedIn(s, fd, b) && CanAsk(s, c)
    ensures Fits(DoAsk(s, c), fd, w, n) && OneOwes(DoAsk(s, c), fd) && OwedIn(DoAsk(s, c), fd, b)
  {
  }

  lemma StepOfOneThread(s: State, l: Step, fd: int, w: nat, n: nat)
    requires Together(s, fd, w, n) && |s.boxes| <= 1 && Enabled(s, l)
    ensures Together(Do(s, l), fd, w, n) && |Do(s, l).boxes| <= 1
  {
    StepInv(s, l);
    match l
    case Job(j) => JobFits(s, j, fd, w, n);
    case Send(t) => SendFits(s, t, fd, w, n);
    case Ask(_) =>
  }

  /** In every state of the run the client is listed under keys of bucket b only. */
  ghost predicate AlwaysIn(s: State, ls: seq<Step>, fd: int, b: nat)
    requires IsRun(s, ls)
    decreases |ls|
  {
    ListedIn(s.jobs.table, fd, b) && (ls == [] || AlwaysIn(Do(s, ls[0]), ls[1..], fd, b))
  }

  /** The condition under which messages stay whole: one job thread, or all keys the
      client is listed under, or still being told about, in one bucket. */
  ghost predicate Unmixed(s: State, ls: seq<Step>, fd: int)
    requires IsRun(s, ls)
  {
    |s.boxes| <= 1 || exists b :: AlwaysIn(s, ls, fd, b) && OwedIn(s, fd, b)
  }

  lemma {:induction false} RunInOneBucket(s: State, ls: seq<Step>, fd: int, w: nat, n: nat, b: nat)
    requires IsRun(s, ls) && AlwaysIn(s, ls, fd, b) && Together(s, fd, w, n) && OwedIn(s, fd, b)
    ensures Together(After(s, ls), fd, w, n)
    decreases |ls|
  {
    if ls != [] {
      StepInOneBucket(s, ls[0], fd, w, n, b);
      RunInOneBucket(Do(s, ls[0]), ls[1..], fd, w, n, b);
    }
  }

  lemma {:induction false} RunOfOneThread(s: State, ls: seq<Step>, fd: int, w: nat, n: nat)
    requires IsRun(s, ls) && |s.boxes| <= 1 && Together(s, fd, w, n)
    ensures Together(After(s, ls), fd, w, n)
    decreases |ls|
  {
    if ls != [] {
      StepOfOneThread(s, ls[0], fd, w, n);
      RunOfOneThread(Do(s, ls[0]), ls[1..], fd, w, n);
    }
  }

  lemma RunTogether(s: State, ls: seq<Step>, fd: int, w: nat, n: nat)
    requires Together(s, fd, w, n) && IsRun(s, ls) && Unmixed(s, ls, fd)
    ensures Together(After(s, ls), fd, w, n)
  {
    if |s.boxes| <= 1 {
      RunOfOneThread(s, ls, fd, w, n);
    } else {
      var b :| AlwaysIn(s, ls, fd, b) && OwedIn(s, fd, b);
      RunInOneBucket(s, ls, fd, w, n, b);
    }
  }

  /** No job thread has anything left to write to the client. */
  ghost predicate OwesNothing(s: State, fd: int) {
    forall t | 0 <= t < |s.boxes| :: TextsTo(s.boxes[t].blocks, fd) == []
  }

  /** Then its books can be opened. */
  lemma NewBooks(s: State, fd: int)
    requires Inv(s) && OwesNothing(s, fd)
    ensures Together(s, fd, |s.wire|, |s.sent|) && Owed(s.boxes, fd) == []
  {
    OwedNone(s.boxes, fd);
    assert s.sent[|s.sent|..] == [] && s.wire[|s.wire|..] == [];
  }

  /** Messages stay whole. In any run of jobs, writes to pipes and requests of clients
      in which one job thread runs, or a client is listed under keys of one bucket
      only, the client reads whole messages, in the order they were sent; and when
      nothing is owed to it, all of them. */
  lemma MessagesStayWhole(sys: J.System, slots: S.Slots, ls: seq<Step>, fd: int)
    requires sys.Ok() && IsRun(Start(sys, slots), ls) && Unmixed(Start(sys, slots), ls, fd)
    ensures var s := After(Start(sys, slots), ls);
            && Whole(s, fd)
            && (Owed(s.boxes, fd) == [] ==> PairUp(TextsTo(s.wire, fd)) == PairsTo(s.sent, fd))
  {
    StartInv(sys, slots);
    NewBooks(Start(sys, slots), fd);
    RunTogether(Start(sys, slots), ls, fd, 0, 0);
    var s := After(Start(sys, slots), ls);
    FitsIsWhole(s, fd, 0, 0);
    assert s.wire[0..] == s.wire && s.sent[0..] == s.sent;
  }

  /** So the texts on the pipe at places 2i and 2i + 1 are the key and the text of one
      message sent to the client. */
  lemma TwoTextsAreMessage(sys: J.System, slots: S.Slots, ls: seq<Step>, fd: int, i: nat) returns (n: Note)
    requires sys.Ok() && IsRun(Start(sys, slots), ls) && Unmixed(Start(sys, slots), ls, fd)
    requires 2 * i + 1 < |TextsTo(After(Start(sys, slots), ls).wire, fd)|
    ensures var s := After(Start(sys, slots), ls);
            var texts := TextsTo(s.wire, fd);
            n in s.sent && n.fd == fd && texts[2 * i] == n.key && texts[2 * i + 1] == n.text
  {
    var s := After(Start(sys, slots), ls);
    MessagesStayWhole(sys, slots, ls, fd);
    n := MessageAt(TextsTo(s.wire, fd), s.sent, fd, i);
  }

  lemma MessageAt(texts: seq<string>, notes: seq<Note>, fd: int, i: nat) returns (n: Note)
    requires PairUp(texts) <= PairsTo(notes, fd) && 2 * i + 1 < |texts|
    ensures n in notes && n.fd == fd && texts[2 * i] == n.key && texts[2 * i + 1] == n.text
  {
    PairAt(texts, i);
    n := PairIsMessage(notes, fd, i);
  }

  /** A pair read is two texts, the key first. */
  lemma {:induction false} PairAt(texts: seq<string>, i: nat)
    requires 2 * i + 1 < |texts|
    ensures i < |PairUp(texts)| && PairUp(texts)[i] == (texts[2 * i], texts[2 * i + 1])
  {
    if i > 0 {
      PairAt(texts[2..], i - 1);
    }
  }

  lemma {:induction false} PairIsMessage(notes: seq<Note>, fd: int, i: nat) returns (n: Note)
    requires i < |PairsTo(notes, fd)|
    ensures n in notes && n.fd == fd && PairsTo(notes, fd)[i] == (n.key, n.text)
  {
    if notes[0].fd == fd && i == 0 {
      n := notes[0];
    } else {
      n := PairIsMessage(notes[1..], fd, if notes[0].fd == fd then i - 1 else i);
    }
  }

  // ---- mixed messages ----

  lemma {:induction false} Grow(s: State, ls: seq<Step>, l: Step)
    requires IsRun(s, ls) && Enabled(After(s, ls), l)
    ensures IsRun(s, ls + [l]) && After(s, ls + [l]) == Do(After(s, ls), l)
    ensures Calls(s, ls + [l]) == Calls(s, ls) + CallsOfStep(After(s, ls), l)
    decreases |ls|
  {
    var more := ls + [l];
    if ls == [] {
      assert more[0] == l && more[1..] == [];
      assert IsRun(Do(s, l), more[1..]) && After(Do(s, l), more[1..]) == Do(s, l);
      assert CallsOfStep(s, l) + [] == [] + CallsOfStep(s, l);
    } else {
      var s1 := Do(s, ls[0]);
      Grow(s1, ls[1..], l);
      assert more[0] == ls[0] && more[1..] == ls[1..] + [l];
      Regroup(CallsOfStep(s, ls[0]), Calls(s1, ls[1..]), CallsOfStep(After(s, ls), l));
    }
  }

  /** A step that is no call. */
  lemma GrowSilently(s: State, ls: seq<Step>, l: Step)
    requires IsRun(s, ls) && Enabled(After(s, ls), l) && CallsOfStep(After(s, ls), l) == [] && !l.Ask?
    ensures var ls' := ls + [l];
            && IsRun(s, ls') && (NoAsks(ls) ==> NoAsks(ls'))
            && Calls(s, ls') == Calls(s, ls) && After(s, ls') == Do(After(s, ls), l)
  {
    Grow(s, ls, l);
    NothingAfter(Calls(s, ls));
  }

  /** Thread t has done its next n writes. */
  function SentOf(s: State, t: nat, n: nat): State
    requires t < |s.boxes| && n <= |s.boxes[t].blocks|
  {
    var box := s.boxes[t];
    s.(wire := s.wire + box.blocks[..n], boxes := s.boxes[t := box.(blocks := box.blocks[n..])])
  }

  lemma SentStep(s: State, t: nat, n: nat)
    requires t < |s.boxes| && n <= |s.boxes[t].blocks|
    ensures SentOf(s, t, 0) == s
    ensures n > 0 ==> SentOf(DoSend(s, t), t, n - 1) == SentOf(s, t, n)
  {
    var box := s.boxes[t];
    if n == 0 {
      assert box.blocks[..0] == [] && box.blocks[0..] == box.blocks && s.wire + [] == s.wire;
      assert s.boxes[t := box] == s.boxes;
    } else {
      assert box.blocks[..n] == [box.blocks[0]] + box.blocks[1..][..n - 1];
      Regroup(s.wire, [box.blocks[0]], box.blocks[1..][..n - 1]);
      assert box.blocks[1..][n - 1..] == box.blocks[n..];
      SentStep(s, t, 0);
    }
  }

  /** A job thread does its next writes. */
  lemma OneSend(s: State, ls: seq<Step>, t: nat)
    requires IsRun(s, ls) && t < |After(s, ls).boxes| && After(s, ls).boxes[t].blocks != []
    ensures var ls' := ls + [Send(t)];
            && IsRun(s, ls') && (NoAsks(ls) ==> NoAsks(ls'))
            && Calls(s, ls') == Calls(s, ls) && After(s, ls') == DoSend(After(s, ls), t)
  {
    GrowSilently(s, ls, Send(t));
  }

  lemma {:induction false} SendSome(s: State, ls: seq<Step>, t: nat, n: nat) returns (ls': seq<Step>)
    requires IsRun(s, ls) && t < |After(s, ls).boxes| && n <= |After(s, ls).boxes[t].blocks|
    ensures IsRun(s, ls') && (NoAsks(ls) ==> NoAsks(ls')) && Calls(s, ls') == Calls(s, ls)
    ensures After(s, ls') == SentOf(After(s, ls), t, n)
    decreases n
  {
    SentStep(After(s, ls), t, n);
    ls' := ls;
    if n > 0 {
      OneSend(s, ls, t);
      ls' := SendSome(s, ls + [Send(t)], t, n - 1);
    }
  }

  ghost predicate NoAsks(ls: seq<Step>) {
    forall x | 0 <= x < |ls| :: !ls[x].Ask?
  }

  /** A batch of one pair. */
  function OnePair(k: Key, v: string): B.Command { B.Write([B.Pair(k, v)]) }

  lemma OnePairPlan(k: Key, v: string)
    ensures B.CommandOk(OnePair(k, v)) && B.Instance(OnePair(k, v), OnePair(k, v))
    ensures B.Locks(OnePair(k, v)) == [Bucket(k)] && B.Acts(OnePair(k, v)) == [B.WriteKey(k, v)]
  {
    var bs := B.Buckets(B.KeysOf(OnePair(k, v)));
    assert bs == [Bucket(k)] && bs[..0] == [];
    assert B.Firsts(bs[..0]) == [];
  }

  /** Two jobs, each with one pair to write. */
  function TwoJobs(t: Table, k1: Key, v1: string, k2: Key, v2: string): J.System {
    J.System(t, [[OnePair(k1, v1)], [OnePair(k2, v2)]], 1)
  }

  /** Thread t has nothing to write, and its job is this pair. */
  ghost predicate HasPair(s: State, t: nat, k: Key, v: string) {
    && t < |s.boxes| == |s.jobs.threads| && s.boxes[t].blocks == []
    && s.jobs.threads[t].phase == J.Idle && s.jobs.threads[t].todo == [OnePair(k, v)]
    && s.jobs.global.writer == None && s.jobs.locks[Bucket(k)] == J.Unheld
  }

  /** Nothing but thread t and bucket b is concerned. */
  ghost predicate Elsewhere(s: State, s': State, t: nat, b: nat) {
    && s'.wire == s.wire && |s'.jobs.threads| == |s.jobs.threads| && s'.jobs.global.writer == None
    && (forall u | 0 <= u < |s.jobs.threads| && u != t :: s'.jobs.threads[u] == s.jobs.threads[u])
    && (forall x | 0 <= x < TABLE_SIZE && x != b :: s'.jobs.locks[x] == s.jobs.locks[x])
  }

  lemma PairBegins(a: State, t: nat, k: Key, v: string)
    requires HasPair(a, t, k, v)
    ensures var l := Job(J.Thread(t, J.Begin(OnePair(k, v))));
            && Enabled(a, l) && CallsOfStep(a, l) == [] && Elsewhere(a, Do(a, l), t, Bucket(k))
            && Do(a, l).jobs.table == a.jobs.table && Do(a, l).boxes == a.boxes && Do(a, l).sent == a.sent
            && Do(a, l).jobs.threads[t].phase == J.Locking(OnePair(k, v), 0)
            && Do(a, l).jobs.locks[Bucket(k)] == J.Unheld
  {
    OnePairPlan(k, v);
  }

  lemma PairLocks(a: State, t: nat, k: Key, v: string)
    requires t < |a.boxes| == |a.jobs.threads| && a.boxes[t].blocks == [] && a.jobs.global.writer == None
    requires a.jobs.threads[t].phase == J.Locking(OnePair(k, v), 0) && a.jobs.locks[Bucket(k)] == J.Unheld
    ensures var l := Job(J.Thread(t, J.Acquire));
            && Enabled(a, l) && CallsOfStep(a, l) == [] && Elsewhere(a, Do(a, l), t, Bucket(k))
            && Do(a, l).jobs.table == a.jobs.table && Do(a, l).boxes == a.boxes && Do(a, l).sent == a.sent
            && Do(a, l).jobs.threads[t].phase == J.Acting(OnePair(k, v), 0, false)
  {
    OnePairPlan(k, v);
  }

  /** A job thread begins its batch and takes its lock. */
  lemma LocksPair(s: State, ls: seq<Step>, t: nat, k: Key, v: string) returns (ls': seq<Step>)
    requires IsRun(s, ls) && NoAsks(ls) && HasPair(After(s, ls), t, k, v)
    ensures IsRun(s, ls') && NoAsks(ls') && Elsewhere(After(s, ls), After(s, ls'), t, Bucket(k))
    ensures Calls(s, ls') == Calls(s, ls)
    ensures var a, a' := After(s, ls), After(s, ls');
            && a'.jobs.table == a.jobs.table && a'.boxes == a.boxes && a'.sent == a.sent
            && a'.jobs.threads[t].phase == J.Acting(OnePair(k, v), 0, false)
  {
    var begin, acquire := Job(J.Thread(t, J.Begin(OnePair(k, v)))), Job(J.Thread(t, J.Acquire));
    PairBegins(After(s, ls), t, k, v);
    GrowSilently(s, ls, begin);
    PairLocks(After(s, ls + [begin]), t, k, v);
    GrowSilently(s, ls + [begin], acquire);
    ls' := ls + [begin] + [acquire];
  }

  function Told(t: Table, k: Key, v: string): seq<Note> { NotesTo(Subscribers(t, k), k, v) }

  /** Thread t has written the pair, and has still to tell the subscribers. */
  ghost predicate Wrote(s: State, s': State, t: nat, k: Key, v: string)
    requires t < |s.boxes|
  {
    && Elsewhere(s, s', t, Bucket(k)) && s'.jobs.table == Put(s.jobs.table, k, v)
    && s'.sent == s.sent + Told(s.jobs.table, k, v)
    && s'.boxes == s.boxes[t := Outbox(Some(k), BlocksOf(Told(s.jobs.table, k, v)))]
  }

  lemma PairWritten(a: State, t: nat, k: Key, v: string)
    requires t < |a.boxes| == |a.jobs.threads| && a.boxes[t].blocks == [] && a.jobs.global.writer == None
    requires a.jobs.threads[t].phase == J.Acting(OnePair(k, v), 0, false)
    ensures var l := Job(J.Thread(t, J.Perform));
            Enabled(a, l) && CallsOfStep(a, l) == [S.WriteKey(k, v)] && Wrote(a, Do(a, l), t, k, v)
  {
    OnePairPlan(k, v);
  }

  lemma WroteLater(s: State, a: State, a': State, t: nat, k: Key, v: string)
    requires t < |s.boxes| && t < |a.boxes| && Elsewhere(s, a, t, Bucket(k)) && Wrote(a, a', t, k, v)
    requires a.jobs.table == s.jobs.table && a.boxes == s.boxes && a.sent == s.sent
    ensures Wrote(s, a', t, k, v)
  {
  }

  /** And writes the pair. */
  lemma WritesPair(s: State, ls: seq<Step>, t: nat, k: Key, v: string) returns (ls': seq<Step>)
    requires IsRun(s, ls) && NoAsks(ls) && HasPair(After(s, ls), t, k, v)
    ensures IsRun(s, ls') && NoAsks(ls') && Wrote(After(s, ls), After(s, ls'), t, k, v)
    ensures Calls(s, ls') == Calls(s, ls) + [S.WriteKey(k, v)]
  {
    var perform := Job(J.Thread(t, J.Perform));
    ls' := LocksPair(s, ls, t, k, v);
    var a := After(s, ls');
    PairWritten(a, t, k, v);
    Grow(s, ls', perform);
    WroteLater(After(s, ls), a, Do(a, perform), t, k, v);
    ls' := ls' + [perform];
  }

  /** The writes up to the key of the message to one subscriber. */
  lemma {:induction false} KeyReaches(fds: seq<int>, key: Key, text: string, fd: int) returns (n: nat)
    requires fd in fds
    ensures var blocks := BlocksOf(NotesTo(fds, key, text));
            n <= |blocks| && TextsTo(blocks[..n], fd) == [key]
  {
    var note, rest := Note(fds[0], key, text), NotesTo(fds[1..], key, text);
    assert NotesTo(fds, key, text)[1..] == rest;
    if fds[0] == fd {
      n := 1;
      KeyFirst(note, BlocksOf(rest));
    } else {
      assert fds == [fds[0]] + fds[1..];
      n := KeyReaches(fds[1..], key, text, fd);
      KeyLater(note, BlocksOf(rest), n, fd);
      n := n + 2;
    }
  }

  lemma KeyFirst(note: Note, more: seq<Block>)
    ensures TextsTo((BlocksOfNote(note) + more)[..1], note.fd) == [note.key]
  {
    var first := [Block(note.fd, note.key)];
    assert (BlocksOfNote(note) + more)[..1] == first && first[1..] == [];
  }

  lemma KeyLater(note: Note, more: seq<Block>, n: nat, fd: int)
    requires note.fd != fd && n <= |more|
    ensures TextsTo((BlocksOfNote(note) + more)[..n + 2], fd) == TextsTo(more[..n], fd)
  {
    assert (BlocksOfNote(note) + more)[..n + 2] == BlocksOfNote(note) + more[..n];
    TextsOfNote(note, fd);
    TextsSplit(BlocksOfNote(note), more[..n], fd);
  }

  lemma {:induction false} FirstPairTo(fds: seq<int>, key: Key, text: string, fd: int, more: seq<Note>)
    requires fd in fds
    ensures var pairs := PairsTo(NotesTo(fds, key, text) + more, fd); pairs != [] && pairs[0] == (key, text)
  {
    var notes := NotesTo(fds, key, text) + more;
    assert notes[1..] == NotesTo(fds[1..], key, text) + more;
    if fds[0] != fd {
      assert fds == [fds[0]] + fds[1..];
      FirstPairTo(fds[1..], key, text, fd, more);
    }
  }

  /** Two threads with a pair each, and nothing sent. */
  ghost predicate TwoPairs(s: State, k1: Key, v1: string, k2: Key, v2: string) {
    && HasPair(s, 0, k1, v1) && HasPair(s, 1, k2, v2) && |s.boxes| == 2 && s.wire == [] && s.sent == []
  }

  lemma StartsWithPairs(t: Table, slots: S.Slots, k1: Key, v1: string, k2: Key, v2: string)
    ensures TwoJobs(t, k1, v1, k2, v2).Ok() && TwoPairs(Start(TwoJobs(t, k1, v1, k2, v2), slots), k1, v1, k2, v2)
  {
    OnePairPlan(k1, v1);
    OnePairPlan(k2, v2);
  }

  /** Both threads have written their pair, and no subscriber has been told. */
  lemma BothWrite(s: State, k1: Key, v1: string, k2: Key, v2: string) returns (ls: seq<Step>)
    requires Valid(s.jobs.table) && Bucket(k1) != Bucket(k2) && TwoPairs(s, k1, v1, k2, v2)
    ensures IsRun(s, ls) && NoAsks(ls)
    ensures BothTold(s, After(s, ls), k1, v1, k2, v2)
    ensures Calls(s, ls) == [S.WriteKey(k1, v1), S.WriteKey(k2, v2)]
  {
    ls := WritesPair(s, [], 0, k1, v1);
    var a := After(s, ls);
    StillHasPair(s, a, k1, v1, k2, v2);
    ls := WritesPair(s, ls, 1, k2, v2);
    BothWrote(s, a, After(s, ls), k1, v1, k2, v2);
  }

  ghost predicate BothTold(s: State, a: State, k1: Key, v1: string, k2: Key, v2: string) {
    var notes1, notes2 := Told(s.jobs.table, k1, v1), Told(s.jobs.table, k2, v2);
    && a.wire == [] && a.sent == notes1 + notes2
    && a.boxes == [Outbox(Some(k1), BlocksOf(notes1)), Outbox(Some(k2), BlocksOf(notes2))]
  }

  lemma StillHasPair(s: State, s': State, k1: Key, v1: string, k2: Key, v2: string)
    requires TwoPairs(s, k1, v1, k2, v2) && Wrote(s, s', 0, k1, v1) && Bucket(k1) != Bucket(k2)
    ensures HasPair(s', 1, k2, v2)
  {
  }

  lemma BothWrote(s: State, a: State, a': State, k1: Key, v1: string, k2: Key, v2: string)
    requires Valid(s.jobs.table) && TwoPairs(s, k1, v1, k2, v2) && Bucket(k1) != Bucket(k2)
    requires Wrote(s, a, 0, k1, v1) && |a.boxes| == 2 && Wrote(a, a', 1, k2, v2)
    ensures BothTold(s, a', k1, v1, k2, v2)
  {
    var notes1, notes2 := Told(s.jobs.table, k1, v1), Told(s.jobs.table, k2, v2);
    assert Told(a.jobs.table, k2, v2) == notes2 by {
      PutMeaning(s.jobs.table, k1, v1);
    }
    assert [] + notes1 == notes1;
    TwoBoxes(s.boxes, Outbox(Some(k1), BlocksOf(notes1)), Outbox(Some(k2), BlocksOf(notes2)));
  }

  lemma TwoBoxes(boxes: seq<Outbox>, box1: Outbox, box2: Outbox)
    requires |boxes| == 2
    ensures boxes[0 := box1][1 := box2] == [box1, box2]
  {
  }

  /** The two threads write to pipes, one after the other. */
  lemma SendBoth(s: State, ls: seq<Step>, n1: nat, n2: nat) returns (ls': seq<Step>)
    requires IsRun(s, ls) && NoAsks(ls) && |After(s, ls).boxes| == 2
    requires n1 <= |After(s, ls).boxes[0].blocks| && n2 <= |After(s, ls).boxes[1].blocks|
    ensures IsRun(s, ls') && NoAsks(ls') && Calls(s, ls') == Calls(s, ls)
    ensures var a, a' := After(s, ls), After(s, ls');
            a'.sent == a.sent && a'.wire == a.wire + a.boxes[0].blocks[..n1] + a.boxes[1].blocks[..n2]
  {
    ls' := SendSome(s, ls, 0, n1);
    ls' := SendSome(s, ls', 1, n2);
  }

  lemma MixedTexts(a: seq<Block>, b: seq<Block>, fd: int, k1: string, k2: string)
    requires TextsTo(a, fd) == [k1] && TextsTo(b, fd) == [k2]
    ensures PairUp(TextsTo([] + a + b, fd)) == [(k1, k2)]
  {
    assert [] + a + b == a + b;
    TextsSplit(a, b, fd);
    var texts := [k1] + [k2];
    assert texts[2..] == [];
  }

  /** Messages can mix. For a client on the lists of two keys in different buckets, two
      jobs that write one of the keys each have a run in which the client reads the
      second key as the value of the first. */
  lemma MessagesCanMix(t: Table, slots: S.Slots, fd: int, k1: Key, v1: string, k2: Key, v2: string)
    returns (ls: seq<Step>)
    requires Valid(t) && fd in Subscribers(t, k1) && fd in Subscribers(t, k2) && Bucket(k1) != Bucket(k2)
    ensures var sys := TwoJobs(t, k1, v1, k2, v2); sys.Ok() && IsRun(Start(sys, slots), ls) && NoAsks(ls)
    ensures var s := After(Start(TwoJobs(t, k1, v1, k2, v2), slots), ls);
            && PairUp(TextsTo(s.wire, fd)) == [(k1, k2)]
            && |PairsTo(s.sent, fd)| > 0 && PairsTo(s.sent, fd)[0] == (k1, v1)
    ensures Calls(Start(TwoJobs(t, k1, v1, k2, v2), slots), ls) == [S.WriteKey(k1, v1), S.WriteKey(k2, v2)]
  {
    var s, fds1, fds2 := Start(TwoJobs(t, k1, v1, k2, v2), slots), Subscribers(t, k1), Subscribers(t, k2);
    var blocks1, blocks2 := BlocksOf(NotesTo(fds1, k1, v1)), BlocksOf(NotesTo(fds2, k2, v2));
    StartsWithPairs(t, slots, k1, v1, k2, v2);
    ls := BothWrite(s, k1, v1, k2, v2);
    var n1 := KeyReaches(fds1, k1, v1, fd);
    var n2 := KeyReaches(fds2, k2, v2, fd);
    FirstPairTo(fds1, k1, v1, fd, NotesTo(fds2, k2, v2));
    MixedTexts(blocks1[..n1], blocks2[..n2], fd, k1, k2);
    ls := SendBoth(s, ls, n1, n2);
  }

  /** Then the replay is wrong although nobody wrote the word DELETE: the client takes
      the second key for the value of the first. */
  lemma MixedReplayIsWrong(t: Table, slots: S.Slots, fd: int, k1: Key, v1: string, k2: Key, v2: string, v: string)
    returns (ls: seq<Step>)
    requires Valid(t) && fd in Subscribers(t, k1) && fd in Subscribers(t, k2) && Bucket(k1) != Bucket(k2)
    requires v1 != k2 && v1 != S.DELETED
    ensures var sys := TwoJobs(t, k1, v1, k2, v2); sys.Ok() && IsRun(Start(sys, slots), ls) && NoAsks(ls)
    ensures var s := Start(TwoJobs(t, k1, v1, k2, v2), slots);
            && N.Plain(Calls(s, ls), k1) && N.Held(v, Calls(s, ls), k1) == Some(v1)
            && N.Replay(v, About(PairUp(TextsTo(After(s, ls).wire, fd)), k1)) != Some(v1)
  {
    ls := MessagesCanMix(t, slots, fd, k1, v1, k2, v2);
    TwoWrites(k1, v1, k2, v2, v);
    ReplayOfOne(v, k1, k2);
  }

  lemma TwoWrites(k1: Key, v1: string, k2: Key, v2: string, v: string)
    requires k1 != k2 && v1 != S.DELETED
    ensures var cs := [S.WriteKey(k1, v1), S.WriteKey(k2, v2)]; N.Plain(cs, k1) && N.Held(v, cs, k1) == Some(v1)
  {
    var cs := [S.WriteKey(k1, v1), S.WriteKey(k2, v2)];
    N.HeardStep(v, cs, k1);
    N.HeardStep(v1, cs[1..], k1);
    assert cs[1..][1..] == [];
  }

  lemma ReplayOfOne(v: string, k: string, text: string)
    ensures N.Replay(v, About([(k, text)], k)) == if text == S.DELETED then None else Some(text)
  {
    var pairs := [(k, text)];
    assert pairs[1..] == [] && About(pairs[1..], k) == [];
    assert pairs[0].0 == k;
    var texts := About(pairs, k);
    assert texts == [text] + [];
    assert texts[1..] == [];
  }

  /** Job steps only keep or empty the lists of keys. */
  lemma ActListsLess(a: B.Act, p: B.Progress)
    requires Valid(p.table)
    ensures var t' := B.DoAct(a, p).table;
            && Valid(t')
            && forall k: Key :: Subscribers(t', k) == Subscribers(p.table, k) || Subscribers(t', k) == []
  {
    if a.WriteKey? {
      PutMeaning(p.table, a.key, a.value);
    } else if a.DeleteKey? {
      DropMeaning(p.table, a.key);
    }
  }

  lemma {:induction false} StaysListedIn(s: State, ls: seq<Step>, fd: int, b: nat)
    requires IsRun(s, ls) && NoAsks(ls) && Valid(s.jobs.table) && ListedIn(s.jobs.table, fd, b)
    ensures AlwaysIn(s, ls, fd, b)
    decreases |ls|
  {
    if ls != [] {
      assert !ls[0].Ask?;
      if ls[0].Job? {
        JobTable(s, ls[0].l);
        var acts := ActOf(s.jobs, ls[0].l);
        if acts != [] {
          var out, flag :| DoJob(s, ls[0].l).jobs.table == B.DoAct(acts[0], B.Progress(s.jobs.table, out, flag)).table;
          ActListsLess(acts[0], B.Progress(s.jobs.table, out, flag));
        }
      }
      StaysListedIn(Do(s, ls[0]), ls[1..], fd, b);
    }
  }

  /** Whatever jobs run on the table, the client reads whole messages. */
  ghost predicate AlwaysWhole(t: Table, slots: S.Slots, fd: int) {
    forall sys: J.System, ls: seq<Step> |
        sys.table == t && sys.Ok() && IsRun(Start(sys, slots), ls) && NoAsks(ls) ::
      Whole(After(Start(sys, slots), ls), fd)
  }

  /** The condition is exact. A client reads whole messages in every run of every set
      of jobs if and only if all keys it is listed under are in one bucket. */
  lemma WholeIffOneBucket(t: Table, slots: S.Slots, fd: int)
    requires Valid(t)
    ensures AlwaysWhole(t, slots, fd) <==> exists b :: ListedIn(t, fd, b)
  {
    if b :| ListedIn(t, fd, b) {
      forall sys: J.System, ls: seq<Step> |
          sys.table == t && sys.Ok() && IsRun(Start(sys, slots), ls) && NoAsks(ls)
        ensures Whole(After(Start(sys, slots), ls), fd)
      {
        StaysListedIn(Start(sys, slots), ls, fd, b);
        assert OwedIn(Start(sys, slots), fd, b);
        MessagesStayWhole(sys, slots, ls, fd);
      }
    } else {
      assert !ListedIn(t, fd, 0);
      var k1: Key :| fd in Subscribers(t, k1) && Bucket(k1) != 0;
      assert !ListedIn(t, fd, Bucket(k1));
      var k2: Key :| fd in Subscribers(t, k2) && Bucket(k2) != Bucket(k1);
      var v1: string := if k2 == "a" then "b" else "a";
      var sys := TwoJobs(t, k1, v1, k2, "");
      var ls := MessagesCanMix(t, slots, fd, k1, v1, k2, "");
      assert !Whole(After(Start(sys, slots), ls), fd);
    }
  }

  // ---- bytes ----

  /** The bytes of some writes of 41 bytes each. */
  function BytesOf(texts: seq<string>): string {
    if texts == [] then "" else F.Padded(texts[0], F.KEY_MESSAGE_SIZE) + BytesOf(texts[1..])
  }

  /** The loop of the client's notification thread: it reads 41 bytes as a key and 41
      as a value, and prints both. */
  function PrintedOf(bytes: string): seq<(string, string)>
    decreases |bytes|
  {
    var n := F.KEY_MESSAGE_SIZE;
    if |bytes| < 2 * n then [] else [(CString(bytes[..n]), CString(bytes[n..2 * n]))] + PrintedOf(bytes[2 * n..])
  }

  predicate Fit(text: string) { NUL !in text && |text| < F.KEY_MESSAGE_SIZE }

  /** With texts of at most 40 bytes without NUL, the bytes of the writes are printed
      as the texts, two by two. */
  lemma {:induction false} PrintedAsPairs(texts: seq<string>)
    requires forall i | 0 <= i < |texts| :: Fit(texts[i])
    ensures |BytesOf(texts)| == |texts| * F.KEY_MESSAGE_SIZE
    ensures PrintedOf(BytesOf(texts)) == PairUp(texts)
    decreases |texts|
  {
    var n := F.KEY_MESSAGE_SIZE;
    if |texts| >= 2 {
      var a, b, rest := F.Padded(texts[0], n), F.Padded(texts[1], n), BytesOf(texts[2..]);
      PrintedAsPairs(texts[2..]);
      assert texts[1..][1..] == texts[2..];
      Regroup(a, b, rest);
      F.PaddedBack(texts[0], n);
      F.PaddedBack(texts[1], n);
      ThreeParts(a, b, rest, n);
    } else if |texts| == 1 {
      assert texts[1..] == [];
    }
  }

  lemma ThreeParts(a: string, b: string, c: string, n: nat)
    requires |a| == n && |b| == n
    ensures var s := a + b + c; s[..n] == a && s[n..2 * n] == b && s[2 * n..] == c
  {
  }
}
