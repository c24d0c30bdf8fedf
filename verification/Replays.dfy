/** What a client that replays its pipe knows of a key: the value, but for a message
    that is just being written to it. */
module Replays {
  import opened Text
  import opened Tables
  import opened Delivery
  import opened WholeMessages
  import opened Recipients
  import B = Batches
  import J = Store
  import N = Notifications
  import S = Subscriptions

  // ---- the message being written ----

  /** What a thread owes the client is the rest of the last message sent to it. */
  ghost predicate LastTold(s: State, t: nat, fd: int)
    requires t < |s.boxes|
  {
    var owed, sent := TextsTo(s.boxes[t].blocks, fd), PairsTo(s.sent, fd);
    owed != [] ==>
      && s.boxes[t].about.Some? && sent != [] && sent[|sent| - 1].0 == s.boxes[t].about.value
      && (owed == [sent[|sent| - 1].0, sent[|sent| - 1].1] || owed == [sent[|sent| - 1].1])
  }

  /** The books of a client, with at most the rest of one message owed. */
  ghost predicate Books(s: State, fd: int, w: nat, n: nat) {
    Good(s) && Together(s, fd, w, n) && forall t | 0 <= t < |s.boxes| :: LastTold(s, t, fd)
  }

  lemma {:induction false} PairsSplit(a: seq<Note>, b: seq<Note>, fd: int)
    ensures PairsTo(a + b, fd) == PairsTo(a, fd) + PairsTo(b, fd)
  {
    if a == [] {
      assert a + b == b;
    } else {
      assert (a + b)[1..] == a[1..] + b;
      PairsSplit(a[1..], b, fd);
      if a[0].fd == fd {
        var first: seq<(string, string)> := [(a[0].key, a[0].text)];
        Regroup(first, PairsTo(a[1..], fd), PairsTo(b, fd));
      }
    }
  }

  /** One message to each subscriber. */
  lemma {:induction false} OneMessage(fds: seq<int>, key: Key, text: string, fd: int)
    requires NoDuplicates(fds) && fd in fds
    ensures TextsTo(BlocksOf(NotesTo(fds, key, text)), fd) == [key, text]
    ensures PairsTo(NotesTo(fds, key, text), fd) == [(key, text)]
  {
    var notes, note := NotesTo(fds, key, text), Note(fds[0], key, text);
    FirstOrLater(fds, fd);
    assert notes[1..] == NotesTo(fds[1..], key, text);
    TextsSplit(BlocksOfNote(note), BlocksOf(notes[1..]), fd);
    TextsOfNote(note, fd);
    PairsOfBlocks(notes[1..], fd);
    if fds[0] == fd {
      NotListedNotTold(fds[1..], key, text, fd);
    } else {
      OneMessage(fds[1..], key, text, fd);
    }
  }

  lemma FirstOrLater(fds: seq<int>, fd: int)
    requires NoDuplicates(fds) && fd in fds
    ensures if fds[0] == fd then fd !in fds[1..] else fd in fds[1..]
    ensures NoDuplicates(fds[1..])
  {
    assert fds == [fds[0]] + fds[1..];
  }

  lemma JobLast(s: State, j: J.Step, fd: int, t: nat)
    requires Good(s) && Enabled(s, Job(j)) && OneOwes(DoJob(s, j), fd) && t < |s.boxes| && LastTold(s, t, fd)
    ensures LastTold(DoJob(s, j), t, fd)
  {
    var acts := ActOf(s.jobs, j);
    if acts != [] {
      if TextsTo(BlocksOf(B.NotesOf(acts[0], s.jobs.table)), fd) == [] {
        QuietLast(s, j, fd, t);
      } else {
        TellsLast(s, j, fd, t);
      }
    }
  }

  lemma QuietLast(s: State, j: J.Step, fd: int, t: nat)
    requires Enabled(s, Job(j)) && ActOf(s.jobs, j) != [] && t < |s.boxes| && LastTold(s, t, fd)
    requires TextsTo(BlocksOf(B.NotesOf(ActOf(s.jobs, j)[0], s.jobs.table)), fd) == []
    ensures LastTold(DoJob(s, j), t, fd)
  {
    var notes := B.NotesOf(ActOf(s.jobs, j)[0], s.jobs.table);
    PairsSplit(s.sent, notes, fd);
    PairsOfBlocks(notes, fd);
    NothingAfter(PairsTo(s.sent, fd));
    assert t != j.t ==> DoJob(s, j).boxes[t] == s.boxes[t];
  }

  lemma TellsLast(s: State, j: J.Step, fd: int, t: nat)
    requires Good(s) && Enabled(s, Job(j)) && OneOwes(DoJob(s, j), fd) && t < |s.boxes|
    requires ActOf(s.jobs, j) != []
    requires TextsTo(BlocksOf(B.NotesOf(ActOf(s.jobs, j)[0], s.jobs.table)), fd) != []
    ensures LastTold(DoJob(s, j), t, fd)
  {
    var a := ActOf(s.jobs, j)[0];
    var notes, s' := B.NotesOf(a, s.jobs.table), DoJob(s, j);
    ActTells(s, a, fd);
    PairsSplit(s.sent, notes, fd);
    assert s'.boxes[j.t].blocks == BlocksOf(notes);
    if t == j.t {
      var pairs := PairsTo(s'.sent, fd);
      assert pairs[|pairs| - 1] == PairsTo(notes, fd)[0];
    } else {
      assert TextsTo(s'.boxes[t].blocks, fd) == [];
    }
  }

  /** An action that tells a client something sends it one message, about its key. */
  lemma ActTells(s: State, a: B.Act, fd: int)
    requires S.Ok(ServerOf(s)) && TextsTo(BlocksOf(B.NotesOf(a, s.jobs.table)), fd) != []
    ensures B.Writes(a)
    ensures var text, notes := if a.WriteKey? then a.value else "DELETE", B.NotesOf(a, s.jobs.table);
            TextsTo(BlocksOf(notes), fd) == [a.key, text] && PairsTo(notes, fd) == [(a.key, text)]
  {
    ToldIsListed(a, s.jobs.table, fd);
    assert S.KeyOk(ServerOf(s), a.key);
    OneMessage(Subscribers(s.jobs.table, a.key), a.key, if a.WriteKey? then a.value else "DELETE", fd);
  }

  lemma SendLast(s: State, t: nat, fd: int, u: nat)
    requires t < |s.boxes| && s.boxes[t].blocks != [] && u < |s.boxes| && LastTold(s, u, fd)
    ensures LastTold(DoSend(s, t), u, fd)
  {
    if u == t {
      var blocks := s.boxes[t].blocks;
      var owed, owed' := TextsTo(blocks, fd), TextsTo(blocks[1..], fd);
      assert owed == (if blocks[0].fd == fd then [blocks[0].text] else []) + owed';
      if blocks[0].fd == fd {
        assert owed' == owed[1..];
      } else {
        assert owed' == owed;
      }
    }
  }

  lemma StepBooks(s: State, l: Step, fd: int, w: nat, n: nat)
    requires Books(s, fd, w, n) && Enabled(s, l) && Together(Do(s, l), fd, w, n)
    ensures Books(Do(s, l), fd, w, n)
  {
    StepGood(s, l);
    forall t | 0 <= t < |s.boxes| ensures LastTold(Do(s, l), t, fd) {
      StepLast(s, l, fd, t);
    }
  }

  lemma StepLast(s: State, l: Step, fd: int, t: nat)
    requires Good(s) && Enabled(s, l) && OneOwes(Do(s, l), fd) && t < |s.boxes| && LastTold(s, t, fd)
    ensures LastTold(Do(s, l), t, fd)
  {
    match l
    case Job(j) => JobLast(s, j, fd, t);
    case Send(u) => SendLast(s, u, fd, t);
    case Ask(c) =>
  }

  lemma {:induction false} BooksInOneBucket(s: State, ls: seq<Step>, fd: int, w: nat, n: nat, b: nat)
    requires IsRun(s, ls) && AlwaysIn(s, ls, fd, b) && Books(s, fd, w, n) && OwedIn(s, fd, b)
    ensures Books(After(s, ls), fd, w, n)
    decreases |ls|
  {
    if ls != [] {
      StepInOneBucket(s, ls[0], fd, w, n, b);
      StepBooks(s, ls[0], fd, w, n);
      BooksInOneBucket(Do(s, ls[0]), ls[1..], fd, w, n, b);
    }
  }

  lemma {:induction false} BooksOfOneThread(s: State, ls: seq<Step>, fd: int, w: nat, n: nat)
    requires IsRun(s, ls) && |s.boxes| <= 1 && Books(s, fd, w, n)
    ensures Books(After(s, ls), fd, w, n)
    decreases |ls|
  {
    if ls != [] {
      StepOfOneThread(s, ls[0], fd, w, n);
      StepBooks(s, ls[0], fd, w, n);
      BooksOfOneThread(Do(s, ls[0]), ls[1..], fd, w, n);
    }
  }

  lemma RunBooks(s: State, ls: seq<Step>, fd: int, w: nat, n: nat)
    requires Books(s, fd, w, n) && IsRun(s, ls) && Unmixed(s, ls, fd)
    ensures Books(After(s, ls), fd, w, n)
  {
    if |s.boxes| <= 1 {
      BooksOfOneThread(s, ls, fd, w, n);
    } else {
      var b :| AlwaysIn(s, ls, fd, b) && OwedIn(s, fd, b);
      BooksInOneBucket(s, ls, fd, w, n, b);
    }
  }

  /** A client that is owed nothing can start to read here. */
  lemma OpenBooks(s: State, fd: int)
    requires Good(s) && OwesNothing(s, fd)
    ensures Books(s, fd, |s.wire|, |s.sent|)
  {
    NewBooks(s, fd);
  }

  // ---- what is on the pipe ----

  /** What the client has read since some point, two by two. */
  function PipePairs(s: State, w: nat, fd: int): seq<(string, string)>
    requires w <= |s.wire|
  {
    PairUp(TextsTo(s.wire[w..], fd))
  }

  lemma {:induction false} PairUpTake(texts: seq<string>, j: nat)
    requires j <= |texts|
    ensures |PairUp(texts)| == |texts| / 2 && PairUp(texts[..j]) == PairUp(texts)[..j / 2]
    decreases |texts|
  {
    if |texts| >= 2 {
      PairUpTake(texts[2..], if j >= 2 then j - 2 else 0);
      if j >= 2 {
        assert texts[..j][2..] == texts[2..][..j - 2];
      }
    }
  }

  lemma {:induction false} TwoTextsEach(notes: seq<Note>, fd: int)
    ensures |TextsTo(BlocksOf(notes), fd)| == 2 * |PairsTo(notes, fd)|
  {
    if notes != [] {
      TwoTextsEach(notes[1..], fd);
      TextsSplit(BlocksOfNote(notes[0]), BlocksOf(notes[1..]), fd);
      TextsOfNote(notes[0], fd);
    }
  }

  /** Who owes the client something, if anybody does. */
  lemma WhoOwes(s: State, fd: int) returns (t: nat)
    requires OneOwes(s, fd) && !OwesNothing(s, fd)
    ensures t < |s.boxes| && TextsTo(s.boxes[t].blocks, fd) != []
    ensures Owed(s.boxes, fd) == TextsTo(s.boxes[t].blocks, fd)
  {
    t :| 0 <= t < |s.boxes| && TextsTo(s.boxes[t].blocks, fd) != [];
    OwedByOne(s.boxes, t, fd);
  }

  function ButLast<T>(xs: seq<T>): seq<T> { if xs == [] then [] else xs[..|xs| - 1] }

  /** On the pipe are all messages sent to the client, but for one that is just being
      written to it, the last. */
  lemma PipeIs(s: State, fd: int, w: nat, n: nat)
    requires Books(s, fd, w, n)
    ensures var pairs := PairsTo(s.sent[n..], fd);
            && PipePairs(s, w, fd) == (if OwesNothing(s, fd) then pairs else ButLast(pairs))
            && (!OwesNothing(s, fd) ==> pairs != [])
  {
    PairsOfBlocks(s.sent[n..], fd);
    TwoTextsEach(s.sent[n..], fd);
    if OwesNothing(s, fd) {
      OwedNone(s.boxes, fd);
    } else {
      var t := WhoOwes(s, fd);
      assert LastTold(s, t, fd);
    }
    PairsRead(TextsTo(s.wire[w..], fd), Owed(s.boxes, fd));
  }

  /** Of whole messages, with one or two texts still to come, one is not read. */
  lemma PairsRead(read: seq<string>, owed: seq<string>)
    requires |read + owed| % 2 == 0 && |owed| <= 2
    ensures var pairs := PairUp(read + owed);
            |pairs| == |read + owed| / 2 && PairUp(read) == if owed == [] then pairs else ButLast(pairs)
  {
    PairUpTake(read + owed, |read|);
    assert (read + owed)[..|read|] == read;
    if owed == [] {
      NothingAfter(read);
    }
  }

  /** The client is just being written a message about the key. */
  ghost predicate BeingTold(s: State, fd: int, k: Key) {
    exists t | 0 <= t < |s.boxes| :: TextsTo(s.boxes[t].blocks, fd) != [] && s.boxes[t].about == Some(k)
  }

  /** Only under the lock of the key's bucket. */
  lemma ToldUnderLock(s: State, fd: int, k: Key)
    requires Good(s) && LockFree(s.jobs, k)
    ensures !BeingTold(s, fd, k)
  {
    forall t | 0 <= t < |s.boxes| && s.boxes[t].blocks != [] ensures s.boxes[t].about != Some(k) {
      OwingLocks(s, t);
    }
  }

  lemma {:induction false} AboutSnoc(pairs: seq<(string, string)>, p: (string, string), k: string)
    ensures About(pairs + [p], k) == About(pairs, k) + if p.0 == k then [p.1] else []
  {
    if pairs == [] {
      assert pairs + [p] == [p] && [p][1..] == [];
    } else {
      assert (pairs + [p])[1..] == pairs[1..] + [p];
      AboutSnoc(pairs[1..], p, k);
    }
  }

  lemma {:induction false} AboutPairs(notes: seq<Note>, fd: int, k: Key)
    ensures About(PairsTo(notes, fd), k) == N.Texts(notes, fd, k)
  {
    if notes != [] {
      AboutPairs(notes[1..], fd, k);
      var rest := PairsTo(notes[1..], fd);
      if notes[0].fd == fd {
        assert PairsTo(notes, fd)[1..] == rest;
      } else {
        assert PairsTo(notes, fd) == rest;
      }
    }
  }

  /** Of the messages about a key the last is missing from the pipe exactly while it is
      being written. */
  lemma PipeAbout(s: State, fd: int, w: nat, n: nat, k: Key)
    requires Books(s, fd, w, n)
    ensures var texts := N.Texts(s.sent[n..], fd, k);
            && About(PipePairs(s, w, fd), k) == (if BeingTold(s, fd, k) then ButLast(texts) else texts)
            && (BeingTold(s, fd, k) ==> texts != [])
  {
    var pairs := PairsTo(s.sent[n..], fd);
    PipeIs(s, fd, w, n);
    AboutPairs(s.sent[n..], fd, k);
    if !OwesNothing(s, fd) {
      var t := LastPair(s, fd, w, n);
      AboutButLast(pairs, k);
      OneIsTold(s, fd, k, t);
    }
  }

  lemma AboutButLast(pairs: seq<(string, string)>, k: string)
    requires pairs != []
    ensures var texts := About(pairs, k);
            About(ButLast(pairs), k) == (if pairs[|pairs| - 1].0 == k then ButLast(texts) else texts) &&
            (pairs[|pairs| - 1].0 == k ==> texts != [])
  {
    assert pairs == ButLast(pairs) + [pairs[|pairs| - 1]];
    AboutSnoc(ButLast(pairs), pairs[|pairs| - 1], k);
  }

  /** The last message sent since then is that which is being written. */
  lemma LastPair(s: State, fd: int, w: nat, n: nat) returns (t: nat)
    requires Books(s, fd, w, n) && !OwesNothing(s, fd) && PairsTo(s.sent[n..], fd) != []
    ensures t < |s.boxes| && TextsTo(s.boxes[t].blocks, fd) != []
    ensures var pairs := PairsTo(s.sent[n..], fd);
            s.boxes[t].about.Some? && pairs[|pairs| - 1].0 == s.boxes[t].about.value
  {
    t := WhoOwes(s, fd);
    assert LastTold(s, t, fd);
    assert s.sent == s.sent[..n] + s.sent[n..];
    PairsSplit(s.sent[..n], s.sent[n..], fd);
  }

  lemma OneIsTold(s: State, fd: int, k: Key, t: nat)
    requires OneOwes(s, fd) && t < |s.boxes| && TextsTo(s.boxes[t].blocks, fd) != []
    ensures BeingTold(s, fd, k) <==> s.boxes[t].about == Some(k)
  {
  }

  // ---- the calls that the client knows of ----

  /** The place of the last write to the key, or 0. */
  function LastWrite(cs: seq<S.Call>, k: Key): (x: nat)
    ensures x <= |cs|
  {
    if cs == [] then 0
    else if cs[|cs| - 1].WriteKey? && cs[|cs| - 1].key == k then |cs| - 1
    else LastWrite(cs[..|cs| - 1], k)
  }

  /** The calls before the last one that is told: the first deletion, or else the last
      write. */
  function BeforeLast(cs: seq<S.Call>, k: Key): (r: seq<S.Call>)
    ensures r <= cs
  {
    var n := N.UntilDelete(cs, k);
    if n < |cs| then cs[..n] else cs[..LastWrite(cs, k)]
  }

  lemma {:induction false} WrittenButLast(cs: seq<S.Call>, k: Key)
    ensures N.Written(cs[..LastWrite(cs, k)], k) == ButLast(N.Written(cs, k))
  {
    if cs != [] {
      var init := cs[..|cs| - 1];
      assert cs == init + [cs[|cs| - 1]];
      N.WrittenSnoc(init, cs[|cs| - 1], k);
      if cs[|cs| - 1].WriteKey? && cs[|cs| - 1].key == k {
      } else {
        WrittenButLast(init, k);
        assert cs[..LastWrite(cs, k)] == init[..LastWrite(init, k)];
      }
    }
  }

  lemma HeardBeforeLast(cs: seq<S.Call>, k: Key)
    ensures N.Heard(BeforeLast(cs, k), k) == ButLast(N.Heard(cs, k))
  {
    var n := N.UntilDelete(cs, k);
    var known := BeforeLast(cs, k);
    N.PlainPrefix(cs, |known|, k);
    assert known == cs[..|known|] && known[..|known|] == known;
    NothingAfter(N.Written(known, k));
    if n < |cs| {
      assert known == cs[..n];
    } else {
      assert cs[..n] == cs;
      NothingAfter(N.Written(cs, k));
      WrittenButLast(cs, k);
    }
  }

  lemma {:induction false} HeardPrefix(cs: seq<S.Call>, m: nat, k: Key)
    requires m <= |cs|
    ensures N.Heard(cs[..m], k) <= N.Heard(cs, k)
  {
    if m > 0 {
      N.HeardStep("", cs, k);
      N.HeardStep("", cs[..m], k);
      assert cs[..m][0] == cs[0] && cs[..m][1..] == cs[1..][..m - 1];
      if cs[0] != S.DeleteKey(k) {
        HeardPrefix(cs[1..], m - 1, k);
      }
    } else {
      assert N.Heard(cs[..0], k) == [];
    }
  }

  /** A write of the deletion text, before the key is deleted, is heard as the last so
      far. */
  lemma HeardAt(cs: seq<S.Call>, x: nat, k: Key)
    requires x < N.UntilDelete(cs, k) && cs[x] == S.WriteKey(k, S.DELETED)
    ensures N.Heard(cs[..x + 1], k) == N.Heard(cs[..x], k) + [S.DELETED]
    ensures N.Heard(cs[..x + 1], k) == N.Written(cs[..x + 1], k)
  {
    HeardIsWritten(cs, x, k);
    HeardIsWritten(cs, x + 1, k);
    OneMoreCall(cs, x);
    N.WrittenSnoc(cs[..x], S.WriteKey(k, S.DELETED), k);
  }

  lemma OneMoreCall(cs: seq<S.Call>, x: nat)
    requires x < |cs|
    ensures cs[..x + 1] == cs[..x] + [cs[x]]
  {
  }

  lemma HeardIsWritten(cs: seq<S.Call>, m: nat, k: Key)
    requires m <= N.UntilDelete(cs, k)
    ensures N.Heard(cs[..m], k) == N.Written(cs[..m], k)
  {
    N.PlainPrefix(cs, m, k);
    AllHeard(cs[..m], k);
  }

  /** Without a deletion all that is written is heard. */
  lemma AllHeard(cs: seq<S.Call>, k: Key)
    requires N.UntilDelete(cs, k) == |cs|
    ensures N.Heard(cs, k) == N.Written(cs, k)
  {
    assert cs[..|cs|] == cs;
    NothingAfter(N.Written(cs, k));
  }

  lemma {:induction false} WrittenPrefix(cs: seq<S.Call>, m: nat, k: Key)
    requires m <= |cs|
    ensures N.Written(cs[..m], k) <= N.Written(cs, k)
  {
    if m > 0 {
      assert cs[..m][0] == cs[0] && cs[..m][1..] == cs[1..][..m - 1];
      WrittenPrefix(cs[1..], m - 1, k);
    } else {
      assert N.Written(cs[..0], k) == [];
    }
  }

  /** Who has heard only so much has not heard of the deletion. */
  lemma StillHeld(cs: seq<S.Call>, m: nat, x: nat, k: Key, v: string)
    requires x < N.UntilDelete(cs, k) && cs[x] == S.WriteKey(k, S.DELETED) && m <= |cs|
    requires |N.Heard(cs[..m], k)| == |N.Heard(cs[..x + 1], k)|
    ensures N.Held(v, cs[..m], k).Some?
  {
    var u := N.UntilDelete(cs, k);
    N.PlainPrefix(cs, m, k);
    if u < m {
      HeardAt(cs, x, k);
      assert cs[..m][..u] == cs[..u] && cs[..u][..x + 1] == cs[..x + 1];
      WrittenPrefix(cs[..u], x + 1, k);
    }
  }

  /** Who has heard more knows of more calls: if the later calls are plain, so are the
      earlier ones. */
  lemma PlainBefore(cs: seq<S.Call>, m: nat, n: nat, k: Key)
    requires m <= |cs| && n <= |cs| && |N.Heard(cs[..m], k)| <= |N.Heard(cs[..n], k)| && N.Plain(cs[..n], k)
    ensures N.Plain(cs[..m], k)
  {
    N.PlainPrefix(cs, m, k);
    N.PlainPrefix(cs, n, k);
    forall x | 0 <= x < N.UntilDelete(cs[..m], k) ensures cs[..m][x] != S.WriteKey(k, S.DELETED) {
      if n > x {
        assert cs[..n][x] == cs[x];
      } else if cs[x] == S.WriteKey(k, S.DELETED) {
        HeardMore(cs, m, n, x, k);
      }
    }
  }

  lemma HeardMore(cs: seq<S.Call>, m: nat, n: nat, x: nat, k: Key)
    requires n <= x < m <= |cs| && x < N.UntilDelete(cs, k) && cs[x] == S.WriteKey(k, S.DELETED)
    ensures |N.Heard(cs[..n], k)| < |N.Heard(cs[..m], k)|
  {
    HeardAt(cs, x, k);
    HeardShorter(cs, n, x, k);
    HeardShorter(cs, x + 1, m, k);
  }

  lemma HeardShorter(cs: seq<S.Call>, n: nat, m: nat, k: Key)
    requires n <= m <= |cs|
    ensures |N.Heard(cs[..n], k)| <= |N.Heard(cs[..m], k)|
  {
    HeardPrefix(cs[..m], n, k);
    assert cs[..m][..n] == cs[..n];
  }

  // ---- the replay ----

  /** A client in session, on the list of a key with value v. Its books have been kept
      since it began to read, and it has not been told anything about the key yet. */
  ghost predicate Follows(s: State, i: nat, k: Key, v: string, w: nat, n: nat) {
    && i < |s.slots| && s.slots[i].Some? && Books(s, s.slots[i].value.fdNotif, w, n)
    && s.slots[i].value.fdNotif in Subscribers(s.jobs.table, k)
    && Get(s.jobs.table, k).Some? && Get(s.jobs.table, k).value.value == v
    && N.Texts(s.sent[n..], s.slots[i].value.fdNotif, k) == []
  }

  /** What happens next leaves the client in session and on the list, as far as it has
      a say, and keeps its messages whole. */
  ghost predicate GoesOn(s: State, ls: seq<Step>, i: nat, k: Key)
    requires i < |s.slots| && s.slots[i].Some?
  {
    && IsRun(s, ls) && Unmixed(s, ls, s.slots[i].value.fdNotif)
    && N.GoesOn(Calls(s, ls), i) && N.AllLetBe(Calls(s, ls), i, k)
  }

  lemma TextsSince(sent: seq<Note>, n: nat, m: nat, fd: int, k: Key)
    requires n <= m <= |sent|
    ensures N.Texts(sent[n..], fd, k) == N.Texts(sent[n..m], fd, k) + N.Texts(sent[m..], fd, k)
  {
    assert sent[n..] == sent[n..m] + sent[m..];
    N.TextsSplit(sent[n..m], sent[m..], fd, k);
  }

  /** All the client is sent about the key, written or owed, is what the calls say. */
  lemma SentIsHeard(s: State, ls: seq<Step>, i: nat, k: Key, v: string, w: nat, n: nat)
    requires Follows(s, i, k, v, w, n) && GoesOn(s, ls, i, k)
    ensures Books(After(s, ls), s.slots[i].value.fdNotif, w, n)
    ensures N.Texts(After(s, ls).sent[n..], s.slots[i].value.fdNotif, k) == N.Heard(Calls(s, ls), k)
  {
    var fd, s' := s.slots[i].value.fdNotif, After(s, ls);
    RunBooks(s, ls, fd, w, n);
    RunIsCalls(s, ls);
    N.SessionStream(ServerOf(s), Calls(s, ls), i, k);
    N.OnHears(v, Calls(s, ls), i, k);
    N.SentGrows(ServerOf(s), Calls(s, ls));
    TextsSince(s'.sent, n, |s.sent|, fd, k);
    assert s'.sent[n..|s.sent|] == s.sent[n..];
  }

  /** The calls whose messages are on the pipe. */
  ghost function Known(s: State, ls: seq<Step>, fd: int, k: Key): seq<S.Call>
    requires IsRun(s, ls)
  {
    if BeingTold(After(s, ls), fd, k) then BeforeLast(Calls(s, ls), k) else Calls(s, ls)
  }

  /** The texts about the key on the pipe are what these calls say. */
  lemma PipeIsHeard(s: State, ls: seq<Step>, i: nat, k: Key, v: string, w: nat, n: nat)
    requires Follows(s, i, k, v, w, n) && GoesOn(s, ls, i, k)
    ensures var fd := s.slots[i].value.fdNotif;
            && w <= |After(s, ls).wire|
            && About(PipePairs(After(s, ls), w, fd), k) == N.Heard(Known(s, ls, fd, k), k)
            && Known(s, ls, fd, k) <= Calls(s, ls)
  {
    SentIsHeard(s, ls, i, k, v, w, n);
    PipeAbout(After(s, ls), s.slots[i].value.fdNotif, w, n, k);
    HeardBeforeLast(Calls(s, ls), k);
  }

  lemma {:induction false} Beginning(s: State, ls: seq<Step>, m: nat)
    requires IsRun(s, ls) && m <= |ls|
    ensures IsRun(s, ls[..m]) && Calls(s, ls[..m]) <= Calls(s, ls)
    ensures forall fd, b | AlwaysIn(s, ls, fd, b) :: AlwaysIn(s, ls[..m], fd, b)
    decreases |ls|
  {
    if m > 0 {
      assert ls[..m][0] == ls[0] && ls[..m][1..] == ls[1..][..m - 1];
      Beginning(Do(s, ls[0]), ls[1..], m - 1);
    }
  }

  /** Every beginning of the calls of a run is that of a beginning of the run. */
  lemma {:induction false} BeginningOfCalls(s: State, ls: seq<Step>, c: nat) returns (m: nat)
    requires IsRun(s, ls) && c <= |Calls(s, ls)|
    ensures m <= |ls| && IsRun(s, ls[..m]) && Calls(s, ls[..m]) == Calls(s, ls)[..c]
    decreases |ls|
  {
    if c == 0 {
      m := 0;
    } else {
      var first, rest := CallsOfStep(s, ls[0]), Calls(Do(s, ls[0]), ls[1..]);
      StepIsCall(s, ls[0]);
      m := BeginningOfCalls(Do(s, ls[0]), ls[1..], c - |first|);
      assert Calls(s, ls)[..c] == first + rest[..c - |first|];
      m := m + 1;
      assert ls[..m][0] == ls[0] && ls[..m][1..] == ls[1..][..m - 1];
    }
  }

  // ---- theorems about the replay ----

  /** What a client that replays the messages on its pipe takes the value to be. */
  ghost function Replayed(s: State, ls: seq<Step>, fd: int, k: Key, v: string, w: nat): Option<string>
    requires IsRun(s, ls) && w <= |After(s, ls).wire|
  {
    N.Replay(v, About(PipePairs(After(s, ls), w, fd), k))
  }

  /** The pipe never lags by more than one message. If nobody writes the word DELETE to
      the key, a client that replays its pipe has the value after all calls of the run;
      or, while a message about the key is being written to it, the value before the
      last call on the key. So it is right whenever nobody has the lock of the key's
      bucket. */
  lemma PipeIsCurrent(s: State, ls: seq<Step>, i: nat, k: Key, v: string, w: nat, n: nat)
    requires Follows(s, i, k, v, w, n) && GoesOn(s, ls, i, k) && N.Plain(Calls(s, ls), k)
    ensures var fd, s', cs := s.slots[i].value.fdNotif, After(s, ls), Calls(s, ls);
            && w <= |s'.wire|
            && Replayed(s, ls, fd, k, v, w) == N.Held(v, if BeingTold(s', fd, k) then BeforeLast(cs, k) else cs, k)
            && (LockFree(s'.jobs, k) ==> Replayed(s, ls, fd, k, v, w) == N.Held(v, cs, k))
  {
    var known := Known(s, ls, s.slots[i].value.fdNotif, k);
    PipeIsHeard(s, ls, i, k, v, w, n);
    PlainShorter(Calls(s, ls), known, k);
    N.PlainReplays(v, known, k);
    NotToldWhenFree(s, ls, i, k, v, w, n);
  }

  lemma PlainShorter(cs: seq<S.Call>, known: seq<S.Call>, k: Key)
    requires known <= cs && N.Plain(cs, k)
    ensures N.Plain(known, k)
  {
    assert known == cs[..|known|];
    N.PlainPrefix(cs, |known|, k);
  }

  lemma NotToldWhenFree(s: State, ls: seq<Step>, i: nat, k: Key, v: string, w: nat, n: nat)
    requires Follows(s, i, k, v, w, n) && GoesOn(s, ls, i, k)
    ensures LockFree(After(s, ls).jobs, k) ==> !BeingTold(After(s, ls), s.slots[i].value.fdNotif, k)
  {
    SentIsHeard(s, ls, i, k, v, w, n);
    if LockFree(After(s, ls).jobs, k) {
      ToldUnderLock(After(s, ls), s.slots[i].value.fdNotif, k);
    }
  }

  /** At one moment of a run, the replay of the pipe is the value after the calls whose
      messages are on it. */
  ghost predicate PipeRight(s: State, ls: seq<Step>, fd: int, k: Key, v: string, w: nat) {
    && IsRun(s, ls) && w <= |After(s, ls).wire|
    && Replayed(s, ls, fd, k, v, w) == N.Held(v, Known(s, ls, fd, k), k)
  }

  lemma GoesOnBefore(s: State, ls: seq<Step>, i: nat, k: Key, m: nat)
    requires i < |s.slots| && s.slots[i].Some? && GoesOn(s, ls, i, k) && m <= |ls|
    ensures GoesOn(s, ls[..m], i, k) && Calls(s, ls[..m]) <= Calls(s, ls)
  {
    var fd := s.slots[i].value.fdNotif;
    Beginning(s, ls, m);
    var cs, cs' := Calls(s, ls), Calls(s, ls[..m]);
    assert forall x | 0 <= x < |cs'| :: cs'[x] == cs[x];
    if |s.boxes| > 1 {
      var b :| AlwaysIn(s, ls, fd, b) && OwedIn(s, fd, b);
      assert AlwaysIn(s, ls[..m], fd, b);
    }
  }

  /** How many texts about the key are on the pipe. */
  ghost function Count(s: State, ls: seq<Step>, fd: int, k: Key, w: nat): nat
    requires IsRun(s, ls) && w <= |After(s, ls).wire|
  {
    |About(PipePairs(After(s, ls), w, fd), k)|
  }

  lemma {:induction false} OneStepMore(s: State, ls: seq<Step>)
    requires ls != [] && IsRun(s, ls)
    ensures var init := ls[..|ls| - 1];
            && IsRun(s, init) && Enabled(After(s, init), ls[|ls| - 1])
            && After(s, ls) == Do(After(s, init), ls[|ls| - 1])
    decreases |ls|
  {
    if |ls| > 1 {
      OneStepMore(Do(s, ls[0]), ls[1..]);
      assert ls[..|ls| - 1][1..] == ls[1..][..|ls| - 2];
      assert ls[1..][..|ls[1..]| - 1] == ls[1..][..|ls| - 2];
    } else {
      assert ls[..0] == [] && ls[1..] == [];
    }
  }

  lemma OneTextMore(texts: seq<string>, text: string, k: string)
    ensures PairUp(texts) <= PairUp(texts + [text])
    ensures |About(PairUp(texts), k)| <= |About(PairUp(texts + [text]), k)| <= |About(PairUp(texts), k)| + 1
  {
    var more := texts + [text];
    PairUpTake(more, |texts|);
    assert more[..|texts|] == texts;
    var pairs, pairs' := PairUp(texts), PairUp(more);
    if |pairs'| == |pairs| {
      assert pairs' == pairs;
    } else {
      assert pairs' == pairs + [pairs'[|pairs|]];
      AboutSnoc(pairs, pairs'[|pairs|], k);
    }
  }

  /** A step puts at most one more text about the key on the pipe. */
  lemma CountStep(s: State, l: Step, fd: int, k: Key, w: nat)
    requires Enabled(s, l) && w <= |s.wire|
    ensures w <= |Do(s, l).wire|
    ensures |About(PipePairs(s, w, fd), k)| <= |About(PipePairs(Do(s, l), w, fd), k)|
    ensures |About(PipePairs(Do(s, l), w, fd), k)| <= |About(PipePairs(s, w, fd), k)| + 1
  {
    if l.Send? {
      var block, wire := s.boxes[l.t].blocks[0], s.wire[w..];
      assert Do(s, l).wire[w..] == wire + [block];
      TextsSplit(wire, [block], fd);
      assert TextsTo([block], fd) == (if block.fd == fd then [block.text] else []) + TextsTo([block][1..], fd);
      if block.fd == fd {
        NothingAfter([block.text]);
        OneTextMore(TextsTo(wire, fd), block.text, k);
      } else {
        NothingAfter(TextsTo(wire, fd));
      }
    }
  }

  lemma {:induction false} CountGrows(s: State, ls: seq<Step>, m: nat, fd: int, k: Key, w: nat)
    requires IsRun(s, ls) && m <= |ls| && w <= |s.wire|
    ensures IsRun(s, ls[..m]) && w <= |After(s, ls[..m]).wire| && w <= |After(s, ls).wire|
    ensures Count(s, ls[..m], fd, k, w) <= Count(s, ls, fd, k, w)
    decreases |ls|
  {
    if m < |ls| {
      var init := ls[..|ls| - 1];
      OneStepMore(s, ls);
      CountGrows(s, init, m, fd, k, w);
      assert init[..m] == ls[..m];
      CountStep(After(s, init), ls[|ls| - 1], fd, k, w);
    } else {
      assert ls[..m] == ls;
      WireGrows(s, ls);
    }
  }

  lemma {:induction false} WireGrows(s: State, ls: seq<Step>)
    requires IsRun(s, ls)
    ensures |s.wire| <= |After(s, ls).wire|
    decreases |ls|
  {
    if ls != [] {
      WireGrows(Do(s, ls[0]), ls[1..]);
    }
  }

  /** Every number of texts on the way is reached. */
  lemma {:induction false} Reaches(s: State, ls: seq<Step>, fd: int, k: Key, w: nat, h: nat) returns (m: nat)
    requires IsRun(s, ls) && w <= |s.wire| && w <= |After(s, ls).wire|
    requires |About(PipePairs(s, w, fd), k)| <= h <= Count(s, ls, fd, k, w)
    ensures m <= |ls| && IsRun(s, ls[..m]) && w <= |After(s, ls[..m]).wire| && Count(s, ls[..m], fd, k, w) == h
    decreases |ls|
  {
    if Count(s, ls, fd, k, w) == h {
      m := |ls|;
      assert ls[..m] == ls;
    } else {
      var init := ls[..|ls| - 1];
      OneStepMore(s, ls);
      CountGrows(s, init, 0, fd, k, w);
      CountStep(After(s, init), ls[|ls| - 1], fd, k, w);
      m := Reaches(s, init, fd, k, w, h);
      assert init[..m] == ls[..m];
    }
  }

  lemma PipeStartsSilent(s: State, i: nat, k: Key, v: string, w: nat, n: nat)
    requires Follows(s, i, k, v, w, n)
    ensures w <= |s.wire| && About(PipePairs(s, w, s.slots[i].value.fdNotif), k) == []
  {
    PipeAbout(s, s.slots[i].value.fdNotif, w, n, k);
  }

  /** If the word DELETE is on the pipe too early, then at some moment the replay was
      wrong: when it had just got there. */
  lemma WrongAtSomeTime(s: State, ls: seq<Step>, i: nat, k: Key, v: string, w: nat, n: nat) returns (m: nat)
    requires Follows(s, i, k, v, w, n) && GoesOn(s, ls, i, k)
    requires !N.Plain(Known(s, ls, s.slots[i].value.fdNotif, k), k)
    ensures m <= |ls| && !PipeRight(s, ls[..m], s.slots[i].value.fdNotif, k, v, w)
  {
    var fd := s.slots[i].value.fdNotif;
    PipeIsHeard(s, ls, i, k, v, w, n);
    PipeStartsSilent(s, i, k, v, w, n);
    var x := TooEarly(Calls(s, ls), Known(s, ls, fd, k), k);
    m := Reaches(s, ls, fd, k, w, |N.Heard(Calls(s, ls)[..x + 1], k)|);
    WrongWhenThere(s, ls, i, k, v, w, n, m, x);
  }

  lemma TooEarly(cs: seq<S.Call>, known: seq<S.Call>, k: Key) returns (x: nat)
    requires known <= cs && !N.Plain(known, k)
    ensures x < N.UntilDelete(cs, k) && cs[x] == S.WriteKey(k, S.DELETED)
    ensures |N.Heard(cs[..x + 1], k)| <= |N.Heard(known, k)|
  {
    x :| 0 <= x < N.UntilDelete(known, k) && known[x] == S.WriteKey(k, S.DELETED);
    assert known == cs[..|known|];
    N.PlainPrefix(cs, |known|, k);
    assert known[..x + 1] == cs[..x + 1];
    HeardPrefix(known, x + 1, k);
  }

  lemma WrongWhenThere(s: State, ls: seq<Step>, i: nat, k: Key, v: string, w: nat, n: nat, m: nat, x: nat)
    requires Follows(s, i, k, v, w, n) && GoesOn(s, ls, i, k) && m <= |ls| && IsRun(s, ls[..m])
    requires x < N.UntilDelete(Calls(s, ls), k) && Calls(s, ls)[x] == S.WriteKey(k, S.DELETED)
    requires w <= |After(s, ls[..m]).wire|
    requires Count(s, ls[..m], s.slots[i].value.fdNotif, k, w) == |N.Heard(Calls(s, ls)[..x + 1], k)|
    ensures !PipeRight(s, ls[..m], s.slots[i].value.fdNotif, k, v, w)
  {
    GoesOnBefore(s, ls, i, k, m);
    PipeIsHeard(s, ls[..m], i, k, v, w, n);
    WrongThen(Calls(s, ls), Known(s, ls[..m], s.slots[i].value.fdNotif, k), x, k, v);
  }

  lemma WrongThen(cs: seq<S.Call>, known: seq<S.Call>, x: nat, k: Key, v: string)
    requires known <= cs && x < N.UntilDelete(cs, k) && cs[x] == S.WriteKey(k, S.DELETED)
    requires |N.Heard(known, k)| == |N.Heard(cs[..x + 1], k)|
    ensures N.Replay(v, N.Heard(known, k)) == None && N.Held(v, known, k).Some?
  {
    assert known == cs[..|known|];
    HeardPrefix(cs, |known|, k);
    HeardPrefix(cs, x + 1, k);
    HeardAt(cs, x, k);
    SameLength(N.Heard(known, k), N.Heard(cs[..x + 1], k), N.Heard(cs, k));
    N.ReplayStops(v, N.Heard(known, k));
    StillHeld(cs, |known|, x, k, v);
  }

  lemma SameLength(a: seq<string>, b: seq<string>, c: seq<string>)
    requires a <= c && b <= c && |a| == |b|
    ensures a == b
  {
  }

  /** The replay of the pipe is exact. At every moment of a run, a client that replays
      what is on its pipe has the value after the calls whose messages are there, if
      and only if among those on it at the end nobody has written the word DELETE to
      the key before it is deleted. */
  lemma PipeReplayIsExact(s: State, ls: seq<Step>, i: nat, k: Key, v: string, w: nat, n: nat)
    requires Follows(s, i, k, v, w, n) && GoesOn(s, ls, i, k)
    ensures N.Plain(Known(s, ls, s.slots[i].value.fdNotif, k), k) <==>
            forall m | 0 <= m <= |ls| :: PipeRight(s, ls[..m], s.slots[i].value.fdNotif, k, v, w)
  {
    var fd, cs := s.slots[i].value.fdNotif, Calls(s, ls);
    if N.Plain(Known(s, ls, fd, k), k) {
      forall m | 0 <= m <= |ls| ensures PipeRight(s, ls[..m], fd, k, v, w) {
        RightWhenPlain(s, ls, i, k, v, w, n, m);
      }
    } else {
      var m := WrongAtSomeTime(s, ls, i, k, v, w, n);
    }
  }

  lemma RightWhenPlain(s: State, ls: seq<Step>, i: nat, k: Key, v: string, w: nat, n: nat, m: nat)
    requires Follows(s, i, k, v, w, n) && GoesOn(s, ls, i, k) && m <= |ls|
    requires N.Plain(Known(s, ls, s.slots[i].value.fdNotif, k), k)
    ensures PipeRight(s, ls[..m], s.slots[i].value.fdNotif, k, v, w)
  {
    var fd := s.slots[i].value.fdNotif;
    PipeStartsSilent(s, i, k, v, w, n);
    CountGrows(s, ls, m, fd, k, w);
    GoesOnBefore(s, ls, i, k, m);
    var before, known := Known(s, ls[..m], fd, k), Known(s, ls, fd, k);
    assert |N.Heard(before, k)| <= |N.Heard(known, k)| && before <= Calls(s, ls) && known <= Calls(s, ls) by {
      PipeIsHeard(s, ls, i, k, v, w, n);
      PipeIsHeard(s, ls[..m], i, k, v, w, n);
    }
    PlainThen(Calls(s, ls), before, known, k, v);
    PipeIsHeard(s, ls[..m], i, k, v, w, n);
  }

  lemma PlainThen(cs: seq<S.Call>, before: seq<S.Call>, known: seq<S.Call>, k: Key, v: string)
    requires before <= cs && known <= cs && |N.Heard(before, k)| <= |N.Heard(known, k)| && N.Plain(known, k)
    ensures N.Replay(v, N.Heard(before, k)) == N.Held(v, before, k)
  {
    assert before == cs[..|before|] && known == cs[..|known|];
    PlainBefore(cs, |before|, |known|, k);
    N.PlainReplays(v, before, k);
  }

  /** What the client takes the value of a key to be from what it has read and what is
      still owed to it. */
  ghost predicate ReplayRight(s: State, ls: seq<Step>, fd: int, k: Key, v: string, w: nat) {
    && IsRun(s, ls) && w <= |After(s, ls).wire|
    && N.Replay(v, About(ReadSince(After(s, ls), w, fd), k)) == N.Held(v, Calls(s, ls), k)
  }

  lemma ReadsWhatIsHeard(s: State, ls: seq<Step>, i: nat, k: Key, v: string, w: nat, n: nat)
    requires Follows(s, i, k, v, w, n) && GoesOn(s, ls, i, k)
    ensures w <= |After(s, ls).wire|
    ensures About(ReadSince(After(s, ls), w, s.slots[i].value.fdNotif), k) == N.Heard(Calls(s, ls), k)
  {
    var fd, s' := s.slots[i].value.fdNotif, After(s, ls);
    SentIsHeard(s, ls, i, k, v, w, n);
    FitsIsWhole(s', fd, w, n);
    AboutPairs(s'.sent[n..], fd, k);
  }

  /** With what is owed counted as read, the replay gives the value after all calls at
      every moment if and only if nobody writes the word DELETE to the key before it is
      deleted. */
  lemma ReplayWithOwedIsExact(s: State, ls: seq<Step>, i: nat, k: Key, v: string, w: nat, n: nat)
    requires Follows(s, i, k, v, w, n) && GoesOn(s, ls, i, k)
    ensures N.Plain(Calls(s, ls), k) <==>
            forall m | 0 <= m <= |ls| :: ReplayRight(s, ls[..m], s.slots[i].value.fdNotif, k, v, w)
  {
    var fd, cs := s.slots[i].value.fdNotif, Calls(s, ls);
    forall m | 0 <= m <= |ls|
      ensures IsRun(s, ls[..m]) && Calls(s, ls[..m]) <= cs
      ensures var c := Calls(s, ls[..m]);
              ReplayRight(s, ls[..m], fd, k, v, w) <==> N.Replay(v, N.Heard(c, k)) == N.Held(v, c, k)
    {
      GoesOnBefore(s, ls, i, k, m);
      ReadsWhatIsHeard(s, ls[..m], i, k, v, w, n);
    }
    N.MessagesReplay(v, cs, k);
    if N.Plain(cs, k) {
      forall m | 0 <= m <= |ls| ensures ReplayRight(s, ls[..m], fd, k, v, w) {
        var c := Calls(s, ls[..m]);
        assert c == cs[..|c|];
      }
    } else {
      var c :| 0 <= c <= |cs| && N.Replay(v, N.Heard(cs[..c], k)) != N.Held(v, cs[..c], k);
      var m := BeginningOfCalls(s, ls, c);
      assert !ReplayRight(s, ls[..m], fd, k, v, w);
    }
  }

  // ---- the lag is real ----

  /** With a single job thread, which writes the key once, there is a moment at which
      the table has the new value and the replay of the pipe still gives the old one. */
  lemma PipeCanLag(t: Table, slots: S.Slots, i: nat, k: Key, v: string, v1: string) returns (ls: seq<Step>)
    requires Follows(Start(J.System(t, [[OnePair(k, v1)]], 0), slots), i, k, v, 0, 0)
    ensures var s := Start(J.System(t, [[OnePair(k, v1)]], 0), slots);
            && GoesOn(s, ls, i, k) && (v1 != S.DELETED ==> N.Plain(Calls(s, ls), k))
            && N.Held(v, Calls(s, ls), k) == Some(v1)
            && Replayed(s, ls, s.slots[i].value.fdNotif, k, v, 0) == Some(v)
  {
    var s := Start(J.System(t, [[OnePair(k, v1)]], 0), slots);
    OnePairPlan(k, v1);
    ls := WritesPair(s, [], 0, k, v1);
    NothingBefore(Calls(s, ls), S.WriteKey(k, v1));
    OneWrite(k, v, v1);
    assert After(s, ls).wire == [];
  }

  lemma NothingBefore(cs: seq<S.Call>, c: S.Call)
    requires cs == [] + [c]
    ensures cs == [c]
  {
  }

  lemma OneWrite(k: Key, v: string, v1: string)
    ensures var cs := [S.WriteKey(k, v1)];
            && N.Held(v, cs, k) == Some(v1) && (v1 != S.DELETED ==> N.Plain(cs, k))
            && forall i :: N.GoesOn(cs, i) && N.AllLetBe(cs, i, k)
  {
    var cs := [S.WriteKey(k, v1)];
    N.HeardStep(v, cs, k);
    assert cs[1..] == [];
  }

  // ---- a whole session ----

  /** From the moment it connects, a client's books can be kept, whoever had its
      descriptors before: nothing is owed to them. So a client that has subscribed to
      one key, for the first time in its session, follows it from then on, reading its
      pipe from the start. */
  lemma SubscriberFollows(sys: J.System, slots: S.Slots, before: seq<Step>, c: S.Call, ls: seq<Step>, k: Key)
    requires sys.Ok() && S.Ok(ServerOf(Start(sys, slots))) && IsRun(Start(sys, slots), before)
    requires c.Connect? && CanAsk(After(Start(sys, slots), before), c)
    requires var s, i := DoAsk(After(Start(sys, slots), before), c),
                         S.FreeSlot(After(Start(sys, slots), before).slots);
             && i < |s.slots| && IsRun(s, ls) && Unmixed(s, ls, c.fdNotif)
             && N.GoesOn(Calls(s, ls), i) && N.NeverSubscribes(Calls(s, ls), i, k)
             && CanAsk(After(s, ls), S.Subscribe(i, k)) && |k| <= 40
             && Get(After(s, ls).jobs.table, k).Some?
    ensures var s, i := DoAsk(After(Start(sys, slots), before), c),
                        S.FreeSlot(After(Start(sys, slots), before).slots);
            var s' := DoAsk(After(s, ls), S.Subscribe(i, k));
            && i < |s'.slots| && s'.slots[i].Some? && s'.slots[i].value.fdNotif == c.fdNotif
            && Follows(s', i, k, Get(After(s, ls).jobs.table, k).value.value, |s.wire|, |s.sent|)
  {
    var s0 := After(Start(sys, slots), before);
    var s, i := DoAsk(s0, c), S.FreeSlot(s0.slots);
    StartGood(sys, slots);
    RunGood(Start(sys, slots), before);
    ConnectOpensBooks(s0, c, k);
    RunBooks(s, ls, c.fdNotif, |s.wire|, |s.sent|);
    HearsNothingYet(s, ls, i, k);
    Subscribes(After(s, ls), i, k, c.fdNotif, |s.wire|, |s.sent|);
  }

  lemma ConnectOpensBooks(s: State, c: S.Call, k: Key)
    requires Good(s) && c.Connect? && CanAsk(s, c) && S.FreeSlot(s.slots) < |s.slots|
    ensures var s', i := DoAsk(s, c), S.FreeSlot(s.slots);
            && Books(s', c.fdNotif, |s'.wire|, |s'.sent|) && c.fdNotif !in Subscribers(s'.jobs.table, k)
            && s'.slots[i] == Some(S.Client(c.fdReq, c.fdResp, c.fdNotif, []))
  {
    UnusedIsOwedNothing(s, c.fdNotif);
    UnusedIsUnlisted(s, c.fdNotif, k);
    StepGood(s, Ask(c));
    OpenBooks(DoAsk(s, c), c.fdNotif);
  }

  lemma UnusedIsUnlisted(s: State, fd: int, k: Key)
    requires Good(s) && S.Unused(s.slots, fd)
    ensures fd !in Subscribers(s.jobs.table, k)
  {
    N.UnusedIsUnlisted(ServerOf(s), fd, k);
  }

  lemma HearsNothingYet(s: State, ls: seq<Step>, i: nat, k: Key)
    requires Good(s) && i < |s.slots| && s.slots[i].Some? && IsRun(s, ls)
    requires s.slots[i].value.fdNotif !in Subscribers(s.jobs.table, k)
    requires N.GoesOn(Calls(s, ls), i) && N.NeverSubscribes(Calls(s, ls), i, k)
    ensures var s', fd := After(s, ls), s.slots[i].value.fdNotif;
            && i < |s'.slots| && s'.slots[i].Some? && s'.slots[i].value.fdNotif == fd
            && |s.sent| <= |s'.sent| && N.Texts(s'.sent[|s.sent|..], fd, k) == []
  {
    RunIsCalls(s, ls);
    N.SessionStream(ServerOf(s), Calls(s, ls), i, k);
    N.OffIsSilent(N.Watching(ServerOf(s), i, k), Calls(s, ls), i, k);
  }

  lemma Subscribes(s: State, i: nat, k: Key, fd: int, w: nat, n: nat)
    requires Books(s, fd, w, n) && i < |s.slots| && s.slots[i].Some? && s.slots[i].value.fdNotif == fd
    requires CanAsk(s, S.Subscribe(i, k)) && !S.BadName(k) && Get(s.jobs.table, k).Some?
    requires N.Texts(s.sent[n..], fd, k) == []
    ensures var s' := DoAsk(s, S.Subscribe(i, k));
            && i < |s'.slots| && s'.slots[i].Some? && s'.slots[i].value.fdNotif == fd
            && Follows(s', i, k, Get(s.jobs.table, k).value.value, w, n)
  {
    var s' := DoAsk(s, S.Subscribe(i, k));
    S.ListedMeaning(s.jobs.table, k, fd);
    StepInv(s, Ask(S.Subscribe(i, k)));
    assert Fits(s', fd, w, n) && OneOwes(s', fd);
    StepBooks(s, Ask(S.Subscribe(i, k)), fd, w, n);
  }
}
