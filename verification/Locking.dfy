/** What every step keeps about the locks: each lock is held by exactly the
    threads whose position in the code says so, and never by a writer and
    anybody else. */
module Locking {
  import opened Text
  import opened Batches
  import opened Store

  predicate InCommand(p: Phase) { p.Locking? || p.Acting? || p.Unlocking? }

  predicate InBackup(p: Phase) { p == Forking || p == Forked }

  /** The bucket locks a position in the code implies. */
  predicate HoldsBucket(p: Phase, b: nat) {
    match p
    case Locking(x, n) => n <= |Locks(x)| && b in Locks(x)[..n]
    case Acting(x, _, _) => b in Locks(x)
    case Unlocking(x, u) => b in Locks(x) && u <= b
    case _ => false
  }

  predicate SharedHolder(s: State, b: nat, t: nat) {
    t < |s.threads| && HoldsBucket(s.threads[t].phase, b) && ModeOf(s.threads[t].phase.cmd) == Shared
  }

  predicate ExclusiveHolder(s: State, b: nat, t: nat) {
    t < |s.threads| && HoldsBucket(s.threads[t].phase, b) && ModeOf(s.threads[t].phase.cmd) == Exclusive
  }

  ghost predicate BucketLockOk(s: State, b: nat)
    requires b < TABLE_SIZE
  {
    && (forall t: nat :: t in s.locks[b].readers <==> SharedHolder(s, b, t))
    && (forall t: nat :: ExclusiveHolder(s, b, t) ==> s.locks[b].writer == Some(t))
    && (s.locks[b].writer.Some? ==>
          ExclusiveHolder(s, b, s.locks[b].writer.value) && s.locks[b].readers == {})
  }

  predicate CommandReader(s: State, t: nat) { t < |s.threads| && InCommand(s.threads[t].phase) }

  predicate BackupWriter(s: State, t: nat) { t < |s.threads| && InBackup(s.threads[t].phase) }

  ghost predicate GlobalLockOk(s: State) {
    && (forall t: nat :: t in s.global.readers <==> CommandReader(s, t))
    && (forall t: nat :: BackupWriter(s, t) ==> s.global.writer == Some(t))
    && (s.global.writer.Some? ==>
          BackupWriter(s, s.global.writer.value) && s.global.readers == {})
  }

  ghost predicate PhaseOk(p: Phase) {
    match p
    case Locking(x, n) => CommandOk(x) && TakesLocks(x) && n < |Locks(x)|
    case Acting(x, n, _) => CommandOk(x) && TakesLocks(x) && n < |Acts(x)|
    case Unlocking(x, u) => CommandOk(x) && TakesLocks(x) && u <= TABLE_SIZE
    case _ => true
  }

  ghost predicate ThreadOk(th: Thread) {
    PhaseOk(th.phase) && forall i | 0 <= i < |th.todo| :: CommandOk(th.todo[i])
  }

  ghost predicate LockInv(s: State) {
    && (forall t | 0 <= t < |s.threads| :: ThreadOk(s.threads[t]))
    && (forall b | 0 <= b < TABLE_SIZE :: BucketLockOk(s, b))
    && GlobalLockOk(s)
  }

  lemma StartLocks(sys: System)
    requires sys.Ok()
    ensures LockInv(Start(sys))
  {
  }

  lemma InstanceOk(cmd: Command, x: Command)
    requires CommandOk(cmd) && Instance(cmd, x)
    ensures CommandOk(x) && (TakesLocks(x) <==> TakesLocks(cmd))
  {
    match cmd
    case Write(ps) => assert ps[0] in multiset(x.pairs);
    case Read(ks) => assert ks[0] in multiset(x.keys);
    case Delete(ks) => assert ks[0] in multiset(x.keys);
    case Show =>
    case Wait(_) =>
    case Backup =>
  }

  /** Every step leaves every thread at a proper position. */
  lemma StepThreads(s: State, l: Step)
    requires LockInv(s) && Enabled(s, l)
    ensures var s' := Do(s, l);
            |s'.threads| == |s.threads| && forall t | 0 <= t < |s'.threads| :: ThreadOk(s'.threads[t])
  {
    var s' := Do(s, l);
    if l.Thread? {
      assert ThreadOk(s.threads[l.t]);
      assert forall t | 0 <= t < |s.threads| && t != l.t :: s'.threads[t] == s.threads[t];
      if l.move.Begin? {
        InstanceOk(s.threads[l.t].todo[0], l.move.cmd);
      }
      if l.move.Acquire? {
        ActsWithinLocks(s.threads[l.t].phase.cmd);
      }
    }
  }

  /** If only thread t comes, goes or moves, the lock stays right for the others. */
  lemma OnlyOneMoves(s: State, s': State, b: nat, t: nat)
    requires b < TABLE_SIZE && BucketLockOk(s, b)
    requires OnlyMoved(s, s', t)
    requires forall u: nat | u != t :: u in s'.locks[b].readers <==> u in s.locks[b].readers
    requires forall u: nat | u != t :: s'.locks[b].writer == Some(u) <==> s.locks[b].writer == Some(u)
    requires t in s'.locks[b].readers <==> SharedHolder(s', b, t)
    requires s'.locks[b].writer == Some(t) <==> ExclusiveHolder(s', b, t)
    requires s'.locks[b].writer.Some? ==> s'.locks[b].readers == {}
    ensures BucketLockOk(s', b)
  {
    forall u: nat ensures u in s'.locks[b].readers <==> SharedHolder(s', b, u) {
      assert SharedHolder(s, b, u) <==> u in s.locks[b].readers;
    }
    forall u: nat ensures s'.locks[b].writer == Some(u) <==> ExclusiveHolder(s', b, u) {
      assert ExclusiveHolder(s, b, u) <==> s.locks[b].writer == Some(u);
    }
  }

  lemma OneMoreHeld(x: Command, i: nat, b: nat)
    requires i < |Locks(x)|
    ensures b in Locks(x)[..i + 1] <==> b in Locks(x)[..i] || b == Locks(x)[i]
    ensures Locks(x)[i] !in Locks(x)[..i]
    ensures i + 1 == |Locks(x)| ==> Locks(x)[..i + 1] == Locks(x)
  {
    OneMoreOf(Locks(x), i, b);
  }

  lemma OneMoreOf(bs: seq<nat>, i: nat, b: nat)
    requires i < |bs| && forall x, y | 0 <= x < y < |bs| :: bs[x] != bs[y]
    ensures b in bs[..i + 1] <==> b in bs[..i] || b == bs[i]
    ensures bs[i] !in bs[..i]
    ensures i + 1 == |bs| ==> bs[..i + 1] == bs
  {
    assert bs[..i + 1] == bs[..i] + [bs[i]];
  }

  lemma AcquireKeepsLock(s: State, t: nat, b: nat)
    requires LockInv(s) && b < TABLE_SIZE && Enabled(s, Step.Thread(t, Acquire))
    ensures BucketLockOk(DoAcquire(s, t), b)
  {
    var s' := DoAcquire(s, t);
    var Locking(x, i) := s.threads[t].phase;
    var p' := s'.threads[t].phase;
    OneMoreHeld(x, i, b);
    assert HoldsBucket(p', b) <==> HoldsBucket(s.threads[t].phase, b) || b == Locks(x)[i];
    assert p'.cmd == x;
    assert BucketLockOk(s, b);
    assert SharedHolder(s, b, t) <==> t in s.locks[b].readers;
    assert ExclusiveHolder(s, b, t) <==> s.locks[b].writer == Some(t);
    if b != Locks(x)[i] {
      assert s'.locks[b] == s.locks[b];
    } else {
      assert s'.locks[b] == s.locks[b].Take(t, ModeOf(x));
    }
    OnlyOneMoves(s, s', b, t);
  }

  lemma ReleaseKeepsLock(s: State, t: nat, b: nat)
    requires LockInv(s) && b < TABLE_SIZE && Enabled(s, Step.Thread(t, Release))
    ensures BucketLockOk(DoRelease(s, t), b)
  {
    assert BucketLockOk(s, b);
    assert SharedHolder(s, b, t) <==> t in s.locks[b].readers;
    assert ExclusiveHolder(s, b, t) <==> s.locks[b].writer == Some(t);
    OnlyOneMoves(s, DoRelease(s, t), b, t);
  }

  /** A move that is neither Acquire nor Release changes no bucket lock and nobody's
      claim to one. */
  lemma MoveWithoutLocks(s: State, t: nat, m: Move, b: nat)
    requires t < |s.threads| && CanMove(s, s.threads[t], m) && !m.Acquire? && !m.Release?
    requires ThreadOk(s.threads[t]) && b < TABLE_SIZE
    ensures var s' := Do(s, Step.Thread(t, m)); s'.locks == s.locks && OnlyMoved(s, s', t)
    ensures var p, p' := s.threads[t].phase, Do(s, Step.Thread(t, m)).threads[t].phase;
            (HoldsBucket(p', b) <==> HoldsBucket(p, b)) && (HoldsBucket(p, b) ==> p'.cmd == p.cmd)
  {
  }

  ghost predicate OnlyMoved(s: State, s': State, t: nat) {
    && |s'.threads| == |s.threads|
    && forall u | 0 <= u < |s.threads| && u != t :: s'.threads[u] == s.threads[u]
  }

  lemma StepBucketLock(s: State, l: Step, b: nat)
    requires LockInv(s) && Enabled(s, l) && b < TABLE_SIZE
    ensures BucketLockOk(Do(s, l), b)
  {
    assert BucketLockOk(s, b);
    match l
    case Thread(t, m) =>
      if m.Acquire? {
        AcquireKeepsLock(s, t, b);
      } else if m.Release? {
        ReleaseKeepsLock(s, t, b);
      } else {
        MoveWithoutLocks(s, t, m, b);
        SameClaim(s, Do(s, l), b, t);
      }
    case ChildPrint(_) => SameClaim(s, Do(s, l), b, |s.threads|);
    case ChildExit(_) => SameClaim(s, Do(s, l), b, |s.threads|);
  }

  lemma SameClaim(s: State, s': State, b: nat, t: nat)
    requires b < TABLE_SIZE && BucketLockOk(s, b) && s'.locks == s.locks && OnlyMoved(s, s', t)
    requires t < |s.threads| ==>
      var p, p' := s.threads[t].phase, s'.threads[t].phase;
      (HoldsBucket(p', b) <==> HoldsBucket(p, b)) && (HoldsBucket(p, b) ==> p'.cmd == p.cmd)
    ensures BucketLockOk(s', b)
  {
    assert SharedHolder(s, b, t) <==> t in s.locks[b].readers;
    assert ExclusiveHolder(s, b, t) <==> s.locks[b].writer == Some(t);
    OnlyOneMoves(s, s', b, t);
  }

  lemma OnlyOneMovesGlobally(s: State, s': State, t: nat)
    requires GlobalLockOk(s) && OnlyMoved(s, s', t)
    requires forall u: nat | u != t :: u in s'.global.readers <==> u in s.global.readers
    requires forall u: nat | u != t :: s'.global.writer == Some(u) <==> s.global.writer == Some(u)
    requires t in s'.global.readers <==> CommandReader(s', t)
    requires s'.global.writer == Some(t) <==> BackupWriter(s', t)
    requires s'.global.writer.Some? ==> s'.global.readers == {}
    ensures GlobalLockOk(s')
  {
    forall u: nat ensures u in s'.global.readers <==> CommandReader(s', u) {
      assert CommandReader(s, u) <==> u in s.global.readers;
    }
    forall u: nat ensures s'.global.writer == Some(u) <==> BackupWriter(s', u) {
      assert BackupWriter(s, u) <==> s.global.writer == Some(u);
    }
  }

  lemma StepGlobalLock(s: State, l: Step)
    requires LockInv(s) && Enabled(s, l)
    ensures GlobalLockOk(Do(s, l))
  {
    match l
    case Thread(t, m) =>
      MoveGlobalLock(s, t, m);
      OnlyOneMovesGlobally(s, Do(s, l), t);
    case ChildPrint(_) => OnlyOneMovesGlobally(s, Do(s, l), |s.threads|);
    case ChildExit(_) => OnlyOneMovesGlobally(s, Do(s, l), |s.threads|);
  }

  /** A move takes and leaves the global lock for its own thread only, and keeps it
      right for that. */
  lemma MoveGlobalLock(s: State, t: nat, m: Move)
    requires GlobalLockOk(s) && t < |s.threads| && CanMove(s, s.threads[t], m)
    ensures var s' := Do(s, Step.Thread(t, m));
            && OnlyMoved(s, s', t)
            && (forall u: nat | u != t :: u in s'.global.readers <==> u in s.global.readers)
            && (forall u: nat | u != t :: s'.global.writer == Some(u) <==> s.global.writer == Some(u))
            && (t in s'.global.readers <==> CommandReader(s', t))
            && (s'.global.writer == Some(t) <==> BackupWriter(s', t))
            && (s'.global.writer.Some? ==> s'.global.readers == {})
  {
    assert CommandReader(s, t) <==> t in s.global.readers;
    assert BackupWriter(s, t) <==> s.global.writer == Some(t);
  }

  lemma StepLocks(s: State, l: Step)
    requires LockInv(s) && Enabled(s, l)
    ensures LockInv(Do(s, l))
  {
    StepThreads(s, l);
    StepGlobalLock(s, l);
    forall b | 0 <= b < TABLE_SIZE ensures BucketLockOk(Do(s, l), b) {
      StepBucketLock(s, l, b);
    }
  }

  /** Two threads that hold one bucket both hold it shared. */
  lemma HoldersShare(s: State, b: nat, t: nat, u: nat)
    requires LockInv(s) && b < TABLE_SIZE && t != u
    requires t < |s.threads| && HoldsBucket(s.threads[t].phase, b)
    requires u < |s.threads| && HoldsBucket(s.threads[u].phase, b)
    ensures ModeOf(s.threads[t].phase.cmd) == ModeOf(s.threads[u].phase.cmd) == Shared
  {
    assert BucketLockOk(s, b);
    assert SharedHolder(s, b, t) || ExclusiveHolder(s, b, t);
    assert SharedHolder(s, b, u) || ExclusiveHolder(s, b, u);
  }

  /** A command that changes nothing. */
  predicate Reads(x: Command) { x.Read? || x.Show? }

  /** A thread gets the bucket it waits for unless somebody has it, and one of the two
      commands is not just reading. */
  lemma BucketOpenIff(s: State, t: nat)
    requires LockInv(s) && t < |s.threads| && Waits(s.threads[t])
    ensures Enabled(s, Step.Thread(t, Acquire)) <==>
            forall u | 0 <= u < |s.threads| && HoldsBucket(s.threads[u].phase, NextLock(s.threads[t])) ::
              Reads(s.threads[u].phase.cmd) && Reads(s.threads[t].phase.cmd)
  {
    var b := NextLock(s.threads[t]);
    assert ThreadOk(s.threads[t]) && BucketLockOk(s, b);
    forall u | 0 <= u < |s.threads| && HoldsBucket(s.threads[u].phase, b)
      ensures u in s.locks[b].readers <==> Reads(s.threads[u].phase.cmd)
      ensures u !in s.locks[b].readers ==> s.locks[b].writer == Some(u)
    {
      assert ThreadOk(s.threads[u]);
      assert SharedHolder(s, b, u) || ExclusiveHolder(s, b, u);
    }
  }

  /** The next command of a job can begin unless a BACKUP has the global lock; a BACKUP
      gets it when there is none, and no command is under way. */
  lemma GlobalOpenIff(s: State, t: nat, m: Move)
    requires LockInv(s) && t < |s.threads|
    ensures m.Begin? && Starts(s.threads[t]) && TakesLocks(s.threads[t].todo[0]) ==>
              (Enabled(s, Step.Thread(t, m)) <==>
               Instance(s.threads[t].todo[0], m.cmd) &&
               forall u | 0 <= u < |s.threads| :: !s.threads[u].phase.Forking? && !s.threads[u].phase.Forked?)
    ensures s.threads[t].phase == Pending ==>
              (Enabled(s, Step.Thread(t, LockAll)) <==>
               forall u | 0 <= u < |s.threads| :: s.threads[u].phase.Idle? || s.threads[u].phase.Pending?)
  {
    forall u | 0 <= u < |s.threads|
      ensures u in s.global.readers <==> InCommand(s.threads[u].phase)
      ensures InBackup(s.threads[u].phase) ==> s.global.writer == Some(u)
    {
      assert CommandReader(s, u) <==> InCommand(s.threads[u].phase);
      assert BackupWriter(s, u) <==> InBackup(s.threads[u].phase);
    }
    if s.global.writer.Some? {
      assert BackupWriter(s, s.global.writer.value);
    }
    if u :| u in s.global.readers {
      assert CommandReader(s, u);
    }
  }
}
