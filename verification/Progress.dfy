/** Which jobs always finish: lock order against deadlock, the backup limit, and a
    measure that every step lowers. */
module Progress {
  import opened Text
  import opened Batches
  import opened LockOrder
  import opened Sorting
  import opened Counting
  import opened Store
  import opened Locking
  import opened Runs

  // ---- the backup counter ----

  function IsPending(th: Thread): bool { th.phase == Pending || th.phase == Forking }

  function IsUnreaped(c: Child): bool { c.status != Reaped }

  function IsRunning(c: Child): bool { c.status == Running }

  /** Free slots, threads between the counter and fork, and children not reaped. */
  function Slots(s: State): nat {
    s.counter + Count(IsPending, s.threads) + Count(IsUnreaped, s.children)
  }

  lemma ThreadSlots(s: State, t: nat, m: Move)
    requires LockInv(s) && t < |s.threads| && CanMove(s, s.threads[t], m)
    ensures Slots(Do(s, Step.Thread(t, m))) == Slots(s)
  {
    PendingCount(s, t, m);
    UnreapedCount(s, t, m);
  }

  lemma PendingCount(s: State, t: nat, m: Move)
    requires t < |s.threads| && CanMove(s, s.threads[t], m)
    ensures Count(IsPending, Do(s, Step.Thread(t, m)).threads) ==
            Count(IsPending, s.threads) + if m.TakeSlot? || m.Reap? then 1 else if m.Fork? then -1 else 0
  {
    var ts, ts' := s.threads, Do(s, Step.Thread(t, m)).threads;
    assert ts' == ts[t := ts'[t]];
    CountUpdate(IsPending, ts, t, ts'[t]);
  }

  lemma UnreapedCount(s: State, t: nat, m: Move)
    requires t < |s.threads| && CanMove(s, s.threads[t], m)
    ensures Count(IsUnreaped, Do(s, Step.Thread(t, m)).children) ==
            Count(IsUnreaped, s.children) + if m.Reap? then -1 else if m.Fork? then 1 else 0
  {
    var cs, cs' := s.children, Do(s, Step.Thread(t, m)).children;
    if m.Reap? {
      assert cs' == cs[m.child := cs[m.child].(status := Reaped)];
      CountUpdate(IsUnreaped, cs, m.child, cs'[m.child]);
    } else if m.Fork? {
      var c := Child(s.table, 0, "", Running, |s.log|);
      assert cs' == cs + [c];
      CountAppend(IsUnreaped, cs, c);
    } else {
      assert cs' == cs;
    }
  }

  lemma StepSlots(s: State, l: Step)
    requires LockInv(s) && Enabled(s, l)
    ensures Slots(Do(s, l)) == Slots(s)
  {
    match l
    case Thread(t, m) => ThreadSlots(s, t, m);
    case ChildPrint(c) => CountUpdate(IsUnreaped, s.children, c, Do(s, l).children[c]);
    case ChildExit(c) => CountUpdate(IsUnreaped, s.children, c, Do(s, l).children[c]);
  }

  lemma {:induction false} RunSlots(s: State, ls: seq<Step>)
    requires LockInv(s) && IsRun(s, ls)
    ensures Slots(After(s, ls)) == Slots(s)
    decreases |ls|
  {
    if ls != [] {
      StepSlots(s, ls[0]);
      StepLocks(s, ls[0]);
      RunSlots(Do(s, ls[0]), ls[1..]);
    }
  }

  lemma StartSlots(sys: System)
    ensures Slots(Start(sys)) == sys.limit
  {
    CountNone(IsPending, Start(sys).threads);
  }

  lemma {:induction false} RunningAreUnreaped(cs: seq<Child>)
    ensures Count(IsRunning, cs) <= Count(IsUnreaped, cs)
  {
    if cs != [] {
      RunningAreUnreaped(cs[1..]);
    }
  }

  /** Bounded backups. In every reachable state the counter, the threads about to
      fork and the children not yet reaped add up to the limit; so at most that
      many backups ever run at once. */
  lemma BackupsAreBounded(sys: System, ls: seq<Step>)
    requires sys.Ok() && IsRun(Start(sys), ls)
    ensures var s := After(Start(sys), ls);
            && s.counter + Count(IsPending, s.threads) + Count(IsUnreaped, s.children) == sys.limit
            && Count(IsRunning, s.children) <= sys.limit
  {
    StartInv(sys);
    RunSlots(Start(sys), ls);
    StartSlots(sys);
    RunningAreUnreaped(After(Start(sys), ls).children);
  }

  // ---- every step lowers a measure ----

  function PhaseCost(p: Phase): nat {
    match p
    case Idle => 0
    case Locking(x, n) => (if n <= |Locks(x)| then |Locks(x)| - n else 0) + |Acts(x)| + TABLE_SIZE + 1
    case Acting(x, i, _) => (if i <= |Acts(x)| then |Acts(x)| - i else 0) + TABLE_SIZE + 1
    case Unlocking(_, u) => if u <= TABLE_SIZE then TABLE_SIZE + 1 - u else 1
    case Pending => TABLE_SIZE + 4
    case Forking => TABLE_SIZE + 3
    case Forked => 1
  }

  /** An upper bound: a batch locks at most one bucket a key. */
  function CommandCost(cmd: Command): nat {
    if cmd.Backup? then TABLE_SIZE + 5
    else (if cmd.Show? then TABLE_SIZE else |KeysOf(cmd)|) + |Acts(cmd)| + TABLE_SIZE + 2
  }

  function ThreadCost(th: Thread): nat { Sum(CommandCost, th.todo) + PhaseCost(th.phase) }

  function ChildCost(c: Child): nat {
    if c.status != Running then 0
    else if c.next <= TABLE_SIZE then TABLE_SIZE + 1 - c.next else 1
  }

  function Measure(s: State): nat { Sum(ThreadCost, s.threads) + Sum(ChildCost, s.children) }

  lemma InstanceCost(cmd: Command, x: Command)
    requires Instance(cmd, x) && !cmd.Backup?
    ensures PhaseCost(Locking(x, 0)) < CommandCost(cmd)
  {
    match cmd
    case Write(ps) => assert |multiset(ps)| == |multiset(x.pairs)|;
    case Read(ks) => assert |multiset(ks)| == |multiset(x.keys)|;
    case Delete(ks) => assert |multiset(ks)| == |multiset(x.keys)|;
    case Show =>
    case Wait(_) =>
  }

  lemma MoveCost(s: State, t: nat, m: Move)
    requires LockInv(s) && t < |s.threads| && CanMove(s, s.threads[t], m)
    ensures var s' := Do(s, Step.Thread(t, m));
            ThreadCost(s'.threads[t]) + (if m.Fork? then TABLE_SIZE + 1 else 0) < ThreadCost(s.threads[t])
  {
    assert ThreadOk(s.threads[t]);
    if m.Begin? {
      InstanceCost(s.threads[t].todo[0], m.cmd);
    }
  }

  lemma MovedThread(s: State, t: nat, m: Move)
    requires t < |s.threads| && CanMove(s, s.threads[t], m)
    ensures var s' := Do(s, Step.Thread(t, m));
            && |s'.threads| == |s.threads|
            && s'.threads == s.threads[t := s'.threads[t]]
            && Sum(ThreadCost, s'.threads) ==
               Sum(ThreadCost, s.threads) - ThreadCost(s.threads[t]) + ThreadCost(s'.threads[t])
  {
    var s' := Do(s, Step.Thread(t, m));
    assert s'.threads == s.threads[t := s'.threads[t]];
    SumUpdate(ThreadCost, s.threads, t, s'.threads[t]);
  }

  lemma MovedChildren(s: State, t: nat, m: Move)
    requires t < |s.threads| && CanMove(s, s.threads[t], m)
    ensures Sum(ChildCost, Do(s, Step.Thread(t, m)).children) ==
            Sum(ChildCost, s.children) + if m.Fork? then TABLE_SIZE + 1 else 0
  {
    var cs, cs' := s.children, Do(s, Step.Thread(t, m)).children;
    if m.Reap? {
      assert cs' == cs[m.child := cs[m.child].(status := Reaped)];
      SumUpdate(ChildCost, cs, m.child, cs'[m.child]);
    } else if m.Fork? {
      var c := Child(s.table, 0, "", Running, |s.log|);
      assert cs' == cs + [c];
      SumAppend(ChildCost, cs, c);
    } else {
      assert cs' == cs;
    }
  }

  lemma StepMeasure(s: State, l: Step)
    requires LockInv(s) && Enabled(s, l)
    ensures Measure(Do(s, l)) < Measure(s)
  {
    match l
    case Thread(t, m) =>
      MoveCost(s, t, m);
      MovedThread(s, t, m);
      MovedChildren(s, t, m);
    case ChildPrint(c) => SumUpdate(ChildCost, s.children, c, Do(s, l).children[c]);
    case ChildExit(c) => SumUpdate(ChildCost, s.children, c, Do(s, l).children[c]);
  }

  /** No run is longer than the measure of its first state. */
  lemma {:induction false} RunsAreBounded(s: State, ls: seq<Step>)
    requires LockInv(s) && IsRun(s, ls)
    ensures |ls| + Measure(After(s, ls)) <= Measure(s)
    decreases |ls|
  {
    if ls != [] {
      StepLocks(s, ls[0]);
      StepMeasure(s, ls[0]);
      RunsAreBounded(Do(s, ls[0]), ls[1..]);
    }
  }

  // ---- deadlock freedom ----

  /** The batches that sorting makes lock in ascending order. */
  ghost predicate Ordered(sys: System) {
    forall t, i | 0 <= t < |sys.programs| && 0 <= i < |sys.programs[t]| ::
      NoInversion(KeysOf(sys.programs[t][i]))
  }

  ghost predicate NoBackups(sys: System) {
    forall t, i | 0 <= t < |sys.programs| && 0 <= i < |sys.programs[t]| :: !sys.programs[t][i].Backup?
  }

  ghost predicate Stuck(s: State) { forall l :: !Enabled(s, l) }

  /** All jobs done, all backup processes through with their files. */
  predicate Finished(s: State) {
    AllIdle(s) && forall c | 0 <= c < |s.children| :: s.children[c].status != Running
  }

  lemma LockingAscends(sys: System, s: State, t: nat)
    requires Ordered(sys) && Inv(sys, s) && t < |s.threads| && s.threads[t].phase.Locking?
    ensures Ascending(Locks(s.threads[t].phase.cmd))
  {
    var done := CommitsOf(s.log, t) + Current(s.threads[t].phase);
    var x := s.threads[t].phase.cmd;
    assert OnCourse(sys.programs[t], done, s.threads[t].todo);
    assert done[|done| - 1] == x;
    CommandLocksAscend(sys.programs[t][|done| - 1], x);
  }

  /** The thread that holds the bucket lock t waits for. */
  lemma LockHolder(s: State, t: nat) returns (u: nat)
    requires LockInv(s) && t < |s.threads| && Waits(s.threads[t])
    requires !CanMove(s, s.threads[t], Acquire)
    ensures u < |s.threads| && HoldsBucket(s.threads[u].phase, NextLock(s.threads[t]))
  {
    var b := NextLock(s.threads[t]);
    assert BucketLockOk(s, b);
    if s.locks[b].writer.Some? {
      u := s.locks[b].writer.value;
      assert ExclusiveHolder(s, b, u);
    } else {
      u :| u in s.locks[b].readers;
      assert SharedHolder(s, b, u);
    }
  }

  /** A thread in a command can move, or waits for one further up that can. */
  lemma {:induction false} CommandMoves(sys: System, s: State, t: nat) returns (l: Step)
    requires Ordered(sys) && Inv(sys, s) && t < |s.threads| && InCommand(s.threads[t].phase)
    ensures Enabled(s, l)
    decreases if s.threads[t].phase.Locking? && Waits(s.threads[t])
              then TABLE_SIZE - NextLock(s.threads[t]) else 0
  {
    var th := s.threads[t];
    assert ThreadOk(th);
    if th.phase.Acting? {
      l := Step.Thread(t, Perform);
    } else if th.phase.Unlocking? {
      l := Step.Thread(t, if th.phase.bucket < TABLE_SIZE then Release else End);
    } else if CanMove(s, th, Acquire) {
      l := Step.Thread(t, Acquire);
    } else {
      var u := LockHolder(s, t);
      assert ThreadOk(s.threads[u]);
      if s.threads[u].phase.Locking? {
        LockingAscends(sys, s, u);
        var x, n := s.threads[u].phase.cmd, s.threads[u].phase.acquired;
        var i :| 0 <= i < n && Locks(x)[i] == NextLock(th);
        assert NextLock(th) < Locks(x)[n] == NextLock(s.threads[u]);
      }
      l := CommandMoves(sys, s, u);
    }
  }

  lemma BusyMoves(sys: System, s: State, t: nat) returns (l: Step)
    requires Ordered(sys) && Inv(sys, s) && t < |s.threads| && s.threads[t].phase != Idle
    ensures Enabled(s, l)
  {
    if InCommand(s.threads[t].phase) {
      l := CommandMoves(sys, s, t);
    } else if InBackup(s.threads[t].phase) {
      l := BackupMoves(s, t);
    } else if s.global.Admits(Exclusive) {
      l := Step.Thread(t, LockAll);
    } else if s.global.writer.Some? {
      assert BackupWriter(s, s.global.writer.value);
      l := BackupMoves(s, s.global.writer.value);
    } else {
      var u :| u in s.global.readers;
      assert CommandReader(s, u);
      l := CommandMoves(sys, s, u);
    }
  }

  lemma BackupMoves(s: State, t: nat) returns (l: Step)
    requires BackupWriter(s, t)
    ensures Enabled(s, l)
  {
    l := Step.Thread(t, if s.threads[t].phase == Forking then Fork else UnlockAll);
  }

  lemma SortedInstance(cmd: Command) returns (x: Command)
    ensures Instance(cmd, x)
  {
    match cmd
    case Write(ps) =>
      var key: Pair -> string := (p: Pair) => p.key;
      x := Write(Sort(key, ps));
      assert forall i | 0 <= i < |x.pairs| :: KeysOf(x)[i] == key(x.pairs[i]);
    case Read(ks) =>
      var key: Key -> string := (k: Key) => k;
      x := Read(Sort(key, ks));
      assert forall i | 0 <= i < |x.keys| :: x.keys[i] == key(x.keys[i]);
    case Delete(ks) =>
      var key: Key -> string := (k: Key) => k;
      x := Delete(Sort(key, ks));
      assert forall i | 0 <= i < |x.keys| :: x.keys[i] == key(x.keys[i]);
    case Show => x := Show;
    case Wait(_) => x := cmd;
    case Backup => x := Backup;
  }

  /** No lock keeps anybody out for longer than it must. In every reachable state: a thread gets
      the bucket it waits for exactly if nobody has it, or all who have it, and itself,
      only read; a command can begin exactly if no BACKUP has the global lock; a BACKUP
      gets that exactly if all others are between commands or wait for it too. */
  lemma LocksOpen(sys: System, ls: seq<Step>, t: nat)
    requires sys.Ok() && IsRun(Start(sys), ls) && t < |After(Start(sys), ls).threads|
    ensures var s := After(Start(sys), ls);
            Waits(s.threads[t]) ==>
              (Enabled(s, Step.Thread(t, Acquire)) <==>
               forall u | 0 <= u < |s.threads| && HoldsBucket(s.threads[u].phase, NextLock(s.threads[t])) ::
                 Reads(s.threads[u].phase.cmd) && Reads(s.threads[t].phase.cmd))
    ensures var s := After(Start(sys), ls);
            Starts(s.threads[t]) && TakesLocks(s.threads[t].todo[0]) ==>
              ((exists x :: Enabled(s, Step.Thread(t, Begin(x)))) <==>
               forall u | 0 <= u < |s.threads| :: !s.threads[u].phase.Forking? && !s.threads[u].phase.Forked?)
    ensures var s := After(Start(sys), ls);
            s.threads[t].phase == Pending ==>
              (Enabled(s, Step.Thread(t, LockAll)) <==>
               forall u | 0 <= u < |s.threads| :: s.threads[u].phase.Idle? || s.threads[u].phase.Pending?)
  {
    StartInv(sys);
    RunInv(sys, Start(sys), ls);
    var s := After(Start(sys), ls);
    if Waits(s.threads[t]) {
      BucketOpenIff(s, t);
    }
    if Starts(s.threads[t]) && TakesLocks(s.threads[t].todo[0]) {
      var x := SortedInstance(s.threads[t].todo[0]);
      GlobalOpenIff(s, t, Begin(x));
      if y :| Enabled(s, Step.Thread(t, Begin(y))) {
        GlobalOpenIff(s, t, Begin(y));
      }
    }
    if s.threads[t].phase == Pending {
      GlobalOpenIff(s, t, LockAll);
    }
  }

  /** With everyone between commands, the next command of any thread can start. */
  lemma IdleMoves(sys: System, s: State, t: nat) returns (l: Step)
    requires Inv(sys, s) && Slots(s) == sys.limit && (sys.limit > 0 || NoBackups(sys))
    requires forall u | 0 <= u < |s.threads| :: s.threads[u].phase == Idle
    requires forall c | 0 <= c < |s.children| :: s.children[c].status != Running
    requires t < |s.threads| && s.threads[t].todo != []
    ensures Enabled(s, l)
  {
    var cmd := s.threads[t].todo[0];
    if cmd.Wait? {
      l := Step.Thread(t, Pause);
    } else if !cmd.Backup? {
      var x := SortedInstance(cmd);
      l := Step.Thread(t, Begin(x));
    } else if s.counter > 0 {
      l := Step.Thread(t, TakeSlot);
    } else {
      assert OnCourse(sys.programs[t], CommitsOf(s.log, t) + Current(s.threads[t].phase), s.threads[t].todo);
      CountNone(IsPending, s.threads);
      var c := CountMember(IsUnreaped, s.children);
      l := Step.Thread(t, Reap(c));
    }
  }

  lemma SomeMove(sys: System, s: State) returns (l: Step)
    requires Ordered(sys) && Inv(sys, s) && !Finished(s)
    requires Slots(s) == sys.limit && (sys.limit > 0 || NoBackups(sys))
    ensures Enabled(s, l)
  {
    if c :| 0 <= c < |s.children| && s.children[c].status == Running {
      l := if s.children[c].next < TABLE_SIZE then ChildPrint(c) else ChildExit(c);
    } else if t :| 0 <= t < |s.threads| && s.threads[t].phase != Idle {
      l := BusyMoves(sys, s, t);
    } else {
      var t := SomethingToDo(s);
      l := IdleMoves(sys, s, t);
    }
  }

  lemma SomethingToDo(s: State) returns (t: nat)
    requires !Finished(s) && forall c | 0 <= c < |s.children| :: s.children[c].status != Running
    requires forall u | 0 <= u < |s.threads| :: s.threads[u].phase == Idle
    ensures t < |s.threads| && s.threads[t].todo != []
  {
    t :| 0 <= t < |s.threads| && s.threads[t].todo != [];
  }

  lemma StuckIsFinished(sys: System, s: State)
    requires Ordered(sys) && Inv(sys, s)
    requires Slots(s) == sys.limit && (sys.limit > 0 || NoBackups(sys))
    ensures Stuck(s) ==> Finished(s)
  {
    if !Finished(s) {
      var l := SomeMove(sys, s);
    }
  }

  ghost predicate NothingHeld(s: State) {
    s.global == Unheld && forall b | 0 <= b < TABLE_SIZE :: s.locks[b] == Unheld
  }

  /** Deadlock freedom and completion. If no batch has an inversion, and the backup
      limit is at least one or nobody backs up, then a run can always go on until
      all jobs and backups are done; it cannot go on forever; and at the end no
      lock is held. */
  lemma RunsComplete(sys: System, ls: seq<Step>)
    requires sys.Ok() && Ordered(sys) && (sys.limit > 0 || NoBackups(sys))
    requires IsRun(Start(sys), ls)
    ensures |ls| <= Measure(Start(sys))
    ensures Stuck(After(Start(sys), ls)) ==> Finished(After(Start(sys), ls))
    ensures Finished(After(Start(sys), ls)) ==> NothingHeld(After(Start(sys), ls))
  {
    var s := After(Start(sys), ls);
    Reached(sys, ls);
    StuckIsFinished(sys, s);
    if Finished(s) {
      FinishedHoldsNothing(s);
    }
  }

  /** So under these conditions every run can be brought to an end. */
  lemma {:induction false} RunsCanFinish(sys: System, ls: seq<Step>) returns (more: seq<Step>)
    requires sys.Ok() && Ordered(sys) && (sys.limit > 0 || NoBackups(sys))
    requires IsRun(Start(sys), ls)
    ensures IsRun(After(Start(sys), ls), more)
    ensures var s := After(After(Start(sys), ls), more);
            && (forall t | 0 <= t < |s.threads| :: s.threads[t].phase == Idle && s.threads[t].todo == [])
            && (forall c | 0 <= c < |s.children| :: s.children[c].status != Running)
            && s.global == Unheld && forall b | 0 <= b < TABLE_SIZE :: s.locks[b] == Unheld
    decreases Measure(Start(sys)) - |ls|
  {
    var s := After(Start(sys), ls);
    RunsComplete(sys, ls);
    if Finished(s) {
      more := [];
    } else {
      Reached(sys, ls);
      var l := SomeMove(sys, s);
      OneStep(s, l);
      RunsCompose(Start(sys), ls, [l]);
      RunsComplete(sys, ls + [l]);
      more := RunsCanFinish(sys, ls + [l]);
      var all := [l] + more;
      assert all[0] == l && all[1..] == more;
      more := all;
    }
  }

  lemma OneStep(s: State, l: Step)
    requires Enabled(s, l)
    ensures IsRun(s, [l]) && After(s, [l]) == Do(s, l)
  {
    var ls := [l];
    assert ls[1..] == [] && IsRun(Do(s, l), ls[1..]) && After(Do(s, l), ls[1..]) == Do(s, l);
  }

  lemma Reached(sys: System, ls: seq<Step>)
    requires sys.Ok() && IsRun(Start(sys), ls)
    ensures Inv(sys, After(Start(sys), ls)) && Slots(After(Start(sys), ls)) == sys.limit
    ensures |ls| <= Measure(Start(sys))
  {
    StartInv(sys);
    RunInv(sys, Start(sys), ls);
    RunsAreBounded(Start(sys), ls);
    RunSlots(Start(sys), ls);
    StartSlots(sys);
  }

  lemma FinishedHoldsNothing(s: State)
    requires LockInv(s) && Finished(s)
    ensures NothingHeld(s)
  {
    forall t: nat ensures t !in s.global.readers && s.global.writer != Some(t) {
      assert !CommandReader(s, t) && !BackupWriter(s, t);
    }
    NobodyHolds(s.global);
    forall b | 0 <= b < TABLE_SIZE ensures s.locks[b] == Unheld {
      assert BucketLockOk(s, b);
      forall t: nat ensures t !in s.locks[b].readers && s.locks[b].writer != Some(t) {
        assert !SharedHolder(s, b, t) && !ExclusiveHolder(s, b, t);
      }
      NobodyHolds(s.locks[b]);
    }
  }

  lemma NobodyHolds(lock: RwLock)
    requires forall t: nat :: t !in lock.readers && lock.writer != Some(t)
    ensures lock == Unheld
  {
    assert lock.readers == {};
    match lock.writer
    case None =>
    case Some(_) => assert false;
  }
}
