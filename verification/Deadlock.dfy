/** The conditions under which jobs finish are the right ones: a batch with an
    inversion deadlocks with a harmless partner, and with a backup limit of zero
    no job that backs up ever ends. */
module Deadlock {
  import opened Text
  import opened Tables
  import opened Batches
  import opened LockOrder
  import opened Store
  import opened Locking
  import opened Runs
  import opened Progress

  /** If every batch of every job has initials of one class, the jobs are ordered. */
  lemma OneClassIsOrdered(sys: System)
    requires forall t, i | 0 <= t < |sys.programs| && 0 <= i < |sys.programs[t]| ::
               var ks := KeysOf(sys.programs[t][i]);
               || (forall k | k in ks :: 'a' <= k[0] <= 'z')
               || (forall k | k in ks :: 'A' <= k[0] <= 'Z')
               || (forall k | k in ks :: '0' <= k[0] <= '9')
    ensures Ordered(sys)
  {
    forall t, i | 0 <= t < |sys.programs| && 0 <= i < |sys.programs[t]|
      ensures NoInversion(KeysOf(sys.programs[t][i]))
    {
      assert OneClass(KeysOf(sys.programs[t][i]));
      OneClassHasNoInversion(KeysOf(sys.programs[t][i]));
    }
  }

  // ---- a batch with an inversion ----

  /** The one-letter key of a bucket. */
  function Letter(b: nat): (k: Key)
    requires b < TABLE_SIZE
    ensures Bucket(k) == b && Lowercase(k[0])
  {
    [('a' as int + b) as char]
  }

  /** Writes two lowercase keys, the lower bucket first. */
  function Partner(lo: nat, hi: nat): Command
    requires lo < hi < TABLE_SIZE
  {
    Write([Pair(Letter(lo), ""), Pair(Letter(hi), "")])
  }

  lemma PartnerLocks(lo: nat, hi: nat)
    requires lo < hi < TABLE_SIZE
    ensures Instance(Partner(lo, hi), Partner(lo, hi))
    ensures Locks(Partner(lo, hi)) == [lo, hi]
    ensures forall k | k in KeysOf(Partner(lo, hi)) :: Lowercase(k[0])
    ensures OneClass(KeysOf(Partner(lo, hi)))
  {
    assert KeysOf(Partner(lo, hi)) == [Letter(lo), Letter(hi)];
    TwoLetters(lo, hi);
    assert Buckets([Letter(lo), Letter(hi)]) == [lo, hi];
    TwoFirsts(lo, hi);
  }

  lemma TwoLetters(lo: nat, hi: nat)
    requires lo < hi < TABLE_SIZE
    ensures OneClass([Letter(lo), Letter(hi)]) && Sorted([Letter(lo), Letter(hi)])
  {
    assert Letter(lo)[0] < Letter(hi)[0];
  }

  lemma TwoFirsts(lo: nat, hi: nat)
    requires lo != hi
    ensures Firsts([lo, hi]) == [lo, hi]
  {
    assert [lo, hi][..1] == [lo] && [lo][..0] == [];
    assert Firsts([lo]) == [lo];
  }

  function Two(cmd: Command, partner: Command, limit: nat): System {
    System(Empty(), [[cmd], [partner]], limit)
  }

  function LocksTaken(held: seq<nat>, mode: Mode): LockTable {
    seq(TABLE_SIZE, b requires 0 <= b < TABLE_SIZE => if b in held then Unheld.Take(0, mode) else Unheld)
  }

  /** Thread 0 has taken the first n locks of x; the partner has not begun. */
  function Halfway(partner: Command, limit: nat, x: Command, n: nat): State
    requires n <= |Locks(x)|
  {
    State(
      Empty(),
      LocksTaken(Locks(x)[..n], ModeOf(x)),
      Unheld.Take(0, Shared),
      [Job([], Phase.Locking(x, n), ""), Job([partner], Idle, "")],
      limit, [], [])
  }

  lemma BeginsHalfway(cmd: Command, partner: Command, limit: nat, x: Command)
    requires Instance(cmd, x) && TakesLocks(cmd)
    ensures Enabled(Start(Two(cmd, partner, limit)), Step.Thread(0, Begin(x)))
    ensures Do(Start(Two(cmd, partner, limit)), Step.Thread(0, Begin(x))) == Halfway(partner, limit, x, 0)
  {
    var s := Start(Two(cmd, partner, limit));
    var s' := Do(s, Step.Thread(0, Begin(x)));
    assert [cmd][1..] == [];
    assert s'.threads == Halfway(partner, limit, x, 0).threads;
    assert s'.locks == Halfway(partner, limit, x, 0).locks;
  }

  lemma TakesOneMore(partner: Command, limit: nat, x: Command, n: nat)
    requires n + 1 < |Locks(x)|
    ensures Enabled(Halfway(partner, limit, x, n), Step.Thread(0, Acquire))
    ensures Do(Halfway(partner, limit, x, n), Step.Thread(0, Acquire)) == Halfway(partner, limit, x, n + 1)
  {
    var s, s' := Halfway(partner, limit, x, n), Halfway(partner, limit, x, n + 1);
    OneMoreHeld(x, n, Locks(x)[n]);
    var d := DoAcquire(s, 0);
    assert d.threads == s'.threads;
    forall b | 0 <= b < TABLE_SIZE ensures d.locks[b] == s'.locks[b] {
      OneMoreHeld(x, n, b);
    }
    assert d.locks == s'.locks;
  }

  lemma {:induction false} ReachHalfway(cmd: Command, partner: Command, limit: nat, x: Command, n: nat)
    returns (ls: seq<Step>)
    requires Instance(cmd, x) && TakesLocks(cmd) && n < |Locks(x)|
    ensures IsRun(Start(Two(cmd, partner, limit)), ls)
    ensures After(Start(Two(cmd, partner, limit)), ls) == Halfway(partner, limit, x, n)
  {
    var s := Start(Two(cmd, partner, limit));
    if n == 0 {
      BeginsHalfway(cmd, partner, limit, x);
      JustOne(s, Step.Thread(0, Begin(x)));
      ls := [Step.Thread(0, Begin(x))];
    } else {
      ls := ReachHalfway(cmd, partner, limit, x, n - 1);
      ls := ReachOneMore(s, ls, partner, limit, x, n - 1);
    }
  }

  lemma ReachOneMore(s: State, ls: seq<Step>, partner: Command, limit: nat, x: Command, n: nat)
    returns (ls': seq<Step>)
    requires n + 1 < |Locks(x)|
    requires IsRun(s, ls) && After(s, ls) == Halfway(partner, limit, x, n)
    ensures IsRun(s, ls') && After(s, ls') == Halfway(partner, limit, x, n + 1)
  {
    TakesOneMore(partner, limit, x, n);
    ls' := Extend(s, ls, Step.Thread(0, Acquire));
  }

  lemma JustOne(s: State, l: Step)
    requires Enabled(s, l)
    ensures IsRun(s, [l]) && After(s, [l]) == Do(s, l)
  {
    var ls := [l];
    assert ls[0] == l && ls[1..] == [];
    assert IsRun(Do(s, l), ls[1..]);
    assert After(Do(s, l), ls[1..]) == Do(s, l);
  }

  lemma Extend(s: State, ls: seq<Step>, l: Step) returns (ls': seq<Step>)
    requires IsRun(s, ls) && Enabled(After(s, ls), l)
    ensures IsRun(s, ls') && After(s, ls') == Do(After(s, ls), l)
  {
    JustOne(After(s, ls), l);
    RunsCompose(s, ls, [l]);
    ls' := ls + [l];
  }

  /** As Halfway, with the partner in its lock loop. */
  function BothLocking(partner: Command, limit: nat, x: Command, n: nat): State
    requires n <= |Locks(x)|
  {
    Halfway(partner, limit, x, n).(
      global := Unheld.Take(0, Shared).Take(1, Shared),
      threads := [Job([], Phase.Locking(x, n), ""), Job([], Phase.Locking(partner, 0), "")])
  }

  lemma PartnerBegins(limit: nat, x: Command, n: nat, partner: Command)
    requires n <= |Locks(x)| && Instance(partner, partner) && partner.Write?
    ensures Enabled(Halfway(partner, limit, x, n), Step.Thread(1, Begin(partner)))
    ensures Do(Halfway(partner, limit, x, n), Step.Thread(1, Begin(partner))) == BothLocking(partner, limit, x, n)
  {
    assert [partner][1..] == [];
    assert Do(Halfway(partner, limit, x, n), Step.Thread(1, Begin(partner))).threads
      == BothLocking(partner, limit, x, n).threads;
  }

  /** The partner takes its first bucket, and nobody can go on. */
  lemma PartnerBlocks(limit: nat, x: Command, i: nat, j: nat, partner: Command)
    requires i < j < |Locks(x)| && partner.Write? && Locks(partner) == [Locks(x)[j], Locks(x)[i]]
    ensures Enabled(BothLocking(partner, limit, x, j), Step.Thread(1, Acquire))
    ensures Blocked(Do(BothLocking(partner, limit, x, j), Step.Thread(1, Acquire)))
  {
    var lo, hi := Locks(x)[j], Locks(x)[i];
    OneMoreHeld(x, j, lo);
    assert hi in Locks(x)[..j];
    var s := BothLocking(partner, limit, x, j);
    assert s.locks[lo] == Unheld && !s.locks[hi].Admits(Exclusive);
    var s' := DoAcquire(s, 1);
    assert NextLock(s'.threads[0]) == lo && NextLock(s'.threads[1]) == hi;
  }

  /** Each of the two threads waits for a bucket the other holds. */
  ghost predicate Blocked(s: State) {
    s.children == [] && |s.threads| == 2 && Refused(s, 0) && Refused(s, 1)
  }

  ghost predicate Refused(s: State, t: nat)
    requires t < |s.threads|
  {
    Waits(s.threads[t]) && !s.locks[NextLock(s.threads[t])].Admits(ModeOf(s.threads[t].phase.cmd))
  }

  lemma RefusedCannotMove(s: State, t: nat, m: Move)
    requires t < |s.threads| && Refused(s, t)
    ensures !CanMove(s, s.threads[t], m)
  {
    if CanMove(s, s.threads[t], m) {
      WaitingAcquires(s, s.threads[t], m);
    }
  }

  lemma WaitingAcquires(s: State, th: Thread, m: Move)
    requires Waits(th) && CanMove(s, th, m)
    ensures m == Acquire
  {
  }

  lemma RefusedIsNotIdle(s: State, t: nat)
    requires t < |s.threads| && Refused(s, t)
    ensures !AllIdle(s)
  {
    assert s.threads[t].phase != Idle;
  }

  lemma NobodyMoves(s: State)
    requires s.children == [] && forall t, m | 0 <= t < |s.threads| :: !CanMove(s, s.threads[t], m)
    ensures Stuck(s)
  {
    forall l ensures !Enabled(s, l) {
    }
  }

  lemma BlockedIsStuck(s: State)
    requires Blocked(s)
    ensures Stuck(s) && !AllIdle(s)
  {
    forall t, m | 0 <= t < 2 ensures !CanMove(s, s.threads[t], m) {
      assert t == 0 || t == 1;
      RefusedCannotMove(s, t, m);
    }
    NobodyMoves(s);
    RefusedIsNotIdle(s, 0);
  }

  /** A batch with an inversion is never safe: for every order qsort may give it,
      there is a partner with a harmless lowercase batch, and a run of the two in
      which each ends up waiting for a bucket the other holds. */
  lemma InversionCanDeadlock(cmd: Command, x: Command, limit: nat)
    returns (partner: Command, ls: seq<Step>)
    requires CommandOk(cmd) && !cmd.Backup? && Instance(cmd, x) && !NoInversion(KeysOf(cmd))
    ensures CommandOk(partner) && partner.Write? && forall k | k in KeysOf(partner) :: Lowercase(k[0])
    ensures OneClass(KeysOf(partner))
    ensures IsRun(Start(Two(cmd, partner, limit)), ls)
    ensures Stuck(After(Start(Two(cmd, partner, limit)), ls))
    ensures !AllIdle(After(Start(Two(cmd, partner, limit)), ls))
  {
    CommandLocksAscend(cmd, x);
    var i, j :| 0 <= i < j < |Locks(x)| && Locks(x)[i] >= Locks(x)[j];
    assert Locks(x)[i] != Locks(x)[j];
    partner := Partner(Locks(x)[j], Locks(x)[i]);
    PartnerLocks(Locks(x)[j], Locks(x)[i]);
    ls := ReachHalfway(cmd, partner, limit, x, j);
    PartnerBegins(limit, x, j, partner);
    PartnerBlocks(limit, x, i, j, partner);
    var s := Start(Two(cmd, partner, limit));
    ls := Extend(s, ls, Step.Thread(1, Begin(partner)));
    ls := Extend(s, ls, Step.Thread(1, Acquire));
    BlockedIsStuck(After(s, ls));
  }

  // ---- a backup limit of zero ----

  ghost predicate NeverBackedUp(s: State) {
    && s.counter == 0 && s.children == []
    && (forall t | 0 <= t < |s.threads| :: !(s.threads[t].phase in {Pending, Forking, Forked}))
    && (forall i | 0 <= i < |s.log| :: !s.log[i].cmd.Backup?)
  }

  lemma {:induction false} RunNeverBacksUp(s: State, ls: seq<Step>)
    requires LockInv(s) && NeverBackedUp(s) && IsRun(s, ls)
    ensures NeverBackedUp(After(s, ls))
    decreases |ls|
  {
    if ls != [] {
      var l := ls[0];
      assert l.Thread? ==> ThreadOk(s.threads[l.t]);
      StepLocks(s, l);
      RunNeverBacksUp(Do(s, l), ls[1..]);
    }
  }

  lemma StartNeverBackedUp(sys: System)
    requires sys.limit == 0
    ensures NeverBackedUp(Start(sys))
  {
  }

  lemma {:induction false} CommittedIsLogged(log: seq<Commit>, t: nat, i: nat)
    requires i < |CommitsOf(log, t)|
    ensures exists j :: 0 <= j < |log| && log[j].cmd == CommitsOf(log, t)[i]
  {
    var init := log[..|log| - 1];
    if i < |CommitsOf(init, t)| {
      CommittedIsLogged(init, t, i);
      var j :| 0 <= j < |init| && init[j].cmd == CommitsOf(init, t)[i];
      assert log[j].cmd == CommitsOf(log, t)[i];
    } else {
      assert log[|log| - 1].cmd == CommitsOf(log, t)[i];
    }
  }

  /** With a limit of zero no run takes a job past its first BACKUP, let alone to its
      end: the command at place i of thread t, and all after it, stay undone. */
  lemma NoLimitNoEnd(sys: System, ls: seq<Step>, t: nat, i: nat)
    requires sys.Ok() && sys.limit == 0 && IsRun(Start(sys), ls)
    requires t < |sys.programs| && i < |sys.programs[t]| && sys.programs[t][i].Backup?
    ensures var s := After(Start(sys), ls);
            t < |s.threads| && |s.threads[t].todo| >= |sys.programs[t]| - i && !AllIdle(s)
  {
    StartInv(sys);
    RunInv(sys, Start(sys), ls);
    StartNeverBackedUp(sys);
    RunNeverBacksUp(Start(sys), ls);
    NotPastBackup(sys, After(Start(sys), ls), t, i);
  }

  lemma NotPastBackup(sys: System, s: State, t: nat, i: nat)
    requires LockInv(s) && ProgramsOk(sys, s) && NeverBackedUp(s)
    requires t < |sys.programs| && i < |sys.programs[t]| && sys.programs[t][i].Backup?
    ensures t < |s.threads| && |s.threads[t].todo| >= |sys.programs[t]| - i && !AllIdle(s)
  {
    var commits, now := CommitsOf(s.log, t), Current(s.threads[t].phase);
    assert ThreadOk(s.threads[t]) && OnCourse(sys.programs[t], commits + now, s.threads[t].todo);
    forall x | 0 <= x < |commits + now| ensures !sys.programs[t][x].Backup? {
      assert Instance(sys.programs[t][x], (commits + now)[x]);
      if x < |commits| {
        CommittedIsLogged(s.log, t, x);
      }
    }
  }
}
