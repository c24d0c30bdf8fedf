/** The theorems about whole runs of the job threads. */
module Runs {
  import opened Text
  import opened Batches
  import opened Store
  import opened Locking
  import opened Serialisability

  /** The commands of thread t in the log, in log order. */
  function CommitsOf(log: seq<Commit>, t: nat): seq<Command> {
    if log == [] then [] else
    CommitsOf(log[..|log| - 1], t) +
    (if log[|log| - 1].thread == t then [log[|log| - 1].cmd] else [])
  }

  /** The command a thread has started and not yet committed. */
  function Current(p: Phase): seq<Command> {
    match p
    case Locking(x, _) => [x]
    case Pending => [Backup]
    case Forking => [Backup]
    case _ => []
  }

  /** done is the beginning of the program, each list sorted, and todo the rest. */
  ghost predicate OnCourse(program: seq<Command>, done: seq<Command>, todo: seq<Command>) {
    && |done| + |todo| == |program|
    && todo == program[|done|..]
    && forall i | 0 <= i < |done| :: Instance(program[i], done[i])
  }

  ghost predicate ProgramsOk(sys: System, s: State) {
    && |s.threads| == |sys.programs|
    && forall t | 0 <= t < |s.threads| ::
         OnCourse(sys.programs[t], CommitsOf(s.log, t) + Current(s.threads[t].phase), s.threads[t].todo)
  }

  ghost predicate Inv(sys: System, s: State) {
    LockInv(s) && Agrees(s, SerialResult(sys, s.log)) && ChildrenOk(sys, s) && ProgramsOk(sys, s)
  }

  lemma StartInv(sys: System)
    requires sys.Ok()
    ensures Inv(sys, Start(sys))
  {
    StartLocks(sys);
    forall t | 0 <= t < |sys.programs|
      ensures OnCourse(sys.programs[t], CommitsOf([], t) + Current(Idle), sys.programs[t])
    {
    }
  }

  /** Thread u goes on, commits its current command, starts its next one, or does a
      whole WAIT; nothing happens to the others. */
  ghost predicate Advance(s: State, s': State, u: nat) {
    && |s'.threads| == |s.threads|
    && (forall t | 0 <= t < |s.threads| && t != u :: s'.threads[t] == s.threads[t])
    && (u >= |s.threads| ==> s'.log == s.log)
    && (u < |s.threads| ==>
          var now, now' := Current(s.threads[u].phase), Current(s'.threads[u].phase);
          var todo, todo' := s.threads[u].todo, s'.threads[u].todo;
          || (s'.log == s.log && now' == now && todo' == todo)
          || (|now| == 1 && s'.log == s.log + [Commit(u, now[0])] && now' == [] && todo' == todo)
          || (s'.log == s.log && now == [] && todo != [] && todo' == todo[1..] &&
              |now'| == 1 && Instance(todo[0], now'[0]))
          || (now == [] == now' && todo != [] && todo' == todo[1..] && Instance(todo[0], todo[0]) &&
              s'.log == s.log + [Commit(u, todo[0])]))
  }

  lemma StepAdvances(s: State, l: Step)
    requires LockInv(s) && Enabled(s, l)
    ensures Advance(s, Do(s, l), if l.Thread? then l.t else |s.threads|)
  {
    if l.Thread? {
      MoveAdvances(s, l.t, l.move);
    }
  }

  lemma MoveAdvances(s: State, t: nat, m: Move)
    requires LockInv(s) && t < |s.threads| && CanMove(s, s.threads[t], m)
    ensures Advance(s, Do(s, Step.Thread(t, m)), t)
  {
    if m.TakeSlot? || m.Reap? {
      assert Instance(s.threads[t].todo[0], Backup);
    } else if m.Pause? {
      assert Instance(s.threads[t].todo[0], s.threads[t].todo[0]);
    }
  }

  lemma LogGrows(log: seq<Commit>, c: Commit, t: nat)
    ensures CommitsOf(log + [c], t) == CommitsOf(log, t) + if c.thread == t then [c.cmd] else []
  {
    assert (log + [c])[..|log|] == log;
  }

  lemma OneFurther(program: seq<Command>, done: seq<Command>, todo: seq<Command>, x: Command)
    requires OnCourse(program, done, todo) && todo != [] && Instance(todo[0], x)
    ensures OnCourse(program, done + [x], todo[1..])
  {
    var done' := done + [x];
    forall i | 0 <= i < |done'| ensures Instance(program[i], done'[i]) {
      assert i < |done| ==> done'[i] == done[i];
    }
  }

  lemma OthersKeepCourse(s: State, s': State, u: nat, t: nat)
    requires Advance(s, s', u) && t < |s.threads| && t != u
    ensures CommitsOf(s'.log, t) == CommitsOf(s.log, t)
  {
    if s'.log != s.log {
      LogGrows(s.log, s'.log[|s.log|], t);
    }
  }

  lemma OwnCourse(s: State, s': State, t: nat, program: seq<Command>)
    requires Advance(s, s', t) && t < |s.threads|
    requires OnCourse(program, CommitsOf(s.log, t) + Current(s.threads[t].phase), s.threads[t].todo)
    ensures OnCourse(program, CommitsOf(s'.log, t) + Current(s'.threads[t].phase), s'.threads[t].todo)
  {
    var now, now', todo := Current(s.threads[t].phase), Current(s'.threads[t].phase), s.threads[t].todo;
    var commits, commits' := CommitsOf(s.log, t), CommitsOf(s'.log, t);
    if s'.log == s.log {
      if s'.threads[t].todo != todo {
        OneFurther(program, commits + now, todo, now'[0]);
        assert commits + now + [now'[0]] == commits' + now';
      }
    } else {
      LogGrows(s.log, s'.log[|s.log|], t);
      if s'.threads[t].todo != todo {
        OneFurther(program, commits + now, todo, todo[0]);
        assert commits + now + [todo[0]] == commits' + now';
      } else {
        assert commits + now == commits' + now';
      }
    }
  }

  lemma AdvanceKeepsCourse(s: State, s': State, u: nat, t: nat, program: seq<Command>)
    requires Advance(s, s', u) && t < |s.threads|
    requires OnCourse(program, CommitsOf(s.log, t) + Current(s.threads[t].phase), s.threads[t].todo)
    ensures OnCourse(program, CommitsOf(s'.log, t) + Current(s'.threads[t].phase), s'.threads[t].todo)
  {
    if t == u {
      OwnCourse(s, s', t, program);
    } else {
      OthersKeepCourse(s, s', u, t);
    }
  }

  lemma StepPrograms(sys: System, s: State, l: Step)
    requires LockInv(s) && Enabled(s, l) && ProgramsOk(sys, s)
    ensures ProgramsOk(sys, Do(s, l))
  {
    StepAdvances(s, l);
    var s', u := Do(s, l), if l.Thread? then l.t else |s.threads|;
    forall t | 0 <= t < |s.threads|
      ensures OnCourse(sys.programs[t], CommitsOf(s'.log, t) + Current(s'.threads[t].phase), s'.threads[t].todo)
    {
      AdvanceKeepsCourse(s, s', u, t, sys.programs[t]);
    }
  }

  lemma {:induction false} RunInv(sys: System, s: State, ls: seq<Step>)
    requires Inv(sys, s) && IsRun(s, ls)
    ensures Inv(sys, After(s, ls))
    decreases |ls|
  {
    if ls != [] {
      StepLocks(s, ls[0]);
      StepAgrees(sys, s, ls[0]);
      StepChildren(sys, s, ls[0]);
      StepPrograms(sys, s, ls[0]);
      RunInv(sys, Do(s, ls[0]), ls[1..]);
    }
  }

  /** Every thread has run its whole job and is out of its last command. */
  predicate AllIdle(s: State) {
    forall t | 0 <= t < |s.threads| :: s.threads[t].phase == Idle && s.threads[t].todo == []
  }

  /** log holds, for every thread, its program in program order. */
  ghost predicate SerialisesAll(sys: System, log: seq<Commit>) {
    forall t | 0 <= t < |sys.programs| ::
      |CommitsOf(log, t)| == |sys.programs[t]| &&
      forall i | 0 <= i < |sys.programs[t]| :: Instance(sys.programs[t][i], CommitsOf(log, t)[i])
  }

  /** Serialisability. Whatever the interleaving, when all jobs are done the table
      and every output file are those of running the commands one at a time in the
      order in which each took its last bucket lock. */
  lemma Serialisable(sys: System, ls: seq<Step>)
    requires sys.Ok() && IsRun(Start(sys), ls)
    ensures var s := After(Start(sys), ls);
            AllIdle(s) ==>
              && SerialisesAll(sys, s.log)
              && s.table == SerialResult(sys, s.log).table
              && |s.threads| == |sys.programs|
              && forall t | 0 <= t < |s.threads| :: s.threads[t].out == SerialResult(sys, s.log).outs[t]
  {
    StartInv(sys);
    RunInv(sys, Start(sys), ls);
    var s := After(Start(sys), ls);
    var r := SerialResult(sys, s.log);
    if AllIdle(s) {
      forall b | 0 <= b < TABLE_SIZE ensures s.table[b] == r.table[b] {
        assert Settled(s, b);
      }
      forall t | 0 <= t < |s.threads|
        ensures s.threads[t].out == r.outs[t]
        ensures OnCourse(sys.programs[t], CommitsOf(s.log, t), [])
      {
        assert ThreadAgrees(s, t, r);
        assert CommitsOf(s.log, t) + [] == CommitsOf(s.log, t);
      }
    }
  }

  /** Mutual exclusion. In every reachable state, two threads that hold the lock of one
      bucket are both in commands that only read. */
  lemma HoldersAlwaysShare(sys: System, ls: seq<Step>, b: nat, t: nat, u: nat)
    requires sys.Ok() && IsRun(Start(sys), ls) && b < TABLE_SIZE && t != u
    requires t < |After(Start(sys), ls).threads| && HoldsBucket(After(Start(sys), ls).threads[t].phase, b)
    requires u < |After(Start(sys), ls).threads| && HoldsBucket(After(Start(sys), ls).threads[u].phase, b)
    ensures Reads(After(Start(sys), ls).threads[t].phase.cmd) && Reads(After(Start(sys), ls).threads[u].phase.cmd)
  {
    StartInv(sys);
    RunInv(sys, Start(sys), ls);
    var s := After(Start(sys), ls);
    HoldersShare(s, b, t, u);
    assert ThreadOk(s.threads[t]) && ThreadOk(s.threads[u]);
  }

  /** At every moment of every run, a thread between two commands has written to
      its file exactly what the serial run of the commands committed so far gives
      it, and these are the commands before its current place in its program. */
  lemma SerialSoFar(sys: System, ls: seq<Step>, t: nat)
    requires sys.Ok() && IsRun(Start(sys), ls)
    requires t < |After(Start(sys), ls).threads| && After(Start(sys), ls).threads[t].phase == Idle
    ensures var s := After(Start(sys), ls);
            && |s.threads| == |sys.programs|
            && s.threads[t].out == SerialResult(sys, s.log).outs[t]
            && OnCourse(sys.programs[t], CommitsOf(s.log, t), s.threads[t].todo)
  {
    StartInv(sys);
    RunInv(sys, Start(sys), ls);
    var s := After(Start(sys), ls);
    assert ThreadAgrees(s, t, SerialResult(sys, s.log));
    assert CommitsOf(s.log, t) + Current(Idle) == CommitsOf(s.log, t);
  }

  // ---- the serial order is that of the clock ----

  /** Where in the log command i of thread t is. */
  function PositionOf(log: seq<Commit>, t: nat, i: nat): (p: nat)
    requires i < |CommitsOf(log, t)|
    ensures p < |log| && log[p] == Commit(t, CommitsOf(log, t)[i])
  {
    var init := log[..|log| - 1];
    if i < |CommitsOf(init, t)| then PositionOf(init, t, i) else |log| - 1
  }

  /** When the log grows, what is in it keeps its place, and what comes is after it. */
  lemma {:induction false} PositionKept(log: seq<Commit>, log': seq<Commit>, t: nat, i: nat)
    requires log <= log' && i < |CommitsOf(log', t)|
    ensures |CommitsOf(log, t)| <= |CommitsOf(log', t)|
    ensures PositionOf(log', t, i) < |log| <==> i < |CommitsOf(log, t)|
    decreases |log'|
  {
    if |log'| == |log| {
      assert log' == log;
    } else {
      var init := log'[..|log'| - 1];
      assert log <= init;
      CommitsGrow(log, init, t);
      if i < |CommitsOf(init, t)| {
        PositionKept(log, init, t, i);
      }
    }
  }

  lemma {:induction false} CommitsGrow(log: seq<Commit>, log': seq<Commit>, t: nat)
    requires log <= log'
    ensures |CommitsOf(log, t)| <= |CommitsOf(log', t)|
    decreases |log'|
  {
    if |log'| == |log| {
      assert log' == log;
    } else {
      assert log <= log'[..|log'| - 1];
      CommitsGrow(log, log'[..|log'| - 1], t);
    }
  }

  lemma {:induction false} LogOnlyGrows(s: State, ls: seq<Step>)
    requires IsRun(s, ls)
    ensures s.log <= After(s, ls).log
    decreases |ls|
  {
    if ls != [] {
      ChildSteps(s, ls[0]);
      LogOnlyGrows(Do(s, ls[0]), ls[1..]);
    }
  }

  /** Thread t is past command i of its program. */
  predicate Ended(sys: System, s: State, t: nat, i: nat)
    requires t < |s.threads| && t < |sys.programs|
  {
    var th := s.threads[t];
    i + |th.todo| + (if th.phase == Idle then 0 else 1) < |sys.programs[t]|
  }

  /** Thread u has not come to command j of its program. */
  predicate NotBegun(sys: System, s: State, u: nat, j: nat)
    requires u < |s.threads| && u < |sys.programs|
  {
    |sys.programs[u]| <= j + |s.threads[u].todo|
  }

  /** Strict serialisability. A command that has ended before another begins comes
      before it in the serial order. */
  lemma RealTime(sys: System, before: seq<Step>, after: seq<Step>, t: nat, i: nat, u: nat, j: nat)
    requires sys.Ok() && IsRun(Start(sys), before) && IsRun(After(Start(sys), before), after)
    requires t < |sys.programs| == |After(Start(sys), before).threads| && u < |sys.programs|
    requires Ended(sys, After(Start(sys), before), t, i) && NotBegun(sys, After(Start(sys), before), u, j)
    ensures var log := After(After(Start(sys), before), after).log;
            j < |CommitsOf(log, u)| ==>
              i < |CommitsOf(log, t)| && PositionOf(log, t, i) < PositionOf(log, u, j)
  {
    var s := After(Start(sys), before);
    var log := After(s, after).log;
    StartInv(sys);
    RunInv(sys, Start(sys), before);
    LogOnlyGrows(s, after);
    assert OnCourse(sys.programs[t], CommitsOf(s.log, t) + Current(s.threads[t].phase), s.threads[t].todo);
    assert OnCourse(sys.programs[u], CommitsOf(s.log, u) + Current(s.threads[u].phase), s.threads[u].todo);
    CommitsGrow(s.log, log, t);
    if j < |CommitsOf(log, u)| {
      PositionKept(s.log, log, t, i);
      PositionKept(s.log, log, u, j);
    }
  }

  /** Consistent snapshots. Every finished backup file is the print of the table
      that the commands before its BACKUP in the serial order leave, whatever any
      thread does while the backup process runs. */
  lemma BackupsAreConsistent(sys: System, ls: seq<Step>, c: nat)
    requires sys.Ok() && IsRun(Start(sys), ls)
    requires c < |After(Start(sys), ls).children| && After(Start(sys), ls).children[c].status != Running
    ensures var s := After(Start(sys), ls);
            var at := s.children[c].at;
            && at < |s.log| && s.log[at].cmd == Backup
            && s.children[c].out == BackupText(SerialResult(sys, s.log[..at]).table, TABLE_SIZE)
  {
    StartInv(sys);
    RunInv(sys, Start(sys), ls);
    assert ChildOk(sys, After(Start(sys), ls).log, After(Start(sys), ls).children[c]);
  }
}
