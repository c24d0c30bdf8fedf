/** Two-phase locking makes the interleaved commands equal to a serial run of
    them in commit order, and every backup a table between two commands. */
module Serialisability {
  import opened Text
  import opened Tables
  import opened Batches
  import opened Store
  import opened Locking

  /** Thread t may still change bucket b on behalf of its current command. */
  predicate Writing(s: State, b: nat, t: nat) {
    t < |s.threads| && s.threads[t].phase.Acting? && b in Locks(s.threads[t].phase.cmd) &&
    ModeOf(s.threads[t].phase.cmd) == Exclusive
  }

  ghost predicate Settled(s: State, b: nat) {
    forall t: nat :: !Writing(s, b, t)
  }

  /** What the table and the thread's file will be when its command has acted. */
  function Outcome(x: Command, done: nat, flag: bool, table: Table, out: string): Progress
    requires done <= |Acts(x)|
  {
    RunActs(Acts(x)[done..], Progress(table, out, flag))
  }

  /** The thread's file, once its committed command is through, is the serial one. */
  ghost predicate ThreadAgrees(s: State, t: nat, r: Serial)
    requires t < |s.threads| && t < |r.outs|
  {
    match s.threads[t].phase
    case Acting(x, i, flag) =>
      i < |Acts(x)| &&
      var p := Outcome(x, i, flag, s.table, s.threads[t].out);
      p.out == r.outs[t] && Agree(p.table, r.table, Locks(x))
    case _ => s.threads[t].out == r.outs[t]
  }

  ghost predicate TableAgrees(s: State, r: Serial) {
    forall b | 0 <= b < TABLE_SIZE && Settled(s, b) :: s.table[b] == r.table[b]
  }

  ghost predicate Agrees(s: State, r: Serial) {
    && |s.threads| == |r.outs|
    && TableAgrees(s, r)
    && forall t | 0 <= t < |s.threads| :: ThreadAgrees(s, t, r)
  }

  // ---- one action ----

  lemma ActKeepsOthers(s: State, t: nat, r: Serial, u: nat)
    requires LockInv(s) && Agrees(s, r)
    requires t < |s.threads| && CanMove(s, s.threads[t], Perform)
    requires u < |s.threads| && u != t
    ensures ThreadAgrees(DoPerform(s, t), u, r)
  {
    var s' := DoPerform(s, t);
    var x := s.threads[t].phase.cmd;
    assert ThreadAgrees(s, u, r) && s'.threads[u] == s.threads[u];
    if s.threads[u].phase.Acting? {
      var Acting(y, i, flag) := s.threads[u].phase;
      forall b | b in Locks(y) && b < TABLE_SIZE ensures s.table[b] == s'.table[b] {
        ActChangesOwnBuckets(s, t, b);
        if b in Locks(x) {
          HoldersShare(s, b, t, u);
        }
      }
      SameOutcome(y, i, flag, s.table, s'.table, s.threads[u].out);
    }
  }

  lemma ActChangesOwnBuckets(s: State, t: nat, b: nat)
    requires t < |s.threads| && CanMove(s, s.threads[t], Perform) && b < TABLE_SIZE
    ensures DoPerform(s, t).table[b] == s.table[b] ||
            (b in Locks(s.threads[t].phase.cmd) && ModeOf(s.threads[t].phase.cmd) == Exclusive)
  {
    var x, i := s.threads[t].phase.cmd, s.threads[t].phase.done;
    ActsWithinLocks(x);
    assert Acts(x)[i] in Acts(x);
    assert Touches(Acts(x)[i], b) ==> b in Locks(x);
  }

  lemma SameOutcome(x: Command, i: nat, flag: bool, table: Table, table': Table, out: string)
    requires i <= |Acts(x)| && Agree(table, table', Locks(x))
    ensures var p, q := Outcome(x, i, flag, table, out), Outcome(x, i, flag, table', out);
            p.out == q.out && Agree(p.table, q.table, Locks(x))
  {
    ActsWithinLocks(x);
    assert Within(Acts(x)[i..], Locks(x)) by {
      forall j, b: nat | 0 <= j < |Acts(x)[i..]| && Touches(Acts(x)[i..][j], b) ensures b in Locks(x) {
        assert Acts(x)[i..][j] == Acts(x)[i + j];
      }
    }
    Locality(Acts(x)[i..], Locks(x), Progress(table, out, flag), Progress(table', out, flag));
  }

  lemma ActKeepsOwn(s: State, t: nat, r: Serial)
    requires LockInv(s) && Agrees(s, r)
    requires t < |s.threads| && CanMove(s, s.threads[t], Perform)
    ensures ThreadAgrees(DoPerform(s, t), t, r)
    ensures DoPerform(s, t).threads[t].phase.Unlocking? ==>
              Agree(DoPerform(s, t).table, r.table, Locks(s.threads[t].phase.cmd))
  {
    var Acting(x, i, flag) := s.threads[t].phase;
    var s', p := DoPerform(s, t), DoAct(Acts(x)[i], Progress(s.table, s.threads[t].out, flag));
    assert ThreadAgrees(s, t, r);
    NextOutcome(x, i, flag, s.table, s.threads[t].out);
    assert s'.table == p.table && s'.threads[t].out == p.out;
    if i + 1 < |Acts(x)| {
      assert s'.threads[t].phase == Acting(x, i + 1, p.flag);
    } else {
      assert s'.threads[t].phase == Unlocking(x, 0);
    }
  }

  /** The next action does not change what the outcome will be. */
  lemma NextOutcome(x: Command, i: nat, flag: bool, table: Table, out: string)
    requires i < |Acts(x)|
    ensures var p := DoAct(Acts(x)[i], Progress(table, out, flag));
            && Outcome(x, i, flag, table, out) == Outcome(x, i + 1, p.flag, p.table, p.out)
            && (i + 1 == |Acts(x)| ==> Outcome(x, i, flag, table, out) == p)
  {
    assert Acts(x)[i..][1..] == Acts(x)[i + 1..];
    var p := DoAct(Acts(x)[i], Progress(table, out, flag));
    assert p == Progress(p.table, p.out, p.flag);
  }

  lemma SettledBefore(s: State, t: nat, b: nat)
    requires t < |s.threads| && CanMove(s, s.threads[t], Perform) && b < TABLE_SIZE
    requires Settled(DoPerform(s, t), b)
    requires !(b in Locks(s.threads[t].phase.cmd) && ModeOf(s.threads[t].phase.cmd) == Exclusive)
    ensures Settled(s, b)
  {
    forall u: nat ensures !Writing(s, b, u) {
      assert !Writing(DoPerform(s, t), b, u);
    }
  }

  lemma ActKeepsTable(s: State, t: nat, r: Serial)
    requires LockInv(s) && Agrees(s, r)
    requires t < |s.threads| && CanMove(s, s.threads[t], Perform)
    ensures TableAgrees(DoPerform(s, t), r)
  {
    var s' := DoPerform(s, t);
    var x := s.threads[t].phase.cmd;
    ActKeepsOwn(s, t, r);
    forall b | 0 <= b < TABLE_SIZE && Settled(s', b) ensures s'.table[b] == r.table[b] {
      ActChangesOwnBuckets(s, t, b);
      assert !Writing(s', b, t);
      if !(b in Locks(x) && ModeOf(x) == Exclusive) {
        SettledBefore(s, t, b);
      }
    }
  }

  lemma PerformAgrees(s: State, t: nat, r: Serial)
    requires LockInv(s) && Agrees(s, r)
    requires t < |s.threads| && CanMove(s, s.threads[t], Perform)
    ensures Agrees(DoPerform(s, t), r)
  {
    ActKeepsTable(s, t, r);
    forall u | 0 <= u < |s.threads| ensures ThreadAgrees(DoPerform(s, t), u, r) {
      if u == t {
        ActKeepsOwn(s, t, r);
      } else {
        ActKeepsOthers(s, t, r, u);
      }
    }
  }

  // ---- the commit point ----

  ghost predicate Commits(s: State, t: nat) {
    t < |s.threads| && CanMove(s, s.threads[t], Acquire) &&
    s.threads[t].phase.acquired + 1 == |Locks(s.threads[t].phase.cmd)|
  }

  /** At its commit point nobody is writing a bucket the thread has locked. */
  lemma LockedIsSettled(s: State, t: nat, b: nat)
    requires LockInv(s) && t < |s.threads| && s.threads[t].phase.Acting?
    requires b in Locks(s.threads[t].phase.cmd)
    ensures forall u: nat | u != t :: !Writing(s, b, u)
  {
    forall u: nat | u != t ensures !Writing(s, b, u) {
      if Writing(s, b, u) {
        HoldersShare(s, b, t, u);
      }
    }
  }

  lemma CommitChangesOwnBuckets(r: Serial, c: Commit, b: nat)
    requires b < TABLE_SIZE
    ensures RunCommand(r, c).table[b] == r.table[b] ||
            (b in Locks(c.cmd) && ModeOf(c.cmd) == Exclusive)
  {
    ActsWithinLocks(c.cmd);
    if c.thread < |r.outs| && !(b in Locks(c.cmd) && ModeOf(c.cmd) == Exclusive) {
      forall a | a in Acts(c.cmd) && Writes(a) ensures !Touches(a, b) {
        var i :| 0 <= i < |Acts(c.cmd)| && Acts(c.cmd)[i] == a;
      }
      Untouched(Acts(c.cmd), Progress(r.table, r.outs[c.thread], false), b);
    }
  }

  lemma CommitAgrees(s: State, t: nat, r: Serial)
    requires LockInv(s) && Agrees(s, r) && Commits(s, t)
    ensures Agrees(DoAcquire(s, t), RunCommand(r, Commit(t, s.threads[t].phase.cmd)))
  {
    var s' := DoAcquire(s, t);
    var x := s.threads[t].phase.cmd;
    var r' := RunCommand(r, Commit(t, x));
    StepLocks(s, Step.Thread(t, Acquire));
    forall b: nat, u: nat | u != t ensures Writing(s', b, u) == Writing(s, b, u) {}
    forall b | 0 <= b < TABLE_SIZE && Settled(s', b) ensures s'.table[b] == r'.table[b] {
      assert !Writing(s', b, t);
      assert Settled(s, b);
      CommitChangesOwnBuckets(r, Commit(t, x), b);
    }
    forall u | 0 <= u < |s'.threads| ensures ThreadAgrees(s', u, r') {
      if u == t {
        CommitStartsAgreeing(s, t, r);
      } else {
        CommitKeepsOthers(s, t, r, u);
      }
    }
  }

  lemma CommitStartsAgreeing(s: State, t: nat, r: Serial)
    requires LockInv(s) && Agrees(s, r) && Commits(s, t)
    ensures ThreadAgrees(DoAcquire(s, t), t, RunCommand(r, Commit(t, s.threads[t].phase.cmd)))
  {
    var s' := DoAcquire(s, t);
    var x := s.threads[t].phase.cmd;
    StepLocks(s, Step.Thread(t, Acquire));
    ActsWithinLocks(x);
    assert ThreadOk(s.threads[t]) && ThreadAgrees(s, t, r);
    forall b | b in Locks(x) && b < TABLE_SIZE ensures s.table[b] == r.table[b] {
      LockedIsSettled(s', t, b);
      assert forall u: nat :: Writing(s, b, u) ==> Writing(s', b, u) && u != t;
      assert Settled(s, b);
    }
    assert Acts(x)[0..] == Acts(x);
    SameOutcome(x, 0, false, s.table, r.table, s.threads[t].out);
  }

  lemma CommitKeepsOthers(s: State, t: nat, r: Serial, u: nat)
    requires LockInv(s) && Agrees(s, r) && Commits(s, t) && u < |s.threads| && u != t
    ensures ThreadAgrees(DoAcquire(s, t), u, RunCommand(r, Commit(t, s.threads[t].phase.cmd)))
  {
    var s' := DoAcquire(s, t);
    var x := s.threads[t].phase.cmd;
    var r' := RunCommand(r, Commit(t, x));
    StepLocks(s, Step.Thread(t, Acquire));
    assert ThreadAgrees(s, u, r) && s'.threads[u] == s.threads[u];
    if s.threads[u].phase.Acting? {
      var y := s.threads[u].phase.cmd;
      forall b | b in Locks(y) && b < TABLE_SIZE ensures r'.table[b] == r.table[b] {
        CommitChangesOwnBuckets(r, Commit(t, x), b);
        if b in Locks(x) {
          HoldersShare(s', b, t, u);
        }
      }
    }
  }

  // ---- WAIT ----

  lemma PauseRuns(delay: nat, p: Progress)
    ensures RunActs(Acts(Wait(delay)), p) == p.(out := p.out + if delay > 0 then WAITING else "")
  {
    var acts := Acts(Wait(delay));
    if delay > 0 {
      assert acts[1..] == [];
      assert RunActs(acts[1..], DoAct(acts[0], p)) == DoAct(acts[0], p);
    } else {
      assert p.out + "" == p.out;
    }
  }

  lemma PauseAgrees(s: State, t: nat, r: Serial)
    requires Agrees(s, r) && t < |s.threads| && CanMove(s, s.threads[t], Pause)
    ensures Agrees(DoPause(s, t), RunCommand(r, Commit(t, s.threads[t].todo[0])))
  {
    var s', r' := DoPause(s, t), RunCommand(r, Commit(t, s.threads[t].todo[0]));
    PauseRuns(s.threads[t].todo[0].delay, Progress(r.table, r.outs[t], false));
    forall b | 0 <= b < TABLE_SIZE && Settled(s', b) ensures s'.table[b] == r'.table[b] {
      forall u: nat ensures !Writing(s, b, u) {
        assert !Writing(s', b, u);
      }
      assert Settled(s, b);
    }
    forall u | 0 <= u < |s.threads| ensures ThreadAgrees(s', u, r') {
      assert ThreadAgrees(s, u, r);
    }
  }

  // ---- every other step ----

  /** Nobody writes, and nobody starts or stops acting. */
  ghost predicate Quiet(s: State, s': State) {
    && s'.table == s.table && |s'.threads| == |s.threads|
    && forall t | 0 <= t < |s.threads| ::
         s'.threads[t].out == s.threads[t].out &&
         (s'.threads[t].phase == s.threads[t].phase ||
          (!s'.threads[t].phase.Acting? && !s.threads[t].phase.Acting?))
  }

  lemma QuietAgrees(s: State, s': State, r: Serial)
    requires Agrees(s, r) && Quiet(s, s')
    ensures Agrees(s', r)
  {
    forall b | 0 <= b < TABLE_SIZE && Settled(s', b) ensures s'.table[b] == r.table[b] {
      forall t: nat ensures !Writing(s, b, t) {
        assert !Writing(s', b, t);
      }
      assert Settled(s, b);
    }
    forall t | 0 <= t < |s.threads| ensures ThreadAgrees(s', t, r) {
      assert ThreadAgrees(s, t, r);
    }
  }

  lemma OtherStepsAreQuiet(s: State, l: Step)
    requires LockInv(s) && Enabled(s, l)
    requires l.Thread? ==> !l.move.Perform? && !l.move.Pause? && (l.move.Acquire? ==> !Commits(s, l.t))
    ensures Quiet(s, Do(s, l))
    ensures Do(s, l).log == s.log + if l.Thread? && l.move.Fork? then [Commit(l.t, Backup)] else []
  {
    if l.Thread? {
      OtherMovesAreQuiet(s, l.t, l.move);
    }
  }

  lemma OtherMovesAreQuiet(s: State, t: nat, m: Move)
    requires LockInv(s) && t < |s.threads| && CanMove(s, s.threads[t], m)
    requires !m.Perform? && !m.Pause? && (m.Acquire? ==> !Commits(s, t))
    ensures Quiet(s, Do(s, Step.Thread(t, m)))
    ensures Do(s, Step.Thread(t, m)).log == s.log + if m.Fork? then [Commit(t, Backup)] else []
  {
    assert ThreadOk(s.threads[t]);
  }

  /** The serial run of the log follows every step. */
  lemma StepAgrees(sys: System, s: State, l: Step)
    requires LockInv(s) && Enabled(s, l) && Agrees(s, SerialResult(sys, s.log))
    ensures Agrees(Do(s, l), SerialResult(sys, Do(s, l).log))
  {
    var r := SerialResult(sys, s.log);
    if l.Thread? && l.move.Perform? {
      PerformAgrees(s, l.t, r);
    } else if l.Thread? && l.move.Acquire? && Commits(s, l.t) {
      CommitAgrees(s, l.t, r);
      SerialSnoc(sys, s.log, Commit(l.t, s.threads[l.t].phase.cmd));
    } else if l.Thread? && l.move.Pause? {
      PauseAgrees(s, l.t, r);
      SerialSnoc(sys, s.log, Commit(l.t, s.threads[l.t].todo[0]));
    } else {
      QuietStepAgrees(sys, s, l);
    }
  }

  lemma QuietStepAgrees(sys: System, s: State, l: Step)
    requires LockInv(s) && Enabled(s, l) && Agrees(s, SerialResult(sys, s.log))
    requires l.Thread? ==> !l.move.Perform? && !l.move.Pause? && (l.move.Acquire? ==> !Commits(s, l.t))
    ensures Agrees(Do(s, l), SerialResult(sys, Do(s, l).log))
  {
    OtherStepsAreQuiet(s, l);
    QuietAgrees(s, Do(s, l), SerialResult(sys, s.log));
    if l.Thread? && l.move.Fork? {
      BackupChangesNothing(sys, s.log, l.t);
    } else {
      NothingAfter(s.log);
    }
  }

  lemma BackupChangesNothing(sys: System, log: seq<Commit>, t: nat)
    ensures SerialResult(sys, log + [Commit(t, Backup)]) == SerialResult(sys, log)
  {
    var r := SerialResult(sys, log);
    SerialSnoc(sys, log, Commit(t, Backup));
    assert RunCommand(r, Commit(t, Backup)) == r;
  }

  // ---- backups ----

  /** A backup process holds, and prints, the table after a prefix of the log. */
  ghost predicate ChildOk(sys: System, log: seq<Commit>, c: Child) {
    && c.at < |log| && log[c.at].cmd == Backup
    && c.table == SerialResult(sys, log[..c.at]).table
    && c.next <= TABLE_SIZE
    && c.out == BackupText(c.table, c.next)
    && (c.status != Running ==> c.next == TABLE_SIZE)
  }

  ghost predicate ChildrenOk(sys: System, s: State) {
    forall c | 0 <= c < |s.children| :: ChildOk(sys, s.log, s.children[c])
  }

  /** While a thread holds the global lock exclusively, the table is serial. */
  lemma ForkSeesSerialTable(s: State, t: nat, r: Serial)
    requires LockInv(s) && Agrees(s, r) && BackupWriter(s, t)
    ensures s.table == r.table
  {
    assert s.global.readers == {};
    forall b | 0 <= b < TABLE_SIZE ensures s.table[b] == r.table[b] {
      forall u: nat ensures !Writing(s, b, u) {
        assert !CommandReader(s, u);
      }
      assert Settled(s, b);
    }
  }

  /** The log only grows; a child is only ever forked, moved on by one of its own
      steps, or reaped when it has exited. */
  lemma ChildSteps(s: State, l: Step)
    requires Enabled(s, l)
    ensures s.log <= Do(s, l).log
    ensures |s.children| <= |Do(s, l).children|
    ensures |Do(s, l).children| > |s.children| ==>
              l.Thread? && l.move.Fork? &&
              Do(s, l).children == s.children + [Child(s.table, 0, "", Running, |s.log|)]
    ensures forall c | 0 <= c < |s.children| :: ChildMoves(s.children[c], Do(s, l).children[c])
  {
  }

  ghost predicate ChildMoves(c: Child, c': Child) {
    || c' == c
    || (c.status == Exited && c' == c.(status := Reaped))
    || (c.status == Running && c.next >= TABLE_SIZE && c' == c.(status := Exited))
    || (c.status == Running && c.next < TABLE_SIZE &&
        c' == c.(next := c.next + 1, out := c.out + BackupChain(c.table[c.next])))
  }

  lemma ChildMoveOk(sys: System, log: seq<Commit>, log': seq<Commit>, c: Child, c': Child)
    requires ChildOk(sys, log, c) && log <= log' && ChildMoves(c, c')
    ensures ChildOk(sys, log', c')
  {
    assert log'[..c.at] == log[..c.at] && log'[c.at] == log[c.at];
    OneMoreBucket(c.table, c.next);
  }

  lemma OneMoreBucket(t: Table, n: nat)
    requires n <= TABLE_SIZE
    ensures n < TABLE_SIZE ==> BackupText(t, n + 1) == BackupText(t, n) + BackupChain(t[n])
  {
  }

  lemma StepChildren(sys: System, s: State, l: Step)
    requires LockInv(s) && Enabled(s, l) && Agrees(s, SerialResult(sys, s.log)) && ChildrenOk(sys, s)
    ensures ChildrenOk(sys, Do(s, l))
  {
    ChildSteps(s, l);
    var cs, log' := Do(s, l).children, Do(s, l).log;
    forall c | 0 <= c < |cs| ensures ChildOk(sys, log', cs[c]) {
      if c < |s.children| {
        assert ChildOk(sys, s.log, s.children[c]);
        ChildMoveOk(sys, s.log, log', s.children[c], cs[c]);
      } else {
        ForkedOk(sys, s, l);
      }
    }
  }

  lemma ForkedOk(sys: System, s: State, l: Step)
    requires LockInv(s) && Enabled(s, l) && Agrees(s, SerialResult(sys, s.log)) && l.Thread? && l.move.Fork?
    ensures ChildOk(sys, Do(s, l).log, Child(s.table, 0, "", Running, |s.log|))
  {
    ForkSeesSerialTable(s, l.t, SerialResult(sys, s.log));
    var log' := s.log + [Commit(l.t, Backup)];
    assert Do(s, l).log == log' && log'[..|s.log|] == s.log;
  }
}
