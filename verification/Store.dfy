/** The server's job threads over one table: the global lock, the bucket locks,
    the commands step by step, fork, backup children and the backup counter
    (main.c, process_thread; operations.c). */
module Store {
  import opened Text
  import opened Tables
  import opened Batches

  // ---- state ----

  /** A pthread read-write lock, as the threads that hold it. */
  datatype RwLock = RwLock(readers: set<nat>, writer: Option<nat>) {
    predicate Admits(mode: Mode) {
      writer == None && (mode == Exclusive ==> readers == {})
    }

    function Take(t: nat, mode: Mode): RwLock {
      if mode == Shared then this.(readers := readers + {t}) else this.(writer := Some(t))
    }

    function Leave(t: nat): RwLock {
      RwLock(readers - {t}, if writer == Some(t) then None else writer)
    }
  }

  const Unheld := RwLock({}, None)

  type LockTable = l: seq<RwLock> | |l| == TABLE_SIZE witness seq(TABLE_SIZE, _ => Unheld)

  /** Where a thread is. In the command phases cmd is the command as sorted;
      Pending to Forked are the steps of BACKUP after its counter section. */
  datatype Phase =
    | Idle
    | Locking(cmd: Command, acquired: nat)
    | Acting(cmd: Command, done: nat, flag: bool)
    | Unlocking(cmd: Command, bucket: nat)
    | Pending
    | Forking
    | Forked

  datatype Thread = Job(todo: seq<Command>, phase: Phase, out: string)

  datatype Status = Running | Exited | Reaped

  /** A backup process: its copy of the table, the next bucket it prints, its
      file, and how many commands had been committed when it was forked. */
  datatype Child = Child(table: Table, next: nat, out: string, status: Status, at: nat)

  /** A command at its commit point, when it has just taken its last lock. */
  datatype Commit = Commit(thread: nat, cmd: Command)

  datatype State = State(
    table: Table,
    locks: LockTable,
    global: RwLock,
    threads: seq<Thread>,
    counter: nat,
    children: seq<Child>,
    log: seq<Commit>)

  /** The table at the start, each thread's commands, and the backup limit. */
  datatype System = System(table: Table, programs: seq<seq<Command>>, limit: nat) {
    ghost predicate Ok() {
      forall t, i | 0 <= t < |programs| && 0 <= i < |programs[t]| :: CommandOk(programs[t][i])
    }
  }

  function Start(sys: System): State {
    State(
      sys.table,
      seq(TABLE_SIZE, _ => Unheld),
      Unheld,
      seq(|sys.programs|, t requires 0 <= t < |sys.programs| => Job(sys.programs[t], Idle, "")),
      sys.limit,
      [],
      [])
  }

  // ---- steps ----

  /** One step of a job thread. */
  datatype Move =
    | Begin(cmd: Command)
    | Acquire
    | Perform
    | Release
    | End
    | Pause
    | TakeSlot
    | Reap(child: nat)
    | LockAll
    | Fork
    | UnlockAll

  datatype Step =
    | Thread(t: nat, move: Move)
    | ChildPrint(child: nat)
    | ChildExit(child: nat)

  /** The thread is about to carry out the next command of its job. */
  predicate Starts(th: Thread) { th.phase == Idle && th.todo != [] }

  predicate Waits(th: Thread) {
    th.phase.Locking? && th.phase.acquired < |Locks(th.phase.cmd)|
  }

  /** The bucket a locking thread takes next. */
  function NextLock(th: Thread): (b: nat)
    requires Waits(th)
    ensures b < TABLE_SIZE
  {
    Locks(th.phase.cmd)[th.phase.acquired]
  }

  ghost predicate CanMove(s: State, th: Thread, m: Move) {
    match m
    case Begin(x) =>
      Starts(th) && TakesLocks(th.todo[0]) && Instance(th.todo[0], x) && s.global.Admits(Shared)
    case Acquire => Waits(th) && s.locks[NextLock(th)].Admits(ModeOf(th.phase.cmd))
    case Perform => th.phase.Acting? && th.phase.done < |Acts(th.phase.cmd)|
    case Release => th.phase.Unlocking? && th.phase.bucket < TABLE_SIZE
    case End => th.phase.Unlocking? && th.phase.bucket >= TABLE_SIZE
    case Pause => Starts(th) && th.todo[0].Wait?
    case TakeSlot => Starts(th) && th.todo[0].Backup? && s.counter > 0
    case Reap(c) =>
      Starts(th) && th.todo[0].Backup? && s.counter == 0 && c < |s.children| && s.children[c].status == Exited
    case LockAll => th.phase == Pending && s.global.Admits(Exclusive)
    case Fork => th.phase == Forking
    case UnlockAll => th.phase == Forked
  }

  ghost predicate Enabled(s: State, l: Step) {
    match l
    case Thread(t, m) => t < |s.threads| && CanMove(s, s.threads[t], m)
    case ChildPrint(c) =>
      c < |s.children| && s.children[c].status == Running && s.children[c].next < TABLE_SIZE
    case ChildExit(c) =>
      c < |s.children| && s.children[c].status == Running && s.children[c].next >= TABLE_SIZE
  }

  function SetPhase(s: State, t: nat, p: Phase): State
    requires t < |s.threads|
  {
    s.(threads := s.threads[t := s.threads[t].(phase := p)])
  }

  /** Thread t goes on to the next command of its job, at phase p. */
  function NextCommand(s: State, t: nat, p: Phase): State
    requires t < |s.threads| && s.threads[t].todo != []
  {
    s.(threads := s.threads[t := s.threads[t].(todo := s.threads[t].todo[1..], phase := p)])
  }

  /** WAIT writes to the job's file and sleeps; it takes no lock. */
  function DoPause(s: State, t: nat): State
    requires t < |s.threads| && Starts(s.threads[t]) && s.threads[t].todo[0].Wait?
  {
    var th := s.threads[t];
    var x := th.todo[0];
    var text := if x.delay > 0 then WAITING else "";
    s.(threads := s.threads[t := Job(th.todo[1..], Idle, th.out + text)], log := s.log + [Commit(t, x)])
  }

  ghost function DoAcquire(s: State, t: nat): State
    requires t < |s.threads| && Waits(s.threads[t])
  {
    var Locking(x, i) := s.threads[t].phase;
    var b := Locks(x)[i];
    var s1 := s.(locks := s.locks[b := s.locks[b].Take(t, ModeOf(x))]);
    if i + 1 < |Locks(x)| then SetPhase(s1, t, Locking(x, i + 1))
    else SetPhase(s1, t, Acting(x, 0, false)).(log := s.log + [Commit(t, x)])
  }

  ghost function DoPerform(s: State, t: nat): State
    requires t < |s.threads| && CanMove(s, s.threads[t], Perform)
  {
    var Acting(x, i, flag) := s.threads[t].phase;
    var p := DoAct(Acts(x)[i], Progress(s.table, s.threads[t].out, flag));
    var next := if i + 1 < |Acts(x)| then Acting(x, i + 1, p.flag) else Unlocking(x, 0);
    s.(table := p.table, threads := s.threads[t := s.threads[t].(out := p.out, phase := next)])
  }

  ghost function DoRelease(s: State, t: nat): State
    requires t < |s.threads| && CanMove(s, s.threads[t], Release)
  {
    var Unlocking(x, b) := s.threads[t].phase;
    SetPhase(s, t, Unlocking(x, b + 1))
    .(locks := if b in Locks(x) then s.locks[b := s.locks[b].Leave(t)] else s.locks)
  }

  ghost function Do(s: State, l: Step): State
    requires Enabled(s, l)
  {
    match l
    case Thread(t, Begin(x)) =>
      NextCommand(s, t, Locking(x, 0)).(global := s.global.Take(t, Shared))
    case Thread(t, Acquire) => DoAcquire(s, t)
    case Thread(t, Perform) => DoPerform(s, t)
    case Thread(t, Release) => DoRelease(s, t)
    case Thread(t, End) => SetPhase(s, t, Idle).(global := s.global.Leave(t))
    case Thread(t, Pause) => DoPause(s, t)
    case Thread(t, TakeSlot) => NextCommand(s, t, Pending).(counter := s.counter - 1)
    case Thread(t, Reap(c)) =>
      NextCommand(s, t, Pending).(children := s.children[c := s.children[c].(status := Reaped)])
    case Thread(t, LockAll) => SetPhase(s, t, Forking).(global := s.global.Take(t, Exclusive))
    case Thread(t, Fork) =>
      SetPhase(s, t, Forked)
      .(children := s.children + [Child(s.table, 0, "", Running, |s.log|)],
        log := s.log + [Commit(t, Backup)])
    case Thread(t, UnlockAll) => SetPhase(s, t, Idle).(global := s.global.Leave(t))
    case ChildPrint(c) =>
      var ch := s.children[c];
      s.(children := s.children[c := ch.(next := ch.next + 1, out := ch.out + BackupChain(ch.table[ch.next]))])
    case ChildExit(c) => s.(children := s.children[c := s.children[c].(status := Exited)])
  }

  /** A run: a list of steps, each enabled where it is taken. */
  ghost predicate IsRun(s: State, ls: seq<Step>)
    decreases |ls|
  {
    ls == [] || (Enabled(s, ls[0]) && IsRun(Do(s, ls[0]), ls[1..]))
  }

  ghost function After(s: State, ls: seq<Step>): State
    requires IsRun(s, ls)
    decreases |ls|
  {
    if ls == [] then s else After(Do(s, ls[0]), ls[1..])
  }

  lemma {:induction false} RunsCompose(s: State, a: seq<Step>, b: seq<Step>)
    requires IsRun(s, a) && IsRun(After(s, a), b)
    ensures IsRun(s, a + b) && After(s, a + b) == After(After(s, a), b)
    decreases |a|
  {
    if a == [] {
      assert a + b == b;
    } else {
      assert (a + b)[1..] == a[1..] + b;
      RunsCompose(Do(s, a[0]), a[1..], b);
    }
  }

  // ---- the serial reference: one command at a time ----

  /** The table and every thread's output file. */
  datatype Serial = Serial(table: Table, outs: seq<string>)

  function RunCommand(r: Serial, c: Commit): Serial {
    if c.thread >= |r.outs| then r else
    var p := RunActs(Acts(c.cmd), Progress(r.table, r.outs[c.thread], false));
    Serial(p.table, r.outs[c.thread := p.out])
  }

  function RunSerially(r: Serial, log: seq<Commit>): (r': Serial)
    ensures |r'.outs| == |r.outs|
  {
    if log == [] then r else RunCommand(RunSerially(r, log[..|log| - 1]), log[|log| - 1])
  }

  function SerialStart(sys: System): Serial {
    Serial(sys.table, seq(|sys.programs|, _ => ""))
  }

  function SerialResult(sys: System, log: seq<Commit>): Serial {
    RunSerially(SerialStart(sys), log)
  }

  lemma SerialSnoc(sys: System, log: seq<Commit>, c: Commit)
    ensures SerialResult(sys, log + [c]) == RunCommand(SerialResult(sys, log), c)
  {
    assert (log + [c])[..|log|] == log;
  }
}
