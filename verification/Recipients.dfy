/** Who is still owed a notification: only clients in session that have the key on
    their own list. So a pipe is never left, or handed on, with half a message due. */
module Recipients {
  import opened Text
  import opened Tables
  import opened Delivery
  import opened WholeMessages
  import B = Batches
  import J = Store
  import L = Locking
  import S = Subscriptions

  /** Whoever thread t has still to write to is a client with the key on its list. */
  ghost predicate BoxGood(s: State, t: nat)
    requires t < |s.boxes|
  {
    forall fd: int | TextsTo(s.boxes[t].blocks, fd) != [] ::
      s.boxes[t].about.Some? && S.Answered(ServerOf(s), s.boxes[t].about.value, fd)
  }

  ghost predicate Good(s: State) {
    Inv(s) && S.Ok(ServerOf(s)) && forall t | 0 <= t < |s.boxes| :: BoxGood(s, t)
  }

  lemma StartGood(sys: J.System, slots: S.Slots)
    requires sys.Ok() && S.Ok(ServerOf(Start(sys, slots)))
    ensures Good(Start(sys, slots))
  {
    StartInv(sys, slots);
  }

  lemma StepOk(s: State, l: Step)
    requires S.Ok(ServerOf(s)) && Enabled(s, l)
    ensures S.Ok(ServerOf(Do(s, l)))
  {
    StepIsCall(s, l);
    if CallsOfStep(s, l) != [] {
      S.StepOk(ServerOf(s), CallsOfStep(s, l)[0]);
    }
  }

  lemma JobGood(s: State, j: J.Step, t: nat)
    requires Good(s) && Enabled(s, Job(j)) && t < |s.boxes|
    ensures BoxGood(DoJob(s, j), t)
  {
    var s', acts := DoJob(s, j), ActOf(s.jobs, j);
    assert BoxGood(s, t);
    if acts != [] && t == j.t {
      forall fd: int | TextsTo(s'.boxes[t].blocks, fd) != []
        ensures S.Answered(ServerOf(s'), s'.boxes[t].about.value, fd)
      {
        ToldIsListed(acts[0], s.jobs.table, fd);
        assert S.KeyOk(ServerOf(s), acts[0].key);
        SameSlots(s, s', acts[0].key, fd);
      }
    } else {
      forall fd: int | TextsTo(s'.boxes[t].blocks, fd) != []
        ensures S.Answered(ServerOf(s'), s'.boxes[t].about.value, fd)
      {
        SameSlots(s, s', s.boxes[t].about.value, fd);
      }
    }
  }

  lemma SameSlots(s: State, s': State, key: Key, fd: int)
    requires s'.slots == s.slots && S.Answered(ServerOf(s), key, fd)
    ensures S.Answered(ServerOf(s'), key, fd)
  {
    var i :| 0 <= i < |s.slots| && S.Answers(s.slots[i], key, fd);
    assert S.Answers(s'.slots[i], key, fd);
  }

  lemma SendGood(s: State, t: nat, u: nat)
    requires Good(s) && t < |s.boxes| && s.boxes[t].blocks != [] && u < |s.boxes|
    ensures BoxGood(DoSend(s, t), u)
  {
    var s', blocks := DoSend(s, t), s.boxes[t].blocks;
    assert BoxGood(s, u);
    forall fd: int | TextsTo(s'.boxes[u].blocks, fd) != []
      ensures s'.boxes[u].about.Some? && S.Answered(ServerOf(s'), s'.boxes[u].about.value, fd)
    {
      assert TextsTo(s.boxes[u].blocks, fd) != [];
      SameSlots(s, s', s.boxes[u].about.value, fd);
    }
  }

  /** A thread with something to write has the lock of the key's bucket. */
  lemma OwingLocks(s: State, t: nat)
    requires Inv(s) && t < |s.boxes| && s.boxes[t].blocks != []
    ensures s.boxes[t].about.Some? && !LockFree(s.jobs, s.boxes[t].about.value)
  {
    assert BoxOk(s, t);
    assert L.BucketLockOk(s.jobs, Bucket(s.boxes[t].about.value));
  }

  /** What clients ask for leaves those alone who are owed a message. */
  lemma AskAnswered(s: State, c: S.Call, key: Key, fd: int)
    requires S.Ok(ServerOf(s)) && CanAsk(s, c) && !LockFree(s.jobs, key) && S.Answered(ServerOf(s), key, fd)
    ensures S.Answered(ServerOf(DoAsk(s, c)), key, fd)
  {
    var slots' := DoAsk(s, c).slots;
    var x :| 0 <= x < |s.slots| && S.Answers(s.slots[x], key, fd);
    match c
    case Connect(a, b, n) =>
      S.NoSlotOfUnused(s.slots, S.Client(a, b, n, []));
      assert slots'[x] == s.slots[x];
    case Subscribe(i, name) => assert S.Answers(slots'[x], key, fd);
    case Unsubscribe(i, name) => assert S.Answers(slots'[x], key, fd);
    case Disconnect(i) =>
      S.DisconnectOk(ServerOf(s), i);
      assert slots'[x] == s.slots[x];
    case CleanAll =>
  }

  lemma AskGood(s: State, c: S.Call, t: nat)
    requires Good(s) && CanAsk(s, c) && t < |s.boxes|
    ensures BoxGood(DoAsk(s, c), t)
  {
    assert BoxGood(s, t);
    forall fd: int | TextsTo(s.boxes[t].blocks, fd) != []
      ensures S.Answered(ServerOf(DoAsk(s, c)), s.boxes[t].about.value, fd)
    {
      OwingLocks(s, t);
      AskAnswered(s, c, s.boxes[t].about.value, fd);
    }
  }

  lemma StepGood(s: State, l: Step)
    requires Good(s) && Enabled(s, l)
    ensures Good(Do(s, l))
  {
    StepInv(s, l);
    StepOk(s, l);
    forall t | 0 <= t < |s.boxes| ensures BoxGood(Do(s, l), t) {
      match l
      case Job(j) => JobGood(s, j, t);
      case Send(u) => SendGood(s, u, t);
      case Ask(c) => AskGood(s, c, t);
    }
  }

  lemma {:induction false} RunGood(s: State, ls: seq<Step>)
    requires Good(s) && IsRun(s, ls)
    ensures Good(After(s, ls))
    decreases |ls|
  {
    if ls != [] {
      StepGood(s, ls[0]);
      RunGood(Do(s, ls[0]), ls[1..]);
    }
  }

  // ---- the ends of a pipe ----

  /** A client that can leave is owed nothing: whoever has a message for it has the
      lock of a key on its list. */
  lemma LeavingIsOwedNothing(s: State, i: nat)
    requires Good(s) && CanAsk(s, S.Disconnect(i))
    ensures OwesNothing(s, s.slots[i].value.fdNotif)
  {
    var fd := s.slots[i].value.fdNotif;
    forall t | 0 <= t < |s.boxes| ensures TextsTo(s.boxes[t].blocks, fd) == [] {
      assert BoxGood(s, t);
      if TextsTo(s.boxes[t].blocks, fd) != [] {
        var key := s.boxes[t].about.value;
        var x :| 0 <= x < |s.slots| && S.Answers(s.slots[x], key, fd);
        S.OneAnswers(s.slots, x, i, key, fd);
        OwingLocks(s, t);
      }
    }
  }

  lemma CleanUpOwesNothing(s: State, fd: int)
    requires Good(s) && CanAsk(s, S.CleanAll)
    ensures OwesNothing(s, fd)
  {
    forall t | 0 <= t < |s.boxes| ensures TextsTo(s.boxes[t].blocks, fd) == [] {
      assert BoxGood(s, t);
      if TextsTo(s.boxes[t].blocks, fd) != [] {
        var x :| 0 <= x < |s.slots| && S.Answers(s.slots[x], s.boxes[t].about.value, fd);
        OwingLocks(s, t);
      }
    }
  }

  /** A descriptor that no client has is owed nothing. */
  lemma UnusedIsOwedNothing(s: State, fd: int)
    requires Good(s) && S.Unused(s.slots, fd)
    ensures OwesNothing(s, fd)
  {
    forall t | 0 <= t < |s.boxes| ensures TextsTo(s.boxes[t].blocks, fd) == [] {
      assert BoxGood(s, t);
      forall x | 0 <= x < |s.slots| ensures forall key :: !S.Answers(s.slots[x], key, fd) {
        assert !S.Uses(s.slots[x], fd);
      }
    }
  }

  /** Pipes begin and end between messages. In any run, when a client leaves, or is
      thrown out, no thread has anything left to write to its pipe; nor to the pipe of
      a client that connects, whoever had the descriptor before. */
  lemma PipesEndClean(sys: J.System, slots: S.Slots, ls: seq<Step>, c: S.Call)
    requires sys.Ok() && S.Ok(ServerOf(Start(sys, slots))) && IsRun(Start(sys, slots), ls)
    requires CanAsk(After(Start(sys, slots), ls), c)
    ensures var s := After(Start(sys, slots), ls);
            match c
            case Connect(_, _, fdNotif) => OwesNothing(s, fdNotif)
            case Disconnect(i) => OwesNothing(s, s.slots[i].value.fdNotif)
            case CleanAll => forall fd: int :: OwesNothing(s, fd)
            case _ => true
  {
    var s := After(Start(sys, slots), ls);
    StartGood(sys, slots);
    RunGood(Start(sys, slots), ls);
    match c
    case Connect(_, _, fdNotif) => UnusedIsOwedNothing(s, fdNotif);
    case Disconnect(i) => LeavingIsOwedNothing(s, i);
    case CleanAll =>
      forall fd: int ensures OwesNothing(s, fd) {
        CleanUpOwesNothing(s, fd);
      }
    case _ =>
  }

  /** And a client gets through when nobody has the bucket of the key, and only then. */
  lemma ClientsGetThrough(s: State, i: nat, k: Key)
    requires Inv(s) && i < |s.slots| && s.slots[i].Some? && |k| <= 40
    ensures CanAsk(s, S.Subscribe(i, k)) <==>
            forall t | 0 <= t < |s.jobs.threads| :: !L.HoldsBucket(s.jobs.threads[t].phase, Bucket(k))
    ensures CanAsk(s, S.Unsubscribe(i, k)) <==> CanAsk(s, S.Subscribe(i, k))
  {
    var b, lock := Bucket(k), s.jobs.locks[Bucket(k)];
    assert L.BucketLockOk(s.jobs, b);
    if CanAsk(s, S.Subscribe(i, k)) {
      forall t | 0 <= t < |s.jobs.threads| ensures !L.HoldsBucket(s.jobs.threads[t].phase, b) {
        assert !L.SharedHolder(s.jobs, b, t) && !L.ExclusiveHolder(s.jobs, b, t);
      }
    } else if lock.writer.Some? {
      assert L.ExclusiveHolder(s.jobs, b, lock.writer.value);
    } else {
      var t :| t in lock.readers;
      assert L.SharedHolder(s.jobs, b, t);
    }
  }

  // ---- a pipe that nobody reads ----

  /** What waits for a job thread with something left to write, as all do while the
      pipe of a client is full: the thread itself, every command and client that wants
      the bucket of the key, and every BACKUP. */
  lemma OwingStopsOthers(s: State, t: nat, u: nat)
    requires Inv(s) && t < |s.boxes| && s.boxes[t].blocks != [] && u < |s.boxes|
    ensures s.boxes[t].about.Some? && forall m :: !Enabled(s, Job(J.Thread(t, m)))
    ensures !Enabled(s, Job(J.Thread(u, J.LockAll)))
    ensures var b := Bucket(s.boxes[t].about.value);
            && (J.Waits(s.jobs.threads[u]) && J.NextLock(s.jobs.threads[u]) == b ==>
                  !Enabled(s, Job(J.Thread(u, J.Acquire))))
            && forall i, k: Key | Bucket(k) == b && |k| <= 40 ::
                 !CanAsk(s, S.Subscribe(i, k)) && !CanAsk(s, S.Unsubscribe(i, k))
  {
    OwingLocks(s, t);
    assert BoxOk(s, t);
    assert L.BucketLockOk(s.jobs, Bucket(s.boxes[t].about.value));
    assert L.CommandReader(s.jobs, t);
  }
}
