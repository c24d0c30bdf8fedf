/** What signals can do to the sessions: runs that lose a connect request, and what a
    loss leads to. */
module SessionFaults {
  import opened Text
  import opened Counting
  import opened Sessions
  import opened SessionRuns
  import S = Subscriptions

  // ---- building runs ----

  lemma {:induction false} OneMore(s: State, ls: seq<Step>, l: Step)
    requires IsRun(s, ls) && Enabled(After(s, ls), l)
    ensures IsRun(s, ls + [l]) && After(s, ls + [l]) == Do(After(s, ls), l)
    ensures Uncut(ls) && l != Interrupt ==> Uncut(ls + [l])
    decreases |ls|
  {
    if ls == [] {
      assert ls + [l] == [l];
      assert [l][1..] == [];
    } else {
      OneMore(Do(s, ls[0]), ls[1..], l);
      assert (ls + [l])[1..] == ls[1..] + [l];
    }
  }

  /** No signal is handled in the host's wait. */
  predicate Uncut(ls: seq<Step>) { Interrupt !in ls }

  /** The host is about to wait, no signal calls for a restart, and nothing is lost. */
  predicate AtRest(t: State) { t.host == Waiting && !t.alarm.restartClients && !t.buffer.overwritten }

  /** Only the host and the buffer have moved, and nothing was taken out. */
  ghost predicate HostOnly(t: State, t': State) {
    && t' == t.(buffer := t'.buffer, readSem := t'.readSem, writeSem := t'.writeSem, host := t'.host, alarm := t'.alarm)
    && t'.buffer.dequeued == t.buffer.dequeued
    && t'.alarm == t.alarm.(disconnectControl := t'.alarm.disconnectControl)
  }

  /** The host waits, sees no signal, and reads a connect request. */
  lemma ReadOne(s: State, ls: seq<Step>) returns (ls': seq<Step>)
    requires IsRun(s, ls)
    requires var t := After(s, ls); t.host == Waiting && t.writeSem > 0 && !t.alarm.restartClients
    ensures IsRun(s, ls') && (Uncut(ls) ==> Uncut(ls'))
    ensures var t, t' := After(s, ls), After(s, ls');
            && t' == t.(host := Got(0), writeSem := t.writeSem - 1, alarm := t'.alarm)
            && t'.alarm == t.alarm.(disconnectControl := false)
  {
    OneMore(s, ls, HostStep(Wait));
    OneMore(s, ls + [HostStep(Wait)], HostStep(Check));
    OneMore(s, ls + [HostStep(Wait)] + [HostStep(Check)], HostStep(Read(0)));
    ls' := ls + [HostStep(Wait)] + [HostStep(Check)] + [HostStep(Read(0))];
  }

  /** It puts it into the buffer, and goes back to waiting. */
  lemma StorePost(s: State, ls: seq<Step>) returns (ls': seq<Step>)
    requires IsRun(s, ls) && HostCan(After(s, ls), Store)
    ensures IsRun(s, ls') && (Uncut(ls) ==> Uncut(ls'))
    ensures var t, t' := After(s, ls), After(s, ls');
            t' == t.(buffer := PutIn(t.buffer, t.host.record), readSem := t.readSem + 1, host := Waiting)
  {
    OneMore(s, ls, HostStep(Store));
    OneMore(s, ls + [HostStep(Store)], HostStep(Post));
    ls' := ls + [HostStep(Store)] + [HostStep(Post)];
  }

  /** It stores a request, and goes back to waiting. */
  lemma StoreOne(n: nat, s: State, ls: seq<Step>) returns (ls': seq<Step>)
    requires n > 0 && Inv(n, s) && IsRun(s, ls)
    requires var t := After(s, ls);
             AtRest(t) && t.writeSem > 0 && Pending(t.buffer) < n
    ensures IsRun(s, ls') && (Uncut(ls) ==> Uncut(ls'))
    ensures var t, t' := After(s, ls), After(s, ls');
            && AtRest(t') && HostOnly(t, t') && t'.writeSem == t.writeSem - 1 && t'.readSem == t.readSem + 1
            && Pending(t'.buffer) == Pending(t.buffer) + 1
  {
    ls' := ReadOne(s, ls);
    RunInv(n, s, ls');
    PutOverwrites(n, After(s, ls').buffer);
    ls' := StorePost(s, ls');
  }

  /** k more requests are stored while no worker takes any. */
  lemma {:induction false} StoreMany(n: nat, s: State, ls: seq<Step>, k: nat) returns (ls': seq<Step>)
    requires n > 0 && Inv(n, s) && IsRun(s, ls)
    requires var t := After(s, ls);
             AtRest(t) && t.writeSem >= k && Pending(t.buffer) + k <= n
    ensures IsRun(s, ls') && (Uncut(ls) ==> Uncut(ls'))
    ensures var t, t' := After(s, ls), After(s, ls');
            && AtRest(t') && HostOnly(t, t') && t'.writeSem == t.writeSem - k && t'.readSem == t.readSem + k
            && Pending(t'.buffer) == Pending(t.buffer) + k
    decreases k
  {
    if k == 0 {
      ls' := ls;
    } else {
      ls' := StoreOne(n, s, ls);
      ls' := StoreMany(n, s, ls', k - 1);
    }
  }

  /** The host wakes up and restarts the clients: all slots are emptied. */
  lemma RestartOne(s: State, ls: seq<Step>) returns (ls': seq<Step>)
    requires IsRun(s, ls)
    requires var t := After(s, ls); t.host == Waiting && t.writeSem > 0 && t.alarm.restartClients
    ensures IsRun(s, ls') && (Uncut(ls) ==> Uncut(ls'))
    ensures var t, t' := After(s, ls), After(s, ls');
            t' == t.(writeSem := t.writeSem - 1, lobby := Emptied(t.lobby),
                     alarm := t.alarm.(restartClients := false, restarts := t.alarm.restarts + 1))
  {
    OneMore(s, ls, HostStep(Wait));
    OneMore(s, ls + [HostStep(Wait)], HostStep(Check));
    OneMore(s, ls + [HostStep(Wait)] + [HostStep(Check)], HostStep(Restart));
    ls' := ls + [HostStep(Wait)] + [HostStep(Check)] + [HostStep(Restart)];
  }

  // ---- two signals ----

  /** Two signals before a restart, which one restart answers. */
  lemma TwoSignals(n: nat, workers: nat) returns (ls: seq<Step>)
    requires n > 0
    ensures IsRun(Start(n, workers), ls) && Uncut(ls)
    ensures After(Start(n, workers), ls) ==
            Start(n, workers).(writeSem := n + 1, alarm := Alarm(false, true, 2, 1, 0))
  {
    var s := Start(n, workers);
    OneMore(s, [], Signal);
    OneMore(s, [] + [Signal], Signal);
    ls := RestartOne(s, [] + [Signal] + [Signal]);
    assert Emptied(s.lobby) == s.lobby;
  }

  /** With a token too many, one request too many is stored. */
  lemma StoreTooMany(n: nat, workers: nat) returns (ls: seq<Step>)
    requires n > 0
    ensures IsRun(Start(n, workers), ls) && Uncut(ls)
    ensures var s, t := Start(n, workers), After(Start(n, workers), ls);
            && t.alarm.signals == 2 && t.host == Waiting && t.readSem == n + 1
            && t.workers == s.workers && t.mutex == None && t.lobby == s.lobby
            && t.buffer.overwritten && !t.buffer.misread && t.buffer.out == 0
            && |t.buffer.places| == n && forall i | 0 <= i < n :: t.buffer.places[i].Full?
  {
    var s := Start(n, workers);
    StartInv(n, workers);
    ls := TwoSignals(n, workers);
    ls := StoreMany(n, s, ls, n);
    ls := ReadOne(s, ls);
    RunInv(n, s, ls);
    var b := After(s, ls).buffer;
    PutOverwrites(n, b);
    CountAll(IsFull, b.places);
    assert forall i | 0 <= i < n :: IsFull(b.places[i]);
    ls := StorePost(s, ls);
  }

  /** The condition of CalmLosesNothing is needed. With any number of places and of
      workers, two signals before a restart, neither handled in the host's wait, can
      lose a record. */
  lemma TwoSignalsCanLose(n: nat, workers: nat) returns (ls: seq<Step>)
    requires n > 0
    ensures IsRun(Start(n, workers), ls) && Uncut(ls)
    ensures After(Start(n, workers), ls).alarm.signals == 2 && After(Start(n, workers), ls).buffer.overwritten
  {
    ls := StoreTooMany(n, workers);
  }

  // ---- a signal in the host's wait ----

  /** Nor may the one signal be handled in the host's wait: with any number of places
      and of workers, a single one that finds the host waiting for a free place can
      lose a record. */
  lemma InterruptionCanLose(n: nat, workers: nat) returns (ls: seq<Step>)
    requires n > 0
    ensures IsRun(Start(n, workers), ls)
    ensures After(Start(n, workers), ls).buffer.overwritten && After(Start(n, workers), ls).alarm.signals == 1
  {
    var s := Start(n, workers);
    StartInv(n, workers);
    ls := StoreMany(n, s, [], n);
    ls := InterruptOne(s, ls);
    ls := ReadOne(s, ls);
    RunInv(n, s, ls);
    PutOverwrites(n, After(s, ls).buffer);
    ls := StorePost(s, ls);
  }

  /** The wait is cut short, and the host restarts the clients: the token is left. */
  lemma InterruptOne(s: State, ls: seq<Step>) returns (ls': seq<Step>)
    requires IsRun(s, ls) && AtRest(After(s, ls))
    ensures IsRun(s, ls')
    ensures var t, t' := After(s, ls), After(s, ls');
            && AtRest(t') && t'.writeSem == t.writeSem + 1 && t'.buffer == t.buffer
            && t'.alarm.signals == t.alarm.signals + 1
  {
    OneMore(s, ls, Interrupt);
    OneMore(s, ls + [Interrupt], HostStep(Check));
    OneMore(s, ls + [Interrupt] + [HostStep(Check)], HostStep(Restart));
    ls' := ls + [Interrupt] + [HostStep(Check)] + [HostStep(Restart)];
  }

  // ---- what a loss leads to ----

  /** Until a place without a record is read: a worker that copies has a record before
      it, and as many are pending as places are full, and more once one was lost. */
  ghost predicate Slack(s: State) {
    var b := s.buffer;
    && MutexOk(s) && b.inn < |b.places| && b.out < |b.places|
    && (!b.misread ==>
          && (forall w | 0 <= w < |s.workers| && s.workers[w].Copied? :: b.places[b.out].Full?)
          && Pending(b) >= Count(IsFull, b.places) + One(b.overwritten))
  }

  lemma StartSlack(n: nat, workers: nat)
    requires n > 0
    ensures Slack(Start(n, workers))
  {
    CountNone(IsFull, Start(n, workers).buffer.places);
  }

  lemma StoreSlack(s: State)
    requires Slack(s) && HostCan(s, Store)
    ensures Slack(DoHost(s, Store))
  {
    CountUpdate(IsFull, s.buffer.places, s.buffer.inn, Full(s.host.record));
  }

  lemma FreeSlack(s: State, w: nat)
    requires Slack(s) && w < |s.workers| && WorkerCan(s, s.workers[w], Free)
    ensures Slack(DoWorker(s, w, Free))
  {
    var s' := DoWorker(s, w, Free);
    StepMutex(s, WorkerStep(w, Free));
    CountUpdate(IsFull, s.buffer.places, s.buffer.out, Freed);
    assert HasMutex(s.workers[w]);
    forall x | 0 <= x < |s'.workers| ensures !s'.workers[x].Copied? {
      assert HasMutex(s.workers[x]) <==> s.mutex == Some(x);
    }
  }

  lemma StepSlack(s: State, l: Step)
    requires Slack(s) && Enabled(s, l)
    ensures Slack(Do(s, l))
  {
    StepMutex(s, l);
    if l == HostStep(Store) {
      StoreSlack(s);
    } else if l.WorkerStep? && l.m.Free? {
      FreeSlack(s, l.w);
    }
  }

  lemma {:induction false} RunSlack(s: State, ls: seq<Step>)
    requires Slack(s) && IsRun(s, ls)
    ensures Slack(After(s, ls))
    decreases |ls|
  {
    if ls != [] {
      StepSlack(s, ls[0]);
      RunSlack(Do(s, ls[0]), ls[1..]);
    }
  }

  /** A loss is not the end of it. In any run, once a record was overwritten, more are
      pending than places are full, until a worker reads a place that holds none; and
      some worker has, when as many were taken as were put in. */
  lemma LossLeadsToMisread(n: nat, workers: nat, ls: seq<Step>)
    requires n > 0 && IsRun(Start(n, workers), ls) && After(Start(n, workers), ls).buffer.overwritten
    ensures var b := After(Start(n, workers), ls).buffer;
            (!b.misread ==> Pending(b) > Count(IsFull, b.places)) && (Pending(b) == 0 ==> b.misread)
  {
    StartSlack(n, workers);
    RunSlack(Start(n, workers), ls);
  }

  // ---- one worker empties the buffer ----

  const FIRST: S.Client := S.Client(1, 2, 3, [])

  /** Worker 0 gets the mutex and copies the next record. */
  lemma CopyOne(s: State, ls: seq<Step>) returns (ls': seq<Step>)
    requires IsRun(s, ls)
    requires var t := After(s, ls);
             && |t.workers| > 0 && t.workers[0] == Idle && t.mutex == None && t.readSem > 0
             && t.buffer.out < |t.buffer.places|
    ensures IsRun(s, ls') && (Uncut(ls) ==> Uncut(ls'))
    ensures var t := After(s, ls);
            After(s, ls') == t.(readSem := t.readSem - 1, mutex := Some(0), buffer := Looked(t.buffer),
                                workers := t.workers[0 := Copied(NextRecord(t.buffer))])
  {
    var wait, lock, copy := WorkerStep(0, WaitRead), WorkerStep(0, Lock), WorkerStep(0, Copy);
    OneMore(s, ls, wait);
    OneMore(s, ls + [wait], lock);
    OneMore(s, ls + [wait] + [lock], copy);
    ls' := ls + [wait] + [lock] + [copy];
    var ws := After(s, ls).workers;
    assert ws[0 := Ready][0 := Inside][0 := Copied(NextRecord(After(s, ls).buffer))]
        == ws[0 := Copied(NextRecord(After(s, ls).buffer))];
  }

  /** It frees the place, and goes on to connect the client. */
  lemma TakeOne(s: State, ls: seq<Step>) returns (ls': seq<Step>)
    requires IsRun(s, ls)
    requires var t := After(s, ls);
             |t.workers| > 0 && t.workers[0].Copied? && t.buffer.out < |t.buffer.places|
    ensures IsRun(s, ls') && (Uncut(ls) ==> Uncut(ls'))
    ensures var t := After(s, ls);
            After(s, ls') == t.(writeSem := t.writeSem + 1, mutex := None,
                                buffer := TakeOut(t.buffer, t.workers[0].record),
                                workers := t.workers[0 := Connecting(t.workers[0].record)])
  {
    var free, unlock, post := WorkerStep(0, Free), WorkerStep(0, Unlock), WorkerStep(0, PostWrite);
    var ws, r := After(s, ls).workers, After(s, ls).workers[0].record;
    OneMore(s, ls, free);
    OneMore(s, ls + [free], unlock);
    OneMore(s, ls + [free] + [unlock], post);
    ls' := ls + [free] + [unlock] + [post];
    assert ws[0 := Taken(r)][0 := Unlocked(r)][0 := Connecting(r)] == ws[0 := Connecting(r)];
  }

  ghost predicate NobodyIn(b: Lobby) {
    |b.clients| > 0 && !b.unfound && forall i | 0 <= i < |b.clients| :: b.clients[i] == None
  }

  /** The client gets the first slot. */
  lemma ConnectOne(s: State, ls: seq<Step>) returns (ls': seq<Step>)
    requires IsRun(s, ls)
    requires var t := After(s, ls); |t.workers| > 0 && t.workers[0].Connecting? && NobodyIn(t.lobby)
    ensures IsRun(s, ls') && (Uncut(ls) ==> Uncut(ls'))
    ensures var t := After(s, ls);
            After(s, ls') == t.(lobby := t.lobby.(clients := t.lobby.clients[0 := Some(FIRST)]),
                                workers := t.workers[0 := InSession(FIRST)])
  {
    var connect := WorkerStep(0, Connect(1, 2, 3));
    OneMore(s, ls, connect);
    ls' := ls + [connect];
  }

  /** And leaves it. */
  lemma LeaveOne(s: State, ls: seq<Step>) returns (ls': seq<Step>)
    requires IsRun(s, ls)
    requires var t := After(s, ls);
             && |t.workers| > 0 && t.workers[0] == InSession(FIRST)
             && |t.lobby.clients| > 0 && t.lobby.clients[0] == Some(FIRST)
    ensures IsRun(s, ls') && (Uncut(ls) ==> Uncut(ls'))
    ensures var t := After(s, ls);
            After(s, ls') == t.(lobby := t.lobby.(clients := t.lobby.clients[0 := None]),
                                workers := t.workers[0 := Idle])
  {
    OneMore(s, ls, WorkerStep(0, Disconnect));
    ls' := ls + [WorkerStep(0, Disconnect)];
  }

  /** A whole turn of worker 0: it is idle again, and the slots are as before. */
  lemma TurnOne(s: State, ls: seq<Step>) returns (ls': seq<Step>)
    requires IsRun(s, ls)
    requires var t := After(s, ls);
             && |t.workers| > 0 && t.workers[0] == Idle && t.mutex == None && NobodyIn(t.lobby)
             && t.readSem > 0 && t.buffer.out < |t.buffer.places|
    ensures IsRun(s, ls') && (Uncut(ls) ==> Uncut(ls'))
    ensures var t := After(s, ls);
            After(s, ls') == t.(readSem := t.readSem - 1, writeSem := t.writeSem + 1,
                                buffer := TakeOut(Looked(t.buffer), NextRecord(t.buffer)))
  {
    var t := After(s, ls);
    ls' := CopyOne(s, ls);
    ls' := TakeOne(s, ls');
    ls' := ConnectOne(s, ls');
    ls' := LeaveOne(s, ls');
    var r := NextRecord(t.buffer);
    assert t.workers[0 := Copied(r)][0 := Connecting(r)][0 := InSession(FIRST)][0 := Idle] == t.workers;
    assert t.lobby.clients[0 := Some(FIRST)][0 := None] == t.lobby.clients;
  }

  /** The first k places were freed, the others hold records. */
  ghost predicate FreedUpTo(b: Buffer, k: nat) {
    && k <= |b.places| && b.out == (if k == |b.places| then 0 else k)
    && (forall i | 0 <= i < k :: b.places[i] == Freed)
    && forall i | k <= i < |b.places| :: b.places[i].Full?
  }

  lemma {:induction false} TurnMany(s: State, ls: seq<Step>, k: nat) returns (ls': seq<Step>)
    requires IsRun(s, ls)
    requires var t := After(s, ls);
             && |t.workers| > 0 && t.workers[0] == Idle && t.mutex == None && NobodyIn(t.lobby)
             && t.readSem >= k && FreedUpTo(t.buffer, 0) && k <= |t.buffer.places| && |t.buffer.places| > 0
    ensures IsRun(s, ls') && (Uncut(ls) ==> Uncut(ls'))
    ensures var t, t' := After(s, ls), After(s, ls');
            && t' == t.(readSem := t.readSem - k, writeSem := t'.writeSem, buffer := t'.buffer)
            && FreedUpTo(t'.buffer, k) && |t'.buffer.places| == |t.buffer.places|
    decreases k
  {
    if k == 0 {
      ls' := ls;
    } else {
      ls' := TurnMany(s, ls, k - 1);
      ls' := TurnOne(s, ls');
    }
  }

  /** After a loss a worker goes on to read, and free, a place that was freed before:
      with any number of places and at least one worker, two signals suffice. */
  lemma TwoSignalsCanFreeTwice(n: nat, workers: nat) returns (ls: seq<Step>)
    requires n > 0 && workers > 0
    ensures var s := Start(n, workers);
            && IsRun(s, ls) && Uncut(ls) && Enabled(After(s, ls), WorkerStep(0, Free))
            && After(s, ls).alarm.signals == 2 && After(s, ls).buffer.misread
            && After(s, ls).buffer.places[After(s, ls).buffer.out] == Freed
  {
    var s := Start(n, workers);
    ls := StoreTooMany(n, workers);
    ls := TurnMany(s, ls, n);
    ls := CopyOne(s, ls);
  }

  // ---- a flag that is reset too early ----

  lemma FirstStored(n: nat, workers: nat) returns (ls: seq<Step>)
    requires n > 0
    ensures IsRun(Start(n, workers), ls) && Uncut(ls)
    ensures var s, t := Start(n, workers), After(Start(n, workers), ls);
            && t.host == Waiting && t.readSem == 1 && t.mutex == None
            && t.workers == s.workers && t.lobby == s.lobby && !t.alarm.restartClients
            && t.alarm.signals == t.alarm.restarts == t.alarm.unpaid == 0
            && !t.buffer.overwritten && t.writeSem == n - 1 && t.buffer.out < |t.buffer.places|
  {
    StartInv(n, workers);
    ls := StoreOne(n, Start(n, workers), []);
    RunInv(n, Start(n, workers), ls);
    assert Ring(n, After(Start(n, workers), ls).buffer);
  }

  /** The first client gets worker 0 and the first slot. */
  lemma FirstSession(n: nat, workers: nat) returns (ls: seq<Step>)
    requires n > 0 && workers > 0
    ensures IsRun(Start(n, workers), ls) && Uncut(ls)
    ensures var t := After(Start(n, workers), ls);
            && t.host == Waiting && t.writeSem > 0 && !t.alarm.restartClients && t.alarm.signals == 0
            && !t.buffer.overwritten && |t.workers| == workers && t.workers[0] == InSession(FIRST)
  {
    var s := Start(n, workers);
    ls := FirstStored(n, workers);
    ls := CopyOne(s, ls);
    ls := TakeOne(s, ls);
    ls := ConnectOne(s, ls);
  }

  /** A client is in its session when a signal comes. The host restarts the clients,
      and the next connect request takes back the flag before the client's worker has
      looked at it. So the worker goes on with a client that was freed, and at the end
      of the session does not find it. One signal suffices, handled anywhere but in
      the host's wait. */
  lemma FreedClientGoesOn(n: nat, workers: nat) returns (ls: seq<Step>)
    requires n > 0 && workers > 0
    ensures var s := Start(n, workers);
            && IsRun(s, ls) && Uncut(ls) && After(s, ls).alarm.signals == 1
            && !After(s, ls).buffer.overwritten && After(s, ls).lobby.unfound
            && !After(s, ls).alarm.disconnectControl
  {
    var s := Start(n, workers);
    ls := FirstSession(n, workers);
    OneMore(s, ls, Signal);
    ls := RestartOne(s, ls + [Signal]);
    ls := ReadOne(s, ls);
    NoClientFound(After(s, ls).lobby);
    OneMore(s, ls, WorkerStep(0, Disconnect));
    ls := ls + [WorkerStep(0, Disconnect)];
  }

  lemma NoClientFound(b: Lobby)
    requires forall i | 0 <= i < |b.clients| :: b.clients[i] == None
    ensures S.SlotOf(b.clients, FIRST) == |b.clients|
  {
  }

  // ---- sessions that are broken off ----

  function Numbered(j: nat): S.Client { S.Client(3 * j, 3 * j + 1, 3 * j + 2, []) }

  /** The first j slots are taken by clients with different descriptors. */
  ghost predicate Filled(b: Lobby, j: nat) {
    && j <= |b.clients|
    && (forall i | 0 <= i < j :: b.clients[i] == Some(Numbered(i)))
    && forall i | j <= i < |b.clients| :: b.clients[i] == None
  }

  lemma NextIsNew(b: Lobby, j: nat)
    requires Filled(b, j)
    ensures S.NewDescriptors(b.clients, 3 * j, 3 * j + 1, 3 * j + 2) && S.FreeSlot(b.clients) == j
  {
    var i := S.FreeSlot(b.clients);
    assert i < |b.clients| ==> b.clients[i] == None;
    assert j < |b.clients| ==> b.clients[j] == None;
  }

  /** Worker 0 takes a request and connects its client, if a slot is free. */
  lemma ServeNext(s: State, ls: seq<Step>, j: nat) returns (ls': seq<Step>)
    requires IsRun(s, ls)
    requires var t := After(s, ls);
             && |t.workers| > 0 && t.workers[0] == Idle && t.mutex == None && Filled(t.lobby, j)
             && t.readSem > 0 && t.buffer.out < |t.buffer.places|
    ensures IsRun(s, ls') && (Uncut(ls) ==> Uncut(ls'))
    ensures var t, t' := After(s, ls), After(s, ls');
            && t' == t.(readSem := t.readSem - 1, writeSem := t.writeSem + 1, lobby := t'.lobby,
                        buffer := TakeOut(Looked(t.buffer), NextRecord(t.buffer)), workers := t'.workers)
            && t'.buffer.out < |t'.buffer.places| && |t'.lobby.clients| == |t.lobby.clients|
            && if j < |t.lobby.clients|
               then Filled(t'.lobby, j + 1) && t'.workers == t.workers[0 := InSession(Numbered(j))]
               else t'.lobby.refused && t'.workers == t.workers
  {
    var t := After(s, ls);
    ls' := CopyOne(s, ls);
    ls' := TakeOne(s, ls');
    NextIsNew(t.lobby, j);
    var connect := WorkerStep(0, Connect(3 * j, 3 * j + 1, 3 * j + 2));
    OneMore(s, ls', connect);
    ls' := ls' + [connect];
    var r := NextRecord(t.buffer);
    assert t.workers[0 := Copied(r)][0 := Connecting(r)][0 := Idle] == t.workers;
    assert t.workers[0 := Copied(r)][0 := Connecting(r)][0 := InSession(Numbered(j))]
        == t.workers[0 := InSession(Numbered(j))];
  }

  /** The worker breaks its session off, under the flag, and takes the next request. */
  lemma BreakAndServe(s: State, ls: seq<Step>, j: nat) returns (ls': seq<Step>)
    requires IsRun(s, ls)
    requires var t := After(s, ls);
             && |t.workers| > 0 && t.workers[0].InSession? && t.mutex == None && Filled(t.lobby, j)
             && t.alarm.disconnectControl && t.readSem > 0 && t.buffer.out < |t.buffer.places|
    ensures IsRun(s, ls') && (Uncut(ls) ==> Uncut(ls'))
    ensures var t, t' := After(s, ls), After(s, ls');
            && t'.alarm == t.alarm && t'.mutex == None && t'.readSem == t.readSem - 1
            && |t'.lobby.clients| == |t.lobby.clients| && t'.buffer.out < |t'.buffer.places|
            && |t'.workers| == |t.workers| && t'.workers[1..] == t.workers[1..]
            && if j < |t.lobby.clients| then Filled(t'.lobby, j + 1) && t'.workers[0].InSession?
               else t'.lobby.refused && t'.workers[0] == Idle
  {
    OneMore(s, ls, WorkerStep(0, Break));
    ls' := ServeNext(s, ls + [WorkerStep(0, Break)], j);
  }

  /** So it fills slot after slot. */
  lemma {:induction false} FillSlots(s: State, ls: seq<Step>, k: nat) returns (ls': seq<Step>)
    requires IsRun(s, ls)
    requires var t := After(s, ls);
             && |t.workers| > 0 && t.workers[0].InSession? && t.mutex == None && Filled(t.lobby, 1)
             && t.alarm.disconnectControl && t.readSem >= k && t.buffer.out < |t.buffer.places|
             && 1 + k <= |t.lobby.clients|
    ensures IsRun(s, ls') && (Uncut(ls) ==> Uncut(ls'))
    ensures var t, t' := After(s, ls), After(s, ls');
            && t'.alarm == t.alarm && t'.mutex == None && t'.readSem == t.readSem - k
            && |t'.lobby.clients| == |t.lobby.clients| && t'.buffer.out < |t'.buffer.places|
            && |t'.workers| == |t.workers| && t'.workers[1..] == t.workers[1..]
            && Filled(t'.lobby, 1 + k) && t'.workers[0].InSession?
    decreases k
  {
    if k == 0 {
      ls' := ls;
    } else {
      ls' := FillSlots(s, ls, k - 1);
      ls' := BreakAndServe(s, ls', k);
    }
  }

  /** One client is in its session, and nothing is in the buffer. */
  lemma OneIn(n: nat, workers: nat) returns (ls: seq<Step>)
    requires n > 0 && workers > 0
    ensures IsRun(Start(n, workers), ls) && Uncut(ls)
    ensures var s, t := Start(n, workers), After(Start(n, workers), ls);
            && AtRest(t) && t.readSem == 0 && t.writeSem == n && Pending(t.buffer) == 0
            && t.mutex == None && t.alarm.signals == 0
            && |t.workers| == workers && t.workers[0].InSession? && t.workers[1..] == s.workers[1..]
            && Filled(t.lobby, 1) && |t.lobby.clients| == n
  {
    var s := Start(n, workers);
    StartInv(n, workers);
    ls := FirstStored(n, workers);
    ls := ServeNext(s, ls, 0);
    RunInv(n, s, ls);
    NothingPending(n, After(s, ls));
  }

  /** Then the buffer is filled. */
  lemma OneInAndFull(n: nat, workers: nat) returns (ls: seq<Step>)
    requires n > 0 && workers > 0
    ensures IsRun(Start(n, workers), ls) && Uncut(ls)
    ensures var s, t := Start(n, workers), After(Start(n, workers), ls);
            && t.readSem == n && t.mutex == None && t.buffer.out < |t.buffer.places| && t.alarm.signals == 0
            && |t.workers| == workers && t.workers[0].InSession? && t.workers[1..] == s.workers[1..]
            && Filled(t.lobby, 1) && |t.lobby.clients| == n
  {
    var s := Start(n, workers);
    StartInv(n, workers);
    ls := OneIn(n, workers);
    ls := StoreMany(n, s, ls, n);
    RunInv(n, s, ls);
    assert Ring(n, After(s, ls).buffer);
  }

  lemma NothingPending(n: nat, t: State)
    requires n > 0 && Inv(n, t) && t.writeSem == n && t.alarm.signals == t.alarm.restarts && t.alarm.unpaid == 0
    ensures Pending(t.buffer) == 0
  {
  }

  /** A worker that breaks a session off leaves the slot taken until the host cleans up.
      With any number of places and slots and at least one worker, there is a run with
      one signal after which a client is refused although nobody is in a session. */
  lemma BrokenOffFillsSlots(n: nat, workers: nat) returns (ls: seq<Step>)
    requires n > 0 && workers > 0
    ensures IsRun(Start(n, workers), ls) && Uncut(ls)
    ensures var t := After(Start(n, workers), ls);
            && t.alarm.signals == 1 && t.lobby.refused
            && forall w | 0 <= w < |t.workers| :: t.workers[w] == Idle
  {
    var s := Start(n, workers);
    ls := OneInAndFull(n, workers);
    OneMore(s, ls, Signal);
    ls := FillSlots(s, ls + [Signal], n - 1);
    ls := BreakAndServe(s, ls, n);
    var ws := After(s, ls).workers;
    assert forall w | 0 < w < |ws| :: ws[w] == ws[1..][w - 1] == s.workers[1..][w - 1];
  }
}
