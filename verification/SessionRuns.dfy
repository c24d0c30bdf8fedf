/** Theorems about whole runs of the host and the workers. */
module SessionRuns {
  import opened Text
  import opened Counting
  import opened Sessions
  import S = Subscriptions

  // ---- tokens ----

  function Held(h: Host): nat {
    match h
    case Waiting => 0
    case Woken(token) => if token then 1 else 0
    case Restarting(token) => if token then 1 else 0
    case Stored => 0
    case _ => 1
  }

  function Entering(w: Worker): bool { w == Ready || w == Inside || w.Copied? }

  function Owing(w: Worker): bool { w.Taken? || w.Unlocked? }

  function IsFull(p: Place): bool { p.Full? }

  /** Records put in and not taken out. */
  function Pending(b: Buffer): int { |b.enqueued| - |b.dequeued| }

  /** Signals whose token has not been used up by a restart. */
  function Outstanding(s: State): int { s.alarm.signals - s.alarm.restarts + s.alarm.unpaid }

  /** readSem counts the records pending, writeSem the places for more. */
  ghost predicate Tokens(n: nat, s: State) {
    && s.readSem + (if s.host == Stored then 1 else 0) + Count(Entering, s.workers) == Pending(s.buffer)
    && s.writeSem + Pending(s.buffer) + Held(s.host) + Count(Owing, s.workers) == n + Outstanding(s)
    && (s.host == Woken(false) ==> s.alarm.restartClients)
  }

  lemma StartTokens(n: nat, workers: nat)
    ensures Tokens(n, Start(n, workers))
  {
    CountNone(Entering, Start(n, workers).workers);
    CountNone(Owing, Start(n, workers).workers);
  }

  lemma HostTokens(n: nat, s: State, m: HostMove)
    requires Tokens(n, s) && HostCan(s, m)
    ensures Tokens(n, DoHost(s, m))
  {
  }

  function One(b: bool): int { if b then 1 else 0 }

  lemma WorkerCounts(s: State, w: nat, m: WorkerMove)
    requires w < |s.workers| && WorkerCan(s, s.workers[w], m)
    ensures var p, p', ws' := s.workers[w], WorkerGoes(s, s.workers[w], m), DoWorker(s, w, m).workers;
            && Count(Entering, ws') == Count(Entering, s.workers) - One(Entering(p)) + One(Entering(p'))
            && Count(Owing, ws') == Count(Owing, s.workers) - One(Owing(p)) + One(Owing(p'))
  {
    var p := WorkerGoes(s, s.workers[w], m);
    assert DoWorker(s, w, m).workers == s.workers[w := p];
    CountUpdate(Entering, s.workers, w, p);
    CountUpdate(Owing, s.workers, w, p);
  }

  lemma WorkerTokens(n: nat, s: State, w: nat, m: WorkerMove)
    requires Tokens(n, s) && w < |s.workers| && WorkerCan(s, s.workers[w], m)
    ensures Tokens(n, DoWorker(s, w, m))
  {
    WorkerCounts(s, w, m);
  }

  lemma StepTokens(n: nat, s: State, l: Step)
    requires Tokens(n, s) && Enabled(s, l)
    ensures Tokens(n, Do(s, l))
  {
    match l
    case HostStep(m) => HostTokens(n, s, m);
    case WorkerStep(w, m) => WorkerTokens(n, s, w, m);
    case Signal =>
    case Interrupt =>
  }

  // ---- the mutex ----

  predicate HasMutex(w: Worker) { w == Inside || w.Copied? || w.Taken? }

  ghost predicate MutexOk(s: State) {
    forall w | 0 <= w < |s.workers| :: HasMutex(s.workers[w]) <==> s.mutex == Some(w)
  }

  lemma StepMutex(s: State, l: Step)
    requires MutexOk(s) && Enabled(s, l)
    ensures MutexOk(Do(s, l))
  {
    if l.WorkerStep? {
      var s' := DoWorker(s, l.w, l.m);
      forall w | 0 <= w < |s.workers| ensures HasMutex(s'.workers[w]) <==> s'.mutex == Some(w) {
        assert HasMutex(s.workers[w]) <==> s.mutex == Some(w);
        assert HasMutex(s.workers[l.w]) <==> s.mutex == Some(l.w);
      }
    }
  }

  // ---- the ring ----

  lemma Products(n: nat, q: int)
    ensures q >= 1 ==> n * q >= n
    ensures q <= 0 ==> n * q <= 0
    ensures q <= -1 ==> n * q <= 0 - n
  {
  }

  /** Numbers less than n apart have different places in the ring. */
  lemma Apart(a: nat, b: nat, n: nat)
    requires a < b < a + n
    ensures a % n != b % n
  {
    Products(n, b / n - a / n);
    assert b - a == n * (b / n - a / n) + (b % n - a % n);
  }

  lemma Remainder(q: nat, r: nat, n: nat)
    requires r < n
    ensures (n * q + r) % n == r
  {
    var x := n * q + r;
    Products(n, q - x / n);
    assert x % n - r == n * (q - x / n);
  }

  lemma NextIs(i: nat, n: nat)
    requires n > 0
    ensures NextPlace(i % n, n) == (i + 1) % n
  {
    var q, r := i / n, i % n;
    assert i == n * q + r;
    if r + 1 == n {
      Distribute(n, q);
      Remainder(q + 1, 0, n);
    } else {
      Remainder(q, r + 1, n);
    }
  }

  lemma Distribute(n: int, q: int)
    ensures n * (q + 1) == n * q + n
  {
  }

  /** Number i of the records, counted from the first, is in its place, which holds
      none if it has not been put in yet. */
  ghost predicate PlaceOk(b: Buffer, i: nat)
    requires |b.places| > 0
  {
    var p := b.places[i % |b.places|];
    if i < |b.enqueued| then p == Full(b.enqueued[i]) else !p.Full?
  }

  /** The places hold the records pending, in order, from out to in, and no others. */
  ghost predicate Ring(n: nat, b: Buffer)
    requires n > 0
  {
    && |b.places| == n && |b.dequeued| <= |b.enqueued| <= |b.dequeued| + n
    && b.inn == |b.enqueued| % n && b.out == |b.dequeued| % n
    && b.dequeued == b.enqueued[..|b.dequeued|]
    && Count(IsFull, b.places) == Pending(b)
    && !b.misread
    && forall i | |b.dequeued| <= i < |b.dequeued| + n :: PlaceOk(b, i)
  }

  lemma StartRing(n: nat, workers: nat)
    requires n > 0
    ensures Ring(n, Start(n, workers).buffer)
  {
    CountNone(IsFull, Start(n, workers).buffer.places);
  }

  /** A put overwrites a record exactly if the ring is full. */
  lemma PutOverwrites(n: nat, b: Buffer)
    requires n > 0 && Ring(n, b)
    ensures b.places[b.inn].Full? <==> Pending(b) == n
  {
    if Pending(b) < n {
      assert PlaceOk(b, |b.enqueued|);
    } else {
      assert PlaceOk(b, |b.dequeued|);
      SamePlace(|b.dequeued|, n);
    }
  }

  lemma SamePlace(i: nat, n: nat)
    requires n > 0
    ensures (i + n) % n == i % n
  {
    var q, r := i / n, i % n;
    assert i == n * q + r;
    Distribute(n, q);
    Remainder(q + 1, r, n);
  }

  lemma PutRing(n: nat, b: Buffer, r: Record)
    requires n > 0 && Ring(n, b) && Pending(b) < n
    ensures Ring(n, PutIn(b, r))
  {
    var b', e := PutIn(b, r), |b.enqueued|;
    PutOverwrites(n, b);
    CountUpdate(IsFull, b.places, b.inn, Full(r));
    NextIs(e, n);
    forall i | |b.dequeued| <= i < |b.dequeued| + n ensures PlaceOk(b', i) {
      assert PlaceOk(b, i);
      if i < e {
        Apart(i, e, n);
      } else if i > e {
        Apart(e, i, n);
      }
    }
  }

  /** A pending record is there to be read. */
  lemma LookRing(n: nat, b: Buffer)
    requires n > 0 && Ring(n, b) && Pending(b) > 0
    ensures Ring(n, Looked(b)) && NextRecord(b) == b.enqueued[|b.dequeued|]
  {
    assert PlaceOk(b, |b.dequeued|);
    forall i | |b.dequeued| <= i < |b.dequeued| + n ensures PlaceOk(Looked(b), i) {
      assert PlaceOk(b, i);
    }
  }

  lemma TakeRing(n: nat, b: Buffer)
    requires n > 0 && Ring(n, b) && Pending(b) > 0
    ensures Ring(n, TakeOut(b, b.enqueued[|b.dequeued|]))
  {
    var d := |b.dequeued|;
    var b' := TakeOut(b, b.enqueued[d]);
    assert PlaceOk(b, d);
    CountUpdate(IsFull, b.places, b.out, Freed);
    NextIs(d, n);
    SamePlace(d, n);
    assert b.enqueued[..d + 1] == b.enqueued[..d] + [b.enqueued[d]];
    forall i | d + 1 <= i < d + 1 + n ensures PlaceOk(b', i) {
      if i < d + n {
        assert PlaceOk(b, i);
        Apart(d, i, n);
      }
    }
  }

  // ---- all of it, step by step ----

  /** A worker that has copied a record and not yet freed its place has the next one:
      the mutex keeps the others out. */
  ghost predicate CopiesOk(s: State) {
    forall w | 0 <= w < |s.workers| && s.workers[w].Copied? ::
      Pending(s.buffer) > 0 && s.workers[w].record == s.buffer.enqueued[|s.buffer.dequeued|]
  }

  /** What holds in every run, and until the first record is lost. */
  ghost predicate Inv(n: nat, s: State)
    requires n > 0
  {
    && Tokens(n, s) && MutexOk(s)
    && (!s.buffer.overwritten ==> Ring(n, s.buffer) && CopiesOk(s))
  }

  /** A worker on its way to the buffer has a record pending for it. */
  lemma EnteringHasRecord(n: nat, s: State, w: nat)
    requires Tokens(n, s) && w < |s.workers| && Entering(s.workers[w])
    ensures Pending(s.buffer) > 0
  {
    CountPositive(Entering, s.workers, w);
  }

  lemma HostRing(n: nat, s: State, m: HostMove)
    requires n > 0 && Inv(n, s) && HostCan(s, m) && !DoHost(s, m).buffer.overwritten
    ensures Ring(n, DoHost(s, m).buffer) && CopiesOk(DoHost(s, m))
  {
    if m.Store? {
      PutOverwrites(n, s.buffer);
      PutRing(n, s.buffer, s.host.record);
    }
  }

  lemma WorkerRing(n: nat, s: State, w: nat, m: WorkerMove)
    requires n > 0 && Inv(n, s) && w < |s.workers| && WorkerCan(s, s.workers[w], m) && !s.buffer.overwritten
    ensures Ring(n, DoWorker(s, w, m).buffer) && CopiesOk(DoWorker(s, w, m))
  {
    var s' := DoWorker(s, w, m);
    if m.Copy? {
      EnteringHasRecord(n, s, w);
      LookRing(n, s.buffer);
    } else if m.Free? {
      EnteringHasRecord(n, s, w);
      TakeRing(n, s.buffer);
      forall x | 0 <= x < |s'.workers| ensures !s'.workers[x].Copied? {
        assert HasMutex(s.workers[w]) <==> s.mutex == Some(w);
        assert HasMutex(s.workers[x]) <==> s.mutex == Some(x);
      }
    }
  }

  lemma StepInv(n: nat, s: State, l: Step)
    requires n > 0 && Inv(n, s) && Enabled(s, l)
    ensures Inv(n, Do(s, l))
    ensures s.buffer.overwritten ==> Do(s, l).buffer.overwritten
  {
    StepTokens(n, s, l);
    StepMutex(s, l);
    match l
    case HostStep(m) => if !DoHost(s, m).buffer.overwritten { HostRing(n, s, m); }
    case WorkerStep(w, m) => if !s.buffer.overwritten { WorkerRing(n, s, w, m); }
    case Signal =>
    case Interrupt =>
  }

  lemma StartInv(n: nat, workers: nat)
    requires n > 0
    ensures Inv(n, Start(n, workers))
  {
    StartTokens(n, workers);
    StartRing(n, workers);
  }

  lemma {:induction false} RunInv(n: nat, s: State, ls: seq<Step>)
    requires n > 0 && Inv(n, s) && IsRun(s, ls)
    ensures Inv(n, After(s, ls))
    decreases |ls|
  {
    if ls != [] {
      StepInv(n, s, ls[0]);
      RunInv(n, Do(s, ls[0]), ls[1..]);
    }
  }

  /** Token conservation, in every run, with any signals and through every way the
      host comes back to its wait: the tokens of writeSem, the records pending, the
      token the host holds and those the workers owe are the places, the signals
      without a restart yet, and the restarts after which the token of the signal was
      left, because the signal had cut the wait short. Until a record is lost, the
      records pending are the places occupied. */
  lemma TokensConserved(n: nat, workers: nat, ls: seq<Step>)
    requires n > 0 && IsRun(Start(n, workers), ls)
    ensures var s := After(Start(n, workers), ls);
            && s.writeSem + Pending(s.buffer) + Held(s.host) + Count(Owing, s.workers)
               == n + (s.alarm.signals - s.alarm.restarts) + s.alarm.unpaid
            && (!s.buffer.overwritten ==> Pending(s.buffer) == Count(IsFull, s.buffer.places))
  {
    StartInv(n, workers);
    RunInv(n, Start(n, workers), ls);
  }

  /** Delivery. In every run in which no record is lost, the records the workers took
      are a beginning of those the host put in: each once, in order; and no worker
      ever read a place that held none. */
  lemma DeliveredInOrder(n: nat, workers: nat, ls: seq<Step>)
    requires n > 0 && IsRun(Start(n, workers), ls)
    requires !After(Start(n, workers), ls).buffer.overwritten
    ensures var b := After(Start(n, workers), ls).buffer; b.dequeued <= b.enqueued && !b.misread
  {
    StartInv(n, workers);
    RunInv(n, Start(n, workers), ls);
  }

  // ---- signals ----

  /** Never is more than one signal outstanding, and none cuts the host's wait short. */
  ghost predicate Calm(s: State, ls: seq<Step>)
    requires IsRun(s, ls)
    decreases |ls|
  {
    Outstanding(s) <= 1 && (ls == [] || (ls[0] != Interrupt && Calm(Do(s, ls[0]), ls[1..])))
  }

  /** While at most one signal is outstanding: it is so exactly if its flag is up, and
      a host past the flag has room for a record. */
  ghost predicate Roomy(n: nat, s: State)
    requires n > 0
  {
    && Inv(n, s) && !s.buffer.overwritten
    && Outstanding(s) == One(s.alarm.restartClients)
    && (s.host.Restarting? ==> s.host.token && s.alarm.restartClients)
    && (s.host.Woken? ==> s.host.token)
    && (s.host == Reading || s.host.Got? ==> Pending(s.buffer) < n)
  }

  lemma StepRoomy(n: nat, s: State, l: Step)
    requires n > 0 && Roomy(n, s) && Enabled(s, l) && Outstanding(Do(s, l)) <= 1 && l != Interrupt
    ensures Roomy(n, Do(s, l))
  {
    StepInv(n, s, l);
    match l
    case HostStep(m) => HostRoomy(n, s, m);
    case WorkerStep(w, m) => WorkerRoomy(n, s, w, m);
    case Signal =>
  }

  lemma HostRoomy(n: nat, s: State, m: HostMove)
    requires n > 0 && Roomy(n, s) && HostCan(s, m) && Inv(n, DoHost(s, m))
    ensures Roomy(n, DoHost(s, m))
  {
    if m.Store? {
      PutOverwrites(n, s.buffer);
    } else if m.Check? {
      RoomWithToken(n, s);
    }
  }

  /** A host that holds a token, with no signal outstanding, has room. */
  lemma RoomWithToken(n: nat, s: State)
    requires Tokens(n, s) && Held(s.host) == 1 && Outstanding(s) <= One(s.alarm.restartClients)
    ensures !s.alarm.restartClients ==> Pending(s.buffer) < n
  {
  }

  lemma WorkerRoomy(n: nat, s: State, w: nat, m: WorkerMove)
    requires n > 0 && Roomy(n, s) && w < |s.workers| && WorkerCan(s, s.workers[w], m) && Inv(n, DoWorker(s, w, m))
    ensures Roomy(n, DoWorker(s, w, m))
  {
  }

  lemma {:induction false} RunRoomy(n: nat, s: State, ls: seq<Step>)
    requires n > 0 && Roomy(n, s) && IsRun(s, ls) && Calm(s, ls)
    ensures Roomy(n, After(s, ls))
    decreases |ls|
  {
    if ls != [] {
      StepRoomy(n, s, ls[0]);
      RunRoomy(n, Do(s, ls[0]), ls[1..]);
    }
  }

  /** Nothing is lost. As long as no second signal comes before the host has restarted
      the clients for the first, and none is handled in the host's wait, no record is
      overwritten, whatever the host and any number of workers do. */
  lemma CalmLosesNothing(n: nat, workers: nat, ls: seq<Step>)
    requires n > 0 && IsRun(Start(n, workers), ls) && Calm(Start(n, workers), ls)
    ensures !After(Start(n, workers), ls).buffer.overwritten
  {
    StartInv(n, workers);
    RunRoomy(n, Start(n, workers), ls);
  }

  ghost predicate SignalFree(ls: seq<Step>) { Signal !in ls && Interrupt !in ls }

  lemma {:induction false} NoSignalIsCalm(s: State, ls: seq<Step>)
    requires IsRun(s, ls) && SignalFree(ls) && Outstanding(s) <= 0 && s.alarm.unpaid == 0
    requires s.host != Woken(false) && s.host != Restarting(false)
    ensures Calm(s, ls)
    decreases |ls|
  {
    if ls != [] {
      NoSignalIsCalm(Do(s, ls[0]), ls[1..]);
    }
  }

  /** Producers and consumers. Without signals, with any number of places and workers:
      no record is overwritten, no worker reads a place that holds none, and the
      records taken are a beginning of the records put in, each once. */
  lemma SignalFreeDelivers(n: nat, workers: nat, ls: seq<Step>)
    requires n > 0 && IsRun(Start(n, workers), ls) && SignalFree(ls)
    ensures var b := After(Start(n, workers), ls).buffer;
            !b.overwritten && !b.misread && b.dequeued <= b.enqueued
  {
    NoSignalIsCalm(Start(n, workers), ls);
    CalmLosesNothing(n, workers, ls);
    DeliveredInOrder(n, workers, ls);
  }

  /** When a record is lost: in any run that has lost none, the next store overwrites
      one exactly if the signals outstanding are as many as the tokens that are free
      or owed, and the host's own. */
  lemma WhenLost(n: nat, workers: nat, ls: seq<Step>)
    requires n > 0 && IsRun(Start(n, workers), ls)
    requires var s := After(Start(n, workers), ls); !s.buffer.overwritten && HostCan(s, Store)
    ensures var s := After(Start(n, workers), ls);
            Do(s, HostStep(Store)).buffer.overwritten <==>
            Outstanding(s) == s.writeSem + Count(Owing, s.workers) + 1
  {
    StartInv(n, workers);
    RunInv(n, Start(n, workers), ls);
    PutOverwrites(n, After(Start(n, workers), ls).buffer);
  }

  // ---- the slots of connected clients ----

  function Serving(w: Worker): bool { w.InSession? }

  function Occupied(o: Option<S.Client>): bool { o.Some? }

  /** The client of a worker has a slot. */
  ghost predicate Seated(s: State, w: nat)
    requires w < |s.workers|
  {
    s.workers[w].InSession? ==>
      exists i | 0 <= i < |s.lobby.clients| :: s.lobby.clients[i] == Some(s.workers[w].client)
  }

  ghost predicate Strangers(a: Worker, b: Worker) {
    a.InSession? && b.InSession? ==> S.Apart(Some(a.client), Some(b.client))
  }

  ghost predicate AllStrangers(ws: seq<Worker>) {
    forall x, y | 0 <= x < |ws| && 0 <= y < |ws| && x != y :: Strangers(ws[x], ws[y])
  }

  ghost predicate NoAlarm(s: State) {
    s.alarm == Alarm(false, false, 0, 0, 0) && !s.host.Restarting?
  }

  /** The slots taken are those of the workers in a session, one each. */
  ghost predicate LobbyOk(s: State) {
    && S.AllApart(s.lobby.clients)
    && (forall w | 0 <= w < |s.workers| :: Seated(s, w))
    && AllStrangers(s.workers)
    && Count(Occupied, s.lobby.clients) == Count(Serving, s.workers)
    && |s.workers| <= |s.lobby.clients|
    && !s.lobby.refused && !s.lobby.unfound
  }

  /** While a worker is out of session there is a free slot for it. */
  lemma SlotFree(s: State, w: nat)
    requires LobbyOk(s) && w < |s.workers| && !s.workers[w].InSession?
    ensures S.FreeSlot(s.lobby.clients) < |s.lobby.clients|
  {
    CountLess(Serving, s.workers, w);
    if S.FreeSlot(s.lobby.clients) == |s.lobby.clients| {
      CountEvery(Occupied, s.lobby.clients);
    }
  }

  lemma NewIsApart(slots: S.Slots, i: nat, c: S.Client)
    requires S.AllApart(slots) && i < |slots| && slots[i] == None
    requires S.Unused(slots, c.fdReq) && S.Unused(slots, c.fdResp) && S.Unused(slots, c.fdNotif)
    ensures S.AllApart(slots[i := Some(c)])
  {
    var slots' := slots[i := Some(c)];
    forall x, y | 0 <= x < y < |slots| ensures S.Apart(slots'[x], slots'[y]) {
      assert S.Apart(slots[x], slots[y]);
    }
  }

  /** A worker that leaves its session has no descriptors in common with anyone. */
  lemma StillStrangers(ws: seq<Worker>, w: nat)
    requires w < |ws| && AllStrangers(ws)
    ensures AllStrangers(ws[w := Idle])
  {
    var ws' := ws[w := Idle];
    forall x, y | 0 <= x < |ws| && 0 <= y < |ws| && x != y ensures Strangers(ws'[x], ws'[y]) {
      assert Strangers(ws[x], ws[y]);
    }
  }

  /** A new client takes no seat of another, and has no descriptor of one. */
  lemma StaysSeated(s: State, x: nat, i: nat, c: S.Client)
    requires x < |s.workers| && Seated(s, x) && i < |s.lobby.clients| && s.lobby.clients[i] == None
    requires S.NewDescriptors(s.lobby.clients, c.fdReq, c.fdResp, c.fdNotif)
    ensures s.workers[x].InSession? ==>
              && Some(s.workers[x].client) in s.lobby.clients[i := Some(c)]
              && S.Apart(Some(s.workers[x].client), Some(c)) && S.Apart(Some(c), Some(s.workers[x].client))
  {
    if s.workers[x].InSession? {
      var j :| 0 <= j < |s.lobby.clients| && s.lobby.clients[j] == Some(s.workers[x].client);
      assert s.lobby.clients[i := Some(c)][j] == Some(s.workers[x].client);
      assert !S.Uses(s.lobby.clients[j], c.fdReq) && !S.Uses(s.lobby.clients[j], c.fdResp);
      assert !S.Uses(s.lobby.clients[j], c.fdNotif);
    }
  }

  lemma ConnectLobby(s: State, w: nat, a: int, b: int, n: int)
    requires LobbyOk(s) && w < |s.workers| && WorkerCan(s, s.workers[w], Connect(a, b, n))
    ensures LobbyOk(DoWorker(s, w, Connect(a, b, n)))
  {
    var s', c := DoWorker(s, w, Connect(a, b, n)), S.Client(a, b, n, []);
    SlotFree(s, w);
    var i := S.FreeSlot(s.lobby.clients);
    CountUpdate(Occupied, s.lobby.clients, i, Some(c));
    CountUpdate(Serving, s.workers, w, InSession(c));
    NewIsApart(s.lobby.clients, i, c);
    assert s'.lobby.clients[i] == Some(c);
    forall x | 0 <= x < |s.workers|
      ensures Seated(s', x)
      ensures x != w ==> Strangers(s'.workers[x], s'.workers[w]) && Strangers(s'.workers[w], s'.workers[x])
    {
      if x != w {
        StaysSeated(s, x, i, c);
      }
    }
    forall x, y | 0 <= x < |s.workers| && 0 <= y < |s.workers| && x != y
      ensures Strangers(s'.workers[x], s'.workers[y])
    {
      assert Strangers(s.workers[x], s.workers[y]);
    }
  }

  /** The disconnect of a worker frees the slot of its own client and no other. */
  ghost predicate FreesOwnSlot(s: State, w: nat)
    requires w < |s.workers| && s.workers[w].InSession?
  {
    exists i | 0 <= i < |s.lobby.clients| ::
      && s.lobby.clients[i] == Some(s.workers[w].client)
      && DoWorker(s, w, Disconnect).lobby.clients == s.lobby.clients[i := None]
  }

  lemma DisconnectLobby(s: State, w: nat)
    requires LobbyOk(s) && w < |s.workers| && s.workers[w].InSession?
    ensures LobbyOk(DoWorker(s, w, Disconnect))
    ensures FreesOwnSlot(s, w)
  {
    var s', c := DoWorker(s, w, Disconnect), s.workers[w].client;
    assert Seated(s, w);
    var i :| 0 <= i < |s.lobby.clients| && s.lobby.clients[i] == Some(c);
    S.OwnSlot(s.lobby.clients, i);
    CountUpdate(Occupied, s.lobby.clients, i, None);
    CountUpdate(Serving, s.workers, w, Idle);
    S.SameDescriptors(s.lobby.clients, i, None);
    forall x | 0 <= x < |s.workers| ensures Seated(s', x) {
      assert Seated(s, x);
      if x != w && s.workers[x].InSession? {
        var j :| 0 <= j < |s.lobby.clients| && s.lobby.clients[j] == Some(s.workers[x].client);
        assert Strangers(s.workers[x], s.workers[w]);
        assert S.Uses(Some(c), c.fdNotif);
        assert s'.lobby.clients[j] == Some(s.workers[x].client);
      }
    }
    StillStrangers(s.workers, w);
  }

  /** The other steps of a worker have nothing to do with the slots. */
  lemma ElsewhereLobby(s: State, w: nat, m: WorkerMove)
    requires LobbyOk(s) && w < |s.workers| && WorkerCan(s, s.workers[w], m)
    requires !m.Connect? && !m.Disconnect? && !m.Break?
    ensures LobbyOk(DoWorker(s, w, m))
  {
    var s' := DoWorker(s, w, m);
    CountUpdate(Serving, s.workers, w, s'.workers[w]);
    forall x | 0 <= x < |s.workers| ensures Seated(s', x) {
      assert Seated(s, x);
    }
    forall x, y | 0 <= x < |s.workers| && 0 <= y < |s.workers| && x != y
      ensures Strangers(s'.workers[x], s'.workers[y])
    {
      assert Strangers(s.workers[x], s.workers[y]);
    }
  }

  lemma StepLobby(s: State, l: Step)
    requires LobbyOk(s) && NoAlarm(s) && Enabled(s, l) && !l.Signal? && !l.Interrupt?
    ensures LobbyOk(Do(s, l)) && NoAlarm(Do(s, l))
  {
    match l
    case HostStep(m) =>
      forall x | 0 <= x < |s.workers| ensures Seated(DoHost(s, m), x) {
        assert Seated(s, x);
      }
    case WorkerStep(w, m) =>
      match m
      case Connect(a, b, n) => ConnectLobby(s, w, a, b, n);
      case Disconnect => DisconnectLobby(s, w);
      case _ => ElsewhereLobby(s, w, m);
  }

  lemma {:induction false} RunLobby(s: State, ls: seq<Step>)
    requires LobbyOk(s) && NoAlarm(s) && IsRun(s, ls) && SignalFree(ls)
    ensures LobbyOk(After(s, ls)) && NoAlarm(After(s, ls))
    decreases |ls|
  {
    if ls != [] {
      StepLobby(s, ls[0]);
      RunLobby(Do(s, ls[0]), ls[1..]);
    }
  }

  /** Session slots. Without signals, and with no more workers than slots, the slots
      taken are always as many as the workers in a session; nobody is refused for
      want of a slot; and whoever leaves finds its own slot and frees that. */
  lemma SlotsMatchSessions(n: nat, workers: nat, ls: seq<Step>)
    requires workers <= n && IsRun(Start(n, workers), ls) && SignalFree(ls)
    ensures var s := After(Start(n, workers), ls);
            && Count(Occupied, s.lobby.clients) == Count(Serving, s.workers)
            && !s.lobby.refused && !s.lobby.unfound
            && forall w | 0 <= w < |s.workers| && s.workers[w].InSession? :: FreesOwnSlot(s, w)
  {
    var s := Start(n, workers);
    CountNone(Occupied, s.lobby.clients);
    CountNone(Serving, s.workers);
    RunLobby(s, ls);
    var t := After(s, ls);
    forall w | 0 <= w < |t.workers| && t.workers[w].InSession? ensures FreesOwnSlot(t, w) {
      DisconnectLobby(t, w);
    }
  }
}
