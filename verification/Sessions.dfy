/** How clients get a worker: the host thread, the workers, the ring buffer between
    them with its two semaphores and its mutex, the SIGUSR1 handler, and the slots of
    connected clients (main.c: process_host_thread, process_client_thread,
    handle_SIGUSR1; operations.c: add_client, remove_client). */
module Sessions {
  import opened Text
  import S = Subscriptions

  // ---- the ring buffer ----

  /** A connect request, as the host read it. */
  type Record = nat

  /** A place of clientsBuffer: not used yet, a record, or one that was freed. */
  datatype Place = Unused | Full(record: Record) | Freed

  /** The buffer with its two indices, the records put in and taken out so far, and
      whether one was ever lost to another, or a place without one was read. */
  datatype Buffer = Buffer(
    places: seq<Place>,
    inn: nat,
    out: nat,
    enqueued: seq<Record>,
    dequeued: seq<Record>,
    overwritten: bool,
    misread: bool)

  /** The place after this one, round the ring. */
  function NextPlace(i: nat, n: nat): nat { if i + 1 == n then 0 else i + 1 }

  function PutIn(b: Buffer, r: Record): Buffer
    requires b.inn < |b.places|
  {
    b.(places := b.places[b.inn := Full(r)],
       inn := NextPlace(b.inn, |b.places|),
       enqueued := b.enqueued + [r],
       overwritten := b.overwritten || b.places[b.inn].Full?)
  }

  /** What is read from a place that holds no record is no record. */
  function NextRecord(b: Buffer): Record
    requires b.out < |b.places|
  {
    if b.places[b.out].Full? then b.places[b.out].record else 0
  }

  function Looked(b: Buffer): Buffer
    requires b.out < |b.places|
  {
    b.(misread := b.misread || !b.places[b.out].Full?)
  }

  function TakeOut(b: Buffer, r: Record): Buffer
    requires b.out < |b.places|
  {
    b.(places := b.places[b.out := Freed], out := NextPlace(b.out, |b.places|), dequeued := b.dequeued + [r])
  }

  // ---- the slots of connected clients ----

  /** The slots, and whether a client was ever refused for want of one, or not found
      in any when it left. */
  datatype Lobby = Lobby(clients: S.Slots, refused: bool, unfound: bool)

  function Enter(b: Lobby, c: S.Client): Lobby {
    var i := S.FreeSlot(b.clients);
    if i < |b.clients| then b.(clients := b.clients[i := Some(c)]) else b.(refused := true)
  }

  function Leave(b: Lobby, c: S.Client): Lobby {
    b.(clients := S.Freed(b.clients, c), unfound := b.unfound || S.SlotOf(b.clients, c) == |b.clients|)
  }

  function Emptied(b: Lobby): Lobby { b.(clients := seq(|b.clients|, _ => None)) }

  // ---- threads ----

  /** Where the host is. It holds a token of writeSem from Woken to Got, unless its
      wait was cut short by a signal. */
  datatype Host =
    | Waiting
    | Woken(token: bool)
    | Restarting(token: bool)
    | Reading
    | Got(record: Record)
    | Stored

  /** Where a worker is. It holds a token of readSem from Ready to Copied, owes one
      of writeSem from Taken to Unlocked, and has the mutex from Inside to Taken. */
  datatype Worker =
    | Idle
    | Ready
    | Inside
    | Copied(record: Record)
    | Taken(record: Record)
    | Unlocked(record: Record)
    | Connecting(record: Record)
    | InSession(client: S.Client)

  /** The flags the handler sets, the signals so far, the restarts for them, and how
      many restarts used up no token. */
  datatype Alarm = Alarm(restartClients: bool, disconnectControl: bool, signals: nat, restarts: nat, unpaid: nat)

  datatype State = State(
    buffer: Buffer,
    readSem: nat,
    writeSem: nat,
    mutex: Option<nat>,
    host: Host,
    workers: seq<Worker>,
    lobby: Lobby,
    alarm: Alarm)

  /** n places, as many slots for clients, and some workers. */
  function Start(n: nat, workers: nat): State {
    State(
      Buffer(seq(n, _ => Unused), 0, 0, [], [], false, false),
      0, n, None, Waiting, seq(workers, _ => Idle),
      Lobby(seq(n, _ => None), false, false),
      Alarm(false, false, 0, 0, 0))
  }

  datatype HostMove =
    | Wait
    | Check
    | Restart
    | ReadFails
    | Read(record: Record)
    | AllocationFails
    | Store
    | Post

  datatype WorkerMove =
    | WaitRead
    | Lock
    | Copy
    | Free
    | Unlock
    | PostWrite
    | Connect(fdReq: int, fdResp: int, fdNotif: int)
    | Disconnect
    | Break

  datatype Step =
    | HostStep(h: HostMove)
    | WorkerStep(w: nat, m: WorkerMove)
    | Signal
    | Interrupt

  predicate HostCan(s: State, m: HostMove) {
    match m
    case Wait => s.host == Waiting && s.writeSem > 0
    case Check => s.host.Woken?
    case Restart => s.host.Restarting?
    case ReadFails => s.host == Reading
    case Read(_) => s.host == Reading
    case AllocationFails => s.host.Got?
    case Store => s.host.Got? && s.buffer.inn < |s.buffer.places|
    case Post => s.host == Stored
  }

  ghost predicate WorkerCan(s: State, w: Worker, m: WorkerMove) {
    match m
    case WaitRead => w == Idle && s.readSem > 0
    case Lock => w == Ready && s.mutex == None
    case Copy => w == Inside && s.buffer.out < |s.buffer.places|
    case Free => w.Copied? && s.buffer.out < |s.buffer.places|
    case Unlock => w.Taken?
    case PostWrite => w.Unlocked?
    case Connect(a, b, n) => w.Connecting? && S.NewDescriptors(s.lobby.clients, a, b, n)
    case Disconnect => w.InSession?
    case Break => w.InSession? && s.alarm.disconnectControl
  }

  ghost predicate Enabled(s: State, l: Step) {
    match l
    case HostStep(m) => HostCan(s, m)
    case WorkerStep(w, m) => w < |s.workers| && WorkerCan(s, s.workers[w], m)
    case Signal => true
    case Interrupt => s.host == Waiting
  }

  function DoHost(s: State, m: HostMove): State
    requires HostCan(s, m)
  {
    match m
    case Wait => s.(writeSem := s.writeSem - 1, host := Woken(true))
    case Check => s.(host := if s.alarm.restartClients then Restarting(s.host.token) else Reading)
    case Restart =>
      s.(host := Waiting, lobby := Emptied(s.lobby),
         alarm := s.alarm.(restartClients := false, restarts := s.alarm.restarts + 1,
                           unpaid := s.alarm.unpaid + if s.host.token then 0 else 1))
    case ReadFails => s.(writeSem := s.writeSem + 1, host := Waiting)
    case Read(r) => s.(host := Got(r), alarm := s.alarm.(disconnectControl := false))
    case AllocationFails => s.(writeSem := s.writeSem + 1, host := Waiting)
    case Store => s.(buffer := PutIn(s.buffer, s.host.record), host := Stored)
    case Post => s.(readSem := s.readSem + 1, host := Waiting)
  }

  /** Where a worker goes; one that finds no slot is disconnected at once. */
  ghost function WorkerGoes(s: State, w: Worker, m: WorkerMove): Worker
    requires WorkerCan(s, w, m)
  {
    match m
    case WaitRead => Ready
    case Lock => Inside
    case Copy => Copied(NextRecord(s.buffer))
    case Free => Taken(w.record)
    case Unlock => Unlocked(w.record)
    case PostWrite => Connecting(w.record)
    case Connect(a, b, n) =>
      if S.FreeSlot(s.lobby.clients) < |s.lobby.clients| then InSession(S.Client(a, b, n, [])) else Idle
    case Disconnect => Idle
    case Break => Idle
  }

  ghost function DoWorker(s: State, w: nat, m: WorkerMove): State
    requires w < |s.workers| && WorkerCan(s, s.workers[w], m)
  {
    var s' := s.(workers := s.workers[w := WorkerGoes(s, s.workers[w], m)]);
    match m
    case WaitRead => s'.(readSem := s.readSem - 1)
    case Lock => s'.(mutex := Some(w))
    case Copy => s'.(buffer := Looked(s.buffer))
    case Free => s'.(buffer := TakeOut(s.buffer, s.workers[w].record))
    case Unlock => s'.(mutex := None)
    case PostWrite => s'.(writeSem := s.writeSem + 1)
    case Connect(a, b, n) => s'.(lobby := Enter(s.lobby, S.Client(a, b, n, [])))
    case Disconnect => s'.(lobby := Leave(s.lobby, s.workers[w].client))
    case Break => s'
  }

  /** The handler: both flags, and a token so that the host wakes up. When it runs in
      the host while that waits for a token, the wait ends without one. */
  function DoSignal(s: State): State {
    s.(writeSem := s.writeSem + 1,
       alarm := s.alarm.(restartClients := true, disconnectControl := true, signals := s.alarm.signals + 1))
  }

  ghost function Do(s: State, l: Step): State
    requires Enabled(s, l)
  {
    match l
    case HostStep(m) => DoHost(s, m)
    case WorkerStep(w, m) => DoWorker(s, w, m)
    case Signal => DoSignal(s)
    case Interrupt => DoSignal(s).(host := Woken(false))
  }

  ghost predicate IsRun(s: State, ls: seq<Step>)
    decreases |ls|
  {
    ls == [] || (Enabled(s, ls[0]) && IsRun(Do(s, ls[0]), ls[1..]))
  }

  ghost function After(s: State, ls: seq<Step>): State
    requires IsRun(s, ls)
    decreases |ls|
  {
    if ls == [] then s else After(Do(s, ls[0]), ls[1..])
  }
}
