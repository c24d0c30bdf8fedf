/** How notifications reach the pipes: a job thread writes the key and then the text,
    in two writes of 41 bytes, to one subscriber after the other, while other threads
    may be at the same for keys of other buckets (kvs.c, notify_subscribers;
    client/main.c). The jobs are those of Store, the clients those of Subscriptions,
    and both work on one table. */
module Delivery {
  import opened Text
  import opened Tables
  import B = Batches
  import J = Store
  import S = Subscriptions
  import T = Traffic

  /** One write to a notification pipe. */
  datatype Block = Block(fd: int, text: string)

  /** The writes of one message. */
  function BlocksOfNote(n: Note): seq<Block> { [Block(n.fd, n.key), Block(n.fd, n.text)] }

  function BlocksOf(notes: seq<Note>): seq<Block> {
    if notes == [] then [] else BlocksOfNote(notes[0]) + BlocksOf(notes[1..])
  }

  /** The writes a job thread has still to do, all about one key. */
  datatype Outbox = Outbox(about: Option<Key>, blocks: seq<Block>)

  /** wire is everything written to notification pipes, in order; sent the messages
      these writes make up, in the order in which the actions began. */
  datatype State = State(jobs: J.State, slots: S.Slots, boxes: seq<Outbox>, wire: seq<Block>, sent: seq<Note>)

  function Start(sys: J.System, slots: S.Slots): State {
    State(J.Start(sys), slots, seq(|sys.programs|, _ => Outbox(None, [])), [], [])
  }

  /** The session model's view of the state. */
  function ServerOf(s: State): S.Server { S.Server(s.jobs.table, s.slots, s.sent) }

  /** A step of a job or backup, one write to a pipe by a job thread, or what a client
      asks for. */
  datatype Step =
    | Job(l: J.Step)
    | Send(t: nat)
    | Ask(c: S.Call)

  /** Nobody holds the bucket lock of a key. */
  predicate LockFree(jobs: J.State, key: Key) { jobs.locks[Bucket(key)] == J.Unheld }

  ghost predicate AllFree(jobs: J.State, keys: seq<Key>) {
    forall k | k in keys :: LockFree(jobs, k)
  }

  /** What clients ask for takes, exclusively, the lock of each key concerned. */
  ghost predicate CanAsk(s: State, c: S.Call) {
    && S.Possible(ServerOf(s), c)
    && match c
       case Connect(_, _, _) => true
       case WriteKey(_, _) => false
       case DeleteKey(_) => false
       case Subscribe(_, name) => S.BadName(name) || LockFree(s.jobs, name)
       case Unsubscribe(_, name) => S.BadName(name) || LockFree(s.jobs, name)
       case Disconnect(i) => AllFree(s.jobs, s.slots[i].value.subscriptions)
       case CleanAll =>
         forall i | 0 <= i < |s.slots| && s.slots[i].Some? :: AllFree(s.jobs, s.slots[i].value.subscriptions)
  }

  /** A job thread goes on when it has told all subscribers. */
  ghost predicate Enabled(s: State, l: Step) {
    match l
    case Job(j) => J.Enabled(s.jobs, j) && (j.Thread? ==> j.t < |s.boxes| && s.boxes[j.t].blocks == [])
    case Send(t) => t < |s.boxes| && s.boxes[t].blocks != []
    case Ask(c) => CanAsk(s, c)
  }

  /** The action of a step, if it performs one. */
  ghost function ActOf(jobs: J.State, j: J.Step): seq<B.Act>
    requires J.Enabled(jobs, j)
  {
    if j.Thread? && j.move.Perform? then
      var p := jobs.threads[j.t].phase;
      [B.Acts(p.cmd)[p.done]]
    else []
  }

  /** The key whose subscribers an action tells, if it does. */
  function KeyTold(a: B.Act): Option<Key> {
    if a.WriteKey? || a.DeleteKey? then Some(a.key) else None
  }

  ghost function DoJob(s: State, j: J.Step): State
    requires Enabled(s, Job(j))
  {
    var s' := s.(jobs := J.Do(s.jobs, j));
    var acts := ActOf(s.jobs, j);
    if acts == [] then s' else
    var notes := B.NotesOf(acts[0], s.jobs.table);
    s'.(boxes := s.boxes[j.t := Outbox(KeyTold(acts[0]), BlocksOf(notes))], sent := s.sent + notes)
  }

  function DoSend(s: State, t: nat): State
    requires t < |s.boxes| && s.boxes[t].blocks != []
  {
    var box := s.boxes[t];
    s.(wire := s.wire + [box.blocks[0]], boxes := s.boxes[t := box.(blocks := box.blocks[1..])])
  }

  ghost function DoAsk(s: State, c: S.Call): State
    requires CanAsk(s, c)
  {
    var r := S.Do(ServerOf(s), c);
    s.(jobs := s.jobs.(table := r.table), slots := r.slots)
  }

  ghost function Do(s: State, l: Step): State
    requires Enabled(s, l)
  {
    match l
    case Job(j) => DoJob(s, j)
    case Send(t) => DoSend(s, t)
    case Ask(c) => DoAsk(s, c)
  }

  ghost predicate IsRun(s: State, ls: seq<Step>)
    decreases |ls|
  {
    ls == [] || (Enabled(s, ls[0]) && IsRun(Do(s, ls[0]), ls[1..]))
  }

  ghost function After(s: State, ls: seq<Step>): State
    requires IsRun(s, ls)
    decreases |ls|
  {
    if ls == [] then s else After(Do(s, ls[0]), ls[1..])
  }

  // ---- a run as calls of the session model ----

  ghost function CallsOfStep(s: State, l: Step): seq<S.Call>
    requires Enabled(s, l)
  {
    match l
    case Job(j) => if ActOf(s.jobs, j) == [] then [] else T.CallOf(ActOf(s.jobs, j)[0])
    case Send(_) => []
    case Ask(c) => [c]
  }

  ghost function Calls(s: State, ls: seq<Step>): seq<S.Call>
    requires IsRun(s, ls)
    decreases |ls|
  {
    if ls == [] then [] else CallsOfStep(s, ls[0]) + Calls(Do(s, ls[0]), ls[1..])
  }

  /** A job step changes the table as its action does, and otherwise not. */
  lemma JobTable(s: State, j: J.Step)
    requires Enabled(s, Job(j))
    ensures var acts := ActOf(s.jobs, j);
            if acts == [] then DoJob(s, j).jobs.table == s.jobs.table
            else exists out, flag ::
                   DoJob(s, j).jobs.table == B.DoAct(acts[0], B.Progress(s.jobs.table, out, flag)).table
  {
    if ActOf(s.jobs, j) != [] {
      var th := s.jobs.threads[j.t];
      var p := B.Progress(s.jobs.table, th.out, th.phase.flag);
      assert DoJob(s, j).jobs.table == B.DoAct(ActOf(s.jobs, j)[0], p).table;
    }
  }

  /** A step is at most one call. */
  lemma StepIsCall(s: State, l: Step)
    requires Enabled(s, l)
    ensures var cs, r := CallsOfStep(s, l), ServerOf(Do(s, l));
            && |cs| <= 1
            && if cs == [] then r == ServerOf(s)
               else S.Possible(ServerOf(s), cs[0]) && r == S.Do(ServerOf(s), cs[0])
  {
    match l
    case Job(j) =>
      JobTable(s, j);
      var acts := ActOf(s.jobs, j);
      if acts != [] {
        var out, flag :| DoJob(s, j).jobs.table == B.DoAct(acts[0], B.Progress(s.jobs.table, out, flag)).table;
        T.ActIsCall(acts[0], B.Progress(s.jobs.table, out, flag), ServerOf(s));
      }
    case Send(_) =>
    case Ask(c) => AskSendsNothing(ServerOf(s), c);
  }

  lemma AskSendsNothing(r: S.Server, c: S.Call)
    requires S.Possible(r, c) && !c.WriteKey? && !c.DeleteKey?
    ensures S.Do(r, c).sent == r.sent
  {
  }

  /** Table, slots and messages of a run are those of its calls. */
  lemma {:induction false} RunIsCalls(s: State, ls: seq<Step>)
    requires IsRun(s, ls)
    ensures S.IsRun(ServerOf(s), Calls(s, ls))
    ensures S.After(ServerOf(s), Calls(s, ls)) == ServerOf(After(s, ls))
    decreases |ls|
  {
    if ls != [] {
      StepIsCall(s, ls[0]);
      RunIsCalls(Do(s, ls[0]), ls[1..]);
      T.FirstCall(CallsOfStep(s, ls[0]), Calls(Do(s, ls[0]), ls[1..]));
    }
  }

  // ---- what a client reads ----

  /** The texts written to one descriptor. */
  function TextsTo(blocks: seq<Block>, fd: int): seq<string> {
    if blocks == [] then [] else
    (if blocks[0].fd == fd then [blocks[0].text] else []) + TextsTo(blocks[1..], fd)
  }

  /** What job threads have still to write to it, thread by thread. */
  function Owed(boxes: seq<Outbox>, fd: int): seq<string> {
    if boxes == [] then [] else TextsTo(boxes[0].blocks, fd) + Owed(boxes[1..], fd)
  }

  /** The client takes the texts two by two, as key and value. */
  function PairUp(texts: seq<string>): seq<(string, string)> {
    if |texts| < 2 then [] else [(texts[0], texts[1])] + PairUp(texts[2..])
  }

  /** The messages to one descriptor, as pairs. */
  function PairsTo(notes: seq<Note>, fd: int): seq<(string, string)> {
    if notes == [] then [] else
    (if notes[0].fd == fd then [(notes[0].key, notes[0].text)] else []) + PairsTo(notes[1..], fd)
  }

  /** The client has read whole messages so far: its pairs are a beginning of those
      sent to it, in order. */
  ghost predicate Whole(s: State, fd: int) { PairUp(TextsTo(s.wire, fd)) <= PairsTo(s.sent, fd) }

  /** The texts of the pairs about one key. */
  function About(pairs: seq<(string, string)>, k: string): seq<string> {
    if pairs == [] then [] else (if pairs[0].0 == k then [pairs[0].1] else []) + About(pairs[1..], k)
  }
}
