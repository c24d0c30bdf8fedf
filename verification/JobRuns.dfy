/** From the text of job files to what their threads print: the commands the parser
    finds in each file, as programs of the job threads, and the theorems about runs
    said about the files. */
module JobRuns {
  import opened Text
  import opened Tables
  import opened Batches
  import opened Store
  import M = SerialMeaning
  import R = Runs
  import P = Parsing
  import J = JobText

  /** All keys have a bucket. */
  predicate Storable(c: P.JobCommand) {
    match c
    case Write(ps) => forall i | 0 <= i < |ps| :: Hashable(ps[i].key)
    case Read(ks) => AllHashable(ks)
    case Delete(ks) => AllHashable(ks)
    case _ => true
  }

  predicate AllHashable(ks: seq<string>) { forall i | 0 <= i < |ks| :: Hashable(ks[i]) }

  predicate AllStorable(cs: seq<P.JobCommand>) { forall i | 0 <= i < |cs| :: Storable(cs[i]) }

  function KeyList(ks: seq<string>): (keys: seq<Key>)
    requires AllHashable(ks)
    ensures |keys| == |ks|
  {
    seq(|ks|, i requires 0 <= i < |ks| => ks[i])
  }

  /** A parsed command as a command of a job thread. */
  function Stored(c: P.JobCommand): Command
    requires Storable(c)
  {
    match c
    case Write(ps) => Write(seq(|ps|, i requires 0 <= i < |ps| => Pair(ps[i].key, ps[i].value)))
    case Read(ks) => Read(KeyList(ks))
    case Delete(ks) => Delete(KeyList(ks))
    case Show => Show
    case Wait(delay) => Wait(delay)
    case Backup => Backup
  }

  function Program(cs: seq<P.JobCommand>): seq<Command>
    requires AllStorable(cs)
  {
    seq(|cs|, i requires 0 <= i < |cs| => Stored(cs[i]))
  }

  /** The commands a job thread finds in a file; its buffers have room for 256 items. */
  function Found(file: string): (cs: seq<P.JobCommand>)
    ensures cs == J.Commands(file, 256)
  {
    J.Commands(file, MAX_WRITE_SIZE)
  }

  predicate FilesOk(files: seq<string>) { forall t | 0 <= t < |files| :: AllStorable(Found(files[t])) }

  /** One thread a file. */
  function SystemOf(table: Table, files: seq<string>, limit: nat): System
    requires FilesOk(files)
  {
    System(table, seq(|files|, t requires 0 <= t < |files| => Program(Found(files[t]))), limit)
  }

  /** The lists of a parsed job are not empty. */
  predicate NotEmpty(c: P.JobCommand) {
    match c
    case Write(ps) => ps != []
    case Read(ks) => ks != []
    case Delete(ks) => ks != []
    case _ => true
  }

  lemma {:induction false} FoundNotEmpty(s: string, max: nat)
    ensures forall c | c in J.Commands(s, max) :: NotEmpty(c)
    decreases |s|
  {
    var w := P.GetNext(s);
    match w.cmd
    case EOC =>
    case CmdWrite => FoundNotEmpty(P.ParseWrite(w.rest, max).rest, max);
    case CmdRead => FoundNotEmpty(P.ParseReadDelete(w.rest, max).rest, max);
    case CmdDelete => FoundNotEmpty(P.ParseReadDelete(w.rest, max).rest, max);
    case CmdWait => FoundNotEmpty(P.ParseWait(w.rest).rest, max);
    case _ => FoundNotEmpty(w.rest, max);
  }

  lemma FilesGiveJobs(table: Table, files: seq<string>, limit: nat)
    requires FilesOk(files)
    ensures SystemOf(table, files, limit).Ok()
  {
    forall t, i | 0 <= t < |files| && 0 <= i < |Found(files[t])|
      ensures CommandOk(SystemOf(table, files, limit).programs[t][i])
    {
      FoundNotEmpty(files[t], MAX_WRITE_SIZE);
      assert Found(files[t])[i] in Found(files[t]);
    }
  }

  /** x is the parsed command c, its list sorted by key. */
  ghost predicate Carries(c: P.JobCommand, x: Command) {
    && Sorted(KeysOf(x))
    && match c
       case Write(ps) =>
         x.Write? && multiset(ps) == multiset(seq(|x.pairs|, i requires 0 <= i < |x.pairs| =>
           P.Item(x.pairs[i].key, x.pairs[i].value)))
       case Read(ks) => x.Read? && multiset(ks) == multiset(x.keys)
       case Delete(ks) => x.Delete? && multiset(ks) == multiset(x.keys)
       case Show => x == Show
       case Wait(delay) => x == Wait(delay)
       case Backup => x == Backup
  }

  /** done is the commands found in a file, in file order, each list as sorted. */
  ghost predicate CarriedOut(file: string, done: seq<Command>) {
    |done| == |Found(file)| && forall i | 0 <= i < |done| :: Carries(Found(file)[i], done[i])
  }

  function Items(ps: seq<Pair>): seq<P.Item> {
    seq(|ps|, i requires 0 <= i < |ps| => P.Item(ps[i].key, ps[i].value))
  }

  /** The same pairs, in any order, are the same items. */
  lemma {:induction false} SameItems(ps: seq<Pair>, qs: seq<Pair>)
    requires multiset(ps) == multiset(qs)
    ensures multiset(Items(ps)) == multiset(Items(qs))
  {
    if ps == [] {
      assert |qs| == |multiset(qs)| == 0;
    } else {
      assert ps[0] in multiset(qs);
      var i :| 0 <= i < |qs| && qs[i] == ps[0];
      ItemsWithout(ps, 0);
      ItemsWithout(qs, i);
      CancelOne(multiset(Others(ps, 0)), multiset(Others(qs, i)), ps[0]);
      SameItems(Others(ps, 0), Others(qs, i));
    }
  }

  /** A list without its member at place i. */
  function Others<T>(s: seq<T>, i: nat): (r: seq<T>)
    requires i < |s|
    ensures |r| == |s| - 1
  {
    s[..i] + s[i + 1..]
  }

  lemma CancelOne<T>(a: multiset<T>, b: multiset<T>, x: T)
    requires a + multiset{x} == b + multiset{x}
    ensures a == b
  {
    assert a == a + multiset{x} - multiset{x};
  }

  lemma ItemsWithout(ps: seq<Pair>, i: nat)
    requires i < |ps|
    ensures multiset(ps) == multiset(Others(ps, i)) + multiset{ps[i]}
    ensures multiset(Items(ps)) == multiset(Items(Others(ps, i))) + multiset{P.Item(ps[i].key, ps[i].value)}
  {
    var items := Items(ps);
    assert ps == ps[..i] + [ps[i]] + ps[i + 1..];
    assert items == items[..i] + [items[i]] + items[i + 1..];
    Removed(ps, i);
    assert Items(Others(ps, i)) == items[..i] + items[i + 1..];
  }

  lemma InstanceCarries(c: P.JobCommand, x: Command)
    requires Storable(c) && Instance(Stored(c), x)
    ensures Carries(c, x)
  {
    match c
    case Write(ps) =>
      SameItems(Stored(c).pairs, x.pairs);
      assert Items(Stored(c).pairs) == ps;
      assert Items(x.pairs) == seq(|x.pairs|, i requires 0 <= i < |x.pairs| =>
        P.Item(x.pairs[i].key, x.pairs[i].value));
    case Read(ks) => assert KeyList(ks) == ks;
    case Delete(ks) => assert KeyList(ks) == ks;
    case _ =>
  }

  /** From files to files. When the jobs are done, each has carried out exactly the
      commands the parser finds in its file, in file order, and the table and all
      output files are those of carrying out all these commands one at a time, in
      one order. */
  lemma FilesAreSerialisable(table: Table, files: seq<string>, limit: nat, ls: seq<Step>)
    requires FilesOk(files) && IsRun(Start(SystemOf(table, files, limit)), ls)
    ensures var sys := SystemOf(table, files, limit);
            var s := After(Start(sys), ls);
            R.AllIdle(s) ==>
              && |s.threads| == |files|
              && s.table == SerialResult(sys, s.log).table
              && forall t | 0 <= t < |files| ::
                   CarriedOut(files[t], R.CommitsOf(s.log, t)) && s.threads[t].out == SerialResult(sys, s.log).outs[t]
  {
    var sys := SystemOf(table, files, limit);
    FilesGiveJobs(table, files, limit);
    R.Serialisable(sys, ls);
    var s := After(Start(sys), ls);
    if R.AllIdle(s) {
      forall t | 0 <= t < |files| ensures CarriedOut(files[t], R.CommitsOf(s.log, t)) {
        assert sys.programs[t] == Program(Found(files[t]));
        forall i | 0 <= i < |Found(files[t])| ensures Carries(Found(files[t])[i], R.CommitsOf(s.log, t)[i]) {
          InstanceCarries(Found(files[t])[i], R.CommitsOf(s.log, t)[i]);
        }
      }
    }
  }

  // ---- what is in the files then ----

  lemma {:induction false} LogOfThreads(s: State, ls: seq<Step>)
    requires IsRun(s, ls) && M.ThreadsKnown(s.log, |s.threads|)
    ensures M.ThreadsKnown(After(s, ls).log, |s.threads|)
    decreases |ls|
  {
    if ls != [] {
      LogOfThreads(Do(s, ls[0]), ls[1..]);
    }
  }

  function Outputs(s: State): seq<string> {
    seq(|s.threads|, t requires 0 <= t < |s.threads| => s.threads[t].out)
  }

  /** From files to maps. When the jobs are done, there is an order of all commands
      found in the files, which keeps the order of each file, such that the table is
      the map after the commands in this order, and each output file holds what the
      commands of its job print, in turn, about the map as they find it. */
  lemma FilesMean(table: Table, files: seq<string>, limit: nat, ls: seq<Step>)
    requires Valid(table) && FilesOk(files) && IsRun(Start(SystemOf(table, files, limit)), ls)
    ensures var s := After(Start(SystemOf(table, files, limit)), ls);
            R.AllIdle(s) ==>
              && |s.threads| == |files|
              && (forall t | 0 <= t < |files| :: CarriedOut(files[t], R.CommitsOf(s.log, t)))
              && Valid(s.table) && Contents(s.table) == M.MapAfterAll(Contents(table), s.log)
              && M.Tells(Contents(table), s.log, Outputs(s))
  {
    var sys := SystemOf(table, files, limit);
    var s := After(Start(sys), ls);
    FilesAreSerialisable(table, files, limit, ls);
    if R.AllIdle(s) {
      LogOfThreads(Start(sys), ls);
      M.SerialMeans(sys, s.log);
      assert Outputs(s) == SerialResult(sys, s.log).outs;
    }
  }

  /** Every finished backup file prints the pairs of the map that the commands before
      its BACKUP in this order leave, each once. */
  lemma BackupsMean(table: Table, files: seq<string>, limit: nat, ls: seq<Step>, c: nat)
    requires Valid(table) && FilesOk(files) && IsRun(Start(SystemOf(table, files, limit)), ls)
    requires c < |After(Start(SystemOf(table, files, limit)), ls).children|
    requires After(Start(SystemOf(table, files, limit)), ls).children[c].status != Running
    ensures var s := After(Start(SystemOf(table, files, limit)), ls);
            var at := s.children[c].at;
            && at < |s.log| && s.log[at].cmd == Backup
            && M.BacksUp(M.MapAfterAll(Contents(table), s.log[..at]), s.children[c].out)
  {
    var sys := SystemOf(table, files, limit);
    var s := After(Start(sys), ls);
    FilesGiveJobs(table, files, limit);
    R.BackupsAreConsistent(sys, ls, c);
    LogOfThreads(Start(sys), ls);
    M.SerialMeans(sys, s.log[..s.children[c].at]);
    M.BackupMeans(SerialResult(sys, s.log[..s.children[c].at]).table);
  }

  // ---- printed jobs ----

  /** Job lists within the limits of the parser, with keys that have a bucket. */
  predicate JobsOk(jobs: seq<seq<P.JobCommand>>) {
    forall t | 0 <= t < |jobs| :: J.AllPrintable(jobs[t], MAX_WRITE_SIZE) && AllStorable(jobs[t])
  }

  function Texts(jobs: seq<seq<P.JobCommand>>): seq<string> {
    seq(|jobs|, t requires 0 <= t < |jobs| => J.JobText(jobs[t]))
  }

  /** x is the command c, for a job thread. */
  ghost predicate SameCommand(c: P.JobCommand, x: Command) {
    match c
    case Write(ps) =>
      && x.Write? && |x.pairs| == |ps|
      && forall i | 0 <= i < |ps| :: x.pairs[i].key == ps[i].key && x.pairs[i].value == ps[i].value
    case Read(ks) => x.Read? && x.keys == ks
    case Delete(ks) => x.Delete? && x.keys == ks
    case Show => x == Show
    case Wait(delay) => x == Wait(delay)
    case Backup => x == Backup
  }

  /** Jobs written to files are run as the jobs that were written: one thread a job, with
      just its commands, in their order. */
  lemma PrintedJobsRun(table: Table, jobs: seq<seq<P.JobCommand>>, limit: nat)
    requires JobsOk(jobs)
    ensures FilesOk(Texts(jobs))
    ensures var sys := SystemOf(table, Texts(jobs), limit);
            && sys.table == table && sys.limit == limit && |sys.programs| == |jobs|
            && forall t | 0 <= t < |jobs| ::
                 && |sys.programs[t]| == |jobs[t]|
                 && forall i | 0 <= i < |jobs[t]| :: SameCommand(jobs[t][i], sys.programs[t][i])
  {
    forall t | 0 <= t < |jobs| ensures Found(Texts(jobs)[t]) == jobs[t] {
      J.JobRoundTrip(jobs[t], MAX_WRITE_SIZE, "");
    }
    var sys := SystemOf(table, Texts(jobs), limit);
    forall t | 0 <= t < |jobs|
      ensures |sys.programs[t]| == |jobs[t]|
      ensures forall i | 0 <= i < |jobs[t]| :: SameCommand(jobs[t][i], sys.programs[t][i])
    {
      assert sys.programs[t] == Program(jobs[t]);
    }
  }
}
