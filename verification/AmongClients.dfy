/** Clients do not disturb the jobs: without the subscriber lists, a run of jobs and
    clients is a run of the jobs alone. So all that was proved of jobs holds whatever
    clients ask and however slowly notifications are written. */
module AmongClients {
  import opened Text
  import opened Tables
  import opened Delivery
  import B = Batches
  import J = Store
  import JR = JobRuns
  import M = SerialMeaning
  import P = Progress
  import R = Runs
  import S = Subscriptions
  import T = Traffic

  // ---- tables without subscribers ----

  function BareChain(c: Chain): (r: Chain)
    ensures |r| == |c| && forall i | 0 <= i < |c| :: r[i] == c[i].(subs := [])
  {
    seq(|c|, i requires 0 <= i < |c| => c[i].(subs := []))
  }

  function Bare(t: Table): (r: Table)
    ensures forall b | 0 <= b < TABLE_SIZE :: r[b] == BareChain(t[b])
  {
    seq(TABLE_SIZE, b requires 0 <= b < TABLE_SIZE => BareChain(t[b]))
  }

  lemma FindBare(c: Chain, key: Key)
    ensures Find(BareChain(c), key) == Find(c, key)
  {
    var i, i' := Find(c, key), Find(BareChain(c), key);
    assert i < |c| ==> BareChain(c)[i].key == key;
    assert i' < |c| ==> c[i'].key == key;
  }

  lemma GetBare(t: Table, key: Key)
    ensures Get(Bare(t), key) == match Get(t, key) case Some(e) => Some(e.(subs := [])) case None => None
  {
    FindBare(t[Bucket(key)], key);
  }

  lemma PutBare(t: Table, key: Key, value: string)
    ensures Put(Bare(t), key, value) == Bare(Put(t, key, value))
  {
    var b := Bucket(key);
    var c := t[b];
    FindBare(c, key);
    assert PutChain(BareChain(c), key, value) == BareChain(PutChain(c, key, value));
  }

  lemma DropBare(t: Table, key: Key)
    ensures Drop(Bare(t), key) == Bare(Drop(t, key))
  {
    var c := t[Bucket(key)];
    var i := Find(c, key);
    FindBare(c, key);
    if i < |c| {
      Removed(c, i);
      Removed(BareChain(c), i);
    }
    assert DropChain(BareChain(c), key) == BareChain(DropChain(c, key));
  }

  lemma SetSubsBare(t: Table, key: Key, subs: seq<int>)
    ensures Bare(SetSubs(t, key, subs)) == Bare(t)
  {
    var c := t[Bucket(key)];
    var i := Find(c, key);
    if i < |c| {
      assert BareChain(c[i := c[i].(subs := subs)]) == BareChain(c);
    }
  }

  lemma {:induction false} ShowBare(c: Chain)
    ensures B.ShowChain(BareChain(c)) == B.ShowChain(c)
  {
    if c != [] {
      assert BareChain(c)[1..] == BareChain(c[1..]);
      ShowBare(c[1..]);
    }
  }

  lemma {:induction false} BackupBare(c: Chain)
    ensures B.BackupChain(BareChain(c)) == B.BackupChain(c)
  {
    if c != [] {
      assert BareChain(c)[1..] == BareChain(c[1..]);
      BackupBare(c[1..]);
    }
  }

  lemma ValidBare(t: Table)
    ensures Valid(Bare(t)) <==> Valid(t)
    ensures Valid(t) ==> Contents(Bare(t)) == Contents(t)
  {
    forall b | 0 <= b < TABLE_SIZE ensures ValidChain(Bare(t)[b], b) <==> ValidChain(t[b], b) {
      SameKeysValid(t[b], b);
    }
    if Valid(t) {
      ContentsBare(t);
    }
  }

  lemma SameKeysValid(c: Chain, b: nat)
    ensures ValidChain(BareChain(c), b) <==> ValidChain(c, b)
  {
    var c' := BareChain(c);
    assert forall i | 0 <= i < |c| :: c'[i].key == c[i].key;
  }

  lemma ContentsBare(t: Table)
    requires Valid(t) && Valid(Bare(t))
    ensures Contents(Bare(t)) == Contents(t)
  {
    forall k: Key ensures (k in Contents(Bare(t)) <==> k in Contents(t)) &&
                          (k in Contents(t) ==> Contents(Bare(t))[k] == Contents(t)[k]) {
      GetBare(t, k);
    }
  }

  // ---- jobs without subscribers ----

  function BareProgress(p: B.Progress): B.Progress { p.(table := Bare(p.table)) }

  lemma ActBare(a: B.Act, p: B.Progress)
    ensures B.DoAct(a, BareProgress(p)) == BareProgress(B.DoAct(a, p))
  {
    match a
    case Emit(_) =>
    case WriteKey(k, v) => PutBare(p.table, k, v);
    case ReadKey(k) => GetBare(p.table, k);
    case DeleteKey(k) =>
      GetBare(p.table, k);
      DropBare(p.table, k);
    case EndDelete =>
    case ShowBucket(b) =>
      if b < TABLE_SIZE {
        ShowBare(p.table[b]);
      }
  }

  function BareChild(c: J.Child): J.Child { c.(table := Bare(c.table)) }

  function BareChildren(cs: seq<J.Child>): (r: seq<J.Child>)
    ensures |r| == |cs| && forall i | 0 <= i < |cs| :: r[i] == BareChild(cs[i])
  {
    seq(|cs|, i requires 0 <= i < |cs| => BareChild(cs[i]))
  }

  function BareJobs(s: J.State): J.State { s.(table := Bare(s.table), children := BareChildren(s.children)) }

  lemma EnabledBare(s: J.State, j: J.Step)
    ensures J.Enabled(BareJobs(s), j) <==> J.Enabled(s, j)
  {
  }

  lemma PerformBare(s: J.State, t: nat)
    requires t < |s.threads| && J.CanMove(s, s.threads[t], J.Perform)
    ensures J.DoPerform(BareJobs(s), t) == BareJobs(J.DoPerform(s, t))
  {
    var p := s.threads[t].phase;
    ActBare(B.Acts(p.cmd)[p.done], B.Progress(s.table, s.threads[t].out, p.flag));
  }

  lemma ChildrenBare(cs: seq<J.Child>, i: nat, c: J.Child)
    ensures i < |cs| ==> BareChildren(cs[i := c]) == BareChildren(cs)[i := BareChild(c)]
    ensures BareChildren(cs + [c]) == BareChildren(cs) + [BareChild(c)]
  {
  }

  lemma PrintBare(s: J.State, c: nat)
    requires J.Enabled(s, J.ChildPrint(c))
    ensures J.Do(BareJobs(s), J.ChildPrint(c)) == BareJobs(J.Do(s, J.ChildPrint(c)))
  {
    var ch := s.children[c];
    BackupBare(ch.table[ch.next]);
    ChildrenBare(s.children, c, J.Do(s, J.ChildPrint(c)).children[c]);
  }

  lemma MoveBare(s: J.State, t: nat, m: J.Move)
    requires t < |s.threads| && J.CanMove(s, s.threads[t], m)
    ensures J.CanMove(BareJobs(s), BareJobs(s).threads[t], m)
    ensures J.Do(BareJobs(s), J.Step.Thread(t, m)) == BareJobs(J.Do(s, J.Step.Thread(t, m)))
  {
    if m.Perform? {
      PerformBare(s, t);
    } else if m.Reap? || m.Fork? {
      ChildMoveBare(s, t, m);
    } else {
      PlainMoveBare(s, t, m);
    }
  }

  /** A move that changes neither table nor backup processes. */
  lemma PlainMoveBare(s: J.State, t: nat, m: J.Move)
    requires t < |s.threads| && J.CanMove(s, s.threads[t], m) && !m.Perform? && !m.Reap? && !m.Fork?
    ensures J.CanMove(BareJobs(s), BareJobs(s).threads[t], m)
    ensures J.Do(BareJobs(s), J.Step.Thread(t, m)) == BareJobs(J.Do(s, J.Step.Thread(t, m)))
  {
  }

  lemma ChildMoveBare(s: J.State, t: nat, m: J.Move)
    requires t < |s.threads| && J.CanMove(s, s.threads[t], m) && (m.Reap? || m.Fork?)
    ensures J.CanMove(BareJobs(s), BareJobs(s).threads[t], m)
    ensures J.Do(BareJobs(s), J.Step.Thread(t, m)) == BareJobs(J.Do(s, J.Step.Thread(t, m)))
  {
    var s' := J.Do(s, J.Step.Thread(t, m));
    if m.Reap? {
      ChildrenBare(s.children, m.child, s'.children[m.child]);
    } else {
      ChildrenBare(s.children, 0, s'.children[|s.children|]);
    }
  }

  lemma JobBare(s: J.State, j: J.Step)
    requires J.Enabled(s, j)
    ensures J.Enabled(BareJobs(s), j) && J.Do(BareJobs(s), j) == BareJobs(J.Do(s, j))
  {
    match j
    case Thread(t, m) => MoveBare(s, t, m);
    case ChildPrint(c) => PrintBare(s, c);
    case ChildExit(c) => ChildrenBare(s.children, c, J.Do(s, j).children[c]);
  }

  // ---- what clients ask for ----

  lemma {:induction false} PurgedBare(t: Table, keys: seq<Key>, fd: int)
    ensures Bare(S.Purged(t, keys, fd)) == Bare(t)
    decreases |keys|
  {
    if keys != [] {
      SetSubsBare(t, keys[0], Without(Subscribers(t, keys[0]), fd));
      PurgedBare(S.Unlisted(t, keys[0], fd), keys[1..], fd);
    }
  }

  lemma {:induction false} AllPurgedBare(t: Table, slots: S.Slots, n: nat)
    requires n <= |slots|
    ensures Bare(S.AllPurged(t, slots, n)) == Bare(t)
  {
    if n > 0 {
      AllPurgedBare(t, slots, n - 1);
      if slots[n - 1].Some? {
        PurgedBare(S.AllPurged(t, slots, n - 1), slots[n - 1].value.subscriptions, slots[n - 1].value.fdNotif);
      }
    }
  }

  lemma AskBare(r: S.Server, c: S.Call)
    requires S.Possible(r, c) && !c.WriteKey? && !c.DeleteKey?
    ensures Bare(S.Do(r, c).table) == Bare(r.table)
  {
    match c
    case Connect(_, _, _) =>
    case Subscribe(i, name) =>
      if !S.BadName(name) {
        SetSubsBare(r.table, name, Added(Subscribers(r.table, name), r.slots[i].value.fdNotif));
      }
    case Unsubscribe(i, name) =>
      if !S.BadName(name) {
        SetSubsBare(r.table, name, Without(Subscribers(r.table, name), r.slots[i].value.fdNotif));
      }
    case Disconnect(i) => PurgedBare(r.table, r.slots[i].value.subscriptions, r.slots[i].value.fdNotif);
    case CleanAll => AllPurgedBare(r.table, r.slots, |r.slots|);
  }

  // ---- runs ----

  /** The steps of jobs and backups in a run. */
  function JobsOf(ls: seq<Step>): seq<J.Step> {
    if ls == [] then [] else (if ls[0].Job? then [ls[0].l] else []) + JobsOf(ls[1..])
  }

  function BareSystem(sys: J.System): J.System { sys.(table := Bare(sys.table)) }

  lemma StartBare(sys: J.System, slots: S.Slots)
    ensures BareJobs(Start(sys, slots).jobs) == J.Start(BareSystem(sys))
  {
  }

  /** Writes to pipes and what clients ask for leave the jobs alone. */
  lemma OtherStepBare(s: State, l: Step)
    requires Enabled(s, l) && !l.Job?
    ensures BareJobs(Do(s, l).jobs) == BareJobs(s.jobs)
  {
    if l.Ask? {
      AskBare(ServerOf(s), l.c);
    }
  }

  /** Erasing the lists, the writes to pipes and the clients' requests from a run gives
      a run of the jobs alone. */
  lemma {:induction false} RunBare(s: State, ls: seq<Step>)
    requires IsRun(s, ls)
    ensures J.IsRun(BareJobs(s.jobs), JobsOf(ls))
    ensures J.After(BareJobs(s.jobs), JobsOf(ls)) == BareJobs(After(s, ls).jobs)
    decreases |ls|
  {
    if ls != [] {
      RunBare(Do(s, ls[0]), ls[1..]);
      if ls[0].Job? {
        JobBare(s.jobs, ls[0].l);
        var js := JobsOf(ls);
        assert js[0] == ls[0].l && js[1..] == JobsOf(ls[1..]);
      } else {
        OtherStepBare(s, ls[0]);
        assert JobsOf(ls) == JobsOf(ls[1..]);
      }
    }
  }

  /** Serialisability among clients. Whatever clients ask meanwhile, when all jobs are
      done the pairs of the table, and every output file, are those of running the
      commands one at a time in the order of their last bucket lock. */
  lemma JobsAreSerial(sys: J.System, slots: S.Slots, ls: seq<Step>)
    requires sys.Ok() && IsRun(Start(sys, slots), ls)
    ensures var s, bare := After(Start(sys, slots), ls).jobs, BareSystem(sys);
            R.AllIdle(s) ==>
              && R.SerialisesAll(sys, s.log)
              && Bare(s.table) == J.SerialResult(bare, s.log).table
              && |s.threads| == |sys.programs|
              && forall t | 0 <= t < |s.threads| :: s.threads[t].out == J.SerialResult(bare, s.log).outs[t]
  {
    StartBare(sys, slots);
    RunBare(Start(sys, slots), ls);
    R.Serialisable(BareSystem(sys), JobsOf(ls));
  }

  /** And every finished backup file is that of a serial table. */
  lemma BackupsAreSerial(sys: J.System, slots: S.Slots, ls: seq<Step>, c: nat)
    requires sys.Ok() && IsRun(Start(sys, slots), ls)
    requires c < |After(Start(sys, slots), ls).jobs.children|
    requires After(Start(sys, slots), ls).jobs.children[c].status != J.Running
    ensures var s := After(Start(sys, slots), ls).jobs;
            var at := s.children[c].at;
            && at < |s.log| && s.log[at].cmd == B.Backup
            && s.children[c].out == B.BackupText(J.SerialResult(BareSystem(sys), s.log[..at]).table, TABLE_SIZE)
  {
    StartBare(sys, slots);
    RunBare(Start(sys, slots), ls);
    R.BackupsAreConsistent(BareSystem(sys), JobsOf(ls), c);
  }

  /** From files to maps among clients: as for jobs alone, table and output files mean
      what the commands in the files say, in one order of them all. */
  lemma FilesMean(table: Table, files: seq<string>, limit: nat, slots: S.Slots, ls: seq<Step>)
    requires Valid(table) && JR.FilesOk(files) && IsRun(Start(JR.SystemOf(table, files, limit), slots), ls)
    ensures var s := After(Start(JR.SystemOf(table, files, limit), slots), ls).jobs;
            R.AllIdle(s) ==>
              && |s.threads| == |files|
              && (forall t | 0 <= t < |files| :: JR.CarriedOut(files[t], R.CommitsOf(s.log, t)))
              && Valid(s.table) && Contents(s.table) == M.MapAfterAll(Contents(table), s.log)
              && M.Tells(Contents(table), s.log, JR.Outputs(s))
  {
    var sys := JR.SystemOf(table, files, limit);
    StartBare(sys, slots);
    RunBare(Start(sys, slots), ls);
    ValidBare(table);
    assert BareSystem(sys) == JR.SystemOf(Bare(table), files, limit);
    JR.FilesMean(Bare(table), files, limit, JobsOf(ls));
    ValidBare(After(Start(sys, slots), ls).jobs.table);
  }

  // ---- progress ----

  /** Clients cannot stop the jobs, as long as writes to pipes go through: while jobs or
      backups are not done, a job, a backup process, or a job thread with a
      notification to write can go on; and there are only so many steps of jobs and
      backups. */
  lemma JobsGoOn(sys: J.System, slots: S.Slots, ls: seq<Step>) returns (l: Step)
    requires sys.Ok() && P.Ordered(sys) && (sys.limit > 0 || P.NoBackups(sys))
    requires IsRun(Start(sys, slots), ls) && !P.Finished(After(Start(sys, slots), ls).jobs)
    ensures Enabled(After(Start(sys, slots), ls), l) && !l.Ask?
    ensures |JobsOf(ls)| <= P.Measure(J.Start(BareSystem(sys)))
  {
    var s := After(Start(sys, slots), ls);
    StartBare(sys, slots);
    RunBare(Start(sys, slots), ls);
    P.Reached(BareSystem(sys), JobsOf(ls));
    BoxEach(Start(sys, slots), ls);
    var j := P.SomeMove(BareSystem(sys), BareJobs(s.jobs));
    EnabledBare(s.jobs, j);
    l := if j.Thread? && s.boxes[j.t].blocks != [] then Send(j.t) else Job(j);
  }

  lemma {:induction false} BoxEach(s: State, ls: seq<Step>)
    requires IsRun(s, ls) && |s.boxes| == |s.jobs.threads|
    ensures |After(s, ls).boxes| == |After(s, ls).jobs.threads|
    decreases |ls|
  {
    if ls != [] {
      BoxEach(Do(s, ls[0]), ls[1..]);
    }
  }
}
