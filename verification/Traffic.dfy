/** How the commands of jobs meet the sessions of clients: the plan of a command is a
    run of writes and deletions in the session model, one key at a time. */
module Traffic {
  import opened Text
  import opened Tables
  import B = Batches
  import S = Subscriptions

  /** The call that an action amounts to, if any. */
  function CallOf(a: B.Act): seq<S.Call> {
    match a
    case WriteKey(k, v) => [S.WriteKey(k, v)]
    case DeleteKey(k) => [S.DeleteKey(k)]
    case _ => []
  }

  function CallsOf(acts: seq<B.Act>): seq<S.Call> {
    if acts == [] then [] else CallOf(acts[0]) + CallsOf(acts[1..])
  }

  lemma DropAbsent(t: Table, k: Key)
    requires Get(t, k) == None
    ensures Drop(t, k) == t && Subscribers(t, k) == []
  {
  }

  /** One action and its call have the same effect. */
  lemma ActIsCall(a: B.Act, p: B.Progress, s: S.Server)
    requires p.table == s.table
    ensures var s' := S.Server(B.DoAct(a, p).table, s.slots, s.sent + B.NotesOf(a, p.table));
            if CallOf(a) == [] then s' == s else S.Possible(s, CallOf(a)[0]) && S.Do(s, CallOf(a)[0]) == s'
  {
    if a.DeleteKey? && Get(s.table, a.key) == None {
      DropAbsent(s.table, a.key);
    }
    assert s.sent + [] == s.sent;
  }

  /** A command does to the table, and sends to the subscribers, what its calls do one
      after the other; it leaves the clients' own lists alone. So what the session
      theorems say of writes and deletions, they say of WRITE and DELETE batches. */
  lemma {:induction false} CommandIsCalls(acts: seq<B.Act>, p: B.Progress, s: S.Server)
    requires p.table == s.table
    ensures S.IsRun(s, CallsOf(acts))
    ensures S.After(s, CallsOf(acts)) ==
            S.Server(B.RunActs(acts, p).table, s.slots, s.sent + B.Sent(acts, p))
    decreases |acts|
  {
    if acts == [] {
      assert s.sent + [] == s.sent;
    } else {
      var q, more := B.DoAct(acts[0], p), B.NotesOf(acts[0], p.table);
      var s1 := S.Server(q.table, s.slots, s.sent + more);
      ActIsCall(acts[0], p, s);
      CommandIsCalls(acts[1..], q, s1);
      Regroup(s.sent, more, B.Sent(acts[1..], q));
      FirstCall(CallOf(acts[0]), CallsOf(acts[1..]));
    }
  }

  lemma FirstCall(first: seq<S.Call>, rest: seq<S.Call>)
    requires |first| <= 1
    ensures if first == [] then first + rest == rest else (first + rest)[0] == first[0] && (first + rest)[1..] == rest
  {
  }
}
