/** Theorems about whole runs of sessions: who is on whose list, and what a client
    is told about a key. */
module Notifications {
  import opened Text
  import opened Tables
  import opened Subscriptions

  /** A server that has just started, with n slots for clients. */
  function Start(n: nat): Server { Server(Empty(), seq(n, _ => None), []) }

  lemma StartOk(n: nat)
    ensures Ok(Start(n))
  {
    forall k: Key ensures KeyOk(Start(n), k) {
      assert Find(Empty()[Bucket(k)], k) == 0;
    }
  }

  // ---- the cross index ----

  /** Cross index. After any calls whatever, each descriptor on the list of a key is
      there once, and is the notification descriptor of exactly one connected
      client, whose own list has that key. */
  lemma CrossIndex(n: nat, cs: seq<Call>, key: Key)
    requires IsRun(Start(n), cs)
    ensures var s := After(Start(n), cs);
            && NoDuplicates(Subscribers(s.table, key))
            && forall fd | fd in Subscribers(s.table, key) ::
                 && (exists i | 0 <= i < |s.slots| :: Answers(s.slots[i], key, fd))
                 && (forall i, j | 0 <= i < |s.slots| && 0 <= j < |s.slots| && Answers(s.slots[i], key, fd) ::
                       Uses(s.slots[j], fd) ==> i == j)
  {
    StartOk(n);
    RunOk(Start(n), cs);
    var s := After(Start(n), cs);
    assert KeyOk(s, key);
    forall fd | fd in Subscribers(s.table, key) ensures Answered(s, key, fd) {
    }
    forall fd: int, i, j |
        0 <= i < |s.slots| && 0 <= j < |s.slots| && Answers(s.slots[i], key, fd) && Uses(s.slots[j], fd)
      ensures i == j
    {
      OneAnswers(s.slots, i, j, key, fd);
    }
  }

  // ---- purge ----

  /** After kvs_disconnect nothing of the client is left: its own slot is free, no
      list has its descriptor, and all pairs are as they were. */
  lemma DisconnectPurges(n: nat, cs: seq<Call>, i: nat)
    requires IsRun(Start(n), cs) && Possible(After(Start(n), cs), Disconnect(i))
    ensures var s := After(Start(n), cs);
            var s' := Do(s, Disconnect(i));
            && s'.slots == s.slots[i := None] && s'.sent == s.sent && SamePairs(s.table, s'.table)
            && forall k: Key :: s.slots[i].value.fdNotif !in Subscribers(s'.table, k)
  {
    StartOk(n);
    RunOk(Start(n), cs);
    var s := After(Start(n), cs);
    DisconnectOk(s, i);
    PurgedMeaning(s.table, s.slots[i].value.subscriptions, s.slots[i].value.fdNotif);
  }

  /** After clean_all_clients every slot is free and every list empty. */
  lemma CleanAllPurges(n: nat, cs: seq<Call>)
    requires IsRun(Start(n), cs)
    ensures var s := After(Start(n), cs);
            var s' := Do(s, CleanAll);
            && (forall i | 0 <= i < |s'.slots| :: s'.slots[i] == None) && |s'.slots| == |s.slots|
            && (forall k: Key :: Subscribers(s'.table, k) == [])
            && s'.sent == s.sent && SamePairs(s.table, s'.table)
  {
    StartOk(n);
    RunOk(Start(n), cs);
    CleanAllOk(After(Start(n), cs));
  }

  /** A descriptor that open returns is on no list, whoever had it before. */
  lemma NewSessionStartsClean(n: nat, cs: seq<Call>, c: Call, k: Key)
    requires IsRun(Start(n), cs) && c.Connect? && Possible(After(Start(n), cs), c)
    ensures c.fdNotif !in Subscribers(Do(After(Start(n), cs), c).table, k)
  {
    StartOk(n);
    RunOk(Start(n), cs);
    UnusedIsUnlisted(After(Start(n), cs), c.fdNotif, k);
  }

  lemma UnusedIsUnlisted(s: Server, fd: int, k: Key)
    requires Ok(s) && Unused(s.slots, fd)
    ensures fd !in Subscribers(s.table, k)
  {
    assert KeyOk(s, k);
    forall i | 0 <= i < |s.slots| ensures !Answers(s.slots[i], k, fd) {
      assert !Uses(s.slots[i], fd);
    }
  }

  // ---- what one session is told about one key ----

  /** The texts sent to a descriptor about a key. */
  function Texts(notes: seq<Note>, fd: int, k: Key): seq<string> {
    if notes == [] then [] else
    (if notes[0].fd == fd && notes[0].key == k then [notes[0].text] else []) + Texts(notes[1..], fd, k)
  }

  lemma {:induction false} TextsSplit(a: seq<Note>, b: seq<Note>, fd: int, k: Key)
    ensures Texts(a + b, fd, k) == Texts(a, fd, k) + Texts(b, fd, k)
  {
    if a == [] {
      assert a + b == b;
    } else {
      assert (a + b)[1..] == a[1..] + b;
      TextsSplit(a[1..], b, fd, k);
    }
  }

  /** A message counts if both descriptor and key are the ones meant. */
  lemma TextsOfOne(n: Note, fd: int, k: Key)
    ensures Texts([n], fd, k) == if n.fd == fd && n.key == k then [n.text] else []
  {
    assert [n][1..] == [];
  }

  lemma {:induction false} TextsOfNotes(fds: seq<int>, key: Key, text: string, fd: int, k: Key)
    requires NoDuplicates(fds)
    ensures Texts(NotesTo(fds, key, text), fd, k) == if key == k && fd in fds then [text] else []
  {
    if fds != [] {
      assert NotesTo(fds, key, text)[1..] == NotesTo(fds[1..], key, text);
      TextsOfNotes(fds[1..], key, text, fd, k);
      assert fds == [fds[0]] + fds[1..];
    }
  }

  /** What the client in one slot stands to learn about one key: whether it is on
      the key's list, and whether the key is there, with which value. */
  datatype Watch = Watch(on: bool, value: Option<string>)

  function Watching(s: Server, i: nat, k: Key): Watch
    requires i < |s.slots| && s.slots[i].Some?
  {
    Watch(s.slots[i].value.fdNotif in Subscribers(s.table, k),
          match Get(s.table, k) case Some(e) => Some(e.value) case None => None)
  }

  /** How one call changes that, as long as the session goes on. */
  function Next(w: Watch, c: Call, i: nat, k: Key): Watch {
    match c
    case WriteKey(k', v) => if k' == k then w.(value := Some(v)) else w
    case DeleteKey(k') => if k' == k then Watch(false, None) else w
    case Subscribe(j, name) => if j == i && name == k && !BadName(name) then w.(on := w.on || w.value.Some?) else w
    case Unsubscribe(j, name) => if j == i && name == k && !BadName(name) then w.(on := false) else w
    case _ => w
  }

  /** What the client is told by one call. */
  function Told(w: Watch, c: Call, k: Key): seq<string> {
    match c
    case WriteKey(k', v) => if k' == k && w.on then [v] else []
    case DeleteKey(k') => if k' == k && w.on then [DELETED] else []
    case _ => []
  }

  function Stream(w: Watch, cs: seq<Call>, i: nat, k: Key): seq<string>
    decreases |cs|
  {
    if cs == [] then [] else Told(w, cs[0], k) + Stream(Next(w, cs[0], i, k), cs[1..], i, k)
  }

  function Final(w: Watch, cs: seq<Call>, i: nat, k: Key): Watch
    decreases |cs|
  {
    if cs == [] then w else Final(Next(w, cs[0], i, k), cs[1..], i, k)
  }

  predicate Ends(c: Call, i: nat) { c == Disconnect(i) || c == CleanAll }

  /** The session in slot i goes on through all the calls. */
  ghost predicate GoesOn(cs: seq<Call>, i: nat) {
    forall x | 0 <= x < |cs| :: !Ends(cs[x], i)
  }

  lemma StaysConnected(s: Server, c: Call, i: nat)
    requires Ok(s) && Possible(s, c) && !Ends(c, i)
    requires i < |s.slots| && s.slots[i].Some?
    ensures |Do(s, c).slots| == |s.slots| && Do(s, c).slots[i].Some?
    ensures Do(s, c).slots[i].value.fdNotif == s.slots[i].value.fdNotif
  {
    if c.Connect? {
      NoSlotOfUnused(s.slots, Client(c.fdReq, c.fdResp, c.fdNotif, []));
    } else if c.Disconnect? {
      OwnSlot(s.slots, c.slot);
    }
  }

  /** Different clients have different notification descriptors. */
  lemma OtherDescriptor(s: Server, i: nat, j: nat)
    requires Ok(s) && i < |s.slots| && s.slots[i].Some? && j < |s.slots| && s.slots[j].Some? && i != j
    ensures s.slots[i].value.fdNotif != s.slots[j].value.fdNotif
  {
    var fd := s.slots[i].value.fdNotif;
    assert Uses(s.slots[i], fd);
    assert if i < j then Apart(s.slots[i], s.slots[j]) else Apart(s.slots[j], s.slots[i]);
  }

  lemma SubscribeWatch(s: Server, j: nat, name: string, i: nat, k: Key)
    requires Ok(s) && Possible(s, Subscribe(j, name)) && i < |s.slots| && s.slots[i].Some?
    ensures var s' := Do(s, Subscribe(j, name));
            i < |s'.slots| && s'.slots[i].Some? &&
            Watching(s', i, k) == Next(Watching(s, i, k), Subscribe(j, name), i, k)
  {
    if !BadName(name) {
      ListedMeaning(s.table, name, s.slots[j].value.fdNotif);
      if j != i {
        OtherDescriptor(s, i, j);
      }
    }
  }

  lemma UnsubscribeWatch(s: Server, j: nat, name: string, i: nat, k: Key)
    requires Ok(s) && Possible(s, Unsubscribe(j, name)) && i < |s.slots| && s.slots[i].Some?
    ensures var s' := Do(s, Unsubscribe(j, name));
            i < |s'.slots| && s'.slots[i].Some? &&
            Watching(s', i, k) == Next(Watching(s, i, k), Unsubscribe(j, name), i, k)
  {
    if !BadName(name) {
      UnlistedMeaning(s.table, name, s.slots[j].value.fdNotif);
      if j != i {
        OtherDescriptor(s, i, j);
      }
    }
  }

  lemma StepWatch(s: Server, c: Call, i: nat, k: Key)
    requires Ok(s) && Possible(s, c) && !Ends(c, i)
    requires i < |s.slots| && s.slots[i].Some?
    requires |Do(s, c).slots| == |s.slots| && Do(s, c).slots[i].Some?
    requires Do(s, c).slots[i].value.fdNotif == s.slots[i].value.fdNotif
    ensures Watching(Do(s, c), i, k) == Next(Watching(s, i, k), c, i, k)
  {
    match c
    case Connect(_, _, _) =>
    case WriteKey(key, v) => PutEntries(s.table, key, v);
    case DeleteKey(key) => DropEntries(s.table, key);
    case Subscribe(j, name) => SubscribeWatch(s, j, name, i, k);
    case Unsubscribe(j, name) => UnsubscribeWatch(s, j, name, i, k);
    case Disconnect(j) =>
      OtherDescriptor(s, i, j);
      PurgedMeaning(s.table, s.slots[j].value.subscriptions, s.slots[j].value.fdNotif);
  }

  lemma StepTexts(s: Server, c: Call, i: nat, k: Key)
    requires Ok(s) && Possible(s, c) && i < |s.slots| && s.slots[i].Some?
    ensures |s.sent| <= |Do(s, c).sent| && Do(s, c).sent[..|s.sent|] == s.sent
    ensures Texts(Do(s, c).sent[|s.sent|..], s.slots[i].value.fdNotif, k) == Told(Watching(s, i, k), c, k)
  {
    var fd := s.slots[i].value.fdNotif;
    if c.WriteKey? || c.DeleteKey? {
      var text := if c.WriteKey? then c.value else DELETED;
      assert KeyOk(s, c.key);
      TextsOfNotes(Subscribers(s.table, c.key), c.key, text, fd, k);
      assert Do(s, c).sent[|s.sent|..] == NotesTo(Subscribers(s.table, c.key), c.key, text);
    } else {
      assert Do(s, c).sent[|s.sent|..] == [];
    }
  }

  lemma {:induction false} SentGrows(s: Server, cs: seq<Call>)
    requires IsRun(s, cs)
    ensures |s.sent| <= |After(s, cs).sent| && After(s, cs).sent[..|s.sent|] == s.sent
    decreases |cs|
  {
    if cs != [] {
      SentGrows(Do(s, cs[0]), cs[1..]);
      assert Do(s, cs[0]).sent[..|s.sent|] == s.sent;
    }
  }

  /** The texts of two stretches of messages, one after the other. */
  lemma TextsBetween(sent: seq<Note>, a: nat, b: nat, fd: int, k: Key)
    requires a <= b <= |sent|
    ensures Texts(sent[a..], fd, k) == Texts(sent[a..b], fd, k) + Texts(sent[b..], fd, k)
  {
    assert sent[a..] == sent[a..b] + sent[b..];
    TextsSplit(sent[a..b], sent[b..], fd, k);
  }

  /** Notification streams. While a session goes on, the messages its client gets
      about a key are those that the calls alone determine, each once and in order,
      whatever all the clients and jobs do. */
  lemma {:induction false} SessionStream(s: Server, cs: seq<Call>, i: nat, k: Key)
    requires Ok(s) && IsRun(s, cs) && GoesOn(cs, i)
    requires i < |s.slots| && s.slots[i].Some?
    ensures var s', fd := After(s, cs), s.slots[i].value.fdNotif;
            && |s.sent| <= |s'.sent|
            && Texts(s'.sent[|s.sent|..], fd, k) == Stream(Watching(s, i, k), cs, i, k)
            && i < |s'.slots| && s'.slots[i].Some? && s'.slots[i].value.fdNotif == fd
            && Watching(s', i, k) == Final(Watching(s, i, k), cs, i, k)
    decreases |cs|
  {
    var s', fd := After(s, cs), s.slots[i].value.fdNotif;
    if cs == [] {
      assert s'.sent[|s.sent|..] == [];
    } else {
      var s1 := Do(s, cs[0]);
      assert !Ends(cs[0], i);
      assert forall x | 0 <= x < |cs[1..]| :: cs[1..][x] == cs[x + 1];
      StaysConnected(s, cs[0], i);
      StepWatch(s, cs[0], i, k);
      StepTexts(s, cs[0], i, k);
      StepOk(s, cs[0]);
      SessionStream(s1, cs[1..], i, k);
      SentGrows(s1, cs[1..]);
      TextsBetween(s'.sent, |s.sent|, |s1.sent|, fd, k);
      assert s'.sent[|s.sent|..|s1.sent|] == s1.sent[|s.sent|..];
    }
  }

  // ---- the mirror: a subscribed client can follow the key ----

  /** The call asks nothing about key k for the client in slot i. */
  predicate LetsBe(c: Call, i: nat, k: Key) {
    !(c.Subscribe? && c.slot == i && c.name == k) && !(c.Unsubscribe? && c.slot == i && c.name == k)
  }

  ghost predicate AllLetBe(cs: seq<Call>, i: nat, k: Key) {
    forall x | 0 <= x < |cs| :: LetsBe(cs[x], i, k)
  }

  /** A new session hears only what it asked for. Whoever had its descriptors before,
      a client that has connected and not subscribed to a key is told nothing about it
      for as long as its session goes on. */
  lemma NewSessionHearsNothing(n: nat, before: seq<Call>, c: Call, cs: seq<Call>, k: Key)
    requires IsRun(Start(n), before) && c.Connect? && Possible(After(Start(n), before), c)
    requires var s, i := Do(After(Start(n), before), c), FreeSlot(After(Start(n), before).slots);
             && i < |s.slots| && IsRun(s, cs) && GoesOn(cs, i) && NeverSubscribes(cs, i, k)
    ensures var s := Do(After(Start(n), before), c);
            && |s.sent| <= |After(s, cs).sent|
            && Texts(After(s, cs).sent[|s.sent|..], c.fdNotif, k) == []
  {
    var s0 := After(Start(n), before);
    var s, i := Do(s0, c), FreeSlot(s0.slots);
    NewSessionStartsClean(n, before, c, k);
    StartOk(n);
    RunOk(Start(n), before);
    StepOk(s0, c);
    SessionStream(s, cs, i, k);
    OffIsSilent(Watching(s, i, k), cs, i, k);
  }

  /** How many calls come before the first deletion of k. */
  function UntilDelete(cs: seq<Call>, k: Key): (n: nat)
    ensures n <= |cs|
    ensures n < |cs| ==> cs[n] == DeleteKey(k)
    ensures forall x | 0 <= x < n :: cs[x] != DeleteKey(k)
  {
    if cs == [] || cs[0] == DeleteKey(k) then 0 else 1 + UntilDelete(cs[1..], k)
  }

  /** The values written to k, in order. */
  function Written(cs: seq<Call>, k: Key): seq<string> {
    if cs == [] then [] else
    (if cs[0].WriteKey? && cs[0].key == k then [cs[0].value] else []) + Written(cs[1..], k)
  }

  function Last(v: string, vs: seq<string>): string { if vs == [] then v else vs[|vs| - 1] }

  /** What the client is told: the values written up to the first deletion, and a
      deletion notice if there is one. */
  function Heard(cs: seq<Call>, k: Key): seq<string> {
    var n := UntilDelete(cs, k);
    Written(cs[..n], k) + if n < |cs| then [DELETED] else []
  }

  /** The value while the client is subscribed, None once the key was deleted. */
  function Held(v: string, cs: seq<Call>, k: Key): Option<string> {
    var n := UntilDelete(cs, k);
    if n < |cs| then None else Some(Last(v, Written(cs, k)))
  }

  lemma HeardStep(v: string, cs: seq<Call>, k: Key)
    requires cs != []
    ensures cs[0] == DeleteKey(k) ==> Heard(cs, k) == [DELETED] && Held(v, cs, k) == None
    ensures cs[0] != DeleteKey(k) ==>
              var said := if cs[0].WriteKey? && cs[0].key == k then [cs[0].value] else [];
              && Heard(cs, k) == said + Heard(cs[1..], k)
              && Held(v, cs, k) == Held(Last(v, said), cs[1..], k)
  {
    var n := UntilDelete(cs, k);
    if n > 0 {
      assert cs[..n][1..] == cs[1..][..n - 1] && cs[..n][0] == cs[0];
    }
  }

  /** The client in slot i does not subscribe to key k. */
  ghost predicate NeverSubscribes(cs: seq<Call>, i: nat, k: Key) {
    forall x | 0 <= x < |cs| :: !(cs[x].Subscribe? && cs[x].slot == i && cs[x].name == k)
  }

  lemma {:induction false} OffIsSilent(w: Watch, cs: seq<Call>, i: nat, k: Key)
    requires !w.on && NeverSubscribes(cs, i, k)
    ensures Stream(w, cs, i, k) == [] && !Final(w, cs, i, k).on
    decreases |cs|
  {
    if cs != [] {
      assert !(cs[0].Subscribe? && cs[0].slot == i && cs[0].name == k);
      assert forall x | 0 <= x < |cs[1..]| :: cs[1..][x] == cs[x + 1];
      OffIsSilent(Next(w, cs[0], i, k), cs[1..], i, k);
    }
  }

  lemma {:induction false} OnHears(v: string, cs: seq<Call>, i: nat, k: Key)
    requires AllLetBe(cs, i, k)
    ensures var w := Watch(true, Some(v));
            && Stream(w, cs, i, k) == Heard(cs, k)
            && Final(w, cs, i, k).on == Held(v, cs, k).Some?
            && (Held(v, cs, k).Some? ==> Final(w, cs, i, k).value == Held(v, cs, k))
    decreases |cs|
  {
    if cs != [] {
      var w := Watch(true, Some(v));
      var c := cs[0];
      assert LetsBe(c, i, k);
      assert forall x | 0 <= x < |cs[1..]| :: cs[1..][x] == cs[x + 1];
      HeardStep(v, cs, k);
      if c == DeleteKey(k) {
        assert forall x | 0 <= x < |cs[1..]| :: LetsBe(cs[1..][x], i, k);
        OffIsSilent(Watch(false, None), cs[1..], i, k);
      } else {
        OnHears(if c.WriteKey? && c.key == k then c.value else v, cs[1..], i, k);
      }
    }
  }

  /** Notification mirror. From any moment at which a client is on the list of a
      key with value v, and while its session goes on without asking about that key,
      it is told exactly the values written to the key up to its first deletion, in
      order, and then of the deletion, and nothing more, even if the key is written
      again. Until then the last value told, or v, is the value stored. */
  lemma Mirror(n: nat, before: seq<Call>, cs: seq<Call>, i: nat, k: Key)
    requires IsRun(Start(n), before)
    requires var s := After(Start(n), before);
             && IsRun(s, cs) && GoesOn(cs, i) && AllLetBe(cs, i, k)
             && i < |s.slots| && s.slots[i].Some?
             && s.slots[i].value.fdNotif in Subscribers(s.table, k)
    ensures var s := After(Start(n), before);
            var s', fd := After(s, cs), s.slots[i].value.fdNotif;
            var n := UntilDelete(cs, k);
            && |s.sent| <= |s'.sent|
            && Texts(s'.sent[|s.sent|..], fd, k) == Written(cs[..n], k) + (if n < |cs| then ["DELETE"] else [])
            && Get(s.table, k).Some?
            && (match Held(Get(s.table, k).value.value, cs, k)
                case Some(v) =>
                  fd in Subscribers(s'.table, k) && Get(s'.table, k).Some? && Get(s'.table, k).value.value == v
                case None => fd !in Subscribers(s'.table, k))
  {
    StartOk(n);
    RunOk(Start(n), before);
    var s := After(Start(n), before);
    SessionStream(s, cs, i, k);
    OnHears(Get(s.table, k).value.value, cs, i, k);
  }

  /** What a client that was told these texts takes the value to be. */
  function Replay(v: string, texts: seq<string>): Option<string>
    decreases |texts|
  {
    if texts == [] then Some(v) else if texts[0] == DELETED then None else Replay(texts[0], texts[1..])
  }

  /** The last text told, or v, unless one of them is the text of a deletion. */
  lemma {:induction false} ReplayMeans(v: string, texts: seq<string>)
    ensures Replay(v, texts) ==
            if "DELETE" in texts then None else Some(if texts == [] then v else texts[|texts| - 1])
    decreases |texts|
  {
    if texts != [] {
      assert texts == [texts[0]] + texts[1..];
      ReplayMeans(texts[0], texts[1..]);
    }
  }

  /** No call before the first deletion of k writes the deletion text to it. */
  ghost predicate Plain(cs: seq<Call>, k: Key) {
    forall x | 0 <= x < UntilDelete(cs, k) :: cs[x] != WriteKey(k, DELETED)
  }

  lemma {:induction false} PlainReplays(v: string, cs: seq<Call>, k: Key)
    requires Plain(cs, k)
    ensures Replay(v, Heard(cs, k)) == Held(v, cs, k)
    decreases |cs|
  {
    if cs != [] {
      HeardStep(v, cs, k);
      if cs[0] != DeleteKey(k) {
        assert cs[0] != WriteKey(k, DELETED);
        assert forall x | 0 <= x < UntilDelete(cs[1..], k) :: cs[1..][x] == cs[x + 1];
        if cs[0].WriteKey? && cs[0].key == k {
          PlainReplays(cs[0].value, cs[1..], k);
          assert Heard(cs, k)[1..] == Heard(cs[1..], k);
        } else {
          PlainReplays(v, cs[1..], k);
          assert Heard(cs, k) == Heard(cs[1..], k);
        }
      }
    }
  }

  lemma {:induction false} PlainPrefix(cs: seq<Call>, m: nat, k: Key)
    requires m <= |cs|
    ensures UntilDelete(cs[..m], k) == if m <= UntilDelete(cs, k) then m else UntilDelete(cs, k)
  {
    if cs != [] && m > 0 && cs[0] != DeleteKey(k) {
      assert cs[..m][1..] == cs[1..][..m - 1];
      PlainPrefix(cs[1..], m - 1, k);
    }
  }

  lemma {:induction false} WrittenSnoc(cs: seq<Call>, c: Call, k: Key)
    ensures Written(cs + [c], k) == Written(cs, k) + if c.WriteKey? && c.key == k then [c.value] else []
  {
    if cs == [] {
      assert (cs + [c])[1..] == [];
    } else {
      assert (cs + [c])[1..] == cs[1..] + [c];
      WrittenSnoc(cs[1..], c, k);
    }
  }

  lemma {:induction false} ReplayStops(v: string, texts: seq<string>)
    requires DELETED in texts
    ensures Replay(v, texts) == None
    decreases |texts|
  {
    if texts[0] != DELETED {
      assert texts == [texts[0]] + texts[1..];
      ReplayStops(texts[0], texts[1..]);
    }
  }

  /** The texts tell a deletion from a write of the word DELETE exactly if no such
      write comes before the deletion: only then does the replay give the value
      at every moment. */
  lemma MessagesReplay(v: string, cs: seq<Call>, k: Key)
    ensures Plain(cs, k) <==> forall m | 0 <= m <= |cs| :: Replay(v, Heard(cs[..m], k)) == Held(v, cs[..m], k)
  {
    if Plain(cs, k) {
      forall m | 0 <= m <= |cs| ensures Replay(v, Heard(cs[..m], k)) == Held(v, cs[..m], k) {
        PlainPrefix(cs, m, k);
        PlainReplays(v, cs[..m], k);
      }
    } else {
      var x :| 0 <= x < UntilDelete(cs, k) && cs[x] == WriteKey(k, DELETED);
      PlainPrefix(cs, x + 1, k);
      assert cs[..x + 1] == cs[..x] + [cs[x]];
      assert cs[..x + 1][..x + 1] == cs[..x + 1];
      WrittenSnoc(cs[..x], cs[x], k);
      var heard := Heard(cs[..x + 1], k);
      assert heard[|heard| - 1] == DELETED;
      ReplayStops(v, heard);
    }
  }

  // ---- one session, call by call ----

  lemma NextCall(s: Server, c: Call, cs: seq<Call>)
    requires Possible(s, c) && IsRun(Do(s, c), cs)
    ensures IsRun(s, [c] + cs) && After(s, [c] + cs) == After(Do(s, c), cs)
  {
    assert ([c] + cs)[0] == c && ([c] + cs)[1..] == cs;
  }

  /** A table with one pair. */
  function Single(k: Key, value: string, subs: seq<int>): Table {
    Empty()[Bucket(k) := [Entry(k, value, subs)]]
  }

  lemma SingleSteps(k: Key, v: string, subs: seq<int>, w: string, fd: int)
    ensures Put(Empty(), k, w) == Single(k, w, [])
    ensures Put(Single(k, v, subs), k, w) == Single(k, w, subs)
    ensures Drop(Single(k, v, subs), k) == Empty()
    ensures Subscribers(Empty(), k) == [] && Subscribers(Single(k, v, subs), k) == subs
    ensures Listed(Single(k, v, []), k, fd) == Single(k, v, [fd])
  {
    var c := [Entry(k, v, subs)];
    assert c[0 := Entry(k, w, subs)] == [Entry(k, w, subs)];
    assert c[..0] + c[1..] == [];
    assert Drop(Single(k, v, subs), k) == Empty();
    assert [Entry(k, w, [])] + Empty()[Bucket(k)] == [Entry(k, w, [])];
    var d := [Entry(k, v, [])];
    assert d[0 := Entry(k, v, [fd])] == [Entry(k, v, [fd])];
    assert [] + [fd] == [fd];
  }

  lemma OneNote(sent: seq<Note>, fd: int, k: Key, text: string)
    ensures sent + NotesTo([fd], k, text) == sent + [Note(fd, k, text)] && sent + NotesTo([], k, text) == sent
  {
  }

  /** The first client of a server with free slots subscribes to the only key. It is told
      of the next write, with the value, and of the deletion, by the word DELETE, and not
      of the key's return; it still has the key on its own list. */
  lemma FirstSession(n: nat, a: int, b: int, fd: int, k: Key, v: string, v1: string, v2: string)
    requires n > 0 && a != b && b != fd && fd != a && |k| <= 40
    ensures var cs := [Connect(a, b, fd)] + ([WriteKey(k, v)] + ([Subscribe(0, k)] +
                      ([WriteKey(k, v1)] + ([DeleteKey(k)] + ([WriteKey(k, v2)] + [])))));
            && IsRun(Start(n), cs)
            && After(Start(n), cs).sent == [Note(fd, k, v1), Note(fd, k, "DELETE")]
            && After(Start(n), cs).slots == Start(n).slots[0 := Some(Client(a, b, fd, [k]))]
            && After(Start(n), cs).table == Single(k, v2, [])
  {
    var s0 := Start(n);
    var c := Client(a, b, fd, []);
    SingleSteps(k, v, [], v1, fd);
    SingleSteps(k, v, [fd], v1, fd);
    SingleSteps(k, v1, [fd], v2, fd);
    var one := s0.slots[0 := Some(c)];
    var two := s0.slots[0 := Some(c.(subscriptions := [k]))];
    var s1, s2 := Server(Empty(), one, []), Server(Single(k, v, []), one, []);
    var s3, s4 := Server(Single(k, v, [fd]), two, []), Server(Single(k, v1, [fd]), two, [Note(fd, k, v1)]);
    var s5 := Server(Empty(), two, [Note(fd, k, v1), Note(fd, k, "DELETE")]);
    var s6 := Server(Single(k, v2, []), two, [Note(fd, k, v1), Note(fd, k, "DELETE")]);
    FirstCalls(n, a, b, fd, k, v);
    OneNote([], fd, k, v1);
    OneNote([Note(fd, k, v1)], fd, k, "DELETE");
    OneNote(s5.sent, fd, k, v2);
    assert Do(s3, WriteKey(k, v1)) == s4 && Do(s4, DeleteKey(k)) == s5 && Do(s5, WriteKey(k, v2)) == s6;
    NextCall(s5, WriteKey(k, v2), []);
    NextCall(s4, DeleteKey(k), [WriteKey(k, v2)] + []);
    NextCall(s3, WriteKey(k, v1), [DeleteKey(k)] + ([WriteKey(k, v2)] + []));
    var rest := [WriteKey(k, v1)] + ([DeleteKey(k)] + ([WriteKey(k, v2)] + []));
    NextCall(s2, Subscribe(0, k), rest);
    NextCall(s1, WriteKey(k, v), [Subscribe(0, k)] + rest);
    NextCall(s0, Connect(a, b, fd), [WriteKey(k, v)] + ([Subscribe(0, k)] + rest));
  }

  lemma FirstCalls(n: nat, a: int, b: int, fd: int, k: Key, v: string)
    requires n > 0 && a != b && b != fd && fd != a && |k| <= 40
    ensures var c := Client(a, b, fd, []);
            var one, two := Start(n).slots[0 := Some(c)], Start(n).slots[0 := Some(c.(subscriptions := [k]))];
            var s1, s2 := Server(Empty(), one, []), Server(Single(k, v, []), one, []);
            && Possible(Start(n), Connect(a, b, fd)) && Do(Start(n), Connect(a, b, fd)) == s1
            && Do(s1, WriteKey(k, v)) == s2
            && Possible(s2, Subscribe(0, k)) && Do(s2, Subscribe(0, k)) == Server(Single(k, v, [fd]), two, [])
  {
    var s0 := Start(n);
    var c := Client(a, b, fd, []);
    var one, two := s0.slots[0 := Some(c)], s0.slots[0 := Some(c.(subscriptions := [k]))];
    SingleSteps(k, v, [], v, fd);
    OneNote([], fd, k, v);
    assert FreeSlot(s0.slots) == 0;
    assert [k] + c.subscriptions == [k];
    assert one[0 := Some(c.(subscriptions := [k]))] == two;
  }
}
