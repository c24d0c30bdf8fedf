/** Sessions and subscriptions as values: the table with its lists of subscribers,
    the slots of connected clients with their own lists of keys, and the messages
    sent to notification pipes (operations.c, kvs.c). Each call is one step. */
module Subscriptions {
  import opened Text
  import opened Tables

  /** A connected client. Its own list holds the keys it subscribed to, newest
      first, some perhaps more than once or no longer in the table. */
  datatype Client = Client(fdReq: int, fdResp: int, fdNotif: int, subscriptions: seq<Key>)

  type Slots = seq<Option<Client>>

  /** sent holds all messages so far. */
  datatype Server = Server(table: Table, slots: Slots, sent: seq<Note>)

  datatype Call =
    | Connect(fdReq: int, fdResp: int, fdNotif: int)
    | WriteKey(key: Key, value: string)
    | DeleteKey(key: Key)
    | Subscribe(slot: nat, name: string)
    | Unsubscribe(slot: nat, name: string)
    | Disconnect(slot: nat)
    | CleanAll

  const DELETED := "DELETE"

  /** Names that kvs_subscribe and kvs_unsubscribe answer and otherwise ignore. */
  predicate BadName(name: string) { |name| == 0 || |name| > MAX_STRING_SIZE }

  /** The first free slot, or the number of slots (add_client). */
  function FreeSlot(slots: Slots): (i: nat)
    ensures i <= |slots|
    ensures i < |slots| ==> slots[i].None?
    ensures forall j | 0 <= j < i :: slots[j].Some?
  {
    if slots == [] || slots[0].None? then 0 else 1 + FreeSlot(slots[1..])
  }

  predicate HasDescriptors(o: Option<Client>, c: Client) {
    o.Some? && o.value.fdReq == c.fdReq && o.value.fdResp == c.fdResp && o.value.fdNotif == c.fdNotif
  }

  /** The first slot with these descriptors, or the number of slots (remove_client). */
  function SlotOf(slots: Slots, c: Client): (i: nat)
    ensures i <= |slots|
    ensures i < |slots| ==> HasDescriptors(slots[i], c)
    ensures forall j | 0 <= j < i :: !HasDescriptors(slots[j], c)
  {
    if slots == [] || HasDescriptors(slots[0], c) then 0 else 1 + SlotOf(slots[1..], c)
  }

  function Freed(slots: Slots, c: Client): Slots {
    var i := SlotOf(slots, c);
    if i < |slots| then slots[i := None] else slots
  }

  /** A list of keys without any copy of one (client_remove_subscription). */
  function Forget(keys: seq<Key>, key: Key): (r: seq<Key>)
    ensures forall k :: k in r <==> k in keys && k != key
  {
    if keys == [] then [] else
    assert keys == [keys[0]] + keys[1..];
    (if keys[0] == key then [] else [keys[0]]) + Forget(keys[1..], key)
  }

  /** It loses just these, and keeps the order of the others. */
  lemma {:induction false} ForgetKeepsOrder(a: seq<Key>, b: seq<Key>, key: Key)
    ensures Forget(a + b, key) == Forget(a, key) + Forget(b, key)
    ensures a == [key] ==> Forget(a, key) == []
    ensures key !in a ==> Forget(a, key) == a
  {
    if a == [] {
      assert a + b == b;
    } else {
      assert (a + b)[1..] == a[1..] + b && a == [a[0]] + a[1..];
      ForgetKeepsOrder(a[1..], b, key);
      Regroup(if a[0] == key then [] else [a[0]], Forget(a[1..], key), Forget(b, key));
    }
  }

  /** One descriptor goes off the list of one key (kvs_aux_unsubscribe). */
  function Unlisted(t: Table, key: Key, fd: int): Table {
    SetSubs(t, key, Without(Subscribers(t, key), fd))
  }

  function Listed(t: Table, key: Key, fd: int): Table {
    SetSubs(t, key, Added(Subscribers(t, key), fd))
  }

  /** One descriptor goes off the lists of all these keys. */
  function Purged(t: Table, keys: seq<Key>, fd: int): Table
    decreases |keys|
  {
    if keys == [] then t else Purged(Unlisted(t, keys[0], fd), keys[1..], fd)
  }

  /** The table after the clients of the first n slots have been purged. */
  function AllPurged(t: Table, slots: Slots, n: nat): Table
    requires n <= |slots|
  {
    if n == 0 then t else
    var t' := AllPurged(t, slots, n - 1);
    match slots[n - 1]
    case Some(c) => Purged(t', c.subscriptions, c.fdNotif)
    case None => t'
  }

  predicate Uses(o: Option<Client>, fd: int) {
    o.Some? && (o.value.fdReq == fd || o.value.fdResp == fd || o.value.fdNotif == fd)
  }

  /** open returns descriptors that no connected client has. */
  ghost predicate Unused(slots: Slots, fd: int) {
    forall i | 0 <= i < |slots| :: !Uses(slots[i], fd)
  }

  ghost predicate NewDescriptors(slots: Slots, a: int, b: int, n: int) {
    a != b && b != n && n != a && Unused(slots, a) && Unused(slots, b) && Unused(slots, n)
  }

  ghost predicate Possible(s: Server, c: Call) {
    match c
    case Connect(a, b, n) => NewDescriptors(s.slots, a, b, n)
    case WriteKey(_, _) => true
    case DeleteKey(_) => true
    case Subscribe(i, name) => i < |s.slots| && s.slots[i].Some? && (BadName(name) || Hashable(name))
    case Unsubscribe(i, name) => i < |s.slots| && s.slots[i].Some? && (BadName(name) || Hashable(name))
    case Disconnect(i) => i < |s.slots| && s.slots[i].Some?
    case CleanAll => true
  }

  /** A client whose session cannot be entered in a slot is disconnected at once. */
  function Connected(slots: Slots, c: Client): Slots {
    var i := FreeSlot(slots);
    if i < |slots| then slots[i := Some(c)] else Freed(slots, c)
  }

  function DoSubscribe(s: Server, i: nat, key: Key): Server
    requires i < |s.slots| && s.slots[i].Some?
  {
    var c := s.slots[i].value;
    var known := c.fdNotif in Subscribers(s.table, key);
    s.(table := Listed(s.table, key, c.fdNotif),
       slots := if known then s.slots
                else s.slots[i := Some(c.(subscriptions := [key] + c.subscriptions))])
  }

  function DoUnsubscribe(s: Server, i: nat, key: Key): Server
    requires i < |s.slots| && s.slots[i].Some?
  {
    var c := s.slots[i].value;
    s.(table := Unlisted(s.table, key, c.fdNotif),
       slots := s.slots[i := Some(c.(subscriptions := Forget(c.subscriptions, key)))])
  }

  /** The answer to a subscription: whether the key is in the table. */
  function SubscribeReply(s: Server, name: string): char {
    if Hashable(name) && !BadName(name) && Get(s.table, name).Some? then '1' else '0'
  }

  /** The answer to the end of one: '0' if it was there; for a bad name the byte 1. */
  function UnsubscribeReply(s: Server, i: nat, name: string): char
    requires i < |s.slots| && s.slots[i].Some?
  {
    if BadName(name) then 1 as char
    else if Hashable(name) && s.slots[i].value.fdNotif in Subscribers(s.table, name) then '0' else '1'
  }

  ghost function Do(s: Server, c: Call): Server
    requires Possible(s, c)
  {
    match c
    case Connect(a, b, n) => s.(slots := Connected(s.slots, Client(a, b, n, [])))
    case WriteKey(k, v) =>
      s.(table := Put(s.table, k, v), sent := s.sent + NotesTo(Subscribers(s.table, k), k, v))
    case DeleteKey(k) =>
      s.(table := Drop(s.table, k), sent := s.sent + NotesTo(Subscribers(s.table, k), k, DELETED))
    case Subscribe(i, name) => if BadName(name) then s else DoSubscribe(s, i, name)
    case Unsubscribe(i, name) => if BadName(name) then s else DoUnsubscribe(s, i, name)
    case Disconnect(i) =>
      var c := s.slots[i].value;
      s.(table := Purged(s.table, c.subscriptions, c.fdNotif), slots := Freed(s.slots, c))
    case CleanAll =>
      s.(table := AllPurged(s.table, s.slots, |s.slots|), slots := seq(|s.slots|, _ => None))
  }

  ghost predicate IsRun(s: Server, cs: seq<Call>)
    decreases |cs|
  {
    cs == [] || (Possible(s, cs[0]) && IsRun(Do(s, cs[0]), cs[1..]))
  }

  ghost function After(s: Server, cs: seq<Call>): Server
    requires IsRun(s, cs)
    decreases |cs|
  {
    if cs == [] then s else After(Do(s, cs[0]), cs[1..])
  }

  // ---- the invariant ----

  /** The client in a slot answers for a descriptor on the list of a key. */
  predicate Answers(o: Option<Client>, key: Key, fd: int) {
    o.Some? && o.value.fdNotif == fd && key in o.value.subscriptions
  }

  ghost predicate Apart(a: Option<Client>, b: Option<Client>) {
    forall fd: int :: !(Uses(a, fd) && Uses(b, fd))
  }

  ghost predicate AllApart(slots: Slots) {
    forall i, j | 0 <= i < j < |slots| :: Apart(slots[i], slots[j])
  }

  ghost predicate Answered(s: Server, key: Key, fd: int) {
    exists i | 0 <= i < |s.slots| :: Answers(s.slots[i], key, fd)
  }

  ghost predicate KeyOk(s: Server, key: Key) {
    && NoDuplicates(Subscribers(s.table, key))
    && forall fd | fd in Subscribers(s.table, key) :: Answered(s, key, fd)
  }

  ghost predicate Ok(s: Server) {
    Valid(s.table) && AllApart(s.slots) && forall k: Key :: KeyOk(s, k)
  }

  // ---- what the parts do to the lists ----

  /** t' is t but for the lists of subscribers. */
  ghost predicate SamePairs(t: Table, t': Table) {
    forall k: Key :: Get(t', k).Some? == Get(t, k).Some? &&
      (Get(t, k).Some? ==> Get(t', k).value.value == Get(t, k).value.value)
  }

  lemma UnlistedMeaning(t: Table, key: Key, fd: int)
    requires Valid(t)
    ensures Valid(Unlisted(t, key, fd)) && SamePairs(t, Unlisted(t, key, fd))
    ensures forall k: Key :: Subscribers(Unlisted(t, key, fd), k) ==
              if k == key then Without(Subscribers(t, k), fd) else Subscribers(t, k)
  {
    SetSubsEntries(t, key, Without(Subscribers(t, key), fd));
  }

  lemma ListedMeaning(t: Table, key: Key, fd: int)
    requires Valid(t)
    ensures Valid(Listed(t, key, fd)) && SamePairs(t, Listed(t, key, fd))
    ensures forall k: Key :: Subscribers(Listed(t, key, fd), k) ==
              if k == key && Get(t, k).Some? then Added(Subscribers(t, k), fd) else Subscribers(t, k)
  {
    SetSubsEntries(t, key, Added(Subscribers(t, key), fd));
  }

  lemma {:induction false} WithoutTwice(fds: seq<int>, fd: int)
    ensures Without(Without(fds, fd), fd) == Without(fds, fd)
  {
    WithoutNone(Without(fds, fd), fd);
  }

  lemma SamePairsTwice(t: Table, t1: Table, t2: Table)
    requires SamePairs(t, t1) && SamePairs(t1, t2)
    ensures SamePairs(t, t2)
  {
  }

  lemma InFirstOrRest(keys: seq<Key>, k: Key)
    requires keys != []
    ensures k in keys <==> k == keys[0] || k in keys[1..]
  {
    assert keys == [keys[0]] + keys[1..];
  }

  lemma {:induction false} PurgedMeaning(t: Table, keys: seq<Key>, fd: int)
    requires Valid(t)
    ensures Valid(Purged(t, keys, fd)) && SamePairs(t, Purged(t, keys, fd))
    ensures forall k: Key :: Subscribers(Purged(t, keys, fd), k) ==
              if k in keys then Without(Subscribers(t, k), fd) else Subscribers(t, k)
    decreases |keys|
  {
    if keys != [] {
      var t1 := Unlisted(t, keys[0], fd);
      var t' := Purged(t1, keys[1..], fd);
      UnlistedMeaning(t, keys[0], fd);
      PurgedMeaning(t1, keys[1..], fd);
      SamePairsTwice(t, t1, t');
      WithoutTwice(Subscribers(t, keys[0]), fd);
      forall k: Key
        ensures Subscribers(t', k) == if k in keys then Without(Subscribers(t, k), fd) else Subscribers(t, k)
      {
        InFirstOrRest(keys, k);
      }
    }
  }

  // ---- every step keeps the invariant ----

  lemma ConnectOk(s: Server, a: int, b: int, n: int)
    requires Ok(s) && Possible(s, Connect(a, b, n))
    ensures Ok(Do(s, Connect(a, b, n)))
  {
    var s' := Do(s, Connect(a, b, n));
    var i := FreeSlot(s.slots);
    if i < |s.slots| {
      forall x, y | 0 <= x < y < |s.slots| ensures Apart(s'.slots[x], s'.slots[y]) {
        assert Apart(s.slots[x], s.slots[y]);
      }
      forall k: Key ensures KeyOk(s', k) {
        assert KeyOk(s, k);
        forall fd | fd in Subscribers(s.table, k) ensures Answered(s', k, fd) {
          var j :| 0 <= j < |s.slots| && Answers(s.slots[j], k, fd);
          assert Answers(s'.slots[j], k, fd);
        }
      }
    } else {
      NoSlotOfUnused(s.slots, Client(a, b, n, []));
      assert s' == s;
    }
  }

  lemma NoSlotOfUnused(slots: Slots, c: Client)
    requires Unused(slots, c.fdReq)
    ensures SlotOf(slots, c) == |slots| && Freed(slots, c) == slots
  {
    var i := SlotOf(slots, c);
    assert i < |slots| ==> Uses(slots[i], c.fdReq);
  }

  /** An invariant-keeping change of the table alone. */
  lemma FewerSubscribersOk(s: Server, s': Server)
    requires Ok(s) && s'.slots == s.slots && Valid(s'.table)
    requires forall k: Key :: Subscribers(s'.table, k) == Subscribers(s.table, k) || Subscribers(s'.table, k) == []
    ensures Ok(s')
  {
    forall k: Key ensures KeyOk(s', k) {
      assert KeyOk(s, k);
      forall fd | fd in Subscribers(s'.table, k) ensures Answered(s', k, fd) {
        var j :| 0 <= j < |s.slots| && Answers(s.slots[j], k, fd);
        assert Answers(s'.slots[j], k, fd);
      }
    }
  }

  lemma TableOk(s: Server, c: Call)
    requires Ok(s) && (c.WriteKey? || c.DeleteKey?)
    ensures Ok(Do(s, c))
  {
    if c.WriteKey? {
      PutMeaning(s.table, c.key, c.value);
    } else {
      DropMeaning(s.table, c.key);
    }
    FewerSubscribersOk(s, Do(s, c));
  }

  /** A client that keeps its descriptors stays apart from the others. */
  lemma SameDescriptors(slots: Slots, i: nat, o: Option<Client>)
    requires AllApart(slots) && i < |slots|
    requires forall fd: int :: Uses(o, fd) ==> Uses(slots[i], fd)
    ensures AllApart(slots[i := o])
  {
    var slots' := slots[i := o];
    forall x, y | 0 <= x < y < |slots| ensures Apart(slots'[x], slots'[y]) {
      assert Apart(slots[x], slots[y]);
    }
  }

  lemma SubscribeOk(s: Server, i: nat, key: Key)
    requires Ok(s) && i < |s.slots| && s.slots[i].Some?
    ensures Ok(DoSubscribe(s, i, key))
  {
    var s', fd := DoSubscribe(s, i, key), s.slots[i].value.fdNotif;
    ListedMeaning(s.table, key, fd);
    SameDescriptors(s.slots, i, s'.slots[i]);
    forall k: Key ensures KeyOk(s', k) {
      assert KeyOk(s, k);
      forall x | x in Subscribers(s'.table, k) ensures Answered(s', k, x) {
        if x in Subscribers(s.table, k) {
          var j :| 0 <= j < |s.slots| && Answers(s.slots[j], k, x);
          assert Answers(s'.slots[j], k, x);
        } else {
          assert Answers(s'.slots[i], k, x);
        }
      }
    }
  }

  lemma UnsubscribeOk(s: Server, i: nat, key: Key)
    requires Ok(s) && i < |s.slots| && s.slots[i].Some?
    ensures Ok(DoUnsubscribe(s, i, key))
  {
    var s', fd := DoUnsubscribe(s, i, key), s.slots[i].value.fdNotif;
    UnlistedMeaning(s.table, key, fd);
    SameDescriptors(s.slots, i, s'.slots[i]);
    forall k: Key ensures KeyOk(s', k) {
      assert KeyOk(s, k);
      forall x | x in Subscribers(s'.table, k) ensures Answered(s', k, x) {
        var j :| 0 <= j < |s.slots| && Answers(s.slots[j], k, x);
        assert Answers(s'.slots[j], k, x);
      }
    }
  }

  /** Only one client has a descriptor, so its own slot is the first match. */
  lemma OwnSlot(slots: Slots, i: nat)
    requires AllApart(slots) && i < |slots| && slots[i].Some?
    ensures SlotOf(slots, slots[i].value) == i
  {
    var c := slots[i].value;
    forall j | 0 <= j < i ensures !HasDescriptors(slots[j], c) {
      assert Apart(slots[j], slots[i]) && Uses(slots[i], c.fdNotif);
    }
  }

  lemma OneAnswers(slots: Slots, i: nat, j: nat, key: Key, fd: int)
    requires AllApart(slots) && i < |slots| && j < |slots|
    requires Answers(slots[i], key, fd) && Uses(slots[j], fd)
    ensures i == j
  {
    forall x | 0 <= x < |slots| && x != i ensures !Uses(slots[x], fd) {
      assert if x < i then Apart(slots[x], slots[i]) else Apart(slots[i], slots[x]);
    }
  }

  lemma DisconnectOk(s: Server, i: nat)
    requires Ok(s) && i < |s.slots| && s.slots[i].Some?
    ensures Ok(Do(s, Disconnect(i)))
    ensures Do(s, Disconnect(i)).slots == s.slots[i := None]
    ensures forall k: Key :: s.slots[i].value.fdNotif !in Subscribers(Do(s, Disconnect(i)).table, k)
  {
    var s', c := Do(s, Disconnect(i)), s.slots[i].value;
    OwnSlot(s.slots, i);
    PurgedMeaning(s.table, c.subscriptions, c.fdNotif);
    SameDescriptors(s.slots, i, None);
    forall k: Key ensures KeyOk(s', k) && c.fdNotif !in Subscribers(s'.table, k) {
      assert KeyOk(s, k);
      forall x | x in Subscribers(s.table, k) ensures x == c.fdNotif ==> k in c.subscriptions {
        var j :| 0 <= j < |s.slots| && Answers(s.slots[j], k, x);
        if x == c.fdNotif {
          OneAnswers(s.slots, j, i, k, x);
        }
      }
      forall x | x in Subscribers(s'.table, k) ensures Answered(s', k, x) {
        var j :| 0 <= j < |s.slots| && Answers(s.slots[j], k, x);
        assert Answers(s'.slots[j], k, x);
      }
    }
  }

  ghost predicate AnsweredBefore(slots: Slots, n: nat, key: Key, fd: int)
    requires n <= |slots|
  {
    exists i | 0 <= i < n :: Answers(slots[i], key, fd)
  }

  lemma {:induction false} AllPurgedMeaning(t: Table, slots: Slots, n: nat)
    requires Valid(t) && n <= |slots|
    ensures Valid(AllPurged(t, slots, n)) && SamePairs(t, AllPurged(t, slots, n))
    ensures forall k: Key, fd | fd in Subscribers(AllPurged(t, slots, n), k) ::
              fd in Subscribers(t, k) && !AnsweredBefore(slots, n, k, fd)
  {
    if n > 0 {
      var t1, t' := AllPurged(t, slots, n - 1), AllPurged(t, slots, n);
      AllPurgedMeaning(t, slots, n - 1);
      if slots[n - 1].Some? {
        PurgedMeaning(t1, slots[n - 1].value.subscriptions, slots[n - 1].value.fdNotif);
      }
      forall k: Key, fd | fd in Subscribers(t', k)
        ensures fd in Subscribers(t, k) && !AnsweredBefore(slots, n, k, fd)
      {
        assert fd in Subscribers(t1, k) && !AnsweredBefore(slots, n - 1, k, fd);
        assert !Answers(slots[n - 1], k, fd);
      }
    }
  }

  lemma CleanAllOk(s: Server)
    requires Ok(s)
    ensures Ok(Do(s, CleanAll))
    ensures forall k: Key :: Subscribers(Do(s, CleanAll).table, k) == []
    ensures SamePairs(s.table, Do(s, CleanAll).table)
  {
    var s' := Do(s, CleanAll);
    AllPurgedMeaning(s.table, s.slots, |s.slots|);
    forall k: Key ensures Subscribers(s'.table, k) == [] {
      assert KeyOk(s, k);
      var fds := Subscribers(s'.table, k);
      assert fds == [] || fds[0] in fds;
      forall fd: int ensures fd !in fds {
        assert fd in Subscribers(s.table, k) ==> Answered(s, k, fd);
      }
    }
    forall k: Key ensures KeyOk(s', k) {
    }
  }

  lemma StepOk(s: Server, c: Call)
    requires Ok(s) && Possible(s, c)
    ensures Ok(Do(s, c))
  {
    match c
    case Connect(a, b, n) => ConnectOk(s, a, b, n);
    case WriteKey(_, _) => TableOk(s, c);
    case DeleteKey(_) => TableOk(s, c);
    case Subscribe(i, name) => if !BadName(name) { SubscribeOk(s, i, name); }
    case Unsubscribe(i, name) => if !BadName(name) { UnsubscribeOk(s, i, name); }
    case Disconnect(i) => DisconnectOk(s, i);
    case CleanAll => CleanAllOk(s);
  }

  lemma {:induction false} RunOk(s: Server, cs: seq<Call>)
    requires Ok(s) && IsRun(s, cs)
    ensures Ok(After(s, cs))
    decreases |cs|
  {
    if cs != [] {
      StepOk(s, cs[0]);
      RunOk(Do(s, cs[0]), cs[1..]);
    }
  }

  /** What the answers tell. For every name of 1 to 40 bytes: the answer to a
      subscription is '1' exactly if the key is in the table, and then, and only then,
      the client is on its list afterwards; the answer to the end of one is '0' exactly
      if the client was on the list, and it is on none afterwards. The client's own list
      has the name after the one, and not after the other. */
  lemma RepliesTell(s: Server, i: nat, name: string)
    requires Ok(s) && i < |s.slots| && s.slots[i].Some? && 1 <= |name| <= 40 && Hashable(name)
    ensures Possible(s, Subscribe(i, name)) && Possible(s, Unsubscribe(i, name))
    ensures var fd, s' := s.slots[i].value.fdNotif, Do(s, Subscribe(i, name));
            && SubscribeReply(s, name) == (if name in Contents(s.table) then '1' else '0')
            && (fd in Subscribers(s'.table, name) <==> name in Contents(s.table))
            && s'.slots[i].Some? && name in s'.slots[i].value.subscriptions
    ensures var fd, s' := s.slots[i].value.fdNotif, Do(s, Unsubscribe(i, name));
            && UnsubscribeReply(s, i, name) == (if fd in Subscribers(s.table, name) then '0' else '1')
            && fd !in Subscribers(s'.table, name)
            && s'.slots[i].Some? && name !in s'.slots[i].value.subscriptions
  {
    ListedMeaning(s.table, name, s.slots[i].value.fdNotif);
    UnlistedMeaning(s.table, name, s.slots[i].value.fdNotif);
    if s.slots[i].value.fdNotif in Subscribers(s.table, name) {
      assert KeyOk(s, name);
      var j :| 0 <= j < |s.slots| && Answers(s.slots[j], name, s.slots[i].value.fdNotif);
      OneAnswers(s.slots, j, i, name, s.slots[i].value.fdNotif);
    }
  }

  /** An empty name, and one of more than 40 bytes, changes nothing: the answer to a
      subscription is '0', that to the end of one the byte 1. */
  lemma BadNamesAreIgnored(s: Server, i: nat, name: string)
    requires i < |s.slots| && s.slots[i].Some? && (name == "" || |name| > 40)
    ensures Possible(s, Subscribe(i, name)) && Do(s, Subscribe(i, name)) == s
    ensures Possible(s, Unsubscribe(i, name)) && Do(s, Unsubscribe(i, name)) == s
    ensures SubscribeReply(s, name) == '0' && UnsubscribeReply(s, i, name) == '\U{1}'
  {
  }
}
