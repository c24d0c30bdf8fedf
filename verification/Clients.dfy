/** The connected clients in memory, changed in place (operations.c, client.h): the
    slots, each client's linked list of keys, and the lists in the table. */
module Clients {
  import opened Text
  import opened Tables
  import opened HashTables
  import S = Subscriptions

  class SubscriptionsKeyNode {
    const key: Key
    var next: SubscriptionsKeyNode?
    ghost const owner: Connection

    constructor (key: Key, next: SubscriptionsKeyNode?, ghost owner: Connection)
      ensures this.key == key && this.next == next && this.owner == owner
    {
      this.key, this.next := key, next;
      this.owner := owner;
    }
  }

  function KeysOf(nodes: seq<SubscriptionsKeyNode>): (keys: seq<Key>)
    ensures |keys| == |nodes|
    ensures forall i | 0 <= i < |nodes| :: keys[i] == nodes[i].key
  {
    seq(|nodes|, i requires 0 <= i < |nodes| => nodes[i].key)
  }

  predicate AllDifferent(nodes: seq<SubscriptionsKeyNode>) {
    nodes == [] || (nodes[0] !in nodes[1..] && AllDifferent(nodes[1..]))
  }

  lemma {:induction false} DifferentAt(nodes: seq<SubscriptionsKeyNode>, i: nat)
    requires AllDifferent(nodes) && i < |nodes|
    ensures forall j | 0 <= j < |nodes| && j != i :: nodes[j] != nodes[i]
  {
    if i > 0 {
      DifferentAt(nodes[1..], i - 1);
      assert nodes[i] in nodes[1..];
      assert forall j | 0 < j < |nodes| :: nodes[j] == nodes[1..][j - 1];
    } else {
      assert forall j | 0 < j < |nodes| :: nodes[j] in nodes[1..];
    }
  }

  lemma BeforeOnce(nodes: seq<SubscriptionsKeyNode>, i: nat, prev: SubscriptionsKeyNode?)
    requires AllDifferent(nodes) && i < |nodes| && prev == if i == 0 then null else nodes[i - 1]
    ensures forall j | 0 <= j < |nodes| && j != i - 1 :: nodes[j] != prev
  {
    if i > 0 {
      DifferentAt(nodes, i - 1);
    }
  }

  lemma {:induction false} DifferentWithout(nodes: seq<SubscriptionsKeyNode>, i: nat)
    requires AllDifferent(nodes) && i < |nodes|
    ensures AllDifferent(nodes[..i] + nodes[i + 1..])
  {
    var rest := nodes[..i] + nodes[i + 1..];
    if i == 0 {
      assert rest == nodes[1..];
    } else {
      DifferentWithout(nodes[1..], i - 1);
      assert rest[1..] == nodes[1..][..i - 1] + nodes[1..][i..];
      assert forall n | n in rest[1..] :: n in nodes[1..];
    }
  }

  lemma NewFirst(nodes: seq<SubscriptionsKeyNode>, n: SubscriptionsKeyNode)
    requires AllDifferent(nodes) && n !in nodes
    ensures AllDifferent([n] + nodes) && KeysOf([n] + nodes) == [n.key] + KeysOf(nodes)
  {
    assert ([n] + nodes)[1..] == nodes;
  }

  lemma WithoutSub(nodes: seq<SubscriptionsKeyNode>, i: nat)
    requires AllDifferent(nodes) && i < |nodes|
    ensures var rest := nodes[..i] + nodes[i + 1..];
            && AllDifferent(rest) && KeysOf(rest) == KeysOf(nodes)[..i] + KeysOf(nodes)[i + 1..]
            && forall n | n in rest :: n in nodes
  {
    DifferentWithout(nodes, i);
    KeysWithout(nodes, i);
  }

  lemma KeysWithout(nodes: seq<SubscriptionsKeyNode>, i: nat)
    requires i < |nodes|
    ensures KeysOf(nodes[..i] + nodes[i + 1..]) == KeysOf(nodes)[..i] + KeysOf(nodes)[i + 1..]
  {
  }

  /** No copy of the key is left among the first i. */
  predicate Cleared(keys: seq<Key>, i: nat, key: Key) { i <= |keys| && key !in keys[..i] }

  lemma ClearedSame(keys: seq<Key>, i: nat, key: Key)
    requires Cleared(keys, i, key) && i < |keys| && keys[i] == key
    ensures Cleared(keys[..i] + keys[i + 1..], i, key)
    ensures S.Forget(keys[..i] + keys[i + 1..], key) == S.Forget(keys, key)
  {
    ForgetOne(keys, key, i);
    assert (keys[..i] + keys[i + 1..])[..i] == keys[..i];
  }

  lemma ClearedMore(keys: seq<Key>, i: nat, key: Key)
    requires Cleared(keys, i, key) && i < |keys| && keys[i] != key
    ensures Cleared(keys, i + 1, key)
  {
    assert keys[..i + 1] == keys[..i] + [keys[i]];
  }

  /** A connected client, with the linked list of the keys it subscribed to. */
  class Connection {
    const fdReq: int
    const fdResp: int
    const fdNotif: int
    var subscriptions: SubscriptionsKeyNode?
    ghost var nodes: seq<SubscriptionsKeyNode>
    /** All nodes, in the list now or before. */
    ghost var Repr: set<SubscriptionsKeyNode>

    constructor (fdReq: int, fdResp: int, fdNotif: int)
      ensures this.fdReq == fdReq && this.fdResp == fdResp && this.fdNotif == fdNotif
      ensures nodes == [] && Repr == {} && ListOk()
    {
      this.fdReq, this.fdResp, this.fdNotif := fdReq, fdResp, fdNotif;
      subscriptions, nodes, Repr := null, [], {};
    }

    ghost function View(): S.Client
      reads `nodes
    {
      S.Client(fdReq, fdResp, fdNotif, KeysOf(nodes))
    }

    ghost function NodeAt(i: nat): SubscriptionsKeyNode?
      reads `nodes
    {
      if i < |nodes| then nodes[i] else null
    }

    /** nodes is the list from subscriptions: it is acyclic, and shares no node with
        the list of another client. A key may be in it more than once. */
    ghost predicate Linked()
      reads `subscriptions, `nodes, nodes
    {
      && subscriptions == NodeAt(0)
      && forall i {:trigger nodes[i].next} | 0 <= i < |nodes| :: nodes[i].next == NodeAt(i + 1)
    }

    ghost predicate ListOk()
      reads `subscriptions, `nodes, `Repr, nodes
    {
      && Linked() && AllDifferent(nodes)
      && (forall n | n in nodes :: n in Repr) && forall n | n in Repr :: n.owner == this
    }

    ghost function Contents(): seq<Key>
      reads `nodes
    {
      KeysOf(nodes)
    }

    /** A new subscription goes first. */
    method Add(key: Key)
      requires ListOk()
      modifies `subscriptions, `nodes, `Repr
      ensures ListOk() && Contents() == [key] + old(Contents())
      ensures fresh(Repr - old(Repr))
    {
      var newSub := new SubscriptionsKeyNode(key, subscriptions, this);
      subscriptions := newSub;
      ghost var was := nodes;
      nodes, Repr := [newSub] + nodes, Repr + {newSub};
      NewFirst(was, newSub);
      forall j | 0 <= j < |nodes| ensures nodes[j].next == NodeAt(j + 1) {
        assert j > 0 ==> nodes[j] == was[j - 1];
      }
    }

    /** client_remove_subscription: takes every copy of the key off the list, in one
        walk. */
    method RemoveSubscription(key: Key)
      requires ListOk()
      modifies `subscriptions, `nodes, Repr`next
      ensures ListOk() && Contents() == S.Forget(old(Contents()), key)
    {
      var current: SubscriptionsKeyNode?, prev: SubscriptionsKeyNode? := subscriptions, null;
      ghost var i, keys := 0, Contents();
      while current != null
        invariant ListOk() && i <= |nodes| && keys == Contents()
        invariant current == NodeAt(i) && prev == if i == 0 then null else nodes[i - 1]
        invariant Cleared(keys, i, key) && S.Forget(keys, key) == S.Forget(old(Contents()), key)
        decreases |nodes| - i
      {
        if current.key == key {
          ClearedSame(keys, i, key);
          Unlink(prev, current, i);
          keys := keys[..i] + keys[i + 1..];
          current := current.next;
        } else {
          ClearedMore(keys, i, key);
          prev, i := current, i + 1;
          current := current.next;
        }
      }
      assert keys[..i] == keys;
      ForgetNone(keys, key);
    }

    method Unlink(prev: SubscriptionsKeyNode?, current: SubscriptionsKeyNode, ghost i: nat)
      requires ListOk() && i < |nodes| && current == nodes[i]
      requires prev == if i == 0 then null else nodes[i - 1]
      modifies `subscriptions, `nodes, Repr`next
      ensures ListOk() && current.next == NodeAt(i)
      ensures nodes == old(nodes)[..i] + old(nodes)[i + 1..]
      ensures Contents() == old(Contents())[..i] + old(Contents())[i + 1..]
    {
      WithoutSub(nodes, i);
      BeforeOnce(nodes, i, prev);
      Relink(prev, current, i);
    }

    method Relink(prev: SubscriptionsKeyNode?, current: SubscriptionsKeyNode, ghost i: nat)
      requires Linked() && i < |nodes| && current == nodes[i]
      requires prev == if i == 0 then null else nodes[i - 1]
      requires forall j | 0 <= j < |nodes| && j != i - 1 :: nodes[j] != prev
      modifies `subscriptions, `nodes, nodes`next
      ensures Linked() && nodes == old(nodes)[..i] + old(nodes)[i + 1..] && current.next == NodeAt(i)
    {
      ghost var was := nodes;
      if prev == null {
        subscriptions := current.next;
      } else {
        prev.next := current.next;
      }
      nodes := nodes[..i] + nodes[i + 1..];
      Removed(was, i);
      forall j | 0 <= j < |nodes| ensures nodes[j].next == NodeAt(j + 1) {
        assert old(was[if j < i then j else j + 1].next == NodeAt(if j < i then j + 1 else j + 2));
      }
    }

    method Clear()
      requires ListOk()
      modifies `subscriptions, `nodes
      ensures ListOk() && nodes == []
    {
      subscriptions, nodes := null, [];
    }
  }

  lemma {:induction false} ForgetNone(keys: seq<Key>, key: Key)
    requires key !in keys
    ensures S.Forget(keys, key) == keys
  {
    if keys != [] {
      assert keys == [keys[0]] + keys[1..];
      ForgetNone(keys[1..], key);
    }
  }

  lemma {:induction false} ForgetOne(keys: seq<Key>, key: Key, i: nat)
    requires i < |keys| && keys[i] == key
    ensures S.Forget(keys[..i] + keys[i + 1..], key) == S.Forget(keys, key)
  {
    if i > 0 {
      ForgetOne(keys[1..], key, i - 1);
      assert (keys[..i] + keys[i + 1..])[1..] == keys[1..][..i - 1] + keys[1..][i..];
    } else {
      assert keys[..i] + keys[i + 1..] == keys[1..];
    }
  }

  /** A client that keeps its descriptors is in one slot only. */
  lemma OneSlot(slots: S.Slots, i: nat, j: nat)
    requires S.AllApart(slots) && i < |slots| && j < |slots| && slots[i].Some? && slots[j].Some?
    requires slots[i].value.fdNotif == slots[j].value.fdNotif
    ensures i == j
  {
    var fd := slots[i].value.fdNotif;
    forall x | 0 <= x < |slots| && x != i ensures !S.Uses(slots[x], fd) {
      assert S.Uses(slots[i], fd);
      assert if x < i then S.Apart(slots[x], slots[i]) else S.Apart(slots[i], slots[x]);
    }
  }

  class ClientTable {
    const kvsTable: HashTable
    const connectedClients: array<Connection?>
    /** All clients and all nodes of their lists, now or before, and the slots as values. */
    ghost var Connections: set<Connection>
    ghost var Nodes: set<SubscriptionsKeyNode>
    ghost var slots: S.Slots

    ghost predicate SlotOk(i: nat)
      requires i < connectedClients.Length == |slots|
      reads `slots, `Connections, connectedClients, Connections`nodes
    {
      var c := connectedClients[i];
      if c == null then slots[i] == None else c in Connections && slots[i] == Some(c.View())
    }

    ghost predicate SlotsOk()
      reads `slots, `Connections, connectedClients, Connections`nodes
    {
      && connectedClients.Length == |slots| && S.AllApart(slots)
      && forall i | 0 <= i < |slots| :: SlotOk(i)
    }

    ghost predicate ListsOk()
      reads `Connections, `Nodes, Connections, Nodes
    {
      forall c | c in Connections :: ClientOk(c)
    }

    ghost predicate ClientOk(c: Connection)
      reads `Nodes, c, Nodes
    {
      c.Repr <= Nodes && (forall n | n in c.nodes :: n in c.Repr) && c.ListOk()
    }

    ghost predicate ClientsOk()
      reads this, connectedClients, Connections, Nodes
    {
      SlotsOk() && ListsOk()
    }

    ghost predicate Valid()
      reads this, connectedClients, Connections, Nodes
      reads kvsTable, kvsTable.table, kvsTable.Repr, kvsTable.Subs
    {
      ClientsOk() && kvsTable.Valid()
    }

    /** The table and the slots as values; messages are returned, not kept. */
    ghost function State(): S.Server
      reads this, kvsTable
    {
      S.Server(kvsTable.view, slots, [])
    }

    constructor (n: nat)
      ensures Valid() && State() == S.Server(Empty(), seq(n, _ => None), [])
      ensures fresh(connectedClients) && fresh(kvsTable) && fresh(kvsTable.table)
      ensures fresh(kvsTable.Repr) && fresh(kvsTable.Subs) && Connections == {} && Nodes == {}
    {
      kvsTable := new HashTable();
      connectedClients := new Connection?[n](_ => null);
      slots, Connections, Nodes := seq(n, _ => None), {}, {};
    }

    /** What the list of the client in slot i has become enters the slots. */
    ghost method Record(client: Connection, i: nat)
      requires connectedClients.Length == |slots| && S.AllApart(slots)
      requires i < |slots| && connectedClients[i] == client && client in Connections && slots[i].Some?
      requires slots[i].value.(subscriptions := []) == client.View().(subscriptions := [])
      requires forall j | 0 <= j < |slots| && connectedClients[j] != client :: SlotOk(j)
      requires forall j | 0 <= j < |slots| && connectedClients[j] == client :: j == i
      modifies `slots
      ensures SlotsOk() && slots == old(slots)[i := Some(client.View())]
    {
      slots := slots[i := Some(client.View())];
      S.SameDescriptors(old(slots), i, slots[i]);
      forall j | 0 <= j < |slots| ensures SlotOk(j) {
        assert j != i ==> old(SlotOk(j));
      }
    }

    /** A client is in one slot. */
    lemma InOneSlot(client: Connection, i: nat)
      requires SlotsOk() && i < |slots| && connectedClients[i] == client
      ensures client in Connections && slots[i] == Some(client.View())
      ensures forall j | 0 <= j < |slots| && connectedClients[j] == client :: j == i
    {
      assert SlotOk(i);
      forall j | 0 <= j < |slots| && connectedClients[j] == client ensures j == i {
        assert SlotOk(j);
        OneSlot(slots, i, j);
      }
    }

    /** A new key goes to the front of the client's list. */
    method AddSubscription(client: Connection, key: Key, ghost i: nat)
      requires ClientsOk() && i < |slots| && connectedClients[i] == client
      modifies `slots, `Nodes, client`subscriptions, client`nodes, client`Repr
      ensures ClientsOk() && fresh(Nodes - old(Nodes))
      ensures var c := old(client.View());
              slots == old(slots)[i := Some(c.(subscriptions := [key] + c.subscriptions))]
    {
      InOneSlot(client, i);
      assert ClientOk(client);
      client.Add(key);
      Nodes := Nodes + client.Repr;
      forall j | 0 <= j < |slots| && connectedClients[j] != client ensures SlotOk(j) {
        assert old(SlotOk(j));
      }
      Record(client, i);
      forall c | c in Connections ensures ClientOk(c) {
        assert old(ClientOk(c));
      }
    }

    /** Every copy of a key goes from it. */
    method RemoveSubscription(client: Connection, key: Key, ghost i: nat)
      requires ClientsOk() && i < |slots| && connectedClients[i] == client
      modifies `slots, client`subscriptions, client`nodes, client.Repr`next
      ensures ClientsOk()
      ensures var c := old(client.View());
              slots == old(slots)[i := Some(c.(subscriptions := S.Forget(c.subscriptions, key)))]
    {
      InOneSlot(client, i);
      assert ClientOk(client);
      client.RemoveSubscription(key);
      forall j | 0 <= j < |slots| && connectedClients[j] != client ensures SlotOk(j) {
        assert old(SlotOk(j));
      }
      Record(client, i);
      forall c | c in Connections ensures ClientOk(c) {
        assert old(ClientOk(c));
        assert forall n | n in c.nodes :: n.owner == c;
      }
    }

    /** The list of a client is dropped. */
    method ClearSubscriptions(client: Connection, ghost i: nat)
      requires ClientsOk() && i < |slots| && connectedClients[i] == client
      modifies `slots, client`subscriptions, client`nodes
      ensures ClientsOk() && slots == old(slots)[i := Some(old(client.View()).(subscriptions := []))]
    {
      InOneSlot(client, i);
      assert ClientOk(client);
      client.Clear();
      forall j | 0 <= j < |slots| && connectedClients[j] != client ensures SlotOk(j) {
        assert old(SlotOk(j));
      }
      Record(client, i);
      forall c | c in Connections ensures ClientOk(c) {
        assert old(ClientOk(c));
      }
    }

    /** Subscribes a client to a key, and answers whether the key is there; if so the
        client is on its list then. The client's own list grows unless it was on the
        key's list already. Names that are empty or too long only get the answer. */
    method KvsSubscribe(name: string, client: Connection, ghost i: nat) returns (r: int, reply: char)
      requires Valid() && i < |slots| && connectedClients[i] == client
      requires |name| == 0 || |name| > 40 || Hashable(name)
      modifies `slots, `Nodes, client`subscriptions, client`nodes, client`Repr
      modifies kvsTable, kvsTable.Repr, kvsTable.Subs
      ensures Valid() && S.Possible(old(State()), S.Subscribe(i, name))
      ensures State() == S.Do(old(State()), S.Subscribe(i, name))
      ensures r == 0 && reply == S.SubscribeReply(old(State()), name)
      ensures |name| == 0 || |name| > 40 ==> reply == '0' && State() == old(State())
      ensures 1 <= |name| <= 40 ==>
                && reply == (if Get(old(kvsTable.view), name).Some? then '1' else '0')
                && (client.fdNotif in Subscribers(kvsTable.view, name) <==> reply == '1')
    {
      InOneSlot(client, i);
      kvsTable.IsTable();
      if |name| == 0 || |name| > MAX_STRING_SIZE {
        return 0, '0';
      }
      S.ListedMeaning(kvsTable.view, name, client.fdNotif);
      var found := BeginSubscription(name, client, i);
      r, reply := 0, if found then '1' else '0';
    }

    /** The key's list first, then the client's own. */
    method BeginSubscription(name: Key, client: Connection, ghost i: nat) returns (found: bool)
      requires Valid() && i < |slots| && connectedClients[i] == client
      requires slots[i] == Some(client.View())
      modifies `slots, `Nodes, client`subscriptions, client`nodes, client`Repr
      modifies kvsTable, kvsTable.Repr, kvsTable.Subs
      ensures Valid() && State() == S.DoSubscribe(old(State()), i, name)
      ensures found == Get(old(kvsTable.view), name).Some?
    {
      var status;
      status, found := kvsTable.Subscribe(name, client.fdNotif);
      assert ClientsOk();
      if status == 0 {
        AddSubscription(client, name, i);
      }
    }

    /** Ends a subscription: every copy of the key goes from the client's own list,
        and the client from the key's. */
    method KvsUnsubscribe(name: string, client: Connection, ghost i: nat) returns (r: int, reply: char)
      requires Valid() && i < |slots| && connectedClients[i] == client
      requires |name| == 0 || |name| > 40 || Hashable(name)
      modifies `slots, client`subscriptions, client`nodes, client.Repr`next
      modifies kvsTable, kvsTable.Repr, kvsTable.Subs
      ensures Valid() && S.Possible(old(State()), S.Unsubscribe(i, name))
      ensures State() == S.Do(old(State()), S.Unsubscribe(i, name))
      ensures r == 0 && reply == S.UnsubscribeReply(old(State()), i, name)
      ensures |name| == 0 || |name| > 40 ==> reply == '\U{1}' && State() == old(State())
      ensures 1 <= |name| <= 40 ==>
                && reply == (if client.fdNotif in Subscribers(old(kvsTable.view), name) then '0' else '1')
                && client.fdNotif !in Subscribers(kvsTable.view, name)
    {
      InOneSlot(client, i);
      kvsTable.IsTable();
      if |name| == 0 || |name| > MAX_STRING_SIZE {
        return 0, 1 as char;
      }
      S.UnlistedMeaning(kvsTable.view, name, client.fdNotif);
      var status := EndSubscription(name, client, i);
      r, reply := 0, if status != 0 then '1' else '0';
    }

    /** The client's own list first, then the key's. */
    method EndSubscription(name: Key, client: Connection, ghost i: nat) returns (status: int)
      requires Valid() && i < |slots| && connectedClients[i] == client
      requires slots[i] == Some(client.View())
      modifies `slots, client`subscriptions, client`nodes, client.Repr`next
      modifies kvsTable, kvsTable.Repr, kvsTable.Subs
      ensures Valid() && State() == S.DoUnsubscribe(old(State()), i, name)
      ensures status == if client.fdNotif in Subscribers(old(kvsTable.view), name) then 0 else 1
    {
      RemoveSubscription(client, name, i);
      status := kvsTable.Unsubscribe(name, client.fdNotif);
      assert ClientsOk();
    }

    /** No connected client has a descriptor of this one. */
    ghost predicate AllUnused(client: Connection)
      reads `slots
    {
      S.Unused(slots, client.fdReq) && S.Unused(slots, client.fdResp) && S.Unused(slots, client.fdNotif)
    }

    /** Enters a client in the first free slot: 1 if there is none. */
    method AddClient(client: Connection) returns (r: int)
      requires ClientsOk() && AllUnused(client) && client.ListOk()
      modifies `slots, `Connections, `Nodes, connectedClients
      ensures ClientsOk() && r == if S.FreeSlot(old(slots)) < |old(slots)| then 0 else 1
      ensures Nodes == if r == 0 then old(Nodes) + client.Repr else old(Nodes)
      ensures r == 0 ==> slots == old(slots)[S.FreeSlot(old(slots)) := Some(client.View())]
      ensures r == 0 ==> connectedClients[S.FreeSlot(old(slots))] == client
      ensures r != 0 ==> slots == old(slots)
    {
      var i := 0;
      while i < connectedClients.Length
        invariant i <= |slots| && forall j | 0 <= j < i :: slots[j].Some?
      {
        assert SlotOk(i);
        if connectedClients[i] == null {
          FreeSlotIs(slots, i);
          Enter(client, i);
          return 0;
        }
        i := i + 1;
      }
      FreeSlotIs(slots, i);
      return 1;
    }

    method Enter(client: Connection, i: nat)
      requires ClientsOk() && i < |slots| && slots[i] == None && AllUnused(client) && client.ListOk()
      modifies `slots, `Connections, `Nodes, connectedClients
      ensures ClientsOk() && slots == old(slots)[i := Some(client.View())] && connectedClients[i] == client
      ensures Nodes == old(Nodes) + client.Repr
    {
      connectedClients[i] := client;
      slots := slots[i := Some(client.View())];
      Connections, Nodes := Connections + {client}, Nodes + client.Repr;
      forall x, y | 0 <= x < y < |slots| ensures S.Apart(slots[x], slots[y]) {
        assert S.Apart(old(slots)[x], old(slots)[y]);
      }
      forall j | 0 <= j < |slots| ensures SlotOk(j) {
        assert old(SlotOk(j));
      }
      forall c | c in Connections ensures ClientOk(c) {
        assert c != client ==> old(ClientOk(c));
      }
    }

    method Leave(i: nat)
      requires ClientsOk() && i < |slots|
      modifies `slots, connectedClients
      ensures ClientsOk() && slots == old(slots)[i := None] && connectedClients[i] == null
      ensures forall j | 0 <= j < |slots| && j != i :: connectedClients[j] == old(connectedClients[j])
    {
      connectedClients[i] := null;
      slots := slots[i := None];
      S.SameDescriptors(old(slots), i, None);
      forall j | 0 <= j < |slots| ensures SlotOk(j) {
        assert old(SlotOk(j));
      }
    }

    /** Frees the first slot with these descriptors: 1 if there is none. */
    method RemoveClient(fdReq: int, fdResp: int, fdNotif: int) returns (r: int)
      requires ClientsOk()
      modifies `slots, connectedClients
      ensures ClientsOk()
      ensures var i := S.SlotOf(old(slots), S.Client(fdReq, fdResp, fdNotif, []));
              && r == (if i < |old(slots)| then 0 else 1)
              && slots == S.Freed(old(slots), S.Client(fdReq, fdResp, fdNotif, []))
    {
      ghost var c := S.Client(fdReq, fdResp, fdNotif, []);
      var i := 0;
      while i < connectedClients.Length
        invariant i <= |slots| && forall j | 0 <= j < i :: !S.HasDescriptors(slots[j], c)
      {
        assert SlotOk(i);
        var client := connectedClients[i];
        if client != null && client.fdReq == fdReq && client.fdResp == fdResp && client.fdNotif == fdNotif {
          Leave(i);
          return 0;
        }
        i := i + 1;
      }
      return 1;
    }

    /** Opens a session on three new descriptors (kvs_connect). When no slot is
        free, the worker that called it goes on to disconnect the client, which has
        no keys and no slot. */
    method KvsConnect(fdReq: int, fdResp: int, fdNotif: int) returns (client: Connection, reply: char)
      requires Valid() && S.Possible(State(), S.Connect(fdReq, fdResp, fdNotif))
      modifies `slots, `Connections, `Nodes, connectedClients
      ensures Valid() && State() == S.Do(old(State()), S.Connect(fdReq, fdResp, fdNotif))
      ensures reply == if S.FreeSlot(old(slots)) < |slots| then '0' else '1'
      ensures reply == '0' ==> connectedClients[S.FreeSlot(old(slots))] == client
      ensures client.View() == S.Client(fdReq, fdResp, fdNotif, [])
    {
      client := new Connection(fdReq, fdResp, fdNotif);
      assert ClientsOk();
      var r := AddClient(client);
      reply := if r != 0 then '1' else '0';
      if r != 0 {
        r := RemoveClient(fdReq, fdResp, fdNotif);
      }
    }

    /** Takes a client off the lists of all its keys, walking its own list. */
    method Purge(client: Connection)
      requires kvsTable.Valid() && client.ListOk()
      modifies kvsTable, kvsTable.Repr, kvsTable.Subs
      ensures kvsTable.Valid() && kvsTable.Repr == old(kvsTable.Repr) && kvsTable.Subs == old(kvsTable.Subs)
      ensures kvsTable.view == S.Purged(old(kvsTable.view), client.Contents(), client.fdNotif)
    {
      var current := client.subscriptions;
      ghost var i, keys := 0, client.Contents();
      assert keys[0..] == keys;
      while current != null
        invariant i <= |client.nodes| && current == client.NodeAt(i)
        invariant kvsTable.Valid() && kvsTable.Repr == old(kvsTable.Repr) && kvsTable.Subs == old(kvsTable.Subs)
        invariant S.Purged(kvsTable.view, keys[i..], client.fdNotif)
               == S.Purged(old(kvsTable.view), keys, client.fdNotif)
        decreases |client.nodes| - i
      {
        assert keys[i..][1..] == keys[i + 1..];
        var r := kvsTable.Unsubscribe(current.key, client.fdNotif);
        current, i := current.next, i + 1;
      }
      assert keys[i..] == [];
    }

    /** A client goes off the lists of all its keys, and its own list is dropped. */
    method DropKeys(client: Connection, ghost i: nat)
      requires Valid() && i < |slots| && connectedClients[i] == client
      modifies `slots, client`subscriptions, client`nodes
      modifies kvsTable, kvsTable.Repr, kvsTable.Subs
      ensures Valid() && slots == old(slots)[i := Some(old(client.View()).(subscriptions := []))]
      ensures kvsTable.Repr == old(kvsTable.Repr) && kvsTable.Subs == old(kvsTable.Subs)
      ensures kvsTable.view == S.Purged(old(kvsTable.view), old(client.Contents()), client.fdNotif)
    {
      InOneSlot(client, i);
      assert ClientOk(client);
      Purge(client);
      assert ClientsOk();
      ClearSubscriptions(client, i);
    }

    /** Ends the session of a client: off all lists, and out of its slot. */
    method KvsDisconnect(client: Connection, ghost i: nat)
      requires Valid() && i < |slots| && connectedClients[i] == client
      modifies `slots, connectedClients, client`subscriptions, client`nodes
      modifies kvsTable, kvsTable.Repr, kvsTable.Subs
      ensures Valid() && S.Possible(old(State()), S.Disconnect(i))
      ensures State() == S.Do(old(State()), S.Disconnect(i))
    {
      InOneSlot(client, i);
      DropKeys(client, i);
      S.OwnSlot(slots, i);
      S.OwnSlot(old(slots), i);
      var r := RemoveClient(client.fdReq, client.fdResp, client.fdNotif);
    }

    /** One slot of the clean-up: the client, if any, is purged and leaves. */
    method CleanSlot(i: nat)
      requires Valid() && i < |slots|
      modifies `slots, connectedClients, Connections`subscriptions, Connections`nodes
      modifies kvsTable, kvsTable.Repr, kvsTable.Subs
      ensures Valid() && slots == old(slots)[i := None]
      ensures kvsTable.Repr == old(kvsTable.Repr) && kvsTable.Subs == old(kvsTable.Subs)
      ensures kvsTable.view == match old(slots)[i]
                               case Some(c) => S.Purged(old(kvsTable.view), c.subscriptions, c.fdNotif)
                               case None => old(kvsTable.view)
    {
      assert SlotOk(i);
      var client := connectedClients[i];
      if client != null {
        DropKeys(client, i);
        Leave(i);
      } else {
        assert slots == slots[i := None];
      }
    }

    /** Ends every session (clean_all_clients). */
    method CleanAllClients()
      requires Valid()
      modifies `slots, connectedClients, Connections`subscriptions, Connections`nodes
      modifies kvsTable, kvsTable.Repr, kvsTable.Subs
      ensures Valid() && State() == S.Do(old(State()), S.CleanAll)
    {
      var i := 0;
      while i < connectedClients.Length
        invariant i <= |slots| == |old(slots)| && Valid()
        invariant kvsTable.Repr == old(kvsTable.Repr) && kvsTable.Subs == old(kvsTable.Subs)
        invariant forall j | 0 <= j < i :: slots[j] == None
        invariant forall j | i <= j < |slots| :: slots[j] == old(slots[j])
        invariant kvsTable.view == S.AllPurged(old(kvsTable.view), old(slots), i)
      {
        CleanSlot(i);
        i := i + 1;
      }
      assert slots == seq(|old(slots)|, _ => None);
    }
  }

  lemma FreeSlotIs(slots: S.Slots, i: nat)
    requires i <= |slots| && (i < |slots| ==> slots[i] == None)
    requires forall j | 0 <= j < i :: slots[j].Some?
    ensures S.FreeSlot(slots) == i
  {
  }
}
