/** The hash table in memory: 26 linked chains of key nodes, each with the linked
    list of its subscribers, changed in place (kvs.c, kvs.h). */
module HashTables {
  import opened Text
  import opened Tables

  class Subscriber {
    const fdNotifPipe: int
    var next: Subscriber?
    ghost const owner: KeyNode

    constructor (fd: int, ghost owner: KeyNode)
      ensures fdNotifPipe == fd && next == null && this.owner == owner
    {
      fdNotifPipe, next := fd, null;
      this.owner := owner;
    }
  }

  function Descriptors(subs: seq<Subscriber>): (fds: seq<int>)
    ensures |fds| == |subs|
    ensures forall i | 0 <= i < |subs| :: fds[i] == subs[i].fdNotifPipe
  {
    seq(|subs|, i requires 0 <= i < |subs| => subs[i].fdNotifPipe)
  }

  /** A key, its value, and the list of its subscribers. */
  class KeyNode {
    const key: Key
    var value: string
    var next: KeyNode?
    var subscriber: Subscriber?
    ghost var subs: seq<Subscriber>

    constructor (key: Key, value: string, next: KeyNode?)
      ensures this.key == key && this.value == value && this.next == next && subs == [] && SubsOk()
    {
      this.key, this.value, this.next, subscriber, subs := key, value, next, null, [];
    }

    ghost function View(): Entry
      reads `value, `subs
    {
      Entry(key, value, Descriptors(subs))
    }

    /** The subscriber after position i - 1 of the list, or null at its end. */
    ghost function SubAt(i: nat): Subscriber?
      reads `subs
    {
      if i < |subs| then subs[i] else null
    }

    ghost predicate Linked()
      reads `subscriber, `subs, subs`next
    {
      && subscriber == SubAt(0)
      && (forall s | s in subs :: s.owner == this)
      && forall i {:trigger subs[i].next} | 0 <= i < |subs| :: subs[i].next == SubAt(i + 1)
    }

    ghost predicate SubsOk()
      reads `subscriber, `subs, subs`next
    {
      Linked() && NoDuplicates(Descriptors(subs))
    }

    /** The descriptors in list order. */
    ghost function Fds(): seq<int>
      reads `subs
    {
      Descriptors(subs)
    }

    /** The first subscriber with a descriptor and the one before it; null and the
        last one when there is none. */
    method FindSubscriber(fd: int) returns (prev: Subscriber?, current: Subscriber?, ghost i: nat)
      requires Linked()
      ensures i <= |subs| && current == SubAt(i)
      ensures prev == if i == 0 then null else subs[i - 1]
      ensures forall j | 0 <= j < i :: Fds()[j] != fd
      ensures i < |subs| ==> Fds()[i] == fd
    {
      current, prev, i := subscriber, null, 0;
      ghost var fds := Fds();
      while current != null && current.fdNotifPipe != fd
        invariant i <= |subs| && current == SubAt(i)
        invariant prev == if i == 0 then null else subs[i - 1]
        invariant forall j | 0 <= j < i :: fds[j] != fd
        decreases |subs| - i
      {
        prev := current;
        current := current.next;
        i := i + 1;
      }
    }

    /** Adds a descriptor at the end of the list, unless it is there: 0 if added. */
    method AddSubscriber(fd: int) returns (r: int)
      requires SubsOk()
      modifies this`subscriber, this`subs, subs`next
      ensures SubsOk() && forall s | s in subs :: s in old(subs) || fresh(s)
      ensures r == if fd in old(View()).subs then 1 else 0
      ensures View() == old(View()).(subs := Added(old(View()).subs, fd))
      ensures Fds() == if fd in old(Fds()) then old(Fds()) else old(Fds()) + [fd]
    {
      var prev, current, i := FindSubscriber(fd);
      if current != null {
        return 1;
      }
      AddedKeeps(Fds(), fd);
      if i > 0 {
        OthersDiffer(subs, i - 1);
      }
      Append(prev, fd);
      return 0;
    }

    /** Links a new subscriber after prev, the last one. */
    method Append(prev: Subscriber?, fd: int)
      requires Linked() && prev == if subs == [] then null else subs[|subs| - 1]
      requires forall j | 0 <= j < |subs| - 1 :: subs[j] != prev
      modifies this`subscriber, this`subs, subs`next
      ensures Linked() && forall s | s in subs :: s in old(subs) || fresh(s)
      ensures Fds() == old(Fds()) + [fd]
    {
      var node := new Subscriber(fd, this);
      if prev == null {
        subscriber := node;
      } else {
        prev.next := node;
      }
      subs := subs + [node];
      assert Fds() == old(Fds()) + [fd];
    }

    /** Takes the subscriber at position i, after prev, off the list. */
    method UnlinkSubscriber(prev: Subscriber?, current: Subscriber, ghost i: nat)
      requires Linked() && i < |subs| && current == subs[i]
      requires prev == if i == 0 then null else subs[i - 1]
      requires forall j | 0 <= j < |subs| && j != i - 1 :: subs[j] != prev
      modifies this`subscriber, this`subs, subs`next
      ensures Linked() && subs == old(subs)[..i] + old(subs)[i + 1..]
    {
      ghost var was := subs;
      if prev == null {
        subscriber := current.next;
      } else {
        prev.next := current.next;
      }
      subs := subs[..i] + subs[i + 1..];
      Removed(was, i);
      forall j | 0 <= j < |subs| ensures subs[j].owner == this && subs[j].next == SubAt(j + 1) {
        assert old(was[if j < i then j else j + 1].next == SubAt(if j < i then j + 1 else j + 2));
      }
    }

    /** Takes a descriptor off the list: 0 if it was there. */
    method RemoveSubscriber(fd: int) returns (r: int)
      requires SubsOk()
      modifies this`subscriber, this`subs, subs`next
      ensures SubsOk() && forall s | s in subs :: s in old(subs)
      ensures r == if fd in old(View()).subs then 0 else 1
      ensures View() == old(View()).(subs := Without(old(View()).subs, fd))
      ensures if r == 1 then Fds() == old(Fds())
              else exists i | 0 <= i < |old(Fds())| ::
                     old(Fds())[i] == fd && Fds() == old(Fds())[..i] + old(Fds())[i + 1..]
    {
      var prev, current, i := FindSubscriber(fd);
      if current == null {
        WithoutNone(Fds(), fd);
        return 1;
      }
      RemovedDescriptor(subs, i);
      UnlinkSubscriber(prev, current, i);
      return 0;
    }

    /** One message to every subscriber, in list order. */
    method NotifySubscribers(key: Key, text: string) returns (notes: seq<Note>)
      requires SubsOk()
      ensures notes == NotesTo(Fds(), key, text)
    {
      notes := [];
      var current := subscriber;
      ghost var i, fds := 0, Fds();
      while current != null
        invariant i <= |subs| && current == SubAt(i)
        invariant notes == NotesTo(fds[..i], key, text)
        decreases |subs| - i
      {
        assert fds[..i + 1] == fds[..i] + [fds[i]];
        notes := notes + [Note(current.fdNotifPipe, key, text)];
        assert notes == NotesTo(fds[..i + 1], key, text);
        current := current.next;
        i := i + 1;
      }
      assert fds[..i] == fds;
    }
  }

  lemma AddedKeeps(fds: seq<int>, fd: int)
    requires NoDuplicates(fds) && forall j | 0 <= j < |fds| :: fds[j] != fd
    ensures NoDuplicates(fds + [fd]) && Added(fds, fd) == fds + [fd]
  {
  }

  lemma OthersDiffer(subs: seq<Subscriber>, i: nat)
    requires NoDuplicates(Descriptors(subs)) && i < |subs|
    ensures forall j | 0 <= j < |subs| && j != i :: subs[j] != subs[i]
  {
    var fds := Descriptors(subs);
    assert forall j | 0 <= j < |subs| && j != i :: fds[j] != fds[i];
  }

  /** Dropping a subscriber from a list without duplicates drops its descriptor. */
  lemma RemovedDescriptor(subs: seq<Subscriber>, i: nat)
    requires NoDuplicates(Descriptors(subs)) && i < |subs|
    ensures Descriptors(subs[..i] + subs[i + 1..]) == Without(Descriptors(subs), subs[i].fdNotifPipe)
    ensures NoDuplicates(Descriptors(subs[..i] + subs[i + 1..]))
    ensures subs[i].fdNotifPipe in Descriptors(subs)
    ensures i > 0 ==> forall j | 0 <= j < |subs| && j != i - 1 :: subs[j] != subs[i - 1]
  {
    var fds := Descriptors(subs);
    assert fds[i] == subs[i].fdNotifPipe;
    WithoutOne(fds, fds[i], i);
    assert Descriptors(subs[..i] + subs[i + 1..]) == fds[..i] + fds[i + 1..];
    if i > 0 {
      OthersDiffer(subs, i - 1);
    }
  }

  ghost function Entries(nodes: seq<KeyNode>): (c: Chain)
    reads nodes`value, nodes`subs
    ensures |c| == |nodes|
    ensures forall i | 0 <= i < |c| :: c[i] == nodes[i].View()
  {
    if nodes == [] then [] else [nodes[0].View()] + Entries(nodes[1..])
  }

  /** All keys hash to b, and no key occurs twice. */
  ghost predicate Keyed(nodes: seq<KeyNode>, b: nat) {
    nodes == [] ||
    (Bucket(nodes[0].key) == b && NoKey(nodes[1..], nodes[0].key) && Keyed(nodes[1..], b))
  }

  ghost predicate NoKey(nodes: seq<KeyNode>, key: Key) {
    forall n | n in nodes :: n.key != key
  }

  lemma {:induction false} KeyedAt(nodes: seq<KeyNode>, b: nat, i: nat)
    requires Keyed(nodes, b) && i < |nodes|
    ensures Bucket(nodes[i].key) == b
    ensures forall j | 0 <= j < |nodes| && j != i :: nodes[j].key != nodes[i].key
  {
    if i > 0 {
      KeyedAt(nodes[1..], b, i - 1);
      assert nodes[i] in nodes[1..];
      assert forall j | 0 < j < |nodes| :: nodes[j] == nodes[1..][j - 1];
    } else {
      assert forall j | 0 < j < |nodes| :: nodes[j] in nodes[1..];
    }
  }

  lemma NodeOnce(nodes: seq<KeyNode>, b: nat, i: nat)
    requires Keyed(nodes, b) && i < |nodes|
    ensures forall j | 0 <= j < |nodes| && j != i :: nodes[j] != nodes[i]
  {
    KeyedAt(nodes, b, i);
  }

  lemma PreviousOnce(nodes: seq<KeyNode>, b: nat, i: nat, prev: KeyNode?)
    requires Keyed(nodes, b) && i < |nodes| && prev == if i == 0 then null else nodes[i - 1]
    ensures forall j | 0 <= j < |nodes| && j != i - 1 :: nodes[j] != prev
  {
    if i > 0 {
      NodeOnce(nodes, b, i - 1);
    }
  }

  lemma {:induction false} KeyedWithout(nodes: seq<KeyNode>, b: nat, i: nat)
    requires Keyed(nodes, b) && i < |nodes|
    ensures Keyed(nodes[..i] + nodes[i + 1..], b)
  {
    var rest := nodes[..i] + nodes[i + 1..];
    if i == 0 {
      assert rest == nodes[1..];
    } else {
      KeyedWithout(nodes[1..], b, i - 1);
      assert rest[1..] == nodes[1..][..i - 1] + nodes[1..][i..];
      assert forall n | n in rest[1..] :: n in nodes[1..];
    }
  }

  lemma EntriesWithout(nodes: seq<KeyNode>, i: nat)
    requires i < |nodes|
    ensures Entries(nodes[..i] + nodes[i + 1..]) == Entries(nodes)[..i] + Entries(nodes)[i + 1..]
  {
    Removed(nodes, i);
    Removed(Entries(nodes), i);
    SameEntries(nodes[..i] + nodes[i + 1..], Entries(nodes)[..i] + Entries(nodes)[i + 1..]);
  }

  lemma SameEntries(nodes: seq<KeyNode>, c: Chain)
    requires |c| == |nodes| && forall i | 0 <= i < |c| :: c[i] == nodes[i].View()
    ensures Entries(nodes) == c
  {
  }

  lemma WithoutNode(nodes: seq<KeyNode>, b: nat, i: nat)
    requires Keyed(nodes, b) && i < |nodes|
    ensures var rest, c := nodes[..i] + nodes[i + 1..], Entries(nodes);
            Keyed(rest, b) && Entries(rest) == c[..i] + c[i + 1..] && forall n | n in rest :: n in nodes
  {
    KeyedWithout(nodes, b, i);
    EntriesWithout(nodes, i);
  }

  lemma FindIs(nodes: seq<KeyNode>, key: Key, i: nat)
    requires i <= |nodes| && (i < |nodes| ==> nodes[i].key == key)
    requires forall j | 0 <= j < i :: nodes[j].key != key
    ensures Find(Entries(nodes), key) == i
  {
    FoundFirst(Entries(nodes), key, i);
  }

  lemma FoundFirst(c: Chain, key: Key, i: nat)
    requires i <= |c| && (i < |c| ==> c[i].key == key) && forall j | 0 <= j < i :: c[j].key != key
    ensures Find(c, key) == i
  {
    var f := Find(c, key);
    assert f < |c| ==> c[f].key == key;
  }

  lemma Absent(nodes: seq<KeyNode>, key: Key)
    requires Find(Entries(nodes), key) == |nodes|
    ensures NoKey(nodes, key)
  {
    var c := Entries(nodes);
    forall n | n in nodes ensures n.key != key {
      var i :| 0 <= i < |nodes| && nodes[i] == n;
      assert c[i].key != key;
    }
  }

  /** Chains that differ at one place only. */
  lemma OnePlace(c: Chain, c': Chain, i: nat, e: Entry)
    requires i < |c| == |c'| && c'[i] == e && forall j | 0 <= j < |c| && j != i :: c'[j] == c[j]
    ensures c' == c[i := e]
  {
  }

  /** One slot of the table: the first node of the chain of a bucket. */
  class Slot {
    const bucket: nat
    var head: KeyNode?
    ghost var nodes: seq<KeyNode>

    constructor (b: nat)
      ensures bucket == b && Valid() && View() == [] && nodes == []
    {
      bucket, head, nodes := b, null, [];
    }

    /** The node after position i - 1 of the chain, or null at its end. */
    ghost function NodeAt(i: nat): KeyNode?
      reads `nodes
    {
      if i < |nodes| then nodes[i] else null
    }

    /** nodes is the linked list from head, its keys hash to the bucket, and no key
        occurs twice: the chain is acyclic and shares no node with another. */
    ghost predicate Valid()
      reads `head, `nodes, nodes`next
    {
      Linked() && Keyed(nodes, bucket)
    }

    ghost predicate Linked()
      reads `head, `nodes, nodes`next
    {
      head == NodeAt(0) && forall i {:trigger nodes[i].next} | 0 <= i < |nodes| :: nodes[i].next == NodeAt(i + 1)
    }

    ghost function View(): Chain
      reads `nodes, nodes`value, nodes`subs
    {
      Entries(nodes)
    }

    /** Walks the chain: the node with the key, or null, and the node before it. */
    method FindNode(key: Key) returns (prev: KeyNode?, node: KeyNode?, ghost i: nat)
      requires Linked()
      ensures i == Find(View(), key)
      ensures node == NodeAt(Find(View(), key))
      ensures prev == if Find(View(), key) == 0 then null else nodes[Find(View(), key) - 1]
    {
      prev, node, i := Walk(key);
      FindIs(nodes, key, i);
    }

    method Walk(key: Key) returns (prev: KeyNode?, node: KeyNode?, ghost i: nat)
      requires Linked()
      ensures i <= |nodes| && node == NodeAt(i) && prev == if i == 0 then null else nodes[i - 1]
      ensures forall j | 0 <= j < i :: nodes[j].key != key
      ensures node != null ==> node.key == key
    {
      prev, node, i := null, head, 0;
      while node != null
        invariant i <= |nodes| && node == NodeAt(i)
        invariant prev == if i == 0 then null else nodes[i - 1]
        invariant forall j | 0 <= j < i :: nodes[j].key != key
        decreases |nodes| - i
      {
        if node.key == key {
          return;
        }
        prev, node, i := node, node.next, i + 1;
      }
    }

    method SetValue(node: KeyNode, value: string, ghost i: nat)
      requires Valid() && i < |nodes| && node == nodes[i]
      modifies node`value
      ensures Valid() && View() == old(View())[i := old(View())[i].(value := value)]
    {
      NodeOnce(nodes, bucket, i);
      node.value := value;
    }

    /** The chain part of a subscription. */
    method AddSubscriber(node: KeyNode, fd: int, ghost i: nat) returns (r: int)
      requires Valid() && i < |nodes| && node == nodes[i] && node.SubsOk()
      modifies node`subscriber, node`subs, node.subs`next
      ensures Valid() && node.SubsOk() && forall x | x in node.subs :: x in old(node.subs) || fresh(x)
      ensures r == if fd in old(node.View()).subs then 1 else 0
      ensures View() == old(View())[i := old(node.View()).(subs := Added(old(node.View()).subs, fd))]
    {
      ghost var c := View();
      NodeOnce(nodes, bucket, i);
      r := node.AddSubscriber(fd);
      OnePlace(c, View(), i, node.View());
    }

    /** And of the end of one. */
    method RemoveSubscriber(node: KeyNode, fd: int, ghost i: nat) returns (r: int)
      requires Valid() && i < |nodes| && node == nodes[i] && node.SubsOk()
      modifies node`subscriber, node`subs, node.subs`next
      ensures Valid() && node.SubsOk() && forall x | x in node.subs :: x in old(node.subs)
      ensures r == if fd in old(node.View()).subs then 0 else 1
      ensures View() == old(View())[i := old(node.View()).(subs := Without(old(node.View()).subs, fd))]
    {
      ghost var c := View();
      NodeOnce(nodes, bucket, i);
      r := node.RemoveSubscriber(fd);
      OnePlace(c, View(), i, node.View());
    }

    /** The chain part of write_pair for a key that was found. */
    method Update(node: KeyNode, ghost key: Key, value: string, ghost i: nat)
      requires Valid() && i == Find(View(), key) < |nodes| && node == nodes[i]
      modifies node`value
      ensures Valid() && View() == PutChain(old(View()), key, value)
    {
      SetValue(node, value, i);
    }

    /** The chain part of write_pair for a new key. */
    method Insert(key: Key, value: string)
      requires Valid() && Bucket(key) == bucket && Find(View(), key) == |nodes|
      modifies this
      ensures Valid() && View() == PutChain(old(View()), key, value)
      ensures |nodes| == 1 + |old(nodes)| && nodes[1..] == old(nodes) && fresh(nodes[0])
      ensures nodes[0].subs == [] && nodes[0].SubsOk()
    {
      Absent(nodes, key);
      Prepend(key, value);
    }

    /** Links a new node in front of the chain. */
    method Prepend(key: Key, value: string)
      requires Valid() && Bucket(key) == bucket && NoKey(nodes, key)
      modifies this
      ensures Valid() && View() == [Entry(key, value, [])] + old(View())
      ensures |nodes| == |old(nodes)| + 1 && nodes[1..] == old(nodes) && fresh(nodes[0])
      ensures nodes[0].subs == [] && nodes[0].SubsOk()
    {
      var node := new KeyNode(key, value, head);
      head := node;
      ghost var was := nodes;
      nodes := [node] + nodes;
      assert nodes[1..] == was && nodes[0] == node;
      forall j | 0 <= j < |nodes| ensures nodes[j].next == NodeAt(j + 1) {
        assert j > 0 ==> nodes[j] == was[j - 1];
      }
    }

    /** Takes the node at position i, after prev, out of the chain. */
    method Unlink(prev: KeyNode?, node: KeyNode, ghost i: nat)
      requires Valid() && i < |nodes| && node == nodes[i]
      requires prev == if i == 0 then null else nodes[i - 1]
      modifies `head, `nodes, nodes`next
      ensures Valid() && forall n | n in nodes :: n in old(nodes)
      ensures View() == old(View())[..i] + old(View())[i + 1..]
    {
      ghost var c := Entries(nodes[..i] + nodes[i + 1..]);
      WithoutNode(nodes, bucket, i);
      PreviousOnce(nodes, bucket, i, prev);
      Relink(prev, node, i);
      assert View() == c;
    }

    method Relink(prev: KeyNode?, node: KeyNode, ghost i: nat)
      requires Linked() && i < |nodes| && node == nodes[i]
      requires prev == if i == 0 then null else nodes[i - 1]
      requires forall j | 0 <= j < |nodes| && j != i - 1 :: nodes[j] != prev
      modifies `head, `nodes, nodes`next
      ensures Linked() && nodes == old(nodes)[..i] + old(nodes)[i + 1..]
    {
      ghost var was := nodes;
      if prev == null {
        head := node.next;
      } else {
        prev.next := node.next;
      }
      nodes := nodes[..i] + nodes[i + 1..];
      Removed(was, i);
      forall j | 0 <= j < |nodes| ensures nodes[j].next == NodeAt(j + 1) {
        assert old(was[if j < i then j else j + 1].next == NodeAt(if j < i then j + 1 else j + 2));
      }
    }
  }

  lemma {:induction false} SameBucket(nodes: seq<KeyNode>, b: nat, n: KeyNode)
    requires Keyed(nodes, b) && n in nodes
    ensures Bucket(n.key) == b
  {
    if n != nodes[0] {
      SameBucket(nodes[1..], b, n);
    }
  }

  lemma ChainOfKeyed(nodes: seq<KeyNode>, b: nat)
    requires Keyed(nodes, b)
    ensures ValidChain(Entries(nodes), b)
  {
    forall i | 0 <= i < |nodes|
      ensures Bucket(nodes[i].key) == b && forall j | 0 <= j < |nodes| && j != i :: nodes[j].key != nodes[i].key
    {
      KeyedAt(nodes, b, i);
    }
  }

  /** A slot none of whose objects has changed is what it was. */
  twostate lemma Unchanged(slot: Slot)
    requires old(slot.Valid()) && unchanged(slot)
    requires forall n | n in slot.nodes :: unchanged(n)
    ensures slot.Valid() && slot.View() == old(slot.View())
  {
    assert forall i | 0 <= i < |slot.nodes| :: slot.nodes[i] in slot.nodes;
  }

  class HashTable {
    const table: seq<Slot>
    /** All key nodes and all subscribers, linked now or before. */
    ghost var Repr: set<KeyNode>
    ghost var Subs: set<Subscriber>
    /** The chains as values. */
    ghost var view: Table

    ghost predicate SlotOk(b: nat)
      requires b < TABLE_SIZE <= |table|
      reads `view, table[b], table[b].nodes`next, table[b].nodes`value, table[b].nodes`subs
    {
      table[b].bucket == b && table[b].Valid() && table[b].View() == view[b]
    }

    ghost predicate Owned(b: nat)
      requires b < |table|
      reads `Repr, table[b]
    {
      forall n | n in table[b].nodes :: n in Repr
    }

    /** The list of a node is in order. */
    ghost predicate ListOk(n: KeyNode)
      reads `Subs, n`subscriber, n`subs, Subs`next
    {
      (forall x | x in n.subs :: x in Subs) && n.SubsOk()
    }

    ghost predicate ListsOk()
      reads `Repr, `Subs, Repr`subscriber, Repr`subs, Subs`next
    {
      forall n | n in Repr :: ListOk(n)
    }

    ghost predicate InOrder(b: nat)
      requires b < |table| == TABLE_SIZE
      reads `view, `Repr, table, Repr
    {
      Owned(b) && SlotOk(b)
    }

    /** Slot b holds the acyclic chain of bucket b, as view says, for every b. */
    ghost predicate Valid()
      reads `view, `Repr, `Subs, table, Repr, Subs`next
    {
      SlotsOk() && ListsOk()
    }

    ghost predicate SlotsOk()
      reads `view, `Repr, table, Repr
    {
      |table| == TABLE_SIZE && forall b | 0 <= b < TABLE_SIZE :: InOrder(b)
    }

    /** The empty table of create_hash_table. */
    constructor ()
      ensures Valid() && fresh(table) && fresh(Repr) && fresh(Subs)
      ensures |table| == 26 && view == seq(26, _ => [])
    {
      var slots: seq<Slot> := [];
      while |slots| < TABLE_SIZE
        invariant |slots| <= TABLE_SIZE
        invariant forall b | 0 <= b < |slots| ::
          fresh(slots[b]) && slots[b].bucket == b && slots[b].Valid() && slots[b].nodes == []
      {
        var slot := new Slot(|slots|);
        slots := slots + [slot];
      }
      table, Repr, Subs, view := slots, {}, {}, Empty();
      new;
    }

    /** Nothing of slot x is in the footprint of slot b. */
    ghost predicate Apart(b: nat, x: nat)
      requires b < |table| && x < |table|
      reads table[b], table[x]
    {
      table[x] != table[b] && forall n | n in table[x].nodes :: n !in table[b].nodes
    }

    /** The chains as values are a table: every key in its own bucket, and once. */
    lemma IsTable()
      requires Valid()
      ensures Tables.Valid(view)
    {
      forall b | 0 <= b < TABLE_SIZE ensures ValidChain(view[b], b) {
        assert InOrder(b);
        ChainOfKeyed(table[b].nodes, b);
      }
    }

    /** A node of one chain is in no other, and no slot is used twice. */
    lemma Disjoint(b: nat, x: nat)
      requires SlotsOk() && b < TABLE_SIZE && x < TABLE_SIZE && x != b
      ensures Apart(b, x)
    {
      assert InOrder(b) && InOrder(x);
      forall n | n in table[x].nodes ensures n !in table[b].nodes {
        SameBucket(table[x].nodes, x, n);
        if n in table[b].nodes {
          SameBucket(table[b].nodes, b, n);
        }
      }
    }

    ghost predicate AllApart(b: nat)
      requires b < |table| == TABLE_SIZE
      reads table
    {
      forall x | 0 <= x < TABLE_SIZE && x != b :: Apart(b, x)
    }

    lemma AllSlots(b: nat)
      requires SlotsOk() && b < TABLE_SIZE
      ensures InOrder(b) && OthersOk(b) && AllApart(b)
    {
      forall x | 0 <= x < TABLE_SIZE && x != b ensures Apart(b, x) {
        Disjoint(b, x);
      }
    }

    /** Every slot but b is in order. */
    ghost predicate OthersOk(b: nat)
      requires b < |table| == TABLE_SIZE
      reads `view, `Repr, table, Repr
    {
      forall x | 0 <= x < TABLE_SIZE && x != b :: InOrder(x)
    }

    /** What one chain has become enters the view. */
    ghost method Record(b: nat, c: Chain)
      requires b < |table| == TABLE_SIZE && OthersOk(b)
      requires Owned(b) && table[b].bucket == b && table[b].Valid() && table[b].View() == c
      modifies `view
      ensures SlotsOk() && view == old(view)[b := c]
    {
      view := view[b := c];
      forall x | 0 <= x < TABLE_SIZE ensures InOrder(x) {
        assert x != b ==> old(InOrder(x));
      }
    }

    /** The chain of bucket b has a new first node. */
    twostate predicate NewHead(b: nat)
      requires b < |table|
      reads `Repr, table[b], table[b].nodes, if table[b].nodes == [] then [] else table[b].nodes[0].subs
    {
      && table[b].nodes != [] && fresh(table[b].nodes[0])
      && table[b].nodes[0].subs == [] && table[b].nodes[0].SubsOk()
      && forall n | n in table[b].nodes[1..] :: n in Repr
    }

    /** Takes the new first node of a chain, without subscribers, into Repr. */
    ghost method Adopt(b: nat)
      requires b < |table| == TABLE_SIZE && OthersOk(b) && ListsOk()
      requires table[b].nodes != [] && forall n | n in table[b].nodes[1..] :: n in Repr
      requires table[b].nodes[0].subs == [] && table[b].nodes[0].SubsOk()
      modifies `Repr
      ensures Repr == old(Repr) + {table[b].nodes[0]}
      ensures OthersOk(b) && Owned(b) && ListsOk()
    {
      var node := table[b].nodes[0];
      assert ListOk(node);
      Repr := Repr + {node};
      assert table[b].nodes == [node] + table[b].nodes[1..];
      forall x | 0 <= x < |table| && x != b ensures InOrder(x) {
        assert old(InOrder(x));
      }
      forall n | n in Repr ensures ListOk(n) {
        assert n != node ==> old(ListOk(n));
      }
    }

    /** Takes the subscribers of a node into Subs. */
    ghost method AdoptSubs(node: KeyNode)
      requires node in Repr && node.SubsOk() && forall n | n in Repr && n != node :: ListOk(n)
      modifies `Subs
      ensures Subs == old(Subs) + (set x | x in node.subs) && ListsOk()
    {
      Subs := Subs + set x | x in node.subs;
      forall n | n in Repr ensures ListOk(n) {
        assert n != node ==> old(ListOk(n));
      }
    }

    /** Walks the chain of the key's bucket: the node before it, and its node. */
    method Search(key: Key) returns (prev: KeyNode?, node: KeyNode?, ghost i: nat)
      requires Valid()
      ensures var slot := table[Bucket(key)];
              && i == Find(view[Bucket(key)], key) && |slot.nodes| == |view[Bucket(key)]|
              && i <= |slot.nodes| && prev == (if i == 0 then null else slot.nodes[i - 1])
              && node == slot.NodeAt(i)
      ensures Get(view, key) == if node == null then None else Some(node.View())
      ensures node != null ==> node in table[Bucket(key)].nodes && ListOk(node)
      ensures Owned(Bucket(key))
    {
      assert InOrder(Bucket(key));
      prev, node, i := table[Bucket(key)].FindNode(key);
    }

    /** The table part of write_pair for a key that was found. */
    method UpdatePair(b: nat, node: KeyNode, key: Key, value: string, ghost i: nat)
      requires Valid() && b == Bucket(key)
      requires i == Find(view[b], key) < |table[b].nodes| && node == table[b].nodes[i]
      modifies `view, node`value
      ensures Valid() && view == Put(old(view), key, value)
    {
      AllSlots(b);
      UpdateSlot(b, node, key, value, i);
      Record(b, PutChain(view[b], key, value));
    }

    method UpdateSlot(b: nat, node: KeyNode, key: Key, value: string, ghost i: nat)
      requires |table| == TABLE_SIZE && b == Bucket(key)
      requires InOrder(b) && OthersOk(b) && AllApart(b)
      requires i == Find(view[b], key) < |table[b].nodes| && node == table[b].nodes[i]
      modifies node`value
      ensures OthersOk(b) && Owned(b)
      ensures table[b].Valid() && table[b].View() == PutChain(view[b], key, value)
    {
      table[b].Update(node, key, value, i);
      forall x | 0 <= x < TABLE_SIZE && x != b ensures InOrder(x) {
        assert old(InOrder(x) && Apart(b, x));
        Unchanged(table[x]);
      }
    }

    /** The table part of write_pair for a new key. */
    method InsertPair(b: nat, key: Key, value: string)
      requires Valid() && b == Bucket(key) && Find(view[b], key) == |view[b]|
      modifies `view, `Repr, table[b]
      ensures Valid() && fresh(Repr - old(Repr)) && view == Put(old(view), key, value)
    {
      AllSlots(b);
      InsertNode(b, key, value);
      Record(b, PutChain(view[b], key, value));
    }

    method InsertNode(b: nat, key: Key, value: string)
      requires |table| == TABLE_SIZE && b == Bucket(key) && ListsOk()
      requires InOrder(b) && OthersOk(b) && AllApart(b)
      requires Find(view[b], key) == |view[b]|
      modifies `Repr, table[b]
      ensures OthersOk(b) && Owned(b) && ListsOk() && fresh(Repr - old(Repr))
      ensures table[b].bucket == b && table[b].Valid() && table[b].View() == PutChain(view[b], key, value)
    {
      InsertSlot(b, key, value);
      assert ListsOk();
      Adopt(b);
    }

    method InsertSlot(b: nat, key: Key, value: string)
      requires |table| == TABLE_SIZE && b == Bucket(key)
      requires InOrder(b) && OthersOk(b) && AllApart(b)
      requires Find(view[b], key) == |view[b]|
      modifies table[b]
      ensures OthersOk(b) && NewHead(b)
      ensures table[b].Valid() && table[b].View() == PutChain(view[b], key, value)
    {
      table[b].Insert(key, value);
      forall x | 0 <= x < TABLE_SIZE && x != b ensures InOrder(x) {
        assert old(InOrder(x) && Apart(b, x));
        Unchanged(table[x]);
      }
    }

    /** Sets the value of a key, and tells its subscribers; a new key goes to the
        front of its chain, without subscribers. */
    method WritePair(key: Key, value: string) returns (r: int, sent: seq<Note>)
      requires Valid()
      modifies `view, `Repr, table, Repr
      ensures Valid() && fresh(Repr - old(Repr)) && r == 0
      ensures view == Put(old(view), key, value)
      ensures sent == NotesTo(Subscribers(old(view), key), key, value)
    {
      var b := Bucket(key);
      var prev, node, i := Search(key);
      if node != null {
        UpdatePair(b, node, key, value, i);
        sent := node.NotifySubscribers(key, value);
      } else {
        InsertPair(b, key, value);
        sent := [];
      }
      r := 0;
    }

    /** The value of a key, if it is there. */
    method ReadPair(key: Key) returns (value: Option<string>)
      requires Valid()
      ensures value == match Get(view, key) case Some(e) => Some(e.value) case None => None
    {
      var prev, node, i := Search(key);
      value := if node == null then None else Some(node.value);
    }

    /** Takes a node out of its chain, and leaves the other slots alone. */
    method UnlinkSlot(b: nat, prev: KeyNode?, node: KeyNode, ghost i: nat)
      requires b < |table| == TABLE_SIZE && InOrder(b) && OthersOk(b) && AllApart(b)
      requires i < |view[b]| == |table[b].nodes| && node == table[b].nodes[i]
      requires prev == if i == 0 then null else table[b].nodes[i - 1]
      modifies table[b], table[b].nodes`next
      ensures OthersOk(b) && Owned(b)
      ensures table[b].Valid() && table[b].View() == view[b][..i] + view[b][i + 1..]
    {
      table[b].Unlink(prev, node, i);
      forall x | 0 <= x < TABLE_SIZE && x != b ensures InOrder(x) {
        assert old(InOrder(x) && Apart(b, x));
        Unchanged(table[x]);
      }
    }

    /** The table part of delete_pair, for the node found. */
    method DropPair(b: nat, prev: KeyNode?, node: KeyNode, ghost key: Key, ghost i: nat)
      requires SlotsOk() && b == Bucket(key)
      requires i == Find(view[b], key) < |table[b].nodes| && node == table[b].nodes[i]
      requires prev == if i == 0 then null else table[b].nodes[i - 1]
      modifies `view, table[b], table[b].nodes`next
      ensures SlotsOk() && view == Drop(old(view), key)
    {
      AllSlots(b);
      ghost var c := view[b][..i] + view[b][i + 1..];
      assert c == DropChain(view[b], key);
      UnlinkSlot(b, prev, node, i);
      Record(b, c);
    }

    /** Removes a key, telling its subscribers "DELETE" first: 0 if it was there. */
    method DeletePair(key: Key) returns (r: int, sent: seq<Note>)
      requires Valid()
      modifies `view, table, Repr
      ensures Valid() && Repr == old(Repr)
      ensures r == if Get(old(view), key).Some? then 0 else 1
      ensures view == Drop(old(view), key)
      ensures sent == NotesTo(Subscribers(old(view), key), key, "DELETE")
    {
      var b := Bucket(key);
      var prev, node, i := Search(key);
      if node == null {
        return 1, [];
      }
      sent := node.NotifySubscribers(key, "DELETE");
      DropPair(b, prev, node, key, i);
      assert ListsOk();
      r := 0;
    }

    method AddSlot(b: nat, node: KeyNode, fd: int, ghost i: nat) returns (r: int)
      requires b < |table| == TABLE_SIZE && InOrder(b) && OthersOk(b) && AllApart(b)
      requires i < |table[b].nodes| && node == table[b].nodes[i] && node in Repr && ListsOk()
      modifies node`subscriber, node`subs, node.subs`next
      ensures OthersOk(b) && Owned(b) && node.SubsOk() && forall x | x in node.subs :: x in old(node.subs) || fresh(x)
      ensures forall n | n in Repr && n != node :: ListOk(n)
      ensures r == if fd in view[b][i].subs then 1 else 0
      ensures table[b].Valid() && table[b].View() == view[b][i := view[b][i].(subs := Added(view[b][i].subs, fd))]
    {
      assert ListOk(node);
      r := table[b].AddSubscriber(node, fd, i);
      forall n | n in Repr && n != node ensures ListOk(n) {
        assert old(ListOk(n)) && old(node.SubsOk());
        assert forall k | 0 <= k < |n.subs| :: n.subs[k].owner == n;
      }
      forall x | 0 <= x < TABLE_SIZE && x != b ensures InOrder(x) {
        assert old(InOrder(x) && Apart(b, x));
        Unchanged(table[x]);
      }
    }

    method RemoveSlot(b: nat, node: KeyNode, fd: int, ghost i: nat) returns (r: int)
      requires b < |table| == TABLE_SIZE && InOrder(b) && OthersOk(b) && AllApart(b)
      requires i < |table[b].nodes| && node == table[b].nodes[i] && node in Repr && ListsOk()
      modifies node`subscriber, node`subs, node.subs`next
      ensures OthersOk(b) && Owned(b) && ListsOk()
      ensures r == if fd in view[b][i].subs then 0 else 1
      ensures table[b].Valid() && table[b].View() == view[b][i := view[b][i].(subs := Without(view[b][i].subs, fd))]
    {
      assert ListOk(node);
      r := table[b].RemoveSubscriber(node, fd, i);
      forall n | n in Repr ensures ListOk(n) {
        assert old(ListOk(n)) && old(node.SubsOk());
        assert n != node ==> forall k | 0 <= k < |n.subs| :: n.subs[k].owner == n;
      }
      forall x | 0 <= x < TABLE_SIZE && x != b ensures InOrder(x) {
        assert old(InOrder(x) && Apart(b, x));
        Unchanged(table[x]);
      }
    }

    /** The table part of a subscription, for the node found. */
    method AddPair(b: nat, node: KeyNode, key: Key, fd: int, ghost i: nat) returns (r: int)
      requires Valid() && b == Bucket(key)
      requires i == Find(view[b], key) < |view[b]| == |table[b].nodes| && node == table[b].nodes[i]
      modifies `view, `Subs, node`subscriber, node`subs, node.subs`next
      ensures i < |old(view)[b]| && Valid() && fresh(Subs - old(Subs))
      ensures r == if fd in old(view)[b][i].subs then 1 else 0
      ensures view == old(view)[b := old(view)[b][i := old(view)[b][i].(subs := Added(old(view)[b][i].subs, fd))]]
    {
      AllSlots(b);
      r := AddSlot(b, node, fd, i);
      Record(b, view[b][i := view[b][i].(subs := Added(view[b][i].subs, fd))]);
      AdoptSubs(node);
    }

    /** And of the end of one. */
    method RemovePair(b: nat, node: KeyNode, key: Key, fd: int, ghost i: nat) returns (r: int)
      requires Valid() && b == Bucket(key)
      requires i == Find(view[b], key) < |view[b]| == |table[b].nodes| && node == table[b].nodes[i]
      modifies `view, node`subscriber, node`subs, node.subs`next
      ensures i < |old(view)[b]| && Valid() && r == if fd in old(view)[b][i].subs then 0 else 1
      ensures view == old(view)[b := old(view)[b][i := old(view)[b][i].(subs := Without(old(view)[b][i].subs, fd))]]
    {
      AllSlots(b);
      r := RemoveSlot(b, node, fd, i);
      Record(b, view[b][i := view[b][i].(subs := Without(view[b][i].subs, fd))]);
    }

    /** The part of kvs_subscribe under the bucket lock: 0 and false if the key is
        absent, and otherwise what add_subscriber returned. */
    method Subscribe(key: Key, fd: int) returns (status: int, found: bool)
      requires Valid()
      modifies `view, `Subs, Repr, Subs
      ensures Valid() && Repr == old(Repr) && fresh(Subs - old(Subs)) && found == Get(old(view), key).Some?
      ensures status == if fd in Subscribers(old(view), key) then 1 else 0
      ensures view == SetSubs(old(view), key, Added(Subscribers(old(view), key), fd))
    {
      status, found := 0, false;
      var prev, node, i := Search(key);
      if node != null {
        status := AddPair(Bucket(key), node, key, fd, i);
        found := true;
      }
    }

    /** kvs_aux_unsubscribe: 0 if the descriptor was on the key's list. */
    method Unsubscribe(key: Key, fd: int) returns (r: int)
      requires Valid()
      modifies `view, Repr, Subs
      ensures Valid() && Repr == old(Repr) && Subs == old(Subs)
      ensures r == if fd in Subscribers(old(view), key) then 0 else 1
      ensures view == SetSubs(old(view), key, Without(Subscribers(old(view), key), fd))
    {
      r := 1;
      var prev, node, i := Search(key);
      if node != null {
        r := RemovePair(Bucket(key), node, key, fd, i);
      }
    }
  }
}
