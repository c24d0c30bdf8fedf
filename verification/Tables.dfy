/** The hash table as a value: 26 chains of entries, newest first, and what the
    three table operations mean for them (kvs.c). */
module Tables {
  import opened Text

  /** One key node: its key and value, and the descriptors subscribed to it. */
  datatype Entry = Entry(key: Key, value: string, subs: seq<int>)

  type Chain = seq<Entry>

  type Table = t: seq<Chain> | |t| == TABLE_SIZE witness seq(TABLE_SIZE, _ => [])

  function Empty(): (t: Table)
    ensures forall b | 0 <= b < TABLE_SIZE :: t[b] == []
  {
    seq(TABLE_SIZE, _ => [])
  }

  /** A message sent to one descriptor: the key and the text that follows it. */
  datatype Note = Note(fd: int, key: Key, text: string)

  /** Position of the first entry for the key, or the length of the chain. */
  function Find(c: Chain, key: Key): (i: nat)
    ensures i <= |c|
    ensures i < |c| ==> c[i].key == key
    ensures forall j | 0 <= j < i :: c[j].key != key
  {
    if c == [] || c[0].key == key then 0 else 1 + Find(c[1..], key)
  }

  /** A found key keeps its place and its subscribers; a new key goes first. */
  function PutChain(c: Chain, key: Key, value: string): Chain {
    var i := Find(c, key);
    if i < |c| then c[i := c[i].(value := value)] else [Entry(key, value, [])] + c
  }

  function DropChain(c: Chain, key: Key): Chain {
    var i := Find(c, key);
    if i < |c| then c[..i] + c[i + 1..] else c
  }

  function FindChain(c: Chain, key: Key): Option<Entry> {
    var i := Find(c, key);
    if i < |c| then Some(c[i]) else None
  }

  function Get(t: Table, key: Key): Option<Entry> { FindChain(t[Bucket(key)], key) }

  function Put(t: Table, key: Key, value: string): Table {
    t[Bucket(key) := PutChain(t[Bucket(key)], key, value)]
  }

  function Drop(t: Table, key: Key): Table {
    t[Bucket(key) := DropChain(t[Bucket(key)], key)]
  }

  /** Replaces the subscribers of a key that is present. */
  function SetSubs(t: Table, key: Key, subs: seq<int>): Table {
    var c := t[Bucket(key)];
    var i := Find(c, key);
    if i < |c| then t[Bucket(key) := c[i := c[i].(subs := subs)]] else t
  }

  function Subscribers(t: Table, key: Key): seq<int> {
    match Get(t, key)
    case Some(e) => e.subs
    case None => []
  }

  function NotesTo(subs: seq<int>, key: Key, text: string): (notes: seq<Note>)
    ensures |notes| == |subs|
    ensures forall i | 0 <= i < |subs| :: notes[i] == Note(subs[i], key, text)
  {
    seq(|subs|, i requires 0 <= i < |subs| => Note(subs[i], key, text))
  }

  /** Every key is in its own bucket, and no key occurs twice. */
  ghost predicate ValidChain(c: Chain, b: nat) {
    && (forall i | 0 <= i < |c| :: Bucket(c[i].key) == b)
    && (forall i, j | 0 <= i < j < |c| :: c[i].key != c[j].key)
  }

  ghost predicate Valid(t: Table) {
    forall b | 0 <= b < TABLE_SIZE :: ValidChain(t[b], b)
  }

  /** The table as a map: the keys of all entries, each with its value. */
  ghost function Contents(t: Table): (m: map<Key, string>)
    requires Valid(t)
    ensures forall k: Key :: k in m <==> Get(t, k).Some?
    ensures forall k: Key | k in m :: m[k] == Get(t, k).value.value
  {
    map k: Key | k in Keys(t) :: Get(t, k).value.value
  }

  ghost function Keys(t: Table): (ks: set<Key>)
    requires Valid(t)
    ensures forall k: Key :: k in ks <==> Get(t, k).Some?
  {
    KeysExist(t);
    var ks: set<Key> :| IsKeySet(t, ks);
    ks
  }

  ghost predicate IsKeySet(t: Table, ks: set<Key>) {
    forall k: Key :: k in ks <==> Get(t, k).Some?
  }

  lemma KeysExist(t: Table)
    requires Valid(t)
    ensures exists ks: set<Key> :: IsKeySet(t, ks)
  {
    var ks: set<Key> := set b, i | 0 <= b < TABLE_SIZE && 0 <= i < |t[b]| :: t[b][i].key;
    forall k: Key ensures k in ks <==> Get(t, k).Some? {
      if k in ks {
        var b, i :| 0 <= b < TABLE_SIZE && 0 <= i < |t[b]| && t[b][i].key == k;
        assert ValidChain(t[b], b);
      }
      var i := Find(t[Bucket(k)], k);
      assert i < |t[Bucket(k)]| ==> t[Bucket(k)][i].key in ks;
    }
    assert IsKeySet(t, ks);
  }

  lemma FindIsUnique(c: Chain, b: nat, i: nat)
    requires ValidChain(c, b) && i < |c|
    ensures Find(c, c[i].key) == i
  {
    var f := Find(c, c[i].key);
    assert f < |c| ==> c[f].key == c[i].key;
  }

  /** Two chains with the same entries for a key find the same entry. */
  lemma SameEntry(c: Chain, c': Chain, k: Key, b: nat)
    requires ValidChain(c, b) && ValidChain(c', b)
    requires forall i | 0 <= i < |c| && c[i].key == k :: c[i] in c'
    requires forall i | 0 <= i < |c'| && c'[i].key == k :: c'[i] in c
    ensures FindChain(c, k) == FindChain(c', k)
  {
    var i, i' := Find(c, k), Find(c', k);
    if i < |c| {
      var j :| 0 <= j < |c'| && c'[j] == c[i];
      FindIsUnique(c', b, j);
    }
  }

  /** Replacing an entry by one with the same key leaves the other keys alone. */
  lemma SetEntry(c: Chain, b: nat, i: nat, e: Entry)
    requires ValidChain(c, b) && i < |c| && e.key == c[i].key
    ensures ValidChain(c[i := e], b) && FindChain(c[i := e], e.key) == Some(e)
    ensures forall k: Key | k != e.key :: FindChain(c[i := e], k) == FindChain(c, k)
  {
    var c' := c[i := e];
    assert forall x | 0 <= x < |c| && x != i :: c'[x] == c[x];
    forall k: Key | k != e.key ensures FindChain(c', k) == FindChain(c, k) {
      forall x | 0 <= x < |c| && c[x].key == k ensures c[x] in c' {
        assert c[x] == c'[x];
      }
      SameEntry(c', c, k, b);
    }
    FindIsUnique(c', b, i);
  }

  /** So does a new entry in front. */
  lemma NewEntry(c: Chain, b: nat, e: Entry)
    requires ValidChain(c, b) && Bucket(e.key) == b && Find(c, e.key) == |c|
    ensures ValidChain([e] + c, b) && FindChain([e] + c, e.key) == Some(e)
    ensures forall k: Key | k != e.key :: FindChain([e] + c, k) == FindChain(c, k)
  {
    var c' := [e] + c;
    assert forall x | 0 < x <= |c| :: c'[x] == c[x - 1];
    assert c'[1..] == c;
    forall k: Key | k != e.key ensures FindChain(c', k) == FindChain(c, k) {
      assert Find(c', k) == 1 + Find(c, k);
    }
  }

  lemma PutChainMeaning(c: Chain, b: nat, key: Key, value: string)
    requires ValidChain(c, b) && Bucket(key) == b
    ensures var c' := PutChain(c, key, value);
            && ValidChain(c', b)
            && (forall k: Key | k != key :: FindChain(c', k) == FindChain(c, k))
            && FindChain(c', key) ==
               Some(Entry(key, value, if FindChain(c, key).Some? then FindChain(c, key).value.subs else []))
  {
    var i := Find(c, key);
    if i < |c| {
      SetEntry(c, b, i, c[i].(value := value));
    } else {
      NewEntry(c, b, Entry(key, value, []));
    }
  }

  /** A chain without one entry is valid, and has all the other entries. */
  lemma OneLess(c: Chain, b: nat, i: nat)
    requires ValidChain(c, b) && i < |c|
    ensures ValidChain(c[..i] + c[i + 1..], b)
    ensures forall e :: e in c[..i] + c[i + 1..] <==> e in c && e.key != c[i].key
  {
    var c' := c[..i] + c[i + 1..];
    assert forall x | 0 <= x < |c'| :: c'[x] == c[if x < i then x else x + 1];
    forall e | e in c && e.key != c[i].key ensures e in c' {
      var x :| 0 <= x < |c| && c[x] == e;
      assert e == c'[if x < i then x else x - 1];
    }
  }

  lemma DropChainMeaning(c: Chain, b: nat, key: Key)
    requires ValidChain(c, b) && Bucket(key) == b
    ensures var c' := DropChain(c, key);
            && ValidChain(c', b)
            && (forall k: Key | k != key :: FindChain(c', k) == FindChain(c, k))
            && FindChain(c', key) == None
  {
    var i, c' := Find(c, key), DropChain(c, key);
    if i < |c| {
      OneLess(c, b, i);
      forall k: Key | k != key ensures FindChain(c', k) == FindChain(c, k) {
        SameEntry(c', c, k, b);
      }
      assert forall x | 0 <= x < |c'| :: c'[x] in c' && c'[x].key != key;
    }
  }

  /** Replacing the chain of one key's bucket by a chain that treats every other
      key alike changes the table for that key only. */
  lemma ReplaceChain(t: Table, key: Key, c': Chain)
    requires Valid(t)
    requires ValidChain(c', Bucket(key))
    requires forall k: Key | k != key :: FindChain(c', k) == FindChain(t[Bucket(key)], k)
    ensures Valid(t[Bucket(key) := c'])
    ensures forall k: Key | k != key :: Get(t[Bucket(key) := c'], k) == Get(t, k)
  {
    var t' := t[Bucket(key) := c'];
    forall x | 0 <= x < TABLE_SIZE ensures ValidChain(t'[x], x) {
      assert ValidChain(t[x], x);
    }
  }

  lemma PutEntries(t: Table, key: Key, value: string)
    requires Valid(t)
    ensures Valid(Put(t, key, value))
    ensures Get(Put(t, key, value), key) == Some(Entry(key, value, Subscribers(t, key)))
    ensures forall k: Key | k != key :: Get(Put(t, key, value), k) == Get(t, k)
  {
    var b := Bucket(key);
    assert ValidChain(t[b], b);
    PutChainMeaning(t[b], b, key, value);
    ReplaceChain(t, key, PutChain(t[b], key, value));
  }

  lemma DropEntries(t: Table, key: Key)
    requires Valid(t)
    ensures Valid(Drop(t, key))
    ensures Get(Drop(t, key), key) == None
    ensures forall k: Key | k != key :: Get(Drop(t, key), k) == Get(t, k)
  {
    var b := Bucket(key);
    assert ValidChain(t[b], b);
    DropChainMeaning(t[b], b, key);
    ReplaceChain(t, key, DropChain(t[b], key));
  }

  lemma SetSubsEntries(t: Table, key: Key, subs: seq<int>)
    requires Valid(t)
    ensures Valid(SetSubs(t, key, subs))
    ensures Get(SetSubs(t, key, subs), key) ==
            match Get(t, key) case Some(e) => Some(e.(subs := subs)) case None => None
    ensures forall k: Key | k != key :: Get(SetSubs(t, key, subs), k) == Get(t, k)
  {
    var b := Bucket(key);
    var i := Find(t[b], key);
    assert ValidChain(t[b], b);
    if i < |t[b]| {
      SetEntry(t[b], b, i, t[b][i].(subs := subs));
      ReplaceChain(t, key, t[b][i := t[b][i].(subs := subs)]);
    }
  }

  lemma ContentsPut(t: Table, t': Table, e: Entry)
    requires Valid(t) && Valid(t')
    requires forall k: Key | k != e.key :: Get(t', k) == Get(t, k)
    requires Get(t', e.key) == Some(e)
    ensures Contents(t') == Contents(t)[e.key := e.value]
  {
    var m, m' := Contents(t)[e.key := e.value], Contents(t');
    forall k: Key ensures k in m <==> k in m' {}
    forall k: Key | k in m ensures m[k] == m'[k] {}
  }

  lemma MapWithout(m: map<Key, string>, m': map<Key, string>, key: Key)
    requires forall k: Key | k != key :: (k in m' <==> k in m) && (k in m ==> m'[k] == m[k])
    requires key !in m'
    ensures m' == m - {key}
  {
  }

  lemma ContentsDrop(t: Table, t': Table, key: Key)
    requires Valid(t) && Valid(t')
    requires forall k: Key | k != key :: Get(t', k) == Get(t, k)
    requires Get(t', key) == None
    ensures Contents(t') == Contents(t) - {key}
  {
    var m, m' := Contents(t), Contents(t');
    assert forall k: Key | k != key :: (k in m' <==> k in m) && (k in m ==> m'[k] == m[k]);
    assert key !in m';
    MapWithout(m, m', key);
  }

  /** write_pair is map update: the key gets the value and keeps its subscribers,
      or starts without any; every other entry is as before. */
  lemma PutMeaning(t: Table, key: Key, value: string)
    requires Valid(t)
    ensures Valid(Put(t, key, value))
    ensures Contents(Put(t, key, value)) == Contents(t)[key := value]
    ensures forall k: Key :: Subscribers(Put(t, key, value), k) == Subscribers(t, k)
  {
    PutEntries(t, key, value);
    ContentsPut(t, Put(t, key, value), Get(Put(t, key, value), key).value);
  }

  /** delete_pair is map removal, and leaves the other entries alone. */
  lemma DropMeaning(t: Table, key: Key)
    requires Valid(t)
    ensures Valid(Drop(t, key))
    ensures Contents(Drop(t, key)) == Contents(t) - {key}
    ensures forall k: Key :: Subscribers(Drop(t, key), k) == if k == key then [] else Subscribers(t, k)
  {
    DropEntries(t, key);
    ContentsDrop(t, Drop(t, key), key);
  }

  // ---- lists of descriptors ----

  predicate NoDuplicates(fds: seq<int>) {
    forall i, j | 0 <= i < j < |fds| :: fds[i] != fds[j]
  }

  /** add_subscriber: at the end, unless it is there already. */
  function Added(fds: seq<int>, fd: int): seq<int> { if fd in fds then fds else fds + [fd] }

  /** remove_subscriber: a list without one descriptor. */
  function Without(fds: seq<int>, fd: int): (r: seq<int>)
    ensures forall x :: x in r <==> x in fds && x != fd
    ensures NoDuplicates(fds) ==> NoDuplicates(r)
  {
    if fds == [] then [] else
    var rest := Without(fds[1..], fd);
    assert fds == [fds[0]] + fds[1..];
    if fds[0] == fd then rest else
    assert NoDuplicates(fds) ==> fds[0] !in rest;
    [fds[0]] + rest
  }

  lemma {:induction false} WithoutNone(fds: seq<int>, fd: int)
    requires fd !in fds
    ensures Without(fds, fd) == fds
  {
    if fds != [] {
      assert fds == [fds[0]] + fds[1..];
      WithoutNone(fds[1..], fd);
    }
  }

  lemma {:induction false} WithoutOne(fds: seq<int>, fd: int, i: nat)
    requires NoDuplicates(fds) && i < |fds| && fds[i] == fd
    ensures Without(fds, fd) == fds[..i] + fds[i + 1..]
  {
    if i == 0 {
      assert fd !in fds[1..];
      WithoutNone(fds[1..], fd);
    } else {
      WithoutOne(fds[1..], fd, i - 1);
      assert fds[1..][..i - 1] == fds[1..i] && fds[1..][i..] == fds[i + 1..];
      assert [fds[0]] + (fds[1..i] + fds[i + 1..]) == fds[..i] + fds[i + 1..];
    }
  }
}
