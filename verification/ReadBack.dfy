/** What SHOW and BACKUP print can be read back: the pairs of the map, and nothing
    else, as long as the lines fit; and what becomes of those that do not. */
module ReadBack {
  import opened Text
  import opened Tables
  import opened Batches
  import B = BatchMeaning
  import M = SerialMeaning
  import P = Parsing

  // ---- a reader for "(key, value)\n" ----

  /** The bytes before the first c. */
  function UpTo(s: string, c: char): (r: string)
    ensures |r| <= |s|
  {
    if s == "" || s[0] == c then "" else [s[0]] + UpTo(s[1..], c)
  }

  function Behind(s: string, n: nat): (r: string)
    ensures |r| <= |s| && (n > 0 && s != "" ==> |r| < |s|)
  {
    if n <= |s| then s[n..] else ""
  }

  function ReadPairs(s: string): seq<P.Item>
    decreases |s|
  {
    if s == "" then [] else
    var key := UpTo(Behind(s, 1), ',');
    var more := Behind(s, 1 + |key| + 2);
    var value := UpTo(more, ')');
    [P.Item(key, value)] + ReadPairs(Behind(more, |value| + 2))
  }

  lemma {:induction false} UpToText(text: string, c: char, more: string)
    requires c !in text
    ensures UpTo(text + ([c] + more), c) == text
  {
    var s := text + ([c] + more);
    if text == "" {
      assert s == [c] + more;
    } else {
      assert s[1..] == text[1..] + ([c] + more);
      UpToText(text[1..], c, more);
      assert text == [text[0]] + text[1..];
    }
  }

  /** A key and a value that a line tells apart from what is around them. */
  predicate Telling(e: Entry) { ',' !in e.key && ')' !in e.value }

  function LineOf(e: Entry): string { "(" + e.key + ", " + e.value + ")\n" }

  lemma OneLine(e: Entry, more: string)
    requires Telling(e)
    ensures ReadPairs(LineOf(e) + more) == [P.Item(e.key, e.value)] + ReadPairs(more)
  {
    var s := LineOf(e) + more;
    var tail := e.value + (")" + ("\n" + more));
    assert s == "(" + (e.key + ("," + (" " + tail)));
    assert Behind(s, 1) == e.key + ("," + (" " + tail));
    UpToText(e.key, ',', " " + tail);
    assert Behind(s, 1 + |e.key| + 2) == tail;
    UpToText(e.value, ')', "\n" + more);
    assert Behind(tail, |e.value| + 2) == more;
  }

  function LinesOf(es: seq<Entry>): seq<string> {
    seq(|es|, i requires 0 <= i < |es| => "(" + es[i].key + ", " + es[i].value + ")\n")
  }

  function ItemsOf(es: seq<Entry>): seq<P.Item> {
    seq(|es|, i requires 0 <= i < |es| => P.Item(es[i].key, es[i].value))
  }

  lemma {:induction false} LinesReadBack(es: seq<Entry>)
    requires forall i | 0 <= i < |es| :: Telling(es[i])
    ensures ReadPairs(Concat(LinesOf(es))) == ItemsOf(es)
  {
    if es != [] {
      FirstLine(es);
      LinesReadBack(es[1..]);
      OneLine(es[0], Concat(LinesOf(es[1..])));
    }
  }

  lemma FirstLine(es: seq<Entry>)
    requires es != []
    ensures Concat(LinesOf(es)) == LineOf(es[0]) + Concat(LinesOf(es[1..]))
    ensures ItemsOf(es) == [P.Item(es[0].key, es[0].value)] + ItemsOf(es[1..])
  {
    assert LinesOf(es)[0] == LineOf(es[0]) && LinesOf(es)[1..] == LinesOf(es[1..]);
  }

  // ---- the map from a file ----

  /** The pairs read are those of the map, each once. */
  ghost predicate Tell(m: map<Key, string>, items: seq<P.Item>) {
    && (forall i, j | 0 <= i < j < |items| :: items[i].key != items[j].key)
    && (forall k | k in m :: P.Item(k, m[k]) in items)
    && (forall i | 0 <= i < |items| ::
          Hashable(items[i].key) && items[i].key in m && m[items[i].key] == items[i].value)
  }

  /** All lines of the map fit into n bytes and can be told apart. */
  ghost predicate Fitting(m: map<Key, string>, n: nat) {
    forall k | k in m :: |k| + |m[k]| + 5 <= n && ',' !in k && ')' !in m[k]
  }

  lemma ListsTell(m: map<Key, string>, es: seq<Entry>)
    requires M.Lists(m, es)
    ensures Tell(m, ItemsOf(es))
  {
    forall i | 0 <= i < |es| ensures es[i].key in m && m[es[i].key] == es[i].value {
      assert es[i] in es;
    }
    forall k | k in m ensures P.Item(k, m[k]) in ItemsOf(es) {
      var i :| 0 <= i < |es| && es[i].key == k;
      assert es[i] in es && ItemsOf(es)[i] == P.Item(k, m[k]);
    }
  }

  /** If the lines of all pairs fit into 39 bytes, a backup file tells the map. */
  lemma BackupReadsBack(m: map<Key, string>, text: string)
    requires M.BacksUp(m, text) && Fitting(m, 39)
    ensures Tell(m, ReadPairs(text))
  {
    var es: seq<Entry> :| M.Lists(m, es) && text == Concat(seq(|es|, i requires 0 <= i < |es| =>
      Cut("(" + es[i].key + ", " + es[i].value + ")\n", 39)));
    WholeLines(m, es, 39);
    LinesReadBack(es);
    ListsTell(m, es);
  }

  /** And so does what SHOW prints, with 255 bytes a line. */
  lemma ShowReadsBack(m: map<Key, string>, text: string)
    requires M.Says(m, Show, text) && Fitting(m, 255)
    ensures Tell(m, ReadPairs(text))
  {
    var es: seq<Entry> :| M.Lists(m, es) && text == Concat(seq(|es|, i requires 0 <= i < |es| =>
      Cut("(" + es[i].key + ", " + es[i].value + ")\n", 255)));
    WholeLines(m, es, 255);
    LinesReadBack(es);
    ListsTell(m, es);
  }

  lemma WholeLines(m: map<Key, string>, es: seq<Entry>, n: nat)
    requires M.Lists(m, es) && Fitting(m, n)
    ensures seq(|es|, i requires 0 <= i < |es| => Cut("(" + es[i].key + ", " + es[i].value + ")\n", n)) == LinesOf(es)
    ensures forall i | 0 <= i < |es| :: Telling(es[i])
  {
    forall i | 0 <= i < |es| ensures |LineOf(es[i])| <= n && Telling(es[i]) {
      assert es[i] in es;
    }
  }

  // ---- lines that do not fit ----

  /** With a longer line the file does not tell the map: two values that differ from
      the place on where the line is cut are backed up alike. */
  lemma LongLinesAreLost(k: Key, v: string, more: string) returns (text: string)
    requires |k| + |v| >= 36
    ensures M.BacksUp(map[k := v], text) && M.BacksUp(map[k := v + more], text)
  {
    text := Cut("(" + k + ", " + v, 39);
    OneLongLine(k, v, "", text);
    OneLongLine(k, v, more, text);
    NothingAfter(v);
  }

  lemma OneLongLine(k: Key, v: string, more: string, text: string)
    requires |k| + |v| >= 36 && text == Cut("(" + k + ", " + v, 39)
    ensures M.BacksUp(map[k := v + more], text)
  {
    var es := [Entry(k, v + more, [])];
    var lines := seq(|es|, i requires 0 <= i < |es| => Cut("(" + es[i].key + ", " + es[i].value + ")\n", 39));
    var start := "(" + k + ", " + v;
    assert "(" + k + ", " + (v + more) + ")\n" == start + (more + ")\n");
    assert (start + (more + ")\n"))[..39] == start[..39];
    assert lines[0] == text && lines[1..] == [];
    NothingAfter(text);
    assert Concat(lines) == text + Concat([]) == text;
    assert es[0].key == k;
    assert M.Lists(map[k := v + more], es);
  }
}
