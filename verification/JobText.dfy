/** Jobs as text: what the parsers accept, and that a printed job is read back. */
module JobText {
  import opened Text
  import opened Numbers
  import opened Parsing

  // ---- the text of a command ----

  /** Text that can stand for a key or a value. */
  predicate Plain(s: string) {
    |s| < MAX_STRING_SIZE && NUL !in s && NoEnd(s)
  }

  predicate NoEnd(s: string) { forall i | 0 <= i < |s| :: !Ended(s[i]) }

  predicate PlainItem(p: Item) { Plain(p.key) && Plain(p.value) }

  predicate PlainItems(ps: seq<Item>) { forall i | 0 <= i < |ps| :: PlainItem(ps[i]) }

  predicate PlainKeys(ks: seq<string>) { forall i | 0 <= i < |ks| :: Plain(ks[i]) }

  function PairText(p: Item): string { "(" + p.key + "," + p.value + ")" }

  function PairsText(ps: seq<Item>): string {
    if ps == [] then "" else PairText(ps[0]) + PairsText(ps[1..])
  }

  function KeysText(ks: seq<string>): string {
    if ks == [] then "" else if |ks| == 1 then ks[0] else ks[0] + "," + KeysText(ks[1..])
  }

  function WriteText(ps: seq<Item>): string { "[" + PairsText(ps) + "]\n" }

  function ReadText(ks: seq<string>): string { "[" + KeysText(ks) + "]\n" }

  function CommandText(c: JobCommand): string {
    match c
    case Write(ps) => "WRITE " + WriteText(ps)
    case Read(ks) => "READ " + ReadText(ks)
    case Delete(ks) => "DELETE " + ReadText(ks)
    case Show => "SHOW\n"
    case Wait(d) => "WAIT " + Decimal(d) + "\n"
    case Backup => "BACKUP\n"
  }

  function JobText(cs: seq<JobCommand>): string {
    if cs == [] then "" else CommandText(cs[0]) + JobText(cs[1..])
  }

  /** Commands within the limits of the parser, with buffers for max items. */
  predicate Printable(c: JobCommand, max: nat) {
    match c
    case Write(ps) => 0 < |ps| < max && PlainItems(ps)
    case Read(ks) => 0 < |ks| < max && PlainKeys(ks)
    case Delete(ks) => 0 < |ks| < max && PlainKeys(ks)
    case Show => true
    case Wait(d) => d <= UINT_MAX
    case Backup => true
  }

  predicate AllPrintable(cs: seq<JobCommand>, max: nat) { forall i | 0 <= i < |cs| :: Printable(cs[i], max) }

  // ---- the texts, spelled out ----

  lemma PlainIs(s: string)
    ensures Plain(s) <==> |s| < 40 && forall c | c in s :: c !in " ,)]\0"
  {
    assert forall i | 0 <= i < |s| :: s[i] in s;
  }

  function PairTexts(ps: seq<Item>): seq<string> {
    seq(|ps|, i requires 0 <= i < |ps| => "(" + ps[i].key + "," + ps[i].value + ")")
  }

  lemma {:induction false} PairsTextIs(ps: seq<Item>)
    ensures PairsText(ps) == Concat(PairTexts(ps))
  {
    if ps != [] {
      assert PairTexts(ps)[1..] == PairTexts(ps[1..]) && PairTexts(ps)[0] == PairText(ps[0]);
      PairsTextIs(ps[1..]);
    }
  }

  /** The keys of a list but the first, each after a comma. */
  function MoreKeys(ks: seq<string>): seq<string>
    requires ks != []
  {
    seq(|ks| - 1, i requires 0 <= i < |ks| - 1 => "," + ks[i + 1])
  }

  lemma {:induction false} KeysTextIs(ks: seq<string>)
    requires ks != []
    ensures KeysText(ks) == ks[0] + Concat(MoreKeys(ks))
  {
    if |ks| == 1 {
      NothingAfter(ks[0]);
    } else {
      KeysTextIs(ks[1..]);
      assert MoreKeys(ks)[1..] == MoreKeys(ks[1..]) && MoreKeys(ks)[0] == "," + ks[1..][0];
      Regroup(",", ks[1..][0], Concat(MoreKeys(ks[1..])));
      Regroup(ks[0], ",", KeysText(ks[1..]));
    }
  }

  // ---- the same texts, each followed by the rest of the file ----

  function PairThen(p: Item, rest: string): string { p.key + ("," + (p.value + (")" + rest))) }

  /** The pairs of a list after its first bracket, and the bracket that closes it. */
  function PairsThen(ps: seq<Item>, rest: string): string
    requires ps != []
  {
    PairThen(ps[0], if |ps| == 1 then "]" + rest else "(" + PairsThen(ps[1..], rest))
  }

  function KeysThen(ks: seq<string>, rest: string): string
    requires ks != []
  {
    ks[0] + if |ks| == 1 then "]" + rest else "," + KeysThen(ks[1..], rest)
  }

  lemma PairIs(p: Item, rest: string)
    ensures PairText(p) + rest == "(" + PairThen(p, rest)
  {
    var a, b, c, d := p.key, ",", p.value, ")";
    calc {
      PairText(p) + rest;
      "(" + a + b + c + d + rest;
      { Regroup("(" + a + b + c, d, rest); }
      "(" + a + b + c + (d + rest);
      { Regroup("(" + a + b, c, d + rest); }
      "(" + a + b + (c + (d + rest));
      { Regroup("(" + a, b, c + (d + rest)); }
      "(" + a + (b + (c + (d + rest)));
      { Regroup("(", a, b + (c + (d + rest))); }
      "(" + PairThen(p, rest);
    }
  }

  lemma {:induction false} PairsAre(ps: seq<Item>, rest: string)
    requires ps != []
    ensures PairsText(ps) + ("]" + rest) == "(" + PairsThen(ps, rest)
  {
    var more := PairsText(ps[1..]);
    Regroup(PairText(ps[0]), more, "]" + rest);
    if |ps| == 1 {
      assert more == "";
      assert more + ("]" + rest) == "]" + rest;
    } else {
      PairsAre(ps[1..], rest);
    }
    PairIs(ps[0], more + ("]" + rest));
  }

  lemma {:induction false} KeysAre(ks: seq<string>, rest: string)
    requires ks != []
    ensures KeysText(ks) + ("]" + rest) == KeysThen(ks, rest)
  {
    if |ks| > 1 {
      KeysAre(ks[1..], rest);
      Regroup(ks[0] + ",", KeysText(ks[1..]), "]" + rest);
      Regroup(ks[0], ",", KeysThen(ks[1..], rest));
    }
  }

  lemma WriteIs(ps: seq<Item>, rest: string)
    requires ps != []
    ensures WriteText(ps) + rest == "[" + ("(" + PairsThen(ps, "\n" + rest))
  {
    PairsAre(ps, "\n" + rest);
    Regroup("[" + PairsText(ps), "]\n", rest);
    assert "]\n" + rest == "]" + ("\n" + rest);
    Regroup("[", PairsText(ps), "]" + ("\n" + rest));
  }

  lemma ReadIs(ks: seq<string>, rest: string)
    requires ks != []
    ensures ReadText(ks) + rest == "[" + KeysThen(ks, "\n" + rest)
  {
    KeysAre(ks, "\n" + rest);
    Regroup("[" + KeysText(ks), "]\n", rest);
    assert "]\n" + rest == "]" + ("\n" + rest);
    Regroup("[", KeysText(ks), "]" + ("\n" + rest));
  }

  lemma Divide(a: string, b: string)
    ensures a <= a + b && (a + b)[|a|..] == b && (a + b)[..|a|] == a
  {
  }

  // ---- one field ----

  /** A field that ended at a comma or bracket is exactly the text before it. */
  lemma {:induction false} ReadStringExact(s: string, max: nat, c: char)
    requires ReadString(s, max).end >= 0 && Ended(c) && EndValue(c) == ReadString(s, max).end
    ensures var f := ReadString(s, max);
            |f.text| < max && NoEnd(f.text) && s == f.text + ([c] + f.rest)
  {
    if Ended(s[0]) {
      assert s == [c] + s[1..];
    } else {
      ReadStringExact(s[1..], max - 1, c);
      var f := ReadString(s[1..], max - 1);
      assert s == [s[0]] + s[1..];
      Regroup([s[0]], f.text, [c] + f.rest);
    }
  }

  lemma {:induction false} ReadStringText(text: string, c: char, rest: string, max: nat)
    requires NoEnd(text) && |text| < max && Ended(c) && EndValue(c) >= 0
    ensures ReadString(text + ([c] + rest), max) == Field(text, EndValue(c), rest)
  {
    var s := text + ([c] + rest);
    if text == [] {
      assert s == [c] + rest;
    } else {
      ReadStringText(text[1..], c, rest, max - 1);
      assert s[1..] == text[1..] + ([c] + rest);
    }
  }

  lemma NoNul(s: string)
    requires NUL !in s
    ensures CString(s) == s
  {
    CStringOfText(s, []);
    assert s + [] == s;
  }

  // ---- WRITE ----

  lemma ParsePairExact(s: string)
    requires NUL !in s && ParsePair(s).OnePair?
    ensures var r := ParsePair(s); s == PairThen(r.pair, r.rest) && PlainItem(r.pair) && NUL !in r.rest
  {
    var k := ReadString(s, MAX_STRING_SIZE);
    ReadStringExact(s, MAX_STRING_SIZE, ',');
    var v := ReadString(k.rest, MAX_STRING_SIZE);
    ReadStringExact(k.rest, MAX_STRING_SIZE, ')');
    NoNul(k.text);
    NoNul(v.text);
  }

  lemma ParsePairText(p: Item, rest: string)
    requires PlainItem(p)
    ensures ParsePair(PairThen(p, rest)) == OnePair(p, rest)
  {
    ReadStringText(p.key, ',', p.value + (")" + rest), MAX_STRING_SIZE);
    ReadStringText(p.value, ')', rest, MAX_STRING_SIZE);
    NoNul(p.key);
    NoNul(p.value);
  }

  lemma InFront<T>(a: seq<T>, x: T, b: seq<T>)
    ensures a + [x] + b == a + ([x] + b) && ([x] + b)[1..] == b
  {
  }

  lemma RoundExact(s: string)
    requires NUL !in s && !PairRound(s).Bad?
    ensures var r := PairRound(s);
            && PlainItem(r.pair) && NUL !in r.rest
            && s == PairThen(r.pair, (if r.Last? then "]" else "(") + r.rest)
  {
    var rest := ParsePair(s).rest;
    ParsePairExact(s);
    assert rest == [rest[0]] + rest[1..];
  }

  /** A list that ended at its bracket is exactly the text before that. */
  lemma {:induction false} PairLoopExact(items: seq<Item>, s: string, max: nat) returns (ps: seq<Item>)
    requires |items| <= max && NUL !in s
    requires PairLoop(items, s, max).Done? && |PairLoop(items, s, max).items| < max
    ensures var r := PairLoop(items, s, max);
            && r.items == items + ps && ps != [] && PlainItems(ps) && NUL !in r.rest
            && s == PairsThen(ps, r.rest)
    decreases max - |items|
  {
    var round := PairRound(s);
    RoundExact(s);
    if round.Last? {
      ps := [round.pair];
    } else {
      var more := PairLoopExact(items + [round.pair], round.rest, max);
      ps := [round.pair] + more;
      InFront(items, round.pair, more);
      assert PlainItems(ps);
    }
  }

  lemma {:induction false} PairLoopText(items: seq<Item>, ps: seq<Item>, max: nat, rest: string)
    requires ps != [] && |items| + |ps| < max && PlainItems(ps)
    ensures PairLoop(items, PairsThen(ps, rest), max) == Done(items + ps, rest)
    decreases |ps|
  {
    var s, p := PairsThen(ps, rest), ps[0];
    if |ps| == 1 {
      assert s == PairThen(p, "]" + rest) && ps == [p];
      ParsePairText(p, "]" + rest);
      Divide("]", rest);
      assert PairRound(s) == Last(p, rest);
    } else {
      var more := PairsThen(ps[1..], rest);
      assert s == PairThen(p, "(" + more) && items + ps == items + [p] + ps[1..];
      ParsePairText(p, "(" + more);
      Divide("(", more);
      assert PairRound(s) == More(p, more);
      PairLoopText(items + [p], ps[1..], max, rest);
    }
  }

  lemma WriteParses(ps: seq<Item>, max: nat, more: string)
    requires 0 < |ps| < max && PlainItems(ps)
    ensures ParseWrite(WriteText(ps) + more, max) == Parsed(ps, more)
  {
    var s := WriteText(ps) + more;
    var body := PairsThen(ps, "\n" + more);
    WriteIs(ps, more);
    Divide("[", "(" + body);
    Divide("(", body);
    assert s[1..] == "(" + body && s[2..] == body;
    PairLoopText([], ps, max, "\n" + more);
    assert [] + ps == ps;
    Divide("\n", more);
  }

  lemma NewlineThen(s: string)
    requires LineEnd(s) && NUL !in s
    ensures s == "\n" + s[1..]
  {
    assert s == [s[0]] + s[1..];
  }

  lemma Opened(s: string)
    requires |s| >= 2 && s[0] == '[' && s[1] == '('
    ensures s == "[" + ("(" + s[2..])
  {
  }

  lemma WriteExact(s: string, max: nat)
    requires NUL !in s && ParseWrite(s, max).items != []
    ensures var p := ParseWrite(s, max);
            |p.items| < max && PlainItems(p.items) && s == WriteText(p.items) + p.rest
  {
    var p, r := ParseWrite(s, max), PairLoop([], s[2..], max);
    var ps := PairLoopExact([], s[2..], max);
    assert [] + ps == ps;
    Opened(s);
    NewlineThen(r.rest);
    WriteIs(p.items, p.rest);
  }

  /** parse_write accepts exactly the lists it could have been given: on bytes
      without NUL it returns pairs if and only if the bytes begin with these pairs, as
      in [(key,value)(key,value)], and a newline, with keys and values of less than 40
      bytes and without spaces, commas and closing brackets, and fewer pairs than its
      buffers hold; and it then has consumed just that. */
  lemma ParseWriteIff(s: string, max: nat, ps: seq<Item>, rest: string)
    requires NUL !in s && ps != []
    ensures ParseWrite(s, max) == Parsed(ps, rest) <==>
            && |ps| < max
            && (forall i | 0 <= i < |ps| ::
                  && |ps[i].key| < 40 && |ps[i].value| < 40
                  && (forall c | c in ps[i].key :: c !in " ,)]\0")
                  && (forall c | c in ps[i].value :: c !in " ,)]\0"))
            && s == "[" + Concat(seq(|ps|, i requires 0 <= i < |ps| =>
                 "(" + ps[i].key + "," + ps[i].value + ")")) + "]\n" + rest
  {
    PairsTextIs(ps);
    assert PairTexts(ps) == seq(|ps|, i requires 0 <= i < |ps| => "(" + ps[i].key + "," + ps[i].value + ")");
    forall i | 0 <= i < |ps|
      ensures PlainItem(ps[i]) <==>
              && |ps[i].key| < 40 && |ps[i].value| < 40
              && (forall c | c in ps[i].key :: c !in " ,)]\0")
              && (forall c | c in ps[i].value :: c !in " ,)]\0")
    {
      PlainIs(ps[i].key);
      PlainIs(ps[i].value);
    }
    ParsesExactly(s, max, ps, rest);
  }

  lemma ParsesExactly(s: string, max: nat, ps: seq<Item>, rest: string)
    requires NUL !in s && ps != []
    ensures ParseWrite(s, max) == Parsed(ps, rest) <==>
            |ps| < max && PlainItems(ps) && s == WriteText(ps) + rest
  {
    if ParseWrite(s, max) == Parsed(ps, rest) {
      WriteExact(s, max);
    }
    if |ps| < max && PlainItems(ps) && s == WriteText(ps) + rest {
      WriteParses(ps, max, rest);
    }
  }

  // ---- READ and DELETE ----

  lemma FieldExact(s: string)
    requires NUL !in s && (ReadString(s, MAX_STRING_SIZE).end == 0 || ReadString(s, MAX_STRING_SIZE).end == 2)
    ensures var f := ReadString(s, MAX_STRING_SIZE);
            && Plain(f.text) && CString(f.text) == f.text && NUL !in f.rest
            && s == f.text + ((if f.end == 2 then "]" else ",") + f.rest)
  {
    var f := ReadString(s, MAX_STRING_SIZE);
    ReadStringExact(s, MAX_STRING_SIZE, if f.end == 2 then ']' else ',');
    NoNul(f.text);
  }

  lemma {:induction false} KeyLoopExact(keys: seq<string>, s: string, max: nat) returns (ks: seq<string>)
    requires |keys| <= max && NUL !in s
    requires KeyLoop(keys, s, max).Done? && |KeyLoop(keys, s, max).items| < max
    ensures var r := KeyLoop(keys, s, max);
            && r.items == keys + ks && ks != [] && PlainKeys(ks) && NUL !in r.rest
            && s == KeysThen(ks, r.rest)
    decreases max - |keys|
  {
    var f := ReadString(s, MAX_STRING_SIZE);
    FieldExact(s);
    if f.end == 2 {
      ks := [f.text];
    } else {
      var more := KeyLoopExact(keys + [f.text], f.rest, max);
      ks := [f.text] + more;
      InFront(keys, f.text, more);
      assert PlainKeys(ks);
    }
  }

  lemma {:induction false} KeyLoopText(keys: seq<string>, ks: seq<string>, max: nat, rest: string)
    requires ks != [] && |keys| + |ks| < max && PlainKeys(ks)
    ensures KeyLoop(keys, KeysThen(ks, rest), max) == Done(keys + ks, rest)
    decreases |ks|
  {
    NoNul(ks[0]);
    if |ks| == 1 {
      assert ks == [ks[0]];
      ReadStringText(ks[0], ']', rest, MAX_STRING_SIZE);
    } else {
      assert keys + ks == keys + [ks[0]] + ks[1..];
      ReadStringText(ks[0], ',', KeysThen(ks[1..], rest), MAX_STRING_SIZE);
      KeyLoopText(keys + [ks[0]], ks[1..], max, rest);
    }
  }

  lemma KeysParse(ks: seq<string>, max: nat, more: string)
    requires 0 < |ks| < max && PlainKeys(ks)
    ensures ParseReadDelete(ReadText(ks) + more, max) == Parsed(ks, more)
  {
    var body := KeysThen(ks, "\n" + more);
    ReadIs(ks, more);
    Divide("[", body);
    KeyLoopText([], ks, max, "\n" + more);
    assert [] + ks == ks;
    Divide("\n", more);
  }

  lemma KeysExact(s: string, max: nat)
    requires NUL !in s && ParseReadDelete(s, max).items != []
    ensures var p := ParseReadDelete(s, max);
            |p.items| < max && PlainKeys(p.items) && s == ReadText(p.items) + p.rest
  {
    var p, r := ParseReadDelete(s, max), KeyLoop([], s[1..], max);
    var ks := KeyLoopExact([], s[1..], max);
    assert [] + ks == ks;
    assert s == "[" + s[1..];
    NewlineThen(r.rest);
    ReadIs(p.items, p.rest);
  }

  /** The same for parse_read_delete, with lists as in [key,key]. */
  lemma ParseReadDeleteIff(s: string, max: nat, ks: seq<string>, rest: string)
    requires NUL !in s && ks != []
    ensures ParseReadDelete(s, max) == Parsed(ks, rest) <==>
            && |ks| < max
            && (forall i | 0 <= i < |ks| :: |ks[i]| < 40 && forall c | c in ks[i] :: c !in " ,)]\0")
            && s == "[" + (ks[0] + Concat(seq(|ks| - 1, i requires 0 <= i < |ks| - 1 =>
                 "," + ks[i + 1]))) + "]\n" + rest
  {
    KeysTextIs(ks);
    forall i | 0 <= i < |ks| ensures Plain(ks[i]) <==> |ks[i]| < 40 && forall c | c in ks[i] :: c !in " ,)]\0" {
      PlainIs(ks[i]);
    }
    KeysParseExactly(s, max, ks, rest);
  }

  lemma KeysParseExactly(s: string, max: nat, ks: seq<string>, rest: string)
    requires NUL !in s && ks != []
    ensures ParseReadDelete(s, max) == Parsed(ks, rest) <==>
            |ks| < max && PlainKeys(ks) && s == ReadText(ks) + rest
  {
    if ParseReadDelete(s, max) == Parsed(ks, rest) {
      KeysExact(s, max);
    }
    if |ks| < max && PlainKeys(ks) && s == ReadText(ks) + rest {
      KeysParse(ks, max, rest);
    }
  }

  // ---- WAIT ----

  lemma {:induction false} CountDigitsText(digits: string, c: char, rest: string)
    requires AllDigits(digits) && !Digit(c)
    ensures CountDigits(digits + ([c] + rest)) == |digits|
  {
    var s := digits + ([c] + rest);
    if digits != [] {
      CountDigitsText(digits[1..], c, rest);
      assert s[1..] == digits[1..] + ([c] + rest);
    }
  }

  /** read_uint reads the text of a number back, whatever byte follows it, and says
      whether the number has at most 32 bits. */
  lemma ReadUintText(n: nat, c: char, rest: string)
    requires !Digit(c)
    ensures ReadUint(Decimal(n) + ([c] + rest)) == Figure(n <= 4_294_967_295, n, c, rest)
  {
    CountDigitsText(Decimal(n), c, rest);
    NumberOfDecimal(n);
    Divide(Decimal(n), [c] + rest);
    Divide([c], rest);
  }

  /** The bytes after a line, or none. */
  lemma {:induction false} CleanupLine(line: string, more: string)
    requires '\n' !in line
    ensures Cleanup(line + ("\n" + more)) == more && Cleanup(line) == ""
  {
    if line == [] {
      assert line + ("\n" + more) == "\n" + more;
    } else {
      assert (line + ("\n" + more))[1..] == line[1..] + ("\n" + more);
      CleanupLine(line[1..], more);
    }
  }

  /** parse_wait takes a 32-bit number at the end of the line, and one before a space,
      with the rest of the line dropped; it rejects all others. */
  lemma ParseWaitMeans(n: nat, c: char, line: string, more: string)
    requires !Digit(c) && '\n' !in line
    ensures var d := ParseWait(Decimal(n) + ([c] + (line + ("\n" + more))));
            if n > 4_294_967_295 then d == Delay(None, more)
            else if c == '\n' || c == '\0' then d == Delay(Some(n), line + ("\n" + more))
            else d == Delay(if c == ' ' then Some(n) else None, more)
  {
    ReadUintText(n, c, line + ("\n" + more));
    CleanupLine(line, more);
  }

  // ---- jobs ----

  /** The commands that the loop of a job thread carries out: rejected lines, empty
      lines, comments and HELP are passed over. */
  function Commands(s: string, max: nat): seq<JobCommand>
    decreases |s|
  {
    var w := GetNext(s);
    match w.cmd
    case EOC => []
    case CmdWrite =>
      var p := ParseWrite(w.rest, max);
      (if p.items == [] then [] else [Write(p.items)]) + Commands(p.rest, max)
    case CmdRead =>
      var p := ParseReadDelete(w.rest, max);
      (if p.items == [] then [] else [Read(p.items)]) + Commands(p.rest, max)
    case CmdDelete =>
      var p := ParseReadDelete(w.rest, max);
      (if p.items == [] then [] else [Delete(p.items)]) + Commands(p.rest, max)
    case CmdShow => [Show] + Commands(w.rest, max)
    case CmdWait =>
      var d := ParseWait(w.rest);
      (if d.delay == None then [] else [Wait(d.delay.value)]) + Commands(d.rest, max)
    case CmdBackup => [Backup] + Commands(w.rest, max)
    case _ => Commands(w.rest, max)
  }

  /** The word of a command is recognised, and what follows it is left. */
  lemma WordBefore(more: string)
    ensures GetNext("WRITE " + more) == Word(CmdWrite, more)
    ensures GetNext("READ " + more) == Word(CmdRead, more)
    ensures GetNext("DELETE " + more) == Word(CmdDelete, more)
    ensures GetNext("WAIT " + more) == Word(CmdWait, more)
  {
    Divide("WRITE ", more);
    assert ("WRITE " + more)[1] == 'R' && "WAIT "[1] == 'A';
    assert !("WAIT " <= "WRITE " + more);
    Divide("READ ", more);
    Divide("DELETE ", more);
    Divide("WAIT ", more);
  }

  lemma WordAlone(more: string)
    ensures GetNext("SHOW" + ("\n" + more)) == Word(CmdShow, more)
    ensures GetNext("BACKUP" + ("\n" + more)) == Word(CmdBackup, more)
  {
    Divide("SHOW", "\n" + more);
    Divide("BACKUP", "\n" + more);
    Divide("\n", more);
  }

  lemma WordOf(c: JobCommand, more: string)
    ensures var w := GetNext(CommandText(c) + more);
            match c
            case Write(ps) => w == Word(CmdWrite, WriteText(ps) + more)
            case Read(ks) => w == Word(CmdRead, ReadText(ks) + more)
            case Delete(ks) => w == Word(CmdDelete, ReadText(ks) + more)
            case Show => w == Word(CmdShow, more)
            case Wait(d) => w == Word(CmdWait, Decimal(d) + ("\n" + more))
            case Backup => w == Word(CmdBackup, more)
  {
    match c
    case Write(ps) =>
      Regroup("WRITE ", WriteText(ps), more);
      WordBefore(WriteText(ps) + more);
    case Read(ks) =>
      Regroup("READ ", ReadText(ks), more);
      WordBefore(ReadText(ks) + more);
    case Delete(ks) =>
      Regroup("DELETE ", ReadText(ks), more);
      WordBefore(ReadText(ks) + more);
    case Show =>
      assert CommandText(Show) + more == "SHOW" + ("\n" + more);
      WordAlone(more);
    case Wait(d) =>
      Regroup("WAIT " + Decimal(d), "\n", more);
      Regroup("WAIT ", Decimal(d), "\n" + more);
      WordBefore(Decimal(d) + ("\n" + more));
    case Backup =>
      assert CommandText(Backup) + more == "BACKUP" + ("\n" + more);
      WordAlone(more);
  }

  lemma WaitText(d: nat, more: string)
    requires d <= UINT_MAX
    ensures ParseWait(Decimal(d) + ("\n" + more)) == Delay(Some(d), more)
  {
    ReadUintText(d, '\n', more);
  }

  /** Comments, empty lines, HELP, and lines that begin with no command, are read to
      their end and passed over. */
  lemma SkippedLines(line: string, c: char, more: string, max: nat)
    requires '\n' !in line && c !in "WRDSBH#\n"
    ensures GetNext("#" + (line + ("\n" + more))) == Word(CmdEmpty, more)
    ensures GetNext("\n" + more) == Word(CmdEmpty, more)
    ensures GetNext("HELP" + ("\n" + more)) == Word(CmdHelp, more)
    ensures GetNext([c] + (line + ("\n" + more))) == Word(CmdInvalid, more)
    ensures Commands("#" + (line + ("\n" + more)), max) == Commands("\n" + more, max) ==
            Commands("HELP" + ("\n" + more), max) == Commands([c] + (line + ("\n" + more)), max) == Commands(more, max)
  {
    CleanupLine(line, more);
    Divide("#", line + ("\n" + more));
    Divide("\n", more);
    Divide("HELP", "\n" + more);
    Divide([c], line + ("\n" + more));
  }

  lemma RestOfLine(line: string, n: nat, more: string)
    requires '\n' !in line && n <= |line|
    ensures var s := line + ("\n" + more); s[..n] == line[..n] && Cleanup(s[n..]) == more
  {
    assert (line + ("\n" + more))[n..] == line[n..] + ("\n" + more);
    CleanupLine(line[n..], more);
  }

  lemma NotThatWord(line: string, word: string, more: string, cmd: Command)
    requires '\n' !in line && 0 < |word| < |line|
    ensures !(word <= line) ==> !(word <= line + ("\n" + more))
    ensures !(word <= line) ==> Prefixed(line + ("\n" + more), word, cmd) == Word(CmdInvalid, more)
    ensures Alone(line + ("\n" + more), word, cmd) == Word(CmdInvalid, more)
  {
    var s := line + ("\n" + more);
    RestOfLine(line, |word|, more);
    RestOfLine(line, |word| + 1, more);
    assert s[|word|] == line[|word|] && line[|word|] in line;
  }

  /** So are lines of at least seven bytes that begin with no command. */
  lemma UnknownLines(line: string, more: string)
    requires '\n' !in line && |line| >= 7 && line[0] != '#'
    requires !("WRITE " <= line) && !("READ " <= line) && !("DELETE " <= line) && !("WAIT " <= line)
    ensures GetNext(line + ("\n" + more)) == Word(CmdInvalid, more)
  {
    var s := line + ("\n" + more);
    assert s[0] == line[0] && line[0] in line;
    match line[0]
    case 'W' =>
      NotThatWord(line, "WAIT ", more, CmdWait);
      NotThatWord(line, "WRITE ", more, CmdWrite);
    case 'R' => NotThatWord(line, "READ ", more, CmdRead);
    case 'D' => LongestWord(line, more);
    case 'S' => NotThatWord(line, "SHOW", more, CmdShow);
    case 'B' => NotThatWord(line, "BACKUP", more, CmdBackup);
    case 'H' => NotThatWord(line, "HELP", more, CmdHelp);
    case _ => RestOfLine(line, 1, more);
  }

  lemma LongestWord(line: string, more: string)
    requires '\n' !in line && |line| >= 7 && !("DELETE " <= line)
    ensures Prefixed(line + ("\n" + more), "DELETE ", CmdDelete) == Word(CmdInvalid, more)
  {
    RestOfLine(line, 7, more);
  }

  /** One printed command is read back, and just its own bytes are consumed. */
  lemma OneCommand(c: JobCommand, max: nat, more: string)
    requires Printable(c, max)
    ensures Commands(CommandText(c) + more, max) == [c] + Commands(more, max)
  {
    WordOf(c, more);
    match c
    case Write(ps) => WriteParses(ps, max, more);
    case Read(ks) => KeysParse(ks, max, more);
    case Delete(ks) => KeysParse(ks, max, more);
    case Wait(d) => WaitText(d, more);
    case _ =>
  }

  lemma FirstCommand(cs: seq<JobCommand>, max: nat, more: string)
    requires cs != [] && Printable(cs[0], max)
    ensures Commands(JobText(cs) + more, max) == [cs[0]] + Commands(JobText(cs[1..]) + more, max)
  {
    Regroup(CommandText(cs[0]), JobText(cs[1..]), more);
    OneCommand(cs[0], max, JobText(cs[1..]) + more);
  }

  lemma {:induction false} JobThen(cs: seq<JobCommand>, max: nat, more: string)
    requires AllPrintable(cs, max)
    ensures Commands(JobText(cs) + more, max) == cs + Commands(more, max)
  {
    if cs == [] {
      assert JobText(cs) + more == more;
    } else {
      FirstCommand(cs, max, more);
      JobThen(cs[1..], max, more);
      FirstAndRest(cs, Commands(more, max));
    }
  }

  /** Job round trip. A job within the limits, once printed, is read back as the
      same commands, whatever follows it; at the end of the file nothing is left. */
  lemma JobRoundTrip(cs: seq<JobCommand>, max: nat, more: string)
    requires AllPrintable(cs, max)
    ensures Commands(JobText(cs) + more, max) == cs + Commands(more, max)
    ensures Commands(JobText(cs), max) == cs
  {
    JobThen(cs, max, more);
    JobThen(cs, max, "");
    assert JobText(cs) + "" == JobText(cs);
    assert cs + [] == cs;
  }

  /** Progress: every command takes at least one byte, so a job of n bytes has at
      most n commands. */
  lemma {:induction false} FewCommands(s: string, max: nat)
    ensures |Commands(s, max)| <= |s|
    decreases |s|
  {
    var w := GetNext(s);
    match w.cmd
    case EOC =>
    case CmdWrite => FewCommands(ParseWrite(w.rest, max).rest, max);
    case CmdRead => FewCommands(ParseReadDelete(w.rest, max).rest, max);
    case CmdDelete => FewCommands(ParseReadDelete(w.rest, max).rest, max);
    case CmdWait => FewCommands(ParseWait(w.rest).rest, max);
    case _ => FewCommands(w.rest, max);
  }
}
