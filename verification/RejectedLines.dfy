/** What the parsers of lists leave unread of a line that they reject: for a WRITE with
    a pair that is not one, not even the next line. */
module RejectedLines {
  import opened Text
  import opened Parsing
  import opened JobText

  /** A text that is followed by a byte with which it does not end as it should. */
  predicate Spoilt(text: string, c: char, good: string) {
    && NoEnd(text) && '\n' !in text
    && ((|text| < 40 && Ended(c) && c !in good) || (|text| == 40 && c != '\n'))
  }

  lemma {:induction false} TooLong(text: string, more: string, max: nat)
    requires NoEnd(text) && |text| == max
    ensures ReadString(text + more, max) == Field(text, -1, more)
  {
    if max == 0 {
      assert text + more == more;
    } else {
      assert (text + more)[1..] == text[1..] + more;
      TooLong(text[1..], more, max - 1);
    }
  }

  lemma {:induction false} EndsAt(text: string, c: char, rest: string, max: nat)
    requires NoEnd(text) && |text| < max && Ended(c)
    ensures ReadString(text + ([c] + rest), max) == Field(text, EndValue(c), rest)
  {
    var s := text + ([c] + rest);
    if text == [] {
      assert s == [c] + rest;
    } else {
      EndsAt(text[1..], c, rest, max - 1);
      assert s[1..] == text[1..] + ([c] + rest);
    }
  }

  /** A spoilt field does not end as it should, and the line can be read to its end. */
  lemma SpoiltField(text: string, c: char, good: string, line: string, more: string)
    requires Spoilt(text, c, good) && '\n' !in line
    ensures var f := ReadString(text + ([c] + (line + ("\n" + more))), 40);
            && Cleanup(f.rest) == more
            && (',' in good ==> f.end != 0) && (')' in good ==> f.end != 1) && (']' in good ==> f.end != 2)
  {
    var rest := line + ("\n" + more);
    if |text| < 40 {
      EndsAt(text, c, rest, 40);
      CleanupLine(line, more);
    } else {
      TooLong(text, [c] + rest, 40);
      assert [c] + rest == ([c] + line) + ("\n" + more);
      CleanupLine([c] + line, more);
    }
  }

  // ---- WRITE ----

  /** Pairs, each followed by the bracket of the next, and then what follows them. */
  function PairsBefore(ps: seq<Item>, bad: string): string {
    if ps == [] then bad else PairThen(ps[0], "(" + PairsBefore(ps[1..], bad))
  }

  lemma {:induction false} LoopRejects(items: seq<Item>, ps: seq<Item>, bad: string, max: nat)
    requires |items| + |ps| < max && PlainItems(ps) && PairRound(bad).Bad?
    ensures PairLoop(items, PairsBefore(ps, bad), max) == Failed(PairRound(bad).rest)
    decreases |ps|
  {
    if ps != [] {
      var more := PairsBefore(ps[1..], bad);
      ParsePairText(ps[0], "(" + more);
      Divide("(", more);
      assert PairRound(PairsBefore(ps, bad)) == More(ps[0], more);
      LoopRejects(items + [ps[0]], ps[1..], bad, max);
    }
  }

  lemma {:induction false} PairsBeforeIs(ps: seq<Item>, bad: string)
    ensures "(" + PairsBefore(ps, bad) == PairsText(ps) + ("(" + bad)
  {
    if ps == [] {
      assert "" + ("(" + bad) == "(" + bad;
    } else {
      var more := PairsBefore(ps[1..], bad);
      PairsBeforeIs(ps[1..], bad);
      PairIs(ps[0], "(" + more);
      Regroup(PairText(ps[0]), PairsText(ps[1..]), "(" + bad);
    }
  }

  lemma WriteRejects(ps: seq<Item>, bad: string, max: nat)
    requires |ps| < max && PlainItems(ps) && PairRound(bad).Bad?
    ensures ParseWrite("[" + (PairsText(ps) + ("(" + bad)), max) == Parsed([], PairRound(bad).rest)
  {
    PairsBeforeIs(ps, bad);
    Bracketed(PairsBefore(ps, bad), max);
    LoopRejects([], ps, bad, max);
  }

  lemma Bracketed(body: string, max: nat)
    ensures ParseWrite("[" + ("(" + body), max) == CloseList(PairLoop([], body, max), max)
  {
    var s := "[" + ("(" + body);
    assert s[0] == '[' && s[1..] == "(" + body && s[1] == '(' && s[2..] == body;
  }

  /** When a key of a WRITE does not end with a comma, the line and the next one are
      passed over. */
  lemma BadKeySkipsTwo(ps: seq<Item>, key: string, c: char, line: string, next: string, more: string, max: nat)
    requires |ps| < max && PlainItems(ps) && Spoilt(key, c, ",") && '\n' !in line && '\n' !in next
    ensures ParseWrite("[" + (PairsText(ps) + ("(" + (key + ([c] + (line + ("\n" + (next + ("\n" + more)))))))), max)
            == Parsed([], more)
  {
    var bad := key + ([c] + (line + ("\n" + (next + ("\n" + more)))));
    SpoiltField(key, c, ",", line, next + ("\n" + more));
    CleanupLine(next, more);
    assert ParsePair(bad) == NoPair(next + ("\n" + more));
    WriteRejects(ps, bad, max);
  }

  /** And when a value does not end with a closing bracket. */
  lemma BadValueSkipsTwo(
      ps: seq<Item>, key: string, value: string, c: char, line: string, next: string, more: string, max: nat)
    requires |ps| < max && PlainItems(ps) && Plain(key)
    requires Spoilt(value, c, ")") && '\n' !in line && '\n' !in next
    ensures ParseWrite("[" + (PairsText(ps) + ("(" + (key + ("," + (value + ([c] + (line + ("\n" +
              (next + ("\n" + more)))))))))), max) == Parsed([], more)
  {
    var rest := value + ([c] + (line + ("\n" + (next + ("\n" + more)))));
    var bad := key + ("," + rest);
    ReadStringText(key, ',', rest, 40);
    SpoiltField(value, c, ")", line, next + ("\n" + more));
    CleanupLine(next, more);
    assert ParsePair(bad) == NoPair(next + ("\n" + more));
    WriteRejects(ps, bad, max);
  }

  // ---- READ and DELETE ----

  /** Keys, each with its comma, and then what follows them. */
  function KeysBefore(ks: seq<string>, bad: string): string {
    if ks == [] then bad else ks[0] + ("," + KeysBefore(ks[1..], bad))
  }

  lemma {:induction false} KeyLoopRejects(
      keys: seq<string>, ks: seq<string>, key: string, c: char, line: string, more: string, max: nat)
    requires |keys| + |ks| < max && PlainKeys(ks) && Spoilt(key, c, ",]") && '\n' !in line
    ensures KeyLoop(keys, KeysBefore(ks, key + ([c] + (line + ("\n" + more)))), max) == Failed(more)
    decreases |ks|
  {
    var bad := key + ([c] + (line + ("\n" + more)));
    if ks == [] {
      SpoiltField(key, c, ",]", line, more);
    } else {
      ReadStringText(ks[0], ',', KeysBefore(ks[1..], bad), 40);
      KeyLoopRejects(keys + [CString(ks[0])], ks[1..], key, c, line, more, max);
    }
  }

  /** When a key of a READ or DELETE ends with neither a comma nor a closing bracket,
      just the line is passed over. */
  lemma BadKeySkipsLine(ks: seq<string>, key: string, c: char, line: string, more: string, max: nat)
    requires |ks| < max && PlainKeys(ks) && Spoilt(key, c, ",]") && '\n' !in line
    ensures ParseReadDelete("[" + KeysBefore(ks, key + ([c] + (line + ("\n" + more)))), max) == Parsed([], more)
  {
    KeyLoopRejects([], ks, key, c, line, more, max);
    Divide("[", KeysBefore(ks, key + ([c] + (line + ("\n" + more)))));
  }

  // ---- both ----

  /** A list that does not begin with its bracket: the rest of the line is passed over;
      or, if the line ends there, the next one. */
  lemma BadStartSkips(c: char, line: string, more: string, max: nat)
    requires c != '[' && '\n' !in line
    ensures ParseWrite([c] + (line + ("\n" + more)), max) == Parsed([], more)
    ensures ParseReadDelete([c] + (line + ("\n" + more)), max) == Parsed([], more)
  {
    CleanupLine(line, more);
    Divide([c], line + ("\n" + more));
  }

  /** A list that is followed by more on its line: the line is passed over. */
  lemma BadWriteEnd(ps: seq<Item>, c: char, line: string, more: string, max: nat)
    requires 0 < |ps| < max && PlainItems(ps) && c != '\n' && c != NUL && '\n' !in line
    ensures ParseWrite("[" + (PairsText(ps) + ("]" + ([c] + (line + ("\n" + more))))), max) == Parsed([], more)
  {
    var tail := [c] + (line + ("\n" + more));
    PairsAre(ps, tail);
    Bracketed(PairsThen(ps, tail), max);
    PairLoopText([], ps, max, tail);
    assert [] + ps == ps;
    NotClosed(ps, c, line, more, max);
  }

  lemma NotClosed<T>(items: seq<T>, c: char, line: string, more: string, max: nat)
    requires |items| < max && c != '\n' && c != NUL && '\n' !in line
    ensures CloseList(Done(items, [c] + (line + ("\n" + more))), max) == Parsed([], more)
  {
    CleanupLine(line, more);
    Divide([c], line + ("\n" + more));
  }

  lemma BadReadEnd(ks: seq<string>, c: char, line: string, more: string, max: nat)
    requires 0 < |ks| < max && PlainKeys(ks) && c != '\n' && c != NUL && '\n' !in line
    ensures ParseReadDelete("[" + (KeysText(ks) + ("]" + ([c] + (line + ("\n" + more))))), max) == Parsed([], more)
  {
    var tail := [c] + (line + ("\n" + more));
    KeysAre(ks, tail);
    Divide("[", KeysThen(ks, tail));
    KeyLoopText([], ks, max, tail);
    assert [] + ks == ks;
    NotClosed(ks, c, line, more, max);
  }
}
