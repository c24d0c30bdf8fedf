/** The job language as functions from the unread bytes of a file to what a parse
    function returns and the bytes it leaves unread (server/parser.c), and as text
    that is printed. */
module Parsing {
  import opened Text
  import opened Numbers

  datatype Item = Item(key: string, value: string)

  /** The commands of a job that the loop of a job thread carries out. */
  datatype JobCommand =
    | Write(pairs: seq<Item>)
    | Read(keys: seq<string>)
    | Delete(keys: seq<string>)
    | Show
    | Wait(delay: nat)
    | Backup

  datatype Command =
    CmdWrite | CmdRead | CmdDelete | CmdShow | CmdWait | CmdBackup | CmdHelp | CmdEmpty | CmdInvalid | EOC

  // ---- what the parser does ----

  /** The bytes after the line that is being read. */
  function Cleanup(s: string): (rest: string)
    ensures |rest| <= |s|
  {
    if s == [] then [] else if s[0] == '\n' then s[1..] else Cleanup(s[1..])
  }

  /** The unread bytes after one more is read, or none. */
  function Skip(s: string): (rest: string)
    ensures |rest| <= |s|
  {
    if s == [] then [] else s[1..]
  }

  predicate Ended(c: char) { c == ' ' || c == ',' || c == ')' || c == ']' }

  function EndValue(c: char): int {
    if c == ',' then 0 else if c == ')' then 1 else if c == ']' then 2 else -1
  }

  /** The text, what ended it, and the bytes after that. */
  datatype Field = Field(text: string, end: int, rest: string)

  /** Text up to a comma or bracket; end is -1 for a space, for the end of the file,
      and when max bytes came first. */
  function ReadString(s: string, max: nat): (f: Field)
    ensures |f.rest| <= |s| && -1 <= f.end <= 2
  {
    if max == 0 || s == [] then Field("", -1, s)
    else if Ended(s[0]) then Field("", EndValue(s[0]), s[1..])
    else var f := ReadString(s[1..], max - 1); f.(text := [s[0]] + f.text)
  }

  function CountDigits(s: string): (n: nat)
    ensures n <= |s| && AllDigits(s[..n])
    ensures n < |s| ==> !Digit(s[n])
  {
    if s == [] || !Digit(s[0]) then 0 else
    var n := CountDigits(s[1..]);
    assert s[..n + 1] == [s[0]] + s[1..][..n];
    1 + n
  }

  /** The number, whether it is a 32-bit one, the byte after it (NUL at the end of
      the file), and the bytes after that. */
  datatype Figure = Figure(ok: bool, value: nat, next: char, rest: string)

  function ReadUint(s: string): (f: Figure)
    ensures |f.rest| <= |s|
  {
    var n := CountDigits(s);
    var value := Number(s[..n]);
    Figure(value <= UINT_MAX, value, if n < |s| then s[n] else NUL, Skip(s[n..]))
  }

  /** A list, or none when it was rejected, and the bytes left unread. */
  datatype Parsed<T> = Parsed(items: seq<T>, rest: string)

  datatype PairResult = NoPair(rest: string) | OnePair(pair: Item, rest: string)

  function ParsePair(s: string): (r: PairResult)
    ensures |r.rest| <= |s|
  {
    var k := ReadString(s, MAX_STRING_SIZE);
    if k.end != 0 then NoPair(Cleanup(k.rest)) else
    var v := ReadString(k.rest, MAX_STRING_SIZE);
    if v.end != 1 then NoPair(Cleanup(v.rest)) else
    OnePair(Item(CString(k.text), CString(v.text)), v.rest)
  }

  datatype Loop<T> = Failed(rest: string) | Done(items: seq<T>, rest: string)

  /** One round of the loop of parse_write: the line is rejected, or the list ends
      with this pair, or it goes on. */
  datatype Round = Bad(rest: string) | Last(pair: Item, rest: string) | More(pair: Item, rest: string)

  function PairRound(s: string): (r: Round)
    ensures |r.rest| <= |s|
  {
    match ParsePair(s)
    case NoPair(rest) => Bad(Cleanup(rest))
    case OnePair(pair, rest) =>
      if rest == [] || (rest[0] != '(' && rest[0] != ']') then Bad(Cleanup(Skip(rest)))
      else if rest[0] == ']' then Last(pair, rest[1..])
      else More(pair, rest[1..])
  }

  /** The loop of parse_write, with some pairs collected. */
  function PairLoop(items: seq<Item>, s: string, max: nat): (r: Loop<Item>)
    requires |items| <= max
    ensures |r.rest| <= |s| && (r.Done? ==> |r.items| <= max)
    decreases max - |items|
  {
    if |items| == max then Done(items, s) else
    match PairRound(s)
    case Bad(rest) => Failed(rest)
    case Last(pair, rest) => Done(items + [pair], rest)
    case More(pair, rest) => PairLoop(items + [pair], rest, max)
  }

  predicate LineEnd(s: string) { s != [] && (s[0] == '\n' || s[0] == NUL) }

  /** The end of both list parsers: the list must not fill the buffer, and the line
      must end. */
  function CloseList<T>(r: Loop<T>, max: nat): (p: Parsed<T>)
    ensures |p.rest| <= |r.rest|
  {
    match r
    case Failed(rest) => Parsed([], rest)
    case Done(items, rest) =>
      if |items| == max then Parsed([], Cleanup(rest))
      else if !LineEnd(rest) then Parsed([], Cleanup(Skip(rest)))
      else Parsed(items, rest[1..])
  }

  function ParseWrite(s: string, max: nat): (p: Parsed<Item>)
    ensures |p.rest| <= |s|
  {
    if s == [] || s[0] != '[' then Parsed([], Cleanup(Skip(s)))
    else if s[1..] == [] || s[1] != '(' then Parsed([], Cleanup(Skip(s[1..])))
    else CloseList(PairLoop([], s[2..], max), max)
  }

  /** The loop of parse_read_delete, with some keys collected. */
  function KeyLoop(keys: seq<string>, s: string, max: nat): (r: Loop<string>)
    requires |keys| <= max
    ensures |r.rest| <= |s| && (r.Done? ==> |r.items| <= max)
    decreases max - |keys|
  {
    if |keys| == max then Done(keys, s) else
    var f := ReadString(s, MAX_STRING_SIZE);
    if f.end < 0 || f.end == 1 then Failed(Cleanup(f.rest))
    else if f.end == 2 then Done(keys + [CString(f.text)], f.rest)
    else KeyLoop(keys + [CString(f.text)], f.rest, max)
  }

  function ParseReadDelete(s: string, max: nat): (p: Parsed<string>)
    ensures |p.rest| <= |s|
  {
    if s == [] || s[0] != '[' then Parsed([], Cleanup(Skip(s)))
    else CloseList(KeyLoop([], s[1..], max), max)
  }

  /** The delay, unless the line was rejected. */
  datatype Delay = Delay(delay: Option<nat>, rest: string)

  /** parse_wait as the job loop calls it, without a thread number: what follows a
      space is dropped. */
  function ParseWait(s: string): (d: Delay)
    ensures |d.rest| <= |s|
  {
    var f := ReadUint(s);
    if !f.ok then Delay(None, Cleanup(f.rest))
    else if f.next == ' ' then Delay(Some(f.value), Cleanup(f.rest))
    else if f.next == '\n' || f.next == NUL then Delay(Some(f.value), f.rest)
    else Delay(None, Cleanup(f.rest))
  }

  datatype Word = Word(cmd: Command, rest: string)

  /** The bytes after the first n, or none if there are not so many. */
  function After(s: string, n: nat): (rest: string)
    ensures |rest| <= |s|
  {
    if n <= |s| then s[n..] else []
  }

  /** A word on a line of its own, which may be the last of the file. */
  function Alone(s: string, word: string, cmd: Command): Word
    requires s != [] && word != []
  {
    if !(word <= s) then Word(CmdInvalid, Cleanup(After(s, |word|)))
    else if s[|word|..] == [] || s[|word|] == '\n' then Word(cmd, Skip(s[|word|..]))
    else Word(CmdInvalid, Cleanup(s[|word| + 1..]))
  }

  function Prefixed(s: string, word: string, cmd: Command): Word {
    if word <= s then Word(cmd, s[|word|..]) else Word(CmdInvalid, Cleanup(After(s, |word|)))
  }

  function GetNext(s: string): (w: Word)
    ensures w.cmd == EOC <==> s == []
    ensures s != [] ==> |w.rest| < |s|
  {
    if s == [] then Word(EOC, [])
    else match s[0]
      case 'W' => if "WAIT " <= s then Word(CmdWait, s[5..]) else Prefixed(s, "WRITE ", CmdWrite)
      case 'R' => Prefixed(s, "READ ", CmdRead)
      case 'D' => Prefixed(s, "DELETE ", CmdDelete)
      case 'S' => Alone(s, "SHOW", CmdShow)
      case 'B' => Alone(s, "BACKUP", CmdBackup)
      case 'H' => Alone(s, "HELP", CmdHelp)
      case '#' => Word(CmdEmpty, Cleanup(s[1..]))
      case '\n' => Word(CmdEmpty, s[1..])
      case _ => Word(CmdInvalid, Cleanup(s[1..]))
  }
}
