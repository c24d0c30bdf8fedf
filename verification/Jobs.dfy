/** The job parser as it runs: a file read byte by byte, from a position that only
    moves forward (server/parser.c, and the loop of process_thread in main.c). */
module Jobs {
  import opened Text
  import opened Numbers
  import P = Parsing
  import J = JobText

  /** Reading one letter of a word and then the others is reading the word. */
  lemma StartsWith(s: string, word: string, buf: string)
    requires word != [] && s != [] && s[0] == word[0]
    requires buf == if |word| - 1 <= |s| - 1 then s[1..][..|word| - 1] else s[1..]
    ensures buf == word[1..] <==> word <= s
    ensures P.After(s[1..], |word| - 1) == P.After(s, |word|)
  {
    assert word == [word[0]] + word[1..];
    if |word| <= |s| {
      assert s[..|word|] == [s[0]] + s[1..][..|word| - 1];
    }
  }

  lemma TwoReads(s: string, a: nat, b: nat)
    ensures P.After(P.After(s, a), b) == P.After(s, a + b)
    ensures a + b <= |s| ==> s[..a] + s[a..][..b] == s[..a + b]
  {
  }

  lemma OneFurther(s: string, i: nat)
    requires i < |s|
    ensures s[i..][1..] == s[i + 1..] && s[..i] + [s[i]] == s[..i + 1]
  {
  }

  lemma DigitsCounted(s: string)
    ensures forall k | 0 <= k < P.CountDigits(s) :: Digit(s[k])
  {
    var n := P.CountDigits(s);
    assert forall k | 0 <= k < n :: s[k] == s[..n][k];
  }

  class JobFile {
    const data: string
    var pos: nat

    constructor (data: string)
      ensures Open() && Rest() == data
    {
      this.data, pos := data, 0;
    }

    predicate Open()
      reads this
    {
      pos <= |data|
    }

    /** The bytes not read yet. */
    function Rest(): string
      requires Open()
      reads this
    {
      data[pos..]
    }

    /** read of one byte: 0 at the end of the file. */
    method ReadByte() returns (n: nat, ch: char)
      requires Open()
      modifies this
      ensures Open() && Rest() == P.Skip(old(Rest()))
      ensures if old(Rest()) == [] then n == 0 else n == 1 && ch == old(Rest())[0]
    {
      if pos == |data| {
        return 0, NUL;
      }
      n, ch, pos := 1, data[pos], pos + 1;
      assert data[pos..] == data[pos - 1..][1..];
    }

    /** read of up to n bytes. */
    method ReadBytes(n: nat) returns (buf: string)
      requires Open()
      modifies this
      ensures Open() && Rest() == P.After(old(Rest()), n)
      ensures buf == if n <= |old(Rest())| then old(Rest())[..n] else old(Rest())
    {
      var end := if pos + n <= |data| then pos + n else |data|;
      buf := data[pos..end];
      assert data[end..] == data[pos..][end - pos..];
      assert buf == data[pos..][..end - pos];
      pos := end;
    }

    method Cleanup()
      requires Open()
      modifies this
      ensures Open() && Rest() == P.Cleanup(old(Rest()))
    {
      var n, ch := ReadByte();
      while n == 1 && ch != '\n'
        invariant Open() && n <= 1
        invariant P.Cleanup(old(Rest())) == if n == 1 && ch != '\n' then P.Cleanup(Rest()) else Rest()
        decreases |Rest()| + n
      {
        n, ch := ReadByte();
      }
    }

    /** The text up to a comma or bracket; the result says which, or is -1. */
    method ReadString(max: nat) returns (value: int, buffer: string)
      requires Open()
      modifies this
      ensures Open()
      ensures var f := P.ReadString(old(Rest()), max);
              value == f.end && Rest() == f.rest && (value >= 0 ==> buffer == f.text)
    {
      buffer, value := "", -1;
      while |buffer| < max
        invariant Open() && |buffer| <= max && value == -1
        invariant var f := P.ReadString(Rest(), max - |buffer|);
                  P.ReadString(old(Rest()), max) == P.Field(buffer + f.text, f.end, f.rest)
        decreases max - |buffer|
      {
        ghost var s := Rest();
        var n, ch := ReadByte();
        if n == 0 || ch == ' ' {
          return -1, buffer;
        }
        if ch == ',' {
          value := 0;
          break;
        } else if ch == ')' {
          value := 1;
          break;
        } else if ch == ']' {
          value := 2;
          break;
        }
        Regroup(buffer, [ch], P.ReadString(s[1..], max - |buffer| - 1).text);
        buffer := buffer + [ch];
      }
      assert buffer + "" == buffer;
    }

    /** The digits at the position, and the byte after them. */
    method ReadDigits() returns (buf: string, next: char)
      requires Open()
      modifies this
      ensures Open()
      ensures var s, n := old(Rest()), P.CountDigits(old(Rest()));
              buf == s[..n] && next == (if n < |s| then s[n] else NUL) && Rest() == P.Skip(s[n..])
    {
      buf := "";
      ghost var s, count, i := Rest(), P.CountDigits(Rest()), 0;
      DigitsCounted(s);
      var n, ch := ReadByte();
      while n == 1 && Digit(ch)
        invariant Open() && i <= count && buf == s[..i] && Rest() == P.Skip(s[i..])
        invariant if i == |s| then n == 0 else n == 1 && ch == s[i]
        decreases |s| - i
      {
        OneFurther(s, i);
        buf, i := buf + [ch], i + 1;
        n, ch := ReadByte();
      }
      assert i == count;
      next := if n == 0 then NUL else ch;
    }

    /** The number at the position: 1 if it has more than 32 bits. */
    method ReadUint() returns (r: int, value: nat, next: char)
      requires Open()
      modifies this
      ensures Open()
      ensures var f := P.ReadUint(old(Rest()));
              && r == (if f.ok then 0 else 1) && next == f.next && Rest() == f.rest
              && (r == 0 ==> value == f.value)
    {
      ghost var s := Rest();
      var buf;
      buf, next := ReadDigits();
      var ul := Number(buf);
      if ul > UINT_MAX {
        return 1, 0, next;
      }
      return 0, ul, next;
    }

    /** Reads the word of the next command, or passes over a line. */
    method GetNext() returns (cmd: P.Command)
      requires Open()
      modifies this
      ensures Open() && P.Word(cmd, Rest()) == P.GetNext(old(Rest()))
    {
      ghost var s := Rest();
      var n, first := ReadByte();
      if n != 1 {
        return P.EOC;
      }
      match first
      case 'W' =>
        cmd := WaitOrWrite(s);
      case 'R' =>
        cmd := Prefixed("READ ", P.CmdRead, s);
      case 'D' =>
        cmd := Prefixed("DELETE ", P.CmdDelete, s);
      case 'S' =>
        cmd := Alone("SHOW", P.CmdShow, s);
      case 'B' =>
        cmd := Alone("BACKUP", P.CmdBackup, s);
      case 'H' =>
        cmd := Alone("HELP", P.CmdHelp, s);
      case '#' =>
        Cleanup();
        cmd := P.CmdEmpty;
      case '\n' =>
        cmd := P.CmdEmpty;
      case _ =>
        Cleanup();
        cmd := P.CmdInvalid;
    }

    /** WAIT and WRITE share a letter: five bytes are tried for the one, and a
        sixth for the other. */
    method WaitOrWrite(ghost s: string) returns (cmd: P.Command)
      requires Open() && s != [] && s[0] == 'W' && Rest() == s[1..]
      modifies this
      ensures Open() && P.Word(cmd, Rest()) == P.GetNext(s)
    {
      var buf := ReadBytes(4);
      StartsWith(s, "WAIT ", buf);
      if buf == "AIT " {
        return P.CmdWait;
      }
      var last := ReadBytes(1);
      TwoReads(s[1..], 4, 1);
      StartsWith(s, "WRITE ", if |s| >= 6 then s[1..][..5] else s[1..]);
      if buf + last == "RITE " {
        return P.CmdWrite;
      }
      Cleanup();
      return P.CmdInvalid;
    }

    /** The rest of a word whose first letter has been read. */
    method Prefixed(word: string, found: P.Command, ghost s: string) returns (cmd: P.Command)
      requires Open() && word != [] && s != [] && s[0] == word[0] && Rest() == s[1..]
      modifies this
      ensures Open() && P.Word(cmd, Rest()) == P.Prefixed(s, word, found)
    {
      var buf := ReadBytes(|word| - 1);
      StartsWith(s, word, buf);
      if buf != word[1..] {
        Cleanup();
        return P.CmdInvalid;
      }
      return found;
    }

    /** The same for a word that must end its line. */
    method Alone(word: string, found: P.Command, ghost s: string) returns (cmd: P.Command)
      requires Open() && word != [] && s != [] && s[0] == word[0] && Rest() == s[1..]
      modifies this
      ensures Open() && P.Word(cmd, Rest()) == P.Alone(s, word, found)
    {
      var buf := ReadBytes(|word| - 1);
      StartsWith(s, word, buf);
      if buf != word[1..] {
        Cleanup();
        return P.CmdInvalid;
      }
      var n, ch := ReadByte();
      if n != 0 && ch != '\n' {
        Cleanup();
        return P.CmdInvalid;
      }
      return found;
    }

    /** One pair, after its opening bracket: 1 if it is well formed. */
    method ParsePair() returns (r: int, key: string, value: string)
      requires Open()
      modifies this
      ensures Open()
      ensures match P.ParsePair(old(Rest()))
              case NoPair(rest) => r == 0 && Rest() == rest
              case OnePair(pair, rest) => r == 1 && Rest() == rest && pair == P.Item(CString(key), CString(value))
    {
      var k, v;
      k, key := ReadString(MAX_STRING_SIZE);
      if k != 0 {
        Cleanup();
        return 0, key, "";
      }
      v, value := ReadString(MAX_STRING_SIZE);
      if v != 1 {
        Cleanup();
        return 0, key, value;
      }
      return 1, key, value;
    }

    /** The pairs of a WRITE, none if the line is rejected. */
    method ParseWrite(max: nat) returns (items: seq<P.Item>)
      requires Open()
      modifies this
      ensures Open() && P.Parsed(items, Rest()) == P.ParseWrite(old(Rest()), max)
    {
      var n, ch := ReadByte();
      if n != 1 || ch != '[' {
        Cleanup();
        return [];
      }
      n, ch := ReadByte();
      if n != 1 || ch != '(' {
        Cleanup();
        return [];
      }
      var ok;
      ok, items := PairLoop(max);
      if !ok {
        return [];
      }
      items := CloseList(items, max);
    }

    /** The loop of parse_write; false if it returned from inside. */
    method PairLoop(max: nat) returns (ok: bool, items: seq<P.Item>)
      requires Open()
      modifies this
      ensures Open()
      ensures P.PairLoop([], old(Rest()), max) == if ok then P.Done(items, Rest()) else P.Failed(Rest())
    {
      items := [];
      while |items| < max
        invariant Open() && |items| <= max
        invariant P.PairLoop([], old(Rest()), max) == P.PairLoop(items, Rest(), max)
        decreases max - |items|
      {
        var good, last, pair := NextPair();
        if !good {
          return false, items;
        }
        items := items + [pair];
        if last {
          return true, items;
        }
      }
      ok := true;
    }

    /** The body of that loop. */
    method NextPair() returns (good: bool, last: bool, pair: P.Item)
      requires Open()
      modifies this
      ensures Open()
      ensures match P.PairRound(old(Rest()))
              case Bad(rest) => !good && Rest() == rest
              case Last(p, rest) => good && last && pair == p && Rest() == rest
              case More(p, rest) => good && !last && pair == p && Rest() == rest
    {
      var r, key, value := ParsePair();
      pair := P.Item(CString(key), CString(value));
      if r == 0 {
        Cleanup();
        return false, false, pair;
      }
      var n, ch := ReadByte();
      if n != 1 || (ch != '(' && ch != ']') {
        Cleanup();
        return false, false, pair;
      }
      good, last := true, ch == ']';
    }

    /** The keys of a READ or DELETE, none if the line is rejected. */
    method ParseReadDelete(max: nat) returns (keys: seq<string>)
      requires Open()
      modifies this
      ensures Open() && P.Parsed(keys, Rest()) == P.ParseReadDelete(old(Rest()), max)
    {
      var n, ch := ReadByte();
      if n != 1 || ch != '[' {
        Cleanup();
        return [];
      }
      var ok;
      ok, keys := KeyLoop(max);
      if !ok {
        return [];
      }
      keys := CloseList(keys, max);
    }

    method KeyLoop(max: nat) returns (ok: bool, keys: seq<string>)
      requires Open()
      modifies this
      ensures Open()
      ensures P.KeyLoop([], old(Rest()), max) == if ok then P.Done(keys, Rest()) else P.Failed(Rest())
    {
      keys := [];
      while |keys| < max
        invariant Open() && |keys| <= max
        invariant P.KeyLoop([], old(Rest()), max) == P.KeyLoop(keys, Rest(), max)
        decreases max - |keys|
      {
        var output, key := ReadString(MAX_STRING_SIZE);
        if output < 0 || output == 1 {
          Cleanup();
          return false, keys;
        }
        keys := keys + [CString(key)];
        if output == 2 {
          return true, keys;
        }
      }
      ok := true;
    }

    method CloseList<T>(items: seq<T>, max: nat) returns (r: seq<T>)
      requires Open()
      modifies this
      ensures Open() && P.Parsed(r, Rest()) == P.CloseList(P.Done(items, old(Rest())), max)
    {
      if |items| == max {
        Cleanup();
        return [];
      }
      var n, ch := ReadByte();
      if n != 1 || (ch != '\n' && ch != NUL) {
        Cleanup();
        return [];
      }
      r := items;
    }

    /** parse_wait with no place for a thread number: -1 if the line is rejected. */
    method ParseWait() returns (r: int, delay: nat)
      requires Open()
      modifies this
      ensures Open()
      ensures P.Delay(if r == -1 then None else Some(delay), Rest()) == P.ParseWait(old(Rest()))
    {
      var ok, next;
      ok, delay, next := ReadUint();
      if ok != 0 {
        Cleanup();
        return -1, delay;
      }
      if next == ' ' {
        Cleanup();
        return 0, delay;
      } else if next == '\n' || next == NUL {
        return 0, delay;
      } else {
        Cleanup();
        return -1, delay;
      }
    }

    /** One round of that loop: the commands carried out, one or none. */
    method NextCommand(max: nat) returns (eocFlag: bool, done: seq<P.JobCommand>)
      requires Open()
      modifies this
      ensures Open() && J.Commands(old(Rest()), max) == done + J.Commands(Rest(), max)
      ensures if eocFlag then done == [] && Rest() == [] else |Rest()| < |old(Rest())|
    {
      eocFlag, done := false, [];
      var cmd := GetNext();
      match cmd
      case CmdWrite =>
        var pairs := ParseWrite(max);
        if |pairs| == 0 {
          return;
        }
        done := [P.Write(pairs)];
      case CmdRead =>
        var keys := ParseReadDelete(max);
        if |keys| == 0 {
          return;
        }
        done := [P.Read(keys)];
      case CmdDelete =>
        var keys := ParseReadDelete(max);
        if |keys| == 0 {
          return;
        }
        done := [P.Delete(keys)];
      case CmdShow =>
        done := [P.Show];
      case CmdWait =>
        var r, delay := ParseWait();
        if r == -1 {
          return;
        }
        done := [P.Wait(delay)];
      case CmdBackup =>
        done := [P.Backup];
      case CmdInvalid =>
      case CmdHelp =>
      case CmdEmpty =>
      case EOC =>
        eocFlag := true;
    }

    /** The loop of a job thread over one file: the commands it carries out. It ends
        with all bytes read. */
    method ReadJob(max: nat) returns (commands: seq<P.JobCommand>)
      requires Open()
      modifies this
      ensures Open() && Rest() == []
      ensures commands == J.Commands(old(Rest()), max)
    {
      commands := [];
      var eocFlag := false;
      while !eocFlag
        invariant Open() && (eocFlag ==> Rest() == [])
        invariant J.Commands(old(Rest()), max) == commands + J.Commands(Rest(), max)
        decreases |Rest()|, !eocFlag
      {
        var done;
        eocFlag, done := NextCommand(max);
        Regroup(commands, done, J.Commands(Rest(), max));
        commands := commands + done;
      }
      assert commands + [] == commands;
    }
  }
}
