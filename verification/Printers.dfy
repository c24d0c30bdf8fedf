/** Printing without the standard library, as signal-safe code must (server/io.c),
    and the lines of a backup (kvs_backup). */
module Printers {
  import opened Text
  import opened Tables
  import opened Batches
  import opened Numbers
  import opened Pipes

  /** The calls that fail or are interrupted. */
  function Failures(events: seq<Event>): nat {
    if events == [] then 0 else (if events[0].Moves? then 0 else 1) + Failures(events[1..])
  }

  lemma {:induction false} QuietFailures(events: seq<Event>)
    ensures Failures(events) == 0 <==> Quiet(events)
  {
    if events != [] {
      assert events == [events[0]] + events[1..];
      QuietFailures(events[1..]);
    }
  }

  /** The output after write_str: the first error of any kind ends it. */
  function Print(str: string, o: Output): Output
    decreases |str|
  {
    if str == [] then o
    else if o.events == [] then o.(data := o.data + str)
    else if !o.events[0].Moves? then o.(events := o.events[1..])
    else
      var n := Least(o.events[0].more + 1, |str|);
      Print(str[n..], Output(o.data + str[..n], o.events[1..]))
  }

  lemma TakeAgain(str: string, k: nat, n: nat)
    requires k + n <= |str|
    ensures str[..k] + str[k..][..n] == str[..k + n]
  {
  }

  /** The whole string, or what was written before an error. */
  lemma {:induction false} PrintMeaning(str: string, o: Output) returns (n: nat)
    ensures n <= |str| && Print(str, o).data == o.data + str[..n]
    ensures Quiet(o.events) ==> n == |str| && Quiet(Print(str, o).events)
    ensures Failures(o.events) == Failures(Print(str, o).events) + if n < |str| then 1 else 0
    decreases |str|
  {
    if str == [] || o.events == [] {
      n := |str|;
      assert str[..n] == str && o.data + "" == o.data;
    } else if !o.events[0].Moves? {
      n := 0;
      assert o.events[0] in o.events && o.data + str[..0] == o.data;
    } else {
      var k := Least(o.events[0].more + 1, |str|);
      n := PrintMeaning(str[k..], Output(o.data + str[..k], o.events[1..]));
      TakeAgain(str, k, n);
      Regroup(o.data, str[..k], str[k..][..n]);
      n := k + n;
    }
  }

  /** Writes a string piece by piece. */
  method WriteStr(out: Sink, str: string)
    modifies out
    ensures out.State() == Print(str, old(out.State()))
    ensures exists n :: 0 <= n <= |str| && out.data == old(out.data) + str[..n]
    ensures Quiet(old(out.events)) ==> out.data == old(out.data) + str && Quiet(out.events)
  {
    ghost var n := PrintMeaning(str, out.State());
    assert n == |str| ==> str[..n] == str;
    PrintPieces(out, str);
  }

  method PrintPieces(out: Sink, str: string)
    modifies out
    ensures out.State() == Print(str, old(out.State()))
  {
    var i := 0;
    assert str[0..] == str;
    while i < |str|
      invariant i <= |str| && Print(str[i..], out.State()) == Print(str, old(out.State()))
    {
      var written, eintr := out.Write(str[i..]);
      if written < 0 {
        return;
      }
      assert str[i..][written..] == str[i + written..];
      assert written == |str[i..]| ==> str[i..][..written] == str[i..];
      i := i + written;
    }
  }

  const INT_MAX := 0x7FFF_FFFF

  lemma NextDigit(v: nat)
    requires v > 0
    ensures DigitsLeft(v) == DigitsLeft(v / 10) + [DigitChar(v % 10)]
  {
    assert v < 10 ==> DigitsLeft(v / 10) == "" && v % 10 == v;
  }

  /** The digits of a number, put from the last one back into a buffer of 16 bytes,
      and the place of the first. A negative number is printed as 0. */
  method PutDigits(buffer: array<char>, value: int) returns (i: nat)
    requires buffer.Length == 16 && value <= INT_MAX
    modifies buffer
    ensures i < 16 && buffer[i..] == if value >= 0 then Decimal(value) else "0"
  {
    i := 16;
    var v := value;
    if value > 0 {
      DecimalLength(value, 10, 10_000_000_000);
    }
    while v > 0
      invariant i <= 16 && (value <= 0 ==> v <= 0 && i == 16)
      invariant value > 0 ==> v >= 0 && i >= 6 + |DigitsLeft(v)|
      invariant value > 0 ==> Decimal(value) == DigitsLeft(v) + buffer[i..]
    {
      NextDigit(v);
      ghost var after := buffer[i..];
      i := i - 1;
      buffer[i] := DigitChar(v % 10);
      assert buffer[i..] == [DigitChar(v % 10)] + after;
      Regroup(DigitsLeft(v / 10), [DigitChar(v % 10)], after);
      v := v / 10;
    }
    if i == 16 {
      i := i - 1;
      buffer[i] := '0';
      assert buffer[i..] == "0";
    } else {
      assert value > 0 && DigitsLeft(v) == "";
    }
  }

  /** The digits of a number that has none when it is 0. */
  function DigitsLeft(v: nat): string { if v > 0 then Decimal(v) else "" }

  /** Writes a number in decimal. Every call of write that fails or is interrupted
      sets the index back by one, since it adds the result -1: one byte more is
      printed for it, the one before. Below 0 the index wraps around, and that ends
      the loop. So the output is right if no call fails, and only then unless 17 do. */
  method WriteUint(out: Sink, value: int)
    requires value <= INT_MAX
    modifies out
    ensures var text := if value >= 0 then Decimal(value) else "0";
            var failed := Failures(old(out.events)) - Failures(out.events);
            && (failed == 0 ==> out.data == old(out.data) + text)
            && (out.data == old(out.data) + text ==> failed == 0 || failed == 17)
            && (|out.data| == |old(out.data)| + |text| + failed || |out.data| == |old(out.data)| + |text| + failed - 17)
    ensures Quiet(old(out.events)) ==> Failures(old(out.events)) == 0 == Failures(out.events)
  {
    QuietFailures(out.events);
    var buffer := new char[16];
    var i := PutDigits(buffer, value);
    WriteFrom(out, buffer, i);
  }

  const SIZE_MAX := 0xFFFF_FFFF_FFFF_FFFF

  /** Writes a buffer from a place to its end. */
  method WriteFrom(out: Sink, buffer: array<char>, start: nat)
    requires start <= buffer.Length < SIZE_MAX
    modifies out
    ensures Failures(out.events) <= Failures(old(out.events))
    ensures var failed := Failures(old(out.events)) - Failures(out.events);
            && (failed == 0 ==> out.data == old(out.data) + buffer[start..])
            && (|| |out.data| == |old(out.data)| + buffer.Length - start + failed
                || |out.data| == |old(out.data)| - 1 - start + failed)
  {
    ghost var text := buffer[start..];
    ghost var failed: nat := 0;
    var i := start;
    while i < buffer.Length
      invariant start <= i <= buffer.Length || (failed > 0 && (0 <= i <= buffer.Length || i == SIZE_MAX))
      invariant failed + Failures(out.events) == Failures(old(out.events))
      invariant |out.data| == |old(out.data)| + (if i == SIZE_MAX then -1 else i) - start + failed
      invariant failed == 0 ==> out.data == old(out.data) + text[..i - start]
      decreases |out.events|, buffer.Length - i
    {
      var written, eintr := out.Write(buffer[i..]);
      if written < 0 {
        failed := failed + 1;
      } else if failed == 0 {
        assert text[..i - start] + buffer[i..][..written] == text[..i + written - start];
      }
      i := (i + written) % (SIZE_MAX + 1);
    }
    assert failed == 0 ==> text[..i - start] == text;
  }

  /** Copies at most n bytes of a string into a buffer. */
  method StrnMemcpy(dest: array<char>, at: nat, src: string, n: nat) returns (copied: nat)
    requires at + n <= dest.Length
    modifies dest
    ensures copied == Least(|src|, n)
    ensures dest[..at + copied] == old(dest[..at]) + src[..copied]
  {
    copied := Least(|src|, n);
    forall i | 0 <= i < copied {
      dest[at + i] := src[i];
    }
  }

  lemma CutMore(done: string, more: string, n: nat)
    requires |done| <= n
    ensures done + more[..Least(|more|, n - |done|)] == Cut(done + more, n)
  {
  }

  lemma CutTwice(s: string, more: string, n: nat)
    ensures Cut(Cut(s, n) + more, n) == Cut(s + more, n)
  {
  }

  /** Puts the backup line of a pair into a buffer of MAX_STRING_SIZE bytes: the
      first 39 bytes of it, and a NUL. No length goes below zero and no index beyond
      the buffer. */
  method FormatBackupLine(aux: array<char>, key: Key, value: string) returns (n: nat)
    requires aux.Length == MAX_STRING_SIZE
    modifies aux
    ensures n < MAX_STRING_SIZE && aux[n] == NUL
    ensures aux[..n] == Cut("(" + key + ", " + value + ")\n", 39)
  {
    var max := MAX_STRING_SIZE - 1;
    aux[0] := '(';
    n := 1;
    assert aux[..n] == Cut("(", max);
    n := Extend(aux, n, "(", key);
    n := Extend(aux, n, "(" + key, ", ");
    n := Extend(aux, n, "(" + key + ", ", value);
    n := Extend(aux, n, "(" + key + ", " + value, ")\n");
    ghost var line := aux[..n];
    aux[n] := NUL;
    assert aux[..n] == line;
  }

  /** One of the copies that build the line. */
  method Extend(aux: array<char>, n: nat, ghost text: string, more: string) returns (n': nat)
    requires aux.Length == MAX_STRING_SIZE && n < MAX_STRING_SIZE && aux[..n] == Cut(text, MAX_STRING_SIZE - 1)
    modifies aux
    ensures n' < MAX_STRING_SIZE && aux[..n'] == Cut(text + more, MAX_STRING_SIZE - 1)
  {
    var copied := StrnMemcpy(aux, n, more, MAX_STRING_SIZE - n - 1);
    n' := n + copied;
    CutMore(old(aux[..n]), more, MAX_STRING_SIZE - 1);
    CutTwice(text, more, MAX_STRING_SIZE - 1);
  }
}
