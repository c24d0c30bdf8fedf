/** C strings, as sequences of characters that stand for bytes: the order of
    strcmp, the bucket function of the table, and sorting. */
module Text {

  datatype Option<+T> = None | Some(value: T)

  const NUL: char := '\0'

  /** The size of the arrays that hold one key or value, terminator included. */
  const MAX_STRING_SIZE := 40

  /** The size of the buffers in which one answer is put together. */
  const MAX_WRITE_SIZE := 256

  const TABLE_SIZE := 26

  /** strcmp(a, b) <= 0 */
  predicate AtMost(a: string, b: string) {
    a == [] || (b != [] && (a[0] < b[0] || (a[0] == b[0] && AtMost(a[1..], b[1..]))))
  }

  lemma {:induction false} AtMostTotal(a: string, b: string)
    ensures AtMost(a, b) || AtMost(b, a)
  {
    if a != [] && b != [] && a[0] == b[0] {
      AtMostTotal(a[1..], b[1..]);
    }
  }

  lemma {:induction false} AtMostTransitive(a: string, b: string, c: string)
    requires AtMost(a, b) && AtMost(b, c)
    ensures AtMost(a, c)
  {
    if a != [] && a[0] == b[0] == c[0] {
      AtMostTransitive(a[1..], b[1..], c[1..]);
    }
  }

  lemma {:induction false} AtMostAntisymmetric(a: string, b: string)
    requires AtMost(a, b) && AtMost(b, a)
    ensures a == b
  {
    if a != [] {
      AtMostAntisymmetric(a[1..], b[1..]);
      assert a == [a[0]] + a[1..] && b == [b[0]] + b[1..];
    }
  }

  /** The order is that of dictionaries, byte by byte: a comes before b, or is b, if and
      only if it is a beginning of b, or has the smaller byte at the first place where
      they differ. */
  lemma {:induction false} AtMostIff(a: string, b: string)
    ensures AtMost(a, b) <==>
            a <= b || exists i :: 0 <= i < |a| && i < |b| && a[..i] == b[..i] && a[i] < b[i]
  {
    if a != [] && b != [] {
      if a[0] == b[0] {
        AtMostIff(a[1..], b[1..]);
        OneByteMore(a, b);
      } else {
        assert a[..0] == b[..0];
      }
    }
  }

  lemma OneByteMore(a: string, b: string)
    requires a != [] && b != [] && a[0] == b[0]
    ensures a <= b <==> a[1..] <= b[1..]
    ensures (exists i :: 0 <= i < |a| && i < |b| && a[..i] == b[..i] && a[i] < b[i]) <==>
            exists i :: 0 <= i < |a[1..]| && i < |b[1..]| && a[1..][..i] == b[1..][..i] && a[1..][i] < b[1..][i]
  {
    assert a == [a[0]] + a[1..] && b == [b[0]] + b[1..];
    forall i | 0 < i < |a| && i < |b| ensures a[..i] == b[..i] <==> a[1..][..i - 1] == b[1..][..i - 1] {
      assert a[..i] == [a[0]] + a[1..][..i - 1] && b[..i] == [b[0]] + b[1..][..i - 1];
    }
    if i :| 0 <= i < |a| && i < |b| && a[..i] == b[..i] && a[i] < b[i] {
      assert a[1..][..i - 1] == b[1..][..i - 1] && a[1..][i - 1] < b[1..][i - 1];
    }
    if i :| 0 <= i < |a[1..]| && i < |b[1..]| && a[1..][..i] == b[1..][..i] && a[1..][i] < b[1..][i] {
      assert a[..i + 1] == b[..i + 1] && a[i + 1] < b[i + 1];
    }
  }

  ghost predicate Sorted(keys: seq<string>) {
    forall i, j | 0 <= i < j < |keys| :: AtMost(keys[i], keys[j])
  }

  predicate Lowercase(c: char) { 'a' <= c <= 'z' }

  predicate Uppercase(c: char) { 'A' <= c <= 'Z' }

  predicate Digit(c: char) { '0' <= c <= '9' }

  /** The bucket of a key: letters of either case by position in the alphabet,
      digits by value, -1 for everything else. */
  function Hash(key: string): int {
    if key == [] then -1
    else if Lowercase(key[0]) then key[0] as int - 'a' as int
    else if Uppercase(key[0]) then key[0] as int - 'A' as int
    else if Digit(key[0]) then key[0] as int - '0' as int
    else -1
  }

  /** Where keys go, by the code of their initial: A to Z as a to z, 0 to 9 with the
      first ten letters, and nothing else anywhere. */
  lemma HashByInitial(key: string)
    requires key != []
    ensures var code := key[0] as int;
            Hash(key) == if 97 <= code <= 122 then code - 97
                         else if 65 <= code <= 90 then code - 65
                         else if 48 <= code <= 57 then code - 48 else -1
    ensures Lowercase(key[0]) ==>
              Hash(key) == Hash([(key[0] as int - 32) as char] + key[1..]) &&
              (key[0] <= 'j' ==> Hash(key) == Hash([(key[0] as int - 49) as char] + key[1..]))
  {
  }

  /** Keys the table can store: the hash is a bucket number. */
  predicate Hashable(key: string) { Hash(key) >= 0 }

  type Key = k: string | Hashable(k) witness "a"

  function Bucket(key: Key): (b: nat)
    ensures b < TABLE_SIZE
  {
    Hash(key)
  }

  /** What a C function sees of a buffer: everything before the first NUL. */
  function CString(s: string): (r: string)
    ensures NUL !in r && r <= s
    ensures r == s || s[|r|] == NUL
  {
    if s == [] || s[0] == NUL then [] else [s[0]] + CString(s[1..])
  }

  lemma {:induction false} CStringOfText(s: string, rest: string)
    requires NUL !in s
    requires rest == [] || rest[0] == NUL
    ensures CString(s + rest) == s
  {
    if s == [] {
      assert s + rest == rest;
    } else {
      CStringOfText(s[1..], rest);
      assert (s + rest)[1..] == s[1..] + rest;
    }
  }

  /** The first n bytes of a text, or all it has. */
  function Cut(s: string, n: nat): (r: string)
    ensures |r| == if |s| < n then |s| else n
    ensures r == s[..|r|] && (|s| <= n ==> r == s)
  {
    if |s| < n then s else s[..n]
  }

  /** Texts one after the other. */
  function Concat(parts: seq<string>): string {
    if parts == [] then "" else parts[0] + Concat(parts[1..])
  }

  lemma {:induction false} ConcatSplit(a: seq<string>, b: seq<string>)
    ensures Concat(a + b) == Concat(a) + Concat(b)
  {
    if a == [] {
      assert a + b == b;
    } else {
      assert (a + b)[1..] == a[1..] + b;
      ConcatSplit(a[1..], b);
      Regroup(a[0], Concat(a[1..]), Concat(b));
    }
  }

  /** A list without one of its members, place by place. */
  lemma Removed<T>(s: seq<T>, i: nat)
    requires i < |s|
    ensures var r := s[..i] + s[i + 1..];
            |r| == |s| - 1 && forall j | 0 <= j < |r| :: r[j] == s[if j < i then j else j + 1]
  {
  }

  lemma FirstAndRest<T>(a: seq<T>, b: seq<T>)
    requires a != []
    ensures [a[0]] + (a[1..] + b) == a + b
  {
  }

  lemma NothingAfter<T>(s: seq<T>)
    ensures s + [] == s
  {
  }

  lemma Regroup<T>(a: seq<T>, b: seq<T>, c: seq<T>)
    ensures a + b + c == a + (b + c)
  {
  }
}
