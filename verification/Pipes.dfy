/** read and write on a pipe or file, which may move fewer bytes than asked, be
    interrupted, or fail, and the loops around them (common/io.c). */
module Pipes {

  /** What the next call of read or write does: move at most this many bytes and
      one, return early with EINTR, or fail for good. */
  datatype Event = Moves(more: nat) | Interrupted | Fails

  /** No call fails or is interrupted. */
  ghost predicate Quiet(events: seq<Event>) { Fails !in events && Interrupted !in events }

  /** What is left of the events after some calls. */
  ghost predicate Later(now: seq<Event>, before: seq<Event>) {
    exists n | 0 <= n <= |before| :: now == before[n..]
  }

  lemma LaterSame(events: seq<Event>)
    ensures Later(events, events)
  {
    assert events == events[0..];
  }

  lemma LaterEvents(now: seq<Event>, earlier: seq<Event>, before: seq<Event>)
    requires Later(now, earlier) && Later(earlier, before)
    ensures Later(now, before) && forall e :: e in now ==> e in before
  {
    var m :| 0 <= m <= |earlier| && now == earlier[m..];
    var n :| 0 <= n <= |before| && earlier == before[n..];
    assert now == before[m + n..];
  }

  function Least(a: nat, b: nat): nat { if a <= b then a else b }

  /** The bytes that arrive, up to the closing of the other end, and what the next
      calls of read do; after these, read moves all it can. */
  class Source {
    var data: string
    var events: seq<Event>

    constructor (data: string, events: seq<Event>)
      ensures this.data == data && this.events == events
    {
      this.data, this.events := data, events;
    }

    /** read: -1 for an interruption or failure, 0 at the end. */
    method Read(size: nat) returns (result: int, bytes: string, eintr: bool)
      requires size > 0
      modifies this
      ensures events == if old(events) == [] then [] else old(events)[1..]
      ensures |bytes| <= |old(data)| && bytes == old(data)[..|bytes|] && data == old(data)[|bytes|..]
      ensures |bytes| <= size && result == (if old(events) != [] && !old(events)[0].Moves? then -1 else |bytes|)
      ensures result != -1 ==> (result == 0 <==> old(data) == [])
      ensures result == -1 ==> bytes == "" && eintr == (old(events)[0] == Interrupted)
    {
      var e := if events == [] then Moves(size - 1) else events[0];
      events := if events == [] then [] else events[1..];
      if !e.Moves? {
        return -1, "", e == Interrupted;
      }
      var n := Least(Least(e.more + 1, size), |data|);
      bytes, result, eintr := data[..n], n, false;
      data := data[n..];
    }

    /** Reads exactly size bytes: 1 if it could, 0 if the data ended before, -1 for a
        failure, for an interruption before the first byte, and at once if intr was
        set by an earlier interruption. */
    method ReadAll(size: nat, intr: bool) returns (result: int, buffer: string, intr': bool)
      modifies this
      ensures result == 1 || result == 0 || result == -1
      ensures |buffer| <= |old(data)| && buffer == old(data)[..|buffer|] && data == old(data)[|buffer|..]
      ensures result == 1 <==> !intr && |buffer| == size
      ensures result == 0 ==> data == [] && |buffer| < size
      ensures result == -1 ==> intr' || Fails in old(events)
      ensures intr' ==> intr || Interrupted in old(events)
      ensures intr ==> intr' && result == -1 && data == old(data) && events == old(events)
      ensures Later(events, old(events))
    {
      buffer, intr' := "", intr;
      if intr {
        assert events == events[0..];
        return -1, buffer, intr';
      }
      ghost var n := 0;
      while |buffer| < size
        invariant |buffer| <= size && n <= |old(events)| && events == old(events)[n..]
        invariant |buffer| <= |old(data)| && buffer == old(data)[..|buffer|] && data == old(data)[|buffer|..]
        invariant intr' ==> Interrupted in old(events)
        decreases |events|, size - |buffer|
      {
        var k, bytes, eintr := Read(size - |buffer|);
        ghost var was := n;
        n := if n < |old(events)| then n + 1 else n;
        if k == -1 {
          assert old(events)[was] in old(events);
          if eintr {
            intr' := true;
            if |buffer| == 0 {
              return -1, buffer, intr';
            }
            continue;
          }
          return -1, buffer, intr';
        } else if k == 0 {
          return 0, buffer, intr';
        }
        buffer := buffer + bytes;
      }
      return 1, buffer, intr';
    }
  }

  /** The bytes written so far, and what the next calls of write do. */
  datatype Output = Output(data: string, events: seq<Event>)

  class Sink {
    var data: string
    var events: seq<Event>

    function State(): Output
      reads this
    {
      Output(data, events)
    }

    constructor (events: seq<Event>)
      ensures data == "" && this.events == events
    {
      data, this.events := "", events;
    }

    method Write(bytes: string) returns (result: int, eintr: bool)
      requires bytes != []
      modifies this
      ensures events == if old(events) == [] then [] else old(events)[1..]
      ensures if old(events) != [] && !old(events)[0].Moves?
              then result == -1 && data == old(data) && eintr == (old(events)[0] == Interrupted)
              else result == Least(if old(events) == [] then |bytes| else old(events)[0].more + 1, |bytes|) &&
                   data == old(data) + bytes[..result]
    {
      var e := if events == [] then Moves(|bytes| - 1) else events[0];
      events := if events == [] then [] else events[1..];
      if !e.Moves? {
        return -1, e == Interrupted;
      }
      result, eintr := Least(e.more + 1, |bytes|), false;
      data := data + bytes[..result];
    }

    /** Writes all the bytes, through interruptions: -1 if and only if a call of
        write failed before the last byte. */
    method WriteAll(buffer: string) returns (result: int)
      modifies this
      ensures result == 1 || result == -1
      ensures result == 1 ==> data == old(data) + buffer
      ensures result == -1 ==>
                exists k, n :: 0 <= k < |buffer| && data == old(data) + buffer[..k] &&
                               0 < n <= |old(events)| && old(events)[n - 1] == Fails && events == old(events)[n..]
      ensures Later(events, old(events)) && (Fails !in old(events) ==> result == 1)
    {
      var written := 0;
      ghost var n := 0;
      assert data + buffer[..0] == data;
      while written < |buffer|
        invariant written <= |buffer| && data == old(data) + buffer[..written]
        invariant n <= |old(events)| && events == old(events)[n..]
        decreases |events|, |buffer| - written
      {
        var k, eintr := Write(buffer[written..]);
        ghost var was := n;
        n := if n < |old(events)| then n + 1 else n;
        if k == -1 {
          if eintr {
            continue;
          }
          assert old(events)[n - 1] == Fails;
          return -1;
        }
        assert buffer[..written] + buffer[written..][..k] == buffer[..written + k];
        written := written + k;
      }
      assert buffer[..written] == buffer;
      return 1;
    }
  }
}
