/** The messages between clients and the server: fixed-size fields padded with NUL
    (client/api.c, client/parser.c), and how the server takes them apart
    (server/main.c). */
module Framing {
  import opened Text
  import opened Pipes

  const KEY_MESSAGE_SIZE := 41
  const MAX_PIPE_PATH_LENGTH := 40

  const OP_CODE_CONNECT := '1'
  const OP_CODE_DISCONNECT := '2'
  const OP_CODE_SUBSCRIBE := '3'
  const OP_CODE_UNSUBSCRIBE := '4'

  /** A text cut or padded to a size. */
  function Padded(text: string, size: nat): (s: string)
    ensures |s| == size
    ensures forall i | 0 <= i < size :: s[i] == if i < |text| then text[i] else '\0'
  {
    if |text| >= size then text[..size] else text + seq(size - |text|, _ => NUL)
  }

  /** A padded text that has room for one NUL is read back. */
  lemma PaddedBack(text: string, size: nat)
    requires NUL !in text && |text| < size
    ensures CString(Padded(text, size)) == text
  {
    CStringOfText(text, seq(size - |text|, _ => NUL));
  }

  // ---- the bytes of a session's requests ----

  datatype Request = Subscribe(key: string) | Unsubscribe(key: string) | Disconnect

  function Encoded(r: Request): string {
    match r
    case Subscribe(key) => [OP_CODE_SUBSCRIBE] + Padded(key, KEY_MESSAGE_SIZE)
    case Unsubscribe(key) => [OP_CODE_UNSUBSCRIBE] + Padded(key, KEY_MESSAGE_SIZE)
    case Disconnect => [OP_CODE_DISCONNECT]
  }

  function EncodedAll(rs: seq<Request>): string {
    if rs == [] then "" else Encoded(rs[0]) + EncodedAll(rs[1..])
  }

  /** Byte by byte: the opcode, and the key in 41 bytes. */
  lemma RequestBytes(r: Request)
    ensures var s := Encoded(r);
            match r
            case Subscribe(key) =>
              |s| == 42 && s[0] == '3' && forall i | 0 <= i < 41 :: s[1 + i] == if i < |key| then key[i] else '\0'
            case Unsubscribe(key) =>
              |s| == 42 && s[0] == '4' && forall i | 0 <= i < 41 :: s[1 + i] == if i < |key| then key[i] else '\0'
            case Disconnect => s == "2"
  {
  }

  /** How the session ended: the client asked for it, its bytes ended, or it sent
      something else. */
  datatype Session = Session(requests: seq<Request>, asked: bool, rest: string)

  /** What a worker makes of the bytes of a session. It passes over a second connect
      request, and anything it does not know ends the session. */
  function Decoded(s: string): Session
    decreases |s|
  {
    if s == [] then Session([], false, [])
    else if s[0] == OP_CODE_CONNECT then Decoded(s[1..])
    else if s[0] == OP_CODE_DISCONNECT then Session([], true, s[1..])
    else if s[0] != OP_CODE_SUBSCRIBE && s[0] != OP_CODE_UNSUBSCRIBE then Session([], false, s[1..])
    else if |s| < 1 + KEY_MESSAGE_SIZE then Session([], false, [])
    else
      var key := CString(s[1..1 + KEY_MESSAGE_SIZE]);
      var more := Decoded(s[1 + KEY_MESSAGE_SIZE..]);
      more.(requests := [if s[0] == OP_CODE_SUBSCRIBE then Subscribe(key) else Unsubscribe(key)] + more.requests)
  }

  /** A request whose key has room for a NUL. */
  predicate Sendable(r: Request) {
    match r
    case Subscribe(key) => NUL !in key && |key| < KEY_MESSAGE_SIZE
    case Unsubscribe(key) => NUL !in key && |key| < KEY_MESSAGE_SIZE
    case Disconnect => false
  }

  lemma OneRequest(r: Request, more: string)
    requires Sendable(r)
    ensures var d := Decoded(more); Decoded(Encoded(r) + more) == d.(requests := [r] + d.requests)
  {
    PaddedBack(r.key, KEY_MESSAGE_SIZE);
    PartsOf(Encoded(r), more);
  }

  lemma PartsOf(request: string, more: string)
    requires |request| == 1 + KEY_MESSAGE_SIZE
    ensures var s := request + more;
            s[0] == request[0] && s[1..1 + KEY_MESSAGE_SIZE] == request[1..] && s[1 + KEY_MESSAGE_SIZE..] == more
  {
  }

  /** The server takes the requests of a client apart as the client sent them,
      whatever follows them. */
  lemma {:induction false} RequestsRoundTrip(rs: seq<Request>, more: string)
    requires forall i | 0 <= i < |rs| :: Sendable(rs[i])
    ensures var d := Decoded(more); Decoded(EncodedAll(rs) + more) == d.(requests := rs + d.requests)
  {
    if rs == [] {
      assert EncodedAll(rs) + more == more;
    } else {
      RequestsRoundTrip(rs[1..], more);
      Regroup(Encoded(rs[0]), EncodedAll(rs[1..]), more);
      OneRequest(rs[0], EncodedAll(rs[1..]) + more);
      FirstAndRest(rs, Decoded(more).requests);
    }
  }

  /** A whole session, from the first request to the disconnect request. */
  lemma SessionRoundTrip(rs: seq<Request>, more: string)
    requires forall i | 0 <= i < |rs| :: Sendable(rs[i])
    ensures Decoded(EncodedAll(rs) + Encoded(Disconnect) + more) == Session(rs, true, more)
  {
    Regroup(EncodedAll(rs), Encoded(Disconnect), more);
    RequestsRoundTrip(rs, Encoded(Disconnect) + more);
    assert (Encoded(Disconnect) + more)[1..] == more;
    assert rs + [] == rs;
  }

  // ---- the connect message ----

  datatype Paths = Paths(req: string, resp: string, notif: string)

  function EncodedConnect(p: Paths): string {
    [OP_CODE_CONNECT] + Padded(p.req, MAX_PIPE_PATH_LENGTH) + Padded(p.resp, MAX_PIPE_PATH_LENGTH)
    + Padded(p.notif, MAX_PIPE_PATH_LENGTH)
  }

  /** Byte by byte: the opcode, and three paths in 40 bytes each. */
  lemma ConnectBytes(p: Paths)
    ensures var s := EncodedConnect(p);
            && |s| == 121 && s[0] == '1'
            && (forall i | 0 <= i < 40 :: s[1 + i] == if i < |p.req| then p.req[i] else '\0')
            && (forall i | 0 <= i < 40 :: s[41 + i] == if i < |p.resp| then p.resp[i] else '\0')
            && (forall i | 0 <= i < 40 :: s[81 + i] == if i < |p.notif| then p.notif[i] else '\0')
  {
    var s, n := EncodedConnect(p), MAX_PIPE_PATH_LENGTH;
    var a, b, c := Padded(p.req, n), Padded(p.resp, n), Padded(p.notif, n);
    forall i | 0 <= i < n ensures s[1 + i] == a[i] && s[41 + i] == b[i] && s[81 + i] == c[i] {
    }
  }

  function Part(s: string, i: nat): string
    requires 1 + (i + 1) * MAX_PIPE_PATH_LENGTH <= |s|
  {
    s[1 + i * MAX_PIPE_PATH_LENGTH..1 + (i + 1) * MAX_PIPE_PATH_LENGTH]
  }

  /** What the host thread makes of the bytes of one connect message. */
  function DecodedConnect(s: string): Option<Paths>
    requires |s| == 1 + 3 * MAX_PIPE_PATH_LENGTH
  {
    if s[0] != OP_CODE_CONNECT then None
    else Some(Paths(CString(Part(s, 0)), CString(Part(s, 1)), CString(Part(s, 2))))
  }

  predicate PathOk(path: string) { NUL !in path && |path| < MAX_PIPE_PATH_LENGTH }

  lemma ConnectRoundTrip(p: Paths)
    requires PathOk(p.req) && PathOk(p.resp) && PathOk(p.notif)
    ensures |EncodedConnect(p)| == 1 + 3 * MAX_PIPE_PATH_LENGTH
    ensures DecodedConnect(EncodedConnect(p)) == Some(p)
  {
    var s := EncodedConnect(p);
    PaddedBack(p.req, MAX_PIPE_PATH_LENGTH);
    PaddedBack(p.resp, MAX_PIPE_PATH_LENGTH);
    PaddedBack(p.notif, MAX_PIPE_PATH_LENGTH);
    assert Part(s, 0) == Padded(p.req, MAX_PIPE_PATH_LENGTH);
    assert Part(s, 1) == Padded(p.resp, MAX_PIPE_PATH_LENGTH);
    assert Part(s, 2) == Padded(p.notif, MAX_PIPE_PATH_LENGTH);
  }

  // ---- the client ----

  /** Copies a text into a part of a buffer and fills that part up with NUL. */
  method FillWithNulls(dest: array<char>, at: nat, src: string, size: nat)
    requires at + size <= dest.Length
    modifies dest
    ensures dest[at..at + size] == Padded(src, size)
    ensures dest[..at] == old(dest[..at]) && dest[at + size..] == old(dest[at + size..])
  {
    var len := |src|;
    if len > size {
      len := size;
    }
    forall i | 0 <= i < len {
      dest[at + i] := src[i];
    }
    forall i | len <= i < size {
      dest[at + i] := NUL;
    }
  }

  method WriteCorrectSize(out: Sink, message: string, size: nat) returns (result: int)
    modifies out
    ensures result == 1 ==> out.data == old(out.data) + Padded(message, size)
    ensures Later(out.events, old(out.events)) && (Fails !in old(out.events) ==> result == 1)
  {
    var buffer := new char[size](_ => NUL);
    FillWithNulls(buffer, 0, message, size);
    assert buffer[..] == buffer[0..size];
    result := out.WriteAll(buffer[..]);
  }

  method WriteConnectMessage(out: Sink, p: Paths) returns (result: int)
    modifies out
    ensures result == 1 ==> out.data == old(out.data) + EncodedConnect(p)
    ensures Fails !in old(out.events) ==> result == 1
  {
    var n := MAX_PIPE_PATH_LENGTH;
    var message := new char[1 + 3 * n](_ => NUL);
    message[0] := OP_CODE_CONNECT;
    assert message[..1] == [OP_CODE_CONNECT];
    FillNext(message, 1, p.req, n);
    FillNext(message, 1 + n, p.resp, n);
    FillNext(message, 1 + 2 * n, p.notif, n);
    assert message[..1 + 3 * n] == message[..];
    result := out.WriteAll(message[..]);
  }

  /** One more part of a message, after those that are there. */
  method FillNext(dest: array<char>, at: nat, src: string, size: nat)
    requires at + size <= dest.Length
    modifies dest
    ensures dest[..at + size] == old(dest[..at]) + Padded(src, size)
  {
    FillWithNulls(dest, at, src, size);
    assert dest[..at + size] == dest[..at] + dest[at..at + size];
  }

  /** kvs_subscribe, kvs_unsubscribe and kvs_disconnect of the client, as far as the
      request: false if a call of write failed. */
  method Send(out: Sink, r: Request) returns (ok: bool)
    modifies out
    ensures ok ==> out.data == old(out.data) + Encoded(r)
    ensures Later(out.events, old(out.events)) && (Fails !in old(out.events) ==> ok)
  {
    var opcode := if r.Subscribe? then OP_CODE_SUBSCRIBE
                  else if r.Unsubscribe? then OP_CODE_UNSUBSCRIBE else OP_CODE_DISCONNECT;
    var result := out.WriteAll([opcode]);
    if result == -1 {
      return false;
    }
    ghost var middle := out.events;
    if !r.Disconnect? {
      Regroup(old(out.data), [opcode], Padded(r.key, KEY_MESSAGE_SIZE));
      result := WriteCorrectSize(out, r.key, KEY_MESSAGE_SIZE);
    } else {
      LaterSame(middle);
    }
    LaterEvents(out.events, middle, old(out.events));
    ok := result == 1;
  }

  // ---- the server ----

  /** read_connect_message: 1 if the message was not complete or not a connect. */
  method ReadConnectMessage(pipe: Source) returns (r: int, p: Paths)
    modifies pipe
    ensures r == 0 || r == 1
    ensures r == 0 ==>
              var n := 1 + 3 * MAX_PIPE_PATH_LENGTH;
              && |old(pipe.data)| >= n && DecodedConnect(old(pipe.data)[..n]) == Some(p)
              && pipe.data == old(pipe.data)[n..]
    ensures r == 1 && Quiet(old(pipe.events)) ==>
              var n := 1 + 3 * MAX_PIPE_PATH_LENGTH;
              |old(pipe.data)| < n || DecodedConnect(old(pipe.data)[..n]) == None
  {
    p := Paths("", "", "");
    var n := 1 + 3 * MAX_PIPE_PATH_LENGTH;
    var status, buffer, intr := pipe.ReadAll(n, false);
    if status <= 0 || intr {
      return 1, p;
    }
    if buffer[0] != OP_CODE_CONNECT {
      return 1, p;
    }
    return 0, Paths(CString(Part(buffer, 0)), CString(Part(buffer, 1)), CString(Part(buffer, 2)));
  }

  /** What the bytes of a session are, by their first one. */
  lemma FirstRequest(s: string)
    requires s != []
    ensures s[0] == OP_CODE_CONNECT ==> Decoded(s) == Onto([], Decoded(s[1..]))
    ensures s[0] == OP_CODE_DISCONNECT ==> Decoded(s) == Session([], true, s[1..])
    ensures s[0] !in "1234" ==> Decoded(s) == Session([], false, s[1..])
    ensures s[0] in "34" && |s| < 1 + KEY_MESSAGE_SIZE ==> Decoded(s) == Session([], false, [])
    ensures s[0] in "34" && |s| >= 1 + KEY_MESSAGE_SIZE ==>
              var key := CString(s[1..1 + KEY_MESSAGE_SIZE]);
              var r := if s[0] == '3' then Subscribe(key) else Unsubscribe(key);
              Decoded(s) == Onto([r], Decoded(s[1 + KEY_MESSAGE_SIZE..]))
  {
    OntoNone(Decoded(s[1..]));
  }

  /** The key of a request, after its opcode: 1 if it was complete. */
  method ReadKey(pipe: Source, ghost s: string) returns (got: int, key: string)
    requires s != [] && pipe.data == s[1..]
    modifies pipe
    ensures Later(pipe.events, old(pipe.events)) && |pipe.data| < |s|
    ensures got > 0 ==>
              var n := 1 + KEY_MESSAGE_SIZE;
              |s| >= n && key == s[1..n] && pipe.data == s[n..]
    ensures got <= 0 && Quiet(old(pipe.events)) ==> |s| < 1 + KEY_MESSAGE_SIZE && pipe.data == []
  {
    var error;
    got, key, error := pipe.ReadAll(KEY_MESSAGE_SIZE, false);
    assert pipe.data == s[1 + |key|..] && key == s[1..1 + |key|];
  }

  /** manage_request: carries out one request, if there is one, and says whether the
      session has ended, and if so whether the client asked for that. s is the bytes
      from the opcode on. */
  method ManageRequest(pipe: Source, opcode: char, ghost s: string)
    returns (ended: bool, asked: bool, r: Option<Request>)
    requires s != [] && opcode == s[0] && pipe.data == s[1..]
    modifies pipe
    ensures Later(pipe.events, old(pipe.events))
    ensures ended ==> r == None && (asked || Quiet(old(pipe.events)) ==> Decoded(s) == Session([], asked, pipe.data))
    ensures !ended ==> Decoded(s) == Onto(if r == None then [] else [r.value], Decoded(pipe.data))
    ensures |pipe.data| < |s|
  {
    LaterSame(pipe.events);
    FirstRequest(s);
    if opcode == OP_CODE_CONNECT {
      return false, false, None;
    } else if opcode == OP_CODE_DISCONNECT {
      return true, true, None;
    } else if opcode == OP_CODE_SUBSCRIBE {
      var got, key := ReadKey(pipe, s);
      if got <= 0 {
        return true, false, None;
      }
      return false, false, Some(Subscribe(CString(key)));
    } else if opcode == OP_CODE_UNSUBSCRIBE {
      var got, key := ReadKey(pipe, s);
      if got <= 0 {
        return true, false, None;
      }
      return false, false, Some(Unsubscribe(CString(key)));
    } else {
      return true, false, None;
    }
  }

  /** The loop of a worker over one session: the requests it carried out, and whether
      the client asked for the end. Interruptions and failures can only end the
      session early; without any it takes in just what was sent. */
  method ServeSession(pipe: Source) returns (requests: seq<Request>, asked: bool)
    modifies pipe
    ensures requests <= Decoded(old(pipe.data)).requests
    ensures Quiet(old(pipe.events)) ==> Session(requests, asked, pipe.data) == Decoded(old(pipe.data))
  {
    requests := [];
    var intr := false;
    ghost var all := Decoded(pipe.data);
    OntoNone(all);
    LaterSame(pipe.events);
    while true
      invariant all == Onto(requests, Decoded(pipe.data))
      invariant Later(pipe.events, old(pipe.events)) && (intr ==> Interrupted in old(pipe.events))
      decreases |pipe.data|
    {
      ghost var s, events := pipe.data, pipe.events;
      var status, opcode;
      status, opcode, intr := pipe.ReadAll(1, intr);
      LaterEvents(pipe.events, events, old(pipe.events));
      if status != 1 {
        return requests, false;
      }
      events := pipe.events;
      var ended, r;
      ended, asked, r := ManageRequest(pipe, opcode[0], s);
      LaterEvents(pipe.events, events, old(pipe.events));
      if ended {
        return requests, asked;
      }
      OntoMore(requests, if r == None then [] else [r.value], Decoded(pipe.data));
      requests := requests + if r == None then [] else [r.value];
    }
  }

  /** A session that began with some requests. */
  function Onto(rs: seq<Request>, d: Session): Session { d.(requests := rs + d.requests) }

  lemma OntoNone(d: Session)
    ensures Onto([], d) == d
  {
    assert [] + d.requests == d.requests;
  }

  lemma OntoMore(rs: seq<Request>, more: seq<Request>, d: Session)
    ensures Onto(rs, Onto(more, d)) == Onto(rs + more, d)
  {
    assert rs + (more + d.requests) == rs + more + d.requests;
  }
}
