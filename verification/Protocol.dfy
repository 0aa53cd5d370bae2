/** Protocol (internal/protocol/protocol.go): sending and receiving messages over
    a connection that may deliver bytes in pieces of any size. */
module Protocols {
  import opened Cluster
  import opened Wire
  import opened Framing
  import opened Messages
  import opened Readers
  import opened Requests

  const MAX_EMPTY_READS: nat := 100

  /** A network connection: the bytes the server has still to deliver, the bytes
      we have sent, and how much each read may return. */
  class Conn {
    var input: Bytes
    var output: Bytes
    const chunks: nat -> nat
    var served: nat

    /** Fill part of [lo, hi) with whatever the network hands over now. */
    method Read(buf: array<U8>, lo: nat, hi: nat) returns (n: nat, ok: bool)
      requires lo < hi <= buf.Length
      modifies this`input, this`served, buf
      ensures served == old(served) + 1
      ensures ok <==> old(input) != []
      ensures n == if ok then Min(chunks(old(served)), Min(hi - lo, |old(input)|)) else 0
      ensures input == old(input)[n..]
      ensures buf[..] == old(buf[..])[..lo] + old(input)[..n] + old(buf[..])[lo + n..]
    {
      n, ok := 0, input != [];
      if ok {
        n := Min(chunks(served), Min(hi - lo, |input|));
        forall i | 0 <= i < n {
          buf[lo + i] := input[i];
        }
        input := input[n..];
      }
      served := served + 1;
    }

    /** Write bytes; the network may cut them short. */
    method Write(data: Bytes) returns (ok: bool)
      modifies this`output
      ensures ok ==> output == old(output) + data
      ensures !ok ==> exists n :: 0 <= n <= |data| && output == old(output) + data[..n]
    {
      var n :| 0 <= n <= |data|;
      ok := n == |data|;
      output := output + data[..n];
    }
  }

  /** From read number i on, one of the next hundred reads delivers something. */
  ghost predicate Flows(chunks: nat -> nat, i: nat)
  {
    exists j :: i <= j < i + 100 && chunks(j) > 0
  }

  /** No hundred consecutive reads come back empty. */
  ghost predicate NeverStalls(chunks: nat -> nat)
  {
    forall i: nat :: Flows(chunks, i)
  }

  /** Try to read something, tolerating a limited number of empty reads. */
  method RecvFill(conn: Conn, buf: array<U8>, lo: nat, hi: nat) returns (n: nat, ok: bool)
    requires lo < hi <= buf.Length
    modifies conn`input, conn`served, buf
    ensures ok <==> old(conn.input) != [] && Flows(conn.chunks, old(conn.served))
    ensures ok ==> 0 < n <= hi - lo && n <= |old(conn.input)|
    ensures !ok ==> n == 0
    ensures conn.input == old(conn.input)[n..]
    ensures buf[..] == old(buf[..])[..lo] + old(conn.input)[..n] + old(buf[..])[lo + n..]
  {
    for i := 0 to MAX_EMPTY_READS
      invariant conn.input == old(conn.input) && buf[..] == old(buf[..])
      invariant conn.served == old(conn.served) + i
      invariant forall j :: old(conn.served) <= j < conn.served ==> conn.chunks(j) == 0
    {
      n, ok := conn.Read(buf, lo, hi);
      if !ok {
        return 0, false;
      }
      if n > 0 {
        return;
      }
    }
    return 0, false;
  }

  /** Read until the first n bytes of the buffer are full. */
  method RecvPeek(conn: Conn, buf: array<U8>, n: nat) returns (ok: bool)
    requires n <= buf.Length
    modifies conn`input, conn`served, buf
    ensures ok ==> n <= |old(conn.input)| && buf[..n] == old(conn.input)[..n] && conn.input == old(conn.input)[n..]
    ensures NeverStalls(conn.chunks) ==> (ok <==> n <= |old(conn.input)|)
  {
    var offset := 0;
    while offset < n
      invariant offset <= n && offset <= |old(conn.input)|
      invariant conn.input == old(conn.input)[offset..] && buf[..offset] == old(conn.input)[..offset]
    {
      var got;
      got, ok := RecvFill(conn, buf, offset, n);
      if !ok {
        assert NeverStalls(conn.chunks) ==> conn.input == [];
        return false;
      }
      assert buf[..offset + got] == old(conn.input)[..offset + got];
      offset := offset + got;
    }
    ok := true;
  }

  /** Grow the receive buffer; its old contents are not kept. */
  method Grow(m: Message, n: nat)
    requires m.Valid() && m.offset == 0
    modifies m`body
    ensures m.Valid() && n <= m.body.Length
    ensures m.body == old(m.body) || fresh(m.body)
  {
    while n > m.body.Length
      invariant m.Valid() && (m.body == old(m.body) || fresh(m.body))
      decreases n - m.body.Length
    {
      m.body := new U8[m.body.Length * 2](_ => 0);
    }
  }

  method RecvHeader(conn: Conn, m: Message) returns (ok: bool)
    requires m.Valid() && m.offset == 0
    modifies conn`input, conn`served, m`words, m`mtype, m`schema, m`extra, m.header
    ensures m.Valid()
    ensures NeverStalls(conn.chunks) ==> (ok <==> 8 <= |old(conn.input)|)
    ensures ok ==>
              && 8 <= |old(conn.input)| && conn.input == old(conn.input)[8..]
              && m.words == Words(old(conn.input)) && m.mtype == old(conn.input)[4] && m.schema == old(conn.input)[5]
              && m.extra == Num(old(conn.input)[6..8])
  {
    ok := RecvPeek(conn, m.header, 8);
    if ok {
      ghost var h := old(conn.input)[..8];
      assert m.header[..] == h;
      assert m.header[0..4] == old(conn.input)[..4] && m.header[6..8] == old(conn.input)[6..8];
      assert m.header[4] == h[4] && m.header[5] == h[5];
      NumBound(m.header[0..4]);
      Pow256Values();
      m.words := Num(m.header[0..4]);
      m.mtype := m.header[4];
      m.schema := m.header[5];
      m.extra := Num(m.header[6..8]);
    }
  }

  /** The frame a received message holds. */
  ghost function Got(m: Message): Frame
    reads m, m.body
    requires 8 * m.words <= m.body.Length
  {
    Frame(m.mtype, m.schema, m.extra, m.body[..8 * m.words])
  }

  /** Receive one message. Each call takes exactly one frame off the stream,
      however it was chopped up, and succeeds if and only if the stream holds a
      whole frame, as long as the connection never stalls. */
  method Recv(conn: Conn, m: Message) returns (ok: bool)
    requires m.Valid()
    modifies conn`input, conn`served, m, m.header, m.body
    ensures m.Valid() && (m.body == old(m.body) || fresh(m.body))
    ensures ok ==> m.offset == 0 && 8 * m.words <= m.body.Length
                   && TakeFrame(old(conn.input)) == Some((Got(m), conn.input))
    ensures NeverStalls(conn.chunks) ==> (ok <==> TakeFrame(old(conn.input)).Some?)
  {
    m.Reset();
    ok := RecvHeader(conn, m);
    if ok {
      var n := m.words * 8;
      ghost var rest := conn.input;
      Grow(m, n);
      ok := RecvPeek(conn, m.body, n);
      if ok {
        Spliced(old(conn.input), n);
      }
    }
  }

  lemma Spliced(input: Bytes, n: nat)
    requires 8 + n <= |input|
    ensures input[8..][..n] == input[8..8 + n] && input[8..][n..] == input[8 + n..]
  {
  }

  /** The getters of a received message see the whole body that was received if
      and only if it is below 2^29 words; they compute its size in 32 bits. */
  lemma ReceivedWholeIff(m: Message)
    requires m.Valid() && m.offset == 0 && 8 * m.words <= m.body.Length
    ensures m.Received() && (m.Body() == Got(m).body <==> m.words < TWO32 / 8)
  {
    SizeReadingsIff(m.words);
    assert |m.Body()| == m.Size() && |Got(m).body| == 8 * m.words;
  }

  /** Framing round trip: frames that were sent back to back are received one by
      one, unchanged, in any chunking that never stalls, and what follows them
      stays in the connection. */
  method RecvSession(conn: Conn, m: Message, ghost fs: seq<Frame>, n: nat, ghost rest: Bytes)
    returns (ghost got: seq<Frame>)
    requires m.Valid() && n == |fs| && AllFramesValid(fs) && NeverStalls(conn.chunks)
    requires conn.input == Flatten(fs) + rest
    modifies conn`input, conn`served, m, m.header, m.body
    ensures m.Valid() && got == fs && conn.input == rest
  {
    got := [];
    for i := 0 to n
      invariant m.Valid() && (m.body == old(m.body) || fresh(m.body))
      invariant got == fs[..i] && conn.input == Flatten(fs[i..]) + rest
    {
      TakeHead(fs[i..], rest);
      assert fs[i..][1..] == fs[i + 1..];
      var ok := Recv(conn, m);
      got := got + [Got(m)];
    }
  }

  method Send(conn: Conn, m: Message) returns (ok: bool)
    requires m.Valid()
    modifies conn`output
    ensures ok ==> conn.output == old(conn.output) + (m.header[..] + m.Written())
  {
    ok := conn.Write(m.header[..]);
    if ok {
      ok := conn.Write(m.body[..m.offset]);
    }
  }

  // ---- Interrupting a query ----

  const RESPONSE_EMPTY: U8 := 8

  /** The answer to an interrupt. */
  const EMPTY: Frame := Frame(8, 0, 0, LE(0, 8))

  /** What the server does on an interrupt request: any whole responses it had
      already written are still delivered, the rest are dropped, and an empty
      response follows. */
  method ServeInterrupt(conn: Conn, ghost sent: Bytes)
    requires exists f, db :: TakeFrame(sent) == Some((f, [])) && ParseRequest(f) == Some(Interrupt(db))
    modifies conn`input
    ensures exists n :: 0 <= n <= |old(conn.input)| && WholeFrames(old(conn.input)[..n])
                        && conn.input == old(conn.input)[..n] + FrameBytes(EMPTY)
  {
    assert WholeFrames(conn.input[..0]);
    var n :| 0 <= n <= |conn.input| && WholeFrames(conn.input[..n]);
    conn.input := conn.input[..n] + FrameBytes(EMPTY);
  }

  lemma InterruptBody(body: Bytes)
    requires Interrupt(0).IsBody(body)
    ensures body == LE(0, 8)
  {
    var parts :| EncodesAll(Interrupt(0).Fields(), parts) && body == Join(parts);
    assert Encodes(Interrupt(0).Fields()[0], Start(0, parts, 0), parts[0]);
    assert parts == [] + [parts[0]];
    JoinSnoc([], parts[0]);
  }

  /** The interrupt request as it goes over the wire. */
  const INTERRUPT: Frame := Frame(10, 0, 0, LE(0, 8))

  datatype Interruption = Interrupted | SendFailed | ReceiveFailed

  ghost predicate NoneEmpty(fs: seq<Frame>)
  {
    AllFramesValid(fs) && forall i :: 0 <= i < |fs| ==> fs[i].mtype != RESPONSE_EMPTY
  }

  /** Send an interrupt and drop responses until the empty one. `pending` are the
      responses to the query that the server would still have produced. On success
      nothing it produced for the query is left in the stream. */
  method InterruptQuery(conn: Conn, request: Message, response: Message, ghost pending: seq<Frame>)
    returns (r: Interruption)
    requires request.Valid() && response.Valid() && request != response
    requires NoneEmpty(pending) && conn.input == Flatten(pending)
    modifies conn, request, request.header, request.body, response, response.header, response.body
    ensures request.Valid() && (request.body == old(request.body) || fresh(request.body))
    ensures response.Valid() && (response.body == old(response.body) || fresh(response.body))
    ensures r == Interrupted ==> conn.input == []
    ensures NeverStalls(conn.chunks) ==> r != ReceiveFailed
    ensures r != SendFailed ==> conn.output == old(conn.output) + FrameBytes(INTERRUPT)
  {
    var ok := SendInterrupt(conn, request);
    if !ok {
      return SendFailed;
    }
    InterruptIsRead();
    ServeInterrupt(conn, FrameBytes(INTERRUPT));
    ghost var left := Kept(pending, conn.input);
    r := DrainToEmpty(conn, response, left);
  }

  method SendInterrupt(conn: Conn, request: Message) returns (ok: bool)
    requires request.Valid()
    modifies conn`output, request, request.header, request.body
    ensures request.Valid() && (request.body == old(request.body) || fresh(request.body))
    ensures ok ==> conn.output == old(conn.output) + FrameBytes(INTERRUPT)
  {
    var encoded := Encode(request, Interrupt(0));
    InterruptBody(request.Written());
    ok := Send(conn, request);
  }

  /** The server recognises the interrupt. */
  lemma InterruptIsRead()
    ensures TakeFrame(FrameBytes(INTERRUPT)) == Some((INTERRUPT, [])) && ParseRequest(INTERRUPT) == Some(Interrupt(0))
  {
    TakeOnly(INTERRUPT);
    assert EncodesAll(Interrupt(0).Fields(), [LE(0, 8)]);
    assert [LE(0, 8)] == [] + [LE(0, 8)];
    JoinSnoc([], LE(0, 8));
    RequestRoundTrip(Interrupt(0), LE(0, 8));
  }

  /** The responses still delivered after an interrupt. */
  lemma Kept(pending: seq<Frame>, input: Bytes) returns (left: seq<Frame>)
    requires NoneEmpty(pending)
    requires exists n :: 0 <= n <= |Flatten(pending)| && WholeFrames(Flatten(pending)[..n])
                         && input == Flatten(pending)[..n] + FrameBytes(EMPTY)
    ensures NoneEmpty(left) && input == Flatten(left) + FrameBytes(EMPTY)
  {
    var n :| 0 <= n <= |Flatten(pending)| && WholeFrames(Flatten(pending)[..n])
             && input == Flatten(pending)[..n] + FrameBytes(EMPTY);
    var k := WholePrefix(pending, n);
    left := pending[..k];
  }

  method DrainToEmpty(conn: Conn, response: Message, ghost pending: seq<Frame>) returns (r: Interruption)
    requires response.Valid() && NoneEmpty(pending) && conn.input == Flatten(pending) + FrameBytes(EMPTY)
    modifies conn`input, conn`served, response, response.header, response.body
    ensures response.Valid() && (response.body == old(response.body) || fresh(response.body))
    ensures r == Interrupted ==> conn.input == []
    ensures r != SendFailed && (NeverStalls(conn.chunks) ==> r == Interrupted)
  {
    ghost var left := pending;
    while true
      invariant response.Valid() && (response.body == old(response.body) || fresh(response.body))
      invariant NoneEmpty(left) && conn.input == Flatten(left) + FrameBytes(EMPTY)
      decreases |left|
    {
      TakeNext(left);
      var ok := Recv(conn, response);
      if !ok {
        return ReceiveFailed;
      }
      if response.mtype == RESPONSE_EMPTY {
        return Interrupted;
      }
      left := left[1..];
    }
  }

  /** What comes off the stream next while it is being drained. */
  lemma TakeNext(left: seq<Frame>)
    requires NoneEmpty(left)
    ensures var input := Flatten(left) + FrameBytes(EMPTY);
            TakeFrame(input) ==
            if left == [] then Some((EMPTY, [])) else Some((left[0], Flatten(left[1..]) + FrameBytes(EMPTY)))
  {
    if left == [] {
      TakeOnly(EMPTY);
      assert Flatten(left) + FrameBytes(EMPTY) == FrameBytes(EMPTY);
    } else {
      TakeHead(left, FrameBytes(EMPTY));
    }
  }
}
