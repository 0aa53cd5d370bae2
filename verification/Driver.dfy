/** The driver's Rows iterator (driver/driver.go) over a live connection: the
    byte-level code behind the Streaming model. */
module Driver {
  import opened Cluster
  import opened Wire
  import opened Framing
  import opened Messages
  import opened Readers
  import opened RowFormat
  import opened ProtocolRows
  import opened Protocols
  import opened Requests
  import S = Streaming

  /** A part together with its bytes and the offsets of its rows. */
  datatype Response = Response(part: Part, body: Bytes, starts: seq<nat>) {

    /** The bytes are the encoding of the part, and short enough for the 32-bit
        size arithmetic of the readers. */
    ghost predicate Laid()
    {
      && part.Valid() && body == part.Body() && |body| < TWO32
      && |starts| == |part.rows| + 1 && forall i :: 0 <= i < |starts| ==> starts[i] == part.RowAt(i)
    }
  }

  ghost predicate AllLaid(rs: seq<Response>)
  {
    forall i {:trigger rs[i].Laid()} :: 0 <= i < |rs| ==> rs[i].Laid()
  }

  function Frames(rs: seq<Response>): (fs: seq<Frame>)
    ensures |fs| == |rs|
  {
    seq(|rs|, i requires 0 <= i < |rs| => Frame(7, 0, 0, rs[i].body))
  }

  /** The responses carry the parts of the stream. */
  ghost predicate Carries(rs: seq<Response>, s: S.Stream)
  {
    && |rs| == |s.rest| + 1 && rs[0].part == s.part
    && forall i :: 0 <= i < |s.rest| ==> rs[i + 1].part == s.rest[i]
  }

  /** Position in the current response that corresponds to a stream state. */
  function Position(r: Response, s: S.Stream): nat
  {
    (if s.next < |r.starts| then r.starts[s.next] else 0) + s.eaten
  }

  /** What the reader finds there. */
  function Ahead(r: Response, s: S.Stream): RowResult
  {
    if s.part.columns == [] then Stop(DONE, Position(r, s))
    else if s.next < |s.part.rows| then RowResult.Row(s.part.rows[s.next], Position(r, s.(next := s.next + 1)))
    else Stop(s.part.Mark(), Position(r, s) + 1)
  }

  lemma LaidRow(r: Response, i: nat, at: nat)
    requires r.Laid() && i < |r.part.rows| && at == r.starts[i]
    ensures ReadRow(r.body, at, |r.part.columns|) == RowResult.Row(r.part.rows[i], r.starts[i + 1])
  {
    PartRow(r.part, i);
  }

  lemma LaidMark(r: Response, t: nat, at: nat)
    requires r.Laid() && r.part.columns != [] && t < 8 && at == r.starts[|r.part.rows|] + t
    ensures ReadRow(r.body, at, |r.part.columns|) == Stop(r.part.Mark(), at + 1)
  {
    PartMark(r.part, t, at);
  }

  lemma NoColumns(body: Bytes, at: nat)
    ensures ReadRow(body, at, 0) == Stop(DONE, at)
  {
  }

  /** The reader finds, at every position, what the part holds there. */
  lemma AtPosition(r: Response, s: S.Stream)
    requires r.Laid() && r.part == s.part && s.Valid() && s.Ready()
    ensures ReadRow(r.body, Position(r, s), |s.part.columns|) == Ahead(r, s)
  {
    ReadsAhead(r, r.part, s.next, s.eaten, Position(r, s), Ahead(r, s));
  }

  lemma ReadsAhead(r: Response, p: Part, next: nat, eaten: nat, at: nat, ahead: RowResult)
    requires r.Laid() && p == r.part && next <= |p.rows| && at == r.starts[next] + eaten
    requires eaten < 8 && (next < |p.rows| ==> eaten == 0)
    requires p.columns == [] ==> ahead == Stop(DONE, at)
    requires p.columns != [] && next < |p.rows| ==> ahead == RowResult.Row(p.rows[next], r.starts[next + 1])
    requires p.columns != [] && next == |p.rows| ==> ahead == Stop(p.Mark(), at + 1)
    ensures ReadRow(r.body, at, |p.columns|) == ahead
  {
    if p.columns == [] {
      NoColumns(r.body, at);
    } else if next < |p.rows| {
      LaidRow(r, next, at);
    } else {
      LaidMark(r, eaten, at);
    }
  }

  /** Does the next step leave the current part? */
  predicate Exhausted(s: S.Stream)
  {
    s.part.columns != [] && s.next == |s.part.rows| && !s.part.last
  }

  /** Within a part, the abstract step and the reader agree. */
  lemma StepInPart(r: Response, s: S.Stream)
    requires s.Valid() && s.Ready()
    ensures Ahead(r, s) != Malformed && (Ahead(r, s).Stop? ==> Ahead(r, s).mark == PART || Ahead(r, s).mark == DONE)
    ensures Exhausted(s) <==> Ahead(r, s).Stop? && Ahead(r, s).mark == PART
    ensures !Exhausted(s) ==>
              var (step, s') := S.Next(s);
              && s'.Valid() && s'.part == s.part && s'.rest == s.rest && Position(r, s') == Ahead(r, s).end
              && step == (if Ahead(r, s).Row? then S.Got(SeenAll(Ahead(r, s).values)) else S.End)
              && s'.consumed == (s.consumed || Ahead(r, s).Stop?)
  {
    S.NextValid(s);
  }

  /** The first read from a part that has just arrived. */
  lemma FirstStep(r: Response, s: S.Stream)
    requires s.Valid() && s.rest != []
    ensures var (step, s') := S.Fetch(s);
            var ahead := Ahead(r, S.Switched(s));
            && S.Switched(s).Valid() && s'.Valid() && s'.part == s.rest[0] && s'.rest == s.rest[1..]
            && Position(r, s') == ahead.end && s'.consumed == s.consumed && ahead != Malformed
            && step == (if ahead.Row? then S.Got(SeenAll(ahead.values))
                        else if ahead.mark == DONE then S.End else S.Leak)
            && (ahead.Stop? ==> ahead.mark == PART || ahead.mark == DONE)
  {
  }

  datatype NextResult = Row(values: seq<Value>) | EndOfRows | PartLeaked | NetworkError
  datatype CloseResult = Closed | NotSent | NotReceived

  function ResultOf(step: S.Step): NextResult
  {
    match step
    case Got(row) => NextResult.Row(row)
    case End => EndOfRows
    case Leak => PartLeaked
  }

  /** Receive the next of the pending responses. */
  method ReceiveFrame(conn: Conn, response: Message, ghost rs: seq<Response>) returns (ok: bool)
    requires response.Valid() && rs != [] && AllLaid(rs) && conn.input == Flatten(Frames(rs))
    modifies conn`input, conn`served, response, response.header, response.body
    ensures NeverStalls(conn.chunks) ==> ok
    ensures response.Valid() && (response.body == old(response.body) || fresh(response.body))
    ensures ok ==> response.offset == 0 && 8 * response.words <= response.body.Length
    ensures ok ==> Got(response) == Frame(7, 0, 0, rs[0].body) && conn.input == Flatten(Frames(rs[1..]))
  {
    NextFrame(rs);
    ok := Recv(conn, response);
  }

  /** Decode a response that has just been received. */
  method DecodePart(response: Message, ghost r: Response) returns (decoded: Rows)
    requires r.Laid() && response.Valid() && response.offset == 0
    requires 8 * response.words <= response.body.Length && Got(response) == Frame(7, 0, 0, r.body)
    modifies response`offset
    ensures fresh(decoded) && decoded.Valid() && decoded.types == None && decoded.message == response
    ensures decoded.columns == r.part.columns && response.Received()
    ensures response.Body() == r.body && response.offset == r.starts[0]
  {
    assert response.words < TWO32 / 8;
    ReceivedWholeIff(response);
    PartColumns(r.part);
    var d := DecodeRows(response);
    decoded := d.rows;
  }

  method ReceiveRows(conn: Conn, response: Message, ghost rs: seq<Response>) returns (decoded: Option<Rows>)
    requires response.Valid() && rs != [] && AllLaid(rs) && conn.input == Flatten(Frames(rs))
    modifies conn`input, conn`served, response, response.header, response.body
    ensures NeverStalls(conn.chunks) ==> decoded.Some?
    ensures response.body == old(response.body) || fresh(response.body)
    ensures decoded.Some? ==>
              && fresh(decoded.value) && decoded.value.Valid() && decoded.value.types == None
              && decoded.value.message == response && decoded.value.columns == rs[0].part.columns
              && response.Received() && response.Body() == rs[0].body && response.offset == FirstStart(rs[0])
              && conn.input == Flatten(Frames(rs[1..]))
  {
    var ok := ReceiveFrame(conn, response, rs);
    if !ok {
      return None;
    }
    assert rs[0].Laid();
    var rows := DecodePart(response, rs[0]);
    decoded := Some(rows);
  }

  function FirstStart(r: Response): nat { if r.starts == [] then 0 else r.starts[0] }

  class DriverRows {
    const conn: Conn
    const request: Message
    const response: Message
    var rows: Rows
    var consumed: bool
    ghost var stream: S.Stream
    ghost var responses: seq<Response>

    /** The messages and the iterator are in order. */
    ghost predicate Ready()
      reads this, request, response, rows
    {
      request.Valid() && request != response && rows.message == response && rows.Valid()
    }

    /** The server's side: what it has sent and has still to send. */
    ghost predicate Served()
      reads this, conn
    {
      && stream.Valid() && consumed == stream.consumed
      && Carries(responses, stream) && AllLaid(responses)
      && conn.input == Flatten(Frames(responses[1..]))
    }

    /** The response holds the current part, read up to the stream's position. */
    ghost predicate Valid()
      reads this, conn, request, response, response.body, rows
    {
      && Ready() && Served()
      && rows.columns == stream.part.columns && (rows.types == None ==> stream.eaten == 0)
      && response.Received() && response.Body() == responses[0].body
      && response.offset == Position(responses[0], stream)
    }

    /** After a query whose first response has been received and decoded. */
    constructor (conn: Conn, request: Message, response: Message, rows: Rows,
                 ghost stream: S.Stream, ghost responses: seq<Response>)
      requires request.Valid() && request != response
      requires rows.message == response && rows.Valid() && rows.columns == stream.part.columns && rows.types == None
      requires stream.Valid() && stream.next == 0 && stream.eaten == 0 && !stream.consumed
      requires Carries(responses, stream) && AllLaid(responses) && conn.input == Flatten(Frames(responses[1..]))
      requires response.Received() && response.Body() == responses[0].body
      requires response.offset == Position(responses[0], stream)
      ensures Valid() && this.stream == stream && this.conn == conn && this.rows == rows
      ensures this.request == request && this.response == response
    {
      this.conn, this.request, this.response, this.rows, this.consumed := conn, request, response, rows, false;
      this.stream, this.responses := stream, responses;
    }

    /** Peeking at the column types never moves the stream and never runs into the
        end of the message. */
    method ColumnTypes() returns (kinds: Option<seq<string>>)
      requires Valid()
      modifies rows`types, response`offset
      ensures Valid() && stream == old(stream) && response.offset == old(response.offset)
    {
      if rows.types == None && stream.part.columns != [] {
        PeekFitsAt(responses[0], stream);
      }
      var err;
      kinds, err := rows.ColumnTypes();
    }

    /** Read once from a response that is walked as the stream tells. */
    method ReadOnce(ghost r: Response, ghost s: S.Stream, ghost ahead: RowResult)
      returns (dest: seq<Value>, err: Status)
      requires rows.message == response && rows.Valid() && rows.columns == s.part.columns
      requires response.Received() && response.Body() == r.body && response.offset == Position(r, s)
      requires r.Laid() && r.part == s.part && s.Valid() && s.Ready() && ahead == Ahead(r, s)
      modifies rows`types, response`offset
      ensures rows.Valid() && rows.types.Some? && response.Received() && response.Body() == r.body
      ensures response.offset == ahead.end
      ensures ahead.Row? ==> err == Ok && dest == SeenAll(ahead.values)
      ensures ahead.Stop? ==> err == StatusOf(ahead.mark)
    {
      AtPosition(r, s);
      dest, err := rows.Next();
    }

    /** Next, as long as the current response lasts. */
    method NextInPart() returns (dest: seq<Value>, err: Status)
      requires Valid() && stream.Ready()
      modifies this`consumed, this`stream, rows`types, response`offset
      ensures Exhausted(old(stream)) <==> err == RowsPart
      ensures err == RowsPart ==> Ready() && Served() && stream == old(stream) && response.Received()
      ensures err != RowsPart ==>
                && Valid() && stream == S.Next(old(stream)).1
                && S.Next(old(stream)).0 == (if err == EOF then S.End else S.Got(dest))
    {
      ghost var r, s := responses[0], stream;
      StepInPart(r, s);
      dest, err := ReadOnce(r, s, Ahead(r, s));
      if err == RowsPart {
        return;
      }
      MoveTo(S.Next(s).1, consumed || err == EOF);
    }

    /** Take note of a move within the current response. */
    method MoveTo(ghost to: S.Stream, done: bool)
      requires Ready() && Served() && rows.columns == stream.part.columns && rows.types.Some?
      requires response.Received() && response.Body() == responses[0].body
      requires response.offset == Position(responses[0], to)
      requires to.Valid() && to.part == stream.part && to.rest == stream.rest && done == to.consumed
      modifies this`consumed, this`stream
      ensures Valid() && stream == to
    {
      stream, consumed := to, done;
    }

    /** The next row of the result set, moving to the next response if needed. */
    method Next() returns (r: NextResult)
      requires Valid() && stream.Ready()
      modifies this`rows, this`consumed, this`stream, this`responses, rows`types,
               conn, response, response.header, response.body
      ensures NeverStalls(conn.chunks) ==> r != NetworkError
      ensures r != NetworkError ==>
                Valid() && r == ResultOf(S.Next(old(stream)).0) && stream == S.Next(old(stream)).1
      ensures r != NetworkError ==> rows == old(rows) || fresh(rows)
      ensures response.body == old(response.body) || fresh(response.body)
    {
      var dest, err := NextInPart();
      if err == RowsPart {
        r := NextPart();
      } else {
        r := if err == EOF then EndOfRows else NextResult.Row(dest);
      }
    }

    /** The rest of Next once the current response is exhausted. */
    method NextPart() returns (r: NextResult)
      requires Ready() && Served() && stream.rest != [] && response.Received()
      modifies this`rows, this`consumed, this`stream, this`responses, conn, response, response.header, response.body
      ensures NeverStalls(conn.chunks) ==> r != NetworkError
      ensures r != NetworkError ==>
                Valid() && r == ResultOf(S.Fetch(old(stream)).0) && stream == S.Fetch(old(stream)).1 && fresh(rows)
      ensures response.body == old(response.body) || fresh(response.body)
    {
      var left := rows.Close();
      var ok := ReceivePart();
      if !ok {
        return NetworkError;
      }
      r := FirstOfPart(old(stream));
    }

    /** Receive and decode the next response. */
    method ReceivePart() returns (ok: bool)
      requires Ready() && Served() && stream.rest != [] && response.Valid()
      modifies this`rows, this`stream, this`responses, conn, response, response.header, response.body
      ensures NeverStalls(conn.chunks) ==> ok
      ensures ok ==> Valid() && fresh(rows) && stream == S.Switched(old(stream))
      ensures response.body == old(response.body) || fresh(response.body)
    {
      ghost var later := responses[1..];
      SwitchedCarries(responses, stream);
      var decoded := ReceiveRows(conn, response, later);
      ok := decoded.Some?;
      if ok {
        rows, stream, responses := decoded.value, S.Switched(stream), later;
      }
    }

    /** Read once from a response that has just arrived. */
    method FirstOfPart(ghost before: S.Stream) returns (r: NextResult)
      requires before.Valid() && before.rest != []
      requires Valid() && stream == S.Switched(before)
      modifies this`consumed, this`stream, rows`types, response`offset
      ensures Valid() && r == ResultOf(S.Fetch(before).0) && stream == S.Fetch(before).1
    {
      ghost var q := responses[0];
      FirstStep(q, before);
      var dest, err := ReadOnce(q, stream, Ahead(q, stream));
      MoveTo(S.Fetch(before).1, consumed);
      r := if err == Ok then NextResult.Row(dest) else if err == EOF then EndOfRows else PartLeaked;
    }

    /** Give up the result set. An interrupt goes out if and only if the server has
        more to send, and on success nothing it sent for this query is left in the
        connection, so that the next response belongs to the next request. */
    method Close() returns (r: CloseResult)
      requires Valid()
      modifies conn, request, request.header, request.body, response, response.header, response.body
      ensures request.Valid() && (request.body == old(request.body) || fresh(request.body))
      ensures response.Valid() && (response.body == old(response.body) || fresh(response.body))
      ensures r == Closed ==> conn.input == []
      ensures old(stream.part.last) ==> r == Closed && conn.output == old(conn.output)
      ensures !old(stream.part.last) && r != NotSent ==> conn.output == old(conn.output) + FrameBytes(INTERRUPT)
      ensures NeverStalls(conn.chunks) ==> r != NotReceived
    {
      CloseMark(responses[0], stream);
      PendingFrames(responses[1..]);
      var err := rows.Close();
      r := Settle(err, stream.part.last, Frames(responses[1..]));
    }

    /** The rest of Close: decide whether to interrupt. */
    method Settle(err: Status, ghost last: bool, ghost pending: seq<Frame>) returns (r: CloseResult)
      requires request.Valid() && response.Valid() && request != response
      requires NoneEmpty(pending) && conn.input == Flatten(pending) && (last ==> conn.input == [])
      requires (consumed ==> last) && (!consumed ==> err == (if last then EOF else RowsPart))
      modifies conn, request, request.header, request.body, response, response.header, response.body
      ensures request.Valid() && (request.body == old(request.body) || fresh(request.body))
      ensures response.Valid() && (response.body == old(response.body) || fresh(response.body))
      ensures r == Closed ==> conn.input == []
      ensures last ==> r == Closed && conn.output == old(conn.output)
      ensures !last && r != NotSent ==> conn.output == old(conn.output) + FrameBytes(INTERRUPT)
      ensures NeverStalls(conn.chunks) ==> r != NotReceived
    {
      if consumed || err == EOF {
        return Closed;
      }
      var i := InterruptQuery(conn, request, response, pending);
      r := match i case Interrupted => Closed case SendFailed => NotSent case ReceiveFailed => NotReceived;
    }
  }

  /** Receive the first response to a query and set up its iterator. */
  method Open(conn: Conn, request: Message, response: Message, ghost parts: seq<Part>, ghost responses: seq<Response>)
    returns (rows: Option<DriverRows>)
    requires request.Valid() && response.Valid() && request != response
    requires parts != [] && Initial(parts).Valid() && Carries(responses, Initial(parts)) && AllLaid(responses)
    requires conn.input == Flatten(Frames(responses))
    modifies conn`input, conn`served, response, response.header, response.body
    ensures NeverStalls(conn.chunks) ==> rows.Some?
    ensures response.body == old(response.body) || fresh(response.body)
    ensures rows.Some? ==>
              && fresh(rows.value) && fresh(rows.value.rows) && rows.value.Valid()
              && rows.value.stream == Initial(parts)
              && rows.value.conn == conn && rows.value.request == request && rows.value.response == response
  {
    ghost var s := Initial(parts);
    var first := ReceiveRows(conn, response, responses);
    if first == None {
      return None;
    }
    var started := new DriverRows(conn, request, response, first.value, s, responses);
    rows := Some(started);
  }

  /** The stream of a query whose result set comes in the given parts. */
  function Initial(parts: seq<Part>): S.Stream
    requires parts != []
  {
    S.Stream(parts[0], 0, 0, parts[1..], false)
  }

  /** Walk a result set to its end, over a connection that never stalls: the rows
      that come out are those that the Streaming model computes. */
  method ReadAll(rows: DriverRows) returns (all: seq<seq<Value>>, last: NextResult)
    requires rows.Valid() && rows.stream.Ready() && NeverStalls(rows.conn.chunks)
    modifies rows`rows, rows`consumed, rows`stream, rows`responses, rows.rows`types,
             rows.conn, rows.response, rows.response.header, rows.response.body
    ensures rows.Valid() && all == S.Drain(old(rows.stream)).0 && last == ResultOf(S.Drain(old(rows.stream)).1)
  {
    all := [];
    ghost var start := rows.stream;
    S.DrainStart(start);
    while true
      invariant rows.Valid() && NeverStalls(rows.conn.chunks)
      invariant rows.rows == old(rows.rows) || fresh(rows.rows)
      invariant rows.response.body == old(rows.response.body) || fresh(rows.response.body)
      invariant S.Drained(start, all, rows.stream)
      decreases |S.Remaining(rows.stream)|
    {
      last := Advance(rows, start, all);
      if !last.Row? {
        return;
      }
      all := all + [last.values];
    }
  }

  /** One call of Next, on the way through a result set. */
  method Advance(rows: DriverRows, ghost start: S.Stream, ghost all: seq<seq<Value>>) returns (r: NextResult)
    requires rows.Valid() && NeverStalls(rows.conn.chunks)
    requires start.Valid() && start.Ready() && S.Drained(start, all, rows.stream)
    modifies rows`rows, rows`consumed, rows`stream, rows`responses, rows.rows`types,
             rows.conn, rows.response, rows.response.header, rows.response.body
    ensures rows.Valid() && r != NetworkError
    ensures rows.rows == old(rows.rows) || fresh(rows.rows)
    ensures rows.response.body == old(rows.response.body) || fresh(rows.response.body)
    ensures if r.Row? then S.Drained(start, all + [r.values], rows.stream)
                           && |S.Remaining(rows.stream)| < |S.Remaining(old(rows.stream))|
            else S.Drain(start).0 == all && r == ResultOf(S.Drain(start).1)
  {
    S.DrainStep(start, all, rows.stream);
    r := rows.Next();
  }

  /** What the server does on a query: it answers with the given responses. */
  method ServeQuery(conn: Conn, ghost sent: Bytes, ghost query: Request, responses: seq<Response>)
    requires exists f :: TakeFrame(sent) == Some((f, [])) && ParseRequest(f) == Some(query)
    modifies conn`input
    ensures conn.input == old(conn.input) + Flatten(Frames(responses))
  {
    conn.input := conn.input + Flatten(Frames(responses));
  }

  /** A query that the encoder does not cut short. */
  ghost predicate Askable(query: Request)
  {
    && (query.Query? || query.QuerySQL?) && query.Valid() && query.Clean()
    && forall body :: query.IsBody(body) ==> |body| < TWO32
  }

  /** Send a query on a connection that holds nothing else, and open its rows. */
  method Query(conn: Conn, request: Message, response: Message, query: Request,
               ghost parts: seq<Part>, responses: seq<Response>)
    returns (rows: Option<DriverRows>)
    requires request.Valid() && response.Valid() && request != response && conn.input == [] && Askable(query)
    requires parts != [] && Initial(parts).Valid() && Carries(responses, Initial(parts)) && AllLaid(responses)
    modifies conn, request, request.header, request.body, response, response.header, response.body
    ensures response.body == old(response.body) || fresh(response.body)
    ensures rows.Some? ==>
              && fresh(rows.value) && fresh(rows.value.rows) && rows.value.Valid()
              && rows.value.stream == Initial(parts)
              && rows.value.conn == conn && rows.value.request == request && rows.value.response == response
  {
    ghost var sent;
    var ok;
    ok, sent := SendQuery(conn, request, query);
    if !ok {
      return None;
    }
    ServeQuery(conn, sent, query, responses);
    assert [] + Flatten(Frames(responses)) == Flatten(Frames(responses));
    rows := Open(conn, request, response, parts, responses);
  }

  method SendQuery(conn: Conn, request: Message, query: Request) returns (ok: bool, ghost sent: Bytes)
    requires request.Valid() && Askable(query)
    modifies conn`output, request, request.header, request.body
    ensures request.Valid()
    ensures ok ==> conn.output == old(conn.output) + sent
    ensures ok ==> exists f :: TakeFrame(sent) == Some((f, [])) && ParseRequest(f) == Some(query)
  {
    sent := [];
    ok := Encode(request, query);
    if ok {
      sent := request.header[..] + request.Written();
      SentRequestIsRead(query, request.Written(), []);
      assert sent + [] == sent;
      ok := Send(conn, request);
    }
  }

  /** Two queries on one connection: wherever the first result set is given up, the
      second is read from its first row to its end. */
  method QueryAgain(first: DriverRows, query: Request, ghost parts: seq<Part>, responses: seq<Response>)
    returns (ok: bool, all: seq<seq<Value>>, last: NextResult)
    requires first.Valid() && NeverStalls(first.conn.chunks) && Askable(query)
    requires parts != [] && Initial(parts).Valid() && Carries(responses, Initial(parts)) && AllLaid(responses)
    modifies first.conn, first.request, first.request.header, first.request.body,
             first.response, first.response.header, first.response.body
    ensures ok ==> all == S.Drain(Initial(parts)).0 && last == ResultOf(S.Drain(Initial(parts)).1)
    ensures ok && S.Steady(Initial(parts)) ==> all == S.SeenRows(S.Rows(parts)) && last == EndOfRows
    ensures ok && S.Steady(Initial(parts)) && S.NoEmptyTimes(S.Rows(parts)) ==>
              all == S.Rows(parts) && last == EndOfRows
  {
    all, last := [], EndOfRows;
    var closed := first.Close();
    if closed != Closed {
      return false, [], EndOfRows;
    }
    var second := Query(first.conn, first.request, first.response, query, parts, responses);
    if second == None {
      return false, [], EndOfRows;
    }
    ok := true;
    all, last := ReadAll(second.value);
    S.StreamingIff(Initial(parts));
    S.SeenRowsAre(S.Rows(parts));
    assert parts[0].rows[0..] == parts[0].rows;
  }

  /** The reader finds nothing exactly when all eight marker bytes are eaten; the
      getters panic then. */
  lemma NothingAheadIff(r: Response, s: S.Stream)
    requires r.Laid() && r.part == s.part && s.Valid()
    ensures ReadRow(r.body, Position(r, s), |s.part.columns|) == Malformed <==> !s.Ready()
  {
    if s.Ready() {
      AtPosition(r, s);
    } else {
      PartLayout(r.part);
      NothingAtEnd(r.body, Position(r, s), |s.part.columns|);
    }
  }

  lemma NothingAtEnd(body: Bytes, at: nat, n: nat)
    requires at == |body| && n > 0
    ensures ReadRow(body, at, n) == Malformed
  {
    assert HeaderSize(n) >= 8;
  }

  lemma FramesValid(rs: seq<Response>)
    requires AllLaid(rs)
    ensures AllFramesValid(Frames(rs))
  {
    forall i | 0 <= i < |rs| ensures Frames(rs)[i].Valid() {
      assert rs[i].Laid();
      PartAligned(rs[i].part);
    }
  }

  /** The next response on the connection is the next part. */
  lemma NextFrame(rs: seq<Response>)
    requires rs != [] && AllLaid(rs)
    ensures TakeFrame(Flatten(Frames(rs))) == Some((Frame(7, 0, 0, rs[0].body), Flatten(Frames(rs[1..]))))
  {
    FramesValid(rs);
    var fs := Frames(rs);
    assert fs[1..] == Frames(rs[1..]);
    TakeHead(fs, []);
    assert Flatten(fs) + [] == Flatten(fs) && Flatten(fs[1..]) + [] == Flatten(fs[1..]);
  }

  lemma SwitchedCarries(rs: seq<Response>, s: S.Stream)
    requires s.Valid() && s.rest != [] && Carries(rs, s) && AllLaid(rs)
    ensures S.Switched(s).Valid() && Carries(rs[1..], S.Switched(s)) && AllLaid(rs[1..])
    ensures rs[1].Laid()
  {
    forall i | 0 <= i < |rs[1..]| ensures rs[1..][i].Laid() {
      assert rs[i + 1].Laid();
    }
  }

  lemma PendingFrames(rs: seq<Response>)
    requires AllLaid(rs)
    ensures NoneEmpty(Frames(rs)) && (rs == [] ==> Flatten(Frames(rs)) == [])
  {
    FramesValid(rs);
  }

  /** What Close can tell from the response it gives up. */
  lemma CloseMark(r: Response, s: S.Stream)
    requires r.Laid() && r.part == s.part && s.Valid()
    ensures |r.body| >= 8 && StatusOf(r.body[|r.body| - 1]) == (if s.part.last then EOF else RowsPart)
    ensures !s.consumed ==> Position(r, s) < |r.body|
  {
    PartLastByte(r.part);
    PartLayout(r.part);
    StartBound(8 + |Join(r.part.ColumnParts())|, r.part.RowParts(), s.next);
    assert r.part.RowParts()[..|r.part.rows|] == r.part.RowParts();
  }

  /** Wherever types have not been seen yet, a whole header or a marker lies ahead
      with at least one more byte behind it. */
  lemma PeekFitsAt(r: Response, s: S.Stream)
    requires r.Laid() && r.part == s.part && s.Valid() && s.eaten == 0 && s.part.columns != []
    ensures ScanFits(r.body, Position(r, s), |s.part.columns|)
  {
    PeekFits(r.part, s.next, Position(r, s));
  }
}
