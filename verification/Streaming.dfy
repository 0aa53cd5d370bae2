/** A result set that spans many responses, as the driver's Rows iterator walks
    it (driver/driver.go), with the bytes abstracted away. */
module Streaming {
  import opened Cluster
  import opened Wire
  import opened RowFormat
  import opened ProtocolRows

  /** The part being walked, how many of its rows were returned and how many of
      its marker bytes were read, the parts the server has still to send, and the
      driver's `consumed` flag. */
  datatype Stream = Stream(part: Part, next: nat, eaten: nat, rest: seq<Part>, consumed: bool) {

    /** Exactly the final part carries the final marker, and a result set without
        columns comes in one part without rows. */
    predicate Valid()
    {
      && Sound(part) && (part.last <==> rest == [])
      && (forall i :: 0 <= i < |rest| ==> Sound(rest[i]) && (rest[i].last <==> i == |rest| - 1))
      && next <= |part.rows| && eaten <= 8
      && (eaten > 0 ==> next == |part.rows| && part.columns != [])
      && (eaten > 1 ==> consumed) && (consumed ==> part.last)
    }

    /** The reader still has a byte to look at. */
    predicate Ready() { eaten < 8 }
  }

  predicate Sound(p: Part)
  {
    p.columns == [] ==> p.rows == [] && p.last
  }

  datatype Step = Got(row: seq<Value>) | End | Leak

  /** One call of the driver's Next. After switching to a new part it reads
      only once, so a new part that holds no row shows through. */
  function Next(s: Stream): (Step, Stream)
    requires s.Valid() && s.Ready()
  {
    var p := s.part;
    if p.columns == [] then (End, s.(consumed := true))
    else if s.next < |p.rows| then (Got(SeenAll(p.rows[s.next])), s.(next := s.next + 1))
    else if p.last then (End, s.(eaten := s.eaten + 1, consumed := true))
    else Fetch(s)
  }

  /** The state right after the next part has arrived. */
  function Switched(s: Stream): Stream
    requires s.rest != []
  {
    Stream(s.rest[0], 0, 0, s.rest[1..], s.consumed)
  }

  /** Move on to the next part and read from it once. */
  function Fetch(s: Stream): (Step, Stream)
    requires s.rest != []
  {
    var q, fetched := s.rest[0], Switched(s);
    if q.columns == [] then (End, fetched)
    else if q.rows != [] then (Got(SeenAll(q.rows[0])), fetched.(next := 1))
    else (if q.last then End else Leak, fetched.(eaten := 1))
  }

  lemma NextValid(s: Stream)
    requires s.Valid() && s.Ready()
    ensures Next(s).1.Valid()
  {
  }

  /** The state after n more calls; None if one of them finds no byte to read,
      which makes the getters panic. */
  function Again(s: Stream, n: nat): Option<Stream>
    requires s.Valid()
    decreases n
  {
    if n == 0 then Some(s)
    else if !s.Ready() then None
    else NextValid(s); Again(Next(s).1, n - 1)
  }

  /** At the end of the final part every further call reports the end again and
      eats one of the eight marker bytes; the calls run out of them exactly here.
      A result set without columns never does. */
  lemma {:induction false} CallsAtEnd(s: Stream, n: nat)
    requires s.Valid() && s.part.last && s.next == |s.part.rows|
    ensures Again(s, n) == None <==> s.part.columns != [] && s.eaten + n > 8
    ensures s.Ready() ==> Next(s).0 == End
    decreases n
  {
    if n > 0 && s.Ready() {
      CallsAtEnd(Next(s).1, n - 1);
    }
  }

  /** After the end was reported for the first time, seven more calls are safe and
      the eighth panics. */
  lemma EighthCallPanics(s: Stream, n: nat)
    requires s.Valid() && s.eaten == 0 && Next(s).0 == End && Next(s).1.part.columns != []
    ensures Next(s).1.Valid() && (Again(Next(s).1, n) == None <==> n > 7)
  {
    NextValid(s);
    CallsAtEnd(Next(s).1, n);
  }

  /** All rows not yet returned, in order. */
  function Rows(ps: seq<Part>): seq<seq<Value>>
  {
    if ps == [] then [] else ps[0].rows + Rows(ps[1..])
  }

  function Remaining(s: Stream): seq<seq<Value>>
    requires s.Valid()
  {
    s.part.rows[s.next..] + Rows(s.rest)
  }

  function SeenRows(rows: seq<seq<Value>>): (r: seq<seq<Value>>)
    ensures |r| == |rows|
  {
    seq(|rows|, i requires 0 <= i < |rows| => SeenAll(rows[i]))
  }

  /** A row returned by Next is the first of the remaining ones. */
  lemma NextRow(s: Stream)
    requires s.Valid() && s.Ready()
    ensures Next(s).1.Valid()
    ensures Next(s).0.Got? ==>
              && Next(s).1.Ready() && Remaining(s) != [] && Next(s).0.row == SeenAll(Remaining(s)[0])
              && Remaining(Next(s).1) == Remaining(s)[1..]
    ensures Next(s).0.End? ==> Remaining(s) == []
  {
    NextValid(s);
    if s.part.columns != [] && s.next == |s.part.rows| && !s.part.last {
      FetchedRow(s.part.rows[s.next..], s.rest);
    } else {
      WithinPart(s.part.rows, s.next, Rows(s.rest));
    }
  }

  lemma WithinPart(rows: seq<seq<Value>>, next: nat, later: seq<seq<Value>>)
    requires next <= |rows|
    ensures next < |rows| ==>
              (rows[next..] + later)[0] == rows[next] && (rows[next..] + later)[1..] == rows[next + 1..] + later
  {
  }

  lemma FetchedRow(none: seq<seq<Value>>, rest: seq<Part>)
    requires none == [] && rest != []
    ensures none + Rows(rest) == rest[0].rows + Rows(rest[1..])
    ensures rest[0].rows != [] ==>
              && (none + Rows(rest))[0] == rest[0].rows[0]
              && (none + Rows(rest))[1..] == rest[0].rows[1..] + Rows(rest[1..])
  {
  }

  /** No row holds an empty timestamp. */
  ghost predicate NoEmptyTimes(rows: seq<seq<Value>>)
  {
    forall i :: 0 <= i < |rows| ==> Time([]) !in rows[i]
  }

  lemma SeenRowsAre(rows: seq<seq<Value>>)
    ensures |SeenRows(rows)| == |rows|
    ensures forall i :: 0 <= i < |rows| ==> |SeenRows(rows)[i]| == |rows[i]|
    ensures forall i, j :: 0 <= i < |rows| && 0 <= j < |rows[i]| ==>
              SeenRows(rows)[i][j] == if rows[i][j] == Time([]) then Null else rows[i][j]
    ensures SeenRows(rows) == rows <==> NoEmptyTimes(rows)
  {
    forall i | 0 <= i < |rows|
      ensures |SeenRows(rows)[i]| == |rows[i]| && (SeenRows(rows)[i] == rows[i] <==> Time([]) !in rows[i])
    {
      SeenIs(rows[i]);
    }
  }

  /** Call Next until it returns something other than a row. */
  function Drain(s: Stream): (seq<seq<Value>>, Step)
    requires s.Valid() && s.Ready()
    decreases |Remaining(s)|
  {
    NextRow(s);
    var (step, s') := Next(s);
    if step.Got? then
      var (rows, end) := Drain(s');
      ([step.row] + rows, end)
    else ([], step)
  }

  /** After returning the rows `all` the iterator stands at s. */
  predicate Drained(start: Stream, all: seq<seq<Value>>, s: Stream)
    requires start.Valid() && start.Ready()
  {
    s.Valid() && s.Ready() && Drain(start) == (all + Drain(s).0, Drain(s).1)
  }

  lemma DrainStart(s: Stream)
    requires s.Valid() && s.Ready()
    ensures Drained(s, [], s)
  {
    assert [] + Drain(s).0 == Drain(s).0;
  }

  lemma DrainStep(start: Stream, all: seq<seq<Value>>, s: Stream)
    requires start.Valid() && start.Ready() && Drained(start, all, s)
    ensures var (step, s') := Next(s);
            if step.Got? then Drained(start, all + [step.row], s') && |Remaining(s')| < |Remaining(s)|
            else Drain(start) == (all, step)
  {
    NextRow(s);
    var (step, s') := Next(s);
    if step.Got? {
      assert all + ([step.row] + Drain(s').0) == all + [step.row] + Drain(s').0;
    } else {
      assert all + [] == all;
    }
  }

  /** No part still to come is empty while announcing more. */
  predicate Steady(s: Stream)
  {
    forall i :: 0 <= i < |s.rest| ==> s.rest[i].rows != [] || s.rest[i].last
  }

  /** Streaming correctness: draining the iterator yields exactly the rows of all
      parts, in order, and then the end of the set, if and only if no later part
      is empty while announcing more; such a part surfaces as an error. */
  lemma {:induction false} StreamingIff(s: Stream)
    requires s.Valid() && s.Ready()
    ensures Drain(s) == (SeenRows(Remaining(s)), End) <==> Steady(s)
    decreases |Remaining(s)|
  {
    NextRow(s);
    var (step, s') := Next(s);
    if step.Got? {
      StreamingIff(s');
      SteadyNext(s);
      SeenNext(step.row, Remaining(s), Remaining(s'));
      PairIff(step.row, Drain(s').0, SeenRows(Remaining(s')), Drain(s').1);
    } else if step.End? {
      assert SeenRows(Remaining(s)) == [];
      EndIsSteady(s);
    }
  }

  /** The rows that come out are the rows that were sent, value by value; only an
      empty timestamp comes out as NULL. */
  lemma Delivery(s: Stream)
    requires s.Valid() && s.Ready() && Steady(s)
    ensures Drain(s).1 == End && |Drain(s).0| == |Remaining(s)|
    ensures forall i :: 0 <= i < |Remaining(s)| ==> |Drain(s).0[i]| == |Remaining(s)[i]|
    ensures forall i, j :: 0 <= i < |Remaining(s)| && 0 <= j < |Remaining(s)[i]| ==>
              Drain(s).0[i][j] == if Remaining(s)[i][j] == Time([]) then Null else Remaining(s)[i][j]
    ensures Drain(s).0 == Remaining(s) <==> NoEmptyTimes(Remaining(s))
  {
    StreamingIff(s);
    SeenRowsAre(Remaining(s));
  }

  lemma SeenNext(row: seq<Value>, rows: seq<seq<Value>>, later: seq<seq<Value>>)
    requires rows != [] && row == SeenAll(rows[0]) && later == rows[1..]
    ensures SeenRows(rows) == [row] + SeenRows(later)
  {
  }

  lemma PairIff(row: seq<Value>, a: seq<seq<Value>>, b: seq<seq<Value>>, end: Step)
    ensures ([row] + a, end) == ([row] + b, End) <==> (a, end) == (b, End)
  {
    assert ([row] + a)[1..] == a && ([row] + b)[1..] == b;
  }

  lemma SteadyNext(s: Stream)
    requires s.Valid() && s.Ready() && Next(s).0.Got?
    ensures Steady(s) <==> Steady(Next(s).1)
  {
    var s' := Next(s).1;
    if s'.rest != s.rest {
      assert forall i :: 0 <= i < |s'.rest| ==> s'.rest[i] == s.rest[i + 1];
      assert forall i :: 0 < i < |s.rest| ==> s.rest[i] == s'.rest[i - 1];
    }
  }

  lemma EndIsSteady(s: Stream)
    requires s.Valid() && s.Ready() && Next(s).0.End?
    ensures Steady(s)
  {
  }
}
