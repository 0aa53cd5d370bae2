/** Rows (internal/protocol/message.go): stepping through the rows encoded in one
    response, peeking at the column types, and closing. */
module ProtocolRows {
  import opened Cluster
  import opened Wire
  import opened Messages
  import opened Readers
  import opened Params
  import opened RowFormat
  import Responses

  datatype Status = Ok | RowsPart | EOF | Unexpected

  function StatusOf(mark: U8): Status
  {
    if mark == PART then RowsPart else if mark == DONE then EOF else Unexpected
  }

  /** An empty timestamp is delivered as NULL. */
  function Seen(v: Value): Value
  {
    if v == Time([]) then Null else v
  }

  function SeenAll(vs: seq<Value>): (r: seq<Value>)
    ensures |r| == |vs|
  {
    seq(|vs|, i requires 0 <= i < |vs| => Seen(vs[i]))
  }

  /** Every value is delivered as it is, but for the empty timestamp. */
  lemma SeenIs(vs: seq<Value>)
    ensures |SeenAll(vs)| == |vs|
    ensures forall i :: 0 <= i < |vs| ==> SeenAll(vs)[i] == if vs[i] == Time([]) then Null else vs[i]
    ensures SeenAll(vs) == vs <==> Time([]) !in vs
  {
    if SeenAll(vs) == vs {
      forall i | 0 <= i < |vs| ensures vs[i] != Time([]) {
        assert SeenAll(vs)[i] == vs[i];
      }
    }
  }

  class Rows {
    const columns: seq<Bytes>
    const message: Message
    var types: Option<seq<U8>>

    ghost predicate Valid()
      reads this
    {
      types.Some? ==> |types.value| == |columns|
    }

    constructor (columns: seq<Bytes>, message: Message)
      ensures Valid() && this.columns == columns && this.message == message && types == None
    {
      this.columns, this.message, types := columns, message, None;
    }

    /** The row ahead can be scanned: a marker or a whole header comes before the
        body ends. */
    ghost predicate Scannable()
      reads this, message, message.body
    {
      message.Received() &&
      (columns == [] || Stopped(message.Body(), message.offset, |columns|)
       || message.offset + HeaderSize(|columns|) <= message.Size())
    }

    /** Position after the scan. */
    ghost function Scanned(): nat
      reads this, message, message.body
      requires Scannable()
    {
      var body, off := message.Body(), message.offset;
      if columns == [] then off
      else if Stopped(body, off, |columns|) then RowFormat.ScanEnd(body, off, |columns|) + 1
      else off + HeaderSize(|columns|)
    }

    /** Column types of the row ahead. With `save`, remembered types are reused
        and the position in the message is kept; going back asks for a byte
        beyond what was read. */
    method ColumnCodes(save: bool) returns (codes: seq<U8>, err: Status)
      requires Valid() && message.Received()
      requires !(save && types.Some?) ==> Scannable() && (save && columns != [] ==> Scanned() < message.Size())
      modifies this`types, message`offset
      ensures Valid() && types == Some(codes) && |codes| == |columns|
      ensures message.Received()
      ensures save ==> message.offset == old(message.offset)
      ensures save && old(types).Some? ==> codes == old(types).value && err == Ok
      ensures !save ==> message.offset == old(Scanned())
      ensures !(save && old(types).Some?) ==>
                var body, off, n := message.Body(), old(message.offset), |columns|;
                if n == 0 then err == EOF
                else if Stopped(body, off, n) then err == StatusOf(body[RowFormat.ScanEnd(body, off, n)])
                else err == Ok && codes == Nibbles(body, off, n)
    {
      if save && types.Some? {
        return types.value, Ok;
      }
      if types == None {
        types := Some(seq(|columns|, _ => 0));
      }
      if |types.value| == 0 {
        return types.value, EOF;
      }
      var start := message.offset;
      var mark;
      codes, mark := ScanHeader(message, types.value);
      if save {
        message.offset := start;
      }
      types := Some(codes);
      err := if mark == None then Ok else if mark.value == PART then RowsPart else EOF;
    }

    /** The next row, or the reason why there is none in this response. */
    method Next() returns (dest: seq<Value>, err: Status)
      requires Valid() && message.Received()
      requires ReadRow(message.Body(), message.offset, |columns|) != Malformed
      modifies this`types, message`offset
      ensures Valid() && message.Received() && types.Some?
      ensures match ReadRow(message.Body(), old(message.offset), |columns|)
              case Row(vs, end) =>
                && err == Ok && dest == SeenAll(vs) && message.offset == end
                && forall i :: 0 <= i < |vs| ==> dest[i] == if vs[i] == Time([]) then Null else vs[i]
              case Stop(mark, end) => err == StatusOf(mark) && dest == [] && message.offset == end
              case Malformed => false
    {
      var codes;
      codes, err := ColumnCodes(false);
      if err != Ok {
        return [], err;
      }
      ghost var vs;
      dest, vs := GetValues(message, codes);
      SeenIs(vs);
    }

    /** Type names of the columns; None if a code has no name. */
    method ColumnTypes() returns (kinds: Option<seq<string>>, err: Status)
      requires Valid() && message.Received()
      requires types == None ==> Scannable() && (columns != [] ==> Scanned() < message.Size())
      modifies this`types, message`offset
      ensures Valid() && message.Received() && types.Some? && message.offset == old(message.offset)
      ensures old(types).Some? ==> types == old(types) && err == Ok
      ensures old(types) == None && columns != [] && !Stopped(message.Body(), message.offset, |columns|) ==>
                types.value == Nibbles(message.Body(), message.offset, |columns|) && err == Ok
      ensures kinds.Some? <==> forall i :: 0 <= i < |columns| ==> KnownCode(types.value[i])
      ensures kinds.Some? ==>
                && |kinds.value| == |columns|
                && forall i :: 0 <= i < |columns| ==> kinds.value[i] == TypeName(types.value[i])
    {
      var codes;
      codes, err := ColumnCodes(true);
      var names := [];
      for i := 0 to |codes|
        invariant |names| == i && forall j :: 0 <= j < i ==> KnownCode(codes[j]) && names[j] == TypeName(codes[j])
      {
        if !KnownCode(codes[i]) {
          return None, err;
        }
        names := names + [TypeName(codes[i])];
      }
      kinds := Some(names);
    }

    /** Give up the response. If rows were left, its last byte tells whether more
        responses will follow. */
    method Close() returns (err: Status)
      requires message.Received()
      modifies message, message.header
      ensures message.Valid() && message.offset == 0 && message.words == 0 && message.body == old(message.body)
      ensures err == if old(message.HasBeenConsumed()) then Ok else StatusOf(old(message.Body()[message.Size() - 1]))
    {
      err := Ok;
      if !message.HasBeenConsumed() {
        var slot := message.LastByte();
        err := if slot == PART then RowsPart else if slot == DONE then EOF else Unexpected;
      }
      message.Reset();
    }
  }

  function TypeName(code: U8): string
  {
    match code
    case 1 => "INTEGER"
    case 2 => "FLOAT"
    case 3 => "TEXT"
    case 4 => "BLOB"
    case 5 => "NULL"
    case 9 => "TIME"
    case 10 => "TIME"
    case 11 => "BOOL"
    case _ => ""
  }

  /** Decode one value of the given type. */
  method GetValue(m: Message, code: U8) returns (v: Value)
    requires m.Received() && ReadValue(m.Body(), m.offset, code).Some?
    modifies m`offset
    ensures m.Received() && ReadValue(m.Body(), old(m.offset), code) == Some((v, m.offset))
  {
    if code == 3 || code == 10 {
      var t := m.GetString();
      v := if code == 3 then Text(t) else Time(t);
    } else if code == 4 {
      var d := m.GetBlob();
      v := Blob(d);
    } else {
      var n := m.GetUint64();
      v := match code
        case 1 => Integer(ToI64(n))
        case 2 => Float(n)
        case 5 => Null
        case 9 => UnixTime(ToI64(n))
        case _ => Boolean(ToI64(n) != 0);
    }
  }

  method GetValues(m: Message, codes: seq<U8>) returns (dest: seq<Value>, ghost vs: seq<Value>)
    requires m.Received() && ReadList(ValueReader(m.Body()), m.offset, codes).Some?
    modifies m`offset
    ensures m.Received() && dest == SeenAll(vs)
    ensures ReadList(ValueReader(m.Body()), old(m.offset), codes) == Some((vs, m.offset))
  {
    dest, vs := [], [];
    ghost var body, read := m.Body(), ValueReader(m.Body());
    for i := 0 to |codes|
      invariant m.Received() && m.Body() == body && dest == SeenAll(vs)
      invariant ReadList(read, old(m.offset), codes[..i]) == Some((vs, m.offset))
    {
      ghost var at := m.offset;
      ReadListPrefix(read, old(m.offset), codes, i);
      var v := GetValue(m, codes[i]);
      ReadListStep(read, old(m.offset), codes, i, vs, at, v, m.offset);
      vs, dest := vs + [v], dest + [Seen(v)];
    }
    assert codes[..|codes|] == codes;
  }

  /** Read a row header byte by byte, unpacking two codes from each, up to its end
      or to a marker. */
  method ScanHeader(m: Message, before: seq<U8>) returns (codes: seq<U8>, mark: Option<U8>)
    requires m.Received() && before != []
    requires Stopped(m.Body(), m.offset, |before|) || m.offset + HeaderSize(|before|) <= m.Size()
    modifies m`offset
    ensures m.Received() && |codes| == |before|
    ensures var body, off, n := m.Body(), old(m.offset), |before|;
            if Stopped(body, off, n) then
              m.offset == ScanEnd(body, off, n) + 1 && mark == Some(body[ScanEnd(body, off, n)])
            else
              m.offset == off + HeaderSize(n) && mark == None && codes == Nibbles(body, off, n)
  {
    var size := HeaderSize(|before|);
    ghost var body, start := m.Body(), m.offset;
    ghost var end := Min(start + size, |body|);
    NoEarlierMarker(body, start, end);
    codes, mark := ScanBytes(m, before, size, body, start, ScanEnd(body, start, |before|), end);
    if mark == None {
      UnpackedAll(codes, body, start);
    }
  }

  /** The scan, given where the first marker is, if there is one before `end`. */
  method ScanBytes(m: Message, before: seq<U8>, size: nat,
                   ghost body: Bytes, ghost start: nat, ghost stop: nat, ghost end: nat)
    returns (codes: seq<U8>, mark: Option<U8>)
    requires m.Received() && m.Body() == body && m.offset == start <= stop <= end <= start + size && end <= |body|
    requires forall i :: start <= i < stop ==> !IsMarker(body[i])
    requires if stop < end then IsMarker(body[stop]) else end == start + size
    modifies m`offset
    ensures m.Received() && |codes| == |before|
    ensures if stop < end then m.offset == stop + 1 && mark == Some(body[stop])
            else m.offset == end && mark == None && Unpacked(codes, body, start, size)
  {
    codes := before;
    for i := 0 to size
      invariant m.Received() && m.Body() == body && m.offset == start + i <= stop
      invariant |codes| == |before| && Unpacked(codes, body, start, i)
    {
      var slot := m.GetUint8();
      if slot == PART || slot == DONE {
        return codes, Some(slot);
      }
      UnpackNext(codes, body, start, i);
      codes := Unpack(codes, i, slot);
    }
    mark := None;
  }

  /** The codes of the first i header bytes have been stored. */
  ghost predicate Unpacked(codes: seq<U8>, buf: Bytes, off: nat, i: nat)
  {
    && off + i <= |buf|
    && forall j {:trigger codes[j]} :: 0 <= j < 2 * i && j < |codes| ==> codes[j] == Nibble(buf, off, j)
  }

  lemma UnpackNext(codes: seq<U8>, buf: Bytes, off: nat, i: nat)
    requires Unpacked(codes, buf, off, i) && off + i < |buf|
    ensures Unpacked(Unpack(codes, i, buf[off + i]), buf, off, i + 1)
  {
  }

  lemma UnpackedAll(codes: seq<U8>, buf: Bytes, off: nat)
    requires Unpacked(codes, buf, off, HeaderSize(|codes|))
    ensures codes == Nibbles(buf, off, |codes|)
  {
  }

  /** Store the two codes of header byte i, as far as there are columns. */
  function Unpack(codes: seq<U8>, i: nat, slot: U8): (r: seq<U8>)
    ensures |r| == |codes|
    ensures forall j :: 0 <= j < |r| ==>
              r[j] == if j == 2 * i then slot % 16 else if j == 2 * i + 1 then slot / 16 else codes[j]
  {
    var low := if 2 * i < |codes| then codes[2 * i := slot % 16] else codes;
    if 2 * i + 1 < |codes| then low[2 * i + 1 := slot / 16] else low
  }

  lemma {:induction false} NoEarlierMarker(buf: Bytes, off: nat, end: nat)
    requires off <= end <= |buf|
    ensures forall i :: off <= i < FirstMarker(buf, off, end) ==> !IsMarker(buf[i])
    decreases end - off
  {
    if off < end && !IsMarker(buf[off]) { NoEarlierMarker(buf, off + 1, end); }
  }

  // ---- Decoding a Rows response ----

  const RESPONSE_ROWS: U8 := 7

  datatype Decoded = Decoded(rows: Rows) | Failure(code: nat, description: Bytes) | WrongType

  method DecodeRows(m: Message) returns (r: Decoded)
    requires m.Received() && m.offset == 0
    requires m.mtype == RESPONSE_ROWS ==> ReadColumns(m.Body()).Some?
    requires m.mtype == Responses.FAILURE ==> Responses.FailureReadable(m.Body())
    modifies m`offset
    ensures m.Received()
    ensures r.Decoded? <==> m.mtype == RESPONSE_ROWS
    ensures r.Failure? <==> m.mtype == Responses.FAILURE
    ensures r.Failure? ==> Responses.IsFailure(m.Body(), r.code, r.description, m.offset)
    ensures r.Decoded? ==>
              && fresh(r.rows) && r.rows.Valid() && r.rows.types == None && r.rows.message == m
              && ReadColumns(m.Body()) == Some((r.rows.columns, m.offset))
  {
    if m.mtype == Responses.FAILURE {
      var code, description := Responses.DecodeFailure(m);
      return Failure(code, description);
    }
    if m.mtype != RESPONSE_ROWS {
      return WrongType;
    }
    var columns := GetColumns(m);
    var rows := new Rows(columns, m);
    r := Decoded(rows);
  }

  method GetColumns(m: Message) returns (columns: seq<Bytes>)
    requires m.Received() && m.offset == 0 && ReadColumns(m.Body()).Some?
    modifies m`offset
    ensures m.Received() && ReadColumns(m.Body()) == Some((columns, m.offset))
  {
    var n := m.GetUint64();
    columns := [];
    ghost var body, read, start, units := m.Body(), TextReader(m.Body()), m.offset, Units(n);
    for i := 0 to n
      invariant m.Received() && m.Body() == body
      invariant ReadList(read, start, units[..i]) == Some((columns, m.offset))
    {
      ghost var at := m.offset;
      ReadListPrefix(read, start, units, i);
      var s := m.GetString();
      ReadListStep(read, start, units, i, columns, at, s, m.offset);
      columns := columns + [s];
    }
    assert units[..n] == units;
  }
}
