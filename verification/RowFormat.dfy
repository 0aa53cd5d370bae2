/** Result sets on the wire: column names, then rows with nibble-packed type
    headers, then an end marker that shares the stream with the headers. */
module RowFormat {
  import opened Cluster
  import opened Wire
  import opened Readers
  import opened Params

  const PART: U8 := 0xee
  const DONE: U8 := 0xff

  predicate IsMarker(b: U8) { b == 0xee || b == 0xff }

  /** Bytes taken by the type header of a row of n columns. */
  function HeaderSize(n: nat): nat
  {
    (n * 4 + 63) / 64 * 8
  }

  /** The type code of column j, from the header at `off`. */
  function Nibble(buf: Bytes, off: nat, j: nat): U8
    requires off + j / 2 < |buf|
  {
    if j % 2 == 0 then buf[off + j / 2] % 16 else buf[off + j / 2] / 16
  }

  function Nibbles(buf: Bytes, off: nat, n: nat): (codes: Bytes)
    requires off + HeaderSize(n) <= |buf|
    ensures |codes| == n
  {
    seq(n, j requires 0 <= j < n => Nibble(buf, off, j))
  }

  /** First marker byte in [off, end); `end` if there is none. */
  function FirstMarker(buf: Bytes, off: nat, end: nat): (k: nat)
    requires off <= end <= |buf|
    ensures off <= k <= end
    ensures k < end ==> IsMarker(buf[k])
    decreases end - off
  {
    if off == end || IsMarker(buf[off]) then off else FirstMarker(buf, off + 1, end)
  }

  /** Where the scan of a row header stops: at a marker, or after the header. */
  function ScanEnd(buf: Bytes, off: nat, n: nat): (k: nat)
    requires off <= |buf|
    ensures off <= k <= |buf|
  {
    FirstMarker(buf, off, Min(off + HeaderSize(n), |buf|))
  }

  /** Does the scan of a row header meet a marker? */
  predicate Stopped(buf: Bytes, off: nat, n: nat)
    requires off <= |buf|
  {
    ScanEnd(buf, off, n) < Min(off + HeaderSize(n), |buf|)
  }

  datatype RowResult = Row(values: seq<Value>, end: nat) | Stop(mark: U8, end: nat) | Malformed

  /** What a client finds at `off` in a result set of n columns. */
  function ReadRow(buf: Bytes, off: nat, n: nat): RowResult
  {
    ReadRowWith(ValueReader(buf), buf, off, n)
  }

  function ReadRowWith(read: Reader<U8, Value>, buf: Bytes, off: nat, n: nat): RowResult
  {
    if n == 0 then Stop(DONE, off)
    else if off > |buf| then Malformed
    else
      var k := ScanEnd(buf, off, n);
      if Stopped(buf, off, n) then Stop(buf[k], k + 1)
      else if off + HeaderSize(n) > |buf| then Malformed
      else
        match ReadList(read, off + HeaderSize(n), Nibbles(buf, off, n))
        case None => Malformed
        case Some((vs, at)) => Row(vs, at)
  }

  // ---- Server side ----

  /** Two codes per byte, low nibble first; missing codes are zero. */
  function HeaderByte(codes: Bytes, i: nat): U8
  {
    (if 2 * i < |codes| then codes[2 * i] % 16 else 0)
    + 16 * (if 2 * i + 1 < |codes| then codes[2 * i + 1] % 16 else 0)
  }

  predicate Codable(codes: Bytes)
  {
    forall j :: 0 <= j < |codes| ==> codes[j] <= 11
  }

  function RowHeader(codes: Bytes): (b: Bytes)
    ensures |b| == HeaderSize(|codes|)
  {
    seq(HeaderSize(|codes|), i requires 0 <= i => HeaderByte(codes, i))
  }

  lemma HeaderNibbles(codes: Bytes, i: nat)
    requires Codable(codes)
    ensures var b := HeaderByte(codes, i);
            && !IsMarker(b)
            && (2 * i < |codes| ==> b % 16 == codes[2 * i]) && (2 * i + 1 < |codes| ==> b / 16 == codes[2 * i + 1])
  {
  }

  /** Row header round trip and marker unambiguity: the header fills exactly
      8 * ceil(n / 16) bytes, none of which can be taken for an end marker, and
      the codes read from it are the codes that were packed. */
  lemma RowHeaderRoundTrip(buf: Bytes, off: nat, codes: Bytes)
    requires Codable(codes) && At(buf, off, RowHeader(codes))
    ensures HeaderSize(|codes|) == (|codes| + 15) / 16 * 8
    ensures forall i :: off <= i < off + HeaderSize(|codes|) ==> !IsMarker(buf[i])
    ensures Nibbles(buf, off, |codes|) == codes
  {
    var h := RowHeader(codes);
    forall i | off <= i < off + |h| ensures !IsMarker(buf[i]) {
      assert buf[i] == h[i - off];
      HeaderNibbles(codes, i - off);
    }
    forall j | 0 <= j < |codes| ensures Nibbles(buf, off, |codes|)[j] == codes[j] {
      assert buf[off + j / 2] == h[j / 2];
      HeaderNibbles(codes, j / 2);
    }
  }

  lemma {:induction false} NoMarker(buf: Bytes, off: nat, end: nat)
    requires off <= end <= |buf| && forall i :: off <= i < end ==> !IsMarker(buf[i])
    ensures FirstMarker(buf, off, end) == end
    decreases end - off
  {
    if off < end { NoMarker(buf, off + 1, end); }
  }

  predicate RowOk(row: seq<Value>) { AllValid(row) && AllClean(row) }

  lemma CodesCodable(row: seq<Value>)
    ensures Codable(Codes(row))
  {
  }

  function RowBytes(row: seq<Value>): Bytes
  {
    RowHeader(Codes(row)) + Encs(row)
  }

  /** A row is read back where it stands. */
  lemma ReadRowAt(buf: Bytes, off: nat, row: seq<Value>)
    requires RowOk(row) && row != [] && At(buf, off, RowBytes(row))
    ensures ReadRow(buf, off, |row|) == Row(row, off + |RowBytes(row)|)
  {
    CodesCodable(row);
    ValueReaderDecodes(buf, row);
    ReadRowParts(ValueReader(buf), buf, off, Codes(row), row, EncList(row));
  }

  lemma ReadRowParts(read: Reader<U8, Value>, buf: Bytes, off: nat, codes: Bytes, row: seq<Value>, parts: seq<Bytes>)
    requires Codable(codes) && row != [] && Decodes(read, buf, codes, row, parts)
    requires At(buf, off, RowHeader(codes) + Join(parts))
    ensures ReadRowWith(read, buf, off, |row|) == Row(row, off + |RowHeader(codes) + Join(parts)|)
  {
    var h := HeaderSize(|row|);
    AtConcat(buf, off, RowHeader(codes), Join(parts));
    RowHeaderRoundTrip(buf, off, codes);
    NoMarker(buf, off, off + h);
    ReadListAt(read, buf, off + h, codes, row, parts);
  }

  /** A marker stops the reader at once. */
  lemma ReadMarkerAt(buf: Bytes, off: nat, n: nat)
    requires n > 0 && off < |buf| && IsMarker(buf[off])
    ensures ReadRow(buf, off, n) == Stop(buf[off], off + 1)
  {
    assert HeaderSize(n) >= 8;
  }

  // ---- One response of a result set ----

  /** `last` tells the two end markers apart: false if more responses follow. */
  datatype Part = Part(columns: seq<Bytes>, rows: seq<seq<Value>>, last: bool) {

    predicate Valid()
    {
      && |columns| < TWO64 && (forall i :: 0 <= i < |columns| ==> NulFree(columns[i]))
      && (forall i :: 0 <= i < |rows| ==> RowOk(rows[i]) && |rows[i]| == |columns|)
      && (columns == [] ==> rows == [])
    }

    function Mark(): U8 { if last then DONE else PART }

    function Marks(): (b: Bytes) ensures |b| == 8 { seq(8, _ => Mark()) }

    function ColumnParts(): (parts: seq<Bytes>)
      ensures |parts| == |columns|
    {
      seq(|columns|, i requires 0 <= i < |columns| => TextBytes(columns[i]))
    }

    function RowParts(): (parts: seq<Bytes>)
      ensures |parts| == |rows|
    {
      seq(|rows|, i requires 0 <= i < |rows| => RowBytes(rows[i]))
    }

    function Body(): Bytes
    {
      LE(|columns|, 8) + Join(ColumnParts()) + Join(RowParts()) + Marks()
    }

    /** Where row i starts; the markers start after the last row. */
    function RowAt(i: nat): nat
      requires i <= |rows|
    {
      Start(8 + |Join(ColumnParts())|, RowParts(), i)
    }
  }

  function TextReader(buf: Bytes): Reader<(), Bytes>
  {
    (at, _) => ReadText(buf, at)
  }

  function ReadColumns(buf: Bytes): Option<(seq<Bytes>, nat)>
  {
    match ReadNum(buf, 0, 8)
    case None => None
    case Some((n, at)) => ReadList(TextReader(buf), at, Units(n))
  }

  lemma PartLayout(p: Part)
    ensures var b := p.Body();
            && At(b, 0, LE(|p.columns|, 8)) && At(b, 8, Join(p.ColumnParts()))
            && At(b, 8 + |Join(p.ColumnParts())|, Join(p.RowParts())) && At(b, p.RowAt(|p.rows|), p.Marks())
            && |b| == p.RowAt(|p.rows|) + 8
  {
    StartEnd(8 + |Join(p.ColumnParts())|, p.RowParts());
    FourInRow(LE(|p.columns|, 8), Join(p.ColumnParts()), Join(p.RowParts()), p.Marks());
  }

  lemma StartEnd(off: nat, parts: seq<Bytes>)
    ensures Start(off, parts, |parts|) == off + |Join(parts)|
  {
    assert parts[..|parts|] == parts;
  }

  lemma FourInRow(a: Bytes, b: Bytes, c: Bytes, d: Bytes)
    ensures var all := a + b + c + d;
            && At(all, 0, a) && At(all, |a|, b) && At(all, |a| + |b|, c) && At(all, |a| + |b| + |c|, d)
            && |all| == |a| + |b| + |c| + |d|
  {
    AtFour(a + b + c + d, 0, a, b, c, d);
  }

  lemma TextReaderDecodes(buf: Bytes, columns: seq<Bytes>, parts: seq<Bytes>)
    requires |columns| == |parts|
    requires forall i :: 0 <= i < |parts| ==> NulFree(columns[i]) && parts[i] == TextBytes(columns[i])
    ensures Decodes(TextReader(buf), buf, Units(|columns|), columns, parts)
  {
    forall k: nat, at: nat | k < |columns| && At(buf, at, parts[k])
      ensures ReadText(buf, at) == Some((columns[k], at + |parts[k]|))
    {
      ReadTextAt(buf, at, columns[k]);
    }
  }

  lemma PartColumns(p: Part)
    requires p.Valid()
    ensures ReadColumns(p.Body()) == Some((p.columns, p.RowAt(0)))
  {
    PartLayout(p);
    assert p.RowParts()[..0] == [];
    ColumnsAt(p.Body(), p.columns, p.ColumnParts(), p.RowAt(0));
  }

  lemma ColumnsAt(buf: Bytes, columns: seq<Bytes>, parts: seq<Bytes>, end: nat)
    requires |columns| == |parts|
    requires forall i :: 0 <= i < |parts| ==> NulFree(columns[i]) && parts[i] == TextBytes(columns[i])
    requires |columns| < TWO64 && At(buf, 0, LE(|columns|, 8)) && At(buf, 8, Join(parts))
    requires end == 8 + |Join(parts)|
    ensures ReadColumns(buf) == Some((columns, end))
  {
    Pow256Values();
    ReadNumAt(buf, 0, |columns|, 8);
    TextReaderDecodes(buf, columns, parts);
    ReadListAt(TextReader(buf), buf, 8, Units(|columns|), columns, parts);
  }

  lemma PartRow(p: Part, i: nat)
    requires p.Valid() && i < |p.rows|
    ensures ReadRow(p.Body(), p.RowAt(i), |p.columns|) == Row(p.rows[i], p.RowAt(i + 1))
    ensures p.RowAt(i) < p.RowAt(i + 1)
  {
    PartLayout(p);
    RowAmong(p.Body(), 8 + |Join(p.ColumnParts())|, p.RowParts(), i, p.rows[i]);
  }

  lemma RowAmong(buf: Bytes, off: nat, parts: seq<Bytes>, i: nat, row: seq<Value>)
    requires At(buf, off, Join(parts)) && i < |parts| && RowOk(row) && row != [] && parts[i] == RowBytes(row)
    ensures ReadRow(buf, Start(off, parts, i), |row|) == Row(row, Start(off, parts, i + 1))
    ensures Start(off, parts, i) < Start(off, parts, i + 1)
  {
    StandingAt(buf, off, parts, i);
    ReadRowPart(buf, Start(off, parts, i), row, parts[i], Start(off, parts, i + 1));
  }

  lemma ReadRowPart(buf: Bytes, at: nat, row: seq<Value>, part: Bytes, end: nat)
    requires RowOk(row) && row != [] && part == RowBytes(row) && At(buf, at, part) && end == at + |part|
    ensures ReadRow(buf, at, |row|) == Row(row, end) && at < end
  {
    ReadRowAt(buf, at, row);
    assert HeaderSize(|row|) >= 8;
  }

  /** Any of the eight marker bytes ends the part. */
  lemma PartMark(p: Part, t: nat, at: nat)
    requires p.Valid() && p.columns != [] && t < 8 && at == p.RowAt(|p.rows|) + t
    ensures ReadRow(p.Body(), at, |p.columns|) == Stop(p.Mark(), at + 1) && at < |p.Body()|
  {
    PartLayout(p);
    MarkAmong(p.Body(), p.RowAt(|p.rows|), p.Marks(), t, at, |p.columns|);
  }

  lemma MarkAmong(buf: Bytes, start: nat, marks: Bytes, t: nat, at: nat, n: nat)
    requires At(buf, start, marks) && t < |marks| && at == start + t && n > 0 && IsMarker(marks[t])
    ensures ReadRow(buf, at, n) == Stop(marks[t], at + 1) && at < |buf|
  {
    assert buf[start + t] == marks[t];
    ReadMarkerAt(buf, at, n);
  }

  lemma RowAligned(row: seq<Value>)
    ensures |RowBytes(row)| % 8 == 0
  {
    EncsAligned(row);
    AddAligned(HeaderSize(|row|), |Encs(row)|);
  }

  lemma AllAligned(a: seq<Bytes>, b: seq<Bytes>, count: Bytes, marks: Bytes)
    requires forall i :: 0 <= i < |a| ==> |a[i]| % 8 == 0
    requires forall i :: 0 <= i < |b| ==> |b[i]| % 8 == 0
    requires |count| == 8 && |marks| == 8
    ensures |count + Join(a) + Join(b) + marks| % 8 == 0
  {
    JoinAligned(a);
    JoinAligned(b);
    BetweenWords(|Join(a)|, |Join(b)|, |count + Join(a) + Join(b) + marks|);
  }

  lemma BetweenWords(a: nat, b: nat, all: nat)
    requires a % 8 == 0 && b % 8 == 0 && all == 8 + a + b + 8
    ensures all % 8 == 0
  {
  }

  /** A part fills whole words. */
  lemma PartAligned(p: Part)
    ensures |p.Body()| % 8 == 0
  {
    forall i | 0 <= i < |p.columns| ensures |p.ColumnParts()[i]| % 8 == 0 {
      PadAligns(|p.columns[i]| + 1);
    }
    forall i | 0 <= i < |p.rows| ensures |p.RowParts()[i]| % 8 == 0 {
      RowAligned(p.rows[i]);
    }
    AllAligned(p.ColumnParts(), p.RowParts(), LE(|p.columns|, 8), p.Marks());
  }

  lemma PartLastByte(p: Part)
    ensures |p.Body()| >= 8 && p.Body()[|p.Body()| - 1] == p.Mark()
  {
    PartLayout(p);
    assert p.Body()[p.RowAt(|p.rows|) + 7] == p.Marks()[7];
  }

  /** A row header never reaches the end of the body. */
  lemma HeaderFits(p: Part, i: nat)
    requires p.Valid() && i < |p.rows|
    ensures p.RowAt(i) + HeaderSize(|p.columns|) < |p.Body()|
  {
    PartLayout(p);
    var off, parts := 8 + |Join(p.ColumnParts())|, p.RowParts();
    StandingAt(p.Body(), off, parts, i);
    StartBound(off, parts, i + 1);
    StartBound(off, parts, |parts|);
    assert parts[..|parts|] == parts;
    RowBytesSize(p.rows[i]);
  }

  lemma RowBytesSize(row: seq<Value>)
    ensures |RowBytes(row)| >= HeaderSize(|row|)
  {
  }

  /** Wherever a row or a first marker byte is due, the scan ends with at least one
      byte of the body still ahead. */
  lemma PeekFits(p: Part, i: nat, at: nat)
    requires p.Valid() && i <= |p.rows| && p.columns != [] && at == p.RowAt(i)
    ensures ScanFits(p.Body(), at, |p.columns|)
  {
    PartLayout(p);
    if i < |p.rows| {
      PartRow(p, i);
      HeaderFits(p, i);
    } else {
      PartMark(p, 0, at);
    }
  }

  predicate ScanFits(buf: Bytes, at: nat, n: nat)
    requires n > 0
  {
    at <= |buf| && if Stopped(buf, at, n) then ScanEnd(buf, at, n) + 1 < |buf| else at + HeaderSize(n) < |buf|
  }
}
