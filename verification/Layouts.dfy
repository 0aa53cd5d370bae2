/** The wire format spelled out byte by byte: what encoders and readers agree on
    is the published format, and not just any format. */
module Layouts {
  import opened Cluster
  import opened Wire
  import opened Framing
  import opened Readers
  import opened Params
  import opened Requests
  import opened RowFormat
  import opened ProtocolRows
  import opened Lists

  // ---- Numbers, texts and blobs ----

  /** Byte i of a number is its i-th digit in base 256, lowest first. */
  lemma {:induction false} LowestFirst(v: nat, n: nat, i: nat)
    requires i < n
    ensures Pow256(i) > 0 && LE(v, n)[i] == v / Pow256(i) % 256
    decreases i
  {
    if i > 0 {
      LowestFirst(v / 256, n, i - 1);
      assert LE(v, n)[i] == Digit(v, i) == Digit(v / 256, i - 1) == LE(v / 256, n)[i - 1];
      DivideTwice(v, Pow256(i - 1));
    }
  }

  lemma DivideTwice(v: nat, p: nat)
    requires p > 0
    ensures v / 256 / p == v / (256 * p)
  {
    var q := v / 256 / p;
    var rest := v - 256 * (p * q);
    assert v / 256 == p * q + v / 256 % p;
    assert 0 <= rest < 256 * p;
    assert 256 * (p * q) == (256 * p) * q;
    QuotientIs(v, 256 * p, q, rest);
  }

  lemma QuotientIs(v: nat, m: nat, q: nat, rest: nat)
    requires m > 0 && v == m * q + rest && rest < m
    ensures v / m == q
  {
    Between(m, v / m, q, v);
    Between(m, q, v / m, v);
  }

  /** Of two multiples around the same number the factors are ordered. */
  lemma Between(m: nat, a: nat, b: nat, v: nat)
    requires m * a <= v < m * (b + 1)
    ensures a <= b
  {
    if b < a {
      Monotone(m, b + 1, a);
    }
  }

  lemma Monotone(m: nat, a: nat, b: nat)
    requires a <= b
    ensures m * a <= m * b
  {
  }

  /** A text, a NUL, and zeros up to the next multiple of eight bytes. */
  lemma TextShape(t: Bytes)
    ensures var b := TextBytes(t);
            && |b| % 8 == 0 && |t| < |b| <= |t| + 8
            && (forall i :: 0 <= i < |t| ==> b[i] == t[i]) && forall i :: |t| <= i < |b| ==> b[i] == 0
  {
    PadAligns(|t| + 1);
  }

  /** Eight bytes of length, the data, and zeros up to a multiple of eight. */
  lemma BlobShape(d: Bytes)
    ensures var b := BlobBytes(d);
            && |b| % 8 == 0 && |d| + 8 <= |b| < |d| + 16 && b[..8] == LE(|d|, 8)
            && (forall i :: 0 <= i < |d| ==> b[8 + i] == d[i]) && forall i :: |d| + 8 <= i < |b| ==> b[i] == 0
  {
    PadAligns(|d|);
  }

  // ---- Values ----

  /** The published type codes. */
  lemma TypeCodes(v: Value)
    ensures v.Integer? <==> v.Code() == 1
    ensures v.Float? <==> v.Code() == 2
    ensures v.Text? <==> v.Code() == 3
    ensures v.Blob? <==> v.Code() == 4
    ensures v.Null? <==> v.Code() == 5
    ensures v.UnixTime? <==> v.Code() == 9
    ensures v.Time? <==> v.Code() == 10
    ensures v.Boolean? <==> v.Code() == 11
  {
  }

  /** The number that stands for a value of fixed size; negative integers are in
      two's complement. */
  lemma FixedValues(v: Value)
    requires v.Valid() && !v.Text? && !v.Time? && !v.Blob?
    ensures |v.Enc()| == 8
    ensures v.Integer? ==> Num(v.Enc()) == if v.i >= 0 then v.i else v.i + 0x1_0000_0000_0000_0000
    ensures v.UnixTime? ==> Num(v.Enc()) == if v.secs >= 0 then v.secs else v.secs + 0x1_0000_0000_0000_0000
    ensures v.Float? ==> Num(v.Enc()) == v.bits
    ensures v.Null? ==> Num(v.Enc()) == 0
    ensures v.Boolean? ==> Num(v.Enc()) == if v.flag then 1 else 0
  {
    Pow256Values();
    NumLE(AsWord(v), 8);
  }

  /** The name of a column type belongs to the values read from that column, and
      exactly the types that can be read have one. */
  lemma TypeNames(buf: Bytes, off: nat, code: U8)
    ensures KnownCode(code) <==> TypeName(code) != ""
    ensures !KnownCode(code) ==> ReadValue(buf, off, code) == None
    ensures ReadValue(buf, off, code).Some? ==>
              TypeName(code) ==
              match ReadValue(buf, off, code).value.0
              case Integer(_) => "INTEGER"
              case Float(_) => "FLOAT"
              case Text(_) => "TEXT"
              case Blob(_) => "BLOB"
              case Null => "NULL"
              case UnixTime(_) => "TIME"
              case Time(_) => "TIME"
              case Boolean(_) => "BOOL"
  {
  }

  // ---- Frames ----

  /** Four bytes of length in words, type, schema, two bytes of extra, body. */
  lemma FrameShape(f: Frame)
    requires f.Valid()
    ensures var b := FrameBytes(f);
            && b[..4] == LE(|f.body| / 8, 4) && b[4] == f.mtype && b[5] == f.schema
            && b[6..8] == LE(f.extra, 2) && b[8..] == f.body
  {
  }

  // ---- Parameters and rows ----

  /** One or four bytes of count, one byte of type code for each parameter, the
      skipped bytes, and the values. */
  lemma TupleShape(wide: bool, vs: seq<Value>, pad: Bytes)
    requires vs != []
    ensures var b, k := TupleBytes(wide, vs, pad), if wide then 4 else 1;
            && |b| >= k + |vs| && b[..k] == LE(|vs|, k)
            && (forall i :: 0 <= i < |vs| ==> b[k + i] == vs[i].Code())
            && b[k + |vs|..] == pad + Join(EncList(vs))
  {
    var count, codes, encs := LE(|vs|, CountSize(wide)), Codes(vs), Join(EncList(vs));
    assert TupleBytes(wide, vs, pad) == count + codes + (pad + encs);
  }

  /** Half a byte for each column, the first in the low half, in whole words. */
  lemma HeaderShape(codes: Bytes, i: nat)
    requires Codable(codes) && i < |RowHeader(codes)|
    ensures |RowHeader(codes)| == (|codes| + 15) / 16 * 8
    ensures RowHeader(codes)[i] ==
            (if 2 * i < |codes| then codes[2 * i] else 0) + 16 * (if 2 * i + 1 < |codes| then codes[2 * i + 1] else 0)
  {
  }

  /** A response ends in eight equal bytes: 0xff for the last one of a result set
      and 0xee for the others. */
  lemma MarkerShape(p: Part, i: nat)
    requires i < 8
    ensures |p.Body()| >= 8 && p.Body()[|p.Body()| - 8 + i] == if p.last then 0xff else 0xee
  {
    var front := LE(|p.columns|, 8) + Join(p.ColumnParts()) + Join(p.RowParts());
    EndsWith(front, p.Marks(), i);
  }

  lemma EndsWith(front: Bytes, marks: Bytes, i: nat)
    requires |marks| == 8 && i < 8
    ensures (front + marks)[|front + marks| - 8 + i] == marks[i]
  {
  }

  /** Eight bytes of column count, the column names, and the rows, each a header of
      type codes and its values. */
  lemma PartShape(p: Part, i: nat)
    requires p.Valid()
    ensures p.Body()[..8] == LE(|p.columns|, 8)
    ensures i < |p.columns| ==> p.ColumnParts()[i] == TextBytes(p.columns[i])
    ensures i < |p.rows| ==> p.RowParts()[i] == RowHeader(Codes(p.rows[i])) + Join(EncList(p.rows[i]))
    ensures p.Body()[8..|p.Body()| - 8] == Join(p.ColumnParts()) + Join(p.RowParts())
  {
    var middle := Join(p.ColumnParts()) + Join(p.RowParts());
    assert p.Body() == LE(|p.columns|, 8) + middle + p.Marks();
  }

  /** A node: eight bytes of id, the address, eight bytes of role. */
  lemma NodeShape(node: NodeEntry)
    requires node.Valid() && node.role >= 0
    ensures node.Enc() == LE(node.id, 8) + TextBytes(node.address) + LE(node.role, 8)
  {
  }

  /** A file: its name, eight bytes of length, the data as they are. */
  lemma FileShape(f: File)
    ensures f.Enc() == TextBytes(f.name) + LE(|f.data|, 8) + f.data
  {
  }

  // ---- Requests ----

  /** The published request types. Schema 1 marks the wide parameter format. */
  lemma RequestTypes(r: Request)
    ensures r.Code() ==
            if r.Leader? then 0 else if r.Client? then 1 else if r.Heartbeat? then 2 else if r.Open? then 3
            else if r.Prepare? then 4 else if r.Exec? then 5 else if r.Query? then 6 else if r.Finalize? then 7
            else if r.ExecSQL? then 8 else if r.QuerySQL? then 9 else if r.Interrupt? then 10 else if r.Add? then 12
            else if r.Assign? then 13 else if r.Remove? then 14 else if r.Dump? then 15 else if r.ClusterInfo? then 16
            else if r.Transfer? then 17 else if r.Describe? then 18 else 19
    ensures r.Schema() == if (r.Exec? || r.Query? || r.ExecSQL? || r.QuerySQL?) && r.wide then 1 else 0
  {
  }

  /** The bytes of every request body; only what is skipped inside a tuple is left
      open. */
  lemma RequestShape(r: Request, body: Bytes)
    requires r.IsBody(body)
    ensures match r
            case Leader => body == LE(0, 8)
            case Client(id) => body == LE(id, 8)
            case Heartbeat(timestamp) => body == LE(timestamp, 8)
            case Open(name, flags, vfs) => body == TextBytes(name) + LE(flags, 8) + TextBytes(vfs)
            case Prepare(db, sql) => body == LE(db, 8) + TextBytes(sql)
            case Exec(wide, db, stmt, vs) => EndsInTuple(body, LE(db, 4) + LE(stmt, 4), wide, vs)
            case Query(wide, db, stmt, vs) => EndsInTuple(body, LE(db, 4) + LE(stmt, 4), wide, vs)
            case Finalize(db, stmt) => body == LE(db, 4) + LE(stmt, 4)
            case ExecSQL(wide, db, sql, vs) => EndsInTuple(body, LE(db, 8) + TextBytes(sql), wide, vs)
            case QuerySQL(wide, db, sql, vs) => EndsInTuple(body, LE(db, 8) + TextBytes(sql), wide, vs)
            case Interrupt(db) => body == LE(db, 8)
            case Add(id, address) => body == LE(id, 8) + TextBytes(address)
            case Assign(id, role) => body == LE(id, 8) + LE(role, 8)
            case Remove(id) => body == LE(id, 8)
            case Dump(name) => body == TextBytes(name)
            case ClusterInfo(format) => body == LE(format, 8)
            case Transfer(id) => body == LE(id, 8)
            case Describe(format) => body == LE(format, 8)
            case Weight(weight) => body == LE(weight, 8)
  {
    var fs := r.Fields();
    var parts :| EncodesAll(fs, parts) && body == Join(parts);
    if |fs| == 1 {
      OneField(fs, parts);
    } else if |fs| == 2 {
      TwoFields(fs, parts);
    } else {
      ThreeFields(fs, parts);
      if fs[2].Tuple? {
        TupleAfter(parts[0] + parts[1], fs[2].wide, fs[2].vs, parts[2]);
      }
    }
  }

  /** The tuple starts right behind `front`. */
  ghost predicate EndsInTuple(body: Bytes, front: Bytes, wide: bool, vs: seq<Value>)
  {
    exists pad :: |pad| == PadSize(wide, |front|, |vs|) && body == front + TupleBytes(wide, vs, pad)
  }

  lemma TupleAfter(front: Bytes, wide: bool, vs: seq<Value>, part: Bytes)
    requires Encodes(Tuple(wide, vs), |front|, part)
    ensures EndsInTuple(front + part, front, wide, vs)
  {
    var pad :| IsTuple(wide, vs, |front|, part, pad);
    assert front + part == front + TupleBytes(wide, vs, pad);
  }

  lemma OneField(fs: seq<Field>, parts: seq<Bytes>)
    requires EncodesAll(fs, parts) && |fs| == 1
    ensures Encodes(fs[0], 0, parts[0]) && Join(parts) == parts[0]
  {
    assert Encodes(fs[0], Start(0, parts, 0), parts[0]);
    assert parts == [] + [parts[0]];
    JoinSnoc([], parts[0]);
  }

  lemma TwoFields(fs: seq<Field>, parts: seq<Bytes>)
    requires EncodesAll(fs, parts) && |fs| == 2
    ensures Encodes(fs[0], 0, parts[0]) && Encodes(fs[1], |parts[0]|, parts[1]) && Join(parts) == parts[0] + parts[1]
  {
    assert Encodes(fs[0], Start(0, parts, 0), parts[0]) && Encodes(fs[1], Start(0, parts, 1), parts[1]);
    JoinOne(parts);
    JoinTwo(parts);
  }

  lemma ThreeFields(fs: seq<Field>, parts: seq<Bytes>)
    requires EncodesAll(fs, parts) && |fs| == 3
    ensures Encodes(fs[0], 0, parts[0]) && Encodes(fs[1], |parts[0]|, parts[1])
    ensures Encodes(fs[2], |parts[0] + parts[1]|, parts[2]) && Join(parts) == parts[0] + parts[1] + parts[2]
  {
    assert Encodes(fs[0], Start(0, parts, 0), parts[0]) && Encodes(fs[1], Start(0, parts, 1), parts[1]);
    assert Encodes(fs[2], Start(0, parts, 2), parts[2]);
    JoinThree(parts);
  }
}
