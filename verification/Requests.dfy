/** Requests (internal/protocol/request.go, generated from schema.go): every
    request is a list of typed fields, encoded one after the other and finished
    with a header. A reference parser plays the server. */
module Requests {
  import opened Cluster
  import opened Wire
  import opened Framing
  import opened Messages
  import opened Readers
  import opened Params

  datatype Field = Small(v: nat) | Word(v: nat) | Str(t: Bytes) | Tuple(wide: bool, vs: seq<Value>) {
    predicate Valid()
    {
      match this
      case Small(v) => v < TWO32
      case Word(v) => v < TWO64
      case Str(_) => true
      case Tuple(wide, vs) => AllValid(vs) && |vs| <= Limit(wide)
    }

    predicate Clean()
    {
      (Str? ==> NulFree(t)) && (Tuple? ==> AllClean(vs))
    }
  }

  datatype Kind = KSmall | KWord | KStr | KTuple(wide: bool)

  function KindOf(f: Field): Kind
  {
    match f
    case Small(_) => KSmall
    case Word(_) => KWord
    case Str(_) => KStr
    case Tuple(wide, _) => KTuple(wide)
  }

  /** `part` encodes the field at body offset `at`; only the bytes skipped inside
      a tuple are left open. */
  ghost predicate Encodes(f: Field, at: nat, part: Bytes)
  {
    match f
    case Small(v) => part == LE(v, 4)
    case Word(v) => part == LE(v, 8)
    case Str(t) => part == TextBytes(t)
    case Tuple(wide, vs) => exists pad :: IsTuple(wide, vs, at, part, pad)
  }

  ghost predicate IsTuple(wide: bool, vs: seq<Value>, at: nat, part: Bytes, pad: Bytes)
  {
    |pad| == PadSize(wide, at, |vs|) && part == TupleBytes(wide, vs, pad)
  }

  predicate AllFieldsValid(fs: seq<Field>)
  {
    forall i :: 0 <= i < |fs| ==> fs[i].Valid()
  }

  /** A tuple can only come last: its absence is shown by the end of the body. */
  predicate TupleLast(fs: seq<Field>)
  {
    forall i :: 0 <= i < |fs| - 1 ==> !fs[i].Tuple?
  }

  ghost predicate EncodesAll(fs: seq<Field>, parts: seq<Bytes>)
  {
    |parts| == |fs| &&
    forall k: nat {:trigger Encodes(fs[k], Start(0, parts, k), parts[k])} ::
      k < |fs| ==> Encodes(fs[k], Start(0, parts, k), parts[k])
  }

  // ---- Encoder ----

  method PutField(m: Message, f: Field) returns (ghost part: Bytes)
    requires m.Valid() && f.Valid()
    modifies m`body, m`offset, m.body
    ensures m.Valid() && (m.body == old(m.body) || fresh(m.body))
    ensures m.Written() == old(m.Written()) + part && Encodes(f, old(m.offset), part)
  {
    match f {
      case Small(v) => m.PutUint32(v); part := LE(v, 4);
      case Word(v) => m.PutUint64(v); part := LE(v, 8);
      case Str(t) => m.PutString(t); part := TextBytes(t);
      case Tuple(wide, vs) =>
        ghost var pad := PutNamedValues(m, wide, vs);
        part := TupleBytes(wide, vs, pad);
        assert IsTuple(wide, vs, old(m.offset), part, pad);
    }
  }

  method PutFields(m: Message, fs: seq<Field>) returns (ghost parts: seq<Bytes>)
    requires m.Valid() && AllFieldsValid(fs) && m.offset == 0
    modifies m`body, m`offset, m.body
    ensures m.Valid() && (m.body == old(m.body) || fresh(m.body))
    ensures EncodesAll(fs, parts) && m.Written() == Join(parts)
  {
    parts := [];
    for i := 0 to |fs|
      invariant m.Valid() && (m.body == old(m.body) || fresh(m.body))
      invariant EncodesAll(fs[..i], parts) && m.Written() == Join(parts)
    {
      ghost var part := PutField(m, fs[i]);
      JoinSnoc(parts, part);
      ExtendEncoding(fs[..i], parts, fs[i], part);
      assert fs[..i + 1] == fs[..i] + [fs[i]];
      parts := parts + [part];
    }
    assert fs[..|fs|] == fs;
  }

  lemma ExtendEncoding(fs: seq<Field>, parts: seq<Bytes>, f: Field, part: Bytes)
    requires EncodesAll(fs, parts) && Encodes(f, |Join(parts)|, part)
    ensures EncodesAll(fs + [f], parts + [part])
  {
    var ps := parts + [part];
    forall k: nat | k < |ps| ensures Encodes((fs + [f])[k], Start(0, ps, k), ps[k]) {
      assert ps[..k] == parts[..k];
      if k == |fs| {
        assert parts[..k] == parts;
      } else {
        assert Encodes(fs[k], Start(0, parts, k), parts[k]);
      }
    }
  }

  // ---- The requests ----

  datatype Request =
    | Leader
    | Client(id: nat)
    | Heartbeat(timestamp: nat)
    | Open(name: Bytes, flags: nat, vfs: Bytes)
    | Prepare(db: nat, sql: Bytes)
    | Exec(wide: bool, db: nat, stmt: nat, values: seq<Value>)
    | Query(wide: bool, db: nat, stmt: nat, values: seq<Value>)
    | Finalize(db: nat, stmt: nat)
    | ExecSQL(wide: bool, db: nat, sql: Bytes, values: seq<Value>)
    | QuerySQL(wide: bool, db: nat, sql: Bytes, values: seq<Value>)
    | Interrupt(db: nat)
    | Add(id: nat, address: Bytes)
    | Assign(id: nat, role: nat)
    | Remove(id: nat)
    | Dump(name: Bytes)
    | ClusterInfo(format: nat)
    | Transfer(id: nat)
    | Describe(format: nat)
    | Weight(weight: nat)
  {
    function Code(): U8
    {
      match this
      case Leader => 0
      case Client(_) => 1
      case Heartbeat(_) => 2
      case Open(_, _, _) => 3
      case Prepare(_, _) => 4
      case Exec(_, _, _, _) => 5
      case Query(_, _, _, _) => 6
      case Finalize(_, _) => 7
      case ExecSQL(_, _, _, _) => 8
      case QuerySQL(_, _, _, _) => 9
      case Interrupt(_) => 10
      case Add(_, _) => 12
      case Assign(_, _) => 13
      case Remove(_) => 14
      case Dump(_) => 15
      case ClusterInfo(_) => 16
      case Transfer(_) => 17
      case Describe(_) => 18
      case Weight(_) => 19
    }

    /** Schema 1 marks the wide parameter format. */
    function Schema(): U8
    {
      if (Exec? || Query? || ExecSQL? || QuerySQL?) && wide then 1 else 0
    }

    function Fields(): seq<Field>
    {
      match this
      case Leader => [Word(0)]
      case Client(id) => [Word(id)]
      case Heartbeat(timestamp) => [Word(timestamp)]
      case Open(name, flags, vfs) => [Str(name), Word(flags), Str(vfs)]
      case Prepare(db, sql) => [Word(db), Str(sql)]
      case Exec(wide, db, stmt, values) => [Small(db), Small(stmt), Tuple(wide, values)]
      case Query(wide, db, stmt, values) => [Small(db), Small(stmt), Tuple(wide, values)]
      case Finalize(db, stmt) => [Small(db), Small(stmt)]
      case ExecSQL(wide, db, sql, values) => [Word(db), Str(sql), Tuple(wide, values)]
      case QuerySQL(wide, db, sql, values) => [Word(db), Str(sql), Tuple(wide, values)]
      case Interrupt(db) => [Word(db)]
      case Add(id, address) => [Word(id), Str(address)]
      case Assign(id, role) => [Word(id), Word(role)]
      case Remove(id) => [Word(id)]
      case Dump(name) => [Str(name)]
      case ClusterInfo(format) => [Word(format)]
      case Transfer(id) => [Word(id)]
      case Describe(format) => [Word(format)]
      case Weight(weight) => [Word(weight)]
    }

    /** Numbers fit their fields and the parameters fit the count. */
    predicate Valid() { AllFieldsValid(Fields()) }

    /** No text holds a NUL. */
    predicate Clean() { forall i :: 0 <= i < |Fields()| ==> Fields()[i].Clean() }

    /** The body is one the encoder can produce for this request. */
    ghost predicate IsBody(body: Bytes)
    {
      exists parts :: EncodesAll(Fields(), parts) && body == Join(parts)
    }
  }

  // ---- Reference parser ----

  function KindsOf(mtype: U8, schema: U8): Option<seq<Kind>>
  {
    if schema > 1 || (schema == 1 && mtype !in [5, 6, 8, 9]) then None else
    match mtype
    case 0 => Some([KWord])
    case 1 => Some([KWord])
    case 2 => Some([KWord])
    case 3 => Some([KStr, KWord, KStr])
    case 4 => Some([KWord, KStr])
    case 5 => Some([KSmall, KSmall, KTuple(schema == 1)])
    case 6 => Some([KSmall, KSmall, KTuple(schema == 1)])
    case 7 => Some([KSmall, KSmall])
    case 8 => Some([KWord, KStr, KTuple(schema == 1)])
    case 9 => Some([KWord, KStr, KTuple(schema == 1)])
    case 10 => Some([KWord])
    case 12 => Some([KWord, KStr])
    case 13 => Some([KWord, KWord])
    case 14 => Some([KWord])
    case 15 => Some([KStr])
    case 16 => Some([KWord])
    case 17 => Some([KWord])
    case 18 => Some([KWord])
    case 19 => Some([KWord])
    case _ => None
  }

  predicate SameKinds(fs: seq<Field>, kinds: seq<Kind>)
  {
    |fs| == |kinds| && forall i :: 0 <= i < |fs| ==> KindOf(fs[i]) == kinds[i]
  }

  function Build(mtype: U8, schema: U8, fs: seq<Field>): Option<Request>
    requires KindsOf(mtype, schema).Some? && SameKinds(fs, KindsOf(mtype, schema).value)
  {
    match mtype
    case 0 => Some(Leader)
    case 1 => Some(Client(fs[0].v))
    case 2 => Some(Heartbeat(fs[0].v))
    case 3 => Some(Open(fs[0].t, fs[1].v, fs[2].t))
    case 4 => Some(Prepare(fs[0].v, fs[1].t))
    case 5 => Some(Exec(schema == 1, fs[0].v, fs[1].v, fs[2].vs))
    case 6 => Some(Query(schema == 1, fs[0].v, fs[1].v, fs[2].vs))
    case 7 => Some(Finalize(fs[0].v, fs[1].v))
    case 8 => Some(ExecSQL(schema == 1, fs[0].v, fs[1].t, fs[2].vs))
    case 9 => Some(QuerySQL(schema == 1, fs[0].v, fs[1].t, fs[2].vs))
    case 10 => Some(Interrupt(fs[0].v))
    case 12 => Some(Add(fs[0].v, fs[1].t))
    case 13 => Some(Assign(fs[0].v, fs[1].v))
    case 14 => Some(Remove(fs[0].v))
    case 15 => Some(Dump(fs[0].t))
    case 16 => Some(ClusterInfo(fs[0].v))
    case 17 => Some(Transfer(fs[0].v))
    case 18 => Some(Describe(fs[0].v))
    case 19 => Some(Weight(fs[0].v))
    case _ => None
  }

  function ReadField(buf: Bytes, off: nat, kind: Kind): Option<(Field, nat)>
  {
    match kind
    case KSmall => (match ReadNum(buf, off, 4) case None => None case Some((n, at)) => Some((Small(n), at)))
    case KWord => (match ReadNum(buf, off, 8) case None => None case Some((n, at)) => Some((Word(n), at)))
    case KStr => (match ReadText(buf, off) case None => None case Some((t, at)) => Some((Str(t), at)))
    case KTuple(wide) =>
      match ReadTuple(buf, off, wide) case None => None case Some((vs, at)) => Some((Tuple(wide, vs), at))
  }

  function FieldReader(buf: Bytes): Reader<Kind, Field>
  {
    (at, kind) => ReadField(buf, at, kind)
  }

  /** What a server makes of a frame. */
  function ParseRequest(f: Frame): Option<Request>
  {
    match KindsOf(f.mtype, f.schema)
    case None => None
    case Some(kinds) =>
      match ReadList(FieldReader(f.body), 0, kinds)
      case None => None
      case Some((fs, end)) =>
        if end != |f.body| || !SameKinds(fs, kinds) then None else Build(f.mtype, f.schema, fs)
  }

  lemma ReadFieldAt(buf: Bytes, at: nat, f: Field, part: Bytes, end: nat)
    requires f.Valid() && f.Clean() && Encodes(f, at, part) && At(buf, at, part) && end == at + |part|
    requires f.Tuple? ==> |buf| == end
    ensures ReadField(buf, at, KindOf(f)) == Some((f, end))
  {
    match f {
      case Small(_) => ReadSmallAt(buf, at, f, part, end);
      case Word(_) => ReadLongAt(buf, at, f, part, end);
      case Str(_) => ReadStrAt(buf, at, f, part, end);
      case Tuple(_, _) => ReadTupleFieldAt(buf, at, f, part, end);
    }
  }

  lemma ReadSmallAt(buf: Bytes, at: nat, f: Field, part: Bytes, end: nat)
    requires f.Small? && f.Valid() && Encodes(f, at, part) && At(buf, at, part) && end == at + |part|
    ensures ReadField(buf, at, KindOf(f)) == Some((f, end))
  {
    Pow256Values();
    ReadNumAt(buf, at, f.v, 4);
  }

  lemma ReadLongAt(buf: Bytes, at: nat, f: Field, part: Bytes, end: nat)
    requires f.Word? && f.Valid() && Encodes(f, at, part) && At(buf, at, part) && end == at + |part|
    ensures ReadField(buf, at, KindOf(f)) == Some((f, end))
  {
    Pow256Values();
    ReadNumAt(buf, at, f.v, 8);
  }

  lemma ReadStrAt(buf: Bytes, at: nat, f: Field, part: Bytes, end: nat)
    requires f.Str? && f.Clean() && Encodes(f, at, part) && At(buf, at, part) && end == at + |part|
    ensures ReadField(buf, at, KindOf(f)) == Some((f, end))
  {
    ReadTextAt(buf, at, f.t);
  }

  lemma ReadTupleFieldAt(buf: Bytes, at: nat, f: Field, part: Bytes, end: nat)
    requires f.Tuple? && f.Valid() && f.Clean() && Encodes(f, at, part) && At(buf, at, part)
    requires |buf| == end == at + |part|
    ensures ReadField(buf, at, KindOf(f)) == Some((f, end))
  {
    var pad :| IsTuple(f.wide, f.vs, at, part, pad);
    TupleRoundTrip(buf, at, f.wide, f.vs, pad);
    ReadTupleField(buf, at, f, end);
  }

  lemma ReadTupleField(buf: Bytes, at: nat, f: Field, end: nat)
    requires f.Tuple? && ReadTuple(buf, at, f.wide) == Some((f.vs, end))
    ensures ReadField(buf, at, KindOf(f)) == Some((f, end))
  {
  }

  lemma FieldStanding(fs: seq<Field>, parts: seq<Bytes>, k: nat)
    requires AllFieldsValid(fs) && TupleLast(fs) && EncodesAll(fs, parts) && k < |fs| && fs[k].Clean()
    ensures ReadField(Join(parts), Start(0, parts, k), KindOf(fs[k])) == Some((fs[k], Start(0, parts, k + 1)))
  {
    StandsAt(fs, parts, k);
    ReadFieldAt(Join(parts), Start(0, parts, k), fs[k], parts[k], Start(0, parts, k + 1));
  }

  lemma StandsAt(fs: seq<Field>, parts: seq<Bytes>, k: nat)
    requires AllFieldsValid(fs) && TupleLast(fs) && EncodesAll(fs, parts) && k < |fs|
    ensures fs[k].Valid() && Encodes(fs[k], Start(0, parts, k), parts[k])
    ensures At(Join(parts), Start(0, parts, k), parts[k]) && Start(0, parts, k + 1) == Start(0, parts, k) + |parts[k]|
    ensures fs[k].Tuple? ==> |Join(parts)| == Start(0, parts, k) + |parts[k]|
  {
    Standing(parts, k);
  }

  lemma FieldsRoundTrip(fs: seq<Field>, kinds: seq<Kind>, parts: seq<Bytes>)
    requires AllFieldsValid(fs) && TupleLast(fs) && SameKinds(fs, kinds) && EncodesAll(fs, parts)
    requires forall i :: 0 <= i < |fs| ==> fs[i].Clean()
    ensures ReadList(FieldReader(Join(parts)), 0, kinds) == Some((fs, |Join(parts)|))
  {
    var read := FieldReader(Join(parts));
    forall k: nat | k < |fs|
      ensures read(Start(0, parts, k), kinds[k]) == Some((fs[k], Start(0, parts, k + 1)))
    {
      FieldStanding(fs, parts, k);
    }
    ReadListAll(read, 0, kinds, fs, parts);
  }

  lemma SchemaMatches(r: Request)
    ensures KindsOf(r.Code(), r.Schema()).Some?
    ensures var kinds := KindsOf(r.Code(), r.Schema()).value;
            && SameKinds(r.Fields(), kinds) && TupleLast(r.Fields())
            && Build(r.Code(), r.Schema(), r.Fields()) == Some(r)
  {
  }

  /** Request round trip: whatever the reused buffer held before, the server
      reads back exactly the request that was encoded. */
  lemma RequestRoundTrip(r: Request, body: Bytes)
    requires r.Valid() && r.Clean() && r.IsBody(body)
    ensures ParseRequest(Frame(r.Code(), r.Schema(), 0, body)) == Some(r)
  {
    SchemaMatches(r);
    var parts :| EncodesAll(r.Fields(), parts) && body == Join(parts);
    FieldsRoundTrip(r.Fields(), KindsOf(r.Code(), r.Schema()).value, parts);
  }

  // ---- Alignment and the finished message ----

  lemma TupleAligned(count: Bytes, codes: Bytes, pad: Bytes, encs: Bytes, at: nat)
    requires at % 8 == 0 && |pad| == Pad(at + |count| + |codes|) && |encs| % 8 == 0
    ensures |count + codes + pad + encs| % 8 == 0
  {
    SumAligned(at, |count| + |codes|, |pad|, |encs|);
  }

  lemma SumAligned(at: nat, front: nat, pad: nat, encs: nat)
    requires at % 8 == 0 && pad == Pad(at + front) && encs % 8 == 0
    ensures (front + pad + encs) % 8 == 0
  {
    PadAligns(at + front);
    AddAligned(at, front + pad);
    AddAligned(front + pad, encs);
  }

  lemma FieldAligned(f: Field, at: nat, part: Bytes)
    requires at % 8 == 0 && Encodes(f, at, part)
    ensures if f.Small? then |part| == 4 else |part| % 8 == 0
    ensures !f.Tuple? ==> |part| > 0
  {
    if f.Tuple? {
      var pad :| IsTuple(f.wide, f.vs, at, part, pad);
      EncsAligned(f.vs);
      if f.vs != [] { TupleAligned(LE(|f.vs|, CountSize(f.wide)), Codes(f.vs), pad, Encs(f.vs), at); }
    } else if f.Str? {
      PadAligns(|f.t| + 1);
    }
  }

  /** Without 32-bit fields every prefix of the body ends on a word boundary. */
  lemma {:induction false} WordsAligned(fs: seq<Field>, parts: seq<Bytes>, k: nat)
    requires EncodesAll(fs, parts) && k <= |fs|
    requires forall i :: 0 <= i < |fs| ==> !fs[i].Small?
    ensures Start(0, parts, k) % 8 == 0
  {
    if k > 0 {
      WordsAligned(fs, parts, k - 1);
      FieldKeepsAlignment(fs, parts, k - 1);
    }
  }

  lemma FieldKeepsAlignment(fs: seq<Field>, parts: seq<Bytes>, k: nat)
    requires EncodesAll(fs, parts) && k < |fs| && !fs[k].Small?
    requires Start(0, parts, k) % 8 == 0
    ensures Start(0, parts, k + 1) % 8 == 0
  {
    var at, part := Start(0, parts, k), parts[k];
    assert Encodes(fs[k], Start(0, parts, k), parts[k]);
    FieldAligned(fs[k], at, part);
    AddAligned(at, |part|);
    StartNext(0, parts, k);
  }

  /** Two leading 32-bit fields fill one word. */
  lemma PairAligned(fs: seq<Field>, parts: seq<Bytes>)
    requires EncodesAll(fs, parts) && 2 <= |fs| <= 3
    requires fs[0].Small? && fs[1].Small? && (|fs| == 3 ==> fs[2].Tuple?)
    ensures |Join(parts)| % 8 == 0 && |Join(parts)| > 0
  {
    assert Encodes(fs[0], Start(0, parts, 0), parts[0]) && Encodes(fs[1], Start(0, parts, 1), parts[1]);
    StartNext(0, parts, 0);
    StartNext(0, parts, 1);
    assert Start(0, parts, 0) == 0 && Start(0, parts, 2) == 8;
    if |fs| == 3 {
      FieldKeepsAlignment(fs, parts, 2);
      StartNext(0, parts, 2);
    }
  }

  /** Every encoder is safe: the finished body is never empty and always ends on
      a word boundary, so putHeader accepts it. */
  lemma BodyAligned(r: Request, body: Bytes)
    requires r.IsBody(body)
    ensures |body| % 8 == 0 && |body| > 0
  {
    var parts :| EncodesAll(r.Fields(), parts) && body == Join(parts);
    FieldShapes(r);
    ShapeAligned(r.Fields(), parts);
  }

  /** 32-bit fields come as a leading pair or not at all. */
  predicate Shapely(fs: seq<Field>)
  {
    if |fs| > 0 && fs[0].Small? then 2 <= |fs| <= 3 && fs[1].Small? && (|fs| == 3 ==> fs[2].Tuple?)
    else |fs| > 0 && !fs[0].Tuple? && forall i :: 0 <= i < |fs| ==> !fs[i].Small?
  }

  lemma FieldShapes(r: Request)
    ensures Shapely(r.Fields())
  {
  }

  lemma ShapeAligned(fs: seq<Field>, parts: seq<Bytes>)
    requires Shapely(fs) && EncodesAll(fs, parts)
    ensures |Join(parts)| % 8 == 0 && |Join(parts)| > 0
  {
    if fs[0].Small? {
      PairAligned(fs, parts);
    } else {
      WordsAligned(fs, parts, |fs|);
      StartNext(0, parts, 0);
      assert Encodes(fs[0], Start(0, parts, 0), parts[0]);
      FieldAligned(fs[0], 0, parts[0]);
      Standing(parts, 0);
    }
  }

  /** Encode a request into a message. The result is false where the source
      panics for an empty body, that is when the size in words, computed in 32-bit
      arithmetic, comes out as zero. */
  method Encode(m: Message, r: Request) returns (ok: bool)
    requires m.Valid() && r.Valid()
    modifies m, m.body, m.header
    ensures m.Valid() && (m.body == old(m.body) || fresh(m.body))
    ensures r.IsBody(m.Written()) && m.offset > 0 && m.offset % 8 == 0
    ensures ok <==> StoredWords(m.offset) != 0
    ensures ok ==>
              && m.words == StoredWords(m.offset) && m.mtype == r.Code() && m.schema == r.Schema()
              && m.header[..] == HeaderBytes(m.words, r.Code(), r.Schema(), 0)
  {
    m.Reset();
    ghost var parts := PutFields(m, r.Fields());
    BodyAligned(r, m.Written());
    ok := StoredWords(m.offset) != 0;
    if ok {
      m.PutHeader(r.Code(), r.Schema());
    }
  }

  /** End to end: bytes sent for a request, followed by anything, are read by the
      server as that request and nothing more, for bodies under 2^32 bytes. */
  lemma SentRequestIsRead(r: Request, body: Bytes, rest: Bytes)
    requires r.Valid() && r.Clean() && r.IsBody(body) && |body| < TWO32
    ensures var sent := HeaderBytes(StoredWords(|body|), r.Code(), r.Schema(), 0) + body;
            var f := Frame(r.Code(), r.Schema(), 0, body);
            TakeFrame(sent + rest) == Some((f, rest)) && ParseRequest(f) == Some(r)
  {
    BodyAligned(r, body);
    EncodedSizeIff(r.Code(), r.Schema(), body, rest);
    RequestRoundTrip(r, body);
  }

  // ---- The driver's choice of parameter format ----

  /** Conn.ExecContext and Conn.QueryContext: too many arguments are refused, and
      the wide format is used only when the narrow one cannot count them. */
  function SQLRequest(query: bool, db: nat, sql: Bytes, args: seq<Value>): Option<Request>
  {
    if |args| > TWO32 - 1 then None
    else
      var wide := |args| > 255;
      Some(if query then QuerySQL(wide, db, sql, args) else ExecSQL(wide, db, sql, args))
  }

  /** The driver never hands the encoder a count it would refuse, and whatever
      format it chooses, the server reads the same statement and parameters. */
  lemma DriverFormat(query: bool, db: nat, sql: Bytes, args: seq<Value>)
    requires db < TWO64 && NulFree(sql) && AllValid(args) && AllClean(args)
    ensures SQLRequest(query, db, sql, args) == None <==> |args| >= 0x1_0000_0000
    ensures forall r :: SQLRequest(query, db, sql, args) == Some(r) ==>
              && r.Valid() && (if query then r.QuerySQL? else r.ExecSQL?)
              && r.db == db && r.sql == sql && r.values == args && (r.wide <==> |args| > 255)
              && forall body :: r.IsBody(body) ==>
                   ParseRequest(Frame(if query then 9 else 8, if |args| > 255 then 1 else 0, 0, body)) == Some(r)
  {
    if |args| < TWO32 {
      var r := SQLRequest(query, db, sql, args).value;
      SQLIsValid(query, r.wide, db, sql, args);
      forall body | r.IsBody(body)
        ensures ParseRequest(Frame(if query then 9 else 8, if |args| > 255 then 1 else 0, 0, body)) == Some(r)
      {
        RequestRoundTrip(r, body);
      }
    }
  }

  lemma SQLIsValid(query: bool, wide: bool, db: nat, sql: Bytes, args: seq<Value>)
    requires db < TWO64 && NulFree(sql) && AllValid(args) && AllClean(args) && |args| <= Limit(wide)
    ensures var r := if query then QuerySQL(wide, db, sql, args) else ExecSQL(wide, db, sql, args);
            r.Valid() && r.Clean()
  {
  }
}
