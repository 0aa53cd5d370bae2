/** Responses made of plain fields (internal/protocol/response.go). Rows are
    decoded in ProtocolRows, lists in Lists. */
module Responses {
  import opened Cluster
  import opened Wire
  import opened Messages
  import opened Readers
  import opened Requests

  const FAILURE: U8 := 0

  /** The decoders; a legacy node answers the same request with fewer fields. */
  datatype Decoder = Welcome | NodeLegacy | LeaderNode | Db | Stmt | Empty | Result | Metadata {

    function Code(): U8
    {
      match this
      case NodeLegacy => 1
      case LeaderNode => 1
      case Welcome => 2
      case Db => 4
      case Stmt => 5
      case Result => 6
      case Empty => 8
      case Metadata => 10
    }

    /** What is read, in order; padding words are read and dropped. */
    function Kinds(): seq<Kind>
    {
      match this
      case NodeLegacy => [KStr]
      case LeaderNode => [KWord, KStr]
      case Welcome => [KWord]
      case Db => [KSmall, KSmall]
      case Stmt => [KSmall, KSmall, KWord]
      case Result => [KWord, KWord]
      case Empty => [KWord]
      case Metadata => [KWord, KWord]
    }
  }

  const FAILURE_KINDS: seq<Kind> := [KWord, KStr]

  datatype Reply = Values(fields: seq<Field>) | Failed(code: nat, description: Bytes) | WrongType(mtype: U8)

  /** The kinds a decoder reads from a message of the given type. */
  function Expected(d: Decoder, mtype: U8): seq<Kind>
  {
    if mtype == FAILURE then FAILURE_KINDS else if mtype == d.Code() then d.Kinds() else []
  }

  /** The body of a failure: a code and a description. */
  ghost predicate IsFailure(body: Bytes, code: nat, description: Bytes, end: nat)
  {
    ReadList(FieldReader(body), 0, FAILURE_KINDS) == Some(([Word(code), Str(description)], end))
  }

  ghost predicate FailureReadable(body: Bytes)
  {
    ReadList(FieldReader(body), 0, FAILURE_KINDS).Some?
  }

  method DecodeFailure(m: Message) returns (code: nat, description: Bytes)
    requires m.Received() && m.offset == 0 && FailureReadable(m.Body())
    modifies m`offset
    ensures m.Received() && IsFailure(m.Body(), code, description, m.offset)
  {
    var fs := GetFields(m, FAILURE_KINDS);
    assert KindOf(fs[0]) == KWord && KindOf(fs[1]) == KStr;
    assert fs == [Word(fs[0].v), Str(fs[1].t)];
    return fs[0].v, fs[1].t;
  }

  /** A failure is reported whatever was asked for, any other type but the wanted
      one is an error, and otherwise exactly the fields in the body come out. */
  method Decode(d: Decoder, m: Message) returns (r: Reply)
    requires m.Received() && m.offset == 0 && ReadList(FieldReader(m.Body()), 0, Expected(d, m.mtype)).Some?
    modifies m`offset
    ensures m.Received()
    ensures r.WrongType? <==> m.mtype != FAILURE && m.mtype != d.Code()
    ensures r.WrongType? ==> r.mtype == m.mtype
    ensures r.Failed? <==> m.mtype == FAILURE
    ensures !r.WrongType? ==>
              ReadList(FieldReader(m.Body()), 0, Expected(d, m.mtype))
              == Some((if r.Failed? then [Word(r.code), Str(r.description)] else r.fields, m.offset))
  {
    if m.mtype == FAILURE {
      var code, description := DecodeFailure(m);
      return Failed(code, description);
    }
    if m.mtype != d.Code() {
      return WrongType(m.mtype);
    }
    var fs := GetFields(m, d.Kinds());
    r := Values(fs);
  }

  method GetFields(m: Message, kinds: seq<Kind>) returns (fs: seq<Field>)
    requires m.Received() && ReadList(FieldReader(m.Body()), m.offset, kinds).Some?
    requires forall i :: 0 <= i < |kinds| ==> !kinds[i].KTuple?
    modifies m`offset
    ensures m.Received() && ReadList(FieldReader(m.Body()), old(m.offset), kinds) == Some((fs, m.offset))
    ensures SameKinds(fs, kinds)
  {
    fs := [];
    ghost var body, read, start := m.Body(), FieldReader(m.Body()), m.offset;
    for i := 0 to |kinds|
      invariant m.Received() && m.Body() == body
      invariant ReadList(read, start, kinds[..i]) == Some((fs, m.offset)) && SameKinds(fs, kinds[..i])
    {
      ReadListPrefix(read, start, kinds, i);
      var f := GetNext(m, kinds, i, read, start, fs);
      fs := fs + [f];
    }
    assert kinds[..|kinds|] == kinds;
  }

  /** Read field i of a list of which the first i have been read. */
  method GetNext(m: Message, kinds: seq<Kind>, i: nat,
                 ghost read: Reader<Kind, Field>, ghost start: nat, ghost fs: seq<Field>)
    returns (f: Field)
    requires m.Received() && read == FieldReader(m.Body()) && i < |kinds| && !kinds[i].KTuple?
    requires ReadField(m.Body(), m.offset, kinds[i]).Some? && ReadList(read, start, kinds[..i]) == Some((fs, m.offset))
    modifies m`offset
    ensures m.Received() && ReadList(read, start, kinds[..i + 1]) == Some((fs + [f], m.offset)) && KindOf(f) == kinds[i]
  {
    ghost var at := m.offset;
    f := GetField(m, kinds[i]);
    ReadListStep(read, start, kinds, i, fs, at, f, m.offset);
  }

  method GetField(m: Message, kind: Kind) returns (f: Field)
    requires m.Received() && !kind.KTuple? && ReadField(m.Body(), m.offset, kind).Some?
    modifies m`offset
    ensures m.Received() && ReadField(m.Body(), old(m.offset), kind) == Some((f, m.offset)) && KindOf(f) == kind
  {
    match kind {
      case KSmall =>
        var n := m.GetNum(4);
        f := Small(n);
      case KWord =>
        var n := m.GetUint64();
        f := Word(n);
      case KStr =>
        var t := m.GetString();
        f := Str(t);
    }
  }

  // ---- The server's side ----

  /** What a server answers. Other stands for the types whose bodies are not lists of
      fields, and for types nobody knows. */
  datatype Answer =
    | Failure(code: nat, message: Bytes)
    | Leads(id: nat, address: Bytes)
    | LeadsLegacy(address: Bytes)
    | Welcomes(heartbeatTimeout: nat)
    | Opened(db: nat)
    | Prepared(db: nat, stmt: nat, params: nat)
    | Executed(lastInsertID: nat, rowsAffected: nat)
    | Acknowledged
    | Described(failureDomain: nat, weight: nat)
    | Other(mtype: U8, bytes: Bytes)
  {
    /** The published response types. */
    function Type(): U8
    {
      match this
      case Failure(_, _) => 0
      case Leads(_, _) => 1
      case LeadsLegacy(_) => 1
      case Welcomes(_) => 2
      case Opened(_) => 4
      case Prepared(_, _, _) => 5
      case Executed(_, _) => 6
      case Acknowledged => 8
      case Described(_, _) => 10
      case Other(mtype, _) => mtype
    }

    function Body(): Bytes
    {
      match this
      case Failure(code, message) => LE(code, 8) + TextBytes(message)
      case Leads(id, address) => LE(id, 8) + TextBytes(address)
      case LeadsLegacy(address) => TextBytes(address)
      case Welcomes(heartbeatTimeout) => LE(heartbeatTimeout, 8)
      case Opened(db) => LE(db, 4) + LE(0, 4)
      case Prepared(db, stmt, params) => LE(db, 4) + LE(stmt, 4) + LE(params, 8)
      case Executed(lastInsertID, rowsAffected) => LE(lastInsertID, 8) + LE(rowsAffected, 8)
      case Acknowledged => LE(0, 8)
      case Described(failureDomain, weight) => LE(failureDomain, 8) + LE(weight, 8)
      case Other(_, bytes) => bytes
    }

    /** What the client is to learn, in order. */
    function Fields(): seq<Field>
    {
      match this
      case Failure(code, message) => [Word(code), Str(message)]
      case Leads(id, address) => [Word(id), Str(address)]
      case LeadsLegacy(address) => [Str(address)]
      case Welcomes(heartbeatTimeout) => [Word(heartbeatTimeout)]
      case Opened(db) => [Small(db), Small(0)]
      case Prepared(db, stmt, params) => [Small(db), Small(stmt), Word(params)]
      case Executed(lastInsertID, rowsAffected) => [Word(lastInsertID), Word(rowsAffected)]
      case Acknowledged => [Word(0)]
      case Described(failureDomain, weight) => [Word(failureDomain), Word(weight)]
      case Other(_, _) => []
    }

    predicate Valid()
    {
      AllFieldsValid(Fields()) && (forall i :: 0 <= i < |Fields()| ==> Fields()[i].Clean())
      && (Other? ==> mtype !in [0, 1, 2, 4, 5, 6, 8, 10])
    }

    /** Is this what a decoder waits for? */
    predicate For(d: Decoder)
    {
      match d
      case Welcome => Welcomes?
      case NodeLegacy => LeadsLegacy?
      case LeaderNode => Leads?
      case Db => Opened?
      case Stmt => Prepared?
      case Empty => Acknowledged?
      case Result => Executed?
      case Metadata => Described?
    }
  }

  /** The decoder of a request, given what the server answered: the wanted answer
      comes out field by field and is used up, a failure is reported with its code
      and message, and anything else is an error. The two answers to a leader request
      share a type, so there the protocol version has to match. */
  method DecodeAnswer(d: Decoder, m: Message, ghost a: Answer) returns (r: Reply)
    requires m.Received() && m.offset == 0 && m.mtype == a.Type() && m.Body() == a.Body() && a.Valid()
    requires a.Leads? ==> d != NodeLegacy
    requires a.LeadsLegacy? ==> d != LeaderNode
    modifies m`offset
    ensures a.Failure? ==> r == Failed(a.code, a.message) && m.HasBeenConsumed()
    ensures a.For(d) ==> r == Values(a.Fields()) && m.HasBeenConsumed()
    ensures !a.Failure? && !a.For(d) ==> r == WrongType(a.Type())
  {
    ghost var parts := AnswerParts(a);
    if a.Failure? || a.For(d) {
      AnswerReadable(d, a, parts);
    }
    r := Decode(d, m);
  }

  /** The fields of an answer, encoded one by one, are its body. */
  ghost function AnswerParts(a: Answer): seq<Bytes>
  {
    match a
    case Failure(code, message) => [LE(code, 8), TextBytes(message)]
    case Leads(id, address) => [LE(id, 8), TextBytes(address)]
    case LeadsLegacy(address) => [TextBytes(address)]
    case Welcomes(heartbeatTimeout) => [LE(heartbeatTimeout, 8)]
    case Opened(db) => [LE(db, 4), LE(0, 4)]
    case Prepared(db, stmt, params) => [LE(db, 4), LE(stmt, 4), LE(params, 8)]
    case Executed(lastInsertID, rowsAffected) => [LE(lastInsertID, 8), LE(rowsAffected, 8)]
    case Acknowledged => [LE(0, 8)]
    case Described(failureDomain, weight) => [LE(failureDomain, 8), LE(weight, 8)]
    case Other(_, _) => []
  }

  lemma AnswerReadable(d: Decoder, a: Answer, parts: seq<Bytes>)
    requires a.Valid() && (a.Failure? || a.For(d)) && parts == AnswerParts(a)
    ensures ReadList(FieldReader(a.Body()), 0, Expected(d, a.Type())) == Some((a.Fields(), |a.Body()|))
  {
    AnswerBody(a, parts);
    AnswerKinds(d, a);
    FieldsRoundTrip(a.Fields(), Expected(d, a.Type()), parts);
  }

  lemma AnswerKinds(d: Decoder, a: Answer)
    requires a.Failure? || a.For(d)
    ensures SameKinds(a.Fields(), Expected(d, a.Type())) && TupleLast(a.Fields())
  {
  }

  lemma AnswerBody(a: Answer, parts: seq<Bytes>)
    requires !a.Other? && parts == AnswerParts(a)
    ensures EncodesAll(a.Fields(), parts) && Join(parts) == a.Body()
  {
    if |parts| == 1 {
      JoinOne(parts);
      assert parts[..1] == parts;
    } else if |parts| == 2 {
      JoinTwo(parts);
    } else {
      JoinThree(parts);
    }
  }
}
