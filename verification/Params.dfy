/** Statement parameters: the two tuple formats (internal/protocol/message.go)
    and a reference reader for them. */
module Params {
  import opened Cluster
  import opened Wire
  import opened Messages
  import opened Readers

  function Codes(vs: seq<Value>): (b: Bytes)
    ensures |b| == |vs|
  {
    seq(|vs|, i requires 0 <= i < |vs| => vs[i].Code())
  }

  predicate AllValid(vs: seq<Value>)
  {
    forall i :: 0 <= i < |vs| ==> vs[i].Valid()
  }

  predicate AllClean(vs: seq<Value>)
  {
    forall i :: 0 <= i < |vs| ==> vs[i].Clean()
  }

  function EncList(vs: seq<Value>): (parts: seq<Bytes>)
    ensures |parts| == |vs|
  {
    seq(|vs|, i requires 0 <= i < |vs| => vs[i].Enc())
  }

  function Encs(vs: seq<Value>): Bytes
  {
    Join(EncList(vs))
  }

  lemma EncsAligned(vs: seq<Value>)
    ensures |Encs(vs)| % 8 == 0
  {
    var parts := EncList(vs);
    forall i | 0 <= i < |parts| ensures |parts[i]| % 8 == 0 {
      EncAligned(vs[i]);
    }
    JoinAligned(parts);
  }

  /** The count takes four bytes in the wide format and one in the narrow one. */
  function CountSize(wide: bool): nat { if wide then 4 else 1 }

  /** Most parameters a format can count. */
  function Limit(wide: bool): nat { if wide then TWO32 - 1 else 255 }

  /** `pad` is whatever the reused buffer held between the type codes and the
      first value: the encoder skips those bytes without writing them. */
  function TupleBytes(wide: bool, vs: seq<Value>, pad: Bytes): Bytes
  {
    if vs == [] then [] else LE(|vs|, CountSize(wide)) + Codes(vs) + pad + Encs(vs)
  }

  function PadSize(wide: bool, at: nat, n: nat): nat
  {
    if n == 0 then 0 else Pad(at + CountSize(wide) + n)
  }

  // ---- Encoder ----

  method PutNamedValues(m: Message, wide: bool, values: seq<Value>) returns (ghost pad: Bytes)
    requires m.Valid() && |values| <= Limit(wide)
    modifies m`body, m`offset, m.body
    ensures m.Valid() && (m.body == old(m.body) || fresh(m.body))
    ensures |pad| == PadSize(wide, old(m.offset), |values|)
    ensures m.Written() == old(m.Written()) + TupleBytes(wide, values, pad)
  {
    pad := [];
    if |values| == 0 {
      return;
    }
    PutCount(m, wide, |values|);
    pad := PutTupleRest(m, values, old(m.Written()), LE(|values|, CountSize(wide)), EncList(values));
  }

  method PutCount(m: Message, wide: bool, n: nat)
    requires m.Valid() && n <= Limit(wide)
    modifies m`body, m`offset, m.body
    ensures m.Valid() && (m.body == old(m.body) || fresh(m.body))
    ensures m.Written() == old(m.Written()) + LE(n, CountSize(wide))
  {
    if wide {
      m.PutUint32(n);
    } else {
      m.PutUint8(n);
      assert LE(n, 1) == [n];
    }
  }

  /** The type codes, the skipped bytes and the values. */
  method PutTupleRest(m: Message, values: seq<Value>, ghost before: Bytes, ghost count: Bytes, ghost parts: seq<Bytes>)
    returns (ghost pad: Bytes)
    requires m.Valid() && m.Written() == before + count && parts == EncList(values)
    modifies m`body, m`offset, m.body
    ensures m.Valid() && (m.body == old(m.body) || fresh(m.body))
    ensures |pad| == Pad(old(m.offset) + |values|)
    ensures m.Written() == before + (count + Codes(values) + pad + Join(parts))
  {
    PutCodes(m, values, Codes(values));
    pad := SkipToWord(m);
    PutValues(m, values, parts);
    ConcatFive(before, count, Codes(values), pad, Join(parts));
  }

  lemma ConcatFive(o: Bytes, a: Bytes, b: Bytes, c: Bytes, d: Bytes)
    ensures o + a + b + c + d == o + (a + b + c + d)
  {
  }

  method PutCodes(m: Message, values: seq<Value>, ghost codes: Bytes)
    requires m.Valid() && codes == Codes(values)
    modifies m`body, m`offset, m.body
    ensures m.Valid() && (m.body == old(m.body) || fresh(m.body))
    ensures m.Written() == old(m.Written()) + codes
  {
    for i := 0 to |values|
      invariant m.Valid() && (m.body == old(m.body) || fresh(m.body))
      invariant m.Written() == old(m.Written()) + codes[..i]
    {
      m.PutUint8(values[i].Code());
      assert codes[..i + 1] == codes[..i] + [codes[i]];
    }
    assert codes[..|values|] == codes;
  }

  /** Move to the next word boundary without touching the bytes passed over. */
  method SkipToWord(m: Message) returns (ghost pad: Bytes)
    requires m.Valid()
    modifies m`body, m`offset
    ensures m.Valid() && (m.body == old(m.body) || fresh(m.body))
    ensures |pad| == Pad(old(m.offset)) && m.Written() == old(m.Written()) + pad
  {
    m.BufferForPut(1);
    ghost var at := m.offset;
    var trailing := m.offset % 8;
    if trailing != 0 {
      m.offset := m.offset + (8 - trailing);
    }
    pad := m.body[at..m.offset];
  }

  method PutValues(m: Message, values: seq<Value>, ghost parts: seq<Bytes>)
    requires m.Valid() && parts == EncList(values)
    modifies m`body, m`offset, m.body
    ensures m.Valid() && (m.body == old(m.body) || fresh(m.body))
    ensures m.Written() == old(m.Written()) + Join(parts)
  {
    for i := 0 to |values|
      invariant m.Valid() && (m.body == old(m.body) || fresh(m.body))
      invariant m.Written() == old(m.Written()) + Join(parts[..i])
    {
      PutPart(m, values[i], old(m.Written()), parts, i);
    }
    assert parts[..|values|] == parts;
  }

  method PutPart(m: Message, v: Value, ghost before: Bytes, ghost parts: seq<Bytes>, ghost i: nat)
    requires m.Valid() && i < |parts| && parts[i] == v.Enc()
    requires m.Written() == before + Join(parts[..i])
    modifies m`body, m`offset, m.body
    ensures m.Valid() && (m.body == old(m.body) || fresh(m.body))
    ensures m.Written() == before + Join(parts[..i + 1])
  {
    m.PutValue(v);
    assert parts[..i + 1] == parts[..i] + [parts[i]];
    JoinSnoc(parts[..i], parts[i]);
  }

  // ---- Reference reader ----

  /** A tuple is the last field of its message; no bytes at all mean no
      parameters. */
  function ReadTupleWith(read: Reader<U8, Value>, buf: Bytes, off: nat, wide: bool): Option<(seq<Value>, nat)>
  {
    if off == |buf| then Some(([], off)) else
    match ReadNum(buf, off, CountSize(wide))
    case None => None
    case Some((n, at)) =>
      if at + n > |buf| then None
      else ReadList(read, at + n + Pad(at + n), buf[at..at + n])
  }

  function ValueReader(buf: Bytes): Reader<U8, Value>
  {
    (at, code) => ReadValue(buf, at, code)
  }

  function ReadTuple(buf: Bytes, off: nat, wide: bool): Option<(seq<Value>, nat)>
  {
    ReadTupleWith(ValueReader(buf), buf, off, wide)
  }

  lemma ValueReaderDecodes(buf: Bytes, vs: seq<Value>)
    requires AllValid(vs) && AllClean(vs)
    ensures Decodes(ValueReader(buf), buf, Codes(vs), vs, EncList(vs))
  {
    forall k: nat, at: nat | k < |vs| && At(buf, at, EncList(vs)[k])
      ensures ReadValue(buf, at, Codes(vs)[k]) == Some((vs[k], at + |EncList(vs)[k]|))
    {
      ReadListedAt(buf, at, vs, k, Codes(vs)[k], EncList(vs)[k]);
    }
  }

  lemma ReadListedAt(buf: Bytes, at: nat, vs: seq<Value>, k: nat, code: U8, part: Bytes)
    requires AllValid(vs) && AllClean(vs) && k < |vs| && code == vs[k].Code() && part == vs[k].Enc()
    requires At(buf, at, part)
    ensures ReadValue(buf, at, code) == Some((vs[k], at + |part|))
  {
    ReadPartAt(buf, at, vs[k], code, part);
  }

  lemma ReadTupleAt(read: Reader<U8, Value>, buf: Bytes, off: nat, wide: bool,
                    codes: Bytes, vs: seq<Value>, parts: seq<Bytes>, pad: Bytes, end: nat)
    requires Decodes(read, buf, codes, vs, parts) && 0 < |vs| <= Limit(wide)
    requires |pad| == PadSize(wide, off, |vs|)
    requires At(buf, off, LE(|vs|, CountSize(wide)) + codes + pad + Join(parts))
    requires end == off + |LE(|vs|, CountSize(wide)) + codes + pad + Join(parts)|
    ensures ReadTupleWith(read, buf, off, wide) == Some((vs, end))
  {
    var count := LE(|vs|, CountSize(wide));
    AtFour(buf, off, count, codes, pad, Join(parts));
    ReadTupleParts(read, buf, off, wide, codes, vs, parts, off + |count| + |codes| + |pad|, end);
  }

  lemma ReadTupleParts(read: Reader<U8, Value>, buf: Bytes, off: nat, wide: bool,
                       codes: Bytes, vs: seq<Value>, parts: seq<Bytes>, at: nat, end: nat)
    requires Decodes(read, buf, codes, vs, parts) && 0 < |vs| <= Limit(wide)
    requires At(buf, off, LE(|vs|, CountSize(wide))) && At(buf, off + CountSize(wide), codes)
    requires at == off + CountSize(wide) + |codes| + Pad(off + CountSize(wide) + |codes|) && At(buf, at, Join(parts))
    requires end == at + |Join(parts)|
    ensures ReadTupleWith(read, buf, off, wide) == Some((vs, end))
  {
    ReadCount(buf, off, wide, |vs|);
    AtSlice(buf, off + CountSize(wide), codes);
    ReadListAt(read, buf, at, codes, vs, parts);
    ReadCounted(read, buf, off, wide, off + CountSize(wide), codes, at, Some((vs, end)));
  }

  lemma ReadCounted(read: Reader<U8, Value>, buf: Bytes, off: nat, wide: bool, after: nat, codes: Bytes, at: nat,
                    result: Option<(seq<Value>, nat)>)
    requires off < |buf| && ReadNum(buf, off, CountSize(wide)) == Some((|codes|, after))
    requires after + |codes| <= |buf| && buf[after..after + |codes|] == codes
    requires at == after + |codes| + Pad(after + |codes|) && ReadList(read, at, codes) == result
    ensures ReadTupleWith(read, buf, off, wide) == result
  {
  }

  lemma ReadCount(buf: Bytes, off: nat, wide: bool, n: nat)
    requires n <= Limit(wide) && At(buf, off, LE(n, CountSize(wide)))
    ensures ReadNum(buf, off, CountSize(wide)) == Some((n, off + CountSize(wide)))
  {
    Pow256Values();
    ReadNumAt(buf, off, n, CountSize(wide));
  }

  /** Parameter tuples are uniquely decodable: the reader recovers every value
      list from either format, whatever stale bytes the padding holds. */
  lemma TupleRoundTrip(buf: Bytes, off: nat, wide: bool, vs: seq<Value>, pad: Bytes)
    requires AllValid(vs) && AllClean(vs) && |vs| <= Limit(wide)
    requires |pad| == PadSize(wide, off, |vs|)
    requires At(buf, off, TupleBytes(wide, vs, pad)) && |buf| == off + |TupleBytes(wide, vs, pad)|
    ensures ReadTuple(buf, off, wide) == Some((vs, |buf|))
  {
    if vs != [] {
      ValuesRoundTrip(ValueReader(buf), buf, off, wide, vs, pad, |buf|);
    }
  }

  lemma ValuesRoundTrip(read: Reader<U8, Value>, buf: Bytes, off: nat, wide: bool, vs: seq<Value>, pad: Bytes, end: nat)
    requires read == ValueReader(buf) && AllValid(vs) && AllClean(vs) && 0 < |vs| <= Limit(wide)
    requires |pad| == PadSize(wide, off, |vs|)
    requires At(buf, off, TupleBytes(wide, vs, pad)) && end == off + |TupleBytes(wide, vs, pad)|
    ensures ReadTupleWith(read, buf, off, wide) == Some((vs, end))
  {
    ValueReaderDecodes(buf, vs);
    ReadTupleAt(read, buf, off, wide, Codes(vs), vs, EncList(vs), pad, end);
  }
}
