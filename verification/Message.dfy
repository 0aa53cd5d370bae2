/** Message (internal/protocol/message.go): one request or response, held in a
    buffer that is reused and grown across messages. */
module Messages {
  import opened Cluster
  import opened Wire
  import opened Framing

  class Message {
    var words: nat
    var mtype: U8
    var schema: U8
    var extra: nat
    const header: array<U8>
    var body: array<U8>
    var offset: nat

    ghost predicate Valid()
      reads this
    {
      && header.Length == 8 && header != body
      && body.Length > 0 && body.Length % 8 == 0
      && offset <= body.Length && words < TWO32
    }

    /** What has been put so far. */
    ghost function Written(): Bytes
      reads this, body
      requires offset <= body.Length
    {
      body[..offset]
    }

    constructor (initialBufferSize: nat)
      requires initialBufferSize % 8 == 0 && initialBufferSize > 0
      ensures Valid() && fresh(header) && fresh(body) && offset == 0 && words == 0
    {
      header := new U8[8](_ => 0);
      body := new U8[initialBufferSize](_ => 0);
      words, mtype, schema, extra, offset := 0, 0, 0, 0, 0;
    }

    method Reset()
      requires Valid()
      modifies this`words, this`mtype, this`schema, this`extra, this`offset, header
      ensures Valid() && words == 0 && mtype == 0 && schema == 0 && extra == 0 && offset == 0
      ensures header[..] == Zeros(8)
    {
      words, mtype, schema, extra := 0, 0, 0, 0;
      for i := 0 to 8
        modifies header
        invariant forall k :: 0 <= k < i ==> header[k] == 0
      {
        header[i] := 0;
      }
      offset := 0;
    }

    // ---- Putting ----

    /** Double the buffer until there is room, keeping what was written. */
    method BufferForPut(size: nat)
      requires Valid()
      modifies this`body
      ensures Valid() && offset + size <= body.Length
      ensures body == old(body) || fresh(body)
      ensures Written() == old(Written())
    {
      while offset + size > body.Length
        invariant Valid() && (body == old(body) || fresh(body))
        invariant Written() == old(Written())
        decreases offset + size - body.Length
      {
        Double();
      }
    }

    method Double()
      requires Valid()
      modifies this`body
      ensures Valid() && fresh(body) && body.Length == 2 * old(body.Length)
      ensures Written() == old(Written())
    {
      var bytes := new U8[body.Length * 2](_ => 0);
      forall i | 0 <= i < body.Length {
        bytes[i] := body[i];
      }
      body := bytes;
    }

    /** Append raw bytes. */
    method Append(data: Bytes)
      requires Valid()
      modifies this`body, this`offset, body
      ensures Valid() && (body == old(body) || fresh(body))
      ensures Written() == old(Written()) + data
    {
      BufferForPut(|data|);
      forall i | 0 <= i < |data| {
        body[offset + i] := data[i];
      }
      offset := offset + |data|;
    }

    method PutUint8(v: U8)
      requires Valid()
      modifies this`body, this`offset, body
      ensures Valid() && (body == old(body) || fresh(body))
      ensures Written() == old(Written()) + [v]
    {
      Append([v]);
    }

    method PutUint32(v: nat)
      requires Valid()
      modifies this`body, this`offset, body
      ensures Valid() && (body == old(body) || fresh(body))
      ensures Written() == old(Written()) + LE(v, 4)
    {
      Append(LE(v, 4));
    }

    method PutUint64(v: nat)
      requires Valid()
      modifies this`body, this`offset, body
      ensures Valid() && (body == old(body) || fresh(body))
      ensures Written() == old(Written()) + LE(v, 8)
    {
      Append(LE(v, 8));
    }

    /** Write NUL bytes over whatever the buffer held. */
    method ZeroFill(at: nat, n: nat)
      requires at + n <= body.Length
      modifies body
      ensures body[..at] == old(body[..at]) && body[at..at + n] == Zeros(n)
    {
      for i := 0 to n
        invariant body[..at] == old(body[..at])
        invariant forall k :: at <= k < at + i ==> body[k] == 0
      {
        body[at + i] := 0;
      }
    }

    /** Copy `v` and pad it with NUL bytes. */
    method PutPadded(v: Bytes, zeros: nat)
      requires Valid()
      modifies this`body, this`offset, body
      ensures Valid() && (body == old(body) || fresh(body))
      ensures Written() == old(Written()) + (v + Zeros(zeros))
    {
      BufferForPut(|v| + zeros);
      forall i | 0 <= i < |v| {
        body[offset + i] := v[i];
      }
      var at := offset + |v|;
      ghost var front := body[..at];
      assert front == old(Written()) + v;
      ZeroFill(at, zeros);
      offset := at + zeros;
      assert Written() == body[..at] + body[at..at + zeros];
    }

    method PutString(v: Bytes)
      requires Valid()
      modifies this`body, this`offset, body
      ensures Valid() && (body == old(body) || fresh(body))
      ensures Written() == old(Written()) + TextBytes(v)
    {
      PutPadded(v, 1 + Pad(|v| + 1));
      assert TextBytes(v) == v + Zeros(1 + Pad(|v| + 1));
    }

    method PutBlob(v: Bytes)
      requires Valid()
      modifies this`body, this`offset, body
      ensures Valid() && (body == old(body) || fresh(body))
      ensures Written() == old(Written()) + BlobBytes(v)
    {
      PutUint64(|v|);
      PutPadded(v, Pad(|v|));
    }

    method PutValue(v: Value)
      requires Valid()
      modifies this`body, this`offset, body
      ensures Valid() && (body == old(body) || fresh(body))
      ensures Written() == old(Written()) + v.Enc()
    {
      match v {
        case Integer(i) => PutUint64(ToU64(i));
        case Float(bits) => PutUint64(bits);
        case Boolean(flag) => PutUint64(if flag then 1 else 0);
        case Blob(d) => PutBlob(d);
        case Text(t) => PutString(t);
        case Null => PutUint64(0);
        case Time(text) => PutString(text);
        case UnixTime(secs) => PutUint64(ToU64(secs));
      }
    }

    /** Finish the message: set its type and its size in words. */
    method PutHeader(mtype: U8, schema: U8)
      requires Valid() && offset > 0 && offset % 8 == 0 && StoredWords(offset) != 0
      modifies this`mtype, this`schema, this`extra, this`words, header
      ensures Valid() && this.mtype == mtype && this.schema == schema && extra == 0
      ensures words == StoredWords(offset)
      ensures header[..] == HeaderBytes(words, mtype, schema, 0)
      ensures offset < TWO32 ==> words * 8 == offset
    {
      this.mtype, this.schema, extra := mtype, schema, 0;
      words := StoredWords(offset);
      var h := HeaderBytes(words, mtype, schema, extra);
      forall i | 0 <= i < 8 {
        header[i] := h[i];
      }
    }

    // ---- Getting ----

    /** Body size as the readers compute it, in 32-bit arithmetic. */
    function Size(): nat
      reads this
    {
      words * 8 % TWO32
    }

    /** A received message: its body fills the front of the buffer. */
    ghost predicate Received()
      reads this
    {
      Valid() && offset <= Size() <= body.Length
    }

    ghost function Body(): Bytes
      reads this, body
      requires Size() <= body.Length
    {
      body[..Size()]
    }

    method GetNum(n: nat) returns (v: nat)
      requires Received() && n > 0 && ReadNum(Body(), offset, n).Some?
      modifies this`offset
      ensures Received() && ReadNum(Body(), old(offset), n) == Some((v, offset))
    {
      v := Num(body[offset..offset + n]);
      assert body[offset..offset + n] == Body()[offset..offset + n];
      offset := offset + n;
    }

    method GetUint8() returns (v: U8)
      requires Received() && offset < Size()
      modifies this`offset
      ensures Received() && offset == old(offset) + 1 && v == Body()[old(offset)]
    {
      v := body[offset];
      offset := offset + 1;
    }

    method GetUint64() returns (v: nat)
      requires Received() && ReadNum(Body(), offset, 8).Some?
      modifies this`offset
      ensures Received() && ReadNum(Body(), old(offset), 8) == Some((v, offset))
      ensures v < TWO64
    {
      NumBound(Body()[offset..offset + 8]);
      Pow256Values();
      v := GetNum(8);
    }

    method GetString() returns (s: Bytes)
      requires Received() && ReadText(Body(), offset).Some?
      modifies this`offset
      ensures Received() && ReadText(Body(), old(offset)) == Some((s, offset))
    {
      // The search runs over the whole buffer, stale bytes included.
      var k := NulIndex(body[..], offset);
      SameNul(body[..], Size(), offset);
      s := body[offset..k];
      assert body[offset..k] == Body()[offset..k];
      var index := k - offset + 1;
      offset := offset + index + Pad(index);
    }

    method GetBytes(count: nat) returns (data: Bytes)
      requires Received() && offset + count <= Size()
      modifies this`offset
      ensures Received() && offset == old(offset) + count && data == Body()[old(offset)..offset]
    {
      data := [];
      ghost var at := offset;
      for i := 0 to count
        invariant Received() && offset == at + i && data == Body()[at..offset]
      {
        var b := GetUint8();
        data := data + [b];
      }
    }

    method GetBlob() returns (data: Bytes)
      requires Received() && ReadBlob(Body(), offset).Some?
      modifies this`offset
      ensures Received() && ReadBlob(Body(), old(offset)) == Some((data, offset))
    {
      var size := GetUint64();
      ghost var at := offset;
      data := GetBytes(size);
      for i := 0 to Pad(size)
        invariant Received() && offset == at + size + i
      {
        var _ := GetUint8();
      }
    }

    predicate HasBeenConsumed()
      reads this
    {
      offset == Size()
    }

    function LastByte(): U8
      reads this, body
      requires 0 < Size() <= body.Length
    {
      body[Size() - 1]
    }
  }

  lemma SameNul(buf: Bytes, size: nat, off: nat)
    requires off <= size <= |buf| && NulIndex(buf[..size], off) < size
    ensures NulIndex(buf, off) == NulIndex(buf[..size], off)
  {
    var k := NulIndex(buf[..size], off);
    NulIndexIff(buf[..size], off, k);
    NulIndexIff(buf, off, k);
  }
}
