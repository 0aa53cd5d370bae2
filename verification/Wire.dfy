/** The dqlite wire format as byte sequences: what each value looks like on the
    wire, and a reference reader for the side of the protocol that is not in
    this repository. */
module Wire {
  import opened Cluster

  type U8 = x: int | 0 <= x < 256
  type Bytes = seq<U8>

  const TWO32: nat := 0x1_0000_0000
  const TWO63: int := 0x8000_0000_0000_0000
  const TWO64: nat := 0x1_0000_0000_0000_0000

  // ---- Numbers, little-endian ----

  function Pow256(n: nat): nat
  {
    if n == 0 then 1 else 256 * Pow256(n - 1)
  }

  lemma Pow256Values()
    ensures Pow256(1) == 256 && Pow256(2) == 0x1_0000 && Pow256(4) == TWO32 && Pow256(8) == TWO64
  {
    assert Pow256(3) == 0x100_0000;
    assert Pow256(5) == 0x100_0000_0000;
    assert Pow256(6) == 0x1_0000_0000_0000;
    assert Pow256(7) == 0x100_0000_0000_0000;
  }

  function Digit(v: nat, i: nat): U8
    decreases i
  {
    if i == 0 then v % 256 else Digit(v / 256, i - 1)
  }

  function LE(v: nat, n: nat): (b: Bytes)
    ensures |b| == n
  {
    seq(n, i requires 0 <= i => Digit(v, i))
  }

  function Num(b: Bytes): nat
  {
    if b == [] then 0 else b[0] + 256 * Num(b[1..])
  }

  lemma {:induction false} NumLE(v: nat, n: nat)
    requires v < Pow256(n)
    ensures Num(LE(v, n)) == v
  {
    if n > 0 {
      NumLE(v / 256, n - 1);
      assert LE(v, n)[1..] == LE(v / 256, n - 1);
    }
  }

  lemma {:induction false} NumBound(b: Bytes)
    ensures Num(b) < Pow256(|b|)
  {
    if b != [] {
      NumBound(b[1..]);
    }
  }

  /** The bit pattern of an int64. */
  function ToU64(i: int): nat
  {
    if i >= 0 then i else if i >= -TWO63 then i + TWO64 else 0
  }

  function ToI64(u: nat): int
    requires u < TWO64
  {
    if u < TWO63 then u else u - TWO64
  }

  // ---- Layout ----

  function Zeros(n: nat): (b: Bytes)
    ensures |b| == n && forall i :: 0 <= i < n ==> b[i] == 0
  {
    seq(n, _ => 0)
  }

  /** Bytes missing to reach the next word boundary. */
  function Pad(n: nat): (p: nat)
    ensures p < 8
  {
    if n % 8 == 0 then 0 else 8 - n % 8
  }

  lemma PadAligns(n: nat)
    ensures (n + Pad(n)) % 8 == 0
  {
  }

  lemma AddAligned(a: nat, b: nat)
    requires a % 8 == 0
    ensures (a + b) % 8 == 0 <==> b % 8 == 0
  {
  }

  predicate NulFree(t: Bytes)
  {
    forall i :: 0 <= i < |t| ==> t[i] != 0
  }

  function TextBytes(t: Bytes): (b: Bytes)
    ensures |b| == |t| + 1 + Pad(|t| + 1)
  {
    t + [0] + Zeros(Pad(|t| + 1))
  }

  function BlobBytes(d: Bytes): (b: Bytes)
    ensures |b| == 8 + |d| + Pad(|d|)
  {
    LE(|d|, 8) + (d + Zeros(Pad(|d|)))
  }

  /** `enc` occurs in `buf` at offset `off`. */
  ghost predicate At(buf: Bytes, off: nat, enc: Bytes)
  {
    off + |enc| <= |buf| && forall i :: 0 <= i < |enc| ==> buf[off + i] == enc[i]
  }

  lemma AtSlice(buf: Bytes, off: nat, enc: Bytes)
    ensures At(buf, off, enc) <==> off + |enc| <= |buf| && buf[off..off + |enc|] == enc
  {
    if off + |enc| <= |buf| && buf[off..off + |enc|] == enc {
      forall i | 0 <= i < |enc| ensures buf[off + i] == enc[i] {
        assert buf[off..off + |enc|][i] == enc[i];
      }
    }
  }

  lemma AtConcat(buf: Bytes, off: nat, a: Bytes, b: Bytes)
    ensures At(buf, off, a + b) <==> At(buf, off, a) && At(buf, off + |a|, b)
  {
    if At(buf, off, a + b) {
      forall i | 0 <= i < |a| ensures buf[off + i] == a[i] {
        assert (a + b)[i] == a[i];
      }
      forall i | 0 <= i < |b| ensures buf[off + |a| + i] == b[i] {
        assert (a + b)[|a| + i] == b[i];
      }
    }
  }

  lemma AtFour(buf: Bytes, off: nat, a: Bytes, b: Bytes, c: Bytes, d: Bytes)
    requires At(buf, off, a + b + c + d)
    ensures At(buf, off, a) && At(buf, off + |a|, b)
    ensures At(buf, off + |a| + |b|, c) && At(buf, off + |a| + |b| + |c|, d)
  {
    AtConcat(buf, off, a + b + c, d);
    AtConcat(buf, off, a + b, c);
    AtConcat(buf, off, a, b);
  }

  /** Encodings laid end to end. */
  function Join(parts: seq<Bytes>): Bytes
  {
    if parts == [] then [] else Join(parts[..|parts| - 1]) + parts[|parts| - 1]
  }

  lemma JoinSnoc(parts: seq<Bytes>, b: Bytes)
    ensures Join(parts + [b]) == Join(parts) + b
  {
    assert (parts + [b])[..|parts|] == parts;
  }

  lemma JoinOne(parts: seq<Bytes>)
    requires parts != []
    ensures Join(parts[..1]) == parts[0]
  {
    assert parts[..1] == [] + [parts[0]];
    JoinSnoc([], parts[0]);
  }

  lemma JoinTwo(parts: seq<Bytes>)
    requires |parts| == 2
    ensures Join(parts) == parts[0] + parts[1]
  {
    JoinOne(parts);
    assert parts == parts[..1] + [parts[1]];
    JoinSnoc(parts[..1], parts[1]);
  }

  lemma JoinThree(parts: seq<Bytes>)
    requires |parts| == 3
    ensures Join(parts[..1]) == parts[0] && Join(parts[..2]) == parts[0] + parts[1]
    ensures Join(parts) == parts[0] + parts[1] + parts[2]
  {
    JoinOne(parts);
    assert parts[..2] == parts[..1] + [parts[1]];
    JoinSnoc(parts[..1], parts[1]);
    assert parts == parts[..2] + [parts[2]];
    JoinSnoc(parts[..2], parts[2]);
  }

  lemma {:induction false} JoinAt(buf: Bytes, off: nat, parts: seq<Bytes>, k: nat)
    requires At(buf, off, Join(parts)) && k < |parts|
    ensures At(buf, off + |Join(parts[..k])|, parts[k])
    ensures |Join(parts[..k + 1])| == |Join(parts[..k])| + |parts[k]|
    decreases |parts|
  {
    var n := |parts| - 1;
    AtConcat(buf, off, Join(parts[..n]), parts[n]);
    assert parts[..k + 1] == parts[..k] + [parts[k]];
    JoinSnoc(parts[..k], parts[k]);
    if k < n {
      JoinAt(buf, off, parts[..n], k);
      assert parts[..n][..k] == parts[..k];
    }
  }

  lemma {:induction false} JoinAligned(parts: seq<Bytes>)
    requires forall i :: 0 <= i < |parts| ==> |parts[i]| % 8 == 0
    ensures |Join(parts)| % 8 == 0
  {
    if parts != [] {
      JoinAligned(parts[..|parts| - 1]);
    }
  }

  // ---- Primitive readers ----

  /** Index of the first NUL at or after `off`; |buf| if there is none. */
  function NulIndex(buf: Bytes, off: nat): (k: nat)
    requires off <= |buf|
    ensures off <= k <= |buf|
    decreases |buf| - off
  {
    if off == |buf| || buf[off] == 0 then off else NulIndex(buf, off + 1)
  }

  lemma {:induction false} NulIndexIff(buf: Bytes, off: nat, k: nat)
    requires off <= k < |buf|
    ensures NulIndex(buf, off) == k <==> buf[k] == 0 && forall i :: off <= i < k ==> buf[i] != 0
    decreases |buf| - off
  {
    if off < k {
      NulIndexIff(buf, off + 1, k);
    }
  }

  function ReadNum(buf: Bytes, off: nat, n: nat): Option<(nat, nat)>
  {
    if off + n <= |buf| then Some((Num(buf[off..off + n]), off + n)) else None
  }

  function ReadText(buf: Bytes, off: nat): Option<(Bytes, nat)>
  {
    if off >= |buf| then None
    else
      var k := NulIndex(buf, off);
      var end := k + 1 + Pad(k + 1 - off);
      if end <= |buf| then Some((buf[off..k], end)) else None
  }

  function ReadBlob(buf: Bytes, off: nat): Option<(Bytes, nat)>
  {
    match ReadNum(buf, off, 8)
    case None => None
    case Some((n, at)) =>
      if at + n + Pad(n) <= |buf| then Some((buf[at..at + n], at + n + Pad(n))) else None
  }

  lemma ReadNumAt(buf: Bytes, off: nat, v: nat, n: nat)
    requires At(buf, off, LE(v, n)) && v < Pow256(n)
    ensures ReadNum(buf, off, n) == Some((v, off + n))
  {
    AtSlice(buf, off, LE(v, n));
    NumLE(v, n);
  }

  lemma ReadTextAt(buf: Bytes, off: nat, t: Bytes)
    requires At(buf, off, TextBytes(t)) && NulFree(t)
    ensures NulIndex(buf, off) == off + |t|
    ensures ReadText(buf, off) == Some((t, off + |TextBytes(t)|))
  {
    TextLayout(buf, off, t);
    assert forall j :: off <= j < off + |t| ==> buf[j] == t[j - off] != 0;
    NulIndexIff(buf, off, off + |t|);
  }

  lemma TextLayout(buf: Bytes, off: nat, t: Bytes)
    requires At(buf, off, TextBytes(t))
    ensures off + |t| < |buf| && buf[off..off + |t|] == t && buf[off + |t|] == 0
    ensures At(buf, off, t)
  {
    AtConcat(buf, off, t + [0], Zeros(Pad(|t| + 1)));
    AtConcat(buf, off, t, [0]);
    AtSlice(buf, off, t);
    assert [0 as U8][0] == 0;
  }

  /** A text comes back whole if and only if it holds no NUL. */
  lemma TextSurvivesIff(buf: Bytes, off: nat, t: Bytes)
    requires At(buf, off, TextBytes(t))
    ensures ReadText(buf, off) == Some((t, off + |TextBytes(t)|)) <==> NulFree(t)
  {
    if NulFree(t) {
      ReadTextAt(buf, off, t);
    } else {
      TextLayout(buf, off, t);
      var k :| 0 <= k < |t| && t[k] == 0;
      assert buf[off + k] == 0;
      NulIndexIff(buf, off, off + |t|);
    }
  }

  lemma BlobLayout(buf: Bytes, off: nat, d: Bytes)
    requires At(buf, off, BlobBytes(d))
    ensures At(buf, off, LE(|d|, 8)) && At(buf, off + 8, d)
  {
    AtConcat(buf, off, LE(|d|, 8), d + Zeros(Pad(|d|)));
    AtConcat(buf, off + 8, d, Zeros(Pad(|d|)));
  }

  lemma ReadBlobAt(buf: Bytes, off: nat, d: Bytes)
    requires At(buf, off, BlobBytes(d)) && |d| < TWO64
    ensures ReadBlob(buf, off) == Some((d, off + |BlobBytes(d)|))
  {
    BlobLayout(buf, off, d);
    AtSlice(buf, off + 8, d);
    Pow256Values();
    ReadNumAt(buf, off, |d|, 8);
  }

  // ---- SQL values ----

  /** Floats travel as opaque 64-bit words and times as their text. */
  datatype Value =
    | Integer(i: int)
    | Float(bits: nat)
    | Text(t: Bytes)
    | Blob(d: Bytes)
    | Null
    | UnixTime(secs: int)
    | Time(text: Bytes)
    | Boolean(flag: bool)
  {
    /** Fits the 64-bit word it is stored in. */
    predicate Valid()
    {
      match this
      case Integer(i) => -TWO63 <= i < TWO63
      case Float(bits) => bits < TWO64
      case Blob(d) => |d| < TWO64
      case UnixTime(secs) => -TWO63 <= secs < TWO63
      case _ => true
    }

    /** Holds no NUL inside a text. */
    predicate Clean()
    {
      (Text? ==> NulFree(t)) && (Time? ==> NulFree(text))
    }

    function Code(): U8
    {
      match this
      case Integer(_) => 1
      case Float(_) => 2
      case Text(_) => 3
      case Blob(_) => 4
      case Null => 5
      case UnixTime(_) => 9
      case Time(_) => 10
      case Boolean(_) => 11
    }

    function Enc(): Bytes
    {
      if Text? then TextBytes(t)
      else if Time? then TextBytes(text)
      else if Blob? then BlobBytes(d)
      else LE(AsWord(this), 8)
    }
  }

  /** The 64-bit word that carries a value of fixed size. */
  function AsWord(v: Value): nat
  {
    match v
    case Integer(i) => ToU64(i)
    case Float(bits) => bits
    case UnixTime(secs) => ToU64(secs)
    case Boolean(flag) => if flag then 1 else 0
    case _ => 0
  }

  predicate KnownCode(code: U8)
  {
    code in [1, 2, 3, 4, 5, 9, 10, 11]
  }

  /** Reference reader for one value of a given type. */
  function ReadValue(buf: Bytes, off: nat, code: U8): Option<(Value, nat)>
  {
    if code == 3 || code == 10 then
      match ReadText(buf, off)
      case None => None
      case Some((t, at)) => Some((if code == 3 then Text(t) else Time(t), at))
    else if code == 4 then
      match ReadBlob(buf, off)
      case None => None
      case Some((d, at)) => Some((Blob(d), at))
    else if !KnownCode(code) then None
    else
      match ReadNum(buf, off, 8)
      case None => None
      case Some((n, at)) =>
        if n >= TWO64 then None
        else Some((match code
                   case 1 => Integer(ToI64(n))
                   case 2 => Float(n)
                   case 5 => Null
                   case 9 => UnixTime(ToI64(n))
                   case _ => Boolean(n != 0), at))
  }

  /** The reader inverts the encoding wherever it occurs. */
  lemma ReadValueAt(buf: Bytes, off: nat, v: Value)
    requires v.Valid() && v.Clean() && At(buf, off, v.Enc())
    ensures ReadValue(buf, off, v.Code()) == Some((v, off + |v.Enc()|))
  {
    if v.Text? || v.Time? {
      ReadTextValueAt(buf, off, v);
    } else if v.Blob? {
      ReadBlobAt(buf, off, v.d);
    } else {
      ReadWordAt(buf, off, v);
    }
  }

  lemma ReadTextValueAt(buf: Bytes, off: nat, v: Value)
    requires v.Valid() && v.Clean() && (v.Text? || v.Time?) && At(buf, off, v.Enc())
    ensures ReadValue(buf, off, v.Code()) == Some((v, off + |v.Enc()|))
  {
    ReadTextAt(buf, off, if v.Text? then v.t else v.text);
  }

  lemma ReadWordAt(buf: Bytes, off: nat, v: Value)
    requires v.Valid() && !v.Text? && !v.Time? && !v.Blob? && At(buf, off, v.Enc())
    ensures ReadValue(buf, off, v.Code()) == Some((v, off + |v.Enc()|))
  {
    Pow256Values();
    ReadNumAt(buf, off, AsWord(v), 8);
  }

  lemma EncAligned(v: Value)
    ensures |v.Enc()| % 8 == 0 && |v.Enc()| >= 8
  {
    match v {
      case Text(t) => PadAligns(|t| + 1);
      case Time(text) => PadAligns(|text| + 1);
      case Blob(d) => PadAligns(|d|);
      case _ =>
    }
  }

  lemma ReadPartAt(buf: Bytes, off: nat, v: Value, code: U8, part: Bytes)
    requires v.Valid() && v.Clean() && code == v.Code() && part == v.Enc() && At(buf, off, part)
    ensures ReadValue(buf, off, code) == Some((v, off + |part|))
  {
    ReadValueAt(buf, off, v);
  }
}
