/** Frames: an eight-byte header (body length in words, type, schema, extra)
    followed by the body. */
module Framing {
  import opened Cluster
  import opened Wire

  datatype Frame = Frame(mtype: U8, schema: U8, extra: nat, body: Bytes) {
    /** The header can describe this frame. */
    predicate Valid()
    {
      |body| % 8 == 0 && |body| / 8 < TWO32 && extra < 0x1_0000
    }
  }

  function HeaderBytes(words: nat, mtype: U8, schema: U8, extra: nat): (b: Bytes)
    ensures |b| == 8
  {
    LE(words, 4) + [mtype, schema] + LE(extra, 2)
  }

  function FrameBytes(f: Frame): (b: Bytes)
    ensures |b| == 8 + |f.body|
  {
    HeaderBytes(|f.body| / 8, f.mtype, f.schema, f.extra) + f.body
  }

  function Words(input: Bytes): nat
    requires |input| >= 8
  {
    Num(input[..4])
  }

  /** The first frame of a stream and what follows it. */
  function TakeFrame(input: Bytes): Option<(Frame, Bytes)>
  {
    if |input| < 8 || |input| < 8 + 8 * Words(input) then None
    else
      var end := 8 + 8 * Words(input);
      Some((Frame(input[4], input[5], Num(input[6..8]), input[8..end]), input[end..]))
  }

  lemma HeaderParts(words: nat, mtype: U8, schema: U8, extra: nat, rest: Bytes)
    requires words < TWO32 && extra < 0x1_0000
    ensures var input := HeaderBytes(words, mtype, schema, extra) + rest;
            Words(input) == words && input[4] == mtype && input[5] == schema
            && Num(input[6..8]) == extra && input[8..] == rest
  {
    var input := HeaderBytes(words, mtype, schema, extra) + rest;
    Pow256Values();
    NumLE(words, 4);
    NumLE(extra, 2);
    assert input[..4] == LE(words, 4);
    assert input[6..8] == LE(extra, 2);
  }

  /** What is framed comes back, whatever follows it. */
  lemma TakeFrameInverts(f: Frame, rest: Bytes)
    requires f.Valid()
    ensures TakeFrame(FrameBytes(f) + rest) == Some((f, rest))
  {
    HeaderParts(|f.body| / 8, f.mtype, f.schema, f.extra, f.body + rest);
    var input := FrameBytes(f) + rest;
    assert input == HeaderBytes(|f.body| / 8, f.mtype, f.schema, f.extra) + (f.body + rest);
    assert input[8..8 + |f.body|] == input[8..][..|f.body|];
    assert input[8 + |f.body|..] == input[8..][|f.body|..];
  }

  function Flatten(fs: seq<Frame>): Bytes
  {
    if fs == [] then [] else FrameBytes(fs[0]) + Flatten(fs[1..])
  }

  predicate AllFramesValid(fs: seq<Frame>)
  {
    forall i :: 0 <= i < |fs| ==> fs[i].Valid()
  }

  /** Read n frames off a stream. */
  function TakeFrames(input: Bytes, n: nat): Option<(seq<Frame>, Bytes)>
  {
    if n == 0 then Some(([], input)) else
    match TakeFrame(input)
    case None => None
    case Some((f, rest)) =>
      match TakeFrames(rest, n - 1)
      case None => None
      case Some((fs, end)) => Some(([f] + fs, end))
  }

  /** Framing round trip for whole sessions: any sequence of frames written back
      to back is read as exactly that sequence, and reading stops at its end. */
  lemma {:induction false} SessionRoundTrip(fs: seq<Frame>, rest: Bytes)
    requires AllFramesValid(fs)
    ensures TakeFrames(Flatten(fs) + rest, |fs|) == Some((fs, rest))
  {
    if fs == [] {
      assert Flatten(fs) + rest == rest;
    } else {
      TakeHead(fs, rest);
      SessionRoundTrip(fs[1..], rest);
      assert [fs[0]] + fs[1..] == fs;
    }
  }

  lemma TakeHead(fs: seq<Frame>, tail: Bytes)
    requires fs != [] && fs[0].Valid()
    ensures TakeFrame(Flatten(fs) + tail) == Some((fs[0], Flatten(fs[1..]) + tail))
  {
    FlattenHead(fs, tail);
    TakeFrameInverts(fs[0], Flatten(fs[1..]) + tail);
  }

  lemma FlattenHead(fs: seq<Frame>, tail: Bytes)
    requires fs != []
    ensures Flatten(fs) + tail == FrameBytes(fs[0]) + (Flatten(fs[1..]) + tail)
  {
  }

  lemma TakeOnly(f: Frame)
    requires f.Valid()
    ensures TakeFrame(FrameBytes(f)) == Some((f, []))
  {
    TakeFrameInverts(f, []);
    assert FrameBytes(f) + [] == FrameBytes(f);
  }

  /** The word count the encoder stores: the offset is truncated to 32 bits
      before it is divided. */
  function StoredWords(offset: nat): nat
  {
    offset % TWO32 / 8
  }

  /** A finished message is read back whole if and only if its body is under
      2^32 bytes; a longer one is silently cut short. */
  lemma EncodedSizeIff(mtype: U8, schema: U8, body: Bytes, rest: Bytes)
    requires |body| % 8 == 0
    ensures TakeFrame(HeaderBytes(StoredWords(|body|), mtype, schema, 0) + body + rest)
              == Some((Frame(mtype, schema, 0, body), rest))
            <==> |body| < TWO32
  {
    var input := HeaderBytes(StoredWords(|body|), mtype, schema, 0) + body + rest;
    assert input == HeaderBytes(StoredWords(|body|), mtype, schema, 0) + (body + rest);
    HeaderParts(StoredWords(|body|), mtype, schema, 0, body + rest);
    if |body| < TWO32 {
      TakeFrameInverts(Frame(mtype, schema, 0, body), rest);
    } else {
      assert 8 * Words(input) < |body|;
    }
  }

  /** Two readings of the stored word count, one wrapping at 32 bits, one not,
      agree exactly below 2^29 words. */
  lemma SizeReadingsIff(words: nat)
    requires words < TWO32
    ensures words * 8 % TWO32 == words * 8 <==> words < TWO32 / 8
  {
  }

  /** Cutting a well-formed stream at a frame boundary keeps whole frames. */
  predicate WholeFrames(b: Bytes)
    decreases |b|
  {
    b == [] ||
    match TakeFrame(b)
    case None => false
    case Some((f, rest)) => |rest| < |b| && WholeFrames(rest)
  }

  lemma {:induction false} WholePrefix(fs: seq<Frame>, n: nat) returns (k: nat)
    requires AllFramesValid(fs) && n <= |Flatten(fs)| && WholeFrames(Flatten(fs)[..n])
    ensures k <= |fs| && Flatten(fs)[..n] == Flatten(fs[..k])
  {
    if n == 0 {
      k := 0;
    } else {
      WholeHead(fs, n);
      var size := 8 + |fs[0].body|;
      k := WholePrefix(fs[1..], n - size);
      CutHead(fs[0], Flatten(fs[1..]), n, Flatten(fs[1..][..k]));
      assert fs[..k + 1][1..] == fs[1..][..k];
      k := k + 1;
    }
  }

  lemma CutHead(f: Frame, more: Bytes, n: nat, kept: Bytes)
    requires var size := 8 + |f.body|; size <= n <= size + |more| && more[..n - size] == kept
    ensures (FrameBytes(f) + more)[..n] == FrameBytes(f) + kept
  {
  }

  /** A cut that falls between frames does not fall into the first. */
  lemma WholeHead(fs: seq<Frame>, n: nat)
    requires AllFramesValid(fs) && 0 < n <= |Flatten(fs)| && WholeFrames(Flatten(fs)[..n])
    ensures fs != [] && AllFramesValid(fs[1..]) && 8 + |fs[0].body| <= n <= 8 + |fs[0].body| + |Flatten(fs[1..])|
    ensures WholeFrames(Flatten(fs[1..])[..n - 8 - |fs[0].body|])
  {
    var f, more := fs[0], Flatten(fs[1..]);
    var all := FrameBytes(f) + more;
    assert Flatten(fs) == all;
    TakeFrameInverts(f, more);
    CutWords(all, n);
    assert all[..n][8 + |f.body|..] == more[..n - 8 - |f.body|];
  }

  lemma CutWords(all: Bytes, n: nat)
    requires n <= |all| && TakeFrame(all[..n]).Some?
    ensures Words(all[..n]) == Words(all) && 8 + 8 * Words(all) <= n
    ensures TakeFrame(all[..n]).value.1 == all[..n][8 + 8 * Words(all)..]
  {
    assert all[..n][..4] == all[..4];
  }
}
