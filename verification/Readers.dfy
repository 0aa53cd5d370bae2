/** Reading a list of items laid end to end, one after the other. Generic in what
    an item is, so that values, message fields, nodes and files share one proof. */
module Readers {
  import opened Cluster
  import opened Wire

  /** Reads one item of a given kind at an offset; None is a malformed input. */
  type Reader<!C, +V> = (nat, C) -> Option<(V, nat)>

  function ReadList<C, V>(read: Reader<C, V>, off: nat, kinds: seq<C>): Option<(seq<V>, nat)>
    decreases |kinds|
  {
    if kinds == [] then Some(([], off)) else
    match ReadList(read, off, kinds[..|kinds| - 1])
    case None => None
    case Some((vs, at)) =>
      match read(at, kinds[|kinds| - 1])
      case None => None
      case Some((v, end)) => Some((vs + [v], end))
  }

  /** The kinds of a list whose items are all of one kind. */
  function Units(n: nat): (us: seq<()>) ensures |us| == n { seq(n, _ => ()) }

  /** Where part k of a list starts. */
  function Start(off: nat, parts: seq<Bytes>, k: nat): nat
    requires k <= |parts|
  {
    off + |Join(parts[..k])|
  }

  lemma StartNext(off: nat, parts: seq<Bytes>, k: nat)
    requires k < |parts|
    ensures Start(off, parts, k + 1) == Start(off, parts, k) + |parts[k]|
    ensures Start(off, parts, |parts|) == off + |Join(parts)|
  {
    assert parts[..k + 1] == parts[..k] + [parts[k]];
    JoinSnoc(parts[..k], parts[k]);
    assert parts[..|parts|] == parts;
  }

  /** Part k of a list that stands in a buffer stands there too. */
  lemma StandingAt(buf: Bytes, off: nat, parts: seq<Bytes>, k: nat)
    requires At(buf, off, Join(parts)) && k < |parts|
    ensures At(buf, Start(off, parts, k), parts[k])
    ensures Start(off, parts, k + 1) == Start(off, parts, k) + |parts[k]|
    ensures k == |parts| - 1 ==> off + |Join(parts)| == Start(off, parts, k) + |parts[k]|
  {
    JoinAt(buf, off, parts, k);
    StartNext(off, parts, k);
  }

  lemma {:induction false} StartBound(off: nat, parts: seq<Bytes>, k: nat)
    requires k <= |parts|
    ensures Start(off, parts, k) <= off + |Join(parts)|
    decreases |parts| - k
  {
    if k < |parts| {
      StartNext(off, parts, k);
      StartBound(off, parts, k + 1);
    } else {
      assert parts[..k] == parts;
    }
  }

  lemma Standing(parts: seq<Bytes>, k: nat)
    requires k < |parts|
    ensures At(Join(parts), Start(0, parts, k), parts[k])
    ensures Start(0, parts, k + 1) == Start(0, parts, k) + |parts[k]|
    ensures k == |parts| - 1 ==> |Join(parts)| == Start(0, parts, k) + |parts[k]|
  {
    StandingAt(Join(parts), 0, parts, k);
  }

  /** If every part is understood where it stands, the whole list is read. */
  lemma {:induction false} ReadListAll<C, V>(read: Reader<C, V>, off: nat, kinds: seq<C>, vs: seq<V>, parts: seq<Bytes>)
    requires |kinds| == |vs| == |parts|
    requires forall k: nat :: k < |vs| ==>
               read(Start(off, parts, k), kinds[k]) == Some((vs[k], Start(off, parts, k + 1)))
    ensures ReadList(read, off, kinds) == Some((vs, off + |Join(parts)|))
  {
    if vs == [] {
      assert kinds == [] && parts == [];
    } else {
      var n := |vs| - 1;
      var front := parts[..n];
      forall k: nat | k < n
        ensures read(Start(off, front, k), kinds[..n][k]) == Some((vs[..n][k], Start(off, front, k + 1)))
      {
        assert front[..k] == parts[..k] && front[..k + 1] == parts[..k + 1];
        assert read(Start(off, parts, k), kinds[k]) == Some((vs[k], Start(off, parts, k + 1)));
      }
      ReadListAll(read, off, kinds[..n], vs[..n], front);
      StartNext(off, parts, n);
      assert vs[..n] + [vs[n]] == vs;
    }
  }

  /** The reader understands each part wherever it finds it. */
  ghost predicate Decodes<C, V>(read: Reader<C, V>, buf: Bytes, kinds: seq<C>, vs: seq<V>, parts: seq<Bytes>)
  {
    |kinds| == |vs| == |parts| &&
    forall k: nat, at: nat :: k < |vs| && At(buf, at, parts[k]) ==>
      read(at, kinds[k]) == Some((vs[k], at + |parts[k]|))
  }

  lemma ReadListAt<C, V>(read: Reader<C, V>, buf: Bytes, off: nat, kinds: seq<C>, vs: seq<V>, parts: seq<Bytes>)
    requires Decodes(read, buf, kinds, vs, parts) && At(buf, off, Join(parts))
    ensures ReadList(read, off, kinds) == Some((vs, off + |Join(parts)|))
  {
    forall k: nat | k < |vs|
      ensures read(Start(off, parts, k), kinds[k]) == Some((vs[k], Start(off, parts, k + 1)))
    {
      JoinAt(buf, off, parts, k);
    }
    ReadListAll(read, off, kinds, vs, parts);
  }

  /** A list that can be read whole can be read item by item. */
  lemma {:induction false} ReadListPrefix<C, V>(read: Reader<C, V>, off: nat, kinds: seq<C>, i: nat)
    requires ReadList(read, off, kinds).Some? && i <= |kinds|
    ensures ReadList(read, off, kinds[..i]).Some?
    ensures i < |kinds| ==> read(ReadList(read, off, kinds[..i]).value.1, kinds[i]).Some?
    decreases |kinds|
  {
    if i < |kinds| {
      var n := |kinds| - 1;
      ReadListPrefix(read, off, kinds[..n], i);
      assert kinds[..n][..i] == kinds[..i];
    } else {
      assert kinds[..i] == kinds;
    }
  }

  lemma {:induction false} ReadListItem<C, V>(read: Reader<C, V>, off: nat, kinds: seq<C>, i: nat)
    requires ReadList(read, off, kinds).Some? && i <= |kinds|
    ensures ReadList(read, off, kinds[..i]).Some? && |ReadList(read, off, kinds).value.0| == |kinds|
    ensures var vs, (front, at) := ReadList(read, off, kinds).value.0, ReadList(read, off, kinds[..i]).value;
            front == vs[..i] && (i < |kinds| ==> read(at, kinds[i]).Some? && read(at, kinds[i]).value.0 == vs[i])
    decreases |kinds|
  {
    if i < |kinds| {
      var n := |kinds| - 1;
      ReadListItem(read, off, kinds[..n], i);
      assert kinds[..n][..i] == kinds[..i];
    } else {
      assert kinds[..i] == kinds;
      if i > 0 {
        ReadListItem(read, off, kinds[..i - 1], i - 1);
      }
    }
  }

  lemma ReadListStep<C, V>(read: Reader<C, V>, off: nat, kinds: seq<C>, i: nat, vs: seq<V>, at: nat, v: V, end: nat)
    requires i < |kinds| && ReadList(read, off, kinds[..i]) == Some((vs, at)) && read(at, kinds[i]) == Some((v, end))
    ensures ReadList(read, off, kinds[..i + 1]) == Some((vs + [v], end))
  {
    assert kinds[..i + 1][..i] == kinds[..i];
  }
}
