/** Node lists and database files in a response (internal/protocol/message.go),
    and the client's Dump (client/client.go). */
module Lists {
  import opened Cluster
  import opened Wire
  import opened Messages
  import opened Readers

  // ---- Nodes ----

  datatype NodeEntry = NodeEntry(id: nat, address: Bytes, role: int) {

    predicate Valid()
    {
      id < TWO64 && NulFree(address) && -TWO63 <= role < TWO63
    }

    function Enc(): Bytes { LE(id, 8) + TextBytes(address) + LE(ToU64(role), 8) }
  }

  function ReadNode(buf: Bytes, off: nat): Option<(NodeEntry, nat)>
  {
    match ReadNum(buf, off, 8)
    case None => None
    case Some((id, afterId)) =>
      match ReadText(buf, afterId)
      case None => None
      case Some((address, afterAddress)) =>
        match ReadNum(buf, afterAddress, 8)
        case None => None
        case Some((role, end)) => Some((NodeEntry(id, address, ToI64(role % TWO64)), end))
  }

  function NodeReader(buf: Bytes): Reader<(), NodeEntry> { (at, _) => ReadNode(buf, at) }

  /** A list that is preceded by its length. */
  function ReadCountedList<V>(read: Reader<(), V>, buf: Bytes, off: nat): Option<(seq<V>, nat)>
  {
    match ReadNum(buf, off, 8)
    case None => None
    case Some((n, at)) => ReadList(read, at, Units(n))
  }

  function ReadNodes(buf: Bytes, off: nat): Option<(seq<NodeEntry>, nat)>
  {
    ReadCountedList(NodeReader(buf), buf, off)
  }

  /** Read one node of a list. */
  method GetNode(m: Message) returns (node: NodeEntry)
    requires m.Received() && ReadNode(m.Body(), m.offset).Some?
    modifies m`offset
    ensures m.Received() && ReadNode(m.Body(), old(m.offset)) == Some((node, m.offset))
  {
    var id := m.GetUint64();
    var address := m.GetString();
    var role := m.GetUint64();
    node := NodeEntry(id, address, ToI64(role));
  }

  method GetNodes(m: Message) returns (nodes: seq<NodeEntry>)
    requires m.Received() && ReadNodes(m.Body(), m.offset).Some?
    modifies m`offset
    ensures m.Received() && ReadNodes(m.Body(), old(m.offset)) == Some((nodes, m.offset))
  {
    var n := m.GetUint64();
    nodes := [];
    ghost var body, read, start, units := m.Body(), NodeReader(m.Body()), m.offset, Units(n);
    for i := 0 to n
      invariant m.Received() && m.Body() == body
      invariant ReadList(read, start, units[..i]) == Some((nodes, m.offset))
    {
      ghost var at := m.offset;
      ReadListPrefix(read, start, units, i);
      var node := GetNode(m);
      ReadListStep(read, start, units, i, nodes, at, node, m.offset);
      nodes := nodes + [node];
    }
    assert units[..n] == units;
  }

  lemma ReadNodeAt(buf: Bytes, at: nat, node: NodeEntry)
    requires node.Valid() && At(buf, at, node.Enc())
    ensures ReadNode(buf, at) == Some((node, at + |node.Enc()|))
  {
    var id, address, role := LE(node.id, 8), TextBytes(node.address), LE(ToU64(node.role), 8);
    AtConcat(buf, at, id + address, role);
    AtConcat(buf, at, id, address);
    ReadNodeFields(buf, at, node, at + 8, at + 8 + |address|, at + |node.Enc()|);
  }

  lemma ReadNodeFields(buf: Bytes, at: nat, node: NodeEntry, afterId: nat, afterAddress: nat, end: nat)
    requires node.Valid() && afterId == at + 8
    requires afterAddress == afterId + |TextBytes(node.address)| && end == afterAddress + 8
    requires At(buf, at, LE(node.id, 8)) && At(buf, afterId, TextBytes(node.address))
    requires At(buf, afterAddress, LE(ToU64(node.role), 8))
    ensures ReadNode(buf, at) == Some((node, end))
  {
    Pow256Values();
    ReadNumAt(buf, at, node.id, 8);
    ReadTextAt(buf, afterId, node.address);
    ReadNumAt(buf, afterAddress, ToU64(node.role), 8);
  }

  function NodeParts(nodes: seq<NodeEntry>): (parts: seq<Bytes>)
    ensures |parts| == |nodes|
  {
    seq(|nodes|, i requires 0 <= i < |nodes| => nodes[i].Enc())
  }

  /** A node list is read back from wherever its encoding stands, and reading
      stops right behind it. */
  lemma NodesRoundTrip(buf: Bytes, off: nat, nodes: seq<NodeEntry>)
    requires |nodes| < TWO64 && forall i :: 0 <= i < |nodes| ==> nodes[i].Valid()
    requires At(buf, off, LE(|nodes|, 8) + Join(NodeParts(nodes)))
    ensures ReadNodes(buf, off) == Some((nodes, off + |LE(|nodes|, 8) + Join(NodeParts(nodes))|))
  {
    AtConcat(buf, off, LE(|nodes|, 8), Join(NodeParts(nodes)));
    NodesAt(buf, off, nodes, NodeParts(nodes), off + |LE(|nodes|, 8) + Join(NodeParts(nodes))|);
  }

  lemma NodesAt(buf: Bytes, off: nat, nodes: seq<NodeEntry>, parts: seq<Bytes>, end: nat)
    requires |nodes| < TWO64 && (forall i :: 0 <= i < |nodes| ==> nodes[i].Valid()) && parts == NodeParts(nodes)
    requires At(buf, off, LE(|nodes|, 8)) && At(buf, off + 8, Join(parts)) && end == off + 8 + |Join(parts)|
    ensures ReadNodes(buf, off) == Some((nodes, end))
  {
    NodeReaderDecodes(buf, nodes);
    CountedList(buf, off, NodeReader(buf), nodes, parts, end);
  }

  lemma NodeReaderDecodes(buf: Bytes, nodes: seq<NodeEntry>)
    requires forall i :: 0 <= i < |nodes| ==> nodes[i].Valid()
    ensures Decodes(NodeReader(buf), buf, Units(|nodes|), nodes, NodeParts(nodes))
  {
    forall k: nat, at: nat | k < |nodes| && At(buf, at, NodeParts(nodes)[k])
      ensures ReadNode(buf, at) == Some((nodes[k], at + |NodeParts(nodes)[k]|))
    {
      ReadNodeAt(buf, at, nodes[k]);
    }
  }

  lemma CountedList<V>(buf: Bytes, off: nat, read: Reader<(), V>, vs: seq<V>, parts: seq<Bytes>, end: nat)
    requires |vs| < TWO64 && Decodes(read, buf, Units(|vs|), vs, parts)
    requires At(buf, off, LE(|vs|, 8)) && At(buf, off + 8, Join(parts)) && end == off + 8 + |Join(parts)|
    ensures ReadCountedList(read, buf, off) == Some((vs, end))
    ensures ReadNum(buf, off, 8) == Some((|vs|, off + 8)) && ReadList(read, off + 8, Units(|vs|)) == Some((vs, end))
  {
    Pow256Values();
    ReadNumAt(buf, off, |vs|, 8);
    ReadListAt(read, buf, off + 8, Units(|vs|), vs, parts);
  }

  // ---- Files ----

  datatype File = File(name: Bytes, data: Bytes) {

    predicate Valid() { NulFree(name) && |data| < TWO64 }

    /** The contents are not padded. */
    function Enc(): Bytes { TextBytes(name) + LE(|data|, 8) + data }
  }

  function ReadFile(buf: Bytes, off: nat): Option<(File, nat)>
  {
    match ReadText(buf, off)
    case None => None
    case Some((name, afterName)) =>
      match ReadNum(buf, afterName, 8)
      case None => None
      case Some((length, at)) =>
        if at + length <= |buf| then Some((File(name, buf[at..at + length]), at + length)) else None
  }

  function FileReader(buf: Bytes): Reader<(), File> { (at, _) => ReadFile(buf, at) }

  class Files {
    var n: nat
    const message: Message

    constructor (n: nat, message: Message)
      ensures this.n == n && this.message == message
    {
      this.n, this.message := n, message;
    }

    /** The next file; an empty name when there is none. */
    method Next() returns (name: Bytes, data: Bytes)
      requires message.Received() && (n > 0 ==> ReadFile(message.Body(), message.offset).Some?)
      modifies this`n, message`offset
      ensures message.Received()
      ensures old(n) == 0 ==> name == [] && data == [] && n == 0 && message.offset == old(message.offset)
      ensures old(n) > 0 ==>
                && n == old(n) - 1
                && ReadFile(message.Body(), old(message.offset)) == Some((File(name, data), message.offset))
    {
      if n == 0 {
        return [], [];
      }
      n := n - 1;
      name := message.GetString();
      var length := message.GetUint64();
      data := message.GetBytes(length);
    }
  }

  lemma ReadFileAt(buf: Bytes, at: nat, f: File)
    requires f.Valid() && At(buf, at, f.Enc())
    ensures ReadFile(buf, at) == Some((f, at + |f.Enc()|))
  {
    var name, length := TextBytes(f.name), LE(|f.data|, 8);
    AtConcat(buf, at, name + length, f.data);
    AtConcat(buf, at, name, length);
    Pow256Values();
    ReadTextAt(buf, at, f.name);
    ReadNumAt(buf, at + |name|, |f.data|, 8);
    AtSlice(buf, at + |name| + 8, f.data);
  }

  function FileParts(files: seq<File>): (parts: seq<Bytes>)
    ensures |parts| == |files|
  {
    seq(|files|, i requires 0 <= i < |files| => files[i].Enc())
  }

  /** The files are read back one by one, empty ones included. */
  lemma FilesRoundTrip(buf: Bytes, files: seq<File>)
    requires |files| < TWO64 && forall i :: 0 <= i < |files| ==> files[i].Valid()
    requires At(buf, 0, LE(|files|, 8) + Join(FileParts(files)))
    ensures ReadNum(buf, 0, 8) == Some((|files|, 8))
    ensures ReadList(FileReader(buf), 8, Units(|files|)) == Some((files, |LE(|files|, 8) + Join(FileParts(files))|))
  {
    FileReaderDecodes(buf, files);
    AtConcat(buf, 0, LE(|files|, 8), Join(FileParts(files)));
    CountedList(buf, 0, FileReader(buf), files, FileParts(files), |LE(|files|, 8) + Join(FileParts(files))|);
  }

  lemma FileReaderDecodes(buf: Bytes, files: seq<File>)
    requires forall i :: 0 <= i < |files| ==> files[i].Valid()
    ensures Decodes(FileReader(buf), buf, Units(|files|), files, FileParts(files))
  {
    forall k: nat, at: nat | k < |files| && At(buf, at, FileParts(files)[k])
      ensures ReadFile(buf, at) == Some((files[k], at + |FileParts(files)[k]|))
    {
      ReadFileAt(buf, at, files[k]);
    }
  }

  // ---- Dump ----

  /** Dump stops at the first file without a name. */
  function UntilUnnamed(files: seq<File>): seq<File>
  {
    if files == [] || files[0].name == [] then [] else [files[0]] + UntilUnnamed(files[1..])
  }

  lemma {:induction false} UntilUnnamedStops(files: seq<File>, i: nat)
    requires i <= |files| && forall j :: 0 <= j < i ==> files[j].name != []
    requires i == |files| || files[i].name == []
    ensures UntilUnnamed(files) == files[..i]
  {
    if i > 0 {
      UntilUnnamedStops(files[1..], i - 1);
      assert files[..i] == [files[0]] + files[1..][..i - 1];
    }
  }

  /** A dump is complete exactly when every file has a name. */
  lemma {:induction false} DumpCompleteIff(files: seq<File>)
    ensures UntilUnnamed(files) == files <==> forall f :: f in files ==> f.name != []
  {
    if files != [] {
      DumpCompleteIff(files[1..]);
      assert files == [files[0]] + files[1..];
      if files[0].name != [] {
        assert UntilUnnamed(files)[1..] == UntilUnnamed(files[1..]);
      }
    }
  }

  /** The loop of the client's Dump. */
  method Dump(message: Message, ghost files: seq<File>) returns (dump: seq<File>)
    requires message.Received() && message.offset == 0
    requires |files| < TWO64 && forall i :: 0 <= i < |files| ==> files[i].Valid()
    requires At(message.Body(), 0, LE(|files|, 8) + Join(FileParts(files)))
    modifies message`offset
    ensures dump == UntilUnnamed(files)
    ensures dump == files ==> message.offset == |LE(|files|, 8) + Join(FileParts(files))|
  {
    FilesRoundTrip(message.Body(), files);
    var n := message.GetUint64();
    var listing := new Files(n, message);
    dump := Collect(listing, files, |LE(|files|, 8) + Join(FileParts(files))|);
  }

  method Collect(listing: Files, ghost files: seq<File>, ghost end: nat) returns (dump: seq<File>)
    requires var m := listing.message;
             m.Received() && ReadList(FileReader(m.Body()), m.offset, Units(|files|)) == Some((files, end))
    requires listing.n == |files|
    modifies listing`n, listing.message`offset
    ensures dump == UntilUnnamed(files) && (dump == files ==> listing.message.offset == end)
  {
    ghost var m := listing.message;
    ghost var body, read, start, units := m.Body(), FileReader(m.Body()), m.offset, Units(|files|);
    dump := [];
    while true
      invariant m.Received() && m.Body() == body
      invariant |dump| + listing.n == |files| && forall f :: f in dump ==> f.name != []
      invariant ReadList(read, start, units[..|dump|]) == Some((dump, m.offset))
      decreases listing.n
    {
      ghost var at := m.offset;
      ReadListItem(read, start, units, |dump|);
      var name, data := listing.Next();
      if name == [] {
        UntilUnnamedStops(files, |dump|);
        assert units[..|files|] == units;
        return;
      }
      ReadListStep(read, start, units, |dump|, dump, at, File(name, data), m.offset);
      dump := dump + [File(name, data)];
    }
  }
}
