/** The search for the leader (internal/protocol/connector.go), against servers
    whose answers stay the same during one attempt. */
module Connector {
  import opened Cluster
  import opened Sorting

  datatype Version = One | Legacy

  /** How a server behaves once it can be dialled, for one protocol version.
      Dropped is the way in which a node older than the version shows: a
      connection closed, or broken by anything but a timeout. */
  datatype Talk =
    | HandshakeFails
    | Dropped
    | CallFails
    | Garbled
    | Tells(leader: string, welcomes: bool)

  datatype Server = Server(dials: bool, one: Talk, legacy: Talk) {
    function Speaking(version: Version): Talk { if version == One then one else legacy }
  }

  type Servers = string -> Server

  datatype NodeInfo = NodeInfo(id: nat, address: string, role: int)

  // ---- What the search is for ----

  /** The server is reachable, calls itself the leader and registers us. */
  predicate Leads(servers: Servers, address: string, version: Version)
  {
    servers(address).dials && address != "" && servers(address).Speaking(version) == Tells(address, true)
  }

  /** The version in which an entry of the store is addressed. */
  function Spoken(servers: Servers, address: string): Version
  {
    if servers(address).dials && servers(address).one == Dropped then Legacy else One
  }

  /** Whom the server names as the leader; empty if nobody. */
  function Named(servers: Servers, address: string, version: Version): string
  {
    var talk := servers(address).Speaking(version);
    if servers(address).dials && talk.Tells? then talk.leader else ""
  }

  /** The server an entry takes us to: itself or whom it names. */
  function Lead(servers: Servers, address: string): string
  {
    Named(servers, address, Spoken(servers, address))
  }

  predicate Usable(servers: Servers, address: string)
  {
    Leads(servers, Lead(servers, address), Spoken(servers, address))
  }

  /** What makes an entry usable, in terms of the answers alone: it is reachable and
      names a leader, in version One unless it drops that, and the leader it names,
      possibly itself, is reachable, names itself in the same version and registers
      us. */
  lemma UsableIff(servers: Servers, a: string)
    ensures Usable(servers, a) <==>
            && servers(a).dials
            && var legacy := servers(a).one == Dropped;
               var talk := if legacy then servers(a).legacy else servers(a).one;
               && talk.Tells? && talk.leader != "" && servers(talk.leader).dials
               && var there := if legacy then servers(talk.leader).legacy else servers(talk.leader).one;
                  there.Tells? && there.leader == talk.leader && there.welcomes
  {
  }

  predicate SortedByRole(order: seq<NodeInfo>)
  {
    forall i, j :: 0 <= i < j < |order| ==> order[i].role <= order[j].role
  }

  predicate FirstUsable(servers: Servers, order: seq<NodeInfo>, i: nat)
  {
    && i < |order| && Usable(servers, order[i].address)
    && forall j :: 0 <= j < i ==> !Usable(servers, order[j].address)
  }

  // ---- The network ----

  datatype Link = Link(address: string, version: Version, closes: nat)

  datatype Attempt = Failed(badProtocol: bool) | NoLeader | Redirect(leader: string) | Connected(link: nat)

  /** Every dialled connection, in order, with the number of times it was closed. */
  class Network {
    const servers: Servers
    var dials: nat
    var links: seq<Link>

    constructor (servers: Servers)
      ensures this.servers == servers && dials == 0 && links == []
    {
      this.servers, dials, links := servers, 0, [];
    }

    method Dial(address: string, version: Version) returns (link: Option<nat>)
      modifies this
      ensures dials == old(dials) + 1
      ensures if !servers(address).dials then link == None && links == old(links)
              else link == Some(|old(links)|) && links == old(links) + [Link(address, version, 0)]
    {
      dials := dials + 1;
      if !servers(address).dials {
        return None;
      }
      links := links + [Link(address, version, 0)];
      link := Some(|links| - 1);
    }

    method Close(link: nat)
      requires link < |links|
      modifies this`links
      ensures links == old(links)[link := old(links)[link].(closes := old(links)[link].closes + 1)]
    {
      links := links[link := links[link].(closes := links[link].closes + 1)];
    }

    /** One conversation with one server. A connection that is not returned has
        been closed, once. */
    method AttemptOne(address: string, version: Version) returns (r: Attempt)
      modifies this
      ensures dials == old(dials) + 1
      ensures r.Connected? <==> Leads(servers, address, version)
      ensures r.Redirect? ==> r.leader == Named(servers, address, version) && r.leader != "" && r.leader != address
      ensures r.NoLeader? ==> Named(servers, address, version) == ""
      ensures r == Failed(true) <==> servers(address).dials && servers(address).Speaking(version) == Dropped
      ensures r == Failed(false) ==> Named(servers, address, version) in {"", address}
      ensures if !servers(address).dials then links == old(links)
              else links == old(links) + [Link(address, version, if r.Connected? then 0 else 1)]
      ensures r.Connected? ==> r.link == |old(links)|
    {
      var link := Dial(address, version);
      if link == None {
        return Failed(false);
      }
      match servers(address).Speaking(version) {
        case HandshakeFails =>
          Close(link.value);
          r := Failed(false);
        case Dropped =>
          Close(link.value);
          r := Failed(true);
        case CallFails =>
          Close(link.value);
          r := Failed(false);
        case Garbled =>
          Close(link.value);
          r := Failed(false);
        case Tells(leader, welcomes) =>
          if leader == "" {
            Close(link.value);
            r := NoLeader;
          } else if leader == address {
            if !welcomes {
              Close(link.value);
              r := Failed(false);
            } else {
              r := Connected(link.value);
            }
          } else {
            Close(link.value);
            r := Redirect(leader);
          }
      }
    }

    /** Links from `from` on are closed exactly once, except the returned one. */
    ghost predicate NoLeak(from: nat, kept: Option<nat>)
      reads this
    {
      forall k :: from <= k < |links| ==> links[k].closes == (if kept == Some(k) then 0 else 1)
    }

    /** All that is tried for one entry of the store. */
    method TryEntry(address: string) returns (r: Option<nat>)
      modifies this
      ensures dials <= old(dials) + 3 && old(links) <= links && |links| - |old(links)| <= dials - old(dials)
      ensures r.Some? <==> Usable(servers, address)
      ensures r.Some? ==> |old(links)| <= r.value < |links|
                          && links[r.value] == Link(Lead(servers, address), Spoken(servers, address), 0)
      ensures NoLeak(|old(links)|, r)
    {
      var version := One;
      var a := AttemptOne(address, version);
      if a == Failed(true) {
        version := Legacy;
        a := AttemptOne(address, version);
      }
      match a {
        case Failed(_) => r := None;
        case Connected(link) => r := Some(link);
        case NoLeader => r := None;
        case Redirect(leader) =>
          a := AttemptOne(leader, version);
          r := if a.Connected? then Some(a.link) else None;
      }
    }

    /** One attempt over the whole store (None: the store could not be read).
        `order` is the order in which the entries were tried. */
    method AttemptAll(store: Option<seq<NodeInfo>>) returns (r: Option<nat>, ghost order: seq<NodeInfo>)
      modifies this
      ensures old(links) <= links && NoLeak(|old(links)|, r)
      ensures multiset(order) == multiset(if store.Some? then store.value else []) && SortedByRole(order)
      ensures r.Some? <==> exists e :: e in order && Usable(servers, e.address)
      ensures r.Some? ==>
                exists i: nat ::
                  && FirstUsable(servers, order, i) && dials <= old(dials) + 3 * (i + 1)
                  && |old(links)| <= r.value < |links| && links[r.value].address == Lead(servers, order[i].address)
      ensures dials <= old(dials) + 3 * |order|
    {
      if store == None {
        return None, [];
      }
      var entries := new NodeInfo[|store.value|](i requires 0 <= i < |store.value| => store.value[i]);
      assert entries[..] == store.value;
      SortByRole(entries);
      order := entries[..];
      for i := 0 to entries.Length
        invariant entries[..] == order
        invariant old(links) <= links && NoLeak(|old(links)|, None)
        invariant dials <= old(dials) + 3 * i
        invariant forall j :: 0 <= j < i ==> !Usable(servers, order[j].address)
      {
        r := TryEntry(entries[i].address);
        if r.Some? {
          assert FirstUsable(servers, order, i) && order[i] in order;
          return;
        }
      }
      r := None;
    }
  }

  method SortByRole(entries: array<NodeInfo>)
    modifies entries
    ensures multiset(entries[..]) == old(multiset(entries[..])) && SortedByRole(entries[..])
  {
    ghost var all := set e | e in entries[..];
    var less := (x: NodeInfo, y: NodeInfo) => x.role < y.role;
    SortSlice(entries, less, all);
    assert InOrder(less, all, entries[..], entries.Length, -1);
  }

  // ---- Consequences for a cluster ----

  /** The entry that is used has the lowest role among the usable ones. */
  lemma LowestRole(servers: Servers, order: seq<NodeInfo>, i: nat, e: NodeInfo)
    requires SortedByRole(order) && FirstUsable(servers, order, i) && e in order && Usable(servers, e.address)
    ensures order[i].role <= e.role
  {
    var j :| 0 <= j < |order| && order[j] == e;
    assert j >= i;
  }

  /** The answers agree on one leader: whoever names a leader names it, and it
      names itself. */
  ghost predicate Agreed(servers: Servers, leader: string, version: Version)
  {
    Leads(servers, leader, version) && forall a :: Named(servers, a, version) in {"", leader}
  }

  /** When the answers agree on a leader and everybody is addressed in the
      leader's version, the search finds that leader if and only if the store
      holds someone who knows it; the order of the store does not matter. */
  lemma FindsAgreedLeader(servers: Servers, store: seq<NodeInfo>, leader: string, version: Version)
    requires Agreed(servers, leader, version)
    requires forall e :: e in store ==> Spoken(servers, e.address) == version
    ensures (exists e :: e in store && Usable(servers, e.address)) <==>
            (exists e :: e in store && Named(servers, e.address, version) != "")
    ensures forall e :: e in store && Usable(servers, e.address) ==> Lead(servers, e.address) == leader
  {
    forall e | e in store
      ensures Usable(servers, e.address) <==> Named(servers, e.address, version) != ""
      ensures Usable(servers, e.address) ==> Lead(servers, e.address) == leader
    {
      assert Spoken(servers, e.address) == version;
    }
  }

  /** Not every leader that could be reached directly is found through someone
      who names it: a redirect keeps the version and has no fallback. An entry
      gets there exactly if it speaks the leader's version, or speaks the legacy
      one and the leader would answer to that too. */
  lemma RedirectKeepsVersion(servers: Servers, address: string)
    requires Leads(servers, Lead(servers, address), Spoken(servers, Lead(servers, address)))
    ensures var b := Lead(servers, address);
            Usable(servers, address) <==>
            || Spoken(servers, address) == Spoken(servers, b)
            || (Spoken(servers, address) == Legacy && servers(b).legacy == Tells(b, true))
  {
  }

  /** Both kinds of mixed cluster exist in which the leader is missed. */
  lemma RedirectMisses(version: Version)
    ensures exists s: Servers, a, b ::
              Spoken(s, a) == version && Lead(s, a) == b && Leads(s, b, Spoken(s, b)) && !Usable(s, a)
  {
    var other := if version == One then Legacy else One;
    var named := Tells("b", true);
    var s: Servers := a =>
      if (a == "a") == (version == One) then Server(true, named, CallFails) else Server(true, Dropped, named);
    assert Spoken(s, "a") == version && Lead(s, "a") == "b" && Spoken(s, "b") == other;
    assert Leads(s, "b", Spoken(s, "b")) && !Usable(s, "a");
  }
}
