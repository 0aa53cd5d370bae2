/** RolesChanges (app/roles.go): the decisions themselves, computed by loops over
    the probed cluster, each proved to be the plan its callers rely on. */
module RolesChanges {
  import opened Cluster
  import opened RolesRuns
  import opened Sorting

  predicate Known(s: State, id: NodeId)
  {
    id in s && s[id].Online()
  }

  /** Does the node's failure domain already host one of the given nodes? */
  predicate Used(s: State, domains: set<nat>, id: NodeId)
    requires Known(s, id)
  {
    s[id].metadata.value.failureDomain in domains
  }

  /** The comparator given to the sort. */
  predicate Less(s: State, domains: set<nat>, a: NodeId, b: NodeId)
    requires Known(s, a) && Known(s, b)
  {
    if !Used(s, domains, a) && Used(s, domains, b) then true
    else if !Used(s, domains, b) && Used(s, domains, a) then false
    else s[a].metadata.value.weight < s[b].metadata.value.weight
  }

  /** The comparator is a strict weak order, whatever the domains: the sort may
      use any algorithm. */
  lemma LessIsStrictWeakOrder(s: State, domains: set<nat>, a: NodeId, b: NodeId, c: NodeId)
    requires Known(s, a) && Known(s, b) && Known(s, c)
    ensures !Less(s, domains, a, a)
    ensures Less(s, domains, a, b) ==> !Less(s, domains, b, a)
    ensures Less(s, domains, a, b) && Less(s, domains, b, c) ==> Less(s, domains, a, c)
    ensures !Less(s, domains, a, b) && !Less(s, domains, b, c) ==> !Less(s, domains, a, c)
  {
  }

  /** What a sort by Less leaves behind. */
  ghost predicate Ordered(s: State, domains: set<nat>, xs: seq<NodeId>)
  {
    && (forall i :: 0 <= i < |xs| ==> Known(s, xs[i]))
    && forall i, j :: 0 <= i < j < |xs| ==> !Less(s, domains, xs[j], xs[i])
  }

  /** Preference order in the documentation's terms: candidates from unused
      failure domains come first, lighter ones first within each group. */
  lemma OrderedIff(s: State, domains: set<nat>, xs: seq<NodeId>)
    requires forall i :: 0 <= i < |xs| ==> Known(s, xs[i])
    ensures Ordered(s, domains, xs) <==>
            forall i, j :: 0 <= i < j < |xs| && Known(s, xs[i]) && Known(s, xs[j]) ==>
              var a, b := s[xs[i]].metadata.value, s[xs[j]].metadata.value;
              && (a.failureDomain in domains ==> b.failureDomain in domains)
              && ((a.failureDomain in domains <==> b.failureDomain in domains) ==> a.weight <= b.weight)
  {
  }

  /** Does some online node with the role, other than `except`, sit in the domain? */
  ghost predicate Hosts(s: State, role: Role, except: Option<NodeId>, domain: nat)
  {
    exists h :: h in s && s[h].role == role && s[h].metadata.Some? && except != Some(h)
                && s[h].metadata.value.failureDomain == domain
  }

  /** The documented preference among candidates for a role: those from failure
      domains without a node of that role come first, lighter ones first within
      each group. */
  ghost predicate Preferred(s: State, role: Role, except: Option<NodeId>, xs: seq<NodeId>)
  {
    && (forall i :: 0 <= i < |xs| ==> Known(s, xs[i]))
    && forall i, j :: 0 <= i < j < |xs| ==>
         var a, b := s[xs[i]].metadata.value, s[xs[j]].metadata.value;
         && (Hosts(s, role, except, a.failureDomain) ==> Hosts(s, role, except, b.failureDomain))
         && ((Hosts(s, role, except, a.failureDomain) <==> Hosts(s, role, except, b.failureDomain)) ==>
               a.weight <= b.weight)
  }

  /** Sorting by the domains of the nodes that hold the role is that preference. */
  lemma PreferredIff(s: State, role: Role, except: Option<NodeId>, ids: set<NodeId>, xs: seq<NodeId>)
    requires forall i :: 0 <= i < |xs| ==> Known(s, xs[i])
    requires forall h :: h in ids <==> h in Holders(s, role) && except != Some(h)
    ensures Preferred(s, role, except, xs) <==> Ordered(s, DomainsOf(s, ids), xs)
  {
    forall d ensures Hosts(s, role, except, d) <==> d in DomainsOf(s, ids) {
      HostsIff(s, role, except, ids, d);
    }
    OrderedIff(s, DomainsOf(s, ids), xs);
  }

  lemma HostsIff(s: State, role: Role, except: Option<NodeId>, ids: set<NodeId>, d: nat)
    requires forall h :: h in ids <==> h in Holders(s, role) && except != Some(h)
    ensures Hosts(s, role, except, d) <==> d in DomainsOf(s, ids)
  {
    if Hosts(s, role, except, d) {
      var h :| h in s && s[h].role == role && s[h].metadata.Some? && except != Some(h)
               && s[h].metadata.value.failureDomain == d;
      assert h in ids && Known(s, h);
    }
  }

  /** Failure domains of the online nodes among `ids`. */
  function DomainsOf(s: State, ids: set<NodeId>): set<nat>
  {
    set id | id in ids && Known(s, id) :: s[id].metadata.value.failureDomain
  }

  /** The nodes that already do the job a promotion hands out. */
  function Holders(s: State, role: Role): set<NodeId> { Ids(s, role, true) }

  /** The online nodes that can be promoted to a role. */
  function Pool(s: State, role: Role): set<NodeId>
  {
    if role == Voter then Ids(s, StandBy, true) + Ids(s, Spare, true) else Ids(s, Spare, true)
  }

  /** Which role RolesChanges.Handover passes on, and to whom. */
  function HandoverPlan(s: State, id: NodeId): Plan
  {
    if id !in s || s[id].role == Spare || Pool(s, s[id].role) == {} then NoChange
    else Change(s[id].role, Pool(s, s[id].role))
  }

  ghost predicate IsList(xs: seq<NodeId>, ids: set<NodeId>)
  {
    NoDuplicates(xs) && Elements(xs) == ids
  }

  /** Nobody hands a role over to itself, and every receiver lacks the role. */
  lemma HandoverToOthers(s: State, id: NodeId)
    requires HandoverPlan(s, id).Change?
    ensures var plan := HandoverPlan(s, id);
            && id !in plan.candidates && plan.role == s[id].role != Spare
            && forall c :: c in plan.candidates ==> Known(s, c) && s[c].role != plan.role
  {
  }

  /** Exactly who can receive the role: any online spare, and any online stand-by if
      the role is that of a voter. Without a receiver nothing is handed over. */
  lemma ReceiversIff(s: State, id: NodeId, c: NodeId)
    ensures var plan := HandoverPlan(s, id);
            plan.Change? && c in plan.candidates <==>
            && id in s && s[id].role != Spare && c in s && s[c].metadata.Some?
            && (s[c].role == Spare || (s[c].role == StandBy && s[id].role == Voter))
  {
    if id in s && s[id].role != Spare && HandoverPlan(s, id) == NoChange {
      assert c !in Pool(s, s[id].role);
    }
  }

  /** The node's own choice at startup (None: keep the current role). */
  function Assume(cfg: Config, s: State, id: NodeId): Option<Role>
  {
    if |s| < MIN_VOTERS || id !in s || s[id].role != Spare then None
    else
      var voters, standBys := |Ids(s, Voter, true)|, |Ids(s, StandBy, true)|;
      if voters >= cfg.voters && standBys >= cfg.standBys then None
      else if voters < cfg.voters then Some(Voter)
      else Some(StandBy)
  }

  /** Exactly when a node takes which role at startup, in a cluster of any shape. */
  lemma AssumeIff(cfg: Config, s: State, id: NodeId, role: Role)
    ensures Assume(cfg, s, id) == Some(role) <==>
            && |s| >= 3 && id in s && s[id].role == Spare
            && match role
               case Voter => Count(s).onVoters < cfg.voters
               case StandBy => Count(s).onVoters >= cfg.voters && Count(s).onStandBys < cfg.standBys
               case Spare => false
  {
  }

  /** What Adjust answers: the role of the plan and its candidates, in the preferred
      order if it is a promotion; in a cluster that is too small, just one of them. */
  ghost predicate IsAdjustment(cfg: Config, s: State, leader: NodeId, role: Option<Role>, nodes: seq<NodeId>)
  {
    match AdjustPlan(cfg, s, leader)
    case NoChange => role == None && nodes == []
    case Change(r, c) =>
      && role == Some(r)
      && (if |s| < MIN_VOTERS then |nodes| == 1 && nodes[0] in c else IsList(nodes, c))
      && (r != Spare ==> Preferred(s, r, None, nodes))
  }

  /** What Handover answers: our role and everybody who can receive it, in the
      preferred order, which does not count us among the nodes with that role. */
  ghost predicate IsHandover(s: State, id: NodeId, role: Option<Role>, candidates: seq<NodeId>)
  {
    match HandoverPlan(s, id)
    case NoChange => role == None && candidates == []
    case Change(r, c) => role == Some(r) && IsList(candidates, c) && Preferred(s, r, Some(id), candidates)
  }

  datatype RolesChanges = RolesChanges(config: Config, state: State) {

    /** Nodes with the given role and reachability, in map iteration order,
        which is arbitrary. */
    method List(role: Role, online: bool) returns (nodes: seq<NodeId>)
      ensures IsList(nodes, Ids(state, role, online))
      ensures |nodes| == |Ids(state, role, online)|
    {
      nodes := [];
      var todo := state.Keys;
      while todo != {}
        invariant todo <= state.Keys && NoDuplicates(nodes)
        invariant forall id :: id in nodes <==> id in Ids(state, role, online) && id !in todo
      {
        var id :| id in todo;
        if state[id].role == role && state[id].Online() == online {
          nodes := nodes + [id];
        }
        todo := todo - {id};
      }
      assert Elements(nodes) == Ids(state, role, online);
      ElementsSize(nodes);
    }

    method FailureDomains(nodes: seq<NodeId>) returns (domains: set<nat>)
      ensures domains == DomainsOf(state, Elements(nodes))
    {
      domains := {};
      for i := 0 to |nodes|
        invariant domains == DomainsOf(state, Elements(nodes[..i]))
      {
        assert Elements(nodes[..i + 1]) == Elements(nodes[..i]) + {nodes[i]};
        if nodes[i] in state && state[nodes[i]].Online() {
          domains := domains + {state[nodes[i]].metadata.value.failureDomain};
        }
      }
      assert nodes[..|nodes|] == nodes;
    }

    method SortCandidates(candidates: array<NodeId>, domains: set<nat>)
      requires forall i :: 0 <= i < candidates.Length ==> Known(state, candidates[i])
      modifies candidates
      ensures multiset(candidates[..]) == old(multiset(candidates[..]))
      ensures Ordered(state, domains, candidates[..])
    {
      ghost var known := set id | id in state && Known(state, id);
      var less := (x, y) requires Known(state, x) && Known(state, y) => Less(state, domains, x, y);
      assert WeakOrder(less, known) by {
        forall x, y, z | x in known && y in known && z in known
          ensures !Less(state, domains, x, y) && !Less(state, domains, y, z) ==> !Less(state, domains, x, z)
        {
          LessIsStrictWeakOrder(state, domains, x, y, z);
        }
      }
      SortSlice(candidates, less, known);
      assert InOrder(less, known, candidates[..], candidates.Length, -1);
    }

    /** Sort a freshly listed slice. */
    method Sorted(nodes: seq<NodeId>, domains: set<nat>) returns (sorted: seq<NodeId>)
      requires NoDuplicates(nodes) && forall id :: id in nodes ==> Known(state, id)
      ensures IsList(sorted, Elements(nodes))
      ensures Ordered(state, domains, sorted)
    {
      var a := new NodeId[|nodes|](i requires 0 <= i < |nodes| => nodes[i]);
      assert a[..] == nodes;
      SortCandidates(a, domains);
      sorted := a[..];
      PermutationElements(nodes, sorted);
    }

    /** The promotion candidates for a role, best first, where `holders` are the
        nodes whose failure domains are to be avoided. */
    method Ranked(role: Role, holders: seq<NodeId>) returns (nodes: seq<NodeId>)
      requires role != Spare
      ensures IsList(nodes, Pool(state, role)) && |nodes| == |Pool(state, role)|
      ensures Ordered(state, DomainsOf(state, Elements(holders)), nodes)
    {
      nodes := List(Spare, true);
      if role == Voter {
        var standBys := List(StandBy, true);
        AppendElements(standBys, nodes);
        nodes := standBys + nodes;
      }
      var domains := FailureDomains(holders);
      assert forall id :: id in nodes ==> id in Elements(nodes);
      nodes := Sorted(nodes, domains);
      ElementsSize(nodes);
    }

    method Handover(id: NodeId) returns (role: Option<Role>, candidates: seq<NodeId>)
      ensures IsHandover(state, id, role, candidates)
    {
      if id !in state || state[id].role == Spare {
        return None, [];
      }
      var peers := List(state[id].role, true);
      peers := Without(peers, id);
      candidates := Ranked(state[id].role, peers);
      if |candidates| == 0 {
        return None, [];
      }
      role := Some(state[id].role);
      PreferredIff(state, state[id].role, Some(id), Elements(peers), candidates);
    }

    method Adjust(leader: NodeId) returns (role: Option<Role>, nodes: seq<NodeId>)
      ensures IsAdjustment(config, state, leader, role, nodes)
    {
      if |state| == 1 {
        return None, [];
      }
      if |state| < MIN_VOTERS {
        role, nodes := DemoteOther(leader);
        return;
      }
      role, nodes := Rebalance(leader);
    }

    /** The adjustment of a cluster of regular size. */
    method Rebalance(leader: NodeId) returns (role: Option<Role>, nodes: seq<NodeId>)
      ensures var move := Decide(config, Count(state));
              if move == Stay then role == None && nodes == []
              else
                && role == Some(move.Gives()) && IsList(nodes, Asked(state, move, leader))
                && (move.Promote? ==> Preferred(state, move.to, None, nodes))
    {
      AskedPool(state, Decide(config, Count(state)), leader);
      var onlineVoters := List(Voter, true);
      var onlineStandbys := List(StandBy, true);
      var offlineVoters := List(Voter, false);
      var offlineStandbys := List(StandBy, false);
      if |offlineVoters| == 0 && |onlineVoters| == config.voters
         && |offlineStandbys| == 0 && |onlineStandbys| == config.standBys {
        return None, [];
      }
      if |onlineVoters| < config.voters {
        nodes := Ranked(Voter, onlineVoters);
        PreferredIff(state, Voter, None, Elements(onlineVoters), nodes);
        return if |nodes| == 0 then None else Some(Voter), nodes;
      }
      if |onlineVoters| > config.voters {
        nodes := Without(onlineVoters, leader);
        return Some(Spare), nodes;
      }
      if |offlineVoters| > 0 {
        return Some(Spare), offlineVoters;
      }
      if |onlineStandbys| < config.standBys {
        nodes := Ranked(StandBy, onlineStandbys);
        PreferredIff(state, StandBy, None, Elements(onlineStandbys), nodes);
        return if |nodes| == 0 then None else Some(StandBy), nodes;
      }
      if |onlineStandbys| > config.standBys {
        nodes := Without(onlineStandbys, leader);
        return Some(Spare), nodes;
      }
      if |offlineStandbys| > 0 {
        return Some(Spare), offlineStandbys;
      }
      return None, [];
    }

    /** In a cluster that is too small, name one voter other than the leader. */
    method DemoteOther(leader: NodeId) returns (role: Option<Role>, nodes: seq<NodeId>)
      ensures var others := OtherVoters(state, leader);
              if others == {} then role == None && nodes == []
              else role == Some(Spare) && |nodes| == 1 && nodes[0] in others
    {
      var todo := state.Keys;
      while todo != {}
        invariant todo <= state.Keys && OtherVoters(state, leader) <= todo
      {
        var id :| id in todo;
        if id != leader && state[id].role == Voter {
          assert id in OtherVoters(state, leader);
          return Some(Spare), [id];
        }
        todo := todo - {id};
      }
      return None, [];
    }
  }

  /** Copy a list, leaving out one node. */
  method Without(from: seq<NodeId>, skip: NodeId) returns (nodes: seq<NodeId>)
    requires NoDuplicates(from)
    ensures IsList(nodes, Elements(from) - {skip})
  {
    nodes := [];
    for i := 0 to |from|
      invariant NoDuplicates(nodes)
      invariant forall x :: x in nodes <==> x in from[..i] && x != skip
    {
      if from[i] != skip {
        assert from[i] !in from[..i];
        nodes := nodes + [from[i]];
      }
    }
    assert from[..|from|] == from;
  }

  lemma AppendElements(xs: seq<NodeId>, ys: seq<NodeId>)
    requires NoDuplicates(xs) && NoDuplicates(ys) && Elements(xs) !! Elements(ys)
    ensures NoDuplicates(xs + ys) && Elements(xs + ys) == Elements(xs) + Elements(ys)
  {
    forall i, j | 0 <= i < j < |xs + ys| ensures (xs + ys)[i] != (xs + ys)[j] {
      if i < |xs| <= j {
        assert xs[i] in Elements(xs) && ys[j - |xs|] in Elements(ys);
      }
    }
  }

  lemma PermutationElements(xs: seq<NodeId>, ys: seq<NodeId>)
    requires multiset(xs) == multiset(ys) && NoDuplicates(xs)
    ensures NoDuplicates(ys) && Elements(xs) == Elements(ys)
  {
    forall x ensures x in xs <==> x in ys {
      assert x in xs <==> x in multiset(xs);
      assert x in ys <==> x in multiset(ys);
    }
    forall i, j | 0 <= i < j < |ys| ensures ys[i] != ys[j] {
      if ys[i] == ys[j] {
        assert ys == ys[..i] + [ys[i]] + ys[i + 1..j] + [ys[j]] + ys[j + 1..];
        assert multiset(ys)[ys[i]] >= 2;
        NoDuplicatesOnce(xs, ys[i]);
        assert false;
      }
    }
  }

  lemma {:induction false} NoDuplicatesOnce(xs: seq<NodeId>, x: NodeId)
    requires NoDuplicates(xs)
    ensures multiset(xs)[x] <= 1
  {
    if xs != [] {
      var k := |xs| - 1;
      assert xs == xs[..k] + [xs[k]];
      NoDuplicatesOnce(xs[..k], x);
      assert xs[k] !in xs[..k];
      assert xs[k] !in multiset(xs[..k]);
    }
  }
}
