/** App.Handover (app/app.go): passing our role on before a shutdown. */
module Handovers {
  import opened Cluster
  import opened RolesRuns
  import opened Service
  import R = RolesChanges
  import A = AdjustLoop

  function WithRole(s: State, role: Role): set<NodeId>
  {
    set id | id in s && s[id].role == role
  }

  /** What a handover does: one candidate gains the role, then we become spare. */
  lemma HandoverConserves(s: State, self: NodeId, heir: NodeId)
    requires R.HandoverPlan(s, self).Change? && heir in R.HandoverPlan(s, self).candidates
    ensures heir in s && self in s && heir != self
    ensures var role := s[self].role;
            var mid := Reassign(s, heir, role);
            var end := Reassign(mid, self, Spare);
            && s[heir].role != role && end[heir].role == role && end[self].role == Spare
            && WithRole(mid, role) == WithRole(s, role) + {heir}
            && WithRole(end, role) == WithRole(s, role) + {heir} - {self}
            && |WithRole(end, role)| == |WithRole(s, role)| == |WithRole(mid, role)| - 1
            && |WithRole(mid, Voter)| >= |WithRole(s, Voter)| && |WithRole(end, Voter)| >= |WithRole(s, Voter)|
            && Count(mid).onVoters >= Count(s).onVoters && Count(end).onVoters >= Count(s).onVoters
            && forall id :: id in s && id != heir && id != self ==> end[id] == s[id]
  {
    HandoverSets(s, self, heir);
    HandoverCounts(s, self, heir);
    Swapped(WithRole(s, s[self].role), heir, self);
  }

  lemma HandoverSets(s: State, self: NodeId, heir: NodeId)
    requires R.HandoverPlan(s, self).Change? && heir in R.HandoverPlan(s, self).candidates
    ensures heir in s && self in s && heir != self && s[heir].role != s[self].role && s[self].role != Spare
    ensures var role := s[self].role;
            var mid := Reassign(s, heir, role);
            var end := Reassign(mid, self, Spare);
            && WithRole(mid, role) == WithRole(s, role) + {heir}
            && WithRole(end, role) == WithRole(s, role) + {heir} - {self}
            && (role == StandBy ==> WithRole(mid, Voter) == WithRole(s, Voter) == WithRole(end, Voter))
  {
    R.HandoverToOthers(s, self);
  }

  lemma HandoverCounts(s: State, self: NodeId, heir: NodeId)
    requires R.HandoverPlan(s, self).Change? && heir in R.HandoverPlan(s, self).candidates
    ensures heir in s && self in s
    ensures var mid := Reassign(s, heir, s[self].role);
            Count(s).onVoters <= Count(mid).onVoters && Count(s).onVoters <= Count(Reassign(mid, self, Spare)).onVoters
  {
    R.HandoverToOthers(s, self);
    var mid := Reassign(s, heir, s[self].role);
    ReassignCount(s, heir, s[self].role);
    ReassignCount(mid, self, Spare);
  }

  lemma Swapped(ids: set<NodeId>, joins: NodeId, leaves: NodeId)
    requires joins !in ids && leaves in ids
    ensures |ids + {joins}| == |ids| + 1 && |ids + {joins} - {leaves}| == |ids|
  {
  }

  /** The two configurations of a handover to `heir`. */
  ghost function Promoted(s: State, self: NodeId, heir: NodeId): State
    requires self in s && heir in s
  {
    Reassign(s, heir, s[self].role)
  }

  ghost function HandedOver(s: State, self: NodeId, heir: NodeId): State
    requires self in s && heir in s
  {
    Reassign(Promoted(s, self, heir), self, Spare)
  }

  /** What the cluster went through: nothing, the promotion of an heir, or that
      followed by our demotion. */
  ghost predicate HandsOver(s: State, self: NodeId, states: seq<State>, done: bool)
  {
    match R.HandoverPlan(s, self)
    case NoChange => states == []
    case Change(role, candidates) =>
      || (!done && states == [])
      || exists heir :: heir in candidates && heir in s && self in s &&
           states == [Promoted(s, self, heir)] + if done then [HandedOver(s, self, heir)] else []
  }

  /** The calls of a handover that changed something: after listing the members the
      role was offered to the receivers in the preferred order, and `heir`, whom the
      first new configuration shows promoted, was the first not to refuse. */
  ghost predicate OfferedInOrder(s: State, self: NodeId, calls: seq<Event>, promoted: State)
  {
    exists candidates: seq<NodeId>, k: nat :: HeirIs(s, self, calls, promoted, candidates, k)
  }

  ghost predicate HeirIs(s: State, self: NodeId, calls: seq<Event>, promoted: State, candidates: seq<NodeId>, k: nat)
  {
    && self in s && k < |candidates| && candidates[k] in s && R.IsHandover(s, self, Some(s[self].role), candidates)
    && promoted == Promoted(s, self, candidates[k])
    && [Listed(true, |s|)] + Refusals(candidates[..k], s[self].role)
       + [Offered(candidates[k], s[self].role, true)] <= calls
  }

  /** What a successful handover has done, on the configurations themselves: an online
      node that could receive our role has it, we are a spare, everybody else is as
      before, just as many nodes have the role, and on the way no voter was missing. */
  lemma HandoverOutcome(s: State, self: NodeId, states: seq<State>) returns (heir: NodeId)
    requires self in s && R.HandoverPlan(s, self).Change? && HandsOver(s, self, states, true)
    ensures |states| == 2 && heir in s && heir != self && s[heir].metadata.Some? && s[heir].role != s[self].role
    ensures states[0] == s[heir := Node(s[self].role, s[heir].metadata)]
    ensures states[1] == states[0][self := Node(Spare, s[self].metadata)]
    ensures |WithRole(states[1], s[self].role)| == |WithRole(s, s[self].role)|
    ensures |WithRole(states[0], Voter)| >= |WithRole(s, Voter)| && |WithRole(states[1], Voter)| >= |WithRole(s, Voter)|
  {
    heir :| heir in R.HandoverPlan(s, self).candidates && heir in s && self in s &&
            states == [Promoted(s, self, heir)] + [HandedOver(s, self, heir)];
    R.HandoverToOthers(s, self);
    HandoverConserves(s, self, heir);
  }

  /** `deadline` bounds the retries of the final demotion. Every client obtained
      is closed again. */
  method Handover(svc: Service, cfg: Config, self: NodeId, deadline: nat) returns (ok: bool)
    requires svc.Valid()
    modifies svc`nodes, svc`history, svc`clients, svc`log, svc`transfers
    ensures svc.Valid() && svc.clients == old(svc.clients)
    ensures old(svc.history) <= svc.history
    ensures HandsOver(old(svc.nodes), self, svc.history[|old(svc.history)|..], ok)
    ensures |old(svc.log)| < |svc.log| && old(svc.log) <= svc.log
    ensures |svc.history| > |old(svc.history)| ==>
              OfferedInOrder(old(svc.nodes), self, svc.log[|old(svc.log)| + 1..], svc.history[|old(svc.history)|])
    ensures old(svc.transfers) <= svc.transfers && |svc.transfers| <= |old(svc.transfers)| + 1
  {
    var found := svc.Connect();
    if !found {
      return false;
    }
    ghost var start := svc.log;
    ok := WithClient(svc, cfg, self, deadline);
    ghost var log := svc.log;
    svc.Close();
    if |svc.history| > |old(svc.history)| {
      OfferedMore(old(svc.nodes), self, start, log, svc.log, svc.history[|old(svc.history)|]);
    }
  }

  method WithClient(svc: Service, cfg: Config, self: NodeId, deadline: nat) returns (ok: bool)
    requires svc.Valid() && svc.clients > 0
    modifies svc`nodes, svc`history, svc`clients, svc`log, svc`transfers
    ensures svc.Valid() && svc.clients == old(svc.clients)
    ensures old(svc.history) <= svc.history
    ensures HandsOver(old(svc.nodes), self, svc.history[|old(svc.history)|..], ok)
    ensures old(svc.log) <= svc.log
    ensures |svc.history| > |old(svc.history)| ==>
              OfferedInOrder(old(svc.nodes), self, svc.log[|old(svc.log)|..], svc.history[|old(svc.history)|])
    ensures old(svc.transfers) <= svc.transfers && |svc.transfers| <= |old(svc.transfers)| + 1
  {
    var listed, members := svc.Members();
    if !listed {
      return false;
    }
    ok := WithMembers(svc, cfg, self, deadline, members, old(svc.log));
  }

  /** The handover proper, once the members are known. */
  method WithMembers(svc: Service, cfg: Config, self: NodeId, deadline: nat, members: State, ghost before: seq<Event>)
    returns (ok: bool)
    requires svc.Valid() && svc.clients > 0 && members == svc.nodes
    requires svc.log == before + [Listed(true, |members|)]
    modifies svc`nodes, svc`history, svc`clients, svc`log, svc`transfers
    ensures svc.Valid() && svc.clients == old(svc.clients)
    ensures old(svc.history) <= svc.history && before <= svc.log
    ensures HandsOver(members, self, svc.history[|old(svc.history)|..], ok)
    ensures |svc.history| > |old(svc.history)| ==>
              OfferedInOrder(members, self, svc.log[|before|..], svc.history[|old(svc.history)|])
    ensures old(svc.transfers) <= svc.transfers && |svc.transfers| <= |old(svc.transfers)| + 1
  {
    var passed := PassOn(svc, cfg, self, members);
    if passed == Refused {
      return false;
    }
    ghost var states := [];
    if passed == NothingToPass {
      ok := StepDown(svc, cfg, self, false, deadline);
    } else {
      states := [svc.nodes];
      ok := StepDownAfter(svc, cfg, self, members, deadline, before);
      states := states + if ok then [svc.nodes] else [];
    }
    Since(old(svc.history), states, svc.history);
  }

  lemma Since(before: seq<State>, states: seq<State>, now: seq<State>)
    requires now == before + states
    ensures now[|before|..] == states && (states != [] ==> now[|before|] == states[0])
  {
  }

  /** Step down after somebody took our role. */
  method StepDownAfter(svc: Service, cfg: Config, self: NodeId, ghost s: State, deadline: nat, ghost before: seq<Event>)
    returns (ok: bool)
    requires svc.Valid() && svc.clients > 0 && before <= svc.log
    requires R.HandoverPlan(s, self).Change? && HandsOver(s, self, [svc.nodes], false)
    requires OfferedInOrder(s, self, svc.log[|before|..], svc.nodes)
    modifies svc`nodes, svc`history, svc`clients, svc`log, svc`transfers
    ensures svc.Valid() && svc.clients == old(svc.clients) && before <= svc.log
    ensures svc.history == old(svc.history) + if ok then [svc.nodes] else []
    ensures HandsOver(s, self, [old(svc.nodes)] + (if ok then [svc.nodes] else []), ok)
    ensures OfferedInOrder(s, self, svc.log[|before|..], old(svc.nodes))
    ensures old(svc.transfers) <= svc.transfers && |svc.transfers| <= |old(svc.transfers)| + 1
  {
    ok := StepDown(svc, cfg, self, true, deadline);
    OfferedMore(s, self, before, old(svc.log), svc.log, old(svc.nodes));
    if ok {
      ThenSpare(s, self, old(svc.nodes));
      assert [old(svc.nodes)] + [svc.nodes] == [old(svc.nodes), svc.nodes];
    } else {
      assert [old(svc.nodes)] + [] == [old(svc.nodes)];
    }
  }

  lemma ThenSpare(s: State, self: NodeId, promoted: State)
    requires HandsOver(s, self, [promoted], false) && R.HandoverPlan(s, self).Change? && self in promoted
    ensures HandsOver(s, self, [promoted, Reassign(promoted, self, Spare)], true)
  {
    var heir :| heir in R.HandoverPlan(s, self).candidates && heir in s && self in s &&
                [promoted] == [Promoted(s, self, heir)] + [];
    assert [promoted][0] == promoted;
    assert [promoted, Reassign(promoted, self, Spare)] == [Promoted(s, self, heir)] + [HandedOver(s, self, heir)];
  }

  datatype Passing = NothingToPass | Passed | Refused

  /** Offer our role to those who can receive it. */
  method PassOn(svc: Service, cfg: Config, self: NodeId, members: State) returns (r: Passing)
    requires svc.Valid() && svc.clients > 0 && members == svc.nodes && svc.log != []
    requires svc.log[|svc.log| - 1] == Listed(true, |members|)
    modifies svc`nodes, svc`history, svc`log
    ensures svc.Valid() && old(svc.log) <= svc.log
    ensures r == NothingToPass <==> R.HandoverPlan(members, self) == NoChange
    ensures r != Passed ==> svc.nodes == members && svc.history == old(svc.history)
    ensures r == Passed ==>
              && svc.history == old(svc.history) + [svc.nodes]
              && HandsOver(members, self, [svc.nodes], false)
              && OfferedInOrder(members, self, svc.log[|old(svc.log)| - 1..], svc.nodes)
  {
    var roles := R.RolesChanges(cfg, members);
    var role, candidates := roles.Handover(self);
    if role == None {
      return NothingToPass;
    }
    var promoted := A.OfferInOrder(svc, members, candidates, role.value);
    if !promoted {
      return Refused;
    }
    ghost var k :| 0 <= k < |candidates| && A.Takes(svc, old(svc.log), members, candidates, role.value, k);
    assert candidates[k] in Elements(candidates);
    R.HandoverToOthers(members, self);
    HeirKept(members, self, old(svc.log), svc.log, candidates, k, svc.nodes);
    r := Passed;
  }

  lemma HeirKept(s: State, self: NodeId, before: seq<Event>, log: seq<Event>,
                 candidates: seq<NodeId>, k: nat, promoted: State)
    requires self in s && k < |candidates| && candidates[k] in s
    requires R.IsHandover(s, self, Some(s[self].role), candidates)
    requires promoted == Promoted(s, self, candidates[k])
    requires before != [] && before[|before| - 1] == Listed(true, |s|)
    requires log == before + Refusals(candidates[..k], s[self].role) + [Offered(candidates[k], s[self].role, true)]
    ensures OfferedInOrder(s, self, log[|before| - 1..], promoted)
  {
    assert HeirIs(s, self, log[|before| - 1..], promoted, candidates, k);
  }

  lemma OfferedMore(s: State, self: NodeId, before: seq<Event>, log: seq<Event>, now: seq<Event>, promoted: State)
    requires before <= log <= now && OfferedInOrder(s, self, log[|before|..], promoted)
    ensures OfferedInOrder(s, self, now[|before|..], promoted)
  {
    var candidates: seq<NodeId>, k: nat :| HeirIs(s, self, log[|before|..], promoted, candidates, k);
    assert log[|before|..] <= now[|before|..];
    assert HeirIs(s, self, now[|before|..], promoted, candidates, k);
  }

  /** The rest of a handover: pass on the leadership and, if we passed on our role,
      become a spare. */
  method StepDown(svc: Service, cfg: Config, self: NodeId, handed: bool, deadline: nat) returns (ok: bool)
    requires svc.Valid() && svc.clients > 0
    modifies svc`nodes, svc`history, svc`clients, svc`log, svc`transfers
    ensures svc.Valid() && svc.clients == old(svc.clients)
    ensures if ok && handed then
              && self in old(svc.nodes) && svc.nodes == Reassign(old(svc.nodes), self, Spare)
              && svc.history == old(svc.history) + [svc.nodes]
            else svc.nodes == old(svc.nodes) && svc.history == old(svc.history)
    ensures old(svc.log) <= svc.log
    ensures old(svc.transfers) <= svc.transfers && |svc.transfers| <= |old(svc.transfers)| + 1
  {
    var second, leads;
    ok, second, leads := TransferLeadership(svc, cfg, self);
    if ok && handed {
      ok := DemoteUntil(svc, self, deadline);
    }
    if second {
      svc.Close();
    }
  }

  /** Keep trying to become a spare until it works or the deadline passes. */
  method DemoteUntil(svc: Service, self: NodeId, deadline: nat) returns (demoted: bool)
    requires svc.Valid() && svc.clients > 0
    modifies svc`nodes, svc`history, svc`log
    ensures svc.Valid()
    ensures !demoted ==> svc.nodes == old(svc.nodes) && svc.history == old(svc.history)
    ensures demoted ==>
              && self in old(svc.nodes)
              && svc.nodes == Reassign(old(svc.nodes), self, Spare) && svc.history == old(svc.history) + [svc.nodes]
    ensures exists tries: seq<NodeId> :: (forall i :: 0 <= i < |tries| ==> tries[i] == self)
              && if demoted then svc.log == old(svc.log) + Refusals(tries, Spare) + [Offered(self, Spare, true)]
                 else |tries| == deadline + 1 && svc.log == old(svc.log) + Refusals(tries, Spare)
  {
    ghost var tries: seq<NodeId> := [];
    for attempt := 0 to deadline + 1
      invariant svc.Valid() && svc.nodes == old(svc.nodes) && svc.history == old(svc.history)
      invariant |tries| == attempt && (forall i :: 0 <= i < |tries| ==> tries[i] == self)
      invariant svc.log == old(svc.log) + Refusals(tries, Spare)
    {
      demoted := svc.Assign(self, Spare);
      if demoted {
        return;
      }
      RefusalsSnoc(tries, self, Spare);
      tries := tries + [self];
    }
    demoted := false;
  }

  /** If we lead, ask one other online voter to take over, and only one, whether
      or not it does; then look for the new leader with a second client, which is
      left open. Leadership is not part of the configuration, so no role changes
      here. */
  method TransferLeadership(svc: Service, cfg: Config, self: NodeId) returns (ok: bool, second: bool, leads: bool)
    requires svc.Valid() && svc.clients > 0
    modifies svc`clients, svc`log, svc`transfers
    ensures svc.Valid() && svc.clients == old(svc.clients) + (if second then 1 else 0)
    ensures old(svc.log) <= svc.log
    ensures svc.transfers == old(svc.transfers)
            || exists id :: id in Ids(svc.nodes, Voter, true) - {self} && svc.transfers == old(svc.transfers) + [id]
    ensures svc.transfers != old(svc.transfers) ==> leads
    ensures ok && leads ==> (svc.transfers == old(svc.transfers) <==> Ids(svc.nodes, Voter, true) - {self} == {})
    ensures leads ==> Led(svc.nodes, self)
  {
    var found, leader := svc.Leader();
    ok, second, leads := found, false, found && leader == self;
    if !leads {
      return;
    }
    var members;
    ok, members := svc.Members();
    if !ok {
      return;
    }
    var roles := R.RolesChanges(cfg, members);
    var voters := roles.List(Voter, true);
    for i := 0 to |voters|
      invariant svc.Valid() && svc.clients == old(svc.clients) && svc.transfers == old(svc.transfers)
      invariant old(svc.log) <= svc.log
      invariant forall j :: 0 <= j < i ==> voters[j] == self
    {
      if voters[i] == self {
        continue;
      }
      assert voters[i] in Elements(voters);
      var transferred := svc.Transfer(voters[i]);
      if !transferred && i == |voters| - 1 {
        ok := false;
        return;
      }
      second := svc.Connect();
      ok := second;
      return;
    }
    assert forall id :: id in Elements(voters) ==> id == self;
  }
}
