/** Startup of a node (app/app.go): joining the cluster and promoting ourselves. */
module Joins {
  import opened Cluster
  import opened RolesRuns
  import opened Service
  import R = RolesChanges

  /** The configuration after a node has taken the role Assume gives it. When it
      finds a single voter it also pulls in one helper, unless there is none. */
  ghost predicate Promotes(cfg: Config, s: State, id: NodeId, s': State)
  {
    match R.Assume(cfg, s, id)
    case None => s' == s
    case Some(role) =>
      && id in s
      && var alone := Reassign(s, id, role);
         if role == Voter && |Ids(s, Voter, true)| == 1 && Helpers(s, id) != {}
         then exists h :: h in Helpers(s, id) && s' == Reassign(alone, h, Voter)
         else s' == alone
  }

  function Helpers(s: State, id: NodeId): set<NodeId>
  {
    set h | h in s && h != id && s[h].role != Voter
  }

  /** The configurations that an attempt to promote ourselves goes through: none
      but the first if there is nothing to take or we are refused, then ours and
      that of at most one helper. */
  ghost predicate Promotion(cfg: Config, self: NodeId, states: seq<State>)
  {
    0 < |states| <= 3 &&
    match R.Assume(cfg, states[0], self)
    case None => |states| == 1
    case Some(role) =>
      && self in states[0]
      && (|states| > 1 ==> states[1] == Reassign(states[0], self, role))
      && (|states| > 2 ==>
            && role == Voter && |Ids(states[0], Voter, true)| == 1
            && exists h :: h in Helpers(states[0], self) && states[2] == Reassign(states[1], h, Voter))
  }

  /** The calls of an attempt to promote ourselves: we take the role first; only then,
      and only if there was a single voter, other nodes are asked to become voters,
      each once, until one accepts or all have refused. */
  ghost predicate PromotionCalls(cfg: Config, self: NodeId, members: State, calls: seq<Event>, ok: bool)
  {
    match R.Assume(cfg, members, self)
    case None => ok && calls == []
    case Some(role) =>
      && |calls| > 0 && calls[0] == Offered(self, role, ok)
      && if ok && role == Voter && |Ids(members, Voter, true)| == 1 then HelperCalls(self, members, calls[1..])
         else |calls| == 1
  }

  ghost predicate HelperCalls(self: NodeId, members: State, calls: seq<Event>)
  {
    exists tried: seq<NodeId> :: Tried(self, members, tried) && AskedAll(self, members, tried, calls)
  }

  ghost predicate Tried(self: NodeId, members: State, tried: seq<NodeId>)
  {
    NoDuplicates(tried) && forall h :: h in tried ==> h in members && h != self && members[h].role != Voter
  }

  ghost predicate AskedAll(self: NodeId, members: State, tried: seq<NodeId>, calls: seq<Event>)
  {
    || (calls == Refusals(tried, Voter)
        && forall h :: h in members && h != self && members[h].role != Voter ==> h in tried)
    || (tried != [] && calls == Refusals(tried[..|tried| - 1], Voter) + [Offered(tried[|tried| - 1], Voter, true)])
  }

  /** `settled` says that no optional promotion was refused by everybody. */
  method MaybePromoteOurselves(svc: Service, cfg: Config, self: NodeId, members: State)
    returns (ok: bool, settled: bool)
    requires svc.Valid() && svc.clients > 0 && members == svc.nodes
    modifies svc`nodes, svc`history, svc`log
    ensures svc.Valid() && old(svc.history) <= svc.history
    ensures Promotion(cfg, self, svc.history[|old(svc.history)| - 1..])
    ensures old(svc.log) <= svc.log && PromotionCalls(cfg, self, members, svc.log[|old(svc.log)|..], ok)
    ensures !ok ==> svc.history == old(svc.history)
    ensures ok && R.Assume(cfg, members, self).Some? ==> |svc.history| > |old(svc.history)|
    ensures ok && settled ==> Promotes(cfg, old(svc.nodes), self, svc.nodes)
    ensures ok && !settled ==>
              && R.Assume(cfg, old(svc.nodes), self) == Some(Voter)
              && self in old(svc.nodes) && svc.nodes == Reassign(old(svc.nodes), self, Voter)
  {
    var role := R.Assume(cfg, members, self);
    if role == None {
      return true, true;
    }
    ok := svc.Assign(self, role.value);
    if !ok {
      return false, false;
    }
    settled := true;
    if role.value == Voter && |Ids(members, Voter, true)| == 1 {
      settled := PromoteHelper(svc, self, members);
      assert svc.log[|old(svc.log)|..][1..] == svc.log[|old(svc.log)| + 1..];
    }
  }

  /** Try to make one more node a voter, asking in map iteration order. */
  method PromoteHelper(svc: Service, self: NodeId, members: State) returns (settled: bool)
    requires svc.Valid() && svc.clients > 0 && self in members && svc.nodes == Reassign(members, self, Voter)
    modifies svc`nodes, svc`history, svc`log
    ensures svc.Valid()
    ensures svc.history == old(svc.history) ||
            exists h :: h in Helpers(members, self) && svc.nodes == Reassign(old(svc.nodes), h, Voter)
                        && svc.history == old(svc.history) + [svc.nodes]
    ensures settled <==> svc.history != old(svc.history) || Helpers(members, self) == {}
    ensures old(svc.log) <= svc.log && HelperCalls(self, members, svc.log[|old(svc.log)|..])
  {
    var todo := members.Keys;
    ghost var tried: seq<NodeId> := [];
    while todo != {}
      invariant svc.Valid() && todo <= members.Keys
      invariant svc.nodes == old(svc.nodes) && svc.history == old(svc.history)
      invariant Tried(self, members, tried) && forall h :: h in tried ==> h !in todo
      invariant forall h :: h in members && h != self && members[h].role != Voter && h !in todo ==> h in tried
      invariant svc.log == old(svc.log) + Refusals(tried, Voter)
    {
      var h :| h in todo;
      todo := todo - {h};
      if h != self && members[h].role != Voter {
        var helped := svc.Assign(h, Voter);
        ghost var now := tried + [h];
        assert now[..|now| - 1] == tried;
        if helped {
          assert h in Helpers(members, self);
          assert Tried(self, members, now) && AskedAll(self, members, now, svc.log[|old(svc.log)|..]);
          return true;
        }
        RefusalsSnoc(tried, h, Voter);
        tried := now;
      }
    }
    assert AskedAll(self, members, tried, svc.log[|old(svc.log)|..]);
    settled := Helpers(members, self) == {};
  }

  /** Promoting ourselves never costs the online voters their majority, even if
      the helper turns out to be offline. */
  lemma PromotionKeepsMajority(cfg: Config, self: NodeId, states: seq<State>, i: nat)
    requires Promotion(cfg, self, states) && i < |states| && Majority(states[0]) && R.Known(states[0], self)
    ensures Majority(states[i])
  {
    if i > 0 {
      var role := R.Assume(cfg, states[0], self).value;
      ReassignCount(states[0], self, role);
      if i == 2 {
        var h :| h in Helpers(states[0], self) && states[2] == Reassign(states[1], h, Voter);
        ReassignCount(states[1], h, Voter);
      }
    }
  }

  /** What a node takes at startup brings the cluster strictly closer to its
      targets and exceeds neither of them. */
  lemma AssumeHelps(cfg: Config, s: State, id: NodeId)
    requires R.Known(s, id) && R.Assume(cfg, s, id).Some?
    ensures var role := R.Assume(cfg, s, id).value;
            var t := Count(Reassign(s, id, role));
            && s[id].role == Spare != role && Distance(cfg, t) < Distance(cfg, Count(s))
            && (if role == Voter then t.onVoters <= cfg.voters else t.onStandBys <= cfg.standBys)
            && (role == StandBy ==> t.onVoters >= cfg.voters)
  {
    ReassignCount(s, id, R.Assume(cfg, s, id).value);
  }

  /** A brand new node is added as a spare and then promotes itself. */
  ghost predicate Join(cfg: Config, s: State, s': State)
  {
    exists id, metadata :: id !in s && Promotes(cfg, s[id := Node(Spare, Some(metadata))], id, s')
  }

  /** One bootstrap voter, then only successful joins. */
  ghost predicate IsGrowth(cfg: Config, states: seq<State>)
  {
    && |states| > 0
    && (exists id, metadata :: states[0] == map[id := Node(Voter, Some(metadata))])
    && forall i :: 0 <= i < |states| - 1 ==> Join(cfg, states[i], states[i + 1])
  }

  /** The classes of a cluster of n nodes that grew by joins. */
  function Grown(cfg: Config, n: nat): Tally
    requires cfg.voters >= MIN_VOTERS
  {
    if n == 0 then Tally(0, 0, 0, 0, 0, 0)
    else if n < MIN_VOTERS then Tally(1, 0, n - 1, 0, 0, 0)
    else
      var voters := Min(n, cfg.voters);
      var standBys := Min(n - voters, cfg.standBys);
      Tally(voters, standBys, n - voters - standBys, 0, 0, 0)
  }

  lemma AddSize(s: State, id: NodeId, metadata: Metadata, r: Role, online: bool)
    requires id !in s
    ensures |Ids(s[id := Node(Spare, Some(metadata))], r, online)| ==
            |Ids(s, r, online)| + (if r == Spare && online then 1 else 0)
  {
    assert Ids(s[id := Node(Spare, Some(metadata))], r, online) ==
           Ids(s, r, online) + (if r == Spare && online then {id} else {});
  }

  lemma AddCount(s: State, id: NodeId, metadata: Metadata)
    requires id !in s
    ensures var s' := s[id := Node(Spare, Some(metadata))];
            Count(s') == Plus(Count(s), Spare, true) && |s'| == |s| + 1
  {
    var s' := s[id := Node(Spare, Some(metadata))];
    assert s'.Keys == s.Keys + {id};
    assert |s'.Keys| == |s'| && |s.Keys| == |s|;
    AddSize(s, id, metadata, Voter, true);
    AddSize(s, id, metadata, StandBy, true);
    AddSize(s, id, metadata, Spare, true);
    AddSize(s, id, metadata, Voter, false);
    AddSize(s, id, metadata, StandBy, false);
    AddSize(s, id, metadata, Spare, false);
  }

  ghost predicate AllOnline(s: State)
  {
    forall id :: id in s ==> s[id].Online()
  }

  /** The class that absorbs the next node. */
  lemma GrowOne(cfg: Config, n: nat)
    requires cfg.voters >= MIN_VOTERS && n >= 1
    ensures var t := Grown(cfg, n);
            Grown(cfg, n + 1) ==
            if n + 1 == MIN_VOTERS then Tally(3, 0, 0, 0, 0, 0)
            else if n < MIN_VOTERS then Plus(t, Spare, true)
            else if t.onVoters < cfg.voters then Plus(t, Voter, true)
            else if t.onStandBys < cfg.standBys then Plus(t, StandBy, true)
            else Plus(t, Spare, true)
  {
  }

  lemma JoinGrows(cfg: Config, s: State, s': State)
    requires cfg.voters >= MIN_VOTERS && Join(cfg, s, s') && AllOnline(s)
    requires Count(s) == Grown(cfg, |s|) && |s| >= 1
    ensures |s'| == |s| + 1 && AllOnline(s') && Count(s') == Grown(cfg, |s'|)
  {
    var id, metadata :| id !in s && Promotes(cfg, s[id := Node(Spare, Some(metadata))], id, s');
    AddCount(s, id, metadata);
    PromotionGrows(cfg, |s|, s[id := Node(Spare, Some(metadata))], id, s');
  }

  lemma PromotionGrows(cfg: Config, n: nat, added: State, id: NodeId, s': State)
    requires cfg.voters >= MIN_VOTERS && n >= 1 && |added| == n + 1 && AllOnline(added)
    requires id in added && added[id].role == Spare && Count(added) == Plus(Grown(cfg, n), Spare, true)
    requires Promotes(cfg, added, id, s')
    ensures |s'| == n + 1 && AllOnline(s') && Count(s') == Grown(cfg, n + 1)
  {
    GrowOne(cfg, n);
    if n + 1 == MIN_VOTERS {
      HelperExists(added, id);
      ThirdNode(cfg, added, id, s');
    } else if R.Assume(cfg, added, id).Some? {
      ReassignCount(added, id, R.Assume(cfg, added, id).value);
    }
  }

  /** With the third node, both nodes that are still spare become voters. */
  lemma ThirdNode(cfg: Config, s: State, id: NodeId, s': State)
    requires cfg.voters >= MIN_VOTERS && AllOnline(s) && id in s
    requires Count(s) == Tally(1, 0, 2, 0, 0, 0) && R.Assume(cfg, s, id) == Some(Voter)
    requires Helpers(s, id) != {} && Promotes(cfg, s, id, s')
    ensures |s'| == |s| && AllOnline(s') && Count(s') == Tally(3, 0, 0, 0, 0, 0)
  {
    var alone := Reassign(s, id, Voter);
    ReassignCount(s, id, Voter);
    var h :| h in Helpers(s, id) && s' == Reassign(alone, h, Voter);
    assert h in Ids(s, s[h].role, true);
    ReassignCount(alone, h, Voter);
  }

  lemma HelperExists(s: State, id: NodeId)
    requires id in s && s[id].role == Spare && |Ids(s, Spare, true)| >= 2
    ensures Helpers(s, id) != {}
  {
    var pool := Ids(s, Spare, true) - {id};
    assert |pool| >= 1;
    var h :| h in pool;
    assert h in Helpers(s, id);
  }

  /** Joins land on the fixed point: a cluster of any size that grew by
      successful joins has exactly the classes Adjust aims for, so whichever
      voter leads, Adjust changes nothing. */
  lemma {:induction false} JoinsSettle(cfg: Config, states: seq<State>, i: nat, leader: NodeId)
    requires cfg.voters >= MIN_VOTERS && IsGrowth(cfg, states) && i < |states|
    ensures |states[i]| == i + 1 && AllOnline(states[i]) && Count(states[i]) == Grown(cfg, i + 1)
    ensures Led(states[i], leader) ==> AdjustPlan(cfg, states[i], leader) == NoChange
  {
    var s := states[i];
    if i == 0 {
      var id, metadata :| states[0] == map[id := Node(Voter, Some(metadata))];
      Bootstrap(id, metadata);
    } else {
      JoinsSettle(cfg, states, i - 1, leader);
      assert Join(cfg, states[i - 1], states[i - 1 + 1]);
      JoinGrows(cfg, states[i - 1], s);
    }
    if Led(s, leader) {
      GrownSettled(cfg, s, leader);
    }
  }

  lemma Bootstrap(id: NodeId, metadata: Metadata)
    ensures var s := map[id := Node(Voter, Some(metadata))];
            |s| == 1 && Count(s) == Tally(1, 0, 0, 0, 0, 0)
  {
    var s := map[id := Node(Voter, Some(metadata))];
    assert s.Keys == {id};
    assert |s.Keys| == |s|;
    assert Ids(s, Voter, true) == {id};
    CountTotal(s);
  }

  lemma GrownSettled(cfg: Config, s: State, leader: NodeId)
    requires cfg.voters >= MIN_VOTERS && Led(s, leader) && AllOnline(s) && Count(s) == Grown(cfg, |s|)
    ensures AdjustPlan(cfg, s, leader) == NoChange
  {
    FixedPointIff(cfg, s, leader);
    if |s| < MIN_VOTERS {
      OnlyLeader(Ids(s, Voter, true), leader);
      assert |Ids(s, Voter, true) - {leader}| == 0;
      forall id | id in s && s[id].role == Voter ensures id == leader {
        assert id in Ids(s, Voter, true);
      }
    }
  }
}
