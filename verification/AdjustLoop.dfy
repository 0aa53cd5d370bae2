/** maybeAdjustRoles (app/app.go): the loop that repeats Adjust and Assign. */
module AdjustLoop {
  import opened Cluster
  import opened RolesRuns
  import opened Service
  import R = RolesChanges

  /** The stretch of history since a call started. */
  ghost function Since(before: seq<State>, now: seq<State>): seq<State>
    requires 0 < |before| <= |now|
  {
    now[|before| - 1..]
  }

  datatype Outcome = Done | NotLeader | Failed

  /** Repeat Adjust and Assign until there is nothing left to do. */
  method MaybeAdjustRoles(svc: Service, cfg: Config, self: NodeId) returns (outcome: Outcome)
    requires svc.Valid() && svc.clients > 0 && cfg.voters >= 1
    modifies svc`nodes, svc`history, svc`log
    ensures svc.Valid() && old(svc.history) <= svc.history && AsksFirst(old(svc.log), svc.log)
    ensures IsRun(cfg, self, Since(old(svc.history), svc.history)) && EndsWith(svc.log, self, outcome)
    ensures |svc.history| > |old(svc.history)| || outcome == Done ==> Led(old(svc.nodes), self)
    ensures |svc.history| - |old(svc.history)| <= Measure(cfg, old(svc.nodes), self)
    ensures outcome == Done ==> Settled(cfg, svc.nodes, self)
    ensures outcome == Done && |old(svc.nodes)| >= MIN_VOTERS ==>
              Count(svc.nodes) == Target(cfg, Count(old(svc.nodes)))
    ensures Safe(cfg, old(svc.nodes), self) ==>
              forall i :: |old(svc.history)| <= i < |svc.history| ==> Safe(cfg, svc.history[i], self)
  {
    ghost var run;
    outcome, run := AdjustUntilDone(svc, cfg, self);
    assert Since(old(svc.history), svc.history) == run;
    Summary(cfg, self, run, outcome == Done);
    assert forall i :: |old(svc.history)| <= i < |svc.history| ==> svc.history[i] == run[i - |old(svc.history)| + 1];
  }

  /** The calls of the loop: it asks who leads before it does anything else. */
  ghost predicate AsksFirst(before: seq<Event>, now: seq<Event>)
  {
    && before <= now && |before| < |now| && now[|before|].Asked?
    && forall i :: |before| <= i < |now| ==> now[i].Asked? || now[i].Listed? || now[i].Offered?
  }

  /** What an outcome means, told by the last call: the leader could not be asked or is
      another, or the members could not be listed, or the last candidate refused. */
  ghost predicate EndsWith(log: seq<Event>, self: NodeId, outcome: Outcome)
  {
    log != [] &&
    var e := log[|log| - 1];
    match outcome
    case Done => e.Listed? && e.ok
    case NotLeader => e.Asked? && e.answer.Some? && e.answer != Some(self)
    case Failed => (e.Asked? && e.answer == None) || (e.Listed? && !e.ok) || (e.Offered? && !e.ok)
  }

  /** The loop itself: `run` is what the cluster goes through. */
  method AdjustUntilDone(svc: Service, cfg: Config, self: NodeId) returns (outcome: Outcome, ghost run: seq<State>)
    requires svc.Valid() && svc.clients > 0 && cfg.voters >= 1
    modifies svc`nodes, svc`history, svc`log
    ensures svc.Valid() && IsRun(cfg, self, run) && run[0] == old(svc.nodes) && run[|run| - 1] == svc.nodes
    ensures svc.history == old(svc.history) + run[1..] && AsksFirst(old(svc.log), svc.log)
    ensures |run| > 1 || outcome == Done ==> Led(run[0], self)
    ensures outcome == Done ==> AdjustPlan(cfg, svc.nodes, self) == NoChange
    ensures EndsWith(svc.log, self, outcome)
  {
    run := [svc.nodes];
    while true
      invariant svc.Valid() && IsRun(cfg, self, run) && run[0] == old(svc.nodes) && run[|run| - 1] == svc.nodes
      invariant svc.history == old(svc.history) + run[1..]
      invariant |run| > 1 ==> Led(run[0], self)
      invariant svc.log == old(svc.log) || AsksFirst(old(svc.log), svc.log)
      decreases Measure(cfg, svc.nodes, self)
    {
      ghost var s, log := svc.nodes, svc.log;
      var turn := OneTurn(svc, cfg, self);
      AsksMore(old(svc.log), log, svc.log);
      if turn != Changed {
        outcome := if turn == Idle then Done else if turn == Follower then NotLeader else Failed;
        return;
      }
      StepEffect(cfg, self, s, svc.nodes);
      ExtendRun(cfg, self, run, svc.nodes);
      assert (run + [svc.nodes])[1..] == run[1..] + [svc.nodes];
      run := run + [svc.nodes];
    }
  }

  lemma AsksMore(a: seq<Event>, b: seq<Event>, c: seq<Event>)
    requires (a == b || AsksFirst(a, b)) && AsksFirst(b, c)
    ensures AsksFirst(a, c)
  {
  }

  datatype Turn = Changed | Idle | Refused | Follower | Unavailable

  /** One turn of the loop: make sure we lead, list the members, adjust once. */
  method OneTurn(svc: Service, cfg: Config, self: NodeId) returns (turn: Turn)
    requires svc.Valid() && svc.clients > 0 && cfg.voters >= 1
    modifies svc`nodes, svc`history, svc`log
    ensures svc.Valid() && AsksFirst(old(svc.log), svc.log)
    ensures turn == Changed ==>
              svc.history == old(svc.history) + [svc.nodes] && Step(cfg, self, old(svc.nodes), svc.nodes)
    ensures turn != Changed ==> svc.nodes == old(svc.nodes) && svc.history == old(svc.history)
    ensures turn in {Changed, Idle, Refused} ==> Led(old(svc.nodes), self)
    ensures turn == Idle ==> AdjustPlan(cfg, svc.nodes, self) == NoChange
    ensures turn != Changed ==>
              EndsWith(svc.log, self, if turn == Idle then Done else if turn == Follower then NotLeader else Failed)
  {
    var found, leader := svc.Leader();
    if !found || leader != self {
      return if found then Follower else Unavailable;
    }
    var listed, members := svc.Members();
    if !listed {
      return Unavailable;
    }
    ghost var role, nodes;
    turn, role, nodes := AdjustOnce(svc, cfg, self, members);
    if turn == Refused {
      assert svc.log[|svc.log| - 1] == Refusals(nodes, role.value)[|nodes| - 1];
    }
  }

  /** Everything the callers of the loop rely on follows from it being a run. */
  lemma Summary(cfg: Config, self: NodeId, run: seq<State>, done: bool)
    requires IsRun(cfg, self, run) && (|run| > 1 || done ==> Led(run[0], self))
    requires done ==> AdjustPlan(cfg, run[|run| - 1], self) == NoChange
    ensures |run| - 1 <= Measure(cfg, run[0], self)
    ensures done ==> Settled(cfg, run[|run| - 1], self)
    ensures done && |run[0]| >= MIN_VOTERS ==> Count(run[|run| - 1]) == Target(cfg, Count(run[0]))
    ensures Safe(cfg, run[0], self) ==> forall i :: 0 <= i < |run| ==> Safe(cfg, run[i], self)
  {
    if Led(run[0], self) {
      RunBound(cfg, self, run);
    }
    if done {
      RunEffect(cfg, self, run, |run| - 1);
      FixedPointIff(cfg, run[|run| - 1], self);
      if |run[0]| >= MIN_VOTERS { Convergence(cfg, self, run); }
    }
    if Safe(cfg, run[0], self) {
      forall i | 0 <= i < |run| ensures Safe(cfg, run[i], self) { RunKeepsQuorum(cfg, self, run, i); }
    }
  }

  /** One turn: decide, then offer the role to each candidate, in the order of the
      list, until one takes it. */
  method AdjustOnce(svc: Service, cfg: Config, self: NodeId, members: State)
    returns (turn: Turn, ghost role: Option<Role>, ghost nodes: seq<NodeId>)
    requires svc.Valid() && svc.clients > 0 && cfg.voters >= 1 && Led(svc.nodes, self) && members == svc.nodes
    modifies svc`nodes, svc`history, svc`log
    ensures svc.Valid() && R.IsAdjustment(cfg, members, self, role, nodes)
    ensures turn == Changed <==> svc.history == old(svc.history) + [svc.nodes]
    ensures turn == Changed ==> Step(cfg, self, old(svc.nodes), svc.nodes)
    ensures turn != Changed ==> svc.nodes == old(svc.nodes) && svc.history == old(svc.history)
    ensures turn == Idle <==> AdjustPlan(cfg, old(svc.nodes), self) == NoChange
    ensures match turn
            case Idle => role == None && svc.log == old(svc.log)
            case Refused => role.Some? && nodes != [] && svc.log == old(svc.log) + Refusals(nodes, role.value)
            case Changed => role.Some? && FirstTaker(svc, old(svc.log), members, nodes, role.value)
            case _ => false
  {
    var roles := R.RolesChanges(cfg, members);
    var decided, candidates := roles.Adjust(self);
    role, nodes := decided, candidates;
    if decided == None {
      return Idle, role, nodes;
    }
    CandidatesExist(cfg, members, self);
    var changed := OfferInOrder(svc, members, candidates, decided.value);
    turn := if changed then Changed else Refused;
    if changed {
      ghost var k :| 0 <= k < |nodes| && Takes(svc, old(svc.log), members, nodes, decided.value, k);
      assert nodes[k] in Elements(nodes);
    }
  }

  /** Node k of the list took the role; the ones before it had refused. */
  ghost predicate Takes(svc: Service, before: seq<Event>, members: State, nodes: seq<NodeId>, role: Role, k: nat)
    requires k < |nodes|
    reads svc
  {
    && nodes[k] in members && svc.nodes == Reassign(members, nodes[k], role)
    && svc.log == before + Refusals(nodes[..k], role) + [Offered(nodes[k], role, true)]
  }

  ghost predicate FirstTaker(svc: Service, before: seq<Event>, members: State, nodes: seq<NodeId>, role: Role)
    reads svc
  {
    exists k :: 0 <= k < |nodes| && Takes(svc, before, members, nodes, role, k)
  }

  /** Offer a role to the nodes of a list, in order; stop at the first that takes it. */
  method OfferInOrder(svc: Service, members: State, nodes: seq<NodeId>, role: Role) returns (taken: bool)
    requires svc.Valid() && svc.clients > 0 && members == svc.nodes
    modifies svc`nodes, svc`history, svc`log
    ensures svc.Valid()
    ensures taken ==>
              FirstTaker(svc, old(svc.log), members, nodes, role) && svc.history == old(svc.history) + [svc.nodes]
    ensures !taken ==> svc.nodes == old(svc.nodes) && svc.history == old(svc.history)
                       && svc.log == old(svc.log) + Refusals(nodes, role)
  {
    for i := 0 to |nodes|
      invariant svc.Valid() && svc.nodes == old(svc.nodes) && svc.history == old(svc.history)
      invariant svc.log == old(svc.log) + Refusals(nodes[..i], role)
    {
      taken := svc.Assign(nodes[i], role);
      if taken {
        assert Takes(svc, old(svc.log), members, nodes, role, i);
        return;
      }
      RefusalsSnoc(nodes[..i], nodes[i], role);
      assert nodes[..i + 1] == nodes[..i] + [nodes[i]];
    }
    assert nodes[..|nodes|] == nodes;
    taken := false;
  }

  lemma ExtendRun(cfg: Config, leader: NodeId, run: seq<State>, s: State)
    requires IsRun(cfg, leader, run) && Step(cfg, leader, run[|run| - 1], s)
    ensures IsRun(cfg, leader, run + [s])
  {
    forall i | 0 <= i < |run + [s]| - 1 ensures Step(cfg, leader, (run + [s])[i], (run + [s])[i + 1]) {
      if i < |run| - 1 {
        assert Step(cfg, leader, run[i], run[i + 1]);
      }
    }
  }
}
