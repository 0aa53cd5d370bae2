/** The role-adjustment decision as a transition system, and what every run of
    it does: it terminates, it lands on one configuration shape whatever the
    candidates answer, and it keeps a quorum exactly when the offline voters
    are fewer than the voters target. */
module RolesRuns {
  import opened Cluster

  /** The kinds of change Adjust asks for. */
  datatype Move =
    | Stay
    | Promote(to: Role)
    | Demote(from: Role, online: bool)
  {
    function Gives(): Role { if Promote? then to else Spare }

    /** May a node of this class be asked to take part? */
    predicate Asks(role: Role, on: bool)
    {
      match this
      case Stay => false
      case Promote(to) => on && (role == Spare || (role == StandBy && to == Voter))
      case Demote(from, online) => role == from && on == online
    }
  }

  /** The order in which Adjust looks for something to fix in a cluster of at
      least MIN_VOTERS nodes. */
  function Decide(cfg: Config, t: Tally): Move
  {
    if t.onVoters < cfg.voters then
      if t.onStandBys + t.onSpares == 0 then Stay else Promote(Voter)
    else if t.onVoters > cfg.voters then Demote(Voter, true)
    else if t.offVoters > 0 then Demote(Voter, false)
    else if t.onStandBys < cfg.standBys then
      if t.onSpares == 0 then Stay else Promote(StandBy)
    else if t.onStandBys > cfg.standBys then Demote(StandBy, true)
    else if t.offStandBys > 0 then Demote(StandBy, false)
    else Stay
  }

  datatype Plan = NoChange | Change(role: Role, candidates: set<NodeId>)

  /** The leader is left out when online nodes are demoted. */
  function Asked(s: State, move: Move, leader: NodeId): set<NodeId>
  {
    set id | id in s && move.Asks(s[id].role, s[id].Online()) && !(move.Demote? && move.online && id == leader)
  }

  function OtherVoters(s: State, leader: NodeId): set<NodeId>
  {
    set id | id in s && s[id].role == Voter && id != leader
  }

  /** Which role RolesChanges.Adjust hands out, and to which nodes. */
  function AdjustPlan(cfg: Config, s: State, leader: NodeId): Plan
  {
    if |s| < MIN_VOTERS then
      var others := OtherVoters(s, leader);
      if |s| == 1 || others == {} then NoChange else Change(Spare, others)
    else
      var move := Decide(cfg, Count(s));
      if move == Stay then NoChange else Change(move.Gives(), Asked(s, move, leader))
  }

  /** The node running the adjustment leads the cluster: it is a voter and its
      own probe succeeds. */
  ghost predicate Led(s: State, leader: NodeId)
  {
    leader in s && s[leader].role == Voter && s[leader].Online()
  }

  /** One turn of the adjustment loop in which some candidate accepted. */
  ghost predicate Step(cfg: Config, leader: NodeId, s: State, s': State)
  {
    var plan := AdjustPlan(cfg, s, leader);
    plan.Change? &&
    exists id :: id in plan.candidates && id in s && s' == Reassign(s, id, plan.role)
  }

  ghost predicate IsRun(cfg: Config, leader: NodeId, run: seq<State>)
  {
    |run| > 0 && forall i :: 0 <= i < |run| - 1 ==> Step(cfg, leader, run[i], run[i + 1])
  }

  /** A run that stopped because there was nothing left to do. */
  ghost predicate IsCompleteRun(cfg: Config, leader: NodeId, run: seq<State>)
  {
    IsRun(cfg, leader, run) && AdjustPlan(cfg, run[|run| - 1], leader) == NoChange
  }

  /** Distance to the target, counting a misplaced voter twice. */
  function Distance(cfg: Config, t: Tally): nat
  {
    2 * Abs(t.onVoters - cfg.voters) + t.offVoters + Abs(t.onStandBys - cfg.standBys) + t.offStandBys
  }

  /** How many role changes a run can still make. */
  function Measure(cfg: Config, s: State, leader: NodeId): nat
  {
    if |s| < MIN_VOTERS then |OtherVoters(s, leader)| else Distance(cfg, Count(s))
  }

  /** The classes the adjustment aims for, given the classes it starts from. */
  function Target(cfg: Config, t: Tally): (r: Tally)
    ensures r.Online() == t.Online() && r.Offline() == t.Offline()
  {
    var m := t.Online();
    if m < cfg.voters then Tally(m, 0, 0, t.offVoters, t.offStandBys, t.offSpares)
    else
      var standBys := Min(m - cfg.voters, cfg.standBys);
      var offStandBys := if standBys == cfg.standBys then 0 else t.offStandBys;
      Tally(cfg.voters, standBys, m - cfg.voters - standBys,
            0, offStandBys, t.offVoters + t.offSpares + (t.offStandBys - offStandBys))
  }

  /** Decide has nothing to do exactly on the tallies that are their own target. */
  lemma StayIffTarget(cfg: Config, t: Tally)
    ensures Decide(cfg, t) == Stay <==> t == Target(cfg, t)
  {
  }

  /** One accepted move gets strictly closer to an unchanged target. */
  lemma MoveEffect(cfg: Config, t: Tally, t': Tally, role: Role, on: bool)
    requires var move := Decide(cfg, t);
             move.Asks(role, on) && Plus(t', role, on) == Plus(t, move.Gives(), on)
    ensures Distance(cfg, t') < Distance(cfg, t)
    ensures Target(cfg, t') == Target(cfg, t)
    ensures t'.Online() == t.Online() && t'.Offline() == t.Offline()
  {
  }

  /** Everything one step keeps. */
  ghost predicate Kept(s: State, s': State, leader: NodeId)
  {
    && Led(s', leader) && s'.Keys == s.Keys && |s'| == |s|
    && forall id :: id in s ==> s'[id].metadata == s[id].metadata
  }

  /** A step reassigns one node of an asked class, and never the leader. */
  lemma StepNode(cfg: Config, leader: NodeId, s: State, s': State) returns (id: NodeId)
    requires Led(s, leader) && Step(cfg, leader, s, s')
    ensures id in s && id != leader && AdjustPlan(cfg, s, leader).Change?
    ensures var role := AdjustPlan(cfg, s, leader).role;
            s[id].role != role && s' == Reassign(s, id, role) &&
            Plus(Count(s'), s[id].role, s[id].Online()) == Plus(Count(s), role, s[id].Online())
    ensures |s| >= MIN_VOTERS ==> Decide(cfg, Count(s)).Asks(s[id].role, s[id].Online())
    ensures Kept(s, s', leader)
  {
    var plan := AdjustPlan(cfg, s, leader);
    id :| id in plan.candidates && id in s && s' == Reassign(s, id, plan.role);
    ReassignCount(s, id, plan.role);
  }

  lemma StepEffect(cfg: Config, leader: NodeId, s: State, s': State)
    requires Led(s, leader) && Step(cfg, leader, s, s')
    ensures Kept(s, s', leader)
    ensures Measure(cfg, s', leader) < Measure(cfg, s, leader)
    ensures |s| >= MIN_VOTERS ==>
              && Target(cfg, Count(s')) == Target(cfg, Count(s))
              && Count(s').Online() == Count(s).Online()
  {
    var id := StepNode(cfg, leader, s, s');
    if |s| >= MIN_VOTERS {
      MoveEffect(cfg, Count(s), Count(s'), s[id].role, s[id].Online());
    } else {
      assert OtherVoters(s', leader) == OtherVoters(s, leader) - {id};
    }
  }

  /** Every candidate list handed to the assignment loop is non-empty and holds
      only nodes, other than the leader, that lack the role and, for a
      promotion, are online. A turn of the loop hence ends in a role change or
      in an error, never in a silent repetition. */
  lemma CandidatesExist(cfg: Config, s: State, leader: NodeId)
    requires cfg.voters >= 1 && Led(s, leader) && AdjustPlan(cfg, s, leader).Change?
    ensures var plan := AdjustPlan(cfg, s, leader);
            && plan.candidates != {} && leader !in plan.candidates
            && forall id :: id in plan.candidates ==>
                 id in s && s[id].role != plan.role && (plan.role != Spare ==> s[id].Online())
  {
    if |s| >= MIN_VOTERS {
      AskedNonEmpty(cfg, s, leader);
    }
  }

  lemma AskedNonEmpty(cfg: Config, s: State, leader: NodeId)
    requires cfg.voters >= 1 && Led(s, leader) && Decide(cfg, Count(s)) != Stay
    ensures Asked(s, Decide(cfg, Count(s)), leader) != {}
  {
    EmptyAskedIff(cfg, s, leader);
    if cfg.standBys == 0 && Ids(s, StandBy, true) == {leader} {
      assert leader in Ids(s, StandBy, true);
    }
  }

  /** Without a leader that votes, Adjust can name a role and nobody to take it,
      and then the loop in app.go would turn forever. This happens exactly when
      the leader is the only online node of a class whose target is zero. */
  lemma EmptyAskedIff(cfg: Config, s: State, leader: NodeId)
    requires Decide(cfg, Count(s)) != Stay
    ensures Asked(s, Decide(cfg, Count(s)), leader) == {} <==>
            || (cfg.voters == 0 && Ids(s, Voter, true) == {leader})
            || (cfg.standBys == 0 && Ids(s, StandBy, true) == {leader}
                && Count(s).onVoters == cfg.voters && Count(s).offVoters == 0)
  {
    var move := Decide(cfg, Count(s));
    OnlyLeader(Ids(s, Voter, true), leader);
    OnlyLeader(Ids(s, StandBy, true), leader);
    AskedSize(s, move, leader);
    EmptyAsked(cfg, Count(s), Asked(s, move, leader) == {},
               Ids(s, Voter, true) == {leader}, Ids(s, StandBy, true) == {leader});
  }

  /** When a list of candidates is empty, in terms of the size of its class and of
      whether the leader is all there is in it. */
  predicate NobodyToAsk(t: Tally, move: Move, onlyVoter: bool, onlyStandBy: bool)
  {
    match move
    case Stay => true
    case Promote(to) => t.onSpares == 0 && (to == Voter ==> t.onStandBys == 0)
    case Demote(from, online) =>
      if online then
        if from == Voter then t.onVoters == 0 || onlyVoter
        else if from == StandBy then t.onStandBys == 0 || onlyStandBy else t.onSpares == 0
      else if from == Voter then t.offVoters == 0
      else if from == StandBy then t.offStandBys == 0 else t.offSpares == 0
  }

  lemma AskedSize(s: State, move: Move, leader: NodeId)
    requires move.Promote? ==> move.to != Spare
    requires move.Demote? ==> move.from != Spare
    requires move != Stay
    ensures Asked(s, move, leader) == {} <==>
            NobodyToAsk(Count(s), move, Ids(s, Voter, true) == {leader}, Ids(s, StandBy, true) == {leader})
  {
    AskedPool(s, move, leader);
    if move.Promote? {
      OnlyLeader(Ids(s, StandBy, true), leader);
      OnlyLeader(Ids(s, Spare, true), leader);
      assert Ids(s, StandBy, true) + Ids(s, Spare, true) == {} <==>
             Ids(s, StandBy, true) == {} && Ids(s, Spare, true) == {};
    } else {
      OnlyLeader(Ids(s, move.from, move.online), leader);
    }
  }

  lemma EmptyAsked(cfg: Config, t: Tally, empty: bool, onlyVoter: bool, onlyStandBy: bool)
    requires Decide(cfg, t) != Stay && (onlyVoter ==> t.onVoters == 1) && (onlyStandBy ==> t.onStandBys == 1)
    requires empty <==> NobodyToAsk(t, Decide(cfg, t), onlyVoter, onlyStandBy)
    ensures empty <==>
            || (cfg.voters == 0 && onlyVoter)
            || (cfg.standBys == 0 && onlyStandBy && t.onVoters == cfg.voters && t.offVoters == 0)
  {
  }

  lemma AskedPool(s: State, move: Move, leader: NodeId)
    ensures move == Promote(Voter) ==> Asked(s, move, leader) == Ids(s, StandBy, true) + Ids(s, Spare, true)
    ensures move == Promote(StandBy) ==> Asked(s, move, leader) == Ids(s, Spare, true)
    ensures move.Demote? ==>
              Asked(s, move, leader) == Ids(s, move.from, move.online) - (if move.online then {leader} else {})
  {
  }

  lemma OnlyLeader(pool: set<NodeId>, leader: NodeId)
    ensures pool == {leader} ==> |pool| == 1
    ensures pool - {leader} == {} <==> pool == {} || pool == {leader}
    ensures |pool| == 0 <==> pool == {}
  {
    if pool - {leader} == {} && pool != {} {
      assert pool == {leader};
    }
  }

  /** Who is asked to take which role, said node by node: promotions come first,
      voters are put right before stand-bys, and offline nodes lose a role only when
      the online ones suffice. */
  lemma WhoIsAskedIff(cfg: Config, s: State, leader: NodeId, id: NodeId, role: Role)
    ensures var plan := AdjustPlan(cfg, s, leader);
            plan.Change? && plan.role == role && id in plan.candidates <==>
            id in s &&
            var t, had, on := Count(s), s[id].role, s[id].metadata.Some?;
            if |s| < 3 then |s| != 1 && role == Spare && had == Voter && id != leader
            else
              match role
              case Voter => t.onVoters < cfg.voters && had != Voter && on
              case StandBy =>
                had == Spare && on && t.onVoters == cfg.voters && t.offVoters == 0 && t.onStandBys < cfg.standBys
              case Spare =>
                && !(on && id == leader)
                && (|| (had == Voter && on && t.onVoters > cfg.voters)
                    || (had == Voter && !on && t.onVoters == cfg.voters)
                    || (had == StandBy && t.onVoters == cfg.voters && t.offVoters == 0
                        && if on then t.onStandBys > cfg.standBys else t.onStandBys == cfg.standBys))
  {
    if |s| < 3 {
      assert id in OtherVoters(s, leader) <==> id in s && s[id].role == Voter && id != leader;
    } else if id in s {
      ClassNotEmpty(s, id);
      var move := Decide(cfg, Count(s));
      assert id in Asked(s, move, leader) <==>
             move.Asks(s[id].role, s[id].Online()) && !(move.Demote? && move.online && id == leader);
    }
  }

  lemma ClassNotEmpty(s: State, id: NodeId)
    requires id in s
    ensures |Ids(s, s[id].role, s[id].Online())| > 0
  {
    assert id in Ids(s, s[id].role, s[id].Online());
  }

  /** Fixed points of Adjust, said without reference to its branches. */
  ghost predicate Settled(cfg: Config, s: State, leader: NodeId)
  {
    if |s| < MIN_VOTERS then forall id :: id in s && s[id].role == Voter ==> id == leader
    else Count(s) == Target(cfg, Count(s))
  }

  /** The loop stops exactly at the settled configurations. */
  lemma FixedPointIff(cfg: Config, s: State, leader: NodeId)
    requires Led(s, leader)
    ensures AdjustPlan(cfg, s, leader) == NoChange <==> Settled(cfg, s, leader)
  {
    if |s| < MIN_VOTERS {
      SmallFixedPoint(cfg, s, leader);
    } else {
      StayIffTarget(cfg, Count(s));
    }
  }

  lemma SmallFixedPoint(cfg: Config, s: State, leader: NodeId)
    requires Led(s, leader) && |s| < MIN_VOTERS
    ensures AdjustPlan(cfg, s, leader) == NoChange <==> forall id :: id in s && s[id].role == Voter ==> id == leader
  {
    var others := OtherVoters(s, leader);
    if |s| == 1 {
      OnlyMember(s, leader);
    }
    forall id | others == {} && id in s && s[id].role == Voter ensures id == leader {
      assert id !in others;
    }
  }

  lemma OnlyMember(s: State, leader: NodeId)
    requires leader in s && |s| == 1
    ensures s.Keys == {leader}
  {
    assert |s.Keys - {leader}| == 0;
    assert s.Keys - {leader} == {};
  }

  lemma {:induction false} RunEffect(cfg: Config, leader: NodeId, run: seq<State>, i: nat)
    requires IsRun(cfg, leader, run) && Led(run[0], leader) && i < |run|
    ensures Kept(run[0], run[i], leader)
    ensures Measure(cfg, run[i], leader) + i <= Measure(cfg, run[0], leader)
    ensures |run[0]| >= MIN_VOTERS ==>
              && Target(cfg, Count(run[i])) == Target(cfg, Count(run[0]))
              && Count(run[i]).Online() == Count(run[0]).Online()
  {
    if i > 0 {
      RunEffect(cfg, leader, run, i - 1);
      assert Step(cfg, leader, run[i - 1], run[i - 1 + 1]);
      StepEffect(cfg, leader, run[i - 1], run[i]);
    }
  }

  /** Termination with an explicit bound: no run makes more role changes than
      the measure of the configuration it starts from. */
  lemma RunBound(cfg: Config, leader: NodeId, run: seq<State>)
    requires IsRun(cfg, leader, run) && Led(run[0], leader)
    ensures |run| - 1 <= Measure(cfg, run[0], leader)
    ensures |run[0]| >= 3 ==>
              var t := Count(run[0]);
              |run| - 1 <= 2 * Abs(t.onVoters - cfg.voters) + t.offVoters
                           + Abs(t.onStandBys - cfg.standBys) + t.offStandBys
  {
    RunEffect(cfg, leader, run, |run| - 1);
  }

  /** Convergence: every complete run, whichever candidates accepted, ends in
      the classes that Target computes from the starting classes alone. */
  lemma Convergence(cfg: Config, leader: NodeId, run: seq<State>)
    requires IsCompleteRun(cfg, leader, run) && Led(run[0], leader) && |run[0]| >= MIN_VOTERS
    ensures var m, t := Count(run[0]).Online(), Count(run[|run| - 1]);
            && t == Target(cfg, Count(run[0]))
            && t.onVoters == Min(m, cfg.voters)
            && (m >= cfg.voters ==> t.offVoters == 0 && t.onStandBys == Min(m - cfg.voters, cfg.standBys))
            && (m >= cfg.voters + cfg.standBys ==> t.offStandBys == 0)
  {
    RunEffect(cfg, leader, run, |run| - 1);
    FixedPointIff(cfg, run[|run| - 1], leader);
  }

  lemma RunOnline(cfg: Config, leader: NodeId, run: seq<State>, i: nat)
    requires IsRun(cfg, leader, run) && Led(run[0], leader) && |run[0]| >= MIN_VOTERS && i + 1 < |run|
    ensures Led(run[i], leader) && |run[i]| == |run[0]| && Count(run[i]).Online() == Count(run[0]).Online()
    ensures Step(cfg, leader, run[i], run[i + 1])
  {
    RunEffect(cfg, leader, run, i);
  }

  /** With too few nodes online, no offline node is ever touched. */
  lemma {:induction false} OfflineUntouched(cfg: Config, leader: NodeId, run: seq<State>, i: nat, id: NodeId)
    requires IsRun(cfg, leader, run) && Led(run[0], leader) && i < |run|
    requires |run[0]| >= MIN_VOTERS && Count(run[0]).Online() < cfg.voters
    requires id in run[0] && !run[0][id].Online()
    ensures id in run[i] && run[i][id] == run[0][id]
  {
    if i > 0 {
      OfflineUntouched(cfg, leader, run, i - 1, id);
      RunOnline(cfg, leader, run, i - 1);
      StepKeepsOffline(cfg, leader, run[i - 1], run[i], id);
    }
  }

  lemma StepKeepsOffline(cfg: Config, leader: NodeId, s: State, s': State, id: NodeId)
    requires Led(s, leader) && Step(cfg, leader, s, s')
    requires |s| >= MIN_VOTERS && Count(s).Online() < cfg.voters
    requires id in s && !s[id].Online()
    ensures id in s' && s'[id] == s[id]
  {
    var moved := StepNode(cfg, leader, s, s');
  }

  /** The online voters alone are a majority of all voters. */
  ghost predicate Majority(s: State)
  {
    Count(s).onVoters > Count(s).offVoters
  }

  /** The state facts that together survive every step. */
  ghost predicate Safe(cfg: Config, s: State, leader: NodeId)
  {
    Led(s, leader) && Majority(s) && Count(s).offVoters < cfg.voters
  }

  lemma StepKeepsSafe(cfg: Config, leader: NodeId, s: State, s': State)
    requires Safe(cfg, s, leader) && Step(cfg, leader, s, s')
    ensures Safe(cfg, s', leader)
  {
    var id := StepNode(cfg, leader, s, s');
    if |s| < MIN_VOTERS {
      SmallVoters(s', leader, id);
    }
  }

  /** In a cluster below MIN_VOTERS, demoting the other node leaves the leader as
      the only voter. */
  lemma SmallVoters(s: State, leader: NodeId, other: NodeId)
    requires Led(s, leader) && |s| < MIN_VOTERS && other in s && other != leader && s[other].role == Spare
    ensures Count(s).onVoters == 1 && Count(s).offVoters == 0
  {
    assert |s.Keys - {leader, other}| == |s.Keys| - 2 <= 0;
    assert s.Keys == {leader, other};
    assert Ids(s, Voter, true) == {leader};
    assert Ids(s, Voter, false) == {};
  }

  /** Quorum safety over whole runs: the leader keeps its role, and the online
      voters stay a majority of all voters at every point of the run. */
  lemma {:induction false} RunKeepsQuorum(cfg: Config, leader: NodeId, run: seq<State>, i: nat)
    requires IsRun(cfg, leader, run) && Safe(cfg, run[0], leader) && i < |run|
    ensures Safe(cfg, run[i], leader) && run[i][leader] == run[0][leader]
  {
    if i > 0 {
      RunKeepsQuorum(cfg, leader, run, i - 1);
      assert Step(cfg, leader, run[i - 1], run[i - 1 + 1]);
      StepKeepsSafe(cfg, leader, run[i - 1], run[i]);
      var id := StepNode(cfg, leader, run[i - 1], run[i]);
    }
  }

  /** The side condition of quorum safety is exact: starting from a majority, a
      complete run keeps the majority throughout if and only if fewer than
      `cfg.voters` voters are offline, because excess online voters are demoted
      before offline ones. */
  lemma QuorumKeptIff(cfg: Config, leader: NodeId, run: seq<State>)
    requires IsCompleteRun(cfg, leader, run) && Led(run[0], leader) && |run[0]| >= MIN_VOTERS
    requires Majority(run[0])
    ensures (forall i :: 0 <= i < |run| ==> Majority(run[i])) <==> Count(run[0]).offVoters < cfg.voters
  {
    if Count(run[0]).offVoters < cfg.voters {
      forall i | 0 <= i < |run| ensures Majority(run[i]) {
        RunKeepsQuorum(cfg, leader, run, i);
      }
    } else if forall i :: 0 <= i < |run| ==> Majority(run[i]) {
      OfflineVotersStuck(cfg, leader, run, |run| - 1);
      RunEffect(cfg, leader, run, |run| - 1);
      assert false;
    }
  }

  lemma {:induction false} OfflineVotersStuck(cfg: Config, leader: NodeId, run: seq<State>, i: nat)
    requires IsRun(cfg, leader, run) && Led(run[0], leader) && |run[0]| >= MIN_VOTERS && i < |run|
    requires Count(run[0]).offVoters >= cfg.voters
    requires forall j :: 0 <= j < |run| ==> Majority(run[j])
    ensures Count(run[i]).offVoters == Count(run[0]).offVoters
  {
    if i > 0 {
      OfflineVotersStuck(cfg, leader, run, i - 1);
      RunEffect(cfg, leader, run, i - 1);
      assert Step(cfg, leader, run[i - 1], run[i - 1 + 1]);
      var id := StepNode(cfg, leader, run[i - 1], run[i]);
    }
  }

  // ---- Complete runs exist ----

  /** From every configuration the loop can go on to a fixed point, whatever it is
      told to start with. */
  lemma {:induction false} CompleteRunExists(cfg: Config, leader: NodeId, s: State) returns (run: seq<State>)
    requires cfg.voters >= 1 && Led(s, leader)
    ensures IsCompleteRun(cfg, leader, run) && run[0] == s
    decreases Measure(cfg, s, leader)
  {
    if AdjustPlan(cfg, s, leader) == NoChange {
      return [s];
    }
    CandidatesExist(cfg, s, leader);
    var plan := AdjustPlan(cfg, s, leader);
    var id :| id in plan.candidates;
    var s' := Reassign(s, id, plan.role);
    StepEffect(cfg, leader, s, s');
    var rest := CompleteRunExists(cfg, leader, s');
    run := [s] + rest;
    forall i | 0 <= i < |run| - 1 ensures Step(cfg, leader, run[i], run[i + 1]) {
      if i > 0 {
        assert Step(cfg, leader, rest[i - 1], rest[i - 1 + 1]);
      }
    }
  }

  /** Seven voters, of which the last three are offline. */
  function FourOfSeven(): State
  {
    map id: NodeId | id in {0, 1, 2, 3, 4, 5, 6} ::
      Node(Voter, if id < 4 then Some(Metadata(id, 0)) else None)
  }

  /** The majority can be lost: with a target of three voters, four online and
      three offline, the loop first demotes an online voter. */
  lemma MajorityLost() returns (run: seq<State>)
    ensures IsCompleteRun(Config(3, 0), 0, run) && Led(run[0], 0) && |run[0]| >= MIN_VOTERS
    ensures run[0] == FourOfSeven() && Majority(run[0]) && exists i :: 0 <= i < |run| && !Majority(run[i])
  {
    var s := FourOfSeven();
    FourOfSevenCount();
    run := CompleteRunExists(Config(3, 0), 0, s);
    QuorumKeptIff(Config(3, 0), 0, run);
  }

  lemma FourOfSevenCount()
    ensures var t := Count(FourOfSeven()); t.onVoters == 4 && t.offVoters == 3
    ensures |FourOfSeven()| == 7
  {
    var s := FourOfSeven();
    assert Ids(s, Voter, true) == {0, 1, 2, 3};
    assert Ids(s, Voter, false) == {4, 5, 6};
    assert s.Keys == {0, 1, 2, 3, 4, 5, 6};
    assert |s.Keys| == |s|;
  }
}
