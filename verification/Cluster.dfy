/** The cluster configuration as the role manager sees it: who is in the
    cluster, which role each node has, and which nodes answered the last probe. */
module Cluster {

  datatype Option<+T> = None | Some(value: T)

  type NodeId = nat

  datatype Role = Voter | StandBy | Spare

  datatype Metadata = Metadata(failureDomain: nat, weight: nat)

  /** `metadata` is None exactly when the node is offline. */
  datatype Node = Node(role: Role, metadata: Option<Metadata>) {
    predicate Online() { metadata.Some? }
  }

  type State = map<NodeId, Node>

  /** Target numbers of voters and stand-bys. */
  datatype Config = Config(voters: nat, standBys: nat)

  const MIN_VOTERS: nat := 3

  function Min(a: int, b: int): int { if a < b then a else b }

  function Abs(a: int): nat { if a < 0 then -a else a }

  function Ids(s: State, role: Role, online: bool): set<NodeId>
  {
    set id | id in s && s[id].role == role && s[id].Online() == online
  }

  /** Number of nodes in each of the six (role, online) classes. */
  datatype Tally = Tally(onVoters: nat, onStandBys: nat, onSpares: nat,
                         offVoters: nat, offStandBys: nat, offSpares: nat)
  {
    function Online(): nat { onVoters + onStandBys + onSpares }
    function Offline(): nat { offVoters + offStandBys + offSpares }
  }

  function Count(s: State): Tally
  {
    Tally(|Ids(s, Voter, true)|, |Ids(s, StandBy, true)|, |Ids(s, Spare, true)|,
          |Ids(s, Voter, false)|, |Ids(s, StandBy, false)|, |Ids(s, Spare, false)|)
  }

  /** What a successful Assign does to the configuration. */
  function Reassign(s: State, id: NodeId, role: Role): State
    requires id in s
  {
    s[id := s[id].(role := role)]
  }

  /** The tally with one more node in the given class. */
  function Plus(t: Tally, role: Role, online: bool): Tally
  {
    match role
    case Voter => if online then t.(onVoters := t.onVoters + 1) else t.(offVoters := t.offVoters + 1)
    case StandBy => if online then t.(onStandBys := t.onStandBys + 1) else t.(offStandBys := t.offStandBys + 1)
    case Spare => if online then t.(onSpares := t.onSpares + 1) else t.(offSpares := t.offSpares + 1)
  }

  lemma ReassignIds(s: State, id: NodeId, role: Role, r: Role, online: bool)
    requires id in s
    ensures Ids(Reassign(s, id, role), r, online) ==
            if online != s[id].Online() then Ids(s, r, online)
            else if r == role then Ids(s, r, online) + {id}
            else Ids(s, r, online) - {id}
  {
  }

  lemma ReassignSize(s: State, id: NodeId, role: Role, r: Role, online: bool)
    requires id in s && s[id].role != role
    ensures |Ids(Reassign(s, id, role), r, online)| == |Ids(s, r, online)|
            + (if online == s[id].Online() && r == role then 1 else 0)
            - (if online == s[id].Online() && r == s[id].role then 1 else 0)
  {
    ReassignIds(s, id, role, r, online);
  }

  /** A role change moves one node between two classes and touches no other. */
  lemma ReassignCount(s: State, id: NodeId, role: Role)
    requires id in s && s[id].role != role
    ensures var s' := Reassign(s, id, role);
            && Plus(Count(s'), s[id].role, s[id].Online()) == Plus(Count(s), role, s[id].Online())
            && s'.Keys == s.Keys && |s'| == |s|
  {
    var s' := Reassign(s, id, role);
    assert s'.Keys == s.Keys;
    assert |s'.Keys| == |s'| && |s.Keys| == |s|;
    ReassignSize(s, id, role, Voter, true);
    ReassignSize(s, id, role, StandBy, true);
    ReassignSize(s, id, role, Spare, true);
    ReassignSize(s, id, role, Voter, false);
    ReassignSize(s, id, role, StandBy, false);
    ReassignSize(s, id, role, Spare, false);
  }

  function Reachable(s: State, online: bool): set<NodeId>
  {
    set id | id in s && s[id].Online() == online
  }

  lemma ReachableSize(s: State, online: bool)
    ensures |Reachable(s, online)| == |Ids(s, Voter, online)| + |Ids(s, StandBy, online)| + |Ids(s, Spare, online)|
  {
    assert Reachable(s, online) == Ids(s, Voter, online) + Ids(s, StandBy, online) + Ids(s, Spare, online);
    UnionSize(Ids(s, Voter, online), Ids(s, StandBy, online));
    UnionSize(Ids(s, Voter, online) + Ids(s, StandBy, online), Ids(s, Spare, online));
  }

  lemma UnionSize(a: set<NodeId>, b: set<NodeId>)
    requires a !! b
    ensures |a + b| == |a| + |b|
  {
  }

  /** Every node falls in exactly one class. */
  lemma CountTotal(s: State)
    ensures Count(s).Online() + Count(s).Offline() == |s|
  {
    ReachableSize(s, true);
    ReachableSize(s, false);
    MembersSize(s);
  }

  lemma MembersSize(s: State)
    ensures |s| == |Reachable(s, true)| + |Reachable(s, false)|
  {
    UnionSize(Reachable(s, true), Reachable(s, false));
    assert s.Keys == Reachable(s, true) + Reachable(s, false);
    assert |s.Keys| == |s|;
  }

  ghost predicate NoDuplicates<T>(xs: seq<T>)
  {
    forall i, j :: 0 <= i < j < |xs| ==> xs[i] != xs[j]
  }

  ghost function Elements<T>(xs: seq<T>): set<T>
  {
    set x | x in xs
  }

  lemma {:induction false} ElementsSize<T>(xs: seq<T>)
    requires NoDuplicates(xs)
    ensures |Elements(xs)| == |xs|
  {
    if xs != [] {
      var rest := xs[..|xs| - 1];
      ElementsSize(rest);
      assert xs == rest + [xs[|xs| - 1]];
      assert Elements(xs) == Elements(rest) + {xs[|xs| - 1]};
    }
  }
}
