/** The cluster behind the clients of a node (client/client.go), and the record
    of what happens to it. Calls may fail at any point; a failed call changes
    nothing. */
module Service {
  import opened Cluster
  import opened RolesRuns

  /** What a node does, call by call: looking for a client, closing it, announcing
      readiness, asking to be added, listing the members, asking who leads, and
      offering a role to a node. */
  datatype Event =
    | Opened
    | Missed
    | Closed
    | Readied
    | Joined(ok: bool)
    | Listed(ok: bool, members: nat)
    | Asked(answer: Option<NodeId>)
    | Offered(id: NodeId, role: Role, ok: bool)

  /** The same role offered to each of a list of nodes, in order, and refused. */
  function Refusals(ids: seq<NodeId>, role: Role): (es: seq<Event>)
    ensures |es| == |ids|
  {
    seq(|ids|, i requires 0 <= i < |ids| => Offered(ids[i], role, false))
  }

  lemma RefusalsSnoc(ids: seq<NodeId>, id: NodeId, role: Role)
    ensures Refusals(ids + [id], role) == Refusals(ids, role) + [Offered(id, role, false)]
  {
  }

  class Service {
    var nodes: State
    var clients: nat

    /** Every configuration the cluster has had, oldest first. */
    ghost var history: seq<State>
    /** The changes others made: i stands for the step from history[i]. */
    ghost var foreign: set<nat>
    /** Every call, in order. */
    ghost var log: seq<Event>
    /** The place in the history where readiness was announced. */
    ghost var readyAt: Option<nat>
    /** Whom we asked to take over the leadership, in order. */
    ghost var transfers: seq<NodeId>

    ghost predicate Valid()
      reads this
    {
      |history| > 0 && history[|history| - 1] == nodes && forall i :: i in foreign ==> i + 1 < |history|
    }

    constructor (nodes: State)
      ensures Valid() && this.nodes == nodes && history == [nodes] && foreign == {}
      ensures clients == 0 && log == [] && readyAt == None && transfers == []
    {
      this.nodes, clients := nodes, 0;
      history, foreign, log, readyAt, transfers := [nodes], {}, [], None, [];
    }

    /** Obtain a client connected to the leader. */
    method Connect() returns (ok: bool)
      requires Valid()
      modifies this`clients, this`log
      ensures Valid()
      ensures if ok then clients == old(clients) + 1 && log == old(log) + [Opened]
              else clients == old(clients) && log == old(log) + [Missed]
    {
      ok := *;
      log := log + [if ok then Opened else Missed];
      if ok {
        clients := clients + 1;
      }
    }

    /** Close a client. */
    method Close()
      requires Valid() && clients > 0
      modifies this`clients, this`log
      ensures Valid() && clients == old(clients) - 1 && log == old(log) + [Closed]
    {
      clients, log := clients - 1, log + [Closed];
    }

    /** Close the ready channel, which can be done only once. */
    method AnnounceReady()
      requires Valid() && readyAt == None
      modifies this`log, this`readyAt
      ensures Valid() && log == old(log) + [Readied] && readyAt == Some(|history| - 1)
    {
      log, readyAt := log + [Readied], Some(|history| - 1);
    }

    /** Let time pass. Others may change anything: roles, members, reachability. */
    method Wait()
      requires Valid()
      modifies this`nodes, this`history, this`foreign
      ensures Valid()
      ensures (history == old(history) && foreign == old(foreign))
              || (history == old(history) + [nodes] && foreign == old(foreign) + {|old(history)| - 1})
    {
      var now: State := *;
      if now != nodes {
        foreign := foreign + {|history| - 1};
        nodes, history := now, history + [now];
      }
    }

    /** Add a node as a spare. */
    method Add(id: NodeId, metadata: Metadata) returns (ok: bool)
      requires Valid() && clients > 0
      modifies this`nodes, this`history, this`log
      ensures log == old(log) + [Joined(ok)]
      ensures Valid()
      ensures ok ==> id !in old(nodes) && nodes == old(nodes)[id := Node(Spare, Some(metadata))]
                     && history == old(history) + [nodes]
      ensures !ok ==> nodes == old(nodes) && history == old(history)
    {
      ok := *;
      ok := ok && id !in nodes;
      log := log + [Joined(ok)];
      if ok {
        nodes := nodes[id := Node(Spare, Some(metadata))];
        history := history + [nodes];
      }
    }

    /** Assign a role; unknown nodes and nodes that already have it are refused. */
    method Assign(id: NodeId, role: Role) returns (ok: bool)
      requires Valid() && clients > 0
      modifies this`nodes, this`history, this`log
      ensures log == old(log) + [Offered(id, role, ok)]
      ensures Valid()
      ensures ok ==> id in old(nodes) && old(nodes)[id].role != role
                     && nodes == Reassign(old(nodes), id, role) && history == old(history) + [nodes]
      ensures !ok ==> nodes == old(nodes) && history == old(history)
    {
      ok := *;
      ok := ok && id in nodes && nodes[id].role != role;
      log := log + [Offered(id, role, ok)];
      if ok {
        nodes := Reassign(nodes, id, role);
        history := history + [nodes];
      }
    }

    /** Ask a node to take over the leadership. */
    method Transfer(id: NodeId) returns (ok: bool)
      requires Valid() && clients > 0
      modifies this`transfers
      ensures Valid() && transfers == old(transfers) + [id]
    {
      transfers := transfers + [id];
      ok := *;
    }

    /** Ask who leads. A node that leads is a voter and reachable. */
    method Leader() returns (ok: bool, id: NodeId)
      requires Valid() && clients > 0
      modifies this`log
      ensures Valid() && log == old(log) + [Asked(if ok then Some(id) else None)]
      ensures ok ==> Led(nodes, id)
    {
      ok := *;
      id := *;
      ok := ok && id in nodes && nodes[id].role == Voter && nodes[id].Online();
      log := log + [Asked(if ok then Some(id) else None)];
    }

    /** Ask for the members, and probe them. */
    method Members() returns (ok: bool, members: State)
      requires Valid() && clients > 0
      modifies this`log
      ensures Valid() && log == old(log) + [Listed(ok, |members|)]
      ensures members == nodes
    {
      ok := *;
      members := nodes;
      log := log + [Listed(ok, |members|)];
    }
  }
}
