/** App.run (app/app.go): the background loop of a node, from its start until its
    context is cancelled, in a cluster where others act too. */
module Background {
  import opened Cluster
  import opened RolesRuns
  import opened Service
  import R = RolesChanges
  import J = Joins
  import A = AdjustLoop

  // ---- The calls of the node ----

  /** Where a turn stands: no client yet, just connected, a member, the members are
      known, promoted, adjusting, about to close the client, or over for good. */
  datatype Stage = Idle | Fresh | Member | Seen | Promoted | Leading | Leaving | Over

  /** What an observer of the calls knows. */
  datatype Phase = Phase(joining: bool, ready: bool, stage: Stage) | Bad

  /** The rules. A turn looks for a client. With one, a node that has to join asks for
      that first, then lists the members. Before it is ready it takes the role meant for
      it, then perhaps finds a helper, and announces readiness unless it was refused.
      Once ready it finds out who leads, and adjusts. In the end the client is closed. */
  function After(self: NodeId, p: Phase, e: Event): Phase
  {
    if p.Bad? then Bad else
    match e
    case Missed => if p.stage == Idle then p else Bad
    case Opened => if p.stage == Idle then p.(stage := if p.joining then Fresh else Member) else Bad
    case Joined(ok) =>
      if p.stage != Fresh then Bad else if ok then p.(joining := false, stage := Member) else p.(stage := Leaving)
    case Listed(ok, members) =>
      if p.stage == Member then p.(stage := if ok && members > 0 then Seen else Leaving)
      else if p.stage == Leading then p else Bad
    case Offered(id, role, ok) =>
      if p.stage == Leading then p
      else if p.ready then Bad
      else if p.stage == Seen && id == self then p.(stage := if ok then Promoted else Leaving)
      else if p.stage == Promoted && id != self && role == Voter then p else Bad
    case Asked(_) => if p.ready && (p.stage == Seen || p.stage == Leading) then p.(stage := Leading) else Bad
    case Readied =>
      if p.ready then Bad
      else if p.stage == Seen || p.stage == Promoted then p.(ready := true, stage := Leaving)
      else if p.stage == Idle then p.(ready := true, stage := Over) else Bad
    case Closed => if p.stage == Leaving || p.stage == Leading then p.(stage := Idle) else Bad
  }

  function Observe(self: NodeId, join: bool, trace: seq<Event>): Phase
  {
    if trace == [] then Phase(join, false, Idle)
    else After(self, Observe(self, join, trace[..|trace| - 1]), trace[|trace| - 1])
  }

  function Occurrences(trace: seq<Event>, e: Event): nat
  {
    if trace == [] then 0
    else Occurrences(trace[..|trace| - 1], e) + (if trace[|trace| - 1] == e then 1 else 0)
  }

  lemma {:induction false} ObserveCounts(self: NodeId, join: bool, trace: seq<Event>)
    requires Observe(self, join, trace).Phase?
    ensures var p := Observe(self, join, trace);
            && Occurrences(trace, Readied) == (if p.ready then 1 else 0)
            && Occurrences(trace, Opened) ==
               Occurrences(trace, Closed) + (if p.stage == Idle || p.stage == Over then 0 else 1)
            && Occurrences(trace, Joined(true)) == (if join && !p.joining then 1 else 0)
            && (!join ==> !p.joining) && (p.stage == Leading ==> p.ready)
  {
    if trace != [] {
      ObserveCounts(self, join, trace[..|trace| - 1]);
    }
  }

  lemma {:induction false} ObservePrefix(self: NodeId, join: bool, trace: seq<Event>, i: nat)
    requires Observe(self, join, trace).Phase? && i <= |trace|
    ensures Observe(self, join, trace[..i]).Phase?
    decreases |trace|
  {
    if i < |trace| {
      ObservePrefix(self, join, trace[..|trace| - 1], i);
      assert trace[..|trace| - 1][..i] == trace[..i];
    } else {
      assert trace[..i] == trace;
    }
  }

  /** A loop has returned: nothing is open and readiness has been announced. */
  predicate Finished(p: Phase)
  {
    p.Phase? && p.ready && (p.stage == Idle || p.stage == Over)
  }

  /** When the loop has returned: readiness was announced exactly once, every client
      obtained was closed exactly once, before the next was obtained, and the node was
      added at most once, and only if it had to join. */
  lemma ClientsClosed(self: NodeId, join: bool, trace: seq<Event>)
    requires Finished(Observe(self, join, trace))
    ensures Occurrences(trace, Readied) == 1
    ensures Occurrences(trace, Opened) == Occurrences(trace, Closed)
    ensures Occurrences(trace, Joined(true)) <= (if join then 1 else 0)
    ensures forall i :: 0 <= i <= |trace| ==>
              0 <= Occurrences(trace[..i], Opened) - Occurrences(trace[..i], Closed) <= 1
  {
    ObserveCounts(self, join, trace);
    forall i | 0 <= i <= |trace|
      ensures 0 <= Occurrences(trace[..i], Opened) - Occurrences(trace[..i], Closed) <= 1
    {
      ObservePrefix(self, join, trace, i);
      ObserveCounts(self, join, trace[..i]);
    }
  }

  /** A client is closed only in a turn that got through: one in which joining,
      listing the members or taking the role failed, or readiness was announced, or it
      was found out who leads. */
  lemma TurnsGetThrough(self: NodeId, join: bool, trace: seq<Event>, i: nat)
    requires Observe(self, join, trace).Phase? && 0 < i < |trace| && trace[i] == Closed
    ensures var e, p := trace[i - 1], Observe(self, join, trace[..i]);
            && p.Phase?
            && if p.stage == Leading then p.ready && (e.Asked? || e.Listed? || e.Offered?)
               else
                 || e == Joined(false) || e == Readied || (e.Listed? && !(e.ok && e.members > 0))
                 || (!p.ready && e.Offered? && e.id == self && !e.ok)
  {
    ObservePrefix(self, join, trace, i + 1);
    ObservePrefix(self, join, trace, i);
    ObserveCounts(self, join, trace[..i]);
    assert trace[..i + 1][..i] == trace[..i] && trace[..i][..i - 1] == trace[..i - 1];
  }

  lemma Observed(self: NodeId, join: bool, trace: seq<Event>, e: Event)
    ensures Observe(self, join, trace + [e]) == After(self, Observe(self, join, trace), e)
  {
    assert (trace + [e])[..|trace|] == trace;
  }

  /** How often a client was looked for. */
  function Attempts(trace: seq<Event>): nat
  {
    Occurrences(trace, Opened) + Occurrences(trace, Missed)
  }

  lemma Counted(trace: seq<Event>, e: Event, f: Event)
    ensures Occurrences(trace + [e], f) == Occurrences(trace, f) + if e == f then 1 else 0
  {
    assert (trace + [e])[..|trace|] == trace;
  }

  /** Calls that are part of a turn with a client. */
  predicate Inner(e: Event)
  {
    !e.Opened? && !e.Missed?
  }

  lemma {:induction false} InnerCalls(trace: seq<Event>, more: seq<Event>)
    requires forall i :: 0 <= i < |more| ==> Inner(more[i])
    ensures Attempts(trace + more) == Attempts(trace)
  {
    if more == [] {
      assert trace + more == trace;
    } else {
      var front := more[..|more| - 1];
      InnerCalls(trace, front);
      assert trace + more == (trace + front) + [more[|more| - 1]];
      Counted(trace + front, more[|more| - 1], Opened);
      Counted(trace + front, more[|more| - 1], Missed);
    }
  }

  /** The calls of an adjustment. */
  lemma {:induction false} ObserveAdjustment(self: NodeId, join: bool, trace: seq<Event>, more: seq<Event>)
    requires Observe(self, join, trace) == Phase(false, true, Seen)
    requires more != [] && more[0].Asked?
    requires forall i :: 0 <= i < |more| ==> more[i].Asked? || more[i].Listed? || more[i].Offered?
    ensures Observe(self, join, trace + more) == Phase(false, true, Leading)
  {
    var front := more[..|more| - 1];
    assert trace + more == (trace + front) + [more[|more| - 1]];
    Observed(self, join, trace + front, more[|more| - 1]);
    if |more| == 1 {
      assert trace + front == trace;
    } else {
      ObserveAdjustment(self, join, trace, front);
    }
  }

  /** The calls of a promotion. */
  lemma ObservePromotion(cfg: Config, self: NodeId, join: bool, members: State,
                         trace: seq<Event>, more: seq<Event>, ok: bool)
    requires Observe(self, join, trace) == Phase(false, false, Seen)
    requires J.PromotionCalls(cfg, self, members, more, ok)
    ensures Observe(self, join, trace + more) ==
            Phase(false, false, if !ok then Leaving else if more == [] then Seen else Promoted)
    ensures forall i :: 0 <= i < |more| ==> Inner(more[i])
  {
    if more == [] {
      assert trace + more == trace;
    } else {
      Observed(self, join, trace, more[0]);
      HelpersOnly(self, members, more);
      ObserveHelpers(self, join, trace + [more[0]], more[1..], ok);
      assert trace + more == (trace + [more[0]]) + more[1..];
    }
  }

  lemma HelpersOnly(self: NodeId, members: State, calls: seq<Event>)
    requires calls != [] && (|calls| == 1 || J.HelperCalls(self, members, calls[1..]))
    ensures forall i :: 0 <= i < |calls| - 1 ==>
              calls[1..][i].Offered? && calls[1..][i].id != self && calls[1..][i].role == Voter
  {
    if |calls| > 1 {
      var rest := calls[1..];
      var tried :| J.Tried(self, members, tried) && J.AskedAll(self, members, tried, rest);
      forall i | 0 <= i < |rest| ensures rest[i].Offered? && rest[i].id != self && rest[i].role == Voter {
        assert |tried| == |rest| && rest[i] == Offered(tried[i], Voter, rest[i].ok);
        assert tried[i] in tried;
      }
    }
  }

  lemma {:induction false} ObserveHelpers(self: NodeId, join: bool, trace: seq<Event>, more: seq<Event>, ok: bool)
    requires Observe(self, join, trace) == Phase(false, false, if ok then Promoted else Leaving)
    requires forall i :: 0 <= i < |more| ==> more[i].Offered? && more[i].id != self && more[i].role == Voter
    requires !ok ==> more == []
    ensures Observe(self, join, trace + more) == Observe(self, join, trace)
  {
    if more == [] {
      assert trace + more == trace;
    } else {
      var front := more[..|more| - 1];
      ObserveHelpers(self, join, trace, front, ok);
      assert trace + more == (trace + front) + [more[|more| - 1]];
      Observed(self, join, trace + front, more[|more| - 1]);
    }
  }

  // ---- What the node does to the cluster ----

  /** Places in the history of the cluster: where the loop started, where it added
      the node (if it did), where it began to promote it, and where it announced
      readiness, be it that it was cancelled before. */
  datatype Deeds = Deeds(start: nat, added: Option<nat>, promoted: nat, ready: nat, gaveUp: bool)

  /** Between two places, we did nothing but add ourselves, once, and only if we
      had to join. */
  ghost predicate Joining(self: NodeId, metadata: Metadata, join: bool,
                          h: seq<State>, foreign: set<nat>, start: nat, added: Option<nat>, end: nat)
  {
    && start <= end < |h|
    && (forall i :: start <= i < end && i !in foreign ==> added == Some(i))
    && (added.Some? ==> join && start <= added.value < end && AddsSelf(self, metadata, h, added.value))
  }

  ghost predicate AddsSelf(self: NodeId, metadata: Metadata, h: seq<State>, i: nat)
    requires i + 1 < |h|
  {
    self !in h[i] && h[i + 1] == h[i][self := Node(Spare, Some(metadata))]
  }

  /** From a place on, we did nothing but adjust roles, as the leader. */
  ghost predicate Adjusting(cfg: Config, self: NodeId, h: seq<State>, foreign: set<nat>, ready: nat)
  {
    ready < |h| && forall i :: ready <= i < |h| - 1 && i !in foreign ==> Adjusts(cfg, self, h, i)
  }

  ghost predicate Adjusts(cfg: Config, self: NodeId, h: seq<State>, i: nat)
    requires i + 1 < |h|
  {
    Led(h[i], self) && Step(cfg, self, h[i], h[i + 1])
  }

  /** The whole life of a node, whatever others did meanwhile: it joins, promotes
      itself in one go, announces readiness and from then on only adjusts roles. Unless
      it was cancelled, it has by then taken the role that was meant for it. */
  ghost predicate Lawful(cfg: Config, self: NodeId, metadata: Metadata, join: bool,
                         h: seq<State>, foreign: set<nat>, d: Deeds)
  {
    && d.promoted <= d.ready < |h|
    && Joining(self, metadata, join, h, foreign, d.start, d.added, d.promoted)
    && J.Promotion(cfg, self, h[d.promoted..d.ready + 1])
    && (forall i :: d.promoted <= i < d.ready ==> i !in foreign)
    && (join && d.added == None ==> d.promoted == d.ready)
    && (!d.gaveUp && R.Assume(cfg, h[d.promoted], self).Some? ==> d.ready > d.promoted)
    && Adjusting(cfg, self, h, foreign, d.ready)
  }

  /** Law up to now, before or after readiness. */
  ghost predicate Law(cfg: Config, self: NodeId, metadata: Metadata, join: bool,
                      h: seq<State>, foreign: set<nat>, d: Deeds, ready: bool)
  {
    && (forall i :: i in foreign ==> i + 1 < |h|)
    && if ready then Lawful(cfg, self, metadata, join, h, foreign, d)
       else h != [] && Joining(self, metadata, join, h, foreign, d.start, d.added, |h| - 1)
  }

  lemma OthersAct(cfg: Config, self: NodeId, metadata: Metadata, join: bool,
                  h: seq<State>, foreign: set<nat>, d: Deeds, ready: bool, s: State)
    requires Law(cfg, self, metadata, join, h, foreign, d, ready)
    ensures Law(cfg, self, metadata, join, h + [s], foreign + {|h| - 1}, d, ready)
  {
    var h' := h + [s];
    if ready {
      assert h'[d.promoted..d.ready + 1] == h[d.promoted..d.ready + 1];
      forall i | d.ready <= i < |h'| - 1 && i !in foreign + {|h| - 1} ensures Adjusts(cfg, self, h', i) {
        assert Adjusts(cfg, self, h, i);
      }
    }
  }

  lemma WeJoin(cfg: Config, self: NodeId, metadata: Metadata, h: seq<State>, foreign: set<nat>, d: Deeds)
    requires Law(cfg, self, metadata, true, h, foreign, d, false) && d.added == None && self !in h[|h| - 1]
    ensures var h' := h + [h[|h| - 1][self := Node(Spare, Some(metadata))]];
            Law(cfg, self, metadata, true, h', foreign, d.(added := Some(|h| - 1)), false)
  {
  }

  lemma WePromote(cfg: Config, self: NodeId, metadata: Metadata, join: bool,
                  h: seq<State>, h': seq<State>, foreign: set<nat>, d: Deeds)
    requires Law(cfg, self, metadata, join, h, foreign, d, false) && h <= h'
    requires J.Promotion(cfg, self, h'[|h| - 1..]) && (join && d.added == None ==> h' == h)
    requires R.Assume(cfg, h[|h| - 1], self).Some? ==> |h'| > |h|
    ensures Law(cfg, self, metadata, join, h', foreign, d.(promoted := |h| - 1, ready := |h'| - 1), true)
  {
    assert h'[|h| - 1..|h'|] == h'[|h| - 1..];
  }

  lemma WeAdjust(cfg: Config, self: NodeId, metadata: Metadata, join: bool,
                 h: seq<State>, h': seq<State>, foreign: set<nat>, d: Deeds)
    requires Law(cfg, self, metadata, join, h, foreign, d, true) && h <= h'
    requires IsRun(cfg, self, h'[|h| - 1..]) && (h' != h ==> Led(h[|h| - 1], self))
    ensures Law(cfg, self, metadata, join, h', foreign, d, true)
  {
    assert h'[d.promoted..d.ready + 1] == h[d.promoted..d.ready + 1];
    forall i | d.ready <= i < |h'| - 1 && i !in foreign ensures Adjusts(cfg, self, h', i) {
      if i < |h| - 1 {
        assert Adjusts(cfg, self, h, i);
      } else {
        RunStep(cfg, self, h'[|h| - 1..], i - (|h| - 1));
      }
    }
  }

  lemma RunStep(cfg: Config, self: NodeId, run: seq<State>, i: nat)
    requires IsRun(cfg, self, run) && Led(run[0], self) && i + 1 < |run|
    ensures Led(run[i], self) && Step(cfg, self, run[i], run[i + 1])
  {
    RunEffect(cfg, self, run, i);
  }

  // ---- What follows for the cluster ----

  /** Nothing the node does costs the online voters their majority: not its join,
      not its promotion as long as it is online itself, and not its adjustments as
      long as fewer voters are offline than are wanted. */
  lemma NodeIsHarmless(cfg: Config, self: NodeId, metadata: Metadata, join: bool,
                       h: seq<State>, foreign: set<nat>, d: Deeds, i: nat)
    requires Lawful(cfg, self, metadata, join, h, foreign, d) && d.start <= i < |h| - 1 && i !in foreign
    requires Majority(h[i]) && Count(h[i]).offVoters < cfg.voters
    requires d.promoted <= i < d.ready ==> Majority(h[d.promoted]) && R.Known(h[d.promoted], self)
    ensures Majority(h[i + 1])
  {
    if i < d.promoted {
      J.AddCount(h[i], self, metadata);
    } else if i < d.ready {
      J.PromotionKeepsMajority(cfg, self, h[d.promoted..d.ready + 1], i + 1 - d.promoted);
    } else {
      assert Adjusts(cfg, self, h, i);
      StepKeepsSafe(cfg, self, h[i], h[i + 1]);
    }
  }

  /** Left alone, a node changes roles only a bounded number of times, however
      long it goes on. */
  lemma FinitelyManyChanges(cfg: Config, self: NodeId, metadata: Metadata, join: bool,
                            h: seq<State>, foreign: set<nat>, d: Deeds, from: nat)
    requires Lawful(cfg, self, metadata, join, h, foreign, d) && d.ready <= from < |h|
    requires forall i :: from <= i < |h| - 1 ==> i !in foreign
    ensures |h| - 1 - from <= Measure(cfg, h[from], self)
  {
    var run := h[from..];
    if |run| > 1 {
      forall i | 0 <= i < |run| - 1 ensures Step(cfg, self, run[i], run[i + 1]) {
        assert Adjusts(cfg, self, h, from + i);
      }
      assert Adjusts(cfg, self, h, from);
      RunBound(cfg, self, run);
    }
  }

  // ---- The loop ----

  /** Everything that holds between two calls of the loop. */
  ghost predicate Between(svc: Service, cfg: Config, self: NodeId, metadata: Metadata, join: bool,
                          before: seq<Event>, p: Phase, d: Deeds)
    reads svc
  {
    && p.Phase? && svc.Valid() && before <= svc.log && svc.clients == (if p.stage == Idle then 0 else 1)
    && Observe(self, join, svc.log[|before|..]) == p
    && Law(cfg, self, metadata, join, svc.history, svc.foreign, d, p.ready)
    && svc.readyAt == (if p.ready then Some(d.ready) else None) && !d.gaveUp
    && (p.joining <==> join && d.added == None) && (p.ready ==> !p.joining)
  }

  /** `ticks` is how often the timer fires before the context is cancelled. */
  method Run(svc: Service, cfg: Config, self: NodeId, metadata: Metadata, join: bool, ticks: nat)
    returns (ghost d: Deeds)
    requires svc.Valid() && svc.clients == 0 && svc.readyAt == None && cfg.voters >= 1
    modifies svc
    ensures svc.Valid() && svc.clients == 0 && svc.transfers == old(svc.transfers)
    ensures old(svc.log) <= svc.log && Finished(Observe(self, join, svc.log[|old(svc.log)|..]))
    ensures Attempts(svc.log[|old(svc.log)|..]) == ticks
    ensures d.start == |old(svc.history)| - 1 && svc.readyAt == Some(d.ready) && old(svc.history) <= svc.history
    ensures Lawful(cfg, self, metadata, join, svc.history, svc.foreign, d)
    ensures d.gaveUp ==> d.ready == |svc.history| - 1 && Observe(self, join, svc.log[|old(svc.log)|..]).stage == Over
    ensures join && d.added == None ==> d.gaveUp
  {
    var joining, ready := join, false;
    d := Deeds(|svc.history| - 1, None, 0, 0, false);
    ghost var before := svc.log;
    assert svc.log[|before|..] == [];
    for tick := 0 to ticks
      invariant Between(svc, cfg, self, metadata, join, before, Phase(joining, ready, Idle), d)
      invariant Attempts(svc.log[|before|..]) == tick
      invariant d.start == |old(svc.history)| - 1 && old(svc.history) <= svc.history
      invariant svc.transfers == old(svc.transfers)
    {
      WaitForTimer(svc, cfg, self, metadata, join, before, joining, ready, d);
      joining, ready, d := Tick(svc, cfg, self, metadata, join, before, joining, ready, d);
    }
    if !ready {
      d := GiveUp(svc, cfg, self, metadata, join, before, joining, d);
    }
  }

  method WaitForTimer(svc: Service, cfg: Config, self: NodeId, metadata: Metadata, join: bool,
                      ghost before: seq<Event>, joining: bool, ready: bool, ghost d: Deeds)
    requires Between(svc, cfg, self, metadata, join, before, Phase(joining, ready, Idle), d)
    modifies svc`nodes, svc`history, svc`foreign
    ensures Between(svc, cfg, self, metadata, join, before, Phase(joining, ready, Idle), d)
    ensures old(svc.history) <= svc.history
  {
    ghost var h, foreign := svc.history, svc.foreign;
    svc.Wait();
    if svc.history != h {
      OthersAct(cfg, self, metadata, join, h, foreign, d, ready, svc.nodes);
    }
  }

  /** What happens when the timer fires. */
  method Tick(svc: Service, cfg: Config, self: NodeId, metadata: Metadata, join: bool,
              ghost before: seq<Event>, joining: bool, ready: bool, ghost d: Deeds)
    returns (joining': bool, ready': bool, ghost d': Deeds)
    requires Between(svc, cfg, self, metadata, join, before, Phase(joining, ready, Idle), d) && cfg.voters >= 1
    modifies svc`nodes, svc`clients, svc`history, svc`log, svc`readyAt
    ensures Between(svc, cfg, self, metadata, join, before, Phase(joining', ready', Idle), d')
    ensures d'.start == d.start && old(svc.history) <= svc.history
    ensures Attempts(svc.log[|before|..]) == Attempts(old(svc.log)[|before|..]) + 1
  {
    joining', ready', d' := joining, ready, d;
    var found := svc.Connect();
    Logged(self, join, old(svc.log), before, if found then Opened else Missed);
    if !found {
      return;
    }
    ghost var log := svc.log;
    if joining {
      var added;
      added, d' := AskToJoin(svc, cfg, self, metadata, join, before, ready, d);
      if !added {
        CloseClient(svc, cfg, self, metadata, join, before, joining', ready', d', Leaving);
        MoreInner(before, log, svc.log);
        return;
      }
      joining' := false;
    }
    ready', d' := WithMember(svc, cfg, self, metadata, join, before, ready, d');
    MoreInner(before, log, svc.log);
  }

  method AskToJoin(svc: Service, cfg: Config, self: NodeId, metadata: Metadata, join: bool,
                   ghost before: seq<Event>, ready: bool, ghost d: Deeds)
    returns (added: bool, ghost d': Deeds)
    requires Between(svc, cfg, self, metadata, join, before, Phase(true, ready, Fresh), d)
    modifies svc`nodes, svc`history, svc`log
    ensures Between(svc, cfg, self, metadata, join, before, Phase(!added, ready, if added then Member else Leaving), d')
    ensures d'.start == d.start && old(svc.history) <= svc.history && InnerSince(old(svc.log), svc.log)
  {
    d' := d;
    added := svc.Add(self, metadata);
    Logged(self, join, old(svc.log), before, Joined(added));
    if added {
      WeJoin(cfg, self, metadata, old(svc.history), svc.foreign, d);
      d' := d.(added := Some(|old(svc.history)| - 1));
    }
  }

  /** The rest of a turn, with a client and as a member of the cluster. */
  method WithMember(svc: Service, cfg: Config, self: NodeId, metadata: Metadata, join: bool,
                    ghost before: seq<Event>, ready: bool, ghost d: Deeds)
    returns (ready': bool, ghost d': Deeds)
    requires Between(svc, cfg, self, metadata, join, before, Phase(false, ready, Member), d) && cfg.voters >= 1
    modifies svc`nodes, svc`clients, svc`history, svc`log, svc`readyAt
    ensures Between(svc, cfg, self, metadata, join, before, Phase(false, ready', Idle), d')
    ensures d'.start == d.start && old(svc.history) <= svc.history && InnerSince(old(svc.log), svc.log)
  {
    ready', d' := ready, d;
    var usable, members := ListMembers(svc, cfg, self, metadata, join, before, ready, d);
    if !usable {
      CloseClient(svc, cfg, self, metadata, join, before, false, ready', d', Leaving);
      return;
    }
    if !ready {
      ready', d' := GetReady(svc, cfg, self, metadata, join, before, d, members);
      CloseClient(svc, cfg, self, metadata, join, before, false, ready', d', Leaving);
      return;
    }
    AdjustRoles(svc, cfg, self, metadata, join, before, d);
    CloseClient(svc, cfg, self, metadata, join, before, false, ready', d', Leading);
  }

  method ListMembers(svc: Service, cfg: Config, self: NodeId, metadata: Metadata, join: bool,
                     ghost before: seq<Event>, ready: bool, ghost d: Deeds)
    returns (usable: bool, members: State)
    requires Between(svc, cfg, self, metadata, join, before, Phase(false, ready, Member), d)
    modifies svc`log
    ensures Between(svc, cfg, self, metadata, join, before, Phase(false, ready, if usable then Seen else Leaving), d)
    ensures members == svc.nodes && InnerSince(old(svc.log), svc.log)
  {
    var listed;
    listed, members := svc.Members();
    usable := listed && |members| > 0;
    Logged(self, join, old(svc.log), before, Listed(listed, |members|));
  }

  /** Promote ourselves if need be, and announce readiness unless that failed. */
  method GetReady(svc: Service, cfg: Config, self: NodeId, metadata: Metadata, join: bool,
                  ghost before: seq<Event>, ghost d: Deeds, members: State)
    returns (ready: bool, ghost d': Deeds)
    requires Between(svc, cfg, self, metadata, join, before, Phase(false, false, Seen), d) && members == svc.nodes
    modifies svc`nodes, svc`history, svc`log, svc`readyAt
    ensures Between(svc, cfg, self, metadata, join, before, Phase(false, ready, Leaving), d')
    ensures d'.start == d.start && old(svc.history) <= svc.history && InnerSince(old(svc.log), svc.log)
  {
    ready := TryPromotion(svc, cfg, self, join, before, members);
    d' := d;
    if ready {
      d' := d.(promoted := |old(svc.history)| - 1, ready := |svc.history| - 1);
      WePromote(cfg, self, metadata, join, old(svc.history), svc.history, svc.foreign, d);
      Announce(svc, cfg, self, metadata, join, before, d');
    }
  }

  method TryPromotion(svc: Service, cfg: Config, self: NodeId, join: bool, ghost before: seq<Event>, members: State)
    returns (ok: bool)
    requires svc.Valid() && svc.clients > 0 && members == svc.nodes && before <= svc.log
    requires Observe(self, join, svc.log[|before|..]) == Phase(false, false, Seen)
    modifies svc`nodes, svc`history, svc`log
    ensures svc.Valid() && old(svc.history) <= svc.history && InnerSince(old(svc.log), svc.log)
    ensures Observe(self, join, svc.log[|before|..]) in
            if ok then {Phase(false, false, Seen), Phase(false, false, Promoted)} else {Phase(false, false, Leaving)}
    ensures J.Promotion(cfg, self, svc.history[|old(svc.history)| - 1..])
    ensures if ok then R.Assume(cfg, members, self).Some? ==> |svc.history| > |old(svc.history)|
            else svc.history == old(svc.history)
  {
    var settled;
    ok, settled := J.MaybePromoteOurselves(svc, cfg, self, members);
    PromotionLogged(cfg, self, join, members, before, old(svc.log), svc.log, ok);
  }

  method Announce(svc: Service, cfg: Config, self: NodeId, metadata: Metadata, join: bool,
                  ghost before: seq<Event>, ghost d: Deeds)
    requires svc.Valid() && before <= svc.log && svc.clients == 1 && svc.readyAt == None
    requires Observe(self, join, svc.log[|before|..]) in {Phase(false, false, Seen), Phase(false, false, Promoted)}
    requires Law(cfg, self, metadata, join, svc.history, svc.foreign, d, true) && !d.gaveUp
    requires d.ready == |svc.history| - 1 && (join ==> d.added.Some?)
    modifies svc`log, svc`readyAt
    ensures Between(svc, cfg, self, metadata, join, before, Phase(false, true, Leaving), d)
    ensures InnerSince(old(svc.log), svc.log)
  {
    Logged(self, join, svc.log, before, Readied);
    svc.AnnounceReady();
  }

  method AdjustRoles(svc: Service, cfg: Config, self: NodeId, metadata: Metadata, join: bool,
                     ghost before: seq<Event>, ghost d: Deeds)
    requires Between(svc, cfg, self, metadata, join, before, Phase(false, true, Seen), d) && cfg.voters >= 1
    modifies svc`nodes, svc`history, svc`log
    ensures Between(svc, cfg, self, metadata, join, before, Phase(false, true, Leading), d)
    ensures old(svc.history) <= svc.history && InnerSince(old(svc.log), svc.log)
  {
    TryAdjustment(svc, cfg, self, join, before);
    WeAdjust(cfg, self, metadata, join, old(svc.history), svc.history, svc.foreign, d);
  }

  method TryAdjustment(svc: Service, cfg: Config, self: NodeId, join: bool, ghost before: seq<Event>)
    requires svc.Valid() && svc.clients > 0 && cfg.voters >= 1 && before <= svc.log
    requires Observe(self, join, svc.log[|before|..]) == Phase(false, true, Seen)
    modifies svc`nodes, svc`history, svc`log
    ensures svc.Valid() && old(svc.history) <= svc.history && InnerSince(old(svc.log), svc.log)
    ensures Observe(self, join, svc.log[|before|..]) == Phase(false, true, Leading)
    ensures IsRun(cfg, self, svc.history[|old(svc.history)| - 1..])
    ensures svc.history != old(svc.history) ==> Led(old(svc.nodes), self)
  {
    var outcome := A.MaybeAdjustRoles(svc, cfg, self);
    AdjustmentLogged(self, join, before, old(svc.log), svc.log);
  }

  method CloseClient(svc: Service, cfg: Config, self: NodeId, metadata: Metadata, join: bool,
                     ghost before: seq<Event>, joining: bool, ready: bool, ghost d: Deeds, ghost stage: Stage)
    requires Between(svc, cfg, self, metadata, join, before, Phase(joining, ready, stage), d)
    requires stage == Leaving || stage == Leading
    modifies svc`clients, svc`log
    ensures Between(svc, cfg, self, metadata, join, before, Phase(joining, ready, Idle), d)
    ensures InnerSince(old(svc.log), svc.log)
  {
    Logged(self, join, svc.log, before, Closed);
    svc.Close();
  }

  /** The context is cancelled before we got ready. */
  method GiveUp(svc: Service, cfg: Config, self: NodeId, metadata: Metadata, join: bool,
                ghost before: seq<Event>, joining: bool, ghost d: Deeds)
    returns (ghost d': Deeds)
    requires Between(svc, cfg, self, metadata, join, before, Phase(joining, false, Idle), d)
    modifies svc`log, svc`readyAt
    ensures svc.Valid() && before <= svc.log && InnerSince(old(svc.log), svc.log)
    ensures Observe(self, join, svc.log[|before|..]) == Phase(joining, true, Over)
    ensures Attempts(svc.log[|before|..]) == Attempts(old(svc.log)[|before|..])
    ensures d' == d.(promoted := |svc.history| - 1, ready := |svc.history| - 1, gaveUp := true)
    ensures svc.readyAt == Some(d'.ready) && Lawful(cfg, self, metadata, join, svc.history, svc.foreign, d')
  {
    ghost var end := |svc.history| - 1;
    d' := d.(promoted := end, ready := end, gaveUp := true);
    assert svc.history[end..] == [svc.nodes];
    Logged(self, join, svc.log, before, Readied);
    svc.AnnounceReady();
    MoreInner(before, old(svc.log), svc.log);
  }

  // ---- Bookkeeping of calls ----

  ghost predicate InnerSince(before: seq<Event>, now: seq<Event>)
  {
    before <= now && forall i :: |before| <= i < |now| ==> Inner(now[i])
  }

  lemma MoreInner(before: seq<Event>, log: seq<Event>, now: seq<Event>)
    requires before <= log && InnerSince(log, now)
    ensures Attempts(now[|before|..]) == Attempts(log[|before|..])
  {
    InnerCalls(log[|before|..], now[|log|..]);
    assert now[|before|..] == log[|before|..] + now[|log|..];
  }

  lemma Logged(self: NodeId, join: bool, log: seq<Event>, before: seq<Event>, e: Event)
    requires before <= log
    ensures before <= log + [e]
    ensures Observe(self, join, (log + [e])[|before|..]) == After(self, Observe(self, join, log[|before|..]), e)
    ensures Attempts((log + [e])[|before|..]) == Attempts(log[|before|..]) + if Inner(e) then 0 else 1
  {
    Observed(self, join, log[|before|..], e);
    Counted(log[|before|..], e, Opened);
    Counted(log[|before|..], e, Missed);
    assert (log + [e])[|before|..] == log[|before|..] + [e];
  }

  lemma PromotionLogged(cfg: Config, self: NodeId, join: bool, members: State,
                        before: seq<Event>, log: seq<Event>, now: seq<Event>, ok: bool)
    requires before <= log <= now && Observe(self, join, log[|before|..]) == Phase(false, false, Seen)
    requires J.PromotionCalls(cfg, self, members, now[|log|..], ok)
    ensures Observe(self, join, now[|before|..]) in
            if ok then {Phase(false, false, Seen), Phase(false, false, Promoted)} else {Phase(false, false, Leaving)}
    ensures InnerSince(log, now)
  {
    ObservePromotion(cfg, self, join, members, log[|before|..], now[|log|..], ok);
    assert now[|before|..] == log[|before|..] + now[|log|..];
    forall i | |log| <= i < |now| ensures Inner(now[i]) {
      assert now[i] == now[|log|..][i - |log|];
    }
  }

  lemma AdjustmentLogged(self: NodeId, join: bool, before: seq<Event>, log: seq<Event>, now: seq<Event>)
    requires before <= log && Observe(self, join, log[|before|..]) == Phase(false, true, Seen) && A.AsksFirst(log, now)
    ensures Observe(self, join, now[|before|..]) == Phase(false, true, Leading) && InnerSince(log, now)
  {
    ObserveAdjustment(self, join, log[|before|..], now[|log|..]);
    assert now[|before|..] == log[|before|..] + now[|log|..];
  }
}
