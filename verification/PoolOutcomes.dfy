/** When the pool's operations succeed, why they fail, and what their scores say, told from links, ticket, socket and
    probe outcomes alone. */
module PoolOutcomes {
  import opened Common
  import opened RelayPool

  // ---------------------------------------------------------------- making a link ready

  /** What stands in the way of a link that is not armed: its transport, the network, or what the ticket admits. */
  function Obstacle(l: LinkView, t: Ticket, socketOk: bool): Option<Error> {
    if Armed(l, Some(t)) then None
    else match l.meta.transport
      case Quic => Some(QuicUnsupported)
      case Tcp => Refusal(l.meta, t, socketOk)
      case Udp => Refusal(l.meta, t, socketOk)
  }

  function Refusal(m: NodeMeta, t: Ticket, socketOk: bool): Option<Error> {
    if !socketOk then Some(ConnectFailed)
    else if !(t.clusterId.Some? ==> t.clusterId.value == m.clusterId) then Some(ClusterMismatch)
    else if t.allowed != [] && m.nodeId !in t.allowed then Some(NodeNotAllowed)
    else None
  }

  /** Readying a link fails exactly at its obstacle; without one it is an armed link, or a UDP or TCP link whose socket
      opens and whose node the ticket admits. */
  lemma EnsureReadyExact(l: LinkView, t: Ticket, socketOk: bool)
    requires ClientOk(l, Some(t))
    ensures EnsureReady(l, t, socketOk).1 == Obstacle(l, t, socketOk)
    ensures Obstacle(l, t, socketOk).None? <==> Armed(l, Some(t)) || (socketOk && !l.meta.transport.Quic? && Admits(t, l.meta))
  {
  }

  /** A link whose warm-up met an obstacle is shown as failed, unless it had been closed and no socket opened for it: then
      it still shows closed. One that is made ready shows ready, or suspect if a probe was bad. */
  lemma ObstacleIsShown(l: LinkView, t: Ticket, socketOk: bool)
    requires ClientOk(l, Some(t))
    ensures var (m, e) := EnsureReady(l, t, socketOk);
            && (e.Some? ==> SnapshotState(m.(lastError := e)) ==
                              if l.client.closed && (l.meta.transport.Quic? || !socketOk) then Closed else Failed)
            && (e.None? ==> SnapshotState(m).Ready? || SnapshotState(m).Suspect?)
  {
  }

  // ---------------------------------------------------------------- warm-up

  /** Nothing stands in the way of the links from `i` up to `n`. */
  ghost predicate Clear(links: seq<LinkView>, i: nat, n: nat, t: Ticket, connect: nat -> bool)
    requires n <= |links|
  {
    forall k :: i <= k < n ==> Obstacle(links[k], t, connect(k)).None?
  }

  /** What a warm-up loop from `i` on answers: nothing when all is clear, else the first obstacle. */
  ghost predicate FirstObstacle(links: seq<LinkView>, i: nat, warm: nat, t: Ticket, connect: nat -> bool, e: Option<Error>)
    requires warm <= |links|
  {
    if e.None? then Clear(links, i, warm, t, connect)
    else exists f :: i <= f < warm && Clear(links, i, f, t, connect) && Obstacle(links[f], t, connect(f)) == e
  }

  lemma {:induction false} WarmLinksExact(links: seq<LinkView>, i: nat, warm: nat, t: Ticket, connect: nat -> bool)
    requires i <= |links| && warm <= |links| && LinksOk(links, Some(t))
    ensures FirstObstacle(links, i, warm, t, connect, WarmLinks(links, i, warm, t, connect).1)
    decreases |links| - i
  {
    if i >= warm {
      WarmLinksAfter(links, i, warm, t, connect);
    } else {
      EnsureReadyExact(links[i], t, connect(i));
      EnsureReadyArms(links[i], t, connect(i));
      var (l, e) := EnsureReady(links[i], t, connect(i));
      if e.None? {
        WarmLinksExact(links[i := l], i + 1, warm, t, connect);
        OneMoreClear(links, links[i := l], i, warm, t, connect, WarmLinks(links, i, warm, t, connect).1);
      } else {
        assert Clear(links, i, i, t, connect);
      }
    }
  }

  /** The link at `i` is clear, so the answer for the rest is the answer. */
  lemma OneMoreClear(links: seq<LinkView>, rest: seq<LinkView>, i: nat, warm: nat, t: Ticket, connect: nat -> bool,
                     e: Option<Error>)
    requires i < warm <= |links| == |rest| && (forall k :: i < k < |links| ==> rest[k] == links[k])
    requires Obstacle(links[i], t, connect(i)).None? && FirstObstacle(rest, i + 1, warm, t, connect, e)
    ensures FirstObstacle(links, i, warm, t, connect, e)
  {
    if e.Some? {
      var f :| i + 1 <= f < warm && Clear(rest, i + 1, f, t, connect) && Obstacle(rest[f], t, connect(f)) == e;
      assert Clear(links, i, f, t, connect) && Obstacle(links[f], t, connect(f)) == e;
    }
  }

  /** An obstacle before the end rules out that all is clear. */
  lemma NotBoth(links: seq<LinkView>, warm: nat, t: Ticket, connect: nat -> bool, e: Option<Error>)
    requires warm <= |links| && FirstObstacle(links, 0, warm, t, connect, e)
    ensures e.None? <==> Clear(links, 0, warm, t, connect)
  {
  }

  /** In every reachable state: a warm-up succeeds exactly when a non-empty cluster is installed and nothing stands in the
      way of its first `fanout` links, one at least; else it fails as the first obstacle says and the active node stays. */
  lemma WarmUpExact(ops: seq<Op>, fanout: nat, connect: nat -> bool)
    ensures var p := Run(START, ops).pool;
            var warm := Min(Max(fanout, 1), |p.links|);
            var (q, e) := WarmUp(p, fanout, connect);
            && (e.None? <==> p.links != [] && p.ticket.Some? && Clear(p.links, 0, warm, p.ticket.value, connect))
            && (e.Some? ==> q.active == p.active)
            && (p.links != [] && p.ticket.Some? ==> FirstObstacle(p.links, 0, warm, p.ticket.value, connect, e))
  {
    RunKeeps(START, ops);
    var p := Run(START, ops).pool;
    if p.links != [] && p.ticket.Some? {
      var warm := Min(Max(fanout, 1), |p.links|);
      WarmLinksExact(p.links, 0, warm, p.ticket.value, connect);
      NotBoth(p.links, warm, p.ticket.value, connect, WarmLinks(p.links, 0, warm, p.ticket.value, connect).1);
    }
  }

  // ---------------------------------------------------------------- forced switch

  /** In every reachable state: a forced switch succeeds exactly when a ticket is installed and nothing stands in the way of
      the first link of that id; then the node is active and the event leads to it, else the active node stays. */
  lemma ForceSwitchExact(ops: seq<Op>, id: string, socketOk: bool, k: nat)
    requires var links := Run(START, ops).pool.links;
             && k <= |links| && (forall i :: 0 <= i < k ==> links[i].meta.nodeId != id)
             && (k < |links| ==> links[k].meta.nodeId == id)
    ensures var p := Run(START, ops).pool;
            var (q, r) := ForceSwitch(p, id, socketOk);
            && (r.Ok? <==> p.ticket.Some? && k < |p.links| && Obstacle(p.links[k], p.ticket.value, socketOk).None?)
            && (r.Ok? ==> q.active == Some(id) && q.epoch == p.epoch + 1 && r.value == SwitchEvent(p.clusterId, p.active, id)
                          && Armed(q.links[k], p.ticket))
            && (r.Err? ==> q.active == p.active && q.epoch == p.epoch)
            && (r.Err? && p.ticket.Some? && k < |p.links| ==> Some(r.error) == Obstacle(p.links[k], p.ticket.value, socketOk))
            && |q.links| == |p.links| && forall i :: 0 <= i < |p.links| && i != k ==> q.links[i] == p.links[i]
  {
    RunKeeps(START, ops);
    var p := Run(START, ops).pool;
    var found := Position(p.links, id);
    if found.Some? {
      assert found.value == k;
      if p.ticket.Some? {
        EnsureReadyExact(p.links[k], p.ticket.value, socketOk);
        EnsureReadyArms(p.links[k], p.ticket.value, socketOk);
      }
    } else {
      assert k == |p.links|;
    }
  }

  // ---------------------------------------------------------------- install and close

  /** The pool holds the nodes of the last install, in its cluster and session, under its ticket. */
  ghost predicate HoldsInstall(p: PoolView, clusterId: string, nodes: seq<NodeMeta>, t: Ticket) {
    && p.clusterId == clusterId && p.sessionId == t.sessionId && p.ticket == Some(t)
    && |p.links| == |nodes| && forall i :: 0 <= i < |nodes| ==> p.links[i].meta == nodes[i]
  }

  lemma KeptLabels(s: Trace, op: Op)
    requires Inv(s) && !op.OpInstall?
    ensures var p, q := s.pool, Step(s, op).pool;
            && q.clusterId == p.clusterId && q.sessionId == p.sessionId && q.ticket == p.ticket
            && |q.links| == |p.links| && forall i :: 0 <= i < |p.links| ==> q.links[i].meta == p.links[i].meta
  {
    match op
    case OpWarmUp(f, connect) => WarmUpKeeps(s.pool, f, connect);
    case OpTick(probe) => KeptByTick(s.pool, probe);
    case OpForceSwitch(id, ok) => ForceSwitchKeeps(s.pool, id, ok);
    case _ =>
  }

  lemma KeptByTick(p: PoolView, probe: nat -> Result<ProbeSample, Error>)
    ensures var q := Tick(p, probe);
            |q.links| == |p.links| && forall i :: 0 <= i < |p.links| ==> q.links[i].meta == p.links[i].meta
  {
    forall i | 0 <= i < |p.links| ensures Tick(p, probe).links[i].meta == p.links[i].meta {
      assert Tick(p, probe).links[i] == TickLink(p.links[i], probe(i));
    }
  }

  lemma {:induction false} LastInstallHolds(s: Trace, ops: seq<Op>, clusterId: string, nodes: seq<NodeMeta>, t: Ticket)
    requires Inv(s) && HoldsInstall(s.pool, clusterId, nodes, t) && forall i :: 0 <= i < |ops| ==> !ops[i].OpInstall?
    ensures HoldsInstall(Run(s, ops).pool, clusterId, nodes, t)
    decreases |ops|
  {
    if ops != [] {
      KeptLabels(s, ops[0]);
      StepKeeps(s, ops[0]);
      LastInstallHolds(Step(s, ops[0]), ops[1..], clusterId, nodes, t);
    }
  }

  /** Installing forgets everything before it: no active node, no event, fresh links, whatever the history. */
  lemma InstallStartsOver(history: seq<Op>, clusterId: string, nodes: seq<NodeMeta>, t: Ticket, ops: seq<Op>)
    requires forall i :: 0 <= i < |ops| ==> !ops[i].OpInstall?
    ensures var s := Step(Run(START, history), OpInstall(clusterId, nodes, t));
            && s.pool.active.None? && s.pool.epoch == 0
            && (forall i :: 0 <= i < |nodes| ==>
                  && !Usable(s.pool.links[i]) && !s.pool.links[i].client.socket
                  && RawScore(s.pool.links[i]) == nodes[i].priority)
            && HoldsInstall(Run(s, ops).pool, clusterId, nodes, t)
  {
    RunKeeps(START, history);
    var s := Step(Run(START, history), OpInstall(clusterId, nodes, t));
    StepKeeps(Run(START, history), OpInstall(clusterId, nodes, t));
    LastInstallHolds(s, ops, clusterId, nodes, t);
  }

  /** A closed pool has no socket, no ticket on any link and nothing to send through; its nodes stay installed. */
  lemma ClosedPoolIsDown(p: PoolView)
    ensures var q := Close(p);
            && q.active.None? && SendTarget(q) == Err(NoActiveLink) && MaybeSwitch(q) == (q, None)
            && |q.links| == |p.links|
            && forall i :: 0 <= i < |p.links| ==>
                 && q.links[i].meta == p.links[i].meta && SnapshotState(q.links[i]).Closed?
                 && !q.links[i].client.socket && q.links[i].client.ticket.None?
  {
    ChooseActiveIsFirstLeast(Close(p).links, |Close(p).links|);
  }

  // ---------------------------------------------------------------- scores from probe histories

  predicate Bad(r: Result<ProbeSample, Error>) { r.Err? || r.value.timedOut }

  function BadCount(ps: seq<Result<ProbeSample, Error>>): nat {
    if ps == [] then 0 else BadCount(ps[..|ps| - 1]) + if Bad(ps[|ps| - 1]) then 1 else 0
  }

  /** How many of the last probes in a row were bad. */
  function BadRow(ps: seq<Result<ProbeSample, Error>>): nat {
    if ps == [] || !Bad(ps[|ps| - 1]) then 0 else BadRow(ps[..|ps| - 1]) + 1
  }

  /** The delay and loss of the last probe that came back; nothing before the first one. */
  function LastCost(ps: seq<Result<ProbeSample, Error>>): nat {
    if ps == [] then 0
    else match ps[|ps| - 1] case Ok(s) => s.rttMs + s.lossPpm / 1000 case Err(_) => LastCost(ps[..|ps| - 1])
  }

  function TickAll(l: LinkView, ps: seq<Result<ProbeSample, Error>>): LinkView {
    if ps == [] then l else TickLink(TickAll(l, ps[..|ps| - 1]), ps[|ps| - 1])
  }

  lemma {:induction false} CountersFromHistory(l: LinkView, ps: seq<Result<ProbeSample, Error>>)
    requires l.client.State().Ready? && Calm(l) && |ps| < U32_MODULUS
    ensures var m := TickAll(l, ps);
            && m.client == l.client && m.meta == l.meta && m.timeouts == BadCount(ps) <= |ps| && m.failures == BadRow(ps)
            && ProbeCost(m) == LastCost(ps) && m.lastProbe.Some? && (m.lastProbe.value.timedOut ==> BadCount(ps) > 0)
  {
    if ps != [] {
      CountersFromHistory(l, ps[..|ps| - 1]);
      BadRowBound(ps);
    }
  }

  lemma {:induction false} BadRowBound(ps: seq<Result<ProbeSample, Error>>)
    ensures BadRow(ps) <= BadCount(ps) <= |ps|
  {
    if ps != [] {
      BadRowBound(ps[..|ps| - 1]);
    }
  }

  /** A ready link's score is its priority, plus the delay and thousandths of loss of the last probe that came back, plus
      1000 for each bad probe since install, plus 100 for each one in the present row of them, as long as the sum fits;
      it is suspect exactly when a probe was bad. */
  lemma ScoreFromHistory(l: LinkView, ps: seq<Result<ProbeSample, Error>>)
    requires l.client.State().Ready? && Calm(l) && |ps| < U32_MODULUS
    ensures var m := TickAll(l, ps);
            var sum := l.meta.priority + LastCost(ps) + 1000 * BadCount(ps) + 100 * BadRow(ps);
            && (sum < U32_MODULUS ==> Score(m) == sum)
            && SnapshotState(m) == if BadCount(ps) > 0 then Suspect else Ready
  {
    CountersFromHistory(l, ps);
  }

  /** A tick probes every link by itself. */
  lemma {:induction false} TicksArePerLink(s: Trace, probes: seq<nat -> Result<ProbeSample, Error>>, i: nat)
    requires i < |s.pool.links|
    ensures var q := Run(s, Ticks(probes)).pool;
            && |q.links| == |s.pool.links| && q.active == s.pool.active
            && q.links[i] == TickAll(s.pool.links[i], ProbesOf(probes, i))
  {
    if probes != [] {
      var front, last := probes[..|probes| - 1], probes[|probes| - 1];
      TicksArePerLink(s, front, i);
      RunSnoc(s, Ticks(front), OpTick(last));
      assert Ticks(probes) == Ticks(front) + [OpTick(last)];
      assert ProbesOf(probes, i)[..|probes| - 1] == ProbesOf(front, i);
    }
  }

  function Ticks(probes: seq<nat -> Result<ProbeSample, Error>>): seq<Op> {
    seq(|probes|, k requires 0 <= k < |probes| => OpTick(probes[k]))
  }

  function ProbesOf(probes: seq<nat -> Result<ProbeSample, Error>>, i: nat): seq<Result<ProbeSample, Error>> {
    seq(|probes|, k requires 0 <= k < |probes| => probes[k](i))
  }

  lemma {:induction false} RunSnoc(s: Trace, ops: seq<Op>, op: Op)
    ensures Run(s, ops + [op]) == Step(Run(s, ops), op)
    decreases |ops|
  {
    if ops == [] {
      assert [] + [op] == [op] && [op][1..] == [];
    } else {
      RunSnoc(Step(s, ops[0]), ops[1..], op);
      assert (ops + [op])[1..] == ops[1..] + [op];
    }
  }
}
