/** The DERP client state machine and the pool that schedules over its links.
    `*View` values are the abstract states; the classes below refine the functions on them. */
module RelayPool {
  import opened Common

  const U32_MODULUS := 0x1_0000_0000

  datatype Transport = Udp | Tcp | Quic

  datatype NodeMeta = NodeMeta(clusterId: string, nodeId: string, transport: Transport, priority: u32)

  datatype Ticket = Ticket(ticketId: string, sessionId: string, clusterId: Option<string>, allowed: seq<string>)

  datatype ProbeSample = ProbeSample(rttMs: u32, timedOut: bool, lossPpm: u32)

  datatype Error =
    | NoCluster | NoTicket | QuicUnsupported | ConnectFailed | NoConnectedNode
    | ClusterMismatch | NodeNotAllowed | NodeNotFound | ProbeFailed | NoActiveLink | ActiveMissing | NotReady

  datatype LinkState = Connecting | Ready | Suspect | Failed | Closed

  /** What a relay ticket admits: its cluster, when it names one, and its node list, when non-empty. */
  predicate Admits(t: Ticket, m: NodeMeta) {
    && (t.clusterId.Some? ==> t.clusterId.value == m.clusterId)
    && (t.allowed != [] ==> m.nodeId in t.allowed)
  }

  // ---------------------------------------------------------------- one client

  datatype ClientView = ClientView(meta: Option<NodeMeta>, ticket: Option<Ticket>, socket: bool, closed: bool) {
    function State(): LinkState {
      if closed then Closed else if !socket || ticket.None? then Connecting else Ready
    }

    /** `connect_node`: QUIC is refused, and a failed socket leaves the client as it was. */
    function Connect(m: NodeMeta, socketOk: bool): (ClientView, Option<Error>) {
      if m.transport.Quic? then (this, Some(QuicUnsupported))
      else if !socketOk then (this, Some(ConnectFailed))
      else (this.(meta := Some(m), socket := true, closed := false), None)
    }

    function Attach(t: Ticket): (ClientView, Option<Error>) {
      if meta.None? then (this, Some(NoConnectedNode))
      else if t.clusterId.Some? && t.clusterId.value != meta.value.clusterId then (this, Some(ClusterMismatch))
      else if t.allowed != [] && meta.value.nodeId !in t.allowed then (this, Some(NodeNotAllowed))
      else (this.(ticket := Some(t), closed := false), None)
    }

    function Close(): ClientView { this.(socket := false, ticket := None, closed := true) }
  }

  const FRESH_CLIENT := ClientView(None, None, false, false)

  // ---------------------------------------------------------------- links and scores

  datatype LinkView = LinkView(meta: NodeMeta, client: ClientView, lastProbe: Option<ProbeSample>,
                               timeouts: u32, failures: u32, lastError: Option<Error>)

  /** The score as a mathematical sum; the two products and the probe term saturate on their own. */
  function RawScore(l: LinkView): nat {
    l.meta.priority
    + (if l.lastProbe.Some? then SatAdd(l.lastProbe.value.rttMs, l.lastProbe.value.lossPpm / 1000) else 0)
    + SatMul(l.timeouts, 1000)
    + SatMul(l.failures, 100)
  }

  /** The score the code computes: its three additions are unchecked u32 additions, which wrap in release builds. */
  function Score(l: LinkView): u32 { RawScore(l) % U32_MODULUS }

  /** `build_snapshot`'s link state: an error turns Connecting into Failed, a timeout turns Ready into Suspect. */
  function SnapshotState(l: LinkView): LinkState {
    var s := l.client.State();
    if l.lastError.Some? && s.Connecting? then Failed
    else if s.Ready? && (l.timeouts > 0 || (l.lastProbe.Some? && l.lastProbe.value.timedOut)) then Suspect
    else s
  }

  predicate Usable(l: LinkView) { SnapshotState(l).Ready? || SnapshotState(l).Suspect? }

  predicate KeyLess(a: LinkView, b: LinkView) {
    Score(a) < Score(b) || (Score(a) == Score(b) && a.meta.priority < b.meta.priority)
  }

  /** `choose_active_index` over the first `n` links: `min_by_key` keeps the first of equal minima. */
  function ChooseActive(links: seq<LinkView>, n: nat): Option<nat>
    requires n <= |links|
  {
    if n == 0 then None
    else
      var best := ChooseActive(links, n - 1);
      if !Usable(links[n - 1]) then best
      else if best.None? || (best.value < |links| && KeyLess(links[n - 1], links[best.value])) then Some(n - 1)
      else best
  }

  /** Independent meaning of the choice: the first usable link whose (score, priority) is least. */
  ghost predicate IsFirstLeast(links: seq<LinkView>, n: nat, k: nat)
    requires n <= |links|
  {
    && k < n && Usable(links[k])
    && (forall i :: 0 <= i < n && Usable(links[i]) ==> !KeyLess(links[i], links[k]))
    && (forall i :: 0 <= i < k && Usable(links[i]) ==> KeyLess(links[k], links[i]))
  }

  lemma {:induction false} ChooseActiveIsFirstLeast(links: seq<LinkView>, n: nat)
    requires n <= |links|
    ensures ChooseActive(links, n).Some? ==> IsFirstLeast(links, n, ChooseActive(links, n).value)
    ensures ChooseActive(links, n).None? <==> forall i :: 0 <= i < n ==> !Usable(links[i])
  {
    if n > 0 {
      ChooseActiveIsFirstLeast(links, n - 1);
    }
  }

  // ---------------------------------------------------------------- the pool

  datatype PoolView = PoolView(clusterId: string, sessionId: string, ticket: Option<Ticket>,
                               active: Option<string>, links: seq<LinkView>, epoch: nat)

  datatype SwitchEvent = SwitchEvent(clusterId: string, from: Option<string>, to: string)

  const EMPTY_POOL := PoolView("", "", None, None, [], 0)

  function FreshLink(m: NodeMeta): LinkView {
    LinkView(m, FRESH_CLIENT, Some(ProbeSample(0, false, 0)), 0, 0, None)
  }

  function Install(p: PoolView, clusterId: string, nodes: seq<NodeMeta>, t: Ticket): PoolView {
    PoolView(clusterId, t.sessionId, Some(t), None, seq(|nodes|, i requires 0 <= i < |nodes| => FreshLink(nodes[i])), 0)
  }

  /** `ensure_link_ready`: a ready client is kept, any other is connected and given the ticket. */
  function EnsureReady(l: LinkView, t: Ticket, socketOk: bool): (LinkView, Option<Error>) {
    if l.client.State().Ready? then (l.(lastError := None), None)
    else
      var (c, e) := l.client.Connect(l.meta, socketOk);
      if e.Some? then (l, e)
      else
        var (c', e') := c.Attach(t);
        if e'.Some? then (l.(client := c'), e') else (l.(client := c', lastError := None), None)
  }

  function ClosedLink(l: LinkView): LinkView { l.(client := l.client.Close(), lastError := None) }

  /** The warm-up loop from link `i` on: ready the first `warm` links, stop at the first error, close the rest. */
  function WarmLinks(links: seq<LinkView>, i: nat, warm: nat, t: Ticket, connect: nat -> bool)
    : (r: (seq<LinkView>, Option<Error>))
    requires i <= |links|
    ensures |r.0| == |links|
    decreases |links| - i
  {
    if i == |links| then (links, None)
    else if i < warm then
      var (l, e) := EnsureReady(links[i], t, connect(i));
      if e.Some? then (links[i := l.(lastError := e)], e)
      else WarmLinks(links[i := l], i + 1, warm, t, connect)
    else WarmLinks(links[i := ClosedLink(links[i])], i + 1, warm, t, connect)
  }

  function NodeAt(p: PoolView, choice: Option<nat>): Option<string> {
    if choice.Some? && choice.value < |p.links| then Some(p.links[choice.value].meta.nodeId) else None
  }

  function WarmUp(p: PoolView, fanout: nat, connect: nat -> bool): (PoolView, Option<Error>) {
    if p.links == [] then (p, Some(NoCluster))
    else if p.ticket.None? then (p, Some(NoTicket))
    else
      var (links, e) := WarmLinks(p.links, 0, Min(Max(fanout, 1), |p.links|), p.ticket.value, connect);
      var q := p.(links := links);
      if e.Some? then (q, e) else (q.(active := NodeAt(q, ChooseActive(links, |links|))), None)
  }

  /** One probe: a link that is not ready is skipped; a timed-out or failed probe raises both counters. */
  function TickLink(l: LinkView, probe: Result<ProbeSample, Error>): LinkView {
    if !l.client.State().Ready? then l
    else match probe
      case Ok(s) =>
        (if s.timedOut then l.(timeouts := SatAdd(l.timeouts, 1), failures := SatAdd(l.failures, 1)) else l.(failures := 0))
        .(lastProbe := Some(s), lastError := None)
      case Err(e) =>
        l.(timeouts := SatAdd(l.timeouts, 1), failures := SatAdd(l.failures, 1), lastError := Some(e))
  }

  function Tick(p: PoolView, probe: nat -> Result<ProbeSample, Error>): PoolView {
    p.(links := seq(|p.links|, i requires 0 <= i < |p.links| => TickLink(p.links[i], probe(i))))
  }

  function MaybeSwitch(p: PoolView): (PoolView, Option<SwitchEvent>) {
    var target := NodeAt(p, ChooseActive(p.links, |p.links|));
    if target.None? || p.active == target then (p, None)
    else (p.(active := target, epoch := p.epoch + 1), Some(SwitchEvent(p.clusterId, p.active, target.value)))
  }

  /** Index of the first link with the given node id. */
  function Position(links: seq<LinkView>, id: string): (k: Option<nat>)
    ensures k.Some? ==> k.value < |links| && links[k.value].meta.nodeId == id
                        && forall i :: 0 <= i < k.value ==> links[i].meta.nodeId != id
    ensures k.None? ==> forall i :: 0 <= i < |links| ==> links[i].meta.nodeId != id
  {
    if links == [] then None
    else if links[0].meta.nodeId == id then Some(0)
    else var k := Position(links[1..], id); if k.Some? then Some(k.value + 1) else None
  }

  function ForceSwitch(p: PoolView, id: string, socketOk: bool): (PoolView, Result<SwitchEvent, Error>) {
    if p.ticket.None? then (p, Err(NoTicket))
    else
      var k := Position(p.links, id);
      if k.None? then (p, Err(NodeNotFound))
      else
        var (l, e) := EnsureReady(p.links[k.value], p.ticket.value, socketOk);
        var q := p.(links := p.links[k.value := l]);
        if e.Some? then (q, Err(e.value))
        else (q.(active := Some(id), epoch := q.epoch + 1), Ok(SwitchEvent(p.clusterId, p.active, id)))
  }

  function CloseLinks(links: seq<LinkView>): seq<LinkView> {
    seq(|links|, i requires 0 <= i < |links| => ClosedLink(links[i]))
  }

  function Close(p: PoolView): PoolView { p.(links := CloseLinks(p.links), active := None) }

  /** `active_link`: the first link whose id is the active one. */
  function ActiveLink(p: PoolView): Option<LinkView> {
    if p.active.None? then None
    else var k := Position(p.links, p.active.value); if k.Some? then Some(p.links[k.value]) else None
  }

  /** Sending through the pool up to the socket: which link is used, or why none is. */
  function SendTarget(p: PoolView): Result<LinkView, Error> {
    if p.active.None? then Err(NoActiveLink)
    else
      var k := Position(p.links, p.active.value);
      if k.None? then Err(ActiveMissing)
      else
        var c := p.links[k.value].client;
        if c.meta.None? then Err(NoConnectedNode)
        else if c.ticket.None? then Err(NoTicket)
        else if c.closed || !c.socket then Err(NotReady)
        else Ok(p.links[k.value])
  }

  // ---------------------------------------------------------------- runs

  datatype Op =
    | OpInstall(clusterId: string, nodes: seq<NodeMeta>, ticket: Ticket)
    | OpWarmUp(fanout: nat, connect: nat -> bool)
    | OpTick(probe: nat -> Result<ProbeSample, Error>)
    | OpMaybeSwitch
    | OpForceSwitch(id: string, socketOk: bool)
    | OpClose

  /** A pool with what happened since its last install: ticks counted and switch events in order. */
  datatype Trace = Trace(pool: PoolView, ticks: nat, switches: seq<SwitchEvent>)

  const START := Trace(EMPTY_POOL, 0, [])

  function Step(s: Trace, op: Op): Trace {
    match op
    case OpInstall(c, nodes, t) => Trace(Install(s.pool, c, nodes, t), 0, [])
    case OpWarmUp(f, connect) => s.(pool := WarmUp(s.pool, f, connect).0)
    case OpTick(probe) => s.(pool := Tick(s.pool, probe), ticks := s.ticks + 1)
    case OpMaybeSwitch =>
      var (p, e) := MaybeSwitch(s.pool);
      s.(pool := p, switches := if e.Some? then s.switches + [e.value] else s.switches)
    case OpForceSwitch(id, ok) =>
      var (p, e) := ForceSwitch(s.pool, id, ok);
      s.(pool := p, switches := if e.Ok? then s.switches + [e.value] else s.switches)
    case OpClose => s.(pool := Close(s.pool))
  }

  function Run(s: Trace, ops: seq<Op>): Trace
    decreases |ops|
  {
    if ops == [] then s else Run(Step(s, ops[0]), ops[1..])
  }

  // ---------------------------------------------------------------- the invariant

  /** A link whose client is ready on this very node and holds the pool's ticket, which admits the node. */
  predicate Armed(l: LinkView, t: Option<Ticket>) {
    && t.Some? && l.client.State().Ready? && l.client.meta == Some(l.meta)
    && l.client.ticket == t && Admits(t.value, l.meta)
  }

  /** What every installed client satisfies: a ticket is only ever held on a link that is armed. */
  predicate ClientOk(l: LinkView, t: Option<Ticket>) {
    && (l.client.socket ==> l.client.meta == Some(l.meta) && !l.client.closed)
    && (l.client.ticket.Some? ==> Armed(l, t))
  }

  predicate CountersOk(l: LinkView, ticks: nat) { l.failures <= l.timeouts <= ticks }

  ghost predicate ActiveArmed(p: PoolView) {
    p.active.Some? ==> exists i :: 0 <= i < |p.links| && p.links[i].meta.nodeId == p.active.value && Armed(p.links[i], p.ticket)
  }

  ghost predicate LinksOk(links: seq<LinkView>, t: Option<Ticket>) {
    forall i :: 0 <= i < |links| ==> ClientOk(links[i], t)
  }

  ghost predicate CountsOk(links: seq<LinkView>, ticks: nat) {
    forall i :: 0 <= i < |links| ==> CountersOk(links[i], ticks)
  }

  /** Links of one id are armed front to back, so the first link of an armed id is armed. */
  ghost predicate TwinsOk(links: seq<LinkView>, t: Option<Ticket>) {
    forall i, j :: 0 <= i < j < |links| && links[i].meta.nodeId == links[j].meta.nodeId ==>
      (Armed(links[j], t) ==> Armed(links[i], t))
  }

  ghost predicate PoolOk(p: PoolView) {
    && LinksOk(p.links, p.ticket)
    && TwinsOk(p.links, p.ticket)
    && ActiveArmed(p)
  }

  ghost predicate Inv(s: Trace) {
    && PoolOk(s.pool)
    && CountsOk(s.pool.links, s.ticks)
    && s.pool.epoch == |s.switches|
  }

  lemma EnsureReadyArms(l: LinkView, t: Ticket, socketOk: bool)
    requires ClientOk(l, Some(t))
    ensures var (l', e) := EnsureReady(l, t, socketOk);
            ClientOk(l', Some(t)) && l'.meta == l.meta && (e.None? ==> Armed(l', Some(t)))
            && (Armed(l, Some(t)) ==> e.None?) && (e.Some? ==> e.value != NoActiveLink && !Armed(l', Some(t)))
            && l'.timeouts == l.timeouts && l'.failures == l.failures
  {
  }

  /** A usable link is an armed one, and conversely. */
  lemma UsableIsArmed(l: LinkView, t: Option<Ticket>)
    requires ClientOk(l, t)
    ensures Usable(l) <==> Armed(l, t)
  {
  }

  /** The link list keeps its nodes and counters; armed links stay armed unless they are the ones closed. */
  ghost predicate SameNodes(a: seq<LinkView>, b: seq<LinkView>) {
    && |a| == |b|
    && forall i :: 0 <= i < |a| ==> a[i].meta == b[i].meta && a[i].timeouts == b[i].timeouts && a[i].failures == b[i].failures
  }

  /** A warm-up stopped by link `f`: the links before it are armed, `f` is not and was not, the rest is untouched. */
  ghost predicate WarmStopped(links: seq<LinkView>, out: seq<LinkView>, i: nat, f: nat, t: Ticket)
    requires |out| == |links| && i <= f < |links|
  {
    && (forall k :: i <= k < f ==> Armed(out[k], Some(t)))
    && !Armed(links[f], Some(t)) && !Armed(out[f], Some(t))
    && (forall k :: f < k < |links| ==> out[k] == links[k])
  }

  lemma {:induction false} WarmLinksKeep(links: seq<LinkView>, i: nat, warm: nat, t: Ticket, connect: nat -> bool)
    requires i <= |links|
    requires LinksOk(links, Some(t))
    ensures var (out, e) := WarmLinks(links, i, warm, t, connect);
            && SameNodes(out, links) && LinksOk(out, Some(t))
            && (e.None? ==> forall k :: i <= k < |links| ==> (Armed(out[k], Some(t)) <==> k < warm))
            && (e.Some? ==> e.value != NoActiveLink && exists f :: i <= f < |links| && WarmStopped(links, out, i, f, t))
            && (forall k :: 0 <= k < i ==> out[k] == links[k])
    decreases |links| - i
  {
    if i < |links| {
      if i < warm {
        EnsureReadyArms(links[i], t, connect(i));
        var (l, e) := EnsureReady(links[i], t, connect(i));
        if e.None? {
          WarmLinksKeep(links[i := l], i + 1, warm, t, connect);
          var (out, e') := WarmLinks(links[i := l], i + 1, warm, t, connect);
          if e'.Some? {
            var f :| i + 1 <= f < |links| && WarmStopped(links[i := l], out, i + 1, f, t);
            assert WarmStopped(links, out, i, f, t);
          }
        } else {
          assert WarmStopped(links, links[i := l.(lastError := e)], i, i, t);
        }
      } else {
        WarmLinksAfter(links, i, warm, t, connect);
        WarmLinksKeep(links[i := ClosedLink(links[i])], i + 1, warm, t, connect);
      }
    }
  }

  /** Past the warm links the loop only closes, so it cannot fail. */
  lemma {:induction false} WarmLinksAfter(links: seq<LinkView>, i: nat, warm: nat, t: Ticket, connect: nat -> bool)
    requires warm <= i <= |links|
    ensures WarmLinks(links, i, warm, t, connect).1.None?
    decreases |links| - i
  {
    if i < |links| {
      WarmLinksAfter(links[i := ClosedLink(links[i])], i + 1, warm, t, connect);
    }
  }

  lemma ChosenIsArmed(p: PoolView)
    requires LinksOk(p.links, p.ticket)
    ensures NodeAt(p, ChooseActive(p.links, |p.links|)).Some? <==> exists i :: 0 <= i < |p.links| && Armed(p.links[i], p.ticket)
    ensures ActiveArmed(p.(active := NodeAt(p, ChooseActive(p.links, |p.links|))))
  {
    ChooseActiveIsFirstLeast(p.links, |p.links|);
    forall i | 0 <= i < |p.links|
      ensures Usable(p.links[i]) <==> Armed(p.links[i], p.ticket)
    {
      UsableIsArmed(p.links[i], p.ticket);
    }
  }

  /** A warm-up that succeeds leaves an active link, and any warm-up keeps the links well-formed. */
  lemma WarmUpKeeps(p: PoolView, fanout: nat, connect: nat -> bool)
    requires PoolOk(p)
    ensures var (q, e) := WarmUp(p, fanout, connect);
            && SameNodes(q.links, p.links) && q.ticket == p.ticket && q.epoch == p.epoch
            && PoolOk(q)
            && (if e.None? then q.active.Some? else e.value != NoActiveLink)
  {
    if p.links != [] && p.ticket.Some? {
      var warm := Min(Max(fanout, 1), |p.links|);
      WarmLinksKeep(p.links, 0, warm, p.ticket.value, connect);
      var (links, e) := WarmLinks(p.links, 0, warm, p.ticket.value, connect);
      if e.None? {
        assert Armed(links[0], p.ticket);
        ChosenIsArmed(p.(links := links));
      } else {
        var f :| 0 <= f < |links| && WarmStopped(p.links, links, 0, f, p.ticket.value);
        assert forall k :: 0 <= k < |links| && Armed(p.links[k], p.ticket) ==> Armed(links[k], p.ticket);
      }
    }
  }

  lemma TickLinkKeeps(l: LinkView, probe: Result<ProbeSample, Error>, ticks: nat)
    requires CountersOk(l, ticks)
    ensures var l' := TickLink(l, probe); l'.client == l.client && l'.meta == l.meta && CountersOk(l', ticks + 1)
  {
    if l.client.State().Ready? {
      match probe
      case Ok(s) =>
      case Err(e) =>
    }
  }

  lemma TickKeeps(p: PoolView, probe: nat -> Result<ProbeSample, Error>, ticks: nat)
    requires PoolOk(p) && CountsOk(p.links, ticks)
    ensures var q := Tick(p, probe); PoolOk(q) && CountsOk(q.links, ticks + 1)
  {
    var q := Tick(p, probe);
    forall i | 0 <= i < |p.links|
      ensures q.links[i].client == p.links[i].client && q.links[i].meta == p.links[i].meta && CountersOk(q.links[i], ticks + 1)
    {
      TickLinkKeeps(p.links[i], probe(i), ticks);
    }
    assert forall i :: 0 <= i < |p.links| && Armed(p.links[i], p.ticket) ==> Armed(q.links[i], p.ticket);
  }

  lemma MaybeSwitchKeeps(p: PoolView)
    requires PoolOk(p)
    ensures PoolOk(MaybeSwitch(p).0) && MaybeSwitch(p).0.links == p.links && MaybeSwitch(p).0.ticket == p.ticket
    ensures p.active.Some? ==> MaybeSwitch(p).0.active.Some?
  {
    ChosenIsArmed(p);
  }

  lemma ForceSwitchKeeps(p: PoolView, id: string, socketOk: bool)
    requires PoolOk(p)
    ensures var (q, r) := ForceSwitch(p, id, socketOk);
            SameNodes(q.links, p.links) && PoolOk(q)
  {
    var k := Position(p.links, id);
    if p.ticket.Some? && k.Some? {
      EnsureReadyArms(p.links[k.value], p.ticket.value, socketOk);
      var (l, e) := EnsureReady(p.links[k.value], p.ticket.value, socketOk);
      var links := p.links[k.value := l];
      assert Armed(p.links[k.value], p.ticket) ==> Armed(l, p.ticket);
      assert forall i :: 0 <= i < |links| && Armed(p.links[i], p.ticket) ==> Armed(links[i], p.ticket);
      assert e.None? ==> Armed(links[k.value], p.ticket);
    }
  }

  lemma StepKeeps(s: Trace, op: Op)
    requires Inv(s)
    ensures Inv(Step(s, op))
  {
    match op
    case OpInstall(c, nodes, t) =>
    case OpWarmUp(f, connect) => WarmUpKeeps(s.pool, f, connect);
    case OpTick(probe) => TickKeeps(s.pool, probe, s.ticks);
    case OpMaybeSwitch => MaybeSwitchKeeps(s.pool);
    case OpForceSwitch(id, ok) => ForceSwitchKeeps(s.pool, id, ok);
    case OpClose =>
  }

  lemma {:induction false} RunKeeps(s: Trace, ops: seq<Op>)
    requires Inv(s)
    ensures Inv(Run(s, ops))
    decreases |ops|
  {
    if ops != [] {
      StepKeeps(s, ops[0]);
      RunKeeps(Step(s, ops[0]), ops[1..]);
    }
  }

  // ---------------------------------------------------------------- main results

  /** The link is the named node's, its client is connected there and open, holding this ticket, which admits the node. */
  predicate ServesActive(l: LinkView, id: string, t: Ticket) {
    l.meta.nodeId == id && l.client == ClientView(Some(l.meta), Some(t), true, false) && Admits(t, l.meta)
  }

  /** Over every run an active node names an installed link that is ready on that node, holds the
      installed ticket, and is admitted by it; switch_epoch counts the switch events since install. */
  lemma ActiveLinkAlwaysArmed(ops: seq<Op>)
    ensures var s := Run(START, ops);
            && s.pool.epoch == |s.switches|
            && (s.pool.active.Some? ==>
                  && s.pool.ticket.Some?
                  && exists l :: l in s.pool.links && ServesActive(l, s.pool.active.value, s.pool.ticket.value))
  {
    RunKeeps(START, ops);
    var p := Run(START, ops).pool;
    if p.active.Some? {
      var i :| 0 <= i < |p.links| && p.links[i].meta.nodeId == p.active.value && Armed(p.links[i], p.ticket);
      assert p.links[i] in p.links && ServesActive(p.links[i], p.active.value, p.ticket.value);
    }
  }

  /** The pool can send through its active link in every reachable state that has one, even when two
      installed nodes share an id: the first link of the active id is always ready. */
  lemma ActiveLinkCanSend(ops: seq<Op>)
    ensures var p := Run(START, ops).pool;
            && (p.active.Some? <==> SendTarget(p).Ok?)
            && (p.active.Some? ==> SendTarget(p) == Ok(ActiveLink(p).value) && Armed(SendTarget(p).value, p.ticket))
  {
    RunKeeps(START, ops);
    ActiveIsFirstArmed(Run(START, ops).pool);
  }

  lemma ActiveIsFirstArmed(p: PoolView)
    requires PoolOk(p)
    ensures p.active.Some? ==>
              ActiveLink(p).Some? && Armed(ActiveLink(p).value, p.ticket) && ActiveLink(p).value.meta.nodeId == p.active.value
  {
    if p.active.Some? {
      var i :| 0 <= i < |p.links| && p.links[i].meta.nodeId == p.active.value && Armed(p.links[i], p.ticket);
      var k := Position(p.links, p.active.value);
      assert k.Some? && (k.value == i || k.value < i);
    }
  }

  // ---- the facade's use of the pool

  /** `connect_via_derp_pool` after the ticket is issued: install, warm up, tick, switch, read the active link. */
  function ConnectViaPool(p: PoolView, clusterId: string, nodes: seq<NodeMeta>, t: Ticket, fanout: nat,
                          connect: nat -> bool, probe: nat -> Result<ProbeSample, Error>)
    : (PoolView, Result<LinkView, Error>)
  {
    var (p1, e) := WarmUp(Install(p, clusterId, nodes, t), Max(fanout, 1), connect);
    if e.Some? then (p1, Err(e.value))
    else
      var p2 := MaybeSwitch(Tick(p1, probe)).0;
      var link := ActiveLink(p2);
      (p2, if link.Some? then Ok(link.value) else Err(NoActiveLink))
  }

  /** The facade's "no active link after warm up" error is unreachable: once the warm-up succeeds there is
      an active link, ready with the given ticket. */
  lemma WarmedPoolHasActiveLink(p: PoolView, clusterId: string, nodes: seq<NodeMeta>, t: Ticket, fanout: nat,
                                connect: nat -> bool, probe: nat -> Result<ProbeSample, Error>)
    ensures var (q, r) := ConnectViaPool(p, clusterId, nodes, t, fanout, connect, probe);
            && r != Err(NoActiveLink)
            && (r.Ok? ==> q.active == Some(r.value.meta.nodeId) && Armed(r.value, Some(t)))
            && (r.Ok? <==> WarmUp(Install(p, clusterId, nodes, t), Max(fanout, 1), connect).1.None?)
  {
    var p0 := Install(p, clusterId, nodes, t);
    WarmUpKeeps(p0, Max(fanout, 1), connect);
    var (p1, e) := WarmUp(p0, Max(fanout, 1), connect);
    if e.None? {
      assert CountsOk(p1.links, 0);
      TickKeeps(p1, probe, 0);
      MaybeSwitchKeeps(Tick(p1, probe));
      ActiveIsFirstArmed(MaybeSwitch(Tick(p1, probe)).0);
    }
  }

  // ---- switching

  ghost predicate ActiveIsFirstLeast(p: PoolView) {
    exists k :: 0 <= k < |p.links| && IsFirstLeast(p.links, |p.links|, k) && p.active == Some(p.links[k].meta.nodeId)
  }

  /** After a switch with some usable link the active node is that of the first link with least (score, priority),
      and switching again changes nothing. */
  lemma SwitchPicksFirstLeast(p: PoolView)
    requires exists i :: 0 <= i < |p.links| && Usable(p.links[i])
    ensures var (q, e) := MaybeSwitch(p);
            && ActiveIsFirstLeast(q)
            && MaybeSwitch(q) == (q, None)
            && (e.Some? <==> q.active != p.active)
            && (e.Some? ==> e.value == SwitchEvent(p.clusterId, p.active, q.active.value))
  {
    ChooseActiveIsFirstLeast(p.links, |p.links|);
    var k := ChooseActive(p.links, |p.links|).value;
    var q := MaybeSwitch(p).0;
    assert IsFirstLeast(q.links, |q.links|, k) && q.active == Some(q.links[k].meta.nodeId);
  }

  /** So it is after every successful warm-up a run can come to. */
  lemma WarmUpPicksFirstLeast(ops: seq<Op>, fanout: nat, connect: nat -> bool)
    requires WarmUp(Run(START, ops).pool, fanout, connect).1.None?
    ensures var q := WarmUp(Run(START, ops).pool, fanout, connect).0;
            && ActiveIsFirstLeast(q)
            && MaybeSwitch(q) == (q, None)
  {
    RunKeeps(START, ops);
    var p := Run(START, ops).pool;
    WarmUpKeeps(p, fanout, connect);
    var q := WarmUp(p, fanout, connect).0;
    ChooseActiveIsFirstLeast(q.links, |q.links|);
    assert IsFirstLeast(q.links, |q.links|, ChooseActive(q.links, |q.links|).value);
  }

  /** The events lead from `from` to `to`, each leaving the node the previous one entered. */
  ghost predicate Chain(events: seq<SwitchEvent>, from: Option<string>, to: Option<string>) {
    if events == [] then from == to
    else events[0].from == from && Chain(events[1..], Some(events[0].to), to)
  }

  /** Between installs, warm-ups and closes the events form a chain from the node that was active to the one that is. */
  lemma {:induction false} SwitchesFormChain(s: Trace, ops: seq<Op>)
    requires forall i :: 0 <= i < |ops| ==> ops[i].OpTick? || ops[i].OpMaybeSwitch? || ops[i].OpForceSwitch?
    ensures var s' := Run(s, ops);
            s.switches <= s'.switches && Chain(s'.switches[|s.switches|..], s.pool.active, s'.pool.active)
    decreases |ops|
  {
    if ops != [] {
      var s1 := Step(s, ops[0]);
      SwitchesFormChain(s1, ops[1..]);
      StepLinks(s, ops[0]);
      ExtendChain(s.switches, s1.switches, Run(s, ops).switches, s.pool.active, s1.pool.active, Run(s, ops).pool.active);
    }
  }

  /** One step adds at most one event, from the node that was active to the one that is. */
  lemma StepLinks(s: Trace, op: Op)
    requires op.OpTick? || op.OpMaybeSwitch? || op.OpForceSwitch?
    ensures var s1 := Step(s, op);
            || (s1.switches == s.switches && s1.pool.active == s.pool.active)
            || (|s1.switches| == |s.switches| + 1 && s1.switches[..|s.switches|] == s.switches
                && s1.switches[|s.switches|].from == s.pool.active && Some(s1.switches[|s.switches|].to) == s1.pool.active)
  {
  }

  lemma ExtendChain(a: seq<SwitchEvent>, b: seq<SwitchEvent>, c: seq<SwitchEvent>,
                    from: Option<string>, mid: Option<string>, to: Option<string>)
    requires b <= c && Chain(c[|b|..], mid, to)
    requires
      || (b == a && mid == from)
      || (|b| == |a| + 1 && b[..|a|] == a && b[|a|].from == from && Some(b[|a|].to) == mid)
    ensures a <= c && Chain(c[|a|..], from, to)
  {
    if |b| == |a| + 1 {
      assert c[|a|..][1..] == c[|b|..] && c[|a|] == b[|a|];
    }
  }

  // ---- scores

  /** What the last probe contributes to a score, before saturation. */
  function ProbeCost(l: LinkView): nat {
    if l.lastProbe.Some? then l.lastProbe.value.rttMs + l.lastProbe.value.lossPpm / 1000 else 0
  }

  /** In every reachable state the counters are ordered and the score is bounded by the ticks since install,
      so below 2^32 the unchecked additions are exact. */
  lemma ScoreBound(ops: seq<Op>, i: nat)
    requires i < |Run(START, ops).pool.links|
    ensures var s := Run(START, ops);
            var l := s.pool.links[i];
            && l.failures <= l.timeouts <= s.ticks
            && RawScore(l) <= l.meta.priority + ProbeCost(l) + 1100 * s.ticks
            && (l.meta.priority + ProbeCost(l) + 1100 * s.ticks < U32_MODULUS ==> Score(l) == RawScore(l))
            && (Score(l) == RawScore(l) <==> RawScore(l) < U32_MODULUS)
  {
    RunKeeps(START, ops);
    var s := Run(START, ops);
    assert CountersOk(s.pool.links[i], s.ticks);
  }

  // ---- scores with the client the pool is built with

  /** `SocketDerpClient.probe` on a ready client: no delay, no loss, no timeout. */
  const SOCKET_PROBE := ProbeSample(0, false, 0)

  ghost predicate SocketProbes(op: Op) { op.OpTick? ==> forall i :: op.probe(i) == Ok(SOCKET_PROBE) }

  predicate Calm(l: LinkView) { l.timeouts == 0 && l.failures == 0 && l.lastProbe == Some(SOCKET_PROBE) }

  ghost predicate AllCalm(links: seq<LinkView>) { forall i :: 0 <= i < |links| ==> Calm(links[i]) }

  lemma {:induction false} WarmLinksCalm(links: seq<LinkView>, i: nat, warm: nat, t: Ticket, connect: nat -> bool)
    requires i <= |links| && AllCalm(links)
    ensures AllCalm(WarmLinks(links, i, warm, t, connect).0)
    decreases |links| - i
  {
    if i < |links| {
      if i < warm {
        var (l, e) := EnsureReady(links[i], t, connect(i));
        assert Calm(l);
        if e.None? {
          WarmLinksCalm(links[i := l], i + 1, warm, t, connect);
        }
      } else {
        WarmLinksCalm(links[i := ClosedLink(links[i])], i + 1, warm, t, connect);
      }
    }
  }

  lemma StepCalm(s: Trace, op: Op)
    requires AllCalm(s.pool.links) && SocketProbes(op)
    ensures AllCalm(Step(s, op).pool.links)
  {
    if op.OpWarmUp? && s.pool.links != [] && s.pool.ticket.Some? {
      WarmLinksCalm(s.pool.links, 0, Min(Max(op.fanout, 1), |s.pool.links|), s.pool.ticket.value, op.connect);
    }
  }

  lemma {:induction false} RunCalm(s: Trace, ops: seq<Op>)
    requires AllCalm(s.pool.links) && forall k :: 0 <= k < |ops| ==> SocketProbes(ops[k])
    ensures AllCalm(Run(s, ops).pool.links)
    decreases |ops|
  {
    if ops != [] {
      StepCalm(s, ops[0]);
      RunCalm(Step(s, ops[0]), ops[1..]);
    }
  }

  /** With the shipped client no link is ever suspect and every score is the link's priority, so nothing can wrap. */
  lemma SocketScoresArePriorities(ops: seq<Op>, i: nat)
    requires i < |Run(START, ops).pool.links| && forall k :: 0 <= k < |ops| ==> SocketProbes(ops[k])
    ensures var l := Run(START, ops).pool.links[i]; Score(l) == RawScore(l) == l.meta.priority && !SnapshotState(l).Suspect?
  {
    RunCalm(START, ops);
    assert Calm(Run(START, ops).pool.links[i]);
  }

  // ---- scores with a client whose probes time out

  const LOW_NODE := NodeMeta("c", "a", Udp, 2000)
  const TOP_NODE := NodeMeta("c", "b", Udp, 0xFFFF_FFFF)
  const OPEN_TICKET := Ticket("t", "s", None, [])

  /** Install two nodes, warm both, let only the second one's probe time out, and switch. */
  function WrapScenario(): seq<Op> {
    [OpInstall("c", [LOW_NODE, TOP_NODE], OPEN_TICKET), OpWarmUp(2, i => true),
     OpTick(i => Ok(ProbeSample(0, i == 1, 0))), OpMaybeSwitch]
  }

  /** For a client whose probes can time out the bound matters: one timed-out probe on a link of the largest priority
      wraps its score, and the next switch leaves a healthy link of priority 2000 for it. `SocketDerpClient` is no such
      client; the run needs another implementation of `DerpClient`. */
  lemma WrappedScoreWins()
    ensures var p := Run(START, WrapScenario()).pool;
            && |p.links| == 2 && p.active == Some(p.links[1].meta.nodeId)
            && RawScore(p.links[0]) < RawScore(p.links[1]) && Score(p.links[1]) < Score(p.links[0])
            && p.links[0].timeouts == 0 && p.links[1].timeouts == 1
  {
    var ops := WrapScenario();
    RunFour(START, ops[0], ops[1], ops[2], ops[3]);
    var p0 := Install(EMPTY_POOL, "c", [LOW_NODE, TOP_NODE], OPEN_TICKET);
    WarmTwo(p0, LOW_NODE, TOP_NODE, OPEN_TICKET, ops[1].connect);
    TickTwo(WarmUp(p0, 2, ops[1].connect).0, LOW_NODE, TOP_NODE, OPEN_TICKET, ops[2].probe);
  }

  lemma TickTwo(p: PoolView, a: NodeMeta, b: NodeMeta, t: Ticket, probe: nat -> Result<ProbeSample, Error>)
    requires p.links == [ReadyLink(a, t), ReadyLink(b, t)] && a.priority == 2000 && b.priority == 0xFFFF_FFFF
    requires a.nodeId != b.nodeId && p.active != Some(b.nodeId)
    requires probe(0) == Ok(ProbeSample(0, false, 0)) && probe(1) == Ok(ProbeSample(0, true, 0))
    ensures var (q, e) := MaybeSwitch(Tick(p, probe));
            && |q.links| == 2 && q.active == Some(b.nodeId) && q.links[0].meta == a && q.links[1].meta == b
            && RawScore(q.links[0]) < RawScore(q.links[1]) && Score(q.links[1]) < Score(q.links[0])
            && q.links[0].timeouts == 0 && q.links[1].timeouts == 1
  {
    var q := Tick(p, probe);
    var lb := ReadyLink(b, t).(timeouts := 1, failures := 1, lastProbe := Some(ProbeSample(0, true, 0)));
    assert TickLink(ReadyLink(a, t), probe(0)) == ReadyLink(a, t) && TickLink(ReadyLink(b, t), probe(1)) == lb;
    assert q.links == [ReadyLink(a, t), lb];
    assert Score(ReadyLink(a, t)) == 2000 && Score(lb) == 1099;
    assert ChooseActive(q.links, 1) == Some(0);
    assert ChooseActive(q.links, 2) == Some(1);
  }

  function ReadyLink(m: NodeMeta, t: Ticket): LinkView {
    FreshLink(m).(client := ClientView(Some(m), Some(t), true, false))
  }

  lemma WarmTwo(p: PoolView, a: NodeMeta, b: NodeMeta, t: Ticket, ok: nat -> bool)
    requires a.transport.Udp? && b.transport.Udp? && Admits(t, a) && Admits(t, b) && ok(0) && ok(1)
    requires p.links == [FreshLink(a), FreshLink(b)] && p.ticket == Some(t)
    requires a.priority < b.priority < U32_MODULUS
    ensures var q := WarmUp(p, 2, ok).0; q.links == [ReadyLink(a, t), ReadyLink(b, t)] && q.active == Some(a.nodeId)
  {
    var l0, l1, l2 := p.links, [ReadyLink(a, t), FreshLink(b)], [ReadyLink(a, t), ReadyLink(b, t)];
    assert EnsureReady(FreshLink(a), t, true) == (ReadyLink(a, t), None);
    assert EnsureReady(FreshLink(b), t, true) == (ReadyLink(b, t), None);
    assert l0[0 := ReadyLink(a, t)] == l1 && l1[1 := ReadyLink(b, t)] == l2;
    assert WarmLinks(l2, 2, 2, t, ok) == (l2, None);
    assert WarmLinks(l1, 1, 2, t, ok) == (l2, None);
    assert WarmLinks(l0, 0, 2, t, ok) == (l2, None);
    assert ChooseActive(l2, 1) == Some(0);
    assert ChooseActive(l2, 2) == Some(0);
  }

  lemma RunFour(s: Trace, a: Op, b: Op, c: Op, d: Op)
    ensures Run(s, [a, b, c, d]) == Step(Step(Step(Step(s, a), b), c), d)
  {
    assert [a, b, c, d][1..] == [b, c, d] && [b, c, d][1..] == [c, d] && [c, d][1..] == [d] && [d][1..] == [];
    var s1 := Step(s, a);
    var s2 := Step(s1, b);
    var s3 := Step(s2, c);
    assert Run(s3, [d]) == Run(Step(s3, d), []);
    assert Run(s2, [c, d]) == Run(s3, [d]);
    assert Run(s1, [b, c, d]) == Run(s2, [c, d]);
  }
}
