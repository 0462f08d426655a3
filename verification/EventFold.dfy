/** Folding control-channel events into the network map and the connect plans. */
module EventFold {
  import opened Common

  /** `details` stands for the peer fields the fold copies without looking at them. */
  datatype Peer = Peer(nodeId: string, deviceId: string, virtualIps: seq<string>, details: string)

  datatype Plan = Plan(peerNodeId: string, details: string)

  datatype DeviceIp = DeviceIp(networkId: string, deviceId: string, virtualIp: string)

  datatype Event =
    | PeerUpdate(revision: nat, peer: Peer)
    | PeerRemove(revision: nat, nodeId: string)
    | ConnectPlan(plan: Plan)
    | RestartRequired
    | DeviceIpReassigned(update: DeviceIp)
    | ActiveNetworkEnabled(networkId: string)

  datatype State = State(networkId: string, revision: nat, peers: seq<Peer>, plans: map<string, Plan>,
                         ipUpdates: seq<DeviceIp>, enabled: Option<string>)

  // ---------------------------------------------------------------- one event

  /** Replace the first peer of the same node, or append. */
  function Upsert(peers: seq<Peer>, p: Peer): seq<Peer> {
    if peers == [] then [p]
    else if peers[0].nodeId == p.nodeId then [p] + peers[1..]
    else [peers[0]] + Upsert(peers[1..], p)
  }

  /** Keep the peers of other nodes. */
  function Without(peers: seq<Peer>, id: string): seq<Peer> {
    if peers == [] then []
    else if peers[0].nodeId == id then Without(peers[1..], id)
    else [peers[0]] + Without(peers[1..], id)
  }

  function Readdress(p: Peer, u: DeviceIp): Peer {
    if p.deviceId == u.deviceId then p.(virtualIps := [u.virtualIp]) else p
  }

  function ReaddressAll(peers: seq<Peer>, u: DeviceIp): seq<Peer> {
    if peers == [] then [] else [Readdress(peers[0], u)] + ReaddressAll(peers[1..], u)
  }

  /** `apply_control_ws_event`. */
  function Apply(s: State, e: Event): State {
    match e
    case PeerUpdate(r, p) => s.(revision := Max(s.revision, r), peers := Upsert(s.peers, p))
    case PeerRemove(r, id) => s.(revision := Max(s.revision, r), peers := Without(s.peers, id), plans := s.plans - {id})
    case ConnectPlan(plan) => s.(plans := s.plans[plan.peerNodeId := plan])
    case RestartRequired => s
    case DeviceIpReassigned(u) =>
      s.(peers := if u.networkId == s.networkId then ReaddressAll(s.peers, u) else s.peers, ipUpdates := s.ipUpdates + [u])
    case ActiveNetworkEnabled(n) => s.(enabled := Some(n))
  }

  function Fold(s: State, es: seq<Event>): State {
    if es == [] then s else Apply(Fold(s, es[..|es| - 1]), es[|es| - 1])
  }

  // ---------------------------------------------------------------- the view of one node

  function Lookup(peers: seq<Peer>, id: string): Option<Peer> {
    if peers == [] then None else if peers[0].nodeId == id then Some(peers[0]) else Lookup(peers[1..], id)
  }

  ghost predicate UniqueIds(peers: seq<Peer>) {
    forall i, j :: 0 <= i < j < |peers| ==> peers[i].nodeId != peers[j].nodeId
  }

  predicate WritesPeer(e: Event, n: string) { (e.PeerUpdate? && e.peer.nodeId == n) || (e.PeerRemove? && e.nodeId == n) }

  predicate WritesPlan(e: Event, n: string) { (e.ConnectPlan? && e.plan.peerNodeId == n) || (e.PeerRemove? && e.nodeId == n) }

  /** What an event does to one node's peer. */
  function PeerStep(o: Option<Peer>, e: Event, network: string, n: string): Option<Peer> {
    if e.PeerUpdate? && e.peer.nodeId == n then Some(e.peer)
    else if e.PeerRemove? && e.nodeId == n then None
    else if e.DeviceIpReassigned? && e.update.networkId == network && o.Some? then Some(Readdress(o.value, e.update))
    else o
  }

  function PeerFold(o: Option<Peer>, es: seq<Event>, network: string, n: string): Option<Peer> {
    if es == [] then o else PeerStep(PeerFold(o, es[..|es| - 1], network, n), es[|es| - 1], network, n)
  }

  function PlanFold(o: Option<Plan>, es: seq<Event>, n: string): Option<Plan> {
    if es == [] then o
    else
      var e := es[|es| - 1];
      if e.ConnectPlan? && e.plan.peerNodeId == n then Some(e.plan)
      else if e.PeerRemove? && e.nodeId == n then None
      else PlanFold(o, es[..|es| - 1], n)
  }

  function Revision(e: Event): nat { if e.PeerUpdate? || e.PeerRemove? then e.revision else 0 }

  function MaxRevision(es: seq<Event>): nat {
    if es == [] then 0 else Max(MaxRevision(es[..|es| - 1]), Revision(es[|es| - 1]))
  }

  function PlanOf(plans: map<string, Plan>, n: string): Option<Plan> { if n in plans then Some(plans[n]) else None }

  lemma {:induction false} UpsertKeeps(peers: seq<Peer>, p: Peer)
    ensures forall n :: Lookup(Upsert(peers, p), n) == if n == p.nodeId then Some(p) else Lookup(peers, n)
    ensures UniqueIds(peers) ==> UniqueIds(Upsert(peers, p))
    ensures forall q :: q in Upsert(peers, p) ==> q == p || q in peers
  {
    if peers == [] {
    } else if peers[0].nodeId == p.nodeId {
      assert UniqueIds(peers) ==> UniqueIds(Upsert(peers, p)) by {
        assert forall i :: 0 < i < |peers| ==> Upsert(peers, p)[i] == peers[i];
      }
    } else {
      UpsertKeeps(peers[1..], p);
      UniqueCons(peers[0], peers[1..]);
      UniqueCons(peers[0], Upsert(peers[1..], p));
      assert peers == [peers[0]] + peers[1..];
    }
  }

  lemma UniqueCons(p: Peer, peers: seq<Peer>)
    ensures UniqueIds([p] + peers) <==> UniqueIds(peers) && forall q :: q in peers ==> q.nodeId != p.nodeId
  {
    var all := [p] + peers;
    assert forall i :: 0 <= i < |peers| ==> all[i + 1] == peers[i];
    if UniqueIds(all) {
      forall i, j | 0 <= i < j < |peers| ensures peers[i].nodeId != peers[j].nodeId {
        assert all[i + 1].nodeId != all[j + 1].nodeId;
      }
      forall q | q in peers ensures q.nodeId != p.nodeId {
        var i :| 0 <= i < |peers| && peers[i] == q;
        assert all[0].nodeId != all[i + 1].nodeId;
      }
    }
  }

  lemma {:induction false} WithoutKeeps(peers: seq<Peer>, id: string)
    ensures forall n :: Lookup(Without(peers, id), n) == if n == id then None else Lookup(peers, n)
    ensures UniqueIds(peers) ==> UniqueIds(Without(peers, id))
    ensures forall q :: q in Without(peers, id) ==> q in peers
  {
    if peers != [] {
      WithoutKeeps(peers[1..], id);
      UniqueCons(peers[0], peers[1..]);
      UniqueCons(peers[0], Without(peers[1..], id));
      assert peers == [peers[0]] + peers[1..];
    }
  }

  lemma {:induction false} ReaddressKeeps(peers: seq<Peer>, u: DeviceIp)
    ensures forall n :: Lookup(ReaddressAll(peers, u), n) ==
                        if Lookup(peers, n).Some? then Some(Readdress(Lookup(peers, n).value, u)) else None
    ensures |ReaddressAll(peers, u)| == |peers|
    ensures forall i :: 0 <= i < |peers| ==> ReaddressAll(peers, u)[i] == Readdress(peers[i], u)
  {
    if peers != [] {
      ReaddressKeeps(peers[1..], u);
    }
  }

  lemma ApplyNodewise(s: State, e: Event)
    requires UniqueIds(s.peers)
    ensures UniqueIds(Apply(s, e).peers) && Apply(s, e).networkId == s.networkId
    ensures forall n :: Lookup(Apply(s, e).peers, n) == PeerStep(Lookup(s.peers, n), e, s.networkId, n)
  {
    match e
    case PeerUpdate(_, p) => UpsertKeeps(s.peers, p);
    case PeerRemove(_, id) => WithoutKeeps(s.peers, id);
    case DeviceIpReassigned(u) => ReaddressKeeps(s.peers, u);
    case _ =>
  }

  /** The fold works node by node: node ids stay unique, each node's peer and plan is the fold of the events that
      concern it, and the revision is the largest seen, so it never decreases. */
  lemma {:induction false} FoldIsNodewise(s: State, es: seq<Event>)
    requires UniqueIds(s.peers)
    ensures var t := Fold(s, es);
            && UniqueIds(t.peers) && t.networkId == s.networkId
            && (forall n :: Lookup(t.peers, n) == PeerFold(Lookup(s.peers, n), es, s.networkId, n))
            && (forall n :: PlanOf(t.plans, n) == PlanFold(PlanOf(s.plans, n), es, n))
            && t.revision == Max(s.revision, MaxRevision(es))
  {
    if es != [] {
      var front := es[..|es| - 1];
      FoldIsNodewise(s, front);
      ApplyNodewise(Fold(s, front), es[|es| - 1]);
    }
  }

  // ---------------------------------------------------------------- what the fold collects

  /** The address events, in order of arrival, of whatever network they are. */
  function AddressEvents(es: seq<Event>): seq<DeviceIp> {
    if es == [] then []
    else if es[0].DeviceIpReassigned? then [es[0].update] + AddressEvents(es[1..])
    else AddressEvents(es[1..])
  }

  /** The network last enabled, if any was. */
  function LastEnabled(es: seq<Event>): Option<string> {
    if es == [] then None
    else if LastEnabled(es[1..]).Some? then LastEnabled(es[1..])
    else if es[0].ActiveNetworkEnabled? then Some(es[0].networkId) else None
  }

  lemma {:induction false} AddressEventsSnoc(es: seq<Event>, e: Event)
    ensures AddressEvents(es + [e]) == AddressEvents(es) + if e.DeviceIpReassigned? then [e.update] else []
    ensures LastEnabled(es + [e]) == if e.ActiveNetworkEnabled? then Some(e.networkId) else LastEnabled(es)
  {
    if es == [] {
      assert [] + [e] == [e] && [e][1..] == [];
    } else {
      AddressEventsSnoc(es[1..], e);
      assert (es + [e])[1..] == es[1..] + [e];
    }
  }

  /** A fold hands on every address event in order, also those of other networks, and the last network enabled. */
  lemma {:induction false} FoldCollects(s: State, es: seq<Event>)
    ensures Fold(s, es).ipUpdates == s.ipUpdates + AddressEvents(es)
    ensures Fold(s, es).enabled == if LastEnabled(es).Some? then LastEnabled(es) else s.enabled
  {
    if es != [] {
      var front, e := es[..|es| - 1], es[|es| - 1];
      FoldCollects(s, front);
      AddressEventsSnoc(front, e);
      assert es == front + [e];
    }
  }

  // ---------------------------------------------------------------- last writer wins

  /** Two states a reader of the map cannot tell apart: same peer of every node, same plans, same revision. */
  ghost predicate SameView(s: State, t: State) {
    s.revision == t.revision && s.plans == t.plans && forall n :: Lookup(s.peers, n) == Lookup(t.peers, n)
  }

  /** A node's last update or remove, without its revision. */
  function LastWrite(es: seq<Event>, n: string): Option<Event> {
    if es == [] then None
    else
      var e := es[|es| - 1];
      if WritesPeer(e, n) then Some(e.(revision := 0)) else LastWrite(es[..|es| - 1], n)
  }

  predicate Moves(e: Event, network: string, device: string) {
    e.DeviceIpReassigned? && e.update.networkId == network && e.update.deviceId == device
  }

  /** The last address this network gave the device after the node's last update or remove. */
  function LastAddress(es: seq<Event>, n: string, network: string, device: string): Option<string> {
    if es == [] then None
    else
      var e := es[|es| - 1];
      if WritesPeer(e, n) then None
      else if Moves(e, network, device) then Some(e.update.virtualIp)
      else LastAddress(es[..|es| - 1], n, network, device)
  }

  /** The peer as last written, before any address change. */
  function Base(o: Option<Peer>, es: seq<Event>, n: string): Option<Peer> {
    match LastWrite(es, n)
    case None => o
    case Some(e) => if e.PeerUpdate? then Some(e.peer) else None
  }

  /** The peer as last written, at the last address its device got since. */
  function Settled(o: Option<Peer>, es: seq<Event>, network: string, n: string): Option<Peer> {
    match Base(o, es, n)
    case None => None
    case Some(p) =>
      match LastAddress(es, n, network, p.deviceId)
      case None => Some(p)
      case Some(ip) => Some(p.(virtualIps := [ip]))
  }

  /** A node's last plan or remove, without its revision. */
  function PlanTail(es: seq<Event>, n: string): Option<Event> {
    if es == [] then None
    else
      var e := es[|es| - 1];
      if WritesPlan(e, n) then Some(if e.PeerRemove? then e.(revision := 0) else e) else PlanTail(es[..|es| - 1], n)
  }

  /** Only the last write and the last address after it decide. */
  lemma {:induction false} LastDecides(o: Option<Peer>, es: seq<Event>, network: string, n: string)
    ensures PeerFold(o, es, network, n) == Settled(o, es, network, n)
  {
    if es != [] {
      LastDecides(o, es[..|es| - 1], network, n);
    }
  }

  lemma {:induction false} PlanTailDecides(o: Option<Plan>, es: seq<Event>, n: string)
    ensures PlanFold(o, es, n) ==
            match PlanTail(es, n) case None => o case Some(e) => if e.ConnectPlan? then Some(e.plan) else None
  {
    if es != [] {
      PlanTailDecides(o, es[..|es| - 1], n);
    }
  }

  ghost predicate Written(es: seq<Event>, n: string) {
    exists i :: 0 <= i < |es| && (WritesPeer(es[i], n) || WritesPlan(es[i], n))
  }

  /** The node is in the map, or some event of either sequence writes its peer or plan. */
  ghost predicate Occurs(s: State, es: seq<Event>, fs: seq<Event>, n: string) {
    Lookup(s.peers, n).Some? || Written(es, n) || Written(fs, n)
  }

  /** The same last write, the same last plan, and for a peer that is there the same last address of its device. */
  predicate AgreeOn(s: State, es: seq<Event>, fs: seq<Event>, n: string) {
    && LastWrite(es, n) == LastWrite(fs, n) && PlanTail(es, n) == PlanTail(fs, n)
    && match Base(Lookup(s.peers, n), es, n)
       case None => true
       case Some(p) => LastAddress(es, n, s.networkId, p.deviceId) == LastAddress(fs, n, s.networkId, p.deviceId)
  }

  lemma {:induction false} UnwrittenHasNoLast(es: seq<Event>, n: string)
    requires !Written(es, n)
    ensures LastWrite(es, n).None? && PlanTail(es, n).None?
  {
    if es != [] {
      UnwrittenHasNoLast(es[..|es| - 1], n);
    }
  }

  /** Folding is last-writer-wins per node: sequences that agree, for each node that occurs, on its last update or
      remove, the last address of its device since, and its last plan or remove, and that agree on the largest
      revision, give the same view. */
  lemma LastWriterWins(s: State, es: seq<Event>, fs: seq<Event>)
    requires UniqueIds(s.peers)
    requires forall n :: Occurs(s, es, fs, n) ==> AgreeOn(s, es, fs, n)
    requires MaxRevision(es) == MaxRevision(fs)
    ensures SameView(Fold(s, es), Fold(s, fs))
  {
    FoldIsNodewise(s, es);
    FoldIsNodewise(s, fs);
    var t, u := Fold(s, es), Fold(s, fs);
    forall n ensures Lookup(t.peers, n) == Lookup(u.peers, n) && PlanOf(t.plans, n) == PlanOf(u.plans, n) {
      if !Occurs(s, es, fs, n) {
        UnwrittenHasNoLast(es, n);
        UnwrittenHasNoLast(fs, n);
      }
      LastDecides(Lookup(s.peers, n), es, s.networkId, n);
      LastDecides(Lookup(s.peers, n), fs, s.networkId, n);
      PlanTailDecides(PlanOf(s.plans, n), es, n);
      PlanTailDecides(PlanOf(s.plans, n), fs, n);
    }
    SamePlans(t.plans, u.plans);
  }

  lemma SamePlans(a: map<string, Plan>, b: map<string, Plan>)
    requires forall n :: PlanOf(a, n) == PlanOf(b, n)
    ensures a == b
  {
    assert forall n :: n in a ==> PlanOf(b, n) == Some(a[n]);
    assert forall n :: n in b ==> PlanOf(a, n) == Some(b[n]);
  }

  // ---------------------------------------------------------------- redelivery

  lemma FoldSnoc(s: State, es: seq<Event>, e: Event)
    ensures Fold(s, es + [e]) == Apply(Fold(s, es), e)
  {
    assert (es + [e])[..|es|] == es;
  }

  lemma {:induction false} FoldAppend(s: State, es: seq<Event>, fs: seq<Event>)
    ensures Fold(s, es + fs) == Fold(Fold(s, es), fs)
    decreases |fs|
  {
    if fs == [] {
      assert es + fs == es;
    } else {
      var front := fs[..|fs| - 1];
      FoldAppend(s, es, front);
      assert (es + fs)[..|es + fs| - 1] == es + front;
    }
  }

  /** What came after the event left its node as it says. An update: the last write, at the last address since, is the
      same peer. A remove: neither the last write nor the last plan brought the node back. A plan: it is the last one. */
  predicate StillCurrent(e: Event, mid: seq<Event>, network: string) {
    match e
    case PeerUpdate(_, p) => Settled(Some(p), mid, network, p.nodeId) == Some(p)
    case PeerRemove(_, id) =>
      && (LastWrite(mid, id).None? || LastWrite(mid, id).value.PeerRemove?)
      && (PlanTail(mid, id).None? || PlanTail(mid, id).value.PeerRemove?)
    case ConnectPlan(plan) => PlanTail(mid, plan.peerNodeId).None? || PlanTail(mid, plan.peerNodeId) == Some(e)
    case _ => true
  }

  lemma {:induction false} RevisionGrows(s: State, es: seq<Event>)
    ensures Fold(s, es).revision >= s.revision
  {
    if es != [] {
      RevisionGrows(s, es[..|es| - 1]);
    }
  }

  /** The state already says what the event says. */
  predicate Says(s: State, e: Event) {
    match e
    case PeerUpdate(_, p) => Lookup(s.peers, p.nodeId) == Some(p)
    case PeerRemove(_, id) => Lookup(s.peers, id) == None && PlanOf(s.plans, id) == None
    case ConnectPlan(plan) => PlanOf(s.plans, plan.peerNodeId) == Some(plan)
    case _ => true
  }

  lemma ReapplyExact(s: State, e: Event)
    requires UniqueIds(s.peers) && s.revision >= Revision(e) && (e.PeerUpdate? || e.PeerRemove? || e.ConnectPlan?)
    ensures SameView(Apply(s, e), s) <==> Says(s, e)
  {
    ApplyNodewise(s, e);
    if e.PeerUpdate? {
      assert Lookup(Apply(s, e).peers, e.peer.nodeId) == Some(e.peer);
    } else if e.PeerRemove? {
      assert Lookup(Apply(s, e).peers, e.nodeId) == None;
    }
  }

  /** A redelivered update, remove or plan is harmless exactly when the events applied since its first delivery
      left its node as it says. */
  lemma RedeliveryExact(s: State, e: Event, mid: seq<Event>)
    requires UniqueIds(s.peers) && (e.PeerUpdate? || e.PeerRemove? || e.ConnectPlan?)
    ensures SameView(Fold(s, [e] + mid + [e]), Fold(s, [e] + mid)) <==> StillCurrent(e, mid, s.networkId)
  {
    var s1 := Apply(s, e);
    FoldSnoc(s, [], e);
    assert [] + [e] == [e];
    FoldAppend(s, [e], mid);
    FoldSnoc(s, [e] + mid, e);
    ApplyNodewise(s, e);
    FoldIsNodewise(s1, mid);
    RevisionGrows(s1, mid);
    ReapplyExact(Fold(s1, mid), e);
    assert Says(s1, e);
    var n := Subject(e);
    LastDecides(Lookup(s1.peers, n), mid, s.networkId, n);
    PlanTailDecides(PlanOf(s1.plans, n), mid, n);
    LastsAreWrites(mid, n);
  }

  function Subject(e: Event): string {
    match e
    case PeerUpdate(_, p) => p.nodeId
    case PeerRemove(_, id) => id
    case ConnectPlan(plan) => plan.peerNodeId
    case _ => ""
  }

  lemma {:induction false} LastsAreWrites(es: seq<Event>, n: string)
    ensures PlanTail(es, n).Some? ==> WritesPlan(PlanTail(es, n).value, n)
    ensures LastWrite(es, n).Some? ==> WritesPeer(LastWrite(es, n).value, n)
  {
    if es != [] {
      LastsAreWrites(es[..|es| - 1], n);
    }
  }

  /** The event writes what `e` wrote, or moves the device of the peer it wrote. */
  predicate Touches(f: Event, e: Event, network: string) {
    match e
    case PeerUpdate(_, p) => WritesPeer(f, p.nodeId) || Moves(f, network, p.deviceId)
    case PeerRemove(_, id) => WritesPeer(f, id) || WritesPlan(f, id)
    case ConnectPlan(plan) => WritesPlan(f, plan.peerNodeId)
    case _ => false
  }

  /** In particular nothing is lost when no event since touched the node. */
  lemma UntouchedIsCurrent(e: Event, mid: seq<Event>, network: string)
    requires forall i :: 0 <= i < |mid| ==> !Touches(mid[i], e, network)
    ensures StillCurrent(e, mid, network)
  {
    UntouchedHasNoLast(e, mid, network);
  }

  lemma {:induction false} UntouchedHasNoLast(e: Event, mid: seq<Event>, network: string)
    requires forall i :: 0 <= i < |mid| ==> !Touches(mid[i], e, network)
    ensures e.PeerUpdate? ==>
              LastWrite(mid, e.peer.nodeId).None? && LastAddress(mid, e.peer.nodeId, network, e.peer.deviceId).None?
    ensures e.PeerRemove? ==> LastWrite(mid, e.nodeId).None? && PlanTail(mid, e.nodeId).None?
    ensures e.ConnectPlan? ==> PlanTail(mid, e.plan.peerNodeId).None?
    decreases |mid|
  {
    if mid != [] {
      UntouchedHasNoLast(e, mid[..|mid| - 1], network);
    }
  }

  /** `i` is the first place of the node id, or the end. */
  lemma {:induction false} UpsertAt(peers: seq<Peer>, p: Peer, i: nat)
    requires i <= |peers| && forall k :: 0 <= k < i ==> peers[k].nodeId != p.nodeId
    requires i < |peers| ==> peers[i].nodeId == p.nodeId
    ensures Upsert(peers, p) == if i < |peers| then peers[i := p] else peers + [p]
  {
    if i > 0 {
      UpsertAt(peers[1..], p, i - 1);
      assert peers == [peers[0]] + peers[1..];
    }
  }

  // ---------------------------------------------------------------- in place

  /** The map and plans that `apply_control_ws_event` mutates through its arguments. */
  class ControlState {
    var networkId: string
    var revision: nat
    var peers: seq<Peer>
    var plans: map<string, Plan>
    var ipUpdates: seq<DeviceIp>
    var enabled: Option<string>

    function View(): State
      reads this
    {
      State(networkId, revision, peers, plans, ipUpdates, enabled)
    }

    constructor (networkId: string, revision: nat, peers: seq<Peer>)
      ensures View() == State(networkId, revision, peers, map[], [], None)
    {
      this.networkId, this.revision, this.peers := networkId, revision, peers;
      plans, ipUpdates, enabled := map[], [], None;
    }

    method ApplyEvent(e: Event)
      modifies this
      ensures View() == Apply(old(View()), e)
    {
      match e {
        case PeerUpdate(r, p) =>
          revision := Max(revision, r);
          UpdatePeer(p);
        case PeerRemove(r, id) =>
          revision := Max(revision, r);
          RetainOthers(id);
          plans := plans - {id};
        case ConnectPlan(plan) =>
          plans := plans[plan.peerNodeId := plan];
        case RestartRequired =>
        case DeviceIpReassigned(u) =>
          if u.networkId == networkId {
            ReaddressDevice(u);
          }
          ipUpdates := ipUpdates + [u];
        case ActiveNetworkEnabled(n) =>
          enabled := Some(n);
      }
    }

    method UpdatePeer(p: Peer)
      modifies this`peers
      ensures peers == Upsert(old(peers), p)
    {
      var i := 0;
      while i < |peers| && peers[i].nodeId != p.nodeId
        invariant 0 <= i <= |peers| && forall k :: 0 <= k < i ==> peers[k].nodeId != p.nodeId
      {
        i := i + 1;
      }
      UpsertAt(peers, p, i);
      if i < |peers| {
        peers := peers[i := p];
      } else {
        peers := peers + [p];
      }
    }

    method RetainOthers(id: string)
      modifies this`peers
      ensures peers == Without(old(peers), id)
    {
      var kept: seq<Peer> := [];
      for i := 0 to |peers|
        invariant kept + Without(peers[i..], id) == Without(peers, id)
      {
        assert peers[i..][1..] == peers[i + 1..];
        if peers[i].nodeId != id {
          assert kept + ([peers[i]] + Without(peers[i + 1..], id)) == kept + [peers[i]] + Without(peers[i + 1..], id);
          kept := kept + [peers[i]];
        }
      }
      assert peers[|peers|..] == [];
      peers := kept;
    }

    method ReaddressDevice(u: DeviceIp)
      modifies this`peers
      ensures peers == ReaddressAll(old(peers), u)
    {
      ReaddressKeeps(peers, u);
      for i := 0 to |peers|
        invariant |peers| == |old(peers)|
        invariant forall k :: 0 <= k < i ==> peers[k] == Readdress(old(peers)[k], u)
        invariant forall k :: i <= k < |peers| ==> peers[k] == old(peers)[k]
      {
        if peers[i].deviceId == u.deviceId {
          peers := peers[i := peers[i].(virtualIps := [u.virtualIp])];
        }
      }
    }
  }
}
