/** The facade's tunnel tracker, snapshot and path manager through connect, control sync and disconnect.
    Outcomes of the network, the key provider and the tunnel backend are inputs; a failed tunnel call changes nothing. */
module Facade {
  import opened Common

  datatype PathKind = PathP2P | PathRelay | PathDerp

  datatype ActivePath = NoPath | P2P(peer: string) | Relay(peer: string) | Derp(cluster: string, node: string)

  datatype ConnectionState = Disconnected | Connecting | Connected(path: PathKind) | Failed(reason: string)

  datatype Peer = Peer(nodeId: string, virtualIps: seq<string>, relayAllowed: bool, endpoints: seq<string>, publicKey: string)

  datatype TunnelConfig = TunnelConfig(transport: PathKind, localIp: string, peerIp: string, publicKey: string,
                                       endpoint: Option<string>)

  datatype TunnelRuntime = TunnelRuntime(transport: PathKind, peerIp: string, publicKey: string, endpoint: Option<string>)

  datatype Snapshot = Snapshot(connection: Option<ConnectionState>, path: Option<ActivePath>,
                               tunnelIp: Option<string>, runtime: Option<TunnelRuntime>)

  /** The DERP pool's active link, as `active_link` reports it. */
  datatype Link = Link(cluster: string, node: string)

  /** `tracker` is the tracked tunnel peer, `established` the backend's peers with the configuration
      each was given, `path` the path manager's active path. */
  datatype State = State(snapshot: Snapshot, tracker: Option<string>, established: map<string, TunnelConfig>,
                         path: ActivePath, link: Option<Link>)

  const FRESH := State(Snapshot(None, None, None, None), None, map[], NoPath, None)

  // ---------------------------------------------------------------- pure helpers

  /** `connection_state_from_active_path`. */
  function Derived(p: ActivePath): ConnectionState {
    match p
    case NoPath => Disconnected
    case P2P(_) => Connected(PathP2P)
    case Relay(_) => Connected(PathRelay)
    case Derp(_, _) => Connected(PathDerp)
  }

  /** `build_tunnel_config`: no path, no local address or no peer address means no tunnel. */
  function BuildConfig(p: ActivePath, localIp: Option<string>, peer: Peer): Option<TunnelConfig> {
    if p.NoPath? || localIp.None? || peer.virtualIps == [] then None
    else Some(TunnelConfig(Derived(p).path, localIp.value, peer.virtualIps[0], peer.publicKey,
                           if peer.endpoints == [] then None else Some(peer.endpoints[0])))
  }

  function BuildRuntime(c: TunnelConfig): TunnelRuntime { TunnelRuntime(c.transport, c.peerIp, c.publicKey, c.endpoint) }

  function IpOf(c: Option<TunnelConfig>): Option<string> { if c.None? then None else Some(c.value.peerIp) }

  function RuntimeOf(c: Option<TunnelConfig>): Option<TunnelRuntime> { if c.None? then None else Some(BuildRuntime(c.value)) }

  // ---------------------------------------------------------------- tunnels

  /** What the backend answers to one close and one establish call. */
  datatype Backend = Backend(closeOk: bool, establishOk: bool)

  /** `replace_tunnel`: close a different tunnel, then establish the wanted one unless it is there. */
  function ReplaceTunnel(s: State, config: Option<TunnelConfig>, b: Backend): (State, bool) {
    var wanted := IpOf(config);
    var mustClose := s.tracker.Some? && s.tracker != wanted;
    if mustClose && !b.closeOk then (s, false)
    else
      var s1 := if mustClose then s.(tracker := None, established := s.established - {s.tracker.value}) else s;
      if wanted.None? || s1.tracker == wanted then (s1, true)
      else if !b.establishOk then (s1, false)
      else (s1.(tracker := wanted, established := s1.established[wanted.value := config.value]), true)
  }

  /** `finalize_connected_path`: the snapshot is written only when the tunnel could be replaced. */
  function Finalize(s: State, connection: ConnectionState, p: ActivePath, config: Option<TunnelConfig>, b: Backend)
    : (State, bool)
  {
    var (s1, ok) := ReplaceTunnel(s, config, b);
    if !ok then (s1, false)
    else (s1.(snapshot := Snapshot(Some(connection), Some(p), s1.tracker, RuntimeOf(config))), true)
  }

  // ---------------------------------------------------------------- connect

  /** How installing and warming the DERP pool ends: in error, leaving whatever link is active, or with an
      active link. `RelayPool.WarmedPoolHasActiveLink` shows that a warmed pool has one. */
  datatype PoolOutcome = PoolFailed(left: Option<Link>) | PoolReady(link: Link)

  /** Everything a connect meets outside the facade. `pool` is None when the bootstrap names no cluster; `p2p` and
      `relay` are None when the attempt returns an error. */
  datatype World = World(localIp: Option<string>, p2p: Option<ConnectionState>, keyOk: bool, pool: Option<PoolOutcome>,
                         relay: Option<ConnectionState>, backend: Backend)

  /** `on_p2p_failed`: the pool's active link if there is one, else the relay. */
  function FallBack(s: State, peerId: string): State {
    s.(path := if s.link.Some? then Derp(s.link.value.cluster, s.link.value.node) else Relay(peerId))
  }

  /** The part of `connect` that chooses a path: it changes path and link only. False is an error return. */
  function Route(s: State, peer: Peer, w: World): (State, bool) {
    if peer.endpoints != [] && w.p2p.None? then (s, false)
    else if peer.endpoints != [] && w.p2p == Some(Connected(PathP2P)) then (s.(path := P2P(peer.nodeId)), true)
    else
      var s1 := if peer.endpoints != [] && w.p2p.value.Failed? then FallBack(s, peer.nodeId) else s;
      if !peer.relayAllowed then (s1, false)
      else match w.pool
        case Some(PoolFailed(left)) => (s1.(link := left), false)
        case Some(PoolReady(link)) => (FallBack(s1.(link := Some(link)), peer.nodeId), true)
        case None =>
          if w.relay.None? then (s1, false)
          else (if w.relay.value.Connected? && !w.relay.value.path.PathP2P? then FallBack(s1, peer.nodeId) else s1, true)
  }

  /** `connect` once the peer is found in the network map; None is an error return. */
  function Connect(s: State, peer: Peer, w: World): (State, Option<ConnectionState>) {
    var (s1, ok) := Route(s, peer, w);
    if !ok then (s1, None)
    else if s1.path.NoPath? then (s1.(snapshot := Snapshot(Some(Disconnected), Some(NoPath), None, None)), Some(Disconnected))
    else if !w.keyOk then (s1, None)
    else
      var (s2, done) := Finalize(s1, Derived(s1.path), s1.path, BuildConfig(s1.path, w.localIp, peer), w.backend);
      (s2, if done then Some(Derived(s1.path)) else None)
  }

  /** What a sync brings: the network map as it is now and as it was, the new address of the active peer's device if it
      got one, and whether this device got a new address. */
  datatype News = News(peers: seq<Peer>, previous: seq<Peer>, moved: Option<string>, selfMoved: bool)

  function Find(peers: seq<Peer>, id: string): (r: Option<Peer>)
    ensures r.Some? ==> r.value.nodeId == id && r.value in peers
  {
    if peers == [] then None else if peers[0].nodeId == id then Some(peers[0]) else Find(peers[1..], id)
  }

  /** The node a path names. */
  function Names(p: ActivePath): Option<string> {
    match p case P2P(id) => Some(id) case Relay(id) => Some(id) case _ => None
  }

  /** The peer whose tunnel is to be rebuilt: the one the stored path names, looked up in the new map and then in the old
      one, at its new address; none if no address changed. */
  function SyncPeer(s: State, news: News): (r: Option<Peer>)
    ensures r.Some? ==> s.snapshot.path.Some? && Names(s.snapshot.path.value) == Some(r.value.nodeId)
  {
    if s.snapshot.path.None? || Names(s.snapshot.path.value).None? || !(news.moved.Some? || news.selfMoved) then None
    else
      var id := Names(s.snapshot.path.value).value;
      var found := if Find(news.peers, id).Some? then Find(news.peers, id) else Find(news.previous, id);
      if found.Some? && news.moved.Some? then Some(found.value.(virtualIps := [news.moved.value])) else found
  }

  /** The tunnel part of `control_sync`: with a direct or relay path and changed addresses, rebuild the tunnel. */
  function SyncTunnel(s: State, news: News, localIp: Option<string>, keyOk: bool, b: Backend): (State, bool) {
    var peer := SyncPeer(s, news);
    if peer.None? then (s, true)
    else if !keyOk then (s, false)
    else
      var config := BuildConfig(s.snapshot.path.value, localIp, peer.value);
      if config.None? then (s, true)
      else
        var (s1, ok) := ReplaceTunnel(s, config, b);
        if !ok then (s1, false)
        else (s1.(snapshot := s1.snapshot.(tunnelIp := IpOf(config), runtime := RuntimeOf(config))), true)
  }

  /** `disconnect`: the tracker is emptied before the close is attempted, and a failed close leaves the snapshot as it was. */
  function Disconnect(s: State, closeOk: bool): (State, bool) {
    var s1 := s.(tracker := None);
    if s.tracker.Some? && !closeOk then (s1, false)
    else
      (s1.(established := if s.tracker.Some? then s.established - {s.tracker.value} else s.established,
           snapshot := Snapshot(Some(Disconnected), None, None, None)), true)
  }

  // ---------------------------------------------------------------- runs

  datatype Op =
    | OpConnect(peer: Peer, world: World)
    | OpSync(news: News, localIp: Option<string>, keyOk: bool, backend: Backend)
    | OpDisconnect(closeOk: bool)

  function Step(s: State, op: Op): State {
    match op
    case OpConnect(peer, w) => Connect(s, peer, w).0
    case OpSync(news, localIp, keyOk, b) => SyncTunnel(s, news, localIp, keyOk, b).0
    case OpDisconnect(closeOk) => Disconnect(s, closeOk).0
  }

  function Run(ops: seq<Op>): State {
    if ops == [] then FRESH else Step(Run(ops[..|ops| - 1]), ops[|ops| - 1])
  }

  // ---------------------------------------------------------------- the tracker and the backend

  predicate TunnelsMatch(s: State) { s.established.Keys == if s.tracker.Some? then {s.tracker.value} else {} }

  lemma ReplaceKeepsMatch(s: State, config: Option<TunnelConfig>, b: Backend)
    ensures var (s1, ok) := ReplaceTunnel(s, config, b);
            (TunnelsMatch(s) ==> TunnelsMatch(s1)) && (ok ==> s1.tracker == IpOf(config)) && s1.snapshot == s.snapshot
  {
  }

  lemma ConnectKeepsMatch(s: State, peer: Peer, w: World)
    requires TunnelsMatch(s)
    ensures TunnelsMatch(Connect(s, peer, w).0)
  {
    var s1 := Route(s, peer, w).0;
    ReplaceKeepsMatch(s1, BuildConfig(s1.path, w.localIp, peer), w.backend);
  }

  /** A disconnect whose close fails while a tunnel is tracked. */
  predicate FailedClose(s: State, op: Op) { op.OpDisconnect? && !op.closeOk && s.tracker.Some? }

  lemma StepMatchExact(s: State, op: Op)
    requires TunnelsMatch(s)
    ensures TunnelsMatch(Step(s, op)) <==> !FailedClose(s, op)
  {
    match op
    case OpConnect(peer, w) => ConnectKeepsMatch(s, peer, w);
    case OpSync(news, localIp, keyOk, b) =>
      var peer := SyncPeer(s, news);
      if peer.Some? {
        ReplaceKeepsMatch(s, BuildConfig(s.snapshot.path.value, localIp, peer.value), b);
      }
    case OpDisconnect(closeOk) =>
  }

  /** In every state of the run, the fresh one included, tracker and backend agree. */
  predicate AlwaysMatch(ops: seq<Op>) {
    TunnelsMatch(Run(ops)) && (ops != [] ==> AlwaysMatch(ops[..|ops| - 1]))
  }

  predicate NoFailedClose(ops: seq<Op>) {
    ops != [] ==> NoFailedClose(ops[..|ops| - 1]) && !FailedClose(Run(ops[..|ops| - 1]), ops[|ops| - 1])
  }

  /** The backend's peers are the tracked one in every state of a run, whatever fails inside tunnel replacement,
      exactly when no disconnect with a tracked tunnel has its own close fail. */
  lemma {:induction false} TunnelsMatchExactly(ops: seq<Op>)
    ensures AlwaysMatch(ops) <==> NoFailedClose(ops)
  {
    if ops != [] {
      var front := ops[..|ops| - 1];
      TunnelsMatchExactly(front);
      if TunnelsMatch(Run(front)) {
        StepMatchExact(Run(front), ops[|ops| - 1]);
      }
    }
  }

  // ---------------------------------------------------------------- the snapshot

  /** The connection state is the one derived from the path, the tunnel address is the runtime's, and a tunnel
      runs over the path's own kind of transport. */
  predicate Coherent(s: Snapshot) {
    && (if s.path.None? then s.connection.None? || s.connection == Some(Disconnected)
        else s.connection == Some(Derived(s.path.value)))
    && s.tunnelIp == (if s.runtime.None? then None else Some(s.runtime.value.peerIp))
    && (s.runtime.Some? ==> s.connection == Some(Connected(s.runtime.value.transport)))
  }

  /** A connect keeps the snapshot coherent; when it returns Ok it returns the stored connection state, and an
      error leaves the snapshot as it was. */
  lemma ConnectCoherent(s: State, peer: Peer, w: World)
    requires Coherent(s.snapshot)
    ensures var (s1, r) := Connect(s, peer, w);
            && Coherent(s1.snapshot)
            && (r.Some? ==> s1.snapshot.connection == r && s1.snapshot.path == Some(s1.path))
            && (r.None? ==> s1.snapshot == s.snapshot)
  {
    var s1 := Route(s, peer, w).0;
    ReplaceKeepsMatch(s1, BuildConfig(s1.path, w.localIp, peer), w.backend);
  }

  /** In every reachable state, after successful and failed operations alike, the snapshot is coherent. */
  lemma {:induction false} SnapshotAlwaysCoherent(ops: seq<Op>)
    ensures Coherent(Run(ops).snapshot)
  {
    if ops != [] {
      SnapshotAlwaysCoherent(ops[..|ops| - 1]);
      var s, op := Run(ops[..|ops| - 1]), ops[|ops| - 1];
      match op
      case OpConnect(peer, w) => ConnectCoherent(s, peer, w);
      case OpSync(news, localIp, keyOk, b) =>
        var peer := SyncPeer(s, news);
        if peer.Some? {
          ReplaceKeepsMatch(s, BuildConfig(s.snapshot.path.value, localIp, peer.value), b);
        }
      case OpDisconnect(closeOk) =>
    }
  }

  // ---------------------------------------------------------------- the snapshot and the tracker

  /** The close of the old tunnel succeeds and the establish of the new one fails. */
  predicate LosesTunnel(s: State, config: Option<TunnelConfig>, b: Backend) {
    s.tracker.Some? && config.Some? && s.tracker.value != config.value.peerIp && b.closeOk && !b.establishOk
  }

  /** The operations after which the snapshot's tunnel address is not the tracked one: a tunnel lost in replacement, a
      connect that ends without a path, and a disconnect whose close fails. */
  predicate Diverges(s: State, op: Op) {
    match op
    case OpConnect(peer, w) =>
      var (s1, routed) := Route(s, peer, w);
      && routed
      && if s1.path.NoPath? then s.tracker.Some?
         else w.keyOk && LosesTunnel(s, BuildConfig(s1.path, w.localIp, peer), w.backend)
    case OpSync(news, localIp, keyOk, b) =>
      var peer := SyncPeer(s, news);
      peer.Some? && keyOk && LosesTunnel(s, BuildConfig(s.snapshot.path.value, localIp, peer.value), b)
    case OpDisconnect(closeOk) => FailedClose(s, op)
  }

  predicate AddressTracked(s: State) { s.snapshot.tunnelIp == s.tracker }

  lemma ReplaceTracksExactly(s: State, config: Option<TunnelConfig>, b: Backend)
    ensures var (s1, ok) := ReplaceTunnel(s, config, b);
            !ok ==> (s1.tracker == s.tracker <==> !LosesTunnel(s, config, b))
    ensures LosesTunnel(s, config, b) ==> !ReplaceTunnel(s, config, b).1
  {
  }

  lemma ConnectTracksExactly(s: State, peer: Peer, w: World)
    requires AddressTracked(s)
    ensures AddressTracked(Connect(s, peer, w).0) <==> !Diverges(s, OpConnect(peer, w))
  {
    var s1 := Route(s, peer, w).0;
    ReplaceKeepsMatch(s1, BuildConfig(s1.path, w.localIp, peer), w.backend);
    ReplaceTracksExactly(s1, BuildConfig(s1.path, w.localIp, peer), w.backend);
  }

  lemma SyncTracksExactly(s: State, news: News, localIp: Option<string>, keyOk: bool, b: Backend)
    requires AddressTracked(s)
    ensures AddressTracked(SyncTunnel(s, news, localIp, keyOk, b).0) <==> !Diverges(s, OpSync(news, localIp, keyOk, b))
  {
    var peer := SyncPeer(s, news);
    if peer.Some? {
      ReplaceKeepsMatch(s, BuildConfig(s.snapshot.path.value, localIp, peer.value), b);
      ReplaceTracksExactly(s, BuildConfig(s.snapshot.path.value, localIp, peer.value), b);
    }
  }

  lemma StepTracksExactly(s: State, op: Op)
    requires AddressTracked(s)
    ensures AddressTracked(Step(s, op)) <==> !Diverges(s, op)
  {
    match op
    case OpConnect(peer, w) => ConnectTracksExactly(s, peer, w);
    case OpSync(news, localIp, keyOk, b) => SyncTracksExactly(s, news, localIp, keyOk, b);
    case OpDisconnect(closeOk) =>
  }

  predicate AlwaysTracked(ops: seq<Op>) {
    AddressTracked(Run(ops)) && (ops != [] ==> AlwaysTracked(ops[..|ops| - 1]))
  }

  predicate NeverDiverges(ops: seq<Op>) {
    ops != [] ==> NeverDiverges(ops[..|ops| - 1]) && !Diverges(Run(ops[..|ops| - 1]), ops[|ops| - 1])
  }

  /** The snapshot's tunnel address is the tracked one in every state of a run exactly when no operation diverges. */
  lemma {:induction false} AddressTrackedExactly(ops: seq<Op>)
    ensures AlwaysTracked(ops) <==> NeverDiverges(ops)
  {
    if ops != [] {
      var front := ops[..|ops| - 1];
      AddressTrackedExactly(front);
      if AddressTracked(Run(front)) {
        StepTracksExactly(Run(front), ops[|ops| - 1]);
      }
    }
  }

  // ---------------------------------------------------------------- which transport is reported

  /** What the attempt that decided this connect reported: the direct connection, the pool's, or the relay's. */
  function Attempted(peer: Peer, w: World): ConnectionState {
    if Direct(peer, w) then Connected(PathP2P)
    else if w.pool.Some? then Connected(PathDerp)
    else if w.relay.Some? then w.relay.value else Disconnected
  }

  predicate Direct(peer: Peer, w: World) { peer.endpoints != [] && w.p2p == Some(Connected(PathP2P)) }

  /** The outcomes of `SocketP2PConnector` and `SocketRelayClient`, the connectors the repository ships. */
  predicate Shipped(w: World) {
    && (w.p2p.Some? ==> w.p2p.value == Connected(PathP2P) || w.p2p.value.Failed?)
    && (w.relay.Some? ==> w.relay.value == Connected(PathRelay))
  }

  /** The relay decides this connect while the pool still has an active link from an earlier one: the path manager
      looks at the pool, not at the attempt. */
  predicate RelayOverPool(s: State, peer: Peer, w: World) { !Direct(peer, w) && w.pool.None? && s.link.Some? }

  /** The path a connect keeps when its attempts do not make the manager choose: the old one, unless the direct
      attempt failed. */
  function KeptPath(s: State, peer: Peer, w: World): ActivePath {
    if peer.endpoints != [] && w.p2p.Some? && w.p2p.value.Failed? then FallBack(s, peer.nodeId).path else s.path
  }

  /** The attempt's own report is what the path manager makes of it. */
  predicate ReportHolds(s: State, peer: Peer, w: World) {
    || Direct(peer, w) || w.pool.Some?
    || match Attempted(peer, w)
       case Connected(PathRelay) => s.link.None?
       case Connected(PathDerp) => s.link.Some?
       case other => Derived(KeptPath(s, peer, w)) == other
  }

  /** A successful connect reports the transport it set up exactly when the manager's path is of that kind; with the
      connectors the repository ships, exactly when it does not use the relay over a pool that is still active. */
  lemma ReportedTransportExact(s: State, peer: Peer, w: World)
    requires Connect(s, peer, w).1.Some?
    ensures Connect(s, peer, w).1 == Some(Attempted(peer, w)) <==> ReportHolds(s, peer, w)
    ensures Shipped(w) ==> (Connect(s, peer, w).1 == Some(Attempted(peer, w)) <==> !RelayOverPool(s, peer, w))
    ensures Shipped(w) ==> var p := Connect(s, peer, w).0.path; p == P2P(peer.nodeId) || p == Relay(peer.nodeId) || p.Derp?
  {
    var s1 := Route(s, peer, w).0;
    ReplaceKeepsMatch(s1, BuildConfig(s1.path, w.localIp, peer), w.backend);
  }

  /** The connect gets as far as the pool. */
  predicate AsksPool(peer: Peer, w: World) {
    !Direct(peer, w) && (peer.endpoints != [] ==> w.p2p.Some?) && peer.relayAllowed && w.pool.Some?
  }

  /** The link that the last connect which asked the pool left active, for whichever peer that was. */
  function LastLink(ops: seq<Op>): Option<Link> {
    if ops == [] then None
    else
      var op := ops[|ops| - 1];
      if op.OpConnect? && AsksPool(op.peer, op.world) then
        match op.world.pool.value case PoolFailed(left) => left case PoolReady(link) => Some(link)
      else LastLink(ops[..|ops| - 1])
  }

  lemma {:induction false} LinkIsLast(ops: seq<Op>)
    ensures Run(ops).link == LastLink(ops)
  {
    if ops != [] {
      LinkIsLast(ops[..|ops| - 1]);
      var s, op := Run(ops[..|ops| - 1]), ops[|ops| - 1];
      match op
      case OpConnect(peer, w) => ConnectLink(s, peer, w);
      case OpSync(_, _, _, _) =>
      case OpDisconnect(_) =>
    }
  }

  lemma ConnectLink(s: State, peer: Peer, w: World)
    ensures Connect(s, peer, w).0.link ==
            if !AsksPool(peer, w) then s.link
            else match w.pool.value case PoolFailed(left) => left case PoolReady(link) => Some(link)
  {
  }

  /** Over every run, disconnects included: a connect served by the shipped relay is reported as DERP, over the node an
      earlier connect left active, exactly when there was such a connect; else it is reported as the relay. */
  lemma RelayReportExact(ops: seq<Op>, peer: Peer, w: World)
    requires Shipped(w) && !Direct(peer, w) && w.pool.None? && Connect(Run(ops), peer, w).1.Some?
    ensures var (t, r) := Connect(Run(ops), peer, w);
            if LastLink(ops).Some? then
              && r == Some(Connected(PathDerp))
              && t.snapshot.path == Some(Derp(LastLink(ops).value.cluster, LastLink(ops).value.node))
            else
              r == Some(Connected(PathRelay)) && t.snapshot.path == Some(Relay(peer.nodeId))
  {
    LinkIsLast(ops);
    var s1 := Route(Run(ops), peer, w).0;
    ReplaceKeepsMatch(s1, BuildConfig(s1.path, w.localIp, peer), w.backend);
  }

  // ---------------------------------------------------------------- whose tunnel is it

  /** Every peer of the run has the key that `key` gives its node. */
  ghost predicate Registered(op: Op, key: string -> string) {
    match op
    case OpConnect(peer, _) => peer.publicKey == key(peer.nodeId)
    case OpSync(news, _, _, _) =>
      && (forall p | p in news.peers :: p.publicKey == key(p.nodeId))
      && (forall p | p in news.previous :: p.publicKey == key(p.nodeId))
    case OpDisconnect(_) => true
  }

  /** A tunnel stored with a path that names a node is a tunnel to that node. */
  predicate TunnelToNamed(s: Snapshot, key: string -> string) {
    s.path.Some? && Names(s.path.value).Some? && s.runtime.Some? ==> s.runtime.value.publicKey == key(Names(s.path.value).value)
  }

  /** The direct, pool or relay attempt made the path manager choose a path for this connect. */
  predicate Chooses(peer: Peer, w: World) {
    || (peer.endpoints != [] && w.p2p.Some? && (w.p2p.value.Failed? || w.p2p.value == Connected(PathP2P)))
    || w.pool.Some?
    || (w.relay.Some? && w.relay.value.Connected? && !w.relay.value.path.PathP2P?)
  }

  /** The connect gets through with a path it did not choose, naming a node with another key. */
  predicate OverForeignPath(s: State, peer: Peer, w: World, key: string -> string) {
    && !Chooses(peer, w) && Connect(s, peer, w).1.Some?
    && Names(s.path).Some? && key(Names(s.path).value) != peer.publicKey
    && w.localIp.Some? && peer.virtualIps != []
  }

  lemma ConnectTunnelExact(s: State, peer: Peer, w: World, key: string -> string)
    requires TunnelToNamed(s.snapshot, key) && peer.publicKey == key(peer.nodeId)
    ensures TunnelToNamed(Connect(s, peer, w).0.snapshot, key) <==> !OverForeignPath(s, peer, w, key)
    ensures Shipped(w) ==> !OverForeignPath(s, peer, w, key)
  {
    var s1 := Route(s, peer, w).0;
    ReplaceKeepsMatch(s1, BuildConfig(s1.path, w.localIp, peer), w.backend);
  }

  /** A sync looks its peer up by the path, so it always rebuilds the tunnel of the node the path names. */
  lemma SyncKeepsTunnelToNamed(s: State, news: News, localIp: Option<string>, keyOk: bool, b: Backend, key: string -> string)
    requires TunnelToNamed(s.snapshot, key) && Registered(OpSync(news, localIp, keyOk, b), key)
    ensures TunnelToNamed(SyncTunnel(s, news, localIp, keyOk, b).0.snapshot, key)
  {
    if SyncPeer(s, news).Some? {
      ReplaceKeepsMatch(s, BuildConfig(s.snapshot.path.value, localIp, SyncPeer(s, news).value), b);
    }
  }

  predicate AlwaysToNamed(ops: seq<Op>, key: string -> string) {
    TunnelToNamed(Run(ops).snapshot, key) && (ops != [] ==> AlwaysToNamed(ops[..|ops| - 1], key))
  }

  predicate NeverOverForeign(ops: seq<Op>, key: string -> string) {
    ops != [] ==>
      && NeverOverForeign(ops[..|ops| - 1], key)
      && var op := ops[|ops| - 1];
         !(op.OpConnect? && OverForeignPath(Run(ops[..|ops| - 1]), op.peer, op.world, key))
  }

  /** In all states of a run a stored tunnel is to the node its stored path names if and only if no connect gets through
      over a path it did not choose; with the connectors the repository ships that is always so. */
  lemma {:induction false} TunnelToNamedExactly(ops: seq<Op>, key: string -> string)
    requires forall i | 0 <= i < |ops| :: Registered(ops[i], key)
    ensures AlwaysToNamed(ops, key) <==> NeverOverForeign(ops, key)
    ensures (forall i | 0 <= i < |ops| && ops[i].OpConnect? :: Shipped(ops[i].world)) ==> AlwaysToNamed(ops, key)
  {
    if ops != [] {
      var front, op := ops[..|ops| - 1], ops[|ops| - 1];
      TunnelToNamedExactly(front, key);
      if TunnelToNamed(Run(front).snapshot, key) {
        match op
        case OpConnect(peer, w) => ConnectTunnelExact(Run(front), peer, w, key);
        case OpSync(news, localIp, keyOk, b) => SyncKeepsTunnelToNamed(Run(front), news, localIp, keyOk, b, key);
        case OpDisconnect(_) =>
      }
    }
  }

  const A := Peer("a", ["10.0.0.1"], true, [], "ka")
  const B := Peer("b", ["10.0.0.2"], true, [], "kb")
  const WORKS := Backend(true, true)
  const VIA_POOL := World(Some("10.0.0.9"), None, true, Some(PoolReady(Link("c", "n"))), None, WORKS)
  const VIA_RELAY := World(Some("10.0.0.9"), None, true, None, Some(Connected(PathRelay)), WORKS)

  /** It happens: after a connect to one peer through the pool and a disconnect, a connect to another peer through the
      relay returns Ok(Connected(Derp)) with a tunnel to the second peer over the first peer's pool link. */
  lemma RelayReportedAsDerp()
    ensures Shipped(VIA_POOL) && Shipped(VIA_RELAY)
    ensures var (t, r) := Connect(Run([OpConnect(A, VIA_POOL), OpDisconnect(true)]), B, VIA_RELAY);
            && r == Some(Connected(PathDerp)) && Attempted(B, VIA_RELAY) == Connected(PathRelay)
            && t.snapshot.path == Some(Derp("c", "n")) && t.tracker == Some("10.0.0.2")
  {
    RunTwo(OpConnect(A, VIA_POOL), OpDisconnect(true));
  }

  lemma RunTwo(a: Op, b: Op)
    ensures Run([a]) == Step(FRESH, a) && Run([a, b]) == Step(Step(FRESH, a), b)
  {
    assert [a][..0] == [] && [a, b][..1] == [a];
  }

  // ---- witnesses for the tunnel results

  /** A disconnect whose close fails leaves a tunnel nobody tracks. */
  lemma FailedCloseLeavesTunnel()
    ensures var s := Run([OpConnect(A, VIA_RELAY), OpDisconnect(false)]); s.tracker.None? && s.established.Keys == {"10.0.0.1"}
  {
    RunTwo(OpConnect(A, VIA_RELAY), OpDisconnect(false));
  }

  /** A connect whose establish fails after the old tunnel was closed leaves the snapshot with an address nobody tracks,
      although tracker and backend agree. */
  lemma LostTunnelStaysInSnapshot()
    ensures var ops := [OpConnect(A, VIA_RELAY), OpConnect(B, VIA_RELAY.(backend := Backend(true, false)))];
            Run(ops).tracker.None? && TunnelsMatch(Run(ops)) && Run(ops).snapshot.tunnelIp == Some("10.0.0.1")
  {
    RunTwo(OpConnect(A, VIA_RELAY), OpConnect(B, VIA_RELAY.(backend := Backend(true, false))));
  }
}
