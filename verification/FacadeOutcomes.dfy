/** What connect, sync and disconnect answer and leave behind, told from the state before and the outcomes met. */
module FacadeOutcomes {
  import opened Common
  import opened Facade

  // ---------------------------------------------------------------- connect

  /** One of the attempts gets through: the direct one; or, with no error from the direct one and a peer that allows it, a
      pool that gets ready, or a relay that answers where there is no pool. */
  predicate GetsThrough(peer: Peer, w: World) {
    || (peer.endpoints != [] && w.p2p == Some(Connected(PathP2P)))
    || (&& (peer.endpoints == [] || w.p2p.Some?)
        && peer.relayAllowed
        && match w.pool case Some(PoolReady(_)) => true case Some(PoolFailed(_)) => false case None => w.relay.Some?)
  }

  /** The address of the tunnel a connect wants: none without a local or a remote address. */
  function WantedIp(peer: Peer, localIp: Option<string>): Option<string> {
    if localIp.None? || peer.virtualIps == [] then None else Some(peer.virtualIps[0])
  }

  /** The backend does what getting from the tracked tunnel to the wanted one takes. */
  predicate BackendObliges(tracker: Option<string>, wanted: Option<string>, b: Backend) {
    tracker == wanted || ((tracker.Some? ==> b.closeOk) && (wanted.Some? ==> b.establishOk))
  }

  /** No attempt made the manager choose a path and it has none from before. */
  predicate StaysPathless(s: State, peer: Peer, w: World) { !Chooses(peer, w) && s.path.NoPath? }

  /** A connect returns Ok exactly when one of its attempts gets through and then, unless no path came of it, the key can be
      had and the backend obliges. */
  lemma ConnectOkExact(s: State, peer: Peer, w: World)
    ensures Connect(s, peer, w).1.Some? <==>
            GetsThrough(peer, w)
            && (StaysPathless(s, peer, w) || (w.keyOk && BackendObliges(s.tracker, WantedIp(peer, w.localIp), w.backend)))
  {
    RouteExact(s, peer, w);
    var s1 := Route(s, peer, w).0;
    ReplaceOkExact(s1, BuildConfig(s1.path, w.localIp, peer), w.backend);
  }

  lemma RouteExact(s: State, peer: Peer, w: World)
    ensures Route(s, peer, w).1 <==> GetsThrough(peer, w)
    ensures var s1 := Route(s, peer, w).0;
            && s1.tracker == s.tracker && s1.established == s.established && s1.snapshot == s.snapshot
            && (GetsThrough(peer, w) ==> (s1.path.NoPath? <==> StaysPathless(s, peer, w)))
  {
  }

  lemma ReplaceOkExact(s: State, config: Option<TunnelConfig>, b: Backend)
    ensures ReplaceTunnel(s, config, b).1 <==> BackendObliges(s.tracker, IpOf(config), b)
  {
  }

  /** In particular a peer that forbids the relay is only ever reached directly. */
  lemma ForbiddenRelayIsNotUsed(s: State, peer: Peer, w: World)
    requires !peer.relayAllowed && Connect(s, peer, w).1.Some?
    ensures peer.endpoints != [] && w.p2p == Some(Connected(PathP2P)) && Connect(s, peer, w).1 == Some(Connected(PathP2P))
  {
    ConnectOkExact(s, peer, w);
    RouteExact(s, peer, w);
    ReportedTransportExact(s, peer, w);
  }

  /** What a successful connect with a path stores: the tunnel to the peer's first address from this device's, with the
      peer's key and first endpoint, both in the snapshot and, if it is new, in the backend; or none without addresses. */
  lemma ConnectStores(s: State, peer: Peer, w: World)
    requires Connect(s, peer, w).1.Some? && !StaysPathless(s, peer, w)
    ensures var t := Connect(s, peer, w).0;
            var ip := WantedIp(peer, w.localIp);
            && t.tracker == t.snapshot.tunnelIp == ip
            && (ip.None? <==> t.snapshot.runtime.None?)
            && (ip.Some? ==>
                  && t.snapshot.runtime.value.peerIp == ip.value && t.snapshot.runtime.value.publicKey == peer.publicKey
                  && Some(Connected(t.snapshot.runtime.value.transport)) == Connect(s, peer, w).1
                  && t.snapshot.runtime.value.endpoint == (if peer.endpoints == [] then None else Some(peer.endpoints[0])))
            && (ip.Some? && s.tracker != ip ==>
                  ip.value in t.established && t.established[ip.value].localIp == w.localIp.value
                  && BuildRuntime(t.established[ip.value]) == t.snapshot.runtime.value)
            && (s.tracker.Some? && s.tracker != ip ==> s.tracker.value !in t.established)
            && (s.tracker == ip ==> t.established == s.established)
  {
    RouteExact(s, peer, w);
    ConnectOkExact(s, peer, w);
    var s1 := Route(s, peer, w).0;
    ReplaceKeepsMatch(s1, BuildConfig(s1.path, w.localIp, peer), w.backend);
  }

  // ---------------------------------------------------------------- sync and disconnect

  /** The peer a sync rebuilds the tunnel of: it is the one the stored path names, an address changed, and its entry comes
      from the new map if it is there, else from the old one, with the new address if it is the one that moved. */
  ghost predicate RebuiltPeer(s: State, news: News, peer: Peer) {
    && s.snapshot.path.Some? && Names(s.snapshot.path.value) == Some(peer.nodeId) && (news.moved.Some? || news.selfMoved)
    && FromMap(if Knows(news.peers, peer.nodeId) then news.peers else news.previous, news.moved, peer)
  }

  /** The first entry of the node, at the new address if there is one. */
  ghost predicate FromMap(peers: seq<Peer>, moved: Option<string>, peer: Peer) {
    exists k :: 0 <= k < |peers| && FirstOf(peers, peer.nodeId, k)
                && peer == if moved.Some? then peers[k].(virtualIps := [moved.value]) else peers[k]
  }

  ghost predicate Knows(peers: seq<Peer>, id: string) { exists k :: 0 <= k < |peers| && peers[k].nodeId == id }

  ghost predicate FirstOf(peers: seq<Peer>, id: string, k: nat) {
    k < |peers| && peers[k].nodeId == id && forall j :: 0 <= j < k ==> peers[j].nodeId != id
  }

  lemma {:induction false} FindExact(peers: seq<Peer>, id: string) returns (k: nat)
    ensures Find(peers, id).None? <==> !Knows(peers, id)
    ensures Find(peers, id).Some? ==> FirstOf(peers, id, k) && peers[k] == Find(peers, id).value
  {
    k := 0;
    if peers != [] && peers[0].nodeId != id {
      var i := FindExact(peers[1..], id);
      k := i + 1;
      if Knows(peers, id) {
        var j :| 0 <= j < |peers| && peers[j].nodeId == id;
        assert peers[1..][j - 1].nodeId == id;
      }
      if Knows(peers[1..], id) {
        var j :| 0 <= j < |peers[1..]| && peers[1..][j].nodeId == id;
        assert peers[j + 1].nodeId == id;
      }
      if Find(peers[1..], id).Some? {
        assert forall j :: 0 < j < k ==> peers[j] == peers[1..][j - 1];
      }
    }
  }

  lemma SyncPeerExact(s: State, news: News)
    ensures SyncPeer(s, news).Some? ==> RebuiltPeer(s, news, SyncPeer(s, news).value)
    ensures SyncPeer(s, news).None? <==>
            s.snapshot.path.None? || Names(s.snapshot.path.value).None? || !(news.moved.Some? || news.selfMoved)
            || (&& !Knows(news.peers, Names(s.snapshot.path.value).value)
                && !Knows(news.previous, Names(s.snapshot.path.value).value))
  {
    if s.snapshot.path.Some? && Names(s.snapshot.path.value).Some? {
      var id := Names(s.snapshot.path.value).value;
      var k := FindExact(news.peers, id);
      var l := FindExact(news.previous, id);
    }
  }

  /** A sync without a peer to rebuild, or without addresses, changes nothing; else it succeeds exactly when the key can be
      had and the backend obliges, and then the snapshot has the tunnel to the peer's first address. Connection, path,
      manager and pool stay as they are. */
  lemma SyncExact(s: State, news: News, localIp: Option<string>, keyOk: bool, b: Backend)
    ensures var (t, ok) := SyncTunnel(s, news, localIp, keyOk, b);
            var peer := SyncPeer(s, news);
            && t.snapshot.connection == s.snapshot.connection && t.snapshot.path == s.snapshot.path
            && t.path == s.path && t.link == s.link
            && (peer.None? ==> ok && t == s)
            && (peer.Some? ==>
                  var ip := WantedIp(peer.value, localIp);
                  && (ok <==> keyOk && (ip.None? || BackendObliges(s.tracker, ip, b)))
                  && (ip.None? || !ok ==> t.snapshot == s.snapshot)
                  && (ip.None? ==> t == s)
                  && (ok && ip.Some? ==>
                        && t.tracker == t.snapshot.tunnelIp == ip && t.snapshot.runtime.Some?
                        && t.snapshot.runtime.value.peerIp == ip.value
                        && t.snapshot.runtime.value.publicKey == peer.value.publicKey))
  {
    if SyncPeer(s, news).Some? {
      var config := BuildConfig(s.snapshot.path.value, localIp, SyncPeer(s, news).value);
      ReplaceOkExact(s, config, b);
      ReplaceKeepsMatch(s, config, b);
    }
  }

  /** A disconnect succeeds exactly when there is nothing to close or the close succeeds; then the snapshot says
      disconnected, without path or tunnel, and the tunnel is gone. Either way nothing is tracked any more, and the path
      manager and the pool are left as they are. */
  lemma DisconnectExact(s: State, closeOk: bool)
    ensures var (t, ok) := Disconnect(s, closeOk);
            && (ok <==> s.tracker.None? || closeOk) && t.tracker.None? && t.path == s.path && t.link == s.link
            && (ok ==> t.snapshot == Snapshot(Some(Disconnected), None, None, None)
                       && t.established == if s.tracker.Some? then s.established - {s.tracker.value} else s.established)
            && (!ok ==> t.snapshot == s.snapshot && t.established == s.established)
  {
  }

  // ---------------------------------------------------------------- the tunnel the snapshot describes

  /** The snapshot's runtime is that of the tunnel the backend has for the tracked address. */
  predicate InForce(s: State) {
    s.tracker.Some? ==>
      && s.tracker.value in s.established
      && (s.snapshot.tunnelIp == s.tracker && s.snapshot.runtime.Some? ==>
            BuildRuntime(s.established[s.tracker.value]) == s.snapshot.runtime.value)
  }

  /** The operation stores another configuration for the address that is tracked already: the tunnel is not rebuilt. */
  predicate Reuses(s: State, op: Op) {
    match op
    case OpConnect(peer, w) =>
      && Connect(s, peer, w).1.Some? && !StaysPathless(s, peer, w)
      && DiffersInPlace(s, BuildConfig(Route(s, peer, w).0.path, w.localIp, peer))
    case OpSync(news, localIp, keyOk, b) =>
      && keyOk && SyncPeer(s, news).Some?
      && DiffersInPlace(s, BuildConfig(s.snapshot.path.value, localIp, SyncPeer(s, news).value))
    case OpDisconnect(_) => false
  }

  predicate DiffersInPlace(s: State, config: Option<TunnelConfig>) {
    && config.Some? && s.tracker == Some(config.value.peerIp) && config.value.peerIp in s.established
    && BuildRuntime(s.established[config.value.peerIp]) != BuildRuntime(config.value)
  }

  /** A replacement leaves the tracked tunnel established; it has the wanted configuration unless it was there before. */
  lemma ReplaceEstablishes(s: State, config: Option<TunnelConfig>, b: Backend)
    requires s.tracker.Some? ==> s.tracker.value in s.established
    ensures var (t, ok) := ReplaceTunnel(s, config, b);
            && (t.tracker.Some? ==> t.tracker.value in t.established)
            && (t.tracker.Some? && t.tracker == s.tracker ==> t.established[t.tracker.value] == s.established[t.tracker.value])
            && (ok && config.Some? && s.tracker != Some(config.value.peerIp) ==>
                  t.established[config.value.peerIp] == config.value)
            && (t.tracker == s.tracker || t.tracker.None? || (ok && t.tracker == IpOf(config)))
  {
  }

  lemma ConnectInForce(s: State, peer: Peer, w: World)
    requires InForce(s)
    ensures InForce(Connect(s, peer, w).0) <==> !Reuses(s, OpConnect(peer, w))
  {
    RouteExact(s, peer, w);
    ConnectOkExact(s, peer, w);
    var s1 := Route(s, peer, w).0;
    ReplaceEstablishes(s1, BuildConfig(s1.path, w.localIp, peer), w.backend);
    ReplaceKeepsMatch(s1, BuildConfig(s1.path, w.localIp, peer), w.backend);
  }

  lemma SyncInForce(s: State, news: News, localIp: Option<string>, keyOk: bool, b: Backend)
    requires InForce(s)
    ensures InForce(SyncTunnel(s, news, localIp, keyOk, b).0) <==> !Reuses(s, OpSync(news, localIp, keyOk, b))
  {
    if SyncPeer(s, news).Some? {
      var config := BuildConfig(s.snapshot.path.value, localIp, SyncPeer(s, news).value);
      ReplaceEstablishes(s, config, b);
      ReplaceKeepsMatch(s, config, b);
    }
  }

  predicate AlwaysInForce(ops: seq<Op>) { InForce(Run(ops)) && (ops != [] ==> AlwaysInForce(ops[..|ops| - 1])) }

  predicate NeverReuses(ops: seq<Op>) {
    ops != [] ==> NeverReuses(ops[..|ops| - 1]) && !Reuses(Run(ops[..|ops| - 1]), ops[|ops| - 1])
  }

  /** The stored runtime is the one in force in every state of a run if and only if no connect or sync stores another
      configuration for the address that is tracked already. */
  lemma {:induction false} InForceExactly(ops: seq<Op>)
    ensures AlwaysInForce(ops) <==> NeverReuses(ops)
  {
    if ops != [] {
      var front, op := ops[..|ops| - 1], ops[|ops| - 1];
      InForceExactly(front);
      if InForce(Run(front)) {
        match op
        case OpConnect(peer, w) => ConnectInForce(Run(front), peer, w);
        case OpSync(news, localIp, keyOk, b) => SyncInForce(Run(front), news, localIp, keyOk, b);
        case OpDisconnect(_) =>
      }
    }
  }

  /** A sync after this device got a new address succeeds, and the tunnel keeps the old one: the peer's address, by which
      tunnels are told apart, has not changed. */
  lemma OwnAddressIsNotApplied()
    ensures var s := Run([OpConnect(A, VIA_RELAY)]);
            var (t, ok) := SyncTunnel(s, News([A], [A], None, true), Some("10.0.0.8"), true, WORKS);
            ok && t.tracker == Some("10.0.0.1") && "10.0.0.1" in t.established && t.established["10.0.0.1"].localIp == "10.0.0.9"
  {
    assert [OpConnect(A, VIA_RELAY)][..0] == [];
    assert Run([OpConnect(A, VIA_RELAY)]) == Step(FRESH, OpConnect(A, VIA_RELAY));
    assert Find([A], "a") == Some(A);
  }
}
