/** The facade's mutable fields, updated step by step under their locks, proved against the functions of `Facade`. */
module FacadeRuntime {
  import opened Common
  import opened Facade

  /** `InMemoryTunnelBackend`: a map of peers; whether a call fails is an input. */
  class TunnelBackend {
    var peers: map<string, TunnelConfig>

    constructor ()
      ensures peers == map[]
    {
      peers := map[];
    }

    method Establish(config: TunnelConfig, ok: bool) returns (done: bool)
      modifies this
      ensures done == ok && peers == if ok then old(peers)[config.peerIp := config] else old(peers)
    {
      done := ok;
      if ok {
        peers := peers[config.peerIp := config];
      }
    }

    method Close(peerIp: string, ok: bool) returns (done: bool)
      modifies this
      ensures done == ok && peers == if ok then old(peers) - {peerIp} else old(peers)
    {
      done := ok;
      if ok {
        peers := peers - {peerIp};
      }
    }
  }

  class AppCoreFacade {
    var snapshot: Snapshot
    var tracker: Option<string>
    var path: ActivePath
    var link: Option<Link>
    const tunnels: TunnelBackend

    function View(): State
      reads this, tunnels
    {
      State(snapshot, tracker, tunnels.peers, path, link)
    }

    constructor ()
      ensures View() == FRESH && fresh(tunnels)
    {
      snapshot, tracker, path, link := Snapshot(None, None, None, None), None, NoPath, None;
      tunnels := new TunnelBackend();
    }

    method Replace(config: Option<TunnelConfig>, b: Backend) returns (ok: bool)
      modifies this`tracker, tunnels
      ensures (View(), ok) == ReplaceTunnel(old(View()), config, b)
    {
      if tracker.Some? && tracker != IpOf(config) {
        var closed := tunnels.Close(tracker.value, b.closeOk);
        if !closed {
          return false;
        }
        tracker := None;
      }
      if config.Some? && tracker != Some(config.value.peerIp) {
        var established := tunnels.Establish(config.value, b.establishOk);
        if !established {
          return false;
        }
        tracker := Some(config.value.peerIp);
      }
      ok := true;
    }

    method FinalizeConnectedPath(connection: ConnectionState, p: ActivePath, config: Option<TunnelConfig>, b: Backend)
      returns (ok: bool)
      modifies this`tracker, this`snapshot, tunnels
      ensures (View(), ok) == Finalize(old(View()), connection, p, config, b)
    {
      var runtime := RuntimeOf(config);
      ok := Replace(config, b);
      if ok {
        snapshot := Snapshot(Some(connection), Some(p), tracker, runtime);
      }
    }

    method OnP2PFailed(peerId: string)
      modifies this`path
      ensures View() == FallBack(old(View()), peerId)
    {
      path := if link.Some? then Derp(link.value.cluster, link.value.node) else Relay(peerId);
    }

    /** The attempts in order: direct, then the DERP pool, then the relay. */
    method ChoosePath(peer: Peer, w: World) returns (ok: bool)
      modifies this`path, this`link
      ensures (View(), ok) == Route(old(View()), peer, w)
    {
      if peer.endpoints != [] {
        if w.p2p.None? {
          return false;
        }
        if w.p2p.value == Connected(PathP2P) {
          path := P2P(peer.nodeId);
          return true;
        }
        if w.p2p.value.Failed? {
          OnP2PFailed(peer.nodeId);
        }
      }
      if !peer.relayAllowed {
        return false;
      }
      match w.pool {
        case Some(PoolFailed(left)) =>
          link := left;
          return false;
        case Some(PoolReady(active)) =>
          link := Some(active);
          OnP2PFailed(peer.nodeId);
          return true;
        case None =>
          if w.relay.None? {
            return false;
          }
          if w.relay.value == Connected(PathRelay) || w.relay.value == Connected(PathDerp) {
            OnP2PFailed(peer.nodeId);
          }
          return true;
      }
    }

    method ConnectPeer(peer: Peer, w: World) returns (r: Option<ConnectionState>)
      modifies this, tunnels
      ensures (View(), r) == Connect(old(View()), peer, w)
    {
      var routed := ChoosePath(peer, w);
      if !routed {
        return None;
      }
      var state := Derived(path);
      if !state.Connected? {
        snapshot := Snapshot(Some(state), Some(path), None, None);
        return Some(state);
      }
      if !w.keyOk {
        return None;
      }
      var done := FinalizeConnectedPath(state, path, BuildConfig(path, w.localIp, peer), w.backend);
      r := if done then Some(state) else None;
    }

    method ReapplyTunnel(news: News, localIp: Option<string>, keyOk: bool, b: Backend) returns (ok: bool)
      modifies this`tracker, this`snapshot, tunnels
      ensures (View(), ok) == SyncTunnel(old(View()), news, localIp, keyOk, b)
    {
      var peer := SyncPeer(View(), news);
      if peer.None? {
        return true;
      }
      if !keyOk {
        return false;
      }
      var config := BuildConfig(snapshot.path.value, localIp, peer.value);
      if config.None? {
        return true;
      }
      ok := Replace(config, b);
      if ok {
        snapshot := snapshot.(tunnelIp := Some(config.value.peerIp), runtime := Some(BuildRuntime(config.value)));
      }
    }

    method DisconnectAll(closeOk: bool) returns (ok: bool)
      modifies this`tracker, this`snapshot, tunnels
      ensures (View(), ok) == Disconnect(old(View()), closeOk)
    {
      var peerIp := tracker;
      tracker := None;
      if peerIp.Some? {
        var closed := tunnels.Close(peerIp.value, closeOk);
        if !closed {
          return false;
        }
      }
      snapshot := Snapshot(Some(Disconnected), None, None, None);
      ok := true;
    }
  }
}
