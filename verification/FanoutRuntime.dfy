/** The session hub and one instance's fan-out and subscriber code, proved against the functions of `Fanout`. */
module FanoutRuntime {
  import opened Fanout

  /** `out` holds each session of `hub` once, in some order. */
  ghost predicate Lists(out: seq<Session>, hub: Hub) {
    && |out| == |hub|
    && (forall k | 0 <= k < |out| :: out[k].node in hub && hub[out[k].node] == out[k])
    && (forall j, k | 0 <= j < k < |out| :: out[j].node != out[k].node)
  }

  /** A listing of the right length without repetition leaves nobody out. */
  lemma ListedIsComplete(out: seq<Session>, hub: Hub, node: string)
    requires Lists(out, hub) && node in hub
    ensures hub[node] in out
  {
    var names := seq(|out|, k requires 0 <= k < |out| => out[k].node);
    NamesFill(names, hub.Keys);
    assert |hub.Keys| == |hub|;
    assert node in names;
    var k :| 0 <= k < |names| && names[k] == node;
    assert out[k] == hub[node];
  }

  lemma {:induction false} NamesFill(names: seq<string>, keys: set<string>)
    requires |names| == |keys|
    requires forall k | 0 <= k < |names| :: names[k] in keys
    requires forall j, k | 0 <= j < k < |names| :: names[j] != names[k]
    ensures forall key | key in keys :: key in names
  {
    if names != [] {
      var last := names[|names| - 1];
      var front := names[..|names| - 1];
      NamesFill(front, keys - {last});
      assert names == front + [last];
    }
  }

  lemma GrowListing(out: seq<Session>, hub: Hub, session: Session, network: string, exclude: string)
    requires Lists(out, Peers(hub, network, exclude)) && session.node !in hub
    ensures Lists(if session.network == network && session.node != exclude then out + [session] else out,
                  Peers(hub[session.node := session], network, exclude))
  {
    var peers := Peers(hub, network, exclude);
    var grown := Peers(hub[session.node := session], network, exclude);
    if session.network != network || session.node == exclude {
      assert grown == peers;
    } else {
      assert grown == peers[session.node := session];
      assert session.node !in peers;
    }
  }

  /** One turn of the walk: `rest` is what is still to be looked at. */
  lemma Visit(out: seq<Session>, hub: Hub, rest: set<string>, node: string, network: string, exclude: string)
    requires node in rest && rest <= hub.Keys && hub[node].node == node
    requires Lists(out, Peers(hub - rest, network, exclude))
    ensures Lists(if hub[node].network == network && node != exclude then out + [hub[node]] else out,
                  Peers(hub - (rest - {node}), network, exclude))
  {
    GrowListing(out, hub - rest, hub[node], network, exclude);
    assert hub - (rest - {node}) == (hub - rest)[node := hub[node]];
  }

  class ControlHub {
    var sessions: Hub

    ghost predicate Valid()
      reads this
    {
      forall node | node in sessions :: sessions[node].node == node
    }

    constructor ()
      ensures Valid() && sessions == map[]
    {
      sessions := map[];
    }

    method Register(session: Session)
      requires Valid()
      modifies this
      ensures Valid() && sessions == old(sessions)[session.node := session]
    {
      sessions := sessions[session.node := session];
    }

    method Unregister(node: string)
      requires Valid()
      modifies this
      ensures Valid() && sessions == Unregistered(old(sessions), node)
      ensures forall n :: n in sessions <==> n in old(sessions) && (n != node || node == "")
    {
      if node == "" {
        return;
      }
      sessions := sessions - {node};
    }

    /** The map is walked in an arbitrary order. */
    method PeersInNetwork(network: string, exclude: string) returns (out: seq<Session>)
      requires Valid()
      ensures Lists(out, Peers(sessions, network, exclude))
    {
      out := [];
      var rest := sessions.Keys;
      while rest != {}
        invariant rest <= sessions.Keys && Lists(out, Peers(sessions - rest, network, exclude))
        decreases |rest|
      {
        var node :| node in rest;
        Visit(out, sessions, rest, node, network, exclude);
        var session := sessions[node];
        rest := rest - {node};
        if session.network == network && session.node != exclude {
          out := out + [session];
        }
      }
      assert sessions - rest == sessions;
    }

    method BroadcastPeerUpdate(f: Fan) returns (sent: seq<Session>)
      requires Valid() && f.kind == PeerUpdate
      ensures Lists(sent, Recipients(sessions, f))
    {
      sent := PeersInNetwork(f.network, f.source);
      assert Recipients(sessions, f) == Peers(sessions, f.network, f.source);
    }

    method BroadcastPeerRemove(f: Fan) returns (sent: seq<Session>)
      requires Valid() && f.kind == PeerRemove
      ensures Lists(sent, Recipients(sessions, f))
    {
      if f.source == "" || f.network == "" {
        assert Recipients(sessions, f) == map[];
        return [];
      }
      sent := PeersInNetwork(f.network, f.source);
      assert Recipients(sessions, f) == Peers(sessions, f.network, f.source);
    }

    /** The subscriber: an event carrying this instance's own id is skipped. */
    method HandleSync(ownId: string, originId: string, f: Fan) returns (sent: seq<Session>)
      requires Valid()
      ensures Lists(sent, if originId == ownId then map[] else Recipients(sessions, f))
    {
      if originId == ownId {
        return [];
      }
      match f.kind
      case PeerUpdate => sent := BroadcastPeerUpdate(f);
      case PeerRemove => sent := BroadcastPeerRemove(f);
    }
  }
}
