/** The mutable client and pool, each method proved against the function of the same name in `RelayPool`.
    Every method runs under the pool's lock, so it is one atomic step; socket and probe outcomes are inputs. */
module DerpRuntime {
  import opened Common
  import opened RelayPool

  /** `SocketDerpClient`: the mutex-held state, with the socket reduced to whether there is one. */
  class SocketDerpClient {
    var meta: Option<NodeMeta>
    var ticket: Option<Ticket>
    var socket: bool
    var closed: bool

    function View(): ClientView
      reads this
    {
      ClientView(meta, ticket, socket, closed)
    }

    constructor ()
      ensures View() == FRESH_CLIENT
    {
      meta, ticket, socket, closed := None, None, false, false;
    }

    method ConnectNode(m: NodeMeta, socketOk: bool) returns (e: Option<Error>)
      modifies this
      ensures (View(), e) == old(View()).Connect(m, socketOk)
    {
      if m.transport.Quic? { return Some(QuicUnsupported); }
      if !socketOk { return Some(ConnectFailed); }
      meta, socket, closed := Some(m), true, false;
      e := None;
    }

    method AttachTicket(t: Ticket) returns (e: Option<Error>)
      modifies this
      ensures (View(), e) == old(View()).Attach(t)
    {
      if meta.None? { return Some(NoConnectedNode); }
      if t.clusterId.Some? && t.clusterId.value != meta.value.clusterId { return Some(ClusterMismatch); }
      if t.allowed != [] && meta.value.nodeId !in t.allowed { return Some(NodeNotAllowed); }
      ticket, closed := Some(t), false;
      e := None;
    }

    method Close()
      modifies this
      ensures View() == old(View()).Close()
    {
      socket, ticket, closed := false, None, true;
    }
  }

  datatype ManagedLink = ManagedLink(meta: NodeMeta, client: SocketDerpClient, lastProbe: Option<ProbeSample>,
                                     timeouts: u32, failures: u32, lastError: Option<Error>)
  {
    function View(): LinkView
      reads client
    {
      LinkView(meta, client.View(), lastProbe, timeouts, failures, lastError)
    }
  }

  /** One turn of the warm-up loop, as the specification unfolds it. */
  lemma WarmNext(v: seq<LinkView>, w: seq<LinkView>, n: nat, warm: nat, t: Ticket, connect: nat -> bool, e: Option<Error>)
    requires n < |v|
    requires if n < warm then
               var (l, e') := EnsureReady(v[n], t, connect(n));
               e == e' && w == v[n := if e.Some? then l.(lastError := e) else l]
             else e.None? && w == v[n := ClosedLink(v[n])]
    ensures WarmLinks(v, n, warm, t, connect) == if e.Some? then (w, e) else WarmLinks(w, n + 1, warm, t, connect)
  {
  }

  class InMemoryDerpPool {
    var clusterId: string
    var sessionId: string
    var ticket: Option<Ticket>
    var active: Option<string>
    var links: seq<ManagedLink>
    var epoch: nat

    ghost function Clients(): set<object>
      reads this
    {
      set l | l in links :: l.client
    }

    /** No two links share a client. */
    ghost predicate Valid()
      reads this
    {
      forall i, j :: 0 <= i < j < |links| ==> links[i].client != links[j].client
    }

    function LinkViews(): (v: seq<LinkView>)
      reads this, Clients()
      ensures |v| == |links| && forall i :: 0 <= i < |links| ==> v[i] == links[i].View()
    {
      seq(|links|, i requires 0 <= i < |links| reads this, Clients() => links[i].View())
    }

    function View(): PoolView
      reads this, Clients()
    {
      PoolView(clusterId, sessionId, ticket, active, LinkViews(), epoch)
    }

    constructor ()
      ensures Valid() && View() == EMPTY_POOL
    {
      clusterId, sessionId, ticket, active, links, epoch := "", "", None, None, [], 0;
    }

    method InstallCluster(cluster: string, nodes: seq<NodeMeta>, t: Ticket)
      requires Valid()
      modifies this, Clients()
      ensures Valid() && fresh(Clients())
      ensures View() == Install(old(View()), cluster, nodes, t)
      ensures forall i :: 0 <= i < |old(links)| ==> old(links[i].client).View() == old(links[i].client.View()).Close()
    {
      CloseAll();
      clusterId, sessionId, ticket, active, epoch := cluster, t.sessionId, Some(t), None, 0;
      var installed: seq<ManagedLink> := [];
      for n := 0 to |nodes|
        modifies {}
        invariant |installed| == n
        invariant forall i :: 0 <= i < n ==> fresh(installed[i].client) && installed[i].View() == FreshLink(nodes[i])
        invariant forall i, j :: 0 <= i < j < n ==> installed[i].client != installed[j].client
      {
        var c := new SocketDerpClient();
        installed := installed + [ManagedLink(nodes[n], c, Some(ProbeSample(0, false, 0)), 0, 0, None)];
      }
      links := installed;
      assert LinkViews() == Install(old(View()), cluster, nodes, t).links;
    }

    /** Close every client; the links themselves are untouched. */
    method CloseAll()
      requires Valid()
      modifies Clients()
      ensures forall i :: 0 <= i < |links| ==> links[i].client.View() == old(links[i].client.View()).Close()
    {
      for n := 0 to |links|
        invariant forall i :: 0 <= i < n ==> links[i].client.View() == old(links[i].client.View()).Close()
        invariant forall i :: n <= i < |links| ==> links[i].client.View() == old(links[i].client.View())
      {
        assert forall i :: 0 <= i < |links| && i != n ==> links[i].client != links[n].client;
        links[n].client.Close();
      }
    }

    /** `ensure_link_ready` on the link at `k`. */
    method EnsureLinkReady(k: nat, t: Ticket, socketOk: bool) returns (e: Option<Error>)
      requires Valid() && k < |links|
      modifies this`links, links[k].client
      ensures |links| == |old(links)| && forall i :: 0 <= i < |links| ==> links[i].client == old(links)[i].client
      ensures var (l, e') := EnsureReady(old(links[k].View()), t, socketOk);
              e == e' && LinkViews() == old(LinkViews())[k := l]
    {
      assert forall i :: 0 <= i < |links| && i != k ==> links[i].client != links[k].client;
      var l := links[k];
      if l.client.View().State().Ready? {
        links := links[k := l.(lastError := None)];
        return None;
      }
      e := l.client.ConnectNode(l.meta, socketOk);
      if e.Some? { return; }
      e := l.client.AttachTicket(t);
      if e.Some? { return; }
      links := links[k := l.(lastError := None)];
    }

    /** The body of the warm-up loop on link `n`. */
    method WarmLink(n: nat, warm: nat, t: Ticket, socketOk: bool) returns (e: Option<Error>)
      requires Valid() && n < |links|
      modifies this`links, links[n].client
      ensures |links| == |old(links)| && forall i :: 0 <= i < |links| ==> links[i].client == old(links)[i].client
      ensures var v := old(LinkViews());
              if n < warm then
                var (l, e') := EnsureReady(v[n], t, socketOk);
                e == e' && LinkViews() == v[n := if e.Some? then l.(lastError := e) else l]
              else
                e.None? && LinkViews() == v[n := ClosedLink(v[n])]
    {
      if n < warm {
        e := EnsureLinkReady(n, t, socketOk);
        if e.Some? {
          ghost var v := LinkViews();
          links := links[n := links[n].(lastError := e)];
          assert LinkViews() == v[n := v[n].(lastError := e)];
        }
      } else {
        CloseLink(n);
        e := None;
      }
    }

    /** The warm-up loop: it stops at the first link that cannot be made ready. */
    method WarmAll(warm: nat, t: Ticket, connect: nat -> bool) returns (e: Option<Error>)
      requires Valid()
      modifies this`links, Clients()
      ensures |links| == |old(links)| && forall i :: 0 <= i < |links| ==> links[i].client == old(links)[i].client
      ensures (LinkViews(), e) == WarmLinks(old(LinkViews()), 0, warm, t, connect)
    {
      e := None;
      for n := 0 to |links|
        invariant |links| == |old(links)| && forall i :: 0 <= i < |links| ==> links[i].client == old(links[i].client)
        invariant e.None?
        invariant WarmLinks(LinkViews(), n, warm, t, connect) == WarmLinks(old(LinkViews()), 0, warm, t, connect)
      {
        ghost var views := LinkViews();
        e := WarmLink(n, warm, t, connect(n));
        WarmNext(views, LinkViews(), n, warm, t, connect, e);
        if e.Some? { return; }
      }
    }

    method WarmUp(fanout: nat, connect: nat -> bool) returns (e: Option<Error>)
      requires Valid()
      modifies this, Clients()
      ensures Valid()
      ensures (View(), e) == RelayPool.WarmUp(old(View()), fanout, connect)
    {
      if links == [] { return Some(NoCluster); }
      if ticket.None? { return Some(NoTicket); }
      e := WarmAll(Min(Max(fanout, 1), |links|), ticket.value, connect);
      if e.Some? { return; }
      ghost var views := LinkViews();
      active := NodeAt(View(), ChooseActive(LinkViews(), |links|));
      assert LinkViews() == views;
    }

    method TickHealthCheck(probe: nat -> Result<ProbeSample, Error>)
      requires Valid()
      modifies this`links
      ensures Valid() && Clients() == old(Clients())
      ensures View() == Tick(old(View()), probe)
    {
      for n := 0 to |links|
        invariant |links| == |old(links)| && forall i :: 0 <= i < |links| ==> links[i].client == old(links[i].client)
        invariant forall i :: 0 <= i < n ==> links[i].View() == TickLink(old(links[i].View()), probe(i))
        invariant forall i :: n <= i < |links| ==> links[i] == old(links[i])
      {
        var l := links[n];
        if l.client.View().State().Ready? {
          match probe(n) {
            case Ok(s) =>
              if s.timedOut {
                l := l.(timeouts := SatAdd(l.timeouts, 1), failures := SatAdd(l.failures, 1));
              } else {
                l := l.(failures := 0);
              }
              l := l.(lastProbe := Some(s), lastError := None);
            case Err(err) =>
              l := l.(timeouts := SatAdd(l.timeouts, 1), failures := SatAdd(l.failures, 1), lastError := Some(err));
          }
          links := links[n := l];
        }
      }
      assert LinkViews() == Tick(old(View()), probe).links;
    }

    method MaybeSwitch() returns (event: Option<SwitchEvent>)
      requires Valid()
      modifies this`active, this`epoch
      ensures (View(), event) == RelayPool.MaybeSwitch(old(View()))
    {
      var choice := ChooseActive(LinkViews(), |links|);
      if choice.None? { return None; }
      ChooseActiveIsFirstLeast(LinkViews(), |links|);
      var target := links[choice.value].meta.nodeId;
      if active == Some(target) { return None; }
      event := Some(SwitchEvent(clusterId, active, target));
      active := Some(target);
      epoch := epoch + 1;
      assert LinkViews() == old(LinkViews());
    }

    method ForceSwitch(id: string, socketOk: bool) returns (r: Result<SwitchEvent, Error>)
      requires Valid()
      modifies this, Clients()
      ensures Valid()
      ensures (View(), r) == RelayPool.ForceSwitch(old(View()), id, socketOk)
    {
      if ticket.None? { return Err(NoTicket); }
      var k := Position(LinkViews(), id);
      if k.None? { return Err(NodeNotFound); }
      var e := EnsureLinkReady(k.value, ticket.value, socketOk);
      ghost var views := LinkViews();
      if e.Some? { return Err(e.value); }
      r := Ok(SwitchEvent(clusterId, active, id));
      active := Some(id);
      epoch := epoch + 1;
      assert LinkViews() == views;
    }

    /** Close the client of one link and forget its error. */
    method CloseLink(n: nat)
      requires Valid() && n < |links|
      modifies this`links, links[n].client
      ensures |links| == |old(links)| && forall i :: 0 <= i < |links| ==> links[i].client == old(links)[i].client
      ensures LinkViews() == old(LinkViews())[n := ClosedLink(old(LinkViews())[n])]
    {
      assert forall i :: 0 <= i < |links| && i != n ==> links[i].client != links[n].client;
      links[n].client.Close();
      links := links[n := links[n].(lastError := None)];
    }

    method Close()
      requires Valid()
      modifies this, Clients()
      ensures Valid()
      ensures View() == RelayPool.Close(old(View()))
    {
      ghost var before := LinkViews();
      for n := 0 to |links|
        modifies this`links, Clients()
        invariant |links| == |old(links)| && forall i :: 0 <= i < |links| ==> links[i].client == old(links[i].client)
        invariant forall i :: 0 <= i < n ==> LinkViews()[i] == ClosedLink(before[i])
        invariant forall i :: n <= i < |links| ==> LinkViews()[i] == before[i]
      {
        CloseLink(n);
      }
      ghost var closed := LinkViews();
      active := None;
      assert LinkViews() == closed == CloseLinks(before);
    }
  }
}
