/** Which mutexes are only ever taken under others: the tunnel backend under the tracker or the control channel, a DERP
    client under its pool. So a replacement of the tunnel and a call on a pool are single steps for everyone else. */
module LockGuards {
  import opened LockOrder
  import opened FacadeLocks

  /** With `held` held already, the mutex may be taken. */
  predicate Kept(m: Mutex, held: set<Mutex>) {
    && (m.BackendState? ==> CurrentTunnel in held || ControlWs in held)
    && (m.DerpClientState? ==> PoolState in held)
  }

  predicate Guarded(c: Code, held: set<Mutex>) {
    match c
    case Locked(m, body) => Kept(m, held) && Guarded(body, held + {m})
    case Block(parts) => forall k | 0 <= k < |parts| :: Guarded(parts[k], held)
    case Either(a, b) => Guarded(a, held) && Guarded(b, held)
    case Repeat(body) => Guarded(body, held)
  }

  function HeldOf(stack: seq<Frame>): set<Mutex> {
    if stack == [] then {} else if stack[0].Release? then {stack[0].mutex} + HeldOf(stack[1..]) else HeldOf(stack[1..])
  }

  ghost predicate StackGuarded(stack: seq<Frame>) {
    stack == [] ||
    (StackGuarded(stack[1..]) &&
     match stack[0]
     case Release(m) => Kept(m, HeldOf(stack[1..]))
     case Do(c) => Guarded(c, HeldOf(stack[1..])))
  }

  lemma {:induction false} HeldIsHeld(stack: seq<Frame>, m: Mutex)
    ensures m in HeldOf(stack) <==> Holds(stack, m)
  {
    if stack != [] {
      HeldIsHeld(stack[1..], m);
      assert stack == [stack[0]] + stack[1..];
    }
  }

  lemma {:induction false} GuardsGuarded(stack: seq<Frame>)
    requires StackGuarded(stack)
    ensures StackGuarded(Guards(stack)) && HeldOf(Guards(stack)) == HeldOf(stack)
  {
    if stack != [] {
      GuardsGuarded(stack[1..]);
      assert stack[0].Release? ==> Guards(stack)[1..] == Guards(stack[1..]);
    }
  }

  lemma PushGuarded(c: Code, rest: seq<Frame>)
    requires StackGuarded(rest) && Guarded(c, HeldOf(rest))
    ensures StackGuarded([Do(c)] + rest) && HeldOf([Do(c)] + rest) == HeldOf(rest)
  {
    assert ([Do(c)] + rest)[1..] == rest;
  }

  lemma TwoPushesGuarded(c: Code, d: Code, rest: seq<Frame>)
    requires StackGuarded(rest) && Guarded(c, HeldOf(rest)) && Guarded(d, HeldOf(rest))
    ensures StackGuarded([Do(c), Do(d)] + rest)
  {
    PushGuarded(d, rest);
    PushGuarded(c, [Do(d)] + rest);
    assert [Do(c), Do(d)] + rest == [Do(c)] + ([Do(d)] + rest);
  }

  lemma LockGuarded(m: Mutex, body: Code, rest: seq<Frame>)
    requires StackGuarded(rest) && Kept(m, HeldOf(rest)) && Guarded(body, HeldOf(rest) + {m})
    ensures StackGuarded([Do(body), Release(m)] + rest)
  {
    var guarded := [Release(m)] + rest;
    assert guarded[1..] == rest && HeldOf(guarded) == HeldOf(rest) + {m};
    PushGuarded(body, guarded);
    assert [Do(body), Release(m)] + rest == [Do(body)] + guarded;
  }

  lemma AdvanceGuarded(stack: seq<Frame>, a: Action)
    requires StackGuarded(stack) && stack != []
    ensures StackGuarded(Advance(stack, a))
  {
    var rest := stack[1..];
    match stack[0]
    case Release(_) =>
    case Do(Locked(m, body)) => LockGuarded(m, body, rest);
    case Do(Block(parts)) =>
      if a == Unwind {
        GuardsGuarded(stack);
      } else if parts != [] {
        TwoPushesGuarded(parts[0], Block(parts[1..]), rest);
      }
    case Do(Either(x, y)) => PushGuarded(if a == Left then x else y, rest);
    case Do(Repeat(body)) => TwoPushesGuarded(body, Repeat(body), rest);
  }

  ghost predicate AllGuarded(cfg: Config) {
    && (forall i | 0 <= i < |cfg| :: StackGuarded(cfg[i].stack))
    && (forall i, k | 0 <= i < |cfg| && 0 <= k < |cfg[i].todo| :: Guarded(cfg[i].todo[k], {}))
  }

  lemma StepGuarded(cfg: Config, mv: Move)
    requires AllGuarded(cfg) && Enabled(cfg, mv)
    ensures AllGuarded(Step(cfg, mv))
  {
    var t := cfg[mv.thread];
    if t.stack == [] {
      PushGuarded(t.todo[0], []);
      assert [Do(t.todo[0])] + [] == [Do(t.todo[0])];
    } else {
      AdvanceGuarded(t.stack, mv.action);
    }
  }

  lemma {:induction false} RunGuarded(cfg: Config, moves: seq<Move>)
    requires AllGuarded(cfg) && ValidRun(cfg, moves)
    ensures AllGuarded(Run(cfg, moves))
  {
    if moves != [] {
      RunGuarded(cfg, moves[..|moves| - 1]);
      StepGuarded(Run(cfg, moves[..|moves| - 1]), moves[|moves| - 1]);
    }
  }

  // ---------------------------------------------------------------- the operations

  lemma TakeGuarded(m: Mutex, held: set<Mutex>)
    requires Kept(m, held)
    ensures Guarded(Take(m), held) && Guarded(Maybe(Take(m)), held)
  {
  }

  lemma MaybeGuarded(c: Code, held: set<Mutex>)
    requires Guarded(c, held)
    ensures Guarded(Maybe(c), held)
  {
  }

  lemma {:induction false} ClientsGuarded(links: nat, held: set<Mutex>)
    requires PoolState in held
    ensures Guarded(SomeClients(links), held)
  {
    if links > 0 {
      ClientsGuarded(links - 1, held);
      TakeGuarded(DerpClientState(links - 1), held);
    }
  }

  lemma PoolGuarded(links: nat)
    ensures Guarded(PoolCall(links), {}) && Guarded(Maybe(OnP2PFailed(links)), {})
    ensures Guarded(PathTransport(links), {}) && Guarded(ConnectViaPool(links), {})
  {
    ClientsGuarded(links, {} + {PoolState});
    TakeGuarded(PathState, {});
    TakeGuarded(P2PState, {});
    TakeGuarded(RelayState, {});
    TakeGuarded(SnapshotState, {});
    assert Guarded(PoolCall(links), {});
    assert Guarded(OnP2PFailed(links), {});
    assert Guarded(Either(Take(P2PState), Maybe(Take(RelayState))), {});
  }

  lemma TunnelGuarded(held: set<Mutex>)
    ensures Guarded(ReplaceTunnel(), held) && Guarded(FinalizeConnectedPath(), held)
  {
    TakeGuarded(BackendState, held + {CurrentTunnel});
    TakeGuarded(CurrentTunnel, held);
    TakeGuarded(SnapshotState, held);
  }

  lemma SyncTunnelGuarded(held: set<Mutex>)
    ensures Guarded(Maybe(SyncTunnel()), held)
  {
    TakeGuarded(SnapshotState, held);
    TunnelGuarded(held);
    var reapply := Block([ReplaceTunnel(), USE_STATE]);
    assert Guarded(reapply, held);
    MaybeGuarded(reapply, held);
    assert Guarded(SyncTunnel(), held);
    MaybeGuarded(SyncTunnel(), held);
  }

  lemma SyncGuarded(held: set<Mutex>)
    ensures Guarded(SyncUnderControl(), held)
  {
    TakeGuarded(SnapshotState, held);
    SyncTunnelGuarded(held);
    assert Guarded(Block([Maybe(USE_STATE), Either(USE_STATE, Block([USE_STATE]))]), held);
    assert Guarded(Block([USE_STATE, USE_STATE]), held);
    assert Guarded(SyncExchange(), held) && Guarded(SyncActiveNetwork(), held);
  }

  lemma FallbackGuarded(links: nat)
    ensures Guarded(FallbackPath(links), {})
  {
    TakeGuarded(SnapshotState, {});
    TakeGuarded(PathState, {});
    TakeGuarded(RelayState, {});
    TunnelGuarded({});
    PoolGuarded(links);
    assert Guarded(ViaRelay(links), {}) && Guarded(EndsConnected(), {});
    assert Guarded(Block([Take(PathState), USE_STATE]), {});
  }

  lemma ConnectGuarded(links: nat)
    ensures Guarded(ConnectBody(links), {})
  {
    TakeGuarded(SnapshotState, {});
    TakeGuarded(PathState, {});
    TakeGuarded(P2PState, {});
    TunnelGuarded({});
    FallbackGuarded(links);
    assert Guarded(DirectPath(), {});
  }

  lemma ProbeGuarded(links: nat)
    ensures Guarded(ProbeBody(links), {})
  {
    TakeGuarded(SnapshotState, {});
    TakeGuarded(PathState, {});
    TakeGuarded(ProbeSequence, {});
    TakeGuarded(CurrentTunnel, {});
    PoolGuarded(links);
    MaybeGuarded(PoolCall(links), {});
    assert Guarded(Repeat(PathTransport(links)), {});
  }

  lemma RestoreGuarded()
    ensures Guarded(Body(RestoreSnapshot), {})
  {
    var held := {} + {ControlWs};
    TakeGuarded(SnapshotState, held + {CurrentTunnel});
    assert Guarded(Block([USE_STATE]), held + {CurrentTunnel});
    assert Guarded(Block([Locked(CurrentTunnel, Block([USE_STATE]))]), held);
  }

  lemma DisconnectGuarded()
    ensures Guarded(Body(Disconnect), {})
  {
    var held := {} + {ControlWs};
    TakeGuarded(CurrentTunnel, held);
    TakeGuarded(BackendState, held);
    TakeGuarded(SnapshotState, held);
    assert Guarded(Block([Take(CurrentTunnel), Maybe(Take(BackendState)), USE_STATE]), held);
  }

  lemma EveryOpGuarded(op: Op)
    ensures Guarded(Body(op), {})
  {
    TakeGuarded(SnapshotState, {});
    match op
    case RestoreSnapshot => RestoreGuarded();
    case Disconnect => DisconnectGuarded();
    case ControlSync => SyncGuarded({} + {ControlWs});
    case Connect(links) => ConnectGuarded(links);
    case Probe(links) => ProbeGuarded(links);
    case Send(links) => ProbeGuarded(links);
    case _ =>
  }

  /** In every schedule of any number of threads: whoever is in the tunnel backend holds the tracker's or the control
      channel's mutex, and whoever is in a DERP client holds the pool's. */
  lemma FacadeGuards(plan: seq<seq<Op>>, moves: seq<Move>, i: nat, k: nat)
    requires ValidRun(Threads(plan), moves) && i < |Run(Threads(plan), moves)|
    requires var stack := Run(Threads(plan), moves)[i].stack; k < |stack| && stack[k].Release?
    ensures var stack := Run(Threads(plan), moves)[i].stack;
            && (stack[k].mutex.BackendState? ==> Holds(stack, CurrentTunnel) || Holds(stack, ControlWs))
            && (stack[k].mutex.DerpClientState? ==> Holds(stack, PoolState))
  {
    forall i, k | 0 <= i < |plan| && 0 <= k < |plan[i]|
      ensures Guarded(Threads(plan)[i].todo[k], {})
    {
      EveryOpGuarded(plan[i][k]);
    }
    RunGuarded(Threads(plan), moves);
    var stack := Run(Threads(plan), moves)[i].stack;
    KeptBelow(stack, k);
    HeldIsHeld(stack, CurrentTunnel);
    HeldIsHeld(stack, ControlWs);
    HeldIsHeld(stack, PoolState);
  }

  lemma {:induction false} KeptBelow(stack: seq<Frame>, k: nat)
    requires StackGuarded(stack) && k < |stack| && stack[k].Release?
    ensures Kept(stack[k].mutex, HeldOf(stack))
  {
    if k > 0 {
      KeptBelow(stack[1..], k - 1);
    }
  }
}
