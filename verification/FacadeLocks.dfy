/** Which mutexes each facade operation takes, and in which nesting. Data is left out: every branch may go either way,
    and an operation may end early between any two parts. The facade, its path manager and the helper share one DERP
    pool, one relay client and one direct connector. */
module FacadeLocks {
  import opened LockOrder

  function Take(m: Mutex): Code { Locked(m, SKIP) }

  function Maybe(c: Code): Code { Either(c, SKIP) }

  /** Short holds of the snapshot: reading the token, the node, the plans, or writing a result. */
  const USE_STATE := Take(SnapshotState)

  // ---------------------------------------------------------------- inside the collaborators

  /** Calls on some of the first `links` DERP clients, one at a time. */
  function SomeClients(links: nat): Code {
    if links == 0 then SKIP else Block([SomeClients(links - 1), Maybe(Take(DerpClientState(links - 1)))])
  }

  /** Any pool method: the pool's mutex around any sequence of calls on its clients. */
  function PoolCall(links: nat): Code { Locked(PoolState, Repeat(SomeClients(links))) }

  /** `on_p2p_failed` asks the pool first and only then takes its own mutex. */
  function OnP2PFailed(links: nat): Code { Block([PoolCall(links), Take(PathState)]) }

  /** Sending or polling copies the path out, then uses one transport. */
  function PathTransport(links: nat): Code {
    Block([Take(PathState), Either(PoolCall(links), Either(Take(P2PState), Maybe(Take(RelayState))))])
  }

  // ---------------------------------------------------------------- the facade's helpers

  /** `replace_tunnel`: close and establish happen under the tracker's mutex. */
  function ReplaceTunnel(): Code {
    Locked(CurrentTunnel, Block([Maybe(Take(BackendState)), Maybe(Take(BackendState))]))
  }

  function FinalizeConnectedPath(): Code { Block([ReplaceTunnel(), Take(CurrentTunnel), USE_STATE]) }

  function ConnectViaPool(links: nat): Code {
    Block([USE_STATE, PoolCall(links), PoolCall(links), PoolCall(links), PoolCall(links), PoolCall(links)])
  }

  // ---------------------------------------------------------------- the operations

  /** `links` is how many DERP links the pool may hold while the operation runs. */
  datatype Op =
    | Snapshot | CachedNodeId | ControlStatus | Register | Login
    | RegisterDevice | RegisterNode | Bootstrap
    | ListNetworks | CreateNetwork | JoinNetwork | ActivateNetwork | DeactivateNetwork | IssueRelayTicket
    | RestoreSnapshot | ControlSync | Disconnect | Connect(links: nat) | Probe(links: nat) | Send(links: nat)

  function Body(op: Op): Code {
    match op
    case RegisterDevice => Block([USE_STATE, USE_STATE])
    case RegisterNode => Block([USE_STATE, USE_STATE])
    case Bootstrap => Block([USE_STATE, USE_STATE])
    case RestoreSnapshot => Locked(ControlWs, Block([Locked(CurrentTunnel, Block([USE_STATE]))]))
    case Disconnect => Locked(ControlWs, Block([Take(CurrentTunnel), Maybe(Take(BackendState)), USE_STATE]))
    case ControlSync => Block([USE_STATE, USE_STATE, Locked(ControlWs, SyncUnderControl())])
    case Connect(links) => ConnectBody(links)
    case Probe(links) => ProbeBody(links)
    case Send(links) => ProbeBody(links)
    case _ => USE_STATE
  }

  /** The control channel's mutex is held from the exchange with the server to the end of `control_sync`. */
  function SyncUnderControl(): Code {
    Block([SyncExchange(), Maybe(SyncActiveNetwork()), USE_STATE, Maybe(SyncTunnel())])
  }

  /** A ping that may go on to read the snapshot; then the plans, or a new connection; or a first connection. */
  function SyncExchange(): Code { Either(Block([Maybe(USE_STATE), Either(USE_STATE, Block([USE_STATE]))]), USE_STATE) }

  function SyncActiveNetwork(): Code { Block([USE_STATE, Maybe(Block([USE_STATE, USE_STATE]))]) }

  function SyncTunnel(): Code { Block([USE_STATE, Maybe(Block([ReplaceTunnel(), USE_STATE]))]) }

  function ConnectBody(links: nat): Code {
    Block([USE_STATE, USE_STATE, Maybe(Take(P2PState)), Either(DirectPath(), FallbackPath(links))])
  }

  function DirectPath(): Code { Block([Take(PathState), Take(PathState), USE_STATE, FinalizeConnectedPath()]) }

  function ViaRelay(links: nat): Code { Block([Maybe(USE_STATE), Maybe(Take(RelayState)), Maybe(OnP2PFailed(links))]) }

  function EndsConnected(): Code { Block([Take(PathState), USE_STATE, FinalizeConnectedPath()]) }

  function FallbackPath(links: nat): Code {
    Block([Maybe(OnP2PFailed(links)), Either(ConnectViaPool(links), ViaRelay(links)), Maybe(OnP2PFailed(links)),
           Take(PathState), Either(EndsConnected(), Block([Take(PathState), USE_STATE]))])
  }

  function ProbeBody(links: nat): Code {
    Block([Take(PathState), PathTransport(links), Maybe(USE_STATE), Take(ProbeSequence), Repeat(PathTransport(links)),
           Maybe(PoolCall(links)), Take(CurrentTunnel), USE_STATE])
  }

  // ---------------------------------------------------------------- every operation keeps the order

  lemma TakeOrdered(m: Mutex, floor: int)
    requires floor < Rank(m)
    ensures Ordered(Take(m), floor) && Ordered(Maybe(Take(m)), floor)
  {
  }

  lemma MaybeOrdered(c: Code, floor: int)
    requires Ordered(c, floor)
    ensures Ordered(Maybe(c), floor)
  {
  }

  lemma {:induction false} SomeClientsOrdered(links: nat)
    ensures Ordered(SomeClients(links), Rank(PoolState))
  {
    if links > 0 {
      SomeClientsOrdered(links - 1);
      TakeOrdered(DerpClientState(links - 1), Rank(PoolState));
    }
  }

  lemma PoolCallOrdered(links: nat)
    ensures Ordered(PoolCall(links), -1) && Ordered(OnP2PFailed(links), -1) && Ordered(Maybe(OnP2PFailed(links)), -1)
    ensures Ordered(PathTransport(links), -1) && Ordered(ConnectViaPool(links), -1)
  {
    SomeClientsOrdered(links);
    TakeOrdered(PathState, -1);
    TakeOrdered(P2PState, -1);
    TakeOrdered(RelayState, -1);
    TakeOrdered(SnapshotState, -1);
    assert Ordered(PoolCall(links), -1);
    assert Ordered(Either(Take(P2PState), Maybe(Take(RelayState))), -1);
    MaybeOrdered(OnP2PFailed(links), -1);
  }

  lemma TunnelOrdered(floor: int)
    requires floor < Rank(CurrentTunnel)
    ensures Ordered(ReplaceTunnel(), floor) && Ordered(FinalizeConnectedPath(), floor)
  {
    TakeOrdered(BackendState, Rank(CurrentTunnel));
    TakeOrdered(CurrentTunnel, floor);
    TakeOrdered(SnapshotState, floor);
  }

  lemma SyncPartsOrdered()
    ensures Ordered(SyncExchange(), 0) && Ordered(SyncActiveNetwork(), 0) && Ordered(SyncTunnel(), 0)
  {
    TakeOrdered(SnapshotState, 0);
    TunnelOrdered(0);
    assert Ordered(Block([Maybe(USE_STATE), Either(USE_STATE, Block([USE_STATE]))]), 0);
    assert Ordered(Block([USE_STATE, USE_STATE]), 0);
    assert Ordered(Block([ReplaceTunnel(), USE_STATE]), 0);
  }

  lemma SyncOrdered()
    ensures Ordered(Body(ControlSync), -1)
  {
    TakeOrdered(SnapshotState, -1);
    TakeOrdered(SnapshotState, 0);
    SyncPartsOrdered();
    assert Ordered(SyncUnderControl(), 0);
  }

  lemma ConnectOrdered(links: nat)
    ensures Ordered(ConnectBody(links), -1)
  {
    TakeOrdered(SnapshotState, -1);
    TakeOrdered(PathState, -1);
    TakeOrdered(P2PState, -1);
    TakeOrdered(RelayState, -1);
    TunnelOrdered(-1);
    PoolCallOrdered(links);
    assert Ordered(DirectPath(), -1) && Ordered(ViaRelay(links), -1) && Ordered(EndsConnected(), -1);
    assert Ordered(Block([Take(PathState), USE_STATE]), -1);
    assert Ordered(FallbackPath(links), -1);
  }

  lemma ProbeOrdered(links: nat)
    ensures Ordered(ProbeBody(links), -1)
  {
    TakeOrdered(SnapshotState, -1);
    TakeOrdered(PathState, -1);
    TakeOrdered(ProbeSequence, -1);
    TakeOrdered(CurrentTunnel, -1);
    PoolCallOrdered(links);
  }

  /** Every operation takes its mutexes in one global order: control channel, tunnel tracker, snapshot, then the rest. */
  lemma EveryOpOrdered(op: Op)
    ensures Ordered(Body(op), -1)
  {
    TakeOrdered(SnapshotState, -1);
    match op
    case RestoreSnapshot =>
      TakeOrdered(SnapshotState, 1);
      assert Ordered(Block([USE_STATE]), 1);
      assert Ordered(Block([Locked(CurrentTunnel, Block([USE_STATE]))]), 0);
    case Disconnect =>
      TakeOrdered(CurrentTunnel, 0);
      TakeOrdered(BackendState, 0);
      TakeOrdered(SnapshotState, 0);
      assert Ordered(Block([Take(CurrentTunnel), Maybe(Take(BackendState)), USE_STATE]), 0);
    case ControlSync => SyncOrdered();
    case Connect(links) => ConnectOrdered(links);
    case Probe(links) => ProbeOrdered(links);
    case Send(links) => ProbeOrdered(links);
    case _ =>
  }

  // ---------------------------------------------------------------- any number of threads

  function Bodies(ops: seq<Op>): seq<Code> { seq(|ops|, k requires 0 <= k < |ops| => Body(ops[k])) }

  /** Thread `i` is to run `plan[i]`, operation after operation. */
  function Threads(plan: seq<seq<Op>>): Config { seq(|plan|, i requires 0 <= i < |plan| => Thread([], Bodies(plan[i]))) }

  lemma ThreadsInv(plan: seq<seq<Op>>)
    ensures Inv(Threads(plan))
  {
    forall i, k | 0 <= i < |plan| && 0 <= k < |plan[i]|
      ensures Ordered(Threads(plan)[i].todo[k], -1)
    {
      EveryOpOrdered(plan[i][k]);
    }
  }

  /** No schedule of any number of threads reaches a set of threads that all wait for one another. */
  lemma FacadeNeverDeadlocks(plan: seq<seq<Op>>, moves: seq<Move>, circle: set<nat>)
    requires ValidRun(Threads(plan), moves)
    ensures !Deadlocked(Run(Threads(plan), moves), circle)
  {
    ThreadsInv(plan);
    NeverDeadlocked(Threads(plan), moves, circle);
  }

  /** As long as some thread is not finished, some thread can go on. */
  lemma FacadeAlwaysGoesOn(plan: seq<seq<Op>>, moves: seq<Move>, i: nat) returns (j: nat)
    requires ValidRun(Threads(plan), moves)
    requires i < |Run(Threads(plan), moves)| && !Finished(Run(Threads(plan), moves)[i])
    ensures Enabled(Run(Threads(plan), moves), Move(j, Left))
  {
    ThreadsInv(plan);
    RunInv(Threads(plan), moves);
    j := SomeoneCanMove(Run(Threads(plan), moves), i);
  }

  /** At every moment each thread's guards are in rank order and it asks only for a mutex above all of them,
      so never for one it holds. */
  lemma FacadeTakesInOrder(plan: seq<seq<Op>>, moves: seq<Move>, i: nat, m: Mutex)
    requires ValidRun(Threads(plan), moves) && i < |Run(Threads(plan), moves)|
    requires WantsLock(Run(Threads(plan), moves)[i]) && Holds(Run(Threads(plan), moves)[i].stack, m)
    ensures Rank(m) < Rank(Wanted(Run(Threads(plan), moves)[i]))
    ensures !Holds(Run(Threads(plan), moves)[i].stack, Wanted(Run(Threads(plan), moves)[i]))
  {
    ThreadsInv(plan);
    RunInv(Threads(plan), moves);
    var t := Run(Threads(plan), moves)[i];
    WaitsHigher(t, m);
    if Holds(t.stack, Wanted(t)) {
      WaitsHigher(t, Wanted(t));
    }
  }

  /** Mutual exclusion: no mutex has two holders. */
  lemma OneHolder(plan: seq<seq<Op>>, moves: seq<Move>, i: nat, j: nat, m: Mutex)
    requires ValidRun(Threads(plan), moves) && i < |Run(Threads(plan), moves)| && j < |Run(Threads(plan), moves)|
    requires Holds(Run(Threads(plan), moves)[i].stack, m) && Holds(Run(Threads(plan), moves)[j].stack, m)
    ensures i == j
  {
    ThreadsInv(plan);
    RunInv(Threads(plan), moves);
  }
}
