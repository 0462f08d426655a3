/** The facade at the granularity of its locks: any number of connects interleave with each other and with the one
    control sync or disconnect that holds the control channel's mutex. Each step is what happens under one hold of the
    path manager's, the tunnel tracker's or the snapshot's mutex; the values an operation carries in between are its job. */
module FacadeSteps {
  import opened Common
  import opened Facade

  /** A fallback connect is `Routed` when the manager has its path, `Judged` when the connection state is read off the
      path, `Planned` when the path is read again and the tunnel planned for it, `Replaced` when the tunnel is up. */
  datatype Job =
    | Routed(peer: Peer, localIp: Option<string>)
    | Judged(connection: ConnectionState, peer: Peer, localIp: Option<string>)
    | Planned(connection: ConnectionState, path: ActivePath, config: Option<TunnelConfig>)
    | Replaced(connection: ConnectionState, path: ActivePath, config: Option<TunnelConfig>)
    | Writing(snapshot: Snapshot)
    | SyncPlanned(wanted: TunnelConfig)
    | SyncWriting(wanted: TunnelConfig)
    | Closing(peerIp: Option<string>)
    | Cleared

  predicate HoldsControl(j: Job) { j.SyncPlanned? || j.SyncWriting? || j.Closing? || j.Cleared? }

  /** `control` is the thread that holds the control channel's mutex. */
  datatype Shared = Shared(state: State, jobs: map<nat, Job>, control: Option<nat>)

  const IDLE := Shared(FRESH, map[], None)

  datatype Event =
    | Reroute(path: ActivePath)
    | BeginFallback(thread: nat, peer: Peer, localIp: Option<string>)
    | BeginDirect(thread: nat, peer: Peer, localIp: Option<string>)
    | BeginSync(thread: nat, news: News, localIp: Option<string>)
    | BeginDisconnect(thread: nat)
    | GiveUp(thread: nat)
    | Next(thread: nat, backend: Backend)

  /** A fallback connect may set any path while it routes; a direct one sets the direct path and knows its connection
      state; a sync or disconnect waits for the control channel; a connect
      or sync gives up when its key pair cannot be had. */
  predicate Enabled(s: Shared, e: Event) {
    match e
    case Reroute(_) => true
    case BeginFallback(t, _, _) => t !in s.jobs
    case BeginDirect(t, _, _) => t !in s.jobs
    case BeginSync(t, _, _) => t !in s.jobs && s.control.None?
    case BeginDisconnect(t) => t !in s.jobs && s.control.None?
    case GiveUp(t) => t in s.jobs && (s.jobs[t].Planned? || s.jobs[t].SyncPlanned?)
    case Next(t, _) => t in s.jobs
  }

  function Done(s: Shared, t: nat): Shared {
    s.(jobs := s.jobs - {t}, control := if s.control == Some(t) then None else s.control)
  }

  function Go(s: Shared, t: nat, j: Job): Shared { s.(jobs := s.jobs[t := j]) }

  function Apply(s: Shared, e: Event): Shared
    requires Enabled(s, e)
  {
    match e
    case Reroute(p) => s.(state := s.state.(path := p))
    case BeginFallback(t, peer, localIp) => Go(s, t, Routed(peer, localIp))
    case BeginDirect(t, peer, localIp) =>
      Go(s.(state := s.state.(path := P2P(peer.nodeId))), t, Judged(Connected(PathP2P), peer, localIp))
    case BeginSync(t, news, localIp) =>
      var peer := SyncPeer(s.state, news);
      if peer.None? then s
      else
        var config := BuildConfig(s.state.snapshot.path.value, localIp, peer.value);
        if config.None? then s else Go(s.(control := Some(t)), t, SyncPlanned(config.value))
    case BeginDisconnect(t) => Go(s.(state := s.state.(tracker := None), control := Some(t)), t, Closing(s.state.tracker))
    case GiveUp(t) => Done(s, t)
    case Next(t, b) => Advance(s, t, b)
  }

  /** One lock hold of thread `t`. */
  function Advance(s: Shared, t: nat, b: Backend): Shared
    requires t in s.jobs
  {
    match s.jobs[t]
    case Routed(peer, localIp) => Go(s, t, Judged(Derived(s.state.path), peer, localIp))
    case Judged(c, peer, localIp) =>
      var p := s.state.path;
      if c.Connected? then Go(s, t, Planned(c, p, BuildConfig(p, localIp, peer)))
      else Go(s, t, Writing(Snapshot(Some(c), Some(p), None, None)))
    case Planned(c, p, config) =>
      var (state, ok) := ReplaceTunnel(s.state, config, b);
      var s1 := s.(state := state);
      if ok then Go(s1, t, Replaced(c, p, config)) else Done(s1, t)
    case Replaced(c, p, config) => Go(s, t, Writing(Snapshot(Some(c), Some(p), s.state.tracker, RuntimeOf(config))))
    case Writing(snapshot) => Done(s.(state := s.state.(snapshot := snapshot)), t)
    case SyncPlanned(config) =>
      var (state, ok) := ReplaceTunnel(s.state, Some(config), b);
      var s1 := s.(state := state);
      if ok then Go(s1, t, SyncWriting(config)) else Done(s1, t)
    case SyncWriting(config) =>
      var snapshot := s.state.snapshot.(tunnelIp := Some(config.peerIp), runtime := Some(BuildRuntime(config)));
      Done(s.(state := s.state.(snapshot := snapshot)), t)
    case Closing(None) => Go(s, t, Cleared)
    case Closing(Some(ip)) =>
      if b.closeOk then Go(s.(state := s.state.(established := s.state.established - {ip})), t, Cleared) else Done(s, t)
    case Cleared => Done(s.(state := s.state.(snapshot := Snapshot(Some(Disconnected), None, None, None))), t)
  }

  ghost predicate ValidRun(es: seq<Event>)
    decreases |es|, 0
  {
    es == [] || (ValidRun(es[..|es| - 1]) && Enabled(Run(es[..|es| - 1]), es[|es| - 1]))
  }

  ghost function Run(es: seq<Event>): Shared
    requires ValidRun(es)
    decreases |es|, 1
  {
    if es == [] then IDLE else Apply(Run(es[..|es| - 1]), es[|es| - 1])
  }

  // ---------------------------------------------------------------- one at a time

  /** Left alone, the last three steps of a connect are the sequential `finalize_connected_path`. */
  lemma AloneIsFinalize(s: Shared, t: nat, b: Backend)
    requires t in s.jobs && s.jobs[t].Planned? && s.control != Some(t)
    ensures var j := s.jobs[t];
            var (state, ok) := Finalize(s.state, j.connection, j.path, j.config, b);
            var s1 := Advance(s, t, b);
            && (ok <==> t in s1.jobs)
            && (!ok ==> s1 == Shared(state, s.jobs - {t}, s.control))
            && (ok ==> Advance(Advance(s1, t, b), t, b) == Shared(state, s.jobs - {t}, s.control))
  {
    var s1 := Advance(s, t, b);
    if t in s1.jobs {
      assert Advance(Advance(s1, t, b), t, b).jobs == s.jobs - {t};
    }
  }

  /** Left alone, the three steps of a disconnect are the sequential one. */
  lemma AloneIsDisconnect(s: Shared, t: nat, b: Backend)
    requires Enabled(s, BeginDisconnect(t))
    ensures var (state, ok) := Disconnect(s.state, b.closeOk);
            var s1 := Advance(Apply(s, BeginDisconnect(t)), t, b);
            && (ok <==> t in s1.jobs)
            && (!ok ==> s1 == Shared(state, s.jobs, None))
            && (ok ==> Advance(s1, t, b) == Shared(state, s.jobs, None))
  {
    var s1 := Advance(Apply(s, BeginDisconnect(t)), t, b);
    assert s1.jobs - {t} == s.jobs;
  }

  // ---------------------------------------------------------------- tracker and backend

  /** The address a disconnect has taken from the tracker and not yet closed. */
  function InClose(s: Shared): Option<string> {
    if s.control.None? || s.control.value !in s.jobs then None
    else match s.jobs[s.control.value] case Closing(ip) => ip case _ => None
  }

  function AsSet(ip: Option<string>): set<string> { if ip.Some? then {ip.value} else {} }

  /** Only the holder of the control channel syncs or disconnects. */
  ghost predicate ControlOk(s: Shared) {
    && (forall t | t in s.jobs && HoldsControl(s.jobs[t]) :: s.control == Some(t))
    && (s.control.Some? ==> s.control.value in s.jobs && HoldsControl(s.jobs[s.control.value]))
  }

  /** The tracked tunnel is established, and nothing else is but what a disconnect is about to close. */
  predicate NearMatch(s: Shared) {
    AsSet(s.state.tracker) <= s.state.established.Keys <= AsSet(s.state.tracker) + AsSet(InClose(s))
  }

  /** A disconnect about to close `ip` does it cleanly: the close succeeds and no connect has brought the same tunnel
      back, or it fails and there is nothing left of `ip` to close, or a connect has brought it back. */
  predicate CleanClose(s: Shared, e: Event) {
    e.Next? && e.thread in s.jobs && s.jobs[e.thread].Closing? && s.jobs[e.thread].peerIp.Some? ==>
      var ip := s.jobs[e.thread].peerIp.value;
      if e.backend.closeOk then s.state.tracker != Some(ip) else ip !in s.state.established || s.state.tracker == Some(ip)
  }

  lemma ControlStep(s: Shared, e: Event)
    requires ControlOk(s) && Enabled(s, e)
    ensures ControlOk(Apply(s, e))
  {
  }

  lemma ReplaceNear(s: State, config: Option<TunnelConfig>, b: Backend, spare: set<string>)
    requires AsSet(s.tracker) <= s.established.Keys <= AsSet(s.tracker) + spare
    ensures var t := ReplaceTunnel(s, config, b).0; AsSet(t.tracker) <= t.established.Keys <= AsSet(t.tracker) + spare
  {
  }

  /** A step that is no close keeps what is being closed, and tracker and backend as near as they were. */
  lemma NearStep(s: Shared, e: Event)
    requires ControlOk(s) && Enabled(s, e) && NearMatch(s)
    requires e.Next? ==> !s.jobs[e.thread].Closing?
    ensures NearMatch(Apply(s, e))
  {
    if e.Next? && s.jobs[e.thread].Planned? {
      ReplaceNear(s.state, s.jobs[e.thread].config, e.backend, AsSet(InClose(s)));
    } else if e.Next? && s.jobs[e.thread].SyncPlanned? {
      ReplaceNear(s.state, Some(s.jobs[e.thread].wanted), e.backend, AsSet(InClose(s)));
    }
  }

  lemma CloseExact(s: Shared, e: Event)
    requires ControlOk(s) && Enabled(s, e) && NearMatch(s) && e.Next? && s.jobs[e.thread].Closing?
    ensures InClose(Apply(s, e)).None?
    ensures TunnelsMatch(Apply(s, e).state) <==> CleanClose(s, e)
    ensures TunnelsMatch(Apply(s, e).state) ==> NearMatch(Apply(s, e))
  {
    assert InClose(s) == s.jobs[e.thread].peerIp;
  }

  /** Whenever no disconnect is between taking the tracker and closing, tracker and backend agree. */
  ghost predicate AlwaysMatch(es: seq<Event>)
    requires ValidRun(es)
    decreases |es|
  {
    && (InClose(Run(es)).None? ==> TunnelsMatch(Run(es).state))
    && (es != [] ==> AlwaysMatch(es[..|es| - 1]))
  }

  ghost predicate AlwaysClean(es: seq<Event>)
    requires ValidRun(es)
    decreases |es|
  {
    es != [] ==> AlwaysClean(es[..|es| - 1]) && CleanClose(Run(es[..|es| - 1]), es[|es| - 1])
  }

  /** Over every interleaving of connects, syncs and disconnects, tracker and backend agree whenever no close is
      pending if and only if every close is clean. */
  lemma {:induction false} InterleavedMatchExactly(es: seq<Event>)
    requires ValidRun(es)
    ensures AlwaysMatch(es) <==> AlwaysClean(es)
    ensures ControlOk(Run(es)) && (AlwaysClean(es) ==> NearMatch(Run(es)))
  {
    if es != [] {
      var front, e := es[..|es| - 1], es[|es| - 1];
      InterleavedMatchExactly(front);
      ControlStep(Run(front), e);
      if AlwaysClean(front) {
        if e.Next? && Run(front).jobs[e.thread].Closing? {
          CloseExact(Run(front), e);
        } else {
          NearStep(Run(front), e);
        }
      }
    }
  }

  // ---------------------------------------------------------------- what others do in a thread's windows

  /** A step of thread `t` itself; the steps between two of them are what others did meanwhile. */
  predicate Own(e: Event, t: nat) { !e.Reroute? && e.thread == t }

  /** The path a step makes the manager's. */
  function Sets(e: Event): Option<ActivePath> {
    match e
    case Reroute(p) => Some(p)
    case BeginDirect(_, peer, _) => Some(P2P(peer.nodeId))
    case _ => None
  }

  /** What replacing a tunnel tracked as `former` by `wanted` leaves tracked: nothing new if it cannot be closed. */
  function Leftover(former: Option<string>, wanted: Option<string>, b: Backend): Option<Option<string>> {
    if former.Some? && former != wanted && !b.closeOk then None
    else if former == wanted || wanted.None? || b.establishOk then Some(wanted)
    else Some(None)
  }

  /** What a step leaves in the tracker, if it is one that writes it: a replacement or a disconnect's take. */
  function Leaves(s: Shared, e: Event): Option<Option<string>> {
    if e.BeginDisconnect? then Some(None)
    else if !e.Next? || e.thread !in s.jobs then None
    else match s.jobs[e.thread]
      case Planned(_, _, config) => Leftover(s.state.tracker, IpOf(config), e.backend)
      case SyncPlanned(config) => Leftover(s.state.tracker, Some(config.peerIp), e.backend)
      case _ => None
  }

  /** The connection state a connect stores with this step. */
  function Stores(s: Shared, e: Event): Option<Option<ConnectionState>> {
    if e.Next? && e.thread in s.jobs && s.jobs[e.thread].Writing? then Some(s.jobs[e.thread].snapshot.connection) else None
  }

  /** What others did to a thread: the last path they set and what their last tunnel step left in the tracker, since its
      own last step; the last connection state they stored, since its sync began; and whether its connect is disturbed. */
  datatype Seen = Seen(path: Option<ActivePath>, tracker: Option<Option<string>>,
                       connection: Option<Option<ConnectionState>>, disturbed: bool)

  const NOTHING := Seen(None, None, None, false)

  /** The last path set between judging and planning is of another kind, or the last tunnel step between replacing and
      reading the tracker left another address. */
  predicate Disturbs(j: Job, seen: Seen) {
    match j
    case Judged(c, _, _) => seen.path.Some? && Derived(seen.path.value) != c
    case Replaced(_, _, config) => seen.disturbed || (seen.tracker.Some? && seen.tracker.value != IpOf(config))
    case _ => seen.disturbed
  }

  /** One step more. */
  function Watch(s: Shared, seen: Seen, e: Event, t: nat): Seen {
    if Own(e, t) then
      Seen(None, None, if e.BeginSync? then None else seen.connection,
           if e.Next? && t in s.jobs then Disturbs(s.jobs[t], seen) else seen.disturbed)
    else
      Seen(if Sets(e).Some? then Sets(e) else seen.path,
           if Leaves(s, e).Some? then Leaves(s, e) else seen.tracker,
           if Stores(s, e).Some? then Stores(s, e) else seen.connection,
           seen.disturbed)
  }

  ghost function SeenBy(es: seq<Event>, t: nat): Seen
    requires ValidRun(es)
    decreases |es|
  {
    if es == [] then NOTHING else Watch(Run(es[..|es| - 1]), SeenBy(es[..|es| - 1], t), es[|es| - 1], t)
  }

  /** The step stores the result of a disturbed connect, or that of a sync after a connect has stored a connection of
      another kind than the sync planned for. */
  ghost predicate StoresDisturbed(es: seq<Event>, e: Event)
    requires ValidRun(es)
  {
    e.Next? && e.thread in Run(es).jobs && IsDisturbed(Run(es).jobs[e.thread], SeenBy(es, e.thread))
  }

  predicate IsDisturbed(j: Job, seen: Seen) {
    match j
    case Writing(_) => seen.disturbed
    case SyncWriting(config) => seen.connection.Some? && seen.connection.value != Some(Connected(config.transport))
    case _ => false
  }

  // ---------------------------------------------------------------- the snapshot

  lemma LeavesIsLeft(s: Shared, e: Event)
    requires Enabled(s, e)
    ensures Apply(s, e).state.tracker == if Leaves(s, e).Some? then Leaves(s, e).value else s.state.tracker
    ensures Apply(s, e).state.path == if Sets(e).Some? then Sets(e).value else s.state.path
  {
  }

  predicate ConfigFor(config: Option<TunnelConfig>, p: ActivePath) {
    config.Some? ==> Derived(p) == Connected(config.value.transport)
  }

  /** What a connect carries, and what it will find, told by what others did. */
  predicate Told(state: State, j: Job, seen: Seen) {
    match j
    case Judged(c, _, _) =>
      && (c.Connected? || c == Disconnected)
      && if seen.path.Some? then state.path == seen.path.value else Derived(state.path) == c
    case Planned(c, p, config) => c.Connected? && ConfigFor(config, p) && (Derived(p) == c <==> !seen.disturbed)
    case Replaced(c, p, config) =>
      && c.Connected? && ConfigFor(config, p) && (Derived(p) == c <==> !seen.disturbed)
      && state.tracker == if seen.tracker.Some? then seen.tracker.value else IpOf(config)
    case Writing(snapshot) => Coherent(snapshot) <==> !seen.disturbed
    case _ => true
  }

  /** What a sync will find, told by what connects stored. */
  predicate SyncTold(state: State, j: Job, seen: Seen) {
    j.SyncPlanned? || j.SyncWriting? ==>
      state.snapshot.connection ==
      if seen.connection.Some? then seen.connection.value else Some(Connected(j.wanted.transport))
  }

  lemma OthersTold(s: Shared, e: Event, t: nat, seen: Seen)
    requires Enabled(s, e) && !Own(e, t) && t in s.jobs && Told(s.state, s.jobs[t], seen)
    ensures var s1 := Apply(s, e); t in s1.jobs && s1.jobs[t] == s.jobs[t] && Told(s1.state, s1.jobs[t], Watch(s, seen, e, t))
  {
    LeavesIsLeft(s, e);
  }

  lemma BeginTold(s: Shared, e: Event, t: nat, seen: Seen)
    requires Enabled(s, e) && Own(e, t) && !e.Next?
    ensures var s1 := Apply(s, e); t in s1.jobs && t !in s.jobs ==> Told(s1.state, s1.jobs[t], Watch(s, seen, e, t))
    ensures t in s.jobs ==> t !in Apply(s, e).jobs
  {
  }

  lemma OwnTold(s: Shared, t: nat, b: Backend, seen: Seen)
    requires t in s.jobs && Told(s.state, s.jobs[t], seen)
    ensures var s1 := Apply(s, Next(t, b)); t in s1.jobs ==> Told(s1.state, s1.jobs[t], Watch(s, seen, Next(t, b), t))
  {
    if s.jobs[t].Planned? {
      ReplaceKeepsMatch(s.state, s.jobs[t].config, b);
    }
  }

  lemma {:induction false} AllTold(es: seq<Event>, t: nat)
    requires ValidRun(es) && t in Run(es).jobs
    ensures Told(Run(es).state, Run(es).jobs[t], SeenBy(es, t))
  {
    var front, e := es[..|es| - 1], es[|es| - 1];
    var s, seen := Run(front), SeenBy(front, t);
    if Own(e, t) && !e.Next? {
      BeginTold(s, e, t, seen);
    } else {
      AllTold(front, t);
      if Own(e, t) {
        OwnTold(s, t, e.backend, seen);
      } else {
        OthersTold(s, e, t, seen);
      }
    }
  }

  // ---- syncs

  /** While `t` holds the control channel, only a connect's store changes the stored connection state. */
  lemma StoreOnly(s: Shared, e: Event, t: nat)
    requires Enabled(s, e) && ControlOk(s) && !Own(e, t) && t in s.jobs && HoldsControl(s.jobs[t])
    ensures Apply(s, e).state.snapshot.connection
            == if Stores(s, e).Some? then Stores(s, e).value else s.state.snapshot.connection
  {
  }

  lemma OthersSyncTold(s: Shared, e: Event, t: nat, seen: Seen)
    requires Enabled(s, e) && ControlOk(s) && !Own(e, t) && t in s.jobs && SyncTold(s.state, s.jobs[t], seen)
    ensures var s1 := Apply(s, e); t in s1.jobs && SyncTold(s1.state, s1.jobs[t], Watch(s, seen, e, t))
  {
    if HoldsControl(s.jobs[t]) {
      StoreOnly(s, e, t);
    }
  }

  lemma OwnSyncTold(s: Shared, e: Event, t: nat, seen: Seen)
    requires Enabled(s, e) && Own(e, t) && Coherent(s.state.snapshot) && (t in s.jobs ==> SyncTold(s.state, s.jobs[t], seen))
    ensures var s1 := Apply(s, e); t in s1.jobs ==> SyncTold(s1.state, s1.jobs[t], Watch(s, seen, e, t))
  {
  }

  /** As long as the snapshot has been coherent, a sync's plan is for the connection stored when it began. */
  lemma {:induction false} AllSyncsTold(es: seq<Event>, t: nat)
    requires ValidRun(es) && t in Run(es).jobs && (es != [] ==> AlwaysCoherent(es[..|es| - 1]))
    ensures SyncTold(Run(es).state, Run(es).jobs[t], SeenBy(es, t))
  {
    var front, e := es[..|es| - 1], es[|es| - 1];
    var s, seen := Run(front), SeenBy(front, t);
    if t in s.jobs {
      AllSyncsTold(front, t);
    }
    if Own(e, t) {
      OwnSyncTold(s, e, t, seen);
    } else {
      InterleavedMatchExactly(front);
      OthersSyncTold(s, e, t, seen);
    }
  }

  // ---- the result

  ghost predicate AlwaysCoherent(es: seq<Event>)
    requires ValidRun(es)
    decreases |es|
  {
    Coherent(Run(es).state.snapshot) && (es != [] ==> AlwaysCoherent(es[..|es| - 1]))
  }

  ghost predicate NeverStoresDisturbed(es: seq<Event>)
    requires ValidRun(es)
    decreases |es|
  {
    es != [] ==> NeverStoresDisturbed(es[..|es| - 1]) && !StoresDisturbed(es[..|es| - 1], es[|es| - 1])
  }

  lemma StoreExact(s: Shared, e: Event, seen: Seen)
    requires Enabled(s, e) && Coherent(s.state.snapshot)
    requires e.Next? ==> Told(s.state, s.jobs[e.thread], seen) && SyncTold(s.state, s.jobs[e.thread], seen)
    ensures Coherent(Apply(s, e).state.snapshot) <==> !(e.Next? && IsDisturbed(s.jobs[e.thread], seen))
  {
  }

  /** Over every interleaving the snapshot is coherent in all states if and only if no disturbed connect stores its
      result, and no sync stores its own after a connect stored a connection of another kind meanwhile. */
  lemma {:induction false} InterleavedCoherentExactly(es: seq<Event>)
    requires ValidRun(es)
    ensures AlwaysCoherent(es) <==> NeverStoresDisturbed(es)
  {
    if es != [] {
      var front, e := es[..|es| - 1], es[|es| - 1];
      InterleavedCoherentExactly(front);
      if AlwaysCoherent(front) {
        if e.Next? {
          AllTold(front, e.thread);
          AllSyncsTold(front, e.thread);
        }
        StoreExact(Run(front), e, if e.Reroute? then NOTHING else SeenBy(front, e.thread));
      }
    }
  }

  // ---- schedules that are safe

  /** The step comes outside the windows it could disturb: nobody else is between judging and planning when a path is set,
      between replacing and reading when the tracker is written, or in a sync when a connect stores. */
  ghost predicate Quiet(s: Shared, e: Event) { forall u | u in s.jobs && !Own(e, u) :: Spares(s, e, s.jobs[u]) }

  predicate Spares(s: Shared, e: Event, j: Job) {
    && (Sets(e).Some? ==> !j.Judged?)
    && (Leaves(s, e).Some? ==> !j.Replaced?)
    && (Stores(s, e).Some? ==> !j.SyncPlanned? && !j.SyncWriting?)
  }

  ghost predicate QuietRun(es: seq<Event>)
    requires ValidRun(es)
    decreases |es|
  {
    es != [] ==> QuietRun(es[..|es| - 1]) && Quiet(Run(es[..|es| - 1]), es[|es| - 1])
  }

  /** Nobody came between what the thread did last and now. */
  predicate Untouched(j: Job, seen: Seen) {
    match j
    case Judged(_, _, _) => seen.path.None?
    case Planned(_, _, _) => !seen.disturbed
    case Replaced(_, _, _) => !seen.disturbed && seen.tracker.None?
    case Writing(_) => !seen.disturbed
    case SyncPlanned(_) => seen.connection.None?
    case SyncWriting(_) => seen.connection.None?
    case _ => true
  }

  lemma QuietOthers(s: Shared, e: Event, t: nat, seen: Seen)
    requires Enabled(s, e) && !Own(e, t) && t in s.jobs && Spares(s, e, s.jobs[t]) && Untouched(s.jobs[t], seen)
    ensures t in Apply(s, e).jobs && Untouched(Apply(s, e).jobs[t], Watch(s, seen, e, t))
  {
  }

  lemma QuietOwn(s: Shared, e: Event, t: nat, seen: Seen)
    requires Enabled(s, e) && Own(e, t) && (t in s.jobs ==> Untouched(s.jobs[t], seen))
    ensures t in Apply(s, e).jobs ==> Untouched(Apply(s, e).jobs[t], Watch(s, seen, e, t))
  {
  }

  lemma {:induction false} QuietLeavesUntouched(es: seq<Event>, t: nat)
    requires ValidRun(es) && QuietRun(es) && t in Run(es).jobs
    ensures Untouched(Run(es).jobs[t], SeenBy(es, t))
  {
    var front, e := es[..|es| - 1], es[|es| - 1];
    var s, seen := Run(front), SeenBy(front, t);
    if t in s.jobs {
      QuietLeavesUntouched(front, t);
    }
    if Own(e, t) {
      QuietOwn(s, e, t, seen);
    } else {
      QuietOthers(s, e, t, seen);
    }
  }

  lemma {:induction false} QuietNeverStoresDisturbed(es: seq<Event>)
    requires ValidRun(es) && QuietRun(es)
    ensures NeverStoresDisturbed(es)
  {
    if es != [] {
      var front, e := es[..|es| - 1], es[|es| - 1];
      QuietNeverStoresDisturbed(front);
      if e.Next? && e.thread in Run(front).jobs {
        QuietLeavesUntouched(front, e.thread);
      }
    }
  }

  /** However many operations overlap, the snapshot stays coherent as long as no step falls into another's window. */
  lemma QuietIsCoherent(es: seq<Event>)
    requires ValidRun(es) && QuietRun(es)
    ensures AlwaysCoherent(es)
  {
    QuietNeverStoresDisturbed(es);
    InterleavedCoherentExactly(es);
  }

  // ---------------------------------------------------------------- interleavings that go wrong

  lemma Extend(es: seq<Event>, e: Event)
    requires ValidRun(es) && Enabled(Run(es), e)
    ensures ValidRun(es + [e]) && Run(es + [e]) == Apply(Run(es), e)
  {
    assert (es + [e])[..|es|] == es;
  }

  const LOCAL := Some("10.0.0.9")

  function RelayPlan(peer: Peer): Job
    requires peer.virtualIps != []
  {
    Planned(Connected(PathRelay), Relay(peer.nodeId), BuildConfig(Relay(peer.nodeId), LOCAL, peer))
  }

  /** Thread `t` takes two more steps. */
  lemma TwoSteps(es: seq<Event>, t: nat)
    requires ValidRun(es) && t in Run(es).jobs && t in Advance(Run(es), t, WORKS).jobs
    ensures var more := es + [Next(t, WORKS)] + [Next(t, WORKS)];
            ValidRun(more) && Run(more) == Advance(Advance(Run(es), t, WORKS), t, WORKS)
  {
    Extend(es, Next(t, WORKS));
    Extend(es + [Next(t, WORKS)], Next(t, WORKS));
  }

  lemma PlanAlone(s: Shared, t: nat, peer: Peer)
    requires s.state.path == Relay(peer.nodeId) && peer.virtualIps != []
    ensures var begun := Go(s, t, Routed(peer, LOCAL));
            Advance(Advance(begun, t, WORKS), t, WORKS) == Go(s, t, RelayPlan(peer))
  {
  }

  /** A connect over the relay up to where it is about to replace the tunnel. */
  lemma PlansRelay(es: seq<Event>, t: nat, peer: Peer) returns (more: seq<Event>)
    requires ValidRun(es) && t !in Run(es).jobs && peer.virtualIps != []
    ensures ValidRun(more) && Run(more) == Go(Run(es).(state := Run(es).state.(path := Relay(peer.nodeId))), t, RelayPlan(peer))
  {
    Extend(es, Reroute(Relay(peer.nodeId)));
    more := es + [Reroute(Relay(peer.nodeId))];
    PlanAlone(Run(more), t, peer);
    Extend(more, BeginFallback(t, peer, LOCAL));
    more := more + [BeginFallback(t, peer, LOCAL)];
    TwoSteps(more, t);
    more := more + [Next(t, WORKS)] + [Next(t, WORKS)];
  }

  /** Connected to A, and a disconnect has taken the tracker. */
  lemma TakesTracker() returns (es: seq<Event>)
    ensures ValidRun(es) && Run(es).state.tracker == None && Run(es).state.established.Keys == {"10.0.0.1"}
    ensures Run(es).jobs.Keys == {0, 2} && Run(es).jobs[2] == Closing(Some("10.0.0.1"))
  {
    es := PlansRelay([], 0, A);
    Extend(es, Next(0, WORKS));
    es := es + [Next(0, WORKS)];
    assert Run(es).state.established.Keys == {"10.0.0.1"} && Run(es).jobs.Keys == {0};
    Extend(es, BeginDisconnect(2));
    es := es + [BeginDisconnect(2)];
  }

  lemma BringsBack() returns (es: seq<Event>)
    ensures ValidRun(es) && Run(es).state.tracker == Some("10.0.0.1") && Run(es).state.established.Keys == {"10.0.0.1"}
    ensures 2 in Run(es).jobs && Run(es).jobs[2] == Closing(Some("10.0.0.1"))
  {
    es := TakesTracker();
    es := PlansRelay(es, 1, A);
    Extend(es, Next(1, WORKS));
    es := es + [Next(1, WORKS)];
  }

  /** A connect that brings a tunnel back between a disconnect's take and its close: every backend call succeeds, yet
      the tracker names a tunnel that is not there. */
  lemma ReconnectDuringDisconnect() returns (es: seq<Event>)
    ensures ValidRun(es) && Run(es).state.tracker == Some("10.0.0.1") && Run(es).state.established == map[]
  {
    es := BringsBack();
    Extend(es, Next(2, WORKS));
    es := es + [Next(2, WORKS)];
  }

  /** Both connects have replaced the tunnel, the one to A first. */
  lemma BothReplace() returns (es: seq<Event>)
    ensures ValidRun(es) && Run(es).state.tracker == Some("10.0.0.2") && 0 in Run(es).jobs
    ensures Run(es).jobs[0] == Replaced(Connected(PathRelay), Relay("a"), RelayPlan(A).config)
  {
    es := PlansRelay([], 0, A);
    es := PlansRelay(es, 1, B);
    Extend(es, Next(0, WORKS));
    es := es + [Next(0, WORKS)];
    assert Run(es).state.tracker == Some("10.0.0.1") && Run(es).jobs[1] == RelayPlan(B);
    Extend(es, Next(1, WORKS));
    es := es + [Next(1, WORKS)];
  }

  /** Two connects that both replace the tunnel before the first one reads the tracker: the snapshot gets one peer's
      address with the other peer's runtime. */
  lemma ConnectsMixTunnels() returns (es: seq<Event>)
    ensures ValidRun(es)
    ensures var snapshot := Run(es).state.snapshot;
            snapshot.tunnelIp == Some("10.0.0.2") && snapshot.runtime.Some? && snapshot.runtime.value.peerIp == "10.0.0.1"
  {
    es := BothReplace();
    TwoSteps(es, 0);
    es := es + [Next(0, WORKS)] + [Next(0, WORKS)];
  }
}
