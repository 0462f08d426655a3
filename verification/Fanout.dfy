/** Peer updates and removals fanned out over any number of server instances through a shared publish/subscribe
    channel. A fan-out takes a revision, then announces to its own sessions, then publishes; each is a step of its
    own, so sessions may come and go and other fan-outs may run in between. */
module Fanout {
  datatype Session = Session(user: string, node: string, network: string)

  type Hub = map<string, Session>

  datatype Kind = PeerUpdate | PeerRemove

  datatype Stage = Numbered | Announced | Published

  /** How the revision came about: no usable INCR, or one that found the counter at `before`. */
  datatype Draw = NoCounter | Found(before: nat)

  datatype Fan = Fan(kind: Kind, origin: nat, network: string, source: string, draw: Draw, stage: Stage)

  /** One broadcast of fan-out `uid` by instance `at`, with the sessions it wrote to. */
  datatype Cast = Cast(at: nat, uid: nat, heard: Hub)

  /** The instance ids, and whether a sync channel is configured. */
  datatype Setup = Setup(ids: seq<string>, sync: bool)

  /** A fan-out's uid is its index in `fans`; `inboxes[i]` is what the channel still has for instance `i`. */
  datatype Cluster = Cluster(hubs: seq<Hub>, inboxes: seq<seq<nat>>, counters: map<string, nat>, fans: seq<Fan>, log: seq<Cast>)

  datatype Event =
    | Join(at: nat, session: Session)
    | Leave(at: nat, node: string)
    | Bump(network: string)
    | Begin(at: nat, kind: Kind, network: string, source: string, incrOk: bool)
    | Announce(uid: nat)
    | Publish(uid: nat)
    | Deliver(at: nat)

  function Start(s: Setup): Cluster {
    Cluster(seq(|s.ids|, i => map[]), seq(|s.ids|, i => []), map[], [], [])
  }

  function Revision(f: Fan): nat { if f.draw.NoCounter? then 1 else f.draw.before + 1 }

  function Counter(c: Cluster, network: string): nat { if network in c.counters then c.counters[network] else 0 }

  /** Whom a broadcast of `f` writes to; a removal without network or source goes to nobody. */
  predicate Addressed(f: Fan, session: Session) {
    && session.network == f.network && session.node != f.source
    && (f.kind == PeerRemove ==> f.network != "" && f.source != "")
  }

  function Recipients(hub: Hub, f: Fan): Hub {
    map node | node in hub && Addressed(f, hub[node]) :: hub[node]
  }

  /** `peersInNetwork`. */
  function Peers(hub: Hub, network: string, exclude: string): Hub {
    map node | node in hub && hub[node].network == network && hub[node].node != exclude :: hub[node]
  }

  function Unregistered(hub: Hub, node: string): Hub { if node == "" then hub else hub - {node} }

  /** A node may join only where no other instance holds it. */
  predicate Enabled(s: Setup, c: Cluster, e: Event) {
    match e
    case Join(at, session) => at < |c.hubs| && forall i | 0 <= i < |c.hubs| && i != at :: session.node !in c.hubs[i]
    case Leave(at, _) => at < |c.hubs|
    case Bump(_) => s.sync
    case Begin(at, _, _, _, _) => at < |c.hubs|
    case Announce(uid) => uid < |c.fans| && c.fans[uid].stage == Numbered && c.fans[uid].origin < |c.hubs|
    case Publish(uid) => uid < |c.fans| && c.fans[uid].stage == Announced
    case Deliver(at) => at < |s.ids| && Arrived(s, c, at)
  }

  predicate Arrived(s: Setup, c: Cluster, at: nat)
    requires at < |s.ids|
  {
    && |c.inboxes| == |c.hubs| == |s.ids| && c.inboxes[at] != []
    && c.inboxes[at][0] < |c.fans| && c.fans[c.inboxes[at][0]].origin < |s.ids|
  }

  /** Each field of the cluster after one step. */
  function Step(s: Setup, c: Cluster, e: Event): Cluster
    requires Enabled(s, c, e)
  {
    Cluster(NextHubs(s, c, e), NextInboxes(s, c, e), NextCounters(s, c, e), NextFans(s, c, e), NextLog(s, c, e))
  }

  function NextHubs(s: Setup, c: Cluster, e: Event): seq<Hub>
    requires Enabled(s, c, e)
  {
    match e
    case Join(at, session) => c.hubs[at := c.hubs[at][session.node := session]]
    case Leave(at, node) => c.hubs[at := Unregistered(c.hubs[at], node)]
    case _ => c.hubs
  }

  function NextInboxes(s: Setup, c: Cluster, e: Event): seq<seq<nat>>
    requires Enabled(s, c, e)
  {
    match e
    case Publish(uid) => if s.sync then Posted(c.inboxes, uid) else c.inboxes
    case Deliver(at) => c.inboxes[at := c.inboxes[at][1..]]
    case _ => c.inboxes
  }

  function NextCounters(s: Setup, c: Cluster, e: Event): map<string, nat>
    requires Enabled(s, c, e)
  {
    match e
    case Bump(network) => c.counters[network := Counter(c, network) + 1]
    case Begin(_, _, network, _, incrOk) =>
      if s.sync && incrOk then c.counters[network := Counter(c, network) + 1] else c.counters
    case _ => c.counters
  }

  function NextFans(s: Setup, c: Cluster, e: Event): seq<Fan>
    requires Enabled(s, c, e)
  {
    match e
    case Begin(at, kind, network, source, incrOk) =>
      c.fans + [Fan(kind, at, network, source, if s.sync && incrOk then Found(Counter(c, network)) else NoCounter, Numbered)]
    case Announce(uid) => c.fans[uid := c.fans[uid].(stage := Announced)]
    case Publish(uid) => c.fans[uid := c.fans[uid].(stage := Published)]
    case _ => c.fans
  }

  function NextLog(s: Setup, c: Cluster, e: Event): seq<Cast>
    requires Enabled(s, c, e)
  {
    match e
    case Announce(uid) => c.log + [CastOf(c, c.fans[uid].origin, uid)]
    case Deliver(at) =>
      var uid := c.inboxes[at][0];
      if s.ids[c.fans[uid].origin] == s.ids[at] then c.log else c.log + [CastOf(c, at, uid)]
    case _ => c.log
  }

  function CastOf(c: Cluster, at: nat, uid: nat): Cast
    requires at < |c.hubs| && uid < |c.fans|
  {
    Cast(at, uid, Recipients(c.hubs[at], c.fans[uid]))
  }

  function Posted(inboxes: seq<seq<nat>>, uid: nat): seq<seq<nat>> {
    seq(|inboxes|, i requires 0 <= i < |inboxes| => inboxes[i] + [uid])
  }

  ghost predicate ValidRun(s: Setup, es: seq<Event>)
    decreases |es|, 0
  {
    es == [] || (ValidRun(s, es[..|es| - 1]) && Enabled(s, Run(s, es[..|es| - 1]), es[|es| - 1]))
  }

  ghost function Run(s: Setup, es: seq<Event>): Cluster
    requires ValidRun(s, es)
    decreases |es|, 1
  {
    if es == [] then Start(s) else Step(s, Run(s, es[..|es| - 1]), es[|es| - 1])
  }

  // ---------------------------------------------------------------- well-formed clusters

  ghost predicate WellFormed(s: Setup, c: Cluster) {
    && |c.hubs| == |c.inboxes| == |s.ids|
    && (forall i, node | 0 <= i < |c.hubs| && node in c.hubs[i] :: c.hubs[i][node].node == node)
    && (forall i, j, node | 0 <= i < |c.hubs| && 0 <= j < |c.hubs| && node in c.hubs[i] && node in c.hubs[j] :: i == j)
    && (forall u | 0 <= u < |c.fans| :: c.fans[u].origin < |s.ids|)
    && (forall i, k | 0 <= i < |c.inboxes| && 0 <= k < |c.inboxes[i]| :: c.inboxes[i][k] < |c.fans|)
    && (forall i | 0 <= i < |c.inboxes| && !s.sync :: c.inboxes[i] == [])
    && (forall k | 0 <= k < |c.log| :: c.log[k].uid < |c.fans|)
  }

  lemma StepWellFormed(s: Setup, c: Cluster, e: Event)
    requires WellFormed(s, c) && Enabled(s, c, e)
    ensures WellFormed(s, Step(s, c, e))
  {
  }

  lemma {:induction false} RunWellFormed(s: Setup, es: seq<Event>)
    requires ValidRun(s, es)
    ensures WellFormed(s, Run(s, es))
  {
    if es != [] {
      RunWellFormed(s, es[..|es| - 1]);
      StepWellFormed(s, Run(s, es[..|es| - 1]), es[|es| - 1]);
    }
  }

  // ---------------------------------------------------------------- each instance broadcasts each fan-out once

  ghost function Count(inbox: seq<nat>, uid: nat): nat { multiset(inbox)[uid] }

  ghost function Casts(log: seq<Cast>, at: nat, uid: nat): nat {
    if log == [] then 0
    else Casts(log[..|log| - 1], at, uid) + if log[|log| - 1].at == at && log[|log| - 1].uid == uid then 1 else 0
  }

  /** How often a session of `node` was written the fan-out. */
  ghost function Hears(log: seq<Cast>, node: string, uid: nat): nat {
    if log == [] then 0
    else Hears(log[..|log| - 1], node, uid) + if log[|log| - 1].uid == uid && node in log[|log| - 1].heard then 1 else 0
  }

  /** Instances further than the origin are reached through the channel, unless they carry the origin's id. */
  ghost predicate Reaches(s: Setup, origin: nat, at: nat)
    requires origin < |s.ids| && at < |s.ids|
  {
    at == origin || (s.sync && s.ids[at] != s.ids[origin])
  }

  /** The broadcasts of `uid` that instance `at` still has to make. */
  ghost function Owed(s: Setup, c: Cluster, at: nat, uid: nat): nat
    requires WellFormed(s, c) && at < |s.ids| && uid < |c.fans|
  {
    OwedBy(s, c.fans[uid], c.inboxes[at], at, uid)
  }

  ghost function OwedBy(s: Setup, f: Fan, inbox: seq<nat>, at: nat, uid: nat): nat
    requires f.origin < |s.ids| && at < |s.ids|
  {
    if at == f.origin then (if f.stage == Numbered then 1 else 0)
    else if !Reaches(s, f.origin, at) then 0
    else (if f.stage == Published then 0 else 1) + Count(inbox, uid)
  }

  lemma LogGrows(log: seq<Cast>, cast: Cast, at: nat, node: string, uid: nat)
    ensures Casts(log + [cast], at, uid) == Casts(log, at, uid) + if cast.at == at && cast.uid == uid then 1 else 0
    ensures Hears(log + [cast], node, uid) == Hears(log, node, uid) + if cast.uid == uid && node in cast.heard then 1 else 0
  {
    assert (log + [cast])[..|log|] == log;
  }

  lemma PopCount(inbox: seq<nat>, uid: nat)
    requires inbox != []
    ensures Count(inbox, uid) == Count(inbox[1..], uid) + if inbox[0] == uid then 1 else 0
  {
    assert inbox == [inbox[0]] + inbox[1..];
  }

  lemma StepBalances(s: Setup, c: Cluster, e: Event, at: nat, uid: nat)
    requires WellFormed(s, c) && Enabled(s, c, e) && at < |s.ids| && uid < |c.fans|
    ensures var fans, inboxes := NextFans(s, c, e), NextInboxes(s, c, e);
      && uid < |fans| && at < |inboxes| && fans[uid].origin == c.fans[uid].origin
      && OwedBy(s, fans[uid], inboxes[at], at, uid) + Casts(NextLog(s, c, e), at, uid)
         == Owed(s, c, at, uid) + Casts(c.log, at, uid)
  {
    if e.Announce? {
      AnnounceBalances(s, c, e.uid, at, uid);
    } else if e.Publish? {
      PublishBalances(s, c, e.uid, at, uid);
    } else if e.Deliver? {
      DeliverBalances(s, c, e.at, at, uid);
    } else {
      assert NextFans(s, c, e)[uid] == c.fans[uid] && NextInboxes(s, c, e) == c.inboxes && NextLog(s, c, e) == c.log;
    }
  }

  lemma AnnounceBalances(s: Setup, c: Cluster, u: nat, at: nat, uid: nat)
    requires WellFormed(s, c) && Enabled(s, c, Announce(u)) && at < |s.ids| && uid < |c.fans|
    ensures OwedBy(s, NextFans(s, c, Announce(u))[uid], c.inboxes[at], at, uid) + Casts(NextLog(s, c, Announce(u)), at, uid)
         == Owed(s, c, at, uid) + Casts(c.log, at, uid)
  {
    LogGrows(c.log, CastOf(c, c.fans[u].origin, u), at, "", uid);
  }

  lemma PublishBalances(s: Setup, c: Cluster, u: nat, at: nat, uid: nat)
    requires WellFormed(s, c) && Enabled(s, c, Publish(u)) && at < |s.ids| && uid < |c.fans|
    ensures OwedBy(s, NextFans(s, c, Publish(u))[uid], NextInboxes(s, c, Publish(u))[at], at, uid) == Owed(s, c, at, uid)
  {
    var inbox := c.inboxes[at];
    assert Count(inbox + [u], uid) == Count(inbox, uid) + if u == uid then 1 else 0;
    assert s.sync ==> NextInboxes(s, c, Publish(u))[at] == inbox + [u];
  }

  lemma DeliverBalances(s: Setup, c: Cluster, i: nat, at: nat, uid: nat)
    requires WellFormed(s, c) && Enabled(s, c, Deliver(i)) && at < |s.ids| && uid < |c.fans|
    ensures OwedBy(s, c.fans[uid], NextInboxes(s, c, Deliver(i))[at], at, uid) + Casts(NextLog(s, c, Deliver(i)), at, uid)
         == Owed(s, c, at, uid) + Casts(c.log, at, uid)
  {
    LogGrows(c.log, CastOf(c, i, c.inboxes[i][0]), at, "", uid);
    PopCount(c.inboxes[i], uid);
  }

  lemma {:induction false} UnheardOf(log: seq<Cast>, at: nat, node: string, uid: nat)
    requires forall k | 0 <= k < |log| :: log[k].uid < uid
    ensures Casts(log, at, uid) == 0 && Hears(log, node, uid) == 0
  {
    if log != [] {
      UnheardOf(log[..|log| - 1], at, node, uid);
    }
  }

  lemma {:induction false} NotInInbox(inbox: seq<nat>, uid: nat)
    requires forall k | 0 <= k < |inbox| :: inbox[k] < uid
    ensures Count(inbox, uid) == 0
  {
  }

  ghost predicate Balanced(s: Setup, c: Cluster, at: nat, uid: nat)
    requires WellFormed(s, c) && at < |s.ids| && uid < |c.fans|
  {
    Owed(s, c, at, uid) + Casts(c.log, at, uid) == if Reaches(s, c.fans[uid].origin, at) then 1 else 0
  }

  lemma BeginBalances(s: Setup, c: Cluster, e: Event, at: nat)
    requires WellFormed(s, c) && Enabled(s, c, e) && at < |s.ids| && WellFormed(s, Step(s, c, e))
    requires |c.fans| < |Step(s, c, e).fans|
    ensures Balanced(s, Step(s, c, e), at, |c.fans|)
  {
    UnheardOf(c.log, at, "", |c.fans|);
    NotInInbox(c.inboxes[at], |c.fans|);
  }

  /** Over every run, in any interleaving: an instance the fan-out reaches either has broadcast it, exactly once,
      or owes exactly one broadcast; one it does not reach never broadcasts it. */
  lemma {:induction false} OneBroadcastPerInstance(s: Setup, es: seq<Event>, at: nat, uid: nat)
    requires ValidRun(s, es) && at < |s.ids| && uid < |Run(s, es).fans|
    ensures WellFormed(s, Run(s, es))
    ensures Owed(s, Run(s, es), at, uid) + Casts(Run(s, es).log, at, uid)
            == if Reaches(s, Run(s, es).fans[uid].origin, at) then 1 else 0
  {
    var es0, e := es[..|es| - 1], es[|es| - 1];
    var c := Run(s, es0);
    RunWellFormed(s, es0);
    RunWellFormed(s, es);
    if uid < |c.fans| {
      OneBroadcastPerInstance(s, es0, at, uid);
      StepBalances(s, c, e, at, uid);
      assert Balanced(s, Run(s, es), at, uid);
    } else {
      BeginBalances(s, c, e, at);
    }
  }

  // ---------------------------------------------------------------- exactly once per session

  predicate Touches(e: Event, node: string) {
    (e.Join? && e.session.node == node) || (e.Leave? && e.node == node)
  }

  /** One step while `node` keeps its session on `at`: it hears exactly the broadcasts of its own instance that address it. */
  lemma StepHears(s: Setup, c: Cluster, e: Event, node: string, at: nat, uid: nat)
    requires WellFormed(s, c) && Enabled(s, c, e) && at < |s.ids| && node in c.hubs[at]
    requires uid < |c.fans|
    ensures uid < |NextFans(s, c, e)| && NextFans(s, c, e)[uid].(stage := Numbered) == c.fans[uid].(stage := Numbered)
    ensures Hears(NextLog(s, c, e), node, uid) - Hears(c.log, node, uid)
         == if Addressed(c.fans[uid], c.hubs[at][node]) then Casts(NextLog(s, c, e), at, uid) - Casts(c.log, at, uid) else 0
  {
    match e
    case Announce(u) => LogGrows(c.log, CastOf(c, c.fans[u].origin, u), at, node, uid);
    case Deliver(i) => LogGrows(c.log, CastOf(c, i, c.inboxes[i][0]), at, node, uid);
    case _ =>
  }

  lemma StepKeepsSession(s: Setup, c: Cluster, e: Event, node: string, at: nat)
    requires WellFormed(s, c) && Enabled(s, c, e) && at < |s.ids| && node in c.hubs[at] && !Touches(e, node)
    ensures |NextHubs(s, c, e)| == |s.ids| && node in NextHubs(s, c, e)[at] && NextHubs(s, c, e)[at][node] == c.hubs[at][node]
  {
  }

  /** `node` has `session` on instance `at`, and heard what that instance broadcast of `uid` if it is addressed. */
  ghost predicate HearsAll(c: Cluster, session: Session, node: string, at: nat, uid: nat) {
    && at < |c.hubs| && node in c.hubs[at] && c.hubs[at][node] == session
    && (uid < |c.fans| ==> Hears(c.log, node, uid) == if Addressed(c.fans[uid], session) then Casts(c.log, at, uid) else 0)
  }

  lemma StepKeepsHearing(s: Setup, c: Cluster, e: Event, node: string, at: nat, uid: nat)
    requires WellFormed(s, c) && Enabled(s, c, e) && at < |s.ids| && node in c.hubs[at] && !Touches(e, node)
    requires HearsAll(c, c.hubs[at][node], node, at, uid)
    ensures HearsAll(Step(s, c, e), c.hubs[at][node], node, at, uid)
  {
    StepKeepsSession(s, c, e, node, at);
    if uid < |c.fans| {
      StepHears(s, c, e, node, at, uid);
    } else if uid < |NextFans(s, c, e)| {
      UnheardOf(c.log, at, node, uid);
    }
  }

  lemma LastStep(s: Setup, es: seq<Event>)
    requires ValidRun(s, es) && es != []
    ensures ValidRun(s, es[..|es| - 1]) && Enabled(s, Run(s, es[..|es| - 1]), es[|es| - 1])
    ensures Run(s, es) == Step(s, Run(s, es[..|es| - 1]), es[|es| - 1])
  {
  }

  lemma {:induction false} HearsFrom(s: Setup, es: seq<Event>, k: nat, node: string, at: nat, uid: nat)
    requires ValidRun(s, es) && k <= |es| && ValidRun(s, es[..k]) && at < |s.ids|
    requires |Run(s, es[..k]).hubs| == |s.ids| && node in Run(s, es[..k]).hubs[at] && |Run(s, es[..k]).fans| <= uid
    requires forall i | k <= i < |es| :: !Touches(es[i], node)
    ensures HearsAll(Run(s, es), Run(s, es[..k]).hubs[at][node], node, at, uid)
  {
    if k == |es| {
      assert es[..k] == es;
    } else {
      var front := es[..|es| - 1];
      LastStep(s, es);
      assert front[..k] == es[..k];
      HearsFrom(s, front, k, node, at, uid);
      RunWellFormed(s, front);
      StepKeepsHearing(s, Run(s, front), es[|es| - 1], node, at, uid);
    }
  }

  lemma HearsOwnInstance(s: Setup, pre: seq<Event>, post: seq<Event>, node: string, at: nat, uid: nat)
    requires ValidRun(s, pre) && ValidRun(s, pre + post) && at < |s.ids|
    requires |Run(s, pre).hubs| == |s.ids| && node in Run(s, pre).hubs[at] && |Run(s, pre).fans| <= uid
    requires forall k | 0 <= k < |post| :: !Touches(post[k], node)
    ensures HearsAll(Run(s, pre + post), Run(s, pre).hubs[at][node], node, at, uid)
  {
    assert (pre + post)[..|pre|] == pre;
    HearsFrom(s, pre + post, |pre|, node, at, uid);
  }

  /** A node that keeps its session from before the fan-out begins is written to exactly once if the fan-out
      addresses it and reaches its instance, and never otherwise; what has not been written yet is still owed. */
  lemma ReachedExactlyOnce(s: Setup, pre: seq<Event>, post: seq<Event>, node: string, at: nat, uid: nat)
    requires ValidRun(s, pre) && ValidRun(s, pre + post) && at < |s.ids|
    requires |Run(s, pre).hubs| == |s.ids| && node in Run(s, pre).hubs[at]
    requires |Run(s, pre).fans| <= uid < |Run(s, pre + post).fans|
    requires forall k | 0 <= k < |post| :: !Touches(post[k], node)
    ensures WellFormed(s, Run(s, pre + post))
    ensures var c := Run(s, pre + post);
      var f := c.fans[uid];
      Hears(c.log, node, uid) ==
        if Run(s, pre).hubs[at][node].network == f.network && node != f.source
           && (f.kind.PeerRemove? ==> f.network != "" && f.source != "")
           && (at == f.origin || (s.sync && s.ids[at] != s.ids[f.origin]))
        then 1 - Owed(s, c, at, uid) else 0
  {
    RunWellFormed(s, pre);
    HearsOwnInstance(s, pre, post, node, at, uid);
    OneBroadcastPerInstance(s, pre + post, at, uid);
  }

  /** Nothing left in flight. */
  ghost predicate Drained(c: Cluster) {
    && (forall u | 0 <= u < |c.fans| :: c.fans[u].stage == Published)
    && (forall i | 0 <= i < |c.inboxes| :: c.inboxes[i] == [])
  }

  lemma DrainedExactlyOnce(s: Setup, pre: seq<Event>, post: seq<Event>, node: string, at: nat, uid: nat)
    requires ValidRun(s, pre) && ValidRun(s, pre + post) && at < |s.ids|
    requires |Run(s, pre).hubs| == |s.ids| && node in Run(s, pre).hubs[at]
    requires |Run(s, pre).fans| <= uid < |Run(s, pre + post).fans|
    requires forall k | 0 <= k < |post| :: !Touches(post[k], node)
    requires Drained(Run(s, pre + post))
    ensures Run(s, pre + post).fans[uid].origin < |s.ids|
    ensures var f := Run(s, pre + post).fans[uid];
      Hears(Run(s, pre + post).log, node, uid) ==
        if Run(s, pre).hubs[at][node].network == f.network && node != f.source
           && (f.kind.PeerRemove? ==> f.network != "" && f.source != "")
           && (at == f.origin || (s.sync && s.ids[at] != s.ids[f.origin]))
        then 1 else 0
  {
    ReachedExactlyOnce(s, pre, post, node, at, uid);
  }

  // ---- nodes that move

  /** The instances that wrote the fan-out to a session of `node`. */
  ghost function HeardFrom(log: seq<Cast>, node: string, uid: nat): set<nat> {
    if log == [] then {}
    else
      var front, last := log[..|log| - 1], log[|log| - 1];
      HeardFrom(front, node, uid) + if last.uid == uid && node in last.heard then {last.at} else {}
  }

  /** The instances on which `node` had a session that the fan-out addresses while they still owed its broadcast. */
  ghost function HomesInFlight(s: Setup, es: seq<Event>, node: string, uid: nat): set<nat>
    requires ValidRun(s, es)
    decreases |es|
  {
    if es == [] then {}
    else
      var c := Run(s, es[..|es| - 1]);
      HomesInFlight(s, es[..|es| - 1], node, uid) + set at | 0 <= at < |s.ids| && IsHome(s, c, node, at, uid)
  }

  ghost predicate IsHome(s: Setup, c: Cluster, node: string, at: nat, uid: nat) {
    && WellFormed(s, c) && at < |s.ids| && uid < |c.fans| && Owed(s, c, at, uid) > 0
    && node in c.hubs[at] && Addressed(c.fans[uid], c.hubs[at][node])
  }

  lemma {:induction false} HearsPerInstance(log: seq<Cast>, node: string, uid: nat)
    requires forall at: nat :: Casts(log, at, uid) <= 1
    ensures Hears(log, node, uid) == |HeardFrom(log, node, uid)|
    ensures forall at | at in HeardFrom(log, node, uid) :: Casts(log, at, uid) == 1
  {
    if log != [] {
      var front, last := log[..|log| - 1], log[|log| - 1];
      forall at: nat ensures Casts(front, at, uid) <= 1 {
        assert Casts(log, at, uid) <= 1;
      }
      HearsPerInstance(front, node, uid);
      assert Casts(log, last.at, uid) <= 1;
      assert last.uid == uid ==> Casts(front, last.at, uid) == 0;
      forall at | at in HeardFrom(log, node, uid) ensures Casts(log, at, uid) == 1 {
        assert Casts(log, at, uid) <= 1;
      }
    }
  }

  /** A cast is made by an instance that owed it, to the sessions it has at that moment. */
  lemma StepHeardFrom(s: Setup, c: Cluster, e: Event, node: string, uid: nat)
    requires WellFormed(s, c) && Enabled(s, c, e)
    ensures forall at | at in HeardFrom(NextLog(s, c, e), node, uid) ::
              at in HeardFrom(c.log, node, uid) || IsHome(s, c, node, at, uid)
  {
    var log := NextLog(s, c, e);
    if |log| > |c.log| {
      assert log[..|log| - 1] == c.log;
      var last := log[|log| - 1];
      if last.uid == uid && node in last.heard {
        CasterOwes(s, c, e);
      }
    }
  }

  lemma CasterOwes(s: Setup, c: Cluster, e: Event)
    requires WellFormed(s, c) && Enabled(s, c, e) && |NextLog(s, c, e)| > |c.log|
    ensures var last := NextLog(s, c, e)[|c.log|];
            && last.at < |s.ids| && last.uid < |c.fans| && Owed(s, c, last.at, last.uid) > 0
            && last.heard == Recipients(c.hubs[last.at], c.fans[last.uid])
  {
    if e.Deliver? {
      PopCount(c.inboxes[e.at], c.inboxes[e.at][0]);
    }
  }

  lemma {:induction false} HeardFromHomes(s: Setup, es: seq<Event>, node: string, uid: nat)
    requires ValidRun(s, es)
    ensures HeardFrom(Run(s, es).log, node, uid) <= HomesInFlight(s, es, node, uid)
  {
    if es != [] {
      var front := es[..|es| - 1];
      HeardFromHomes(s, front, node, uid);
      RunWellFormed(s, front);
      StepHeardFrom(s, Run(s, front), es[|es| - 1], node, uid);
    }
  }

  /** Wherever its sessions come and go, a node hears a fan-out at most once per instance that had an addressed session of
      it while still owing the broadcast. */
  lemma HeardOncePerHome(s: Setup, es: seq<Event>, node: string, uid: nat)
    requires ValidRun(s, es) && uid < |Run(s, es).fans|
    ensures Hears(Run(s, es).log, node, uid) <= |HomesInFlight(s, es, node, uid)|
  {
    var log := Run(s, es).log;
    RunWellFormed(s, es);
    forall at: nat ensures Casts(log, at, uid) <= 1 {
      if at < |s.ids| {
        OneBroadcastPerInstance(s, es, at, uid);
      } else {
        NoSuchInstance(s, es, at, uid);
      }
    }
    HearsPerInstance(log, node, uid);
    HeardFromHomes(s, es, node, uid);
    SubsetSize(HeardFrom(log, node, uid), HomesInFlight(s, es, node, uid));
  }

  lemma {:induction false} NoSuchInstance(s: Setup, es: seq<Event>, at: nat, uid: nat)
    requires ValidRun(s, es) && at >= |s.ids|
    ensures Casts(Run(s, es).log, at, uid) == 0
  {
    if es != [] {
      var front, e := es[..|es| - 1], es[|es| - 1];
      NoSuchInstance(s, front, at, uid);
      RunWellFormed(s, front);
      NoSuchCast(s, Run(s, front), e, at, uid);
    }
  }

  lemma NoSuchCast(s: Setup, c: Cluster, e: Event, at: nat, uid: nat)
    requires WellFormed(s, c) && Enabled(s, c, e) && at >= |s.ids|
    ensures Casts(NextLog(s, c, e), at, uid) == Casts(c.log, at, uid)
  {
    if e.Announce? {
      LogGrows(c.log, CastOf(c, c.fans[e.uid].origin, e.uid), at, "", uid);
    } else if e.Deliver? {
      LogGrows(c.log, CastOf(c, e.at, c.inboxes[e.at][0]), at, "", uid);
    }
  }

  lemma {:induction false} SubsetSize(a: set<nat>, b: set<nat>)
    requires a <= b
    ensures |a| <= |b|
  {
    assert b == a + (b - a);
  }

  /** Whatever comes and goes: nobody outside the network and never the source is written to. */
  lemma {:induction false} NeverMisdelivered(s: Setup, es: seq<Event>, k: nat, node: string)
    requires ValidRun(s, es) && k < |Run(s, es).log| && node in Run(s, es).log[k].heard
    ensures Run(s, es).log[k].uid < |Run(s, es).fans|
    ensures Run(s, es).log[k].heard[node].node == node
    ensures var f := Run(s, es).fans[Run(s, es).log[k].uid];
            && Run(s, es).log[k].heard[node].network == f.network && node != f.source
            && (f.kind.PeerRemove? ==> f.network != "" && f.source != "")
  {
    RunWellFormed(s, es);
    var es0, e := es[..|es| - 1], es[|es| - 1];
    RunWellFormed(s, es0);
    if k < |Run(s, es0).log| {
      NeverMisdelivered(s, es0, k, node);
    }
  }

  // ---------------------------------------------------------------- every fan-out drains

  function StageWork(stage: Stage, n: nat): nat {
    match stage case Numbered => n + 2 case Announced => n + 1 case Published => 0
  }

  ghost function FanWork(fans: seq<Fan>, n: nat): nat {
    if fans == [] then 0 else StageWork(fans[0].stage, n) + FanWork(fans[1..], n)
  }

  ghost function InboxWork(inboxes: seq<seq<nat>>): nat {
    if inboxes == [] then 0 else |inboxes[0]| + InboxWork(inboxes[1..])
  }

  ghost function Work(c: Cluster): nat { FanWork(c.fans, |c.inboxes|) + InboxWork(c.inboxes) }

  predicate IsWork(e: Event) { e.Announce? || e.Publish? || e.Deliver? }

  lemma {:induction false} FanWorkAt(fans: seq<Fan>, n: nat, u: nat, stage: Stage)
    requires u < |fans|
    ensures FanWork(fans[u := fans[u].(stage := stage)], n)
            == FanWork(fans, n) - StageWork(fans[u].stage, n) + StageWork(stage, n)
  {
    var changed := fans[u := fans[u].(stage := stage)];
    if u == 0 {
      assert changed[1..] == fans[1..];
    } else {
      FanWorkAt(fans[1..], n, u - 1, stage);
      assert changed[1..] == fans[1..][u - 1 := fans[u].(stage := stage)];
    }
  }

  lemma {:induction false} InboxWorkAt(inboxes: seq<seq<nat>>, i: nat, inbox: seq<nat>)
    requires i < |inboxes|
    ensures InboxWork(inboxes[i := inbox]) == InboxWork(inboxes) - |inboxes[i]| + |inbox|
  {
    if i == 0 {
      assert inboxes[i := inbox][1..] == inboxes[1..];
    } else {
      InboxWorkAt(inboxes[1..], i - 1, inbox);
      assert inboxes[i := inbox][1..] == inboxes[1..][i - 1 := inbox];
    }
  }

  lemma {:induction false} PostedWork(inboxes: seq<seq<nat>>, uid: nat)
    ensures InboxWork(Posted(inboxes, uid)) == InboxWork(inboxes) + |inboxes|
  {
    if inboxes != [] {
      PostedWork(inboxes[1..], uid);
      assert Posted(inboxes, uid)[1..] == Posted(inboxes[1..], uid);
    }
  }

  lemma WorkShrinks(s: Setup, c: Cluster, e: Event)
    requires WellFormed(s, c) && Enabled(s, c, e) && IsWork(e)
    ensures Work(Step(s, c, e)) < Work(c)
  {
    match e
    case Announce(uid) => FanWorkAt(c.fans, |c.inboxes|, uid, Announced);
    case Publish(uid) =>
      FanWorkAt(c.fans, |c.inboxes|, uid, Published);
      PostedWork(c.inboxes, uid);
    case Deliver(at) => InboxWorkAt(c.inboxes, at, c.inboxes[at][1..]);
  }

  lemma LastWorkShrinks(s: Setup, es: seq<Event>)
    requires ValidRun(s, es) && es != [] && IsWork(es[|es| - 1])
    ensures ValidRun(s, es[..|es| - 1]) && Work(Run(s, es)) < Work(Run(s, es[..|es| - 1]))
  {
    LastStep(s, es);
    RunWellFormed(s, es[..|es| - 1]);
    WorkShrinks(s, Run(s, es[..|es| - 1]), es[|es| - 1]);
  }

  lemma {:induction false} WorkFrom(s: Setup, es: seq<Event>, k: nat)
    requires ValidRun(s, es) && k <= |es| && forall i | k <= i < |es| :: IsWork(es[i])
    ensures ValidRun(s, es[..k]) && Work(Run(s, es)) + (|es| - k) <= Work(Run(s, es[..k]))
  {
    if k == |es| {
      assert es[..k] == es;
    } else {
      LastWorkShrinks(s, es);
      var front := es[..|es| - 1];
      WorkFrom(s, front, k);
      assert front[..k] == es[..k];
    }
  }

  /** With no new fan-out, handling what is in flight ends within `Work` steps, in whatever order it is done. */
  lemma InFlightIsBounded(s: Setup, pre: seq<Event>, post: seq<Event>)
    requires ValidRun(s, pre) && ValidRun(s, pre + post)
    requires forall k | 0 <= k < |post| :: IsWork(post[k])
    ensures Work(Run(s, pre + post)) + |post| <= Work(Run(s, pre))
  {
    WorkFrom(s, pre + post, |pre|);
    assert (pre + post)[..|pre|] == pre;
  }

  /** And it never gets stuck before everything is drained. */
  lemma NextWork(s: Setup, es: seq<Event>) returns (e: Event)
    requires ValidRun(s, es) && !Drained(Run(s, es))
    ensures IsWork(e) && Enabled(s, Run(s, es), e)
  {
    var c := Run(s, es);
    RunWellFormed(s, es);
    if u :| 0 <= u < |c.fans| && c.fans[u].stage != Published {
      e := if c.fans[u].stage == Numbered then Announce(u) else Publish(u);
    } else {
      var i :| 0 <= i < |c.inboxes| && c.inboxes[i] != [];
      e := Deliver(i);
    }
  }

  // ---------------------------------------------------------------- revisions

  ghost predicate CountersAhead(c: Cluster) {
    && (forall u | 0 <= u < |c.fans| && c.fans[u].draw.Found? :: c.fans[u].draw.before < Counter(c, c.fans[u].network))
    && (forall u, v | 0 <= u < v < |c.fans| && c.fans[u].network == c.fans[v].network
                      && c.fans[u].draw.Found? && c.fans[v].draw.Found? :: c.fans[u].draw.before < c.fans[v].draw.before)
  }

  lemma StepCountersAhead(s: Setup, c: Cluster, e: Event)
    requires Enabled(s, c, e) && CountersAhead(c)
    ensures CountersAhead(Step(s, c, e))
  {
  }

  lemma {:induction false} RunCountersAhead(s: Setup, es: seq<Event>)
    requires ValidRun(s, es)
    ensures CountersAhead(Run(s, es))
  {
    if es != [] {
      RunCountersAhead(s, es[..|es| - 1]);
      StepCountersAhead(s, Run(s, es[..|es| - 1]), es[|es| - 1]);
    }
  }

  /** How often the network's counter was moved on: by a fan-out whose INCR worked or by someone else. */
  function Draws(s: Setup, es: seq<Event>, network: string): nat {
    if es == [] then 0
    else
      var e := es[|es| - 1];
      Draws(s, es[..|es| - 1], network)
      + if (e.Bump? && e.network == network) || (e.Begin? && e.network == network && s.sync && e.incrOk) then 1 else 0
  }

  lemma {:induction false} CounterIsDraws(s: Setup, es: seq<Event>, network: string)
    requires ValidRun(s, es)
    ensures Counter(Run(s, es), network) == Draws(s, es, network)
  {
    if es != [] {
      CounterIsDraws(s, es[..|es| - 1], network);
    }
  }

  /** A fan-out is about what began it, and its revision counts the draws for its network up to its own; without a usable
      counter it is 1. */
  lemma BegunFan(s: Setup, es: seq<Event>, e: Event)
    requires ValidRun(s, es) && e.Begin? && Enabled(s, Run(s, es), e)
    ensures var fans := Step(s, Run(s, es), e).fans;
            && |fans| == |Run(s, es).fans| + 1 && fans[..|fans| - 1] == Run(s, es).fans
            && var f := fans[|fans| - 1];
               && f.origin == e.at && f.kind == e.kind && f.network == e.network && f.source == e.source && f.stage.Numbered?
               && Revision(f) == if s.sync && e.incrOk then Draws(s, es, e.network) + 1 else 1
  {
    CounterIsDraws(s, es, e.network);
  }

  ghost predicate RevisionsIncrease(fans: seq<Fan>, network: string) {
    forall u, v | 0 <= u < v < |fans| && fans[u].network == fans[v].network == network :: Revision(fans[u]) < Revision(fans[v])
  }

  predicate Missed(f: Fan, network: string) { f.network == network && f.draw.NoCounter? }

  /** A fan-out without a counter does no harm only as the network's first, when every later one finds the counter
      already moved on by someone else. */
  ghost predicate MissesAreHarmless(fans: seq<Fan>, network: string) {
    forall u, v | 0 <= u < |fans| && 0 <= v < |fans| && u != v && Missed(fans[u], network) && fans[v].network == network ::
      u < v && fans[v].draw.Found? && fans[v].draw.before > 0
  }

  lemma RevisionsIncreaseExactly(s: Setup, es: seq<Event>, network: string)
    requires ValidRun(s, es)
    ensures RevisionsIncrease(Run(s, es).fans, network) <==> MissesAreHarmless(Run(s, es).fans, network)
  {
    RunCountersAhead(s, es);
    var fans := Run(s, es).fans;
    if RevisionsIncrease(fans, network) {
      forall u, v | 0 <= u < |fans| && 0 <= v < |fans| && u != v && Missed(fans[u], network) && fans[v].network == network
        ensures u < v && fans[v].draw.Found? && fans[v].draw.before > 0
      {
        assert v < u ==> Revision(fans[v]) < Revision(fans[u]);
        assert u < v ==> Revision(fans[u]) < Revision(fans[v]);
      }
    }
  }

  // ---------------------------------------------------------------- why the session must stay

  lemma RunSnoc(s: Setup, es: seq<Event>, e: Event)
    requires ValidRun(s, es) && Enabled(s, Run(s, es), e)
    ensures ValidRun(s, es + [e]) && Run(s, es + [e]) == Step(s, Run(s, es), e)
  {
    assert (es + [e])[..|es|] == es;
  }

  /** A node that moves to another instance between announcement and delivery hears the same fan-out twice. */
  lemma MovedNodeHearsTwice(s: Setup, node: string, source: string, network: string) returns (es: seq<Event>)
    requires |s.ids| == 2 && s.ids[0] != s.ids[1] && s.sync && node != source && node != ""
    ensures ValidRun(s, es) && Hears(Run(s, es).log, node, 0) == 2
  {
    var session := Session("", node, network);
    es := [];
    RunSnoc(s, es, Join(0, session));
    es := es + [Join(0, session)];
    RunSnoc(s, es, Begin(0, PeerUpdate, network, source, true));
    es := es + [Begin(0, PeerUpdate, network, source, true)];
    var c := Run(s, es);
    assert c.hubs[0] == map[node := session] && c.hubs[1] == map[] && c.log == [] && c.inboxes == [[], []];
    AnnouncesAndPublishes(s, es, node, session);
    es := es + [Announce(0)] + [Publish(0)];
    MovesAndHears(s, es, node, session);
    es := es + [Leave(0, node)] + [Join(1, session)] + [Deliver(1)];
  }

  lemma AnnouncesAndPublishes(s: Setup, es: seq<Event>, node: string, session: Session)
    requires ValidRun(s, es) && |s.ids| == 2 && s.sync
    requires var c := Run(s, es);
      && |c.hubs| == |c.inboxes| == 2 && node in c.hubs[0] && c.hubs[0][node] == session && |c.fans| == 1 && c.log == []
      && c.fans[0].origin == 0 && c.fans[0].stage == Numbered && c.inboxes[1] == [] && Addressed(c.fans[0], session)
    ensures var done := es + [Announce(0)] + [Publish(0)];
      && ValidRun(s, done) && Hears(Run(s, done).log, node, 0) == 1 && Run(s, done).hubs == Run(s, es).hubs
      && |Run(s, done).inboxes| == 2 && Run(s, done).inboxes[1] == [0] && |Run(s, done).fans| == 1
      && Run(s, done).fans[0].origin == 0 && Addressed(Run(s, done).fans[0], session)
  {
    var c := Run(s, es);
    RunSnoc(s, es, Announce(0));
    LogGrows(c.log, CastOf(c, 0, 0), 0, node, 0);
    RunSnoc(s, es + [Announce(0)], Publish(0));
  }

  /** The node moves from instance 0 to instance 1; nothing else changes. */
  lemma Moves(s: Setup, es: seq<Event>, node: string, session: Session)
    requires ValidRun(s, es) && node != "" && session.node == node
    requires |Run(s, es).hubs| == 2 && node !in Run(s, es).hubs[1]
    ensures var moved := es + [Leave(0, node)] + [Join(1, session)];
      && ValidRun(s, moved) && |Run(s, moved).hubs| == 2
      && node in Run(s, moved).hubs[1] && Run(s, moved).hubs[1][node] == session
      && Run(s, moved).(hubs := []) == Run(s, es).(hubs := [])
  {
    RunSnoc(s, es, Leave(0, node));
    var left := es + [Leave(0, node)];
    RunSnoc(s, left, Join(1, session));
  }

  lemma MovesAndHears(s: Setup, es: seq<Event>, node: string, session: Session)
    requires ValidRun(s, es) && |s.ids| == 2 && s.ids[0] != s.ids[1] && node != "" && session.node == node
    requires var c := Run(s, es);
      && |c.hubs| == |c.inboxes| == 2 && node !in c.hubs[1] && |c.fans| == 1 && c.fans[0].origin == 0
      && c.inboxes[1] == [0] && Addressed(c.fans[0], session)
    ensures var moved := es + [Leave(0, node)] + [Join(1, session)] + [Deliver(1)];
      ValidRun(s, moved) && Hears(Run(s, moved).log, node, 0) == Hears(Run(s, es).log, node, 0) + 1
  {
    Moves(s, es, node, session);
    var moved := es + [Leave(0, node)] + [Join(1, session)];
    var c := Run(s, moved);
    RunSnoc(s, moved, Deliver(1));
    LogGrows(c.log, CastOf(c, 1, 0), 1, node, 0);
  }

  /** One failed INCR, and the network's first two revisions are equal. */
  lemma FailedIncrRepeatsRevision(s: Setup, network: string, source: string) returns (es: seq<Event>)
    requires |s.ids| > 0 && s.sync
    ensures ValidRun(s, es) && |Run(s, es).fans| == 2
    ensures Revision(Run(s, es).fans[0]) == Revision(Run(s, es).fans[1]) == 1 && !RevisionsIncrease(Run(s, es).fans, network)
  {
    RunSnoc(s, [], Begin(0, PeerUpdate, network, source, false));
    es := [] + [Begin(0, PeerUpdate, network, source, false)];
    RunSnoc(s, es, Begin(0, PeerUpdate, network, source, true));
    es := es + [Begin(0, PeerUpdate, network, source, true)];
  }
}
