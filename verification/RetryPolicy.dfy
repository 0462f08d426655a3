/** The connect-plan retry policy in its two implementations: the in-process throttle and the Redis
    counter with its gate. Times are milliseconds; 0 stands for Go's zero time, before every clock reading.
    A Redis key written at `t` with a time to live `d` is present on [t, t + d). */
module RetryPolicy {
  import opened Common

  const COUNT_LIFE := 300_000

  /** `connectPlanBackoff` and `connectPlanRetryBackoff`, in milliseconds. */
  function Backoff(failures: int): nat {
    if failures <= 1 then 0
    else if failures == 2 then 2_000
    else if failures == 3 then 5_000
    else if failures == 4 then 10_000
    else 20_000
  }

  /** The map key of a node pair: the smaller id first. */
  function PairKey(network: string, node: string, peer: string, sep: char): string {
    if StrLess(peer, node) then network + [sep] + (peer + [sep] + node) else network + [sep] + (node + [sep] + peer)
  }

  predicate SamePair(a: string, b: string, c: string, d: string) { (a == c && b == d) || (a == d && b == c) }

  /** Either order of the two ids gives the same key, and for separator-free ids nothing else does. */
  lemma PairKeyExact(n: string, a: string, b: string, n': string, a': string, b': string, sep: char)
    requires sep !in n && sep !in a && sep !in b && sep !in n' && sep !in a' && sep !in b'
    ensures PairKey(n, a, b, sep) == PairKey(n', a', b', sep) <==> n == n' && SamePair(a, b, a', b')
  {
    StrLessTotal(a, b);
    StrLessTotal(a', b');
    var (x, y) := if StrLess(b, a) then (b, a) else (a, b);
    var (x', y') := if StrLess(b', a') then (b', a') else (a', b');
    if PairKey(n, a, b, sep) == PairKey(n', a', b', sep) {
      CutFirst(n, n', sep, x + [sep] + y, x' + [sep] + y');
      CutFirst(x, x', sep, y, y');
    }
  }

  /** An id that contains the separator can collide with another network's pair. */
  lemma SeparatorCollides()
    ensures PairKey("a|b", "c", "d", '|') == PairKey("a", "b", "c|d", '|')
  {
    assert StrLess("c", "d") && StrLess("b", "c|d");
    StrLessTotal("c", "d");
    StrLessTotal("b", "c|d");
    assert "a|b" + "|" + ("c" + "|" + "d") == "a|b|c|d" == "a" + "|" + ("b" + "|" + "c|d");
  }

  // ---------------------------------------------------------------- the two gates, one pair

  datatype RetryState = RetryState(failures: nat, nextAllowed: nat)

  const NO_FAILURES := RetryState(0, 0)

  function Allow(s: RetryState, now: nat): (RetryState, bool) {
    if now < s.nextAllowed then (s, false)
    else (RetryState(s.failures + 1, now + Backoff(s.failures + 1)), true)
  }

  /** A counter that is present until `countUntil`, and a gate that is present until `gateUntil`. */
  datatype PairGate = PairGate(count: nat, countUntil: nat, gateUntil: nat)

  const NO_GATE := PairGate(0, 0, 0)

  function Acquire(g: PairGate, now: nat): (PairGate, bool) {
    var count := if now < g.countUntil then g.count + 1 else 1;
    var g' := g.(count := count, countUntil := if count == 1 then now + COUNT_LIFE else g.countUntil);
    var backoff := Backoff(count);
    if backoff <= 0 then (g', true)
    else if now < g.gateUntil then (g', false)
    else (g'.(gateUntil := now + backoff), true)
  }

  /** State after a trace of failure reports, and the times of the granted ones in order. */
  function ThrottleRun(ts: seq<nat>): (RetryState, seq<nat>) {
    if ts == [] then (NO_FAILURES, [])
    else
      var (s, grants) := ThrottleRun(ts[..|ts| - 1]);
      var now := ts[|ts| - 1];
      var (s', ok) := Allow(s, now);
      (s', if ok then grants + [now] else grants)
  }

  function RedisRun(ts: seq<nat>): (PairGate, seq<nat>) {
    if ts == [] then (NO_GATE, [])
    else
      var (g, grants) := RedisRun(ts[..|ts| - 1]);
      var now := ts[|ts| - 1];
      var (g', ok) := Acquire(g, now);
      (g', if ok then grants + [now] else grants)
  }

  ghost predicate Sorted(ts: seq<nat>) { forall i, j :: 0 <= i < j < |ts| ==> ts[i] <= ts[j] }

  /** Redis grants no more than the throttle, and its k-th grant is never earlier. */
  ghost predicate Dominated(ts: seq<nat>) {
    var throttle, redis := ThrottleRun(ts).1, RedisRun(ts).1;
    |redis| <= |throttle| && forall k :: 0 <= k < |redis| ==> throttle[k] <= redis[k]
  }

  lemma {:induction false} ThrottleShape(ts: seq<nat>)
    ensures var (s, grants) := ThrottleRun(ts);
            && |grants| == s.failures <= |ts|
            && s.nextAllowed == (if grants == [] then 0 else grants[|grants| - 1] + Backoff(|grants|))
            && (forall k :: 0 <= k < |grants| - 1 ==> grants[k + 1] >= grants[k] + Backoff(k + 1))
  {
    if ts != [] {
      ThrottleShape(ts[..|ts| - 1]);
    }
  }

  /** The simulation relation after `n` attempts, the last one at `last`: both sides have granted, the throttle
      at least as often and each time no later, and when they have granted equally often it reopens no later. */
  ghost predicate Lags(n: nat, last: nat, s: RetryState, granted: seq<nat>, g: PairGate, redis: seq<nat>) {
    && |granted| == s.failures > 0 && |redis| <= g.count == n && n > 0
    && s.nextAllowed == granted[|granted| - 1] + Backoff(|granted|)
    && (forall k :: 0 <= k < |granted| ==> granted[k] <= last)
    && |redis| <= |granted| && (forall k :: 0 <= k < |redis| ==> granted[k] <= redis[k])
    && (|redis| == |granted| ==> s.nextAllowed <= Max(g.gateUntil, last))
  }

  /** Within the counter's life every attempt raises the Redis count, so its gates last at least as long. */
  lemma LagsStep(n: nat, last: nat, s: RetryState, granted: seq<nat>, g: PairGate, redis: seq<nat>, now: nat)
    requires Lags(n, last, s, granted, g, redis) && last <= now < g.countUntil
    ensures var (s', ok) := Allow(s, now);
            var (g', ok') := Acquire(g, now);
            g'.countUntil == g.countUntil &&
            Lags(n + 1, now, s', if ok then granted + [now] else granted, g', if ok' then redis + [now] else redis)
  {
    assert Acquire(g, now).0.count == n + 1;
  }

  lemma {:induction false} RedisLags(ts: seq<nat>)
    requires Sorted(ts)
    requires ts != [] ==> ts[|ts| - 1] < ts[0] + COUNT_LIFE
    ensures Dominated(ts)
    ensures var (s, granted) := ThrottleRun(ts);
            var (g, redis) := RedisRun(ts);
            ts != [] ==> g.countUntil == ts[0] + COUNT_LIFE && Lags(|ts|, ts[|ts| - 1], s, granted, g, redis)
  {
    if |ts| == 1 {
      assert ts[..0] == [];
    } else if ts != [] {
      var front, now := ts[..|ts| - 1], ts[|ts| - 1];
      RedisLags(front);
      var (s, granted) := ThrottleRun(front);
      var (g, redis) := RedisRun(front);
      assert front[0] == ts[0] && front[|front| - 1] <= now;
      LagsStep(|front|, front[|front| - 1], s, granted, g, redis, now);
    }
  }

  // ---------------------------------------------------------------- which reports are granted

  function ThrottleGrants(ts: seq<nat>, k: nat): bool
    requires k < |ts|
  {
    Allow(ThrottleRun(ts[..k]).0, ts[k]).1
  }

  function RedisGrants(ts: seq<nat>, k: nat): bool
    requires k < |ts|
  {
    Acquire(RedisRun(ts[..k]).0, ts[k]).1
  }

  /** How many of the first `n` reports the throttle granted. */
  function GrantedOf(ts: seq<nat>, n: nat): nat
    requires n <= |ts|
  {
    if n == 0 then 0 else GrantedOf(ts, n - 1) + if ThrottleGrants(ts, n - 1) then 1 else 0
  }

  /** When the throttle reopens after granted report `j`. */
  function ThrottleDue(ts: seq<nat>, j: nat): nat
    requires j < |ts|
  {
    ts[j] + Backoff(GrantedOf(ts, j + 1))
  }

  /** The opening is that of the last grant, and no earlier grant's is later. */
  ghost predicate OpeningIs(ts: seq<nat>, n: nat, opening: nat)
    requires n <= |ts|
  {
    && (forall j :: 0 <= j < n && ThrottleGrants(ts, j) ==> ThrottleDue(ts, j) <= opening)
    && (opening == 0 || exists j :: 0 <= j < n && ThrottleGrants(ts, j) && opening == ThrottleDue(ts, j))
  }

  lemma OpeningStep(ts: seq<nat>, m: nat, opening: nat, next: nat)
    requires m < |ts| && OpeningIs(ts, m, opening)
    requires if ThrottleGrants(ts, m) then opening <= ts[m] && next == ThrottleDue(ts, m) else next == opening
    ensures OpeningIs(ts, m + 1, next)
  {
    if !ThrottleGrants(ts, m) && opening != 0 {
      var j :| 0 <= j < m && ThrottleGrants(ts, j) && opening == ThrottleDue(ts, j);
    }
  }

  lemma ThrottleAfter(ts: seq<nat>, m: nat)
    requires m < |ts|
    ensures ThrottleRun(ts[..m + 1]).0 == Allow(ThrottleRun(ts[..m]).0, ts[m]).0
  {
    assert ts[..m + 1] == ts[..m] + [ts[m]];
    RunSnoc(ts[..m], ts[m]);
  }

  lemma {:induction false} ThrottleOpening(ts: seq<nat>, n: nat)
    requires n <= |ts|
    ensures ThrottleRun(ts[..n]).0.failures == GrantedOf(ts, n) && OpeningIs(ts, n, ThrottleRun(ts[..n]).0.nextAllowed)
  {
    if n > 0 {
      ThrottleOpening(ts, n - 1);
      ThrottleAfter(ts, n - 1);
      OpeningStep(ts, n - 1, ThrottleRun(ts[..n - 1]).0.nextAllowed, ThrottleRun(ts[..n]).0.nextAllowed);
    }
  }

  /** The throttle grants a report exactly when every report it granted before has had its back-off, that of the number of
      grants so far; refused reports change nothing. */
  lemma ThrottleGrantsExactly(ts: seq<nat>, k: nat)
    requires k < |ts|
    ensures ThrottleGrants(ts, k) <==> forall j :: 0 <= j < k && ThrottleGrants(ts, j) ==> ts[k] >= ThrottleDue(ts, j)
  {
    ThrottleOpening(ts, k);
  }

  /** When Redis reopens after granted report `j`, whose count is `j + 1`. */
  function RedisDue(ts: seq<nat>, j: nat): nat
    requires j < |ts|
  {
    ts[j] + Backoff(j + 1)
  }

  /** The gate is that of the last grant after the first report, and no earlier one's lasts longer. */
  ghost predicate GateIs(ts: seq<nat>, n: nat, until: nat)
    requires n <= |ts|
  {
    && (forall j :: 0 < j < n && RedisGrants(ts, j) ==> RedisDue(ts, j) <= until)
    && (until == 0 || exists j :: 0 < j < n && RedisGrants(ts, j) && until == RedisDue(ts, j))
  }

  lemma GateStep(ts: seq<nat>, m: nat, until: nat, next: nat)
    requires m < |ts| && GateIs(ts, m, until)
    requires if m > 0 && RedisGrants(ts, m) then until <= ts[m] && next == RedisDue(ts, m) else next == until
    ensures GateIs(ts, m + 1, next)
  {
    if !(m > 0 && RedisGrants(ts, m)) && until != 0 {
      var j :| 0 < j < m && RedisGrants(ts, j) && until == RedisDue(ts, j);
    }
  }

  lemma RedisAfter(ts: seq<nat>, m: nat)
    requires m < |ts|
    ensures RedisRun(ts[..m + 1]).0 == Acquire(RedisRun(ts[..m]).0, ts[m]).0
  {
    assert ts[..m + 1] == ts[..m] + [ts[m]];
    RunSnoc(ts[..m], ts[m]);
  }

  /** Within the counter's life the counter holds the number of reports, and refused reports do not move the gate. */
  lemma {:induction false} RedisOpening(ts: seq<nat>, n: nat)
    requires n <= |ts| && Sorted(ts) && (n > 0 ==> ts[n - 1] < ts[0] + COUNT_LIFE)
    ensures var g := RedisRun(ts[..n]).0;
            && (if n == 0 then g == NO_GATE else g.count == n && g.countUntil == ts[0] + COUNT_LIFE)
            && GateIs(ts, n, g.gateUntil)
  {
    if n > 0 {
      var m := n - 1;
      if m > 0 {
        assert ts[m - 1] <= ts[m];
      }
      RedisOpening(ts, m);
      RedisAfter(ts, m);
      GateStep(ts, m, RedisRun(ts[..m]).0.gateUntil, RedisRun(ts[..n]).0.gateUntil);
    }
  }

  /** Within the counter's life Redis grants a report exactly when every report it granted before has had its back-off,
      that of the number of reports made until then; so the first two are granted, and refused reports only count. */
  lemma RedisGrantsExactly(ts: seq<nat>, k: nat)
    requires k < |ts| && Sorted(ts) && ts[k] < ts[0] + COUNT_LIFE
    ensures RedisGrants(ts, k) <==> forall j :: 0 <= j < k && RedisGrants(ts, j) ==> ts[k] >= RedisDue(ts, j)
  {
    if k > 0 {
      assert ts[k - 1] <= ts[k];
      RedisOpening(ts, k);
      assert Backoff(k + 1) > 0;
      assert ts[0] <= ts[k] && Backoff(1) == 0;
    }
  }

  // ---------------------------------------------------------------- how long the comparison holds

  /** Reports at 0, 0, 2, 7 seconds and then every 20 seconds from 17 on: each comes just as both gates reopen. */
  function LockstepTime(i: nat): nat {
    if i <= 1 then 0 else if i == 2 then 2_000 else if i == 3 then 7_000 else 17_000 + 20_000 * (i - 4)
  }

  function Lockstep(n: nat): seq<nat> {
    if n == 0 then [] else Lockstep(n - 1) + [LockstepTime(n - 1)]
  }

  /** Each report comes exactly one back-off after the one before. */
  lemma LockstepNext(n: nat)
    ensures LockstepTime(n + 1) == LockstepTime(n) + Backoff(n + 1)
  {
  }

  /** Both sides after `n` lockstep reports. */
  function LockstepGate(n: nat): PairGate { PairGate(n, COUNT_LIFE, if n == 1 then 0 else LockstepTime(n)) }

  lemma LockstepGrants(n: nat)
    requires 1 <= n <= 18
    ensures Allow(RetryState(n, LockstepTime(n)), LockstepTime(n)) == (RetryState(n + 1, LockstepTime(n + 1)), true)
    ensures Acquire(LockstepGate(n), LockstepTime(n)) == (LockstepGate(n + 1), true)
  {
    LockstepNext(n);
    assert LockstepTime(n) < COUNT_LIFE && Backoff(n + 1) > 0;
  }

  /** The runs over the first `n` lockstep reports. */
  ghost predicate InLockstep(ts: seq<nat>, n: nat) {
    && |ts| == n && Sorted(ts) && (forall i | 0 <= i < n :: ts[i] == LockstepTime(i))
    && ThrottleRun(ts) == (RetryState(n, LockstepTime(n)), ts) && RedisRun(ts) == (LockstepGate(n), ts)
  }

  lemma LockstepStep(ts: seq<nat>, n: nat)
    requires 1 <= n <= 18 && InLockstep(ts, n)
    ensures InLockstep(ts + [LockstepTime(n)], n + 1)
  {
    LockstepGrants(n);
    RunSnoc(ts, LockstepTime(n));
    LockstepNext(n - 1);
  }

  lemma LockstepFirst()
    ensures InLockstep([0], 1)
  {
    RunSnoc([], 0);
    assert [] + [0] == [0];
  }

  lemma {:induction false} LockstepRun(n: nat)
    requires 1 <= n <= 19
    ensures InLockstep(Lockstep(n), n)
  {
    if n == 1 {
      LockstepFirst();
      assert Lockstep(0) + [LockstepTime(0)] == [0];
    } else {
      LockstepRun(n - 1);
      LockstepStep(Lockstep(n - 1), n - 1);
    }
  }

  lemma RunSnoc(ts: seq<nat>, now: nat)
    ensures var (s, grants) := ThrottleRun(ts);
            ThrottleRun(ts + [now]) == (Allow(s, now).0, if Allow(s, now).1 then grants + [now] else grants)
    ensures var (g, grants) := RedisRun(ts);
            RedisRun(ts + [now]) == (Acquire(g, now).0, if Acquire(g, now).1 then grants + [now] else grants)
  {
    assert (ts + [now])[..|ts|] == ts;
  }

  /** The comparison holds on every trace of a given span exactly when the span is below the counter's
      five-minute life: at five minutes the counter is gone and Redis grants without looking at its gate. */
  lemma RedisLagsExactly(span: nat)
    ensures (forall ts :: Sorted(ts) && (ts != [] ==> ts[|ts| - 1] <= ts[0] + span) ==> Dominated(ts)) <==> span < COUNT_LIFE
  {
    if span < COUNT_LIFE {
      forall ts | Sorted(ts) && (ts != [] ==> ts[|ts| - 1] <= ts[0] + span) ensures Dominated(ts) {
        RedisLags(ts);
      }
    } else {
      LockstepRun(19);
      var ts := Lockstep(19) + [COUNT_LIFE];
      RunSnoc(Lockstep(19), COUNT_LIFE);
      assert ThrottleRun(ts).1 == Lockstep(19) && RedisRun(ts).1 == ts;
      assert Sorted(ts) && !Dominated(ts);
    }
  }

  // ---------------------------------------------------------------- spacing of the throttle's grants

  /** Without reset the n-th grant (n >= 5) comes at least 17 + 20 (n - 5) seconds after the first. */
  lemma {:induction false} GrantSpacing(ts: seq<nat>, n: nat)
    requires 5 <= n <= |ThrottleRun(ts).1|
    ensures ThrottleRun(ts).1[n - 1] >= ThrottleRun(ts).1[0] + 17_000 + 20_000 * (n - 5)
  {
    ThrottleShape(ts);
    var g := ThrottleRun(ts).1;
    if n == 5 {
      assert g[1] >= g[0] + Backoff(1) && g[2] >= g[1] + Backoff(2) && g[3] >= g[2] + Backoff(3) && g[4] >= g[3] + Backoff(4);
    } else {
      GrantSpacing(ts, n - 1);
      assert g[(n - 2) + 1] >= g[n - 2] + Backoff(n - 1);
    }
  }

  // ---------------------------------------------------------------- many pairs

  datatype Event =
    | Report(network: string, node: string, peer: string, now: nat)
    | Reset(network: string, node: string, peer: string)
  {
    function Key(): string { PairKey(network, node, peer, '|') }

    predicate Free() { '|' !in network && '|' !in node && '|' !in peer }

    predicate About(n: string, a: string, b: string) { network == n && SamePair(node, peer, a, b) }
  }

  function StateOf(states: map<string, RetryState>, key: string): RetryState {
    if key in states then states[key] else NO_FAILURES
  }

  function Apply(states: map<string, RetryState>, e: Event): (map<string, RetryState>, bool) {
    match e
    case Report(_, _, _, now) =>
      var (s, ok) := Allow(StateOf(states, e.Key()), now);
      (if ok then states[e.Key() := s] else states, ok)
    case Reset(_, _, _) => (states - {e.Key()}, false)
  }

  function ApplyAll(events: seq<Event>): map<string, RetryState> {
    if events == [] then map[] else Apply(ApplyAll(events[..|events| - 1]), events[|events| - 1]).0
  }

  /** The times of a pair's reports since its last reset, whichever order the ids came in. */
  function Since(events: seq<Event>, n: string, a: string, b: string): seq<nat> {
    if events == [] then []
    else
      var e := events[|events| - 1];
      var before := Since(events[..|events| - 1], n, a, b);
      if !e.About(n, a, b) then before else if e.Reset? then [] else before + [e.now]
  }

  /** Pairs do not interfere: after any mix of reports and resets a pair's state, and so each of its
      decisions, is the one its own reports since its last reset would give alone. */
  lemma {:induction false} PairsAreIsolated(events: seq<Event>, n: string, a: string, b: string)
    requires forall i :: 0 <= i < |events| ==> events[i].Free()
    requires '|' !in n && '|' !in a && '|' !in b
    ensures StateOf(ApplyAll(events), PairKey(n, a, b, '|')) == ThrottleRun(Since(events, n, a, b)).0
  {
    if events != [] {
      var front, e := events[..|events| - 1], events[|events| - 1];
      PairsAreIsolated(front, n, a, b);
      PairKeyExact(e.network, e.node, e.peer, n, a, b, '|');
      if e.Report? && e.About(n, a, b) {
        var ts := Since(front, n, a, b) + [e.now];
        assert ts[..|ts| - 1] == Since(front, n, a, b);
      }
    }
  }

  // ---------------------------------------------------------------- the mutable forms

  /** `connectPlanThrottle`: each method holds the mutex throughout. */
  class ConnectPlanThrottle {
    var states: map<string, RetryState>

    constructor ()
      ensures states == map[]
    {
      states := map[];
    }

    method AllowRetry(network: string, node: string, peer: string, now: nat) returns (ok: bool)
      modifies this
      ensures (states, ok) == Apply(old(states), Report(network, node, peer, now))
    {
      var key := PairKey(network, node, peer, '|');
      var state := StateOf(states, key);
      if now < state.nextAllowed {
        return false;
      }
      var failures := state.failures + 1;
      states := states[key := RetryState(failures, now + Backoff(failures))];
      ok := true;
    }

    method ResetRetry(network: string, node: string, peer: string)
      modifies this
      ensures states == Apply(old(states), Reset(network, node, peer)).0
    {
      states := states - {PairKey(network, node, peer, '|')};
    }
  }

  /** The retry keys of `RedisTokenStore`: counters with their expiry and gates with theirs. */
  class RetryStore {
    var counts: map<string, (nat, nat)>
    var gates: map<string, nat>

    function Gate(key: string): PairGate
      reads this
    {
      var (count, until) := if key in counts then counts[key] else (0, 0);
      PairGate(count, until, if key in gates then gates[key] else 0)
    }

    constructor ()
      ensures forall key :: Gate(key) == NO_GATE
    {
      counts, gates := map[], map[];
    }

    /** INCR, then EXPIRE on the first count, then SETNX with the back-off as time to live. */
    method AcquireConnectPlanRetry(network: string, node: string, peer: string, now: nat) returns (ok: bool)
      modifies this
      ensures var key := PairKey(network, node, peer, ':');
              (Gate(key), ok) == Acquire(old(Gate(key)), now) && forall k :: k != key ==> Gate(k) == old(Gate(k))
    {
      var key := PairKey(network, node, peer, ':');
      var count, until := 1, 0;
      if key in counts && now < counts[key].1 {
        count, until := counts[key].0 + 1, counts[key].1;
      }
      if count == 1 {
        until := now + COUNT_LIFE;
      }
      counts := counts[key := (count, until)];
      var backoff := Backoff(count);
      if backoff <= 0 {
        return true;
      }
      if key in gates && now < gates[key] {
        return false;
      }
      gates := gates[key := now + backoff];
      ok := true;
    }

    method ResetConnectPlanRetry(network: string, node: string, peer: string)
      modifies this
      ensures var key := PairKey(network, node, peer, ':');
              Gate(key) == NO_GATE && forall k :: k != key ==> Gate(k) == old(Gate(k))
    {
      var key := PairKey(network, node, peer, ':');
      counts := counts - {key};
      gates := gates - {key};
    }
  }
}
