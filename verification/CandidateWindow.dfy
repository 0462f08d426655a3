/** Peer-candidate deduplication in its two implementations: the swept in-process window and the Redis
    set-if-absent key with a time to live. Times are milliseconds. */
module CandidateWindow {
  import opened Common

  const DEFAULT_TTL := 10_000

  datatype Candidate = Candidate(network: string, source: string, target: string, kind: string,
                                 endpoint: string, priority: int)

  /** `peerCandidateKey` with '|' and `peerCandidateDeliveryKey` with ':'. */
  function Key(c: Candidate, sep: char): string {
    c.network + [sep] + (c.source + [sep] + (c.target + [sep] + (c.kind + [sep] + (c.endpoint + [sep] + Itoa(c.priority)))))
  }

  /** Every field but the endpoint is free of the separator. */
  predicate Free(c: Candidate, sep: char) { sep !in c.network && sep !in c.source && sep !in c.target && sep !in c.kind }

  /** Two candidates share a key exactly when all six fields agree, whatever the endpoints contain. */
  lemma KeyExact(c: Candidate, d: Candidate, sep: char)
    requires Free(c, sep) && Free(d, sep) && (sep == '|' || sep == ':')
    ensures Key(c, sep) == Key(d, sep) <==> c == d
  {
    if Key(c, sep) == Key(d, sep) {
      var c1, d1 := c.endpoint + [sep] + Itoa(c.priority), d.endpoint + [sep] + Itoa(d.priority);
      var c2, d2 := c.kind + [sep] + c1, d.kind + [sep] + d1;
      var c3, d3 := c.target + [sep] + c2, d.target + [sep] + d2;
      CutFirst(c.network, d.network, sep, c.source + [sep] + c3, d.source + [sep] + d3);
      CutFirst(c.source, d.source, sep, c3, d3);
      CutFirst(c.target, d.target, sep, c2, d2);
      CutFirst(c.kind, d.kind, sep, c1, d1);
      CutLast(c.endpoint, d.endpoint, sep, Itoa(c.priority), Itoa(d.priority));
      ItoaInjective(c.priority, d.priority);
    }
  }

  function Ttl(ttl: int): nat { if ttl <= 0 then DEFAULT_TTL else ttl }

  /** The entries still live after `now`. */
  function Sweep(m: map<string, nat>, now: nat): map<string, nat> { map k | k in m && m[k] > now :: m[k] }

  /** `peerCandidateWindow.acquire`: sweep, then refuse a key that is still there. */
  function WindowAcquire(m: map<string, nat>, key: string, now: nat, ttl: int): (map<string, nat>, bool) {
    var swept := Sweep(m, now);
    if key in swept && swept[key] > now then (swept, false) else (swept[key := now + Ttl(ttl)], true)
  }

  /** SETNX with a time to live: an expired key counts as absent, and nothing is swept. */
  function RedisAcquire(m: map<string, nat>, key: string, now: nat, ttl: int): (map<string, nat>, bool) {
    if key in m && m[key] > now then (m, false) else (m[key := now + Ttl(ttl)], true)
  }

  datatype Request = Request(candidate: Candidate, now: nat, ttl: int)

  /** A request as one of the stores sees it. */
  datatype Stamp = Stamp(key: string, now: nat, ttl: int)

  function Stamps(rs: seq<Request>, sep: char): seq<Stamp> {
    seq(|rs|, i requires 0 <= i < |rs| => Stamp(Key(rs[i].candidate, sep), rs[i].now, rs[i].ttl))
  }

  function WindowRun(ts: seq<Stamp>): (r: (map<string, nat>, seq<bool>))
    ensures |r.1| == |ts|
  {
    if ts == [] then (map[], [])
    else
      var (m, answers) := WindowRun(ts[..|ts| - 1]);
      var t := ts[|ts| - 1];
      var (m', ok) := WindowAcquire(m, t.key, t.now, t.ttl);
      (m', answers + [ok])
  }

  function RedisRun(ts: seq<Stamp>): (r: (map<string, nat>, seq<bool>))
    ensures |r.1| == |ts|
  {
    if ts == [] then (map[], [])
    else
      var (m, answers) := RedisRun(ts[..|ts| - 1]);
      var t := ts[|ts| - 1];
      var (m', ok) := RedisAcquire(m, t.key, t.now, t.ttl);
      (m', answers + [ok])
  }

  /** What the process memory and Redis answer to a trace of requests. */
  function WindowAnswers(rs: seq<Request>): seq<bool> { WindowRun(Stamps(rs, '|')).1 }

  function RedisAnswers(rs: seq<Request>): seq<bool> { RedisRun(Stamps(rs, ':')).1 }

  /** Request times do not go back. */
  ghost predicate Timed(rs: seq<Request>) { forall i, j :: 0 <= i < j < |rs| ==> rs[i].now <= rs[j].now }

  ghost predicate InOrder(ts: seq<Stamp>) { forall i, j :: 0 <= i < j < |ts| ==> ts[i].now <= ts[j].now }

  ghost predicate Among(rs: seq<Request>, cs: set<Candidate>) { forall i :: 0 <= i < |rs| ==> rs[i].candidate in cs }

  /** Two of these candidates share a key in process memory exactly when they share one in Redis. */
  ghost predicate CollideAlike(cs: set<Candidate>) {
    forall c, d :: c in cs && d in cs ==> (Key(c, '|') == Key(d, '|') <==> Key(c, ':') == Key(d, ':'))
  }

  function Expiry(m: map<string, nat>, key: string): nat { if key in m then m[key] else 0 }

  /** The same times, and two stamps share a key on one side exactly when they do on the other. */
  ghost predicate Alike(ws: seq<Stamp>, rs: seq<Stamp>) {
    && |ws| == |rs|
    && (forall i :: 0 <= i < |ws| ==> ws[i].now == rs[i].now && ws[i].ttl == rs[i].ttl)
    && (forall i, j :: 0 <= i < |ws| && 0 <= j < |ws| ==> (ws[i].key == ws[j].key <==> rs[i].key == rs[j].key))
  }

  /** At and after `last` the two stores agree on when each key of the traces becomes free again. */
  ghost predicate Agree(w: map<string, nat>, r: map<string, nat>, last: nat, ws: seq<Stamp>, rs: seq<Stamp>)
    requires |ws| == |rs|
  {
    forall i :: 0 <= i < |ws| ==> Max(Expiry(w, ws[i].key), last) == Max(Expiry(r, rs[i].key), last)
  }

  lemma AgreeStep(w: map<string, nat>, r: map<string, nat>, last: nat, ws: seq<Stamp>, rs: seq<Stamp>, k: nat)
    requires Alike(ws, rs) && Agree(w, r, last, ws, rs) && k < |ws| && last <= ws[k].now
    ensures var (w', ok) := WindowAcquire(w, ws[k].key, ws[k].now, ws[k].ttl);
            var (r', ok') := RedisAcquire(r, rs[k].key, rs[k].now, rs[k].ttl);
            ok == ok' && Agree(w', r', ws[k].now, ws, rs)
  {
    assert Max(Expiry(w, ws[k].key), last) == Max(Expiry(r, rs[k].key), last);
  }

  /** One request more. */
  lemma Snoc(ts: seq<Stamp>, t: Stamp)
    ensures var (m, answers) := WindowRun(ts);
            var (m', ok) := WindowAcquire(m, t.key, t.now, t.ttl);
            WindowRun(ts + [t]) == (m', answers + [ok])
    ensures var (m, answers) := RedisRun(ts);
            var (m', ok) := RedisAcquire(m, t.key, t.now, t.ttl);
            RedisRun(ts + [t]) == (m', answers + [ok])
  {
    assert (ts + [t])[..|ts|] == ts;
  }

  /** After the stamps `a` and `b` the answers were the same and the stores agree on the keys of the whole traces. */
  ghost predicate InStep(a: seq<Stamp>, b: seq<Stamp>, last: nat, ws: seq<Stamp>, rs: seq<Stamp>)
    requires |ws| == |rs|
  {
    WindowRun(a).1 == RedisRun(b).1 && Agree(WindowRun(a).0, RedisRun(b).0, last, ws, rs)
  }

  lemma StayInStep(a: seq<Stamp>, b: seq<Stamp>, last: nat, ws: seq<Stamp>, rs: seq<Stamp>, k: nat)
    requires Alike(ws, rs) && InStep(a, b, last, ws, rs) && k < |ws| && last <= ws[k].now
    ensures InStep(a + [ws[k]], b + [rs[k]], ws[k].now, ws, rs)
  {
    AgreeStep(WindowRun(a).0, RedisRun(b).0, last, ws, rs, k);
    Snoc(a, ws[k]);
    Snoc(b, rs[k]);
  }

  lemma Prefix(ts: seq<Stamp>, n: nat)
    requires n < |ts|
    ensures ts[..n + 1] == ts[..n] + [ts[n]]
  {
  }

  function TimeBefore(ts: seq<Stamp>, n: nat): nat
    requires n <= |ts|
  {
    if n == 0 then 0 else ts[n - 1].now
  }

  lemma {:induction false} SameRuns(ws: seq<Stamp>, rs: seq<Stamp>, n: nat)
    requires Alike(ws, rs) && InOrder(ws) && n <= |ws|
    ensures InStep(ws[..n], rs[..n], TimeBefore(ws, n), ws, rs)
  {
    if n > 0 {
      var m := n - 1;
      SameRuns(ws, rs, m);
      assert TimeBefore(ws, m) <= ws[m].now;
      StayInStep(ws[..m], rs[..m], TimeBefore(ws, m), ws, rs, m);
      Prefix(ws, m);
      Prefix(rs, m);
    }
  }

  /** The window and the Redis key give the same answers on every timed trace of candidates that collide alike. */
  lemma SameAnswers(rs: seq<Request>, cs: set<Candidate>)
    requires Timed(rs) && Among(rs, cs) && CollideAlike(cs)
    ensures WindowAnswers(rs) == RedisAnswers(rs)
  {
    var w, r := Stamps(rs, '|'), Stamps(rs, ':');
    StampsAlike(rs, cs);
    SameRuns(w, r, |rs|);
    assert w[..|rs|] == w && r[..|rs|] == r;
  }

  lemma StampsAlike(rs: seq<Request>, cs: set<Candidate>)
    requires Timed(rs) && Among(rs, cs) && CollideAlike(cs)
    ensures Alike(Stamps(rs, '|'), Stamps(rs, ':')) && InOrder(Stamps(rs, '|'))
  {
  }

  /** A request at time 0, when nothing can have expired yet. */
  lemma AtOnce(m: map<string, nat>, key: string)
    requires forall k | k in m :: m[k] > 0
    ensures WindowAcquire(m, key, 0, 1) == RedisAcquire(m, key, 0, 1) == (if key in m then (m, false) else (m[key := 1], true))
  {
    assert Sweep(m, 0) == m;
  }

  /** Two requests at once: the second is granted exactly when its key is another one. */
  lemma TwoAtOnce(k: string, l: string)
    ensures var ts := [Stamp(k, 0, 1), Stamp(l, 0, 1)]; WindowRun(ts).1 == RedisRun(ts).1 == [true, k != l]
  {
    var a, b := Stamp(k, 0, 1), Stamp(l, 0, 1);
    var empty: map<string, nat> := map[];
    AtOnce(empty, k);
    AtOnce(empty[k := 1], l);
    Snoc([], a);
    assert [] + [a] == [a] && [] + [true] == [true];
    Snoc([a], b);
    assert [a] + [b] == [a, b] && [true] + [k != l] == [true, k != l];
  }

  /** The window and the Redis key give the same answers on every timed trace over a set of candidates if and only if
      the candidates collide alike under the two key formats. */
  lemma SameAnswersExactly(cs: set<Candidate>)
    ensures (forall rs :: Timed(rs) && Among(rs, cs) ==> WindowAnswers(rs) == RedisAnswers(rs)) <==> CollideAlike(cs)
  {
    if CollideAlike(cs) {
      forall rs | Timed(rs) && Among(rs, cs) ensures WindowAnswers(rs) == RedisAnswers(rs) {
        SameAnswers(rs, cs);
      }
    } else {
      var c, d :| c in cs && d in cs && !(Key(c, '|') == Key(d, '|') <==> Key(c, ':') == Key(d, ':'));
      TellsApart(c, d);
      var rs := [Request(c, 0, 1), Request(d, 0, 1)];
      assert Timed(rs) && Among(rs, cs);
    }
  }

  lemma TellsApart(c: Candidate, d: Candidate)
    requires !(Key(c, '|') == Key(d, '|') <==> Key(c, ':') == Key(d, ':'))
    ensures var rs := [Request(c, 0, 1), Request(d, 0, 1)]; WindowAnswers(rs) != RedisAnswers(rs)
  {
    var rs := [Request(c, 0, 1), Request(d, 0, 1)];
    TwoAtOnce(Key(c, '|'), Key(d, '|'));
    TwoAtOnce(Key(c, ':'), Key(d, ':'));
    assert Stamps(rs, '|') == [Stamp(Key(c, '|'), 0, 1), Stamp(Key(d, '|'), 0, 1)];
    assert Stamps(rs, ':') == [Stamp(Key(c, ':'), 0, 1), Stamp(Key(d, ':'), 0, 1)];
    assert WindowAnswers(rs)[1] != RedisAnswers(rs)[1];
  }

  /** Candidates whose network, source, target and type are free of both separators do, whatever their endpoints. */
  lemma FreeCollideAlike(cs: set<Candidate>)
    requires forall c :: c in cs ==> Free(c, '|') && Free(c, ':')
    ensures CollideAlike(cs)
  {
    forall c, d | c in cs && d in cs
      ensures Key(c, '|') == Key(d, '|') <==> Key(c, ':') == Key(d, ':')
    {
      KeyExact(c, d, '|');
      KeyExact(c, d, ':');
    }
  }

  /** Ids with a colon need not: these two share the Redis key only, so Redis drops the second and the window does not. */
  lemma ColonCollides()
    ensures var c, d := Candidate("a:b", "c", "t", "k", "e", 0), Candidate("a", "b:c", "t", "k", "e", 0);
            Key(c, ':') == Key(d, ':') && Key(c, '|') != Key(d, '|')
  {
    var rest := "t" + ":" + ("k" + ":" + ("e" + ":" + Itoa(0)));
    assert "a:b" + ":" + ("c" + ":" + rest) == "a" + ":" + ("b:c" + ":" + rest);
    var c, d := Candidate("a:b", "c", "t", "k", "e", 0), Candidate("a", "b:c", "t", "k", "e", 0);
    assert Key(c, '|')[1] == ':' && Key(d, '|')[1] == '|';
  }

  // ---------------------------------------------------------------- spacing

  function Due(t: Stamp): nat { t.now + Ttl(t.ttl) }

  /** The expiry a grant leaves behind is never pulled forward again. */
  lemma {:induction false} RedisGrantHolds(ts: seq<Stamp>, i: nat)
    requires InOrder(ts) && i < |ts| && RedisRun(ts).1[i]
    ensures Expiry(RedisRun(ts).0, ts[i].key) >= Due(ts[i])
  {
    var front := ts[..|ts| - 1];
    if i < |front| {
      RedisGrantHolds(front, i);
    }
  }

  /** In the window it is kept, or it has passed and may be swept. */
  lemma {:induction false} WindowGrantHolds(ts: seq<Stamp>, i: nat)
    requires InOrder(ts) && i < |ts| && WindowRun(ts).1[i]
    ensures Expiry(WindowRun(ts).0, ts[i].key) >= Due(ts[i]) || ts[|ts| - 1].now >= Due(ts[i])
  {
    var front := ts[..|ts| - 1];
    if i < |front| {
      WindowGrantHolds(front, i);
    }
  }

  lemma {:induction false} RedisGrantsSpaced(ts: seq<Stamp>, i: nat, j: nat)
    requires InOrder(ts) && i < j < |ts| && ts[i].key == ts[j].key && RedisRun(ts).1[i] && RedisRun(ts).1[j]
    ensures ts[j].now >= Due(ts[i])
  {
    var front := ts[..|ts| - 1];
    if j < |front| {
      RedisGrantsSpaced(front, i, j);
    } else {
      RedisGrantHolds(front, i);
    }
  }

  lemma {:induction false} WindowGrantsSpaced(ts: seq<Stamp>, i: nat, j: nat)
    requires InOrder(ts) && i < j < |ts| && ts[i].key == ts[j].key && WindowRun(ts).1[i] && WindowRun(ts).1[j]
    ensures ts[j].now >= Due(ts[i])
  {
    var front := ts[..|ts| - 1];
    if j < |front| {
      WindowGrantsSpaced(front, i, j);
    } else {
      WindowGrantHolds(front, i);
    }
  }

  // ---------------------------------------------------------------- which requests are granted

  /** No request for the key that was granted before is still live: ten seconds after it, or the life it asked for. */
  ghost predicate AllDue(ts: seq<Stamp>, answers: seq<bool>, k: nat)
    requires k < |ts| == |answers|
  {
    forall j :: 0 <= j < k && ts[j].key == ts[k].key && answers[j] ==>
      ts[k].now >= ts[j].now + if ts[j].ttl <= 0 then 10_000 else ts[j].ttl
  }

  /** What a store says of a key comes from a request that was granted. */
  lemma {:induction false} RedisExpiryIsDue(ts: seq<Stamp>, key: string)
    ensures var (m, answers) := RedisRun(ts);
            key in m ==> exists j :: 0 <= j < |ts| && ts[j].key == key && answers[j] && m[key] == Due(ts[j])
  {
    if ts != [] {
      var front := ts[..|ts| - 1];
      RedisExpiryIsDue(front, key);
      var (m, answers) := RedisRun(ts);
      if key in m && key in RedisRun(front).0 && m[key] == RedisRun(front).0[key] {
        var j :| 0 <= j < |front| && front[j].key == key && RedisRun(front).1[j] && RedisRun(front).0[key] == Due(front[j]);
        assert ts[j] == front[j] && answers[j];
      } else if key in m {
        assert ts[|ts| - 1].key == key && answers[|ts| - 1] && m[key] == Due(ts[|ts| - 1]);
      }
    }
  }

  lemma {:induction false} WindowExpiryIsDue(ts: seq<Stamp>, key: string)
    ensures var (m, answers) := WindowRun(ts);
            key in m ==> exists j :: 0 <= j < |ts| && ts[j].key == key && answers[j] && m[key] == Due(ts[j])
  {
    if ts != [] {
      var front := ts[..|ts| - 1];
      WindowExpiryIsDue(front, key);
      var (m, answers) := WindowRun(ts);
      if key in m && key in WindowRun(front).0 && m[key] == WindowRun(front).0[key] {
        var j :| 0 <= j < |front| && front[j].key == key && WindowRun(front).1[j] && WindowRun(front).0[key] == Due(front[j]);
        assert ts[j] == front[j] && answers[j];
      } else if key in m {
        assert ts[|ts| - 1].key == key && answers[|ts| - 1] && m[key] == Due(ts[|ts| - 1]);
      }
    }
  }

  lemma RedisRefused(front: seq<Stamp>, t: Stamp)
    requires t.key in RedisRun(front).0 && RedisRun(front).0[t.key] > t.now
    ensures exists j :: 0 <= j < |front| && front[j].key == t.key && RedisRun(front).1[j] && t.now < Due(front[j])
  {
    RedisExpiryIsDue(front, t.key);
  }

  lemma RedisLastAnswer(ts: seq<Stamp>)
    requires ts != []
    ensures var (m, answers) := RedisRun(ts[..|ts| - 1]);
            var t := ts[|ts| - 1];
            RedisRun(ts).1 == answers + [!(t.key in m && m[t.key] > t.now)]
  {
  }

  lemma RedisGranted(ts: seq<Stamp>)
    requires ts != [] && InOrder(ts) && RedisRun(ts).1[|ts| - 1]
    ensures AllDue(ts, RedisRun(ts).1, |ts| - 1)
  {
    RedisLastAnswer(ts);
    forall j | 0 <= j < |ts| - 1 && ts[j].key == ts[|ts| - 1].key && RedisRun(ts).1[j] ensures ts[|ts| - 1].now >= Due(ts[j]) {
      RedisGrantsSpaced(ts, j, |ts| - 1);
    }
  }

  lemma RedisLastExact(ts: seq<Stamp>)
    requires ts != [] && InOrder(ts)
    ensures var k := |ts| - 1; RedisRun(ts).1[k] <==> AllDue(ts, RedisRun(ts).1, k)
  {
    var front, t := ts[..|ts| - 1], ts[|ts| - 1];
    RedisLastAnswer(ts);
    if RedisRun(ts).1[|ts| - 1] {
      RedisGranted(ts);
    } else {
      RedisRefused(front, t);
      var j :| 0 <= j < |front| && front[j].key == t.key && RedisRun(front).1[j] && t.now < Due(front[j]);
      assert RedisRun(ts).1[j] && ts[j] == front[j];
    }
  }

  lemma WindowRefused(front: seq<Stamp>, t: Stamp)
    requires t.key in WindowRun(front).0 && WindowRun(front).0[t.key] > t.now
    ensures exists j :: 0 <= j < |front| && front[j].key == t.key && WindowRun(front).1[j] && t.now < Due(front[j])
  {
    WindowExpiryIsDue(front, t.key);
  }

  lemma WindowLastAnswer(ts: seq<Stamp>)
    requires ts != []
    ensures var (m, answers) := WindowRun(ts[..|ts| - 1]);
            var t := ts[|ts| - 1];
            WindowRun(ts).1 == answers + [!(t.key in m && m[t.key] > t.now)]
  {
  }

  lemma WindowGranted(ts: seq<Stamp>)
    requires ts != [] && InOrder(ts) && WindowRun(ts).1[|ts| - 1]
    ensures AllDue(ts, WindowRun(ts).1, |ts| - 1)
  {
    WindowLastAnswer(ts);
    forall j | 0 <= j < |ts| - 1 && ts[j].key == ts[|ts| - 1].key && WindowRun(ts).1[j] ensures ts[|ts| - 1].now >= Due(ts[j]) {
      WindowGrantsSpaced(ts, j, |ts| - 1);
    }
  }

  lemma WindowLastExact(ts: seq<Stamp>)
    requires ts != [] && InOrder(ts)
    ensures var k := |ts| - 1; WindowRun(ts).1[k] <==> AllDue(ts, WindowRun(ts).1, k)
  {
    var front, t := ts[..|ts| - 1], ts[|ts| - 1];
    WindowLastAnswer(ts);
    if WindowRun(ts).1[|ts| - 1] {
      WindowGranted(ts);
    } else {
      WindowRefused(front, t);
      var j :| 0 <= j < |front| && front[j].key == t.key && WindowRun(front).1[j] && t.now < Due(front[j]);
      assert WindowRun(ts).1[j] && ts[j] == front[j];
    }
  }

  /** Both stores grant a request exactly when every request granted before for the same key has outlived its time to live;
      refused requests change nothing. */
  lemma {:induction false} GrantedExactly(ts: seq<Stamp>, k: nat)
    requires InOrder(ts) && k < |ts|
    ensures RedisRun(ts).1[k] <==> AllDue(ts, RedisRun(ts).1, k)
    ensures WindowRun(ts).1[k] <==> AllDue(ts, WindowRun(ts).1, k)
  {
    if k == |ts| - 1 {
      RedisLastExact(ts);
      WindowLastExact(ts);
    } else {
      GrantedExactly(ts[..|ts| - 1], k);
    }
  }

  /** Two grants for one candidate are at least the first one's time to live apart, in both implementations. */
  lemma GrantsAreSpaced(rs: seq<Request>, i: nat, j: nat)
    requires Timed(rs) && i < j < |rs| && rs[i].candidate == rs[j].candidate
    requires (WindowAnswers(rs)[i] && WindowAnswers(rs)[j]) || (RedisAnswers(rs)[i] && RedisAnswers(rs)[j])
    ensures rs[j].now >= rs[i].now + if rs[i].ttl <= 0 then 10_000 else rs[i].ttl
  {
    if RedisAnswers(rs)[i] && RedisAnswers(rs)[j] {
      RedisGrantsSpaced(Stamps(rs, ':'), i, j);
    } else {
      WindowGrantsSpaced(Stamps(rs, '|'), i, j);
    }
  }

  /** `peerCandidateWindow`, with its sweep as the loop over the map's keys. */
  class PeerCandidateWindow {
    var expires: map<string, nat>

    constructor ()
      ensures expires == map[]
    {
      expires := map[];
    }

    method AcquireDelivery(candidate: Candidate, now: nat, ttl: int) returns (ok: bool)
      modifies this
      ensures (expires, ok) == WindowAcquire(old(expires), Key(candidate, '|'), now, ttl)
    {
      var key := Key(candidate, '|');
      var pending := expires.Keys;
      while pending != {}
        invariant pending <= expires.Keys <= old(expires).Keys
        invariant forall k :: k in expires ==> expires[k] == old(expires)[k]
        invariant forall k :: k in old(expires) && k !in pending ==> (k in expires <==> old(expires)[k] > now)
        decreases |pending|
      {
        var k :| k in pending;
        pending := pending - {k};
        if expires[k] <= now {
          expires := expires - {k};
        }
      }
      assert expires == Sweep(old(expires), now);
      if key in expires && expires[key] > now {
        return false;
      }
      expires := expires[key := now + Ttl(ttl)];
      ok := true;
    }
  }

  /** The delivery keys of `RedisTokenStore`: a key lives until its expiry. */
  class DeliveryKeys {
    var expires: map<string, nat>

    constructor ()
      ensures expires == map[]
    {
      expires := map[];
    }

    method AcquirePeerCandidateDelivery(candidate: Candidate, now: nat, ttl: int) returns (ok: bool)
      modifies this
      ensures (expires, ok) == RedisAcquire(old(expires), Key(candidate, ':'), now, ttl)
    {
      var key := Key(candidate, ':');
      var life := ttl;
      if life <= 0 {
        life := DEFAULT_TTL;
      }
      ok := !(key in expires && expires[key] > now);
      if ok {
        expires := expires[key := now + life];
      }
    }
  }
}
