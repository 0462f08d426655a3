/** Termination of delivery with any number of retry loops, and the races that archive a message twice. */
module DeliveryProgress {
  import opened Common
  import opened MessageDelivery

  // ---------------------------------------------------------------- what a message may still cost

  /** With `n` loops, the listings that a record may still bring about which will set the attempt count to `v`; beyond the
      last attempt it archives. Each loop may list the new count once, and each such list sets the next count. */
  function Weight(n: nat, v: int): nat
    decreases MAX_ATTEMPTS + 1 - v
  {
    if v > MAX_ATTEMPTS then 0 else Times(n, 1 + Weight(n, v + 1))
  }

  /** The product, as the sum over the loops that it is. */
  function Times(n: nat, c: nat): nat { if n == 0 then 0 else Times(n - 1, c) + c }

  lemma {:induction false} TimesIsProduct(n: nat, c: nat)
    ensures Times(n, c) == n * c
  {
    if n > 0 {
      TimesIsProduct(n - 1, c);
      OneMore(n - 1, c);
    }
  }

  lemma OneMore(p: nat, w: nat)
    ensures (p + 1) * w == p * w + w
  {
  }

  /** The record of `id` on a list. */
  function Held(w: seq<Row>, id: string): (r: Option<Row>)
    ensures r.Some? ==> r.value.id == id && r.value in w
    ensures r.None? ==> forall k :: 0 <= k < |w| ==> w[k].id != id
  {
    if w == [] then None else if w[0].id == id then Some(w[0]) else Held(w[1..], id)
  }

  /** What one loop may still cost a message at its `a`-th attempt: it holds a record, or it may list the message. */
  function Share(n: nat, w: seq<Row>, a: int, id: string): nat {
    match Held(w, id)
    case Some(r) => Weight(n, r.attempts + 1)
    case None => 1 + Weight(n, a + 1)
  }

  function Shares(s: Sys, n: nat, k: nat, a: int, id: string): nat {
    if k == 0 then 0 else Shares(s, n, k - 1, a, id) + Share(n, Work(s, k - 1), a, id)
  }

  /** What a message may still cost: nothing once it is not pending. */
  function Potential(s: Sys, n: nat, id: string): nat {
    if IsPending(s.db, id) then Shares(s, n, n, s.db.rows[id].attempts, id) else 0
  }

  function Total(s: Sys, n: nat, order: seq<string>): nat {
    if order == [] then 0 else Total(s, n, order[..|order| - 1]) + Potential(s, n, order[|order| - 1])
  }

  function PendingCount(db: Db, order: seq<string>): nat {
    if order == [] then 0 else PendingCount(db, order[..|order| - 1]) + One(IsPending(db, order[|order| - 1]))
  }

  lemma {:induction false} WeightFalls(n: nat, v: int)
    requires n > 0
    ensures Weight(n, v + 1) <= Weight(n, v)
  {
    if v <= MAX_ATTEMPTS {
      assert Weight(n, v) == Times(n - 1, 1 + Weight(n, v + 1)) + (1 + Weight(n, v + 1));
    }
  }

  lemma {:induction false} WeightBelow(n: nat, v: int, u: int)
    requires n > 0 && v <= u
    ensures Weight(n, u) <= Weight(n, v)
    decreases u - v
  {
    if v < u {
      WeightBelow(n, v + 1, u);
      WeightFalls(n, v);
    }
  }

  /** One loop lists a message five times at most; `n` loops at most n + n^2 + n^3 + n^4 + n^5 times. */
  lemma WeightForm(n: nat)
    ensures Weight(n, 1) == n * (1 + n * (1 + n * (1 + n * (1 + n))))
    ensures Weight(1, 1) == 5
  {
    WeightAt(n, 5, 0);
    WeightAt(n, 4, n);
    WeightAt(n, 3, n * (1 + n));
    WeightAt(n, 2, n * (1 + n * (1 + n)));
    WeightAt(n, 1, n * (1 + n * (1 + n * (1 + n))));
    WeightAt(1, 5, 0);
    WeightAt(1, 4, 1);
    WeightAt(1, 3, 2);
    WeightAt(1, 2, 3);
    WeightAt(1, 1, 4);
  }

  lemma WeightAt(n: nat, v: int, next: nat)
    requires v <= MAX_ATTEMPTS && Weight(n, v + 1) == next
    ensures Weight(n, v) == n * (1 + next) == Times(n, 1 + next)
  {
    TimesIsProduct(n, 1 + next);
  }

  // ---------------------------------------------------------------- one step

  ghost predicate Distinct(order: seq<string>) { forall i, j :: 0 <= i < j < |order| ==> order[i] != order[j] }

  ghost predicate DistinctIds(w: seq<Row>) { forall i, j :: 0 <= i < j < |w| ==> w[i].id != w[j].id }

  ghost predicate Inv(s: Sys) { Shared(s) && Distinct(s.order) && forall i: nat :: DistinctIds(Work(s, i)) }

  lemma InvStep(s: Sys, e: Event)
    requires Inv(s) && Enabled(s, e)
    ensures Inv(Apply(s, e))
  {
    SharedStep(s, e);
    var t := Apply(s, e);
    forall i: nat ensures DistinctIds(Work(t, i)) {
      assert DistinctIds(Work(s, i));
    }
  }

  lemma {:induction false} InvRun(s: Sys, es: seq<Event>)
    requires Inv(s) && ValidRun(s, es)
    ensures Inv(Run(s, es))
    decreases |es|
  {
    if es != [] {
      InvStep(s, es[0]);
      InvRun(Apply(s, es[0]), es[1..]);
    }
  }

  lemma {:induction false} SharesChange(s: Sys, t: Sys, n: nat, k: nat, a: int, id: string, inst: nat)
    requires forall i: nat :: i != inst ==> Work(s, i) == Work(t, i)
    ensures Shares(t, n, k, a, id) ==
            Shares(s, n, k, a, id) + if inst < k then Share(n, Work(t, inst), a, id) - Share(n, Work(s, inst), a, id) else 0
  {
    if k > 0 {
      SharesChange(s, t, n, k - 1, a, id, inst);
    }
  }

  lemma {:induction false} SharesSame(s: Sys, t: Sys, n: nat, k: nat, a: int, id: string)
    requires forall i: nat :: Work(s, i) == Work(t, i)
    ensures Shares(t, n, k, a, id) == Shares(s, n, k, a, id)
  {
    if k > 0 {
      SharesSame(s, t, n, k - 1, a, id);
    }
  }

  /** What a fresh list holds of a message is its row. */
  lemma HeldIsRow(rows: map<string, Row>, before: int, listing: seq<Row>, id: string)
    requires IsListing(rows, before, SCAN_LIMIT, listing)
    ensures Held(listing, id).Some? <==> Listed(listing, id)
    ensures Held(listing, id).Some? ==> id in rows && Held(listing, id).value == rows[id]
  {
    if Held(listing, id).Some? {
      var k :| 0 <= k < |listing| && listing[k] == Held(listing, id).value;
      assert Eligible(rows, before, listing[k].id);
    }
  }

  /** A loop that lists a message takes one off its share. */
  lemma ScanPotential(s: Sys, n: nat, inst: nat, now: int, listing: seq<Row>, id: string)
    requires Enabled(s, Scan(inst, now, listing)) && inst < n
    ensures Potential(Apply(s, Scan(inst, now, listing)), n, id) + One(Listed(listing, id)) == Potential(s, n, id)
  {
    var t := Apply(s, Scan(inst, now, listing));
    HeldIsRow(s.db.rows, now - RETRY_AFTER, listing, id);
    if IsPending(s.db, id) {
      SharesChange(s, t, n, n, s.db.rows[id].attempts, id, inst);
      ScanShare(n, listing, s.db.rows[id], id);
    } else {
      assert Listed(listing, id) ==> IsPending(s.db, id);
    }
  }

  lemma ScanShare(n: nat, listing: seq<Row>, row: Row, id: string)
    requires Held(listing, id).Some? <==> Listed(listing, id)
    requires Held(listing, id).Some? ==> Held(listing, id).value == row
    ensures Share(n, listing, row.attempts, id) + One(Listed(listing, id)) == Share(n, [], row.attempts, id)
  {
  }

  /** The work lists after loop `inst` has processed its first record. */
  lemma TailHeld(w: seq<Row>, id: string)
    requires w != [] && DistinctIds(w)
    ensures w[0].id == id ==> Held(w, id) == Some(w[0]) && Held(w[1..], id).None?
    ensures w[0].id != id ==> Held(w[1..], id) == Held(w, id)
    ensures DistinctIds(w[1..])
  {
    assert forall k :: 0 <= k < |w| - 1 ==> w[1..][k] == w[k + 1];
  }

  lemma ShareAfterProcess(n: nat, w: seq<Row>, a: int, v: int, id: string)
    ensures Share(n, w, v, id) <= Share(n, w, a, id) + 1 + Weight(n, v + 1)
  {
  }

  /** Setting the count to `v` may raise the share of every loop by what the processed record gives up. */
  lemma {:induction false} SharesAfterProcess(s: Sys, t: Sys, n: nat, k: nat, a: int, v: int, id: string, inst: nat)
    requires forall i: nat :: i != inst ==> Work(s, i) == Work(t, i)
    requires Share(n, Work(s, inst), a, id) == Weight(n, v) && Held(Work(t, inst), id).None?
    ensures Shares(t, n, k, v, id) + (if inst < k then Weight(n, v) else 0)
            <= Shares(s, n, k, a, id) + Times(k, 1 + Weight(n, v + 1))
  {
    if k > 0 {
      SharesAfterProcess(s, t, n, k - 1, a, v, id, inst);
      ShareAfterProcess(n, Work(s, k - 1), a, v, id);
    }
  }

  /** What processing the first record of loop `inst` does to the row of `id`. */
  lemma ProcessRowOf(s: Sys, inst: nat, now: int, id: string)
    requires Work(s, inst) != [] && IsPending(Apply(s, Process(inst, now)).db, id)
    ensures IsPending(s.db, id)
    ensures var r, row := Work(s, inst)[0], Apply(s, Process(inst, now)).db.rows[id];
            if r.id == id then r.attempts < MAX_ATTEMPTS && row.attempts == r.attempts + 1 else row == s.db.rows[id]
  {
  }

  lemma ProcessWork(s: Sys, inst: nat, now: int)
    requires Work(s, inst) != []
    ensures var t := Apply(s, Process(inst, now));
            Work(t, inst) == Work(s, inst)[1..] && forall i: nat :: i != inst ==> Work(s, i) == Work(t, i)
  {
  }

  lemma ProcessPotential(s: Sys, n: nat, inst: nat, now: int, id: string)
    requires Work(s, inst) != [] && DistinctIds(Work(s, inst)) && inst < n
    ensures Potential(Apply(s, Process(inst, now)), n, id) <= Potential(s, n, id)
  {
    var w, t := Work(s, inst), Apply(s, Process(inst, now));
    TailHeld(w, id);
    ProcessWork(s, inst, now);
    if IsPending(t.db, id) {
      ProcessRowOf(s, inst, now, id);
      var a := s.db.rows[id].attempts;
      if w[0].id == id {
        OwnProcessPotential(s, t, n, inst, a, w[0].attempts + 1, id);
      } else {
        OtherProcessPotential(s, t, n, inst, a, id);
      }
    }
  }

  lemma OtherProcessPotential(s: Sys, t: Sys, n: nat, inst: nat, a: int, id: string)
    requires forall i: nat :: i != inst ==> Work(s, i) == Work(t, i)
    requires Held(Work(t, inst), id) == Held(Work(s, inst), id)
    ensures Shares(t, n, n, a, id) == Shares(s, n, n, a, id)
  {
    SharesChange(s, t, n, n, a, id, inst);
  }

  lemma OwnProcessPotential(s: Sys, t: Sys, n: nat, inst: nat, a: int, v: int, id: string)
    requires inst < n && forall i: nat :: i != inst ==> Work(s, i) == Work(t, i)
    requires Share(n, Work(s, inst), a, id) == Weight(n, v) && Held(Work(t, inst), id).None?
    requires v <= MAX_ATTEMPTS
    ensures Shares(t, n, n, v, id) <= Shares(s, n, n, a, id)
  {
    SharesAfterProcess(s, t, n, n, a, v, id, inst);
    WeightAt(n, v, Weight(n, v + 1));
  }

  lemma ElsePotential(s: Sys, n: nat, e: Event, id: string)
    requires Inv(s) && Enabled(s, e) && (e.AckRead? || e.AckUpdate? || e.FinishAck?) && id in s.order
    ensures Potential(Apply(s, e), n, id) <= Potential(s, n, id)
  {
    var t := Apply(s, e);
    if IsPending(t.db, id) {
      OthersKept(s, e, id);
      SharesSame(s, t, n, n, s.db.rows[id].attempts, id);
    }
  }

  ghost function ListedIn(e: Event, id: string): nat { One(e.Scan? && Listed(e.listing, id)) }

  /** No step raises what a message may still cost, and listing it lowers that. */
  lemma StepLowers(s: Sys, n: nat, e: Event, id: string)
    requires Inv(s) && Enabled(s, e) && Within(e, n) && !e.Create? && id in s.order
    ensures Potential(Apply(s, e), n, id) + ListedIn(e, id) <= Potential(s, n, id)
  {
    match e
    case Scan(inst, now, listing) => ScanPotential(s, n, inst, now, listing, id);
    case Process(inst, now) =>
      assert DistinctIds(Work(s, inst));
      ProcessPotential(s, n, inst, now, id);
    case _ => ElsePotential(s, n, e, id);
  }

  // ---------------------------------------------------------------- all messages

  function Cost(e: Event): nat { if e.Scan? then |e.listing| else 0 }

  ghost function ListedOf(order: seq<string>, w: seq<Row>): nat {
    if order == [] then 0 else ListedOf(order[..|order| - 1], w) + One(Listed(w, order[|order| - 1]))
  }

  /** One more record on the list is one more listed message. */
  lemma {:induction false} ListedOfGrows(order: seq<string>, w: seq<Row>, r: Row)
    ensures ListedOf(order, w + [r]) >= ListedOf(order, w) + One(r.id in order && !Listed(w, r.id))
  {
    if order != [] {
      var front, last := order[..|order| - 1], order[|order| - 1];
      ListedOfGrows(front, w, r);
      assert r.id in order <==> r.id in front || r.id == last;
      assert (w + [r])[|w|] == r && forall k :: 0 <= k < |w| ==> (w + [r])[k] == w[k];
      assert Listed(w, last) || r.id == last ==> Listed(w + [r], last);
    }
  }

  lemma {:induction false} AllListed(order: seq<string>, w: seq<Row>)
    requires DistinctIds(w) && forall k :: 0 <= k < |w| ==> w[k].id in order
    ensures ListedOf(order, w) >= |w|
  {
    if w != [] {
      var front, last := w[..|w| - 1], w[|w| - 1];
      AllListed(order, front);
      ListedOfGrows(order, front, last);
      assert w == front + [last] && !Listed(front, last.id);
    }
  }

  lemma {:induction false} TotalStep(s: Sys, n: nat, e: Event, order: seq<string>)
    requires Inv(s) && Enabled(s, e) && Within(e, n) && !e.Create? && forall id | id in order :: id in s.order
    ensures Total(Apply(s, e), n, order) + (if e.Scan? then ListedOf(order, e.listing) else 0) <= Total(s, n, order)
  {
    if order != [] {
      TotalStep(s, n, e, order[..|order| - 1]);
      StepLowers(s, n, e, order[|order| - 1]);
    }
  }

  /** Every step lowers the total by the length of the list it makes. */
  lemma TotalLowers(s: Sys, n: nat, e: Event)
    requires Inv(s) && Enabled(s, e) && Within(e, n) && !e.Create?
    ensures Apply(s, e).order == s.order && Total(Apply(s, e), n, s.order) + Cost(e) <= Total(s, n, s.order)
  {
    TotalStep(s, n, e, s.order);
    if e.Scan? {
      forall k | 0 <= k < |e.listing| ensures e.listing[k].id in s.order {
        assert Eligible(s.db.rows, e.now - RETRY_AFTER, e.listing[k].id);
      }
      AllListed(s.order, e.listing);
    }
  }

  // ---------------------------------------------------------------- bounds

  function Listings(es: seq<Event>): nat {
    if es == [] then 0 else Cost(es[0]) + Listings(es[1..])
  }

  ghost predicate NoCreate(es: seq<Event>) { forall i :: 0 <= i < |es| ==> !es[i].Create? }

  lemma {:induction false} RunLowers(s: Sys, n: nat, es: seq<Event>)
    requires Inv(s) && RunWithin(s, es, n) && NoCreate(es)
    ensures Run(s, es).order == s.order && Listings(es) + Total(Run(s, es), n, s.order) <= Total(s, n, s.order)
    decreases |es|
  {
    if es != [] {
      TotalLowers(s, n, es[0]);
      InvStep(s, es[0]);
      assert forall i :: 0 <= i < |es[1..]| ==> es[1..][i] == es[i + 1];
      RunLowers(Apply(s, es[0]), n, es[1..]);
    }
  }

  lemma {:induction false} SharesBound(s: Sys, n: nat, k: nat, a: int, id: string)
    requires n > 0 && a >= 1 && forall i: nat, j | 0 <= j < |Work(s, i)| :: Work(s, i)[j].attempts >= 1
    ensures Shares(s, n, k, a, id) <= Times(k, 1 + Weight(n, 2))
  {
    if k > 0 {
      SharesBound(s, n, k - 1, a, id);
      WeightBelow(n, 2, a + 1);
      if Held(Work(s, k - 1), id).Some? {
        WeightBelow(n, 2, Held(Work(s, k - 1), id).value.attempts + 1);
      }
    }
  }

  lemma {:induction false} SharesIdle(s: Sys, n: nat, k: nat, a: int, id: string)
    requires forall i: nat :: i < k ==> Work(s, i) == []
    ensures Shares(s, n, k, a, id) >= k
  {
    if k > 0 {
      SharesIdle(s, n, k - 1, a, id);
    }
  }

  lemma PotentialBound(s: Sys, n: nat, id: string)
    requires Inv(s) && n > 0
    ensures Potential(s, n, id) <= if IsPending(s.db, id) then Weight(n, 1) else 0
  {
    if IsPending(s.db, id) {
      forall i: nat, j | 0 <= j < |Work(s, i)| ensures Work(s, i)[j].attempts >= 1 {
        assert RowOk(s.work[i][j]);
      }
      SharesBound(s, n, n, s.db.rows[id].attempts, id);
      WeightAt(n, 1, Weight(n, 2));
    }
  }

  lemma {:induction false} TotalAtMost(s: Sys, n: nat, order: seq<string>)
    requires Inv(s) && n > 0
    ensures Total(s, n, order) <= PendingCount(s.db, order) * Weight(n, 1)
  {
    if order != [] {
      var front, id := order[..|order| - 1], order[|order| - 1];
      TotalAtMost(s, n, front);
      PotentialBound(s, n, id);
      OneMore(PendingCount(s.db, front), Weight(n, 1));
    }
  }

  ghost predicate AllIdle(s: Sys, n: nat) { forall i: nat :: i < n ==> Work(s, i) == [] }

  lemma {:induction false} TotalAtLeast(s: Sys, n: nat, order: seq<string>)
    requires n > 0 && AllIdle(s, n)
    ensures PendingCount(s.db, order) <= Total(s, n, order)
  {
    if order != [] {
      var id := order[|order| - 1];
      TotalAtLeast(s, n, order[..|order| - 1]);
      if IsPending(s.db, id) {
        SharesIdle(s, n, n, s.db.rows[id].attempts, id);
      }
    }
  }

  ghost predicate AnyEligible(rows: map<string, Row>, before: int) { exists id :: Eligible(rows, before, id) }

  /** The times a scan finds work: some message is pending and old enough. */
  ghost function BusyScans(s: Sys, es: seq<Event>): nat
    decreases |es|
  {
    if es == [] then 0
    else One(es[0].Scan? && AnyEligible(s.db.rows, es[0].now - RETRY_AFTER)) + BusyScans(Apply(s, es[0]), es[1..])
  }

  /** The times a message is pending and old enough yet left out of the list. */
  ghost function PassedOver(s: Sys, es: seq<Event>, id: string): nat
    decreases |es|
  {
    if es == [] then 0
    else
      One(es[0].Scan? && Eligible(s.db.rows, es[0].now - RETRY_AFTER, id) && !Listed(es[0].listing, id))
      + PassedOver(Apply(s, es[0]), es[1..], id)
  }

  lemma {:induction false} ScansAreListings(s: Sys, es: seq<Event>, id: string)
    requires ValidRun(s, es)
    ensures BusyScans(s, es) <= Listings(es) && SCAN_LIMIT * PassedOver(s, es, id) <= Listings(es)
    decreases |es|
  {
    if es != [] {
      ScansAreListings(Apply(s, es[0]), es[1..], id);
      if es[0].Scan? && AnyEligible(s.db.rows, es[0].now - RETRY_AFTER) {
        var i :| Eligible(s.db.rows, es[0].now - RETRY_AFTER, i);
        assert Listed(es[0].listing, i) || |es[0].listing| == SCAN_LIMIT;
      }
    }
  }

  /** Delivery terminates, with any number `n` of loops. After any history of the system, while no new messages arrive:
      the N pending messages are listed at most N (n + n^2 + n^3 + n^4 + n^5) times in all, 5 N times with one loop; each
      scan that finds work uses up at least one of these, so that once the loops are idle at most the rest are left
      pending; and none is passed over by the 64-row limit more often than a sixty-fourth of them. */
  lemma DeliveryTerminates(history: seq<Event>, es: seq<Event>, n: nat, id: string)
    requires n > 0 && RunWithin(START, history, n) && RunWithin(Run(START, history), es, n) && NoCreate(es)
    ensures var s := Run(START, history);
            var bound := PendingCount(s.db, s.order) * Weight(n, 1);
            var s' := Run(s, es);
            && Listings(es) <= bound
            && (AllIdle(s', n) ==> PendingCount(s'.db, s'.order) + BusyScans(s, es) <= bound)
            && 64 * PassedOver(s, es, id) <= bound
  {
    InvRun(START, history);
    var s := Run(START, history);
    InvRun(s, es);
    RunLowers(s, n, es);
    ScansAreListings(s, es, id);
    TotalAtMost(s, n, s.order);
    if AllIdle(Run(s, es), n) {
      TotalAtLeast(Run(s, es), n, s.order);
    }
  }

  // ---------------------------------------------------------------- when the attempt count falls

  /** A message that stays pending loses attempts exactly when a loop processes a record at least two behind the row. */
  lemma AttemptsFallExactly(s: Sys, e: Event, id: string)
    requires Shared(s) && Enabled(s, e) && IsPending(s.db, id) && IsPending(Apply(s, e).db, id)
    ensures Apply(s, e).db.rows[id].attempts < s.db.rows[id].attempts <==>
            e.Process? && Work(s, e.inst)[0].id == id && Work(s, e.inst)[0].attempts + 1 < s.db.rows[id].attempts
  {
    if e.Process? {
      assert Work(s, e.inst)[0] == s.work[e.inst][0];
    } else if !e.Scan? {
      assert id in s.order;
      OthersKept(s, e, id);
    }
  }

  /** With one loop it never does. */
  lemma SoloAttemptsNeverFall(history: seq<Event>, e: Event, id: string)
    requires SoloRun(START, history) && Enabled(Run(START, history), e) && Solo(e)
    requires IsPending(Run(START, history).db, id) && IsPending(Apply(Run(START, history), e).db, id)
    ensures Apply(Run(START, history), e).db.rows[id].attempts >= Run(START, history).db.rows[id].attempts
  {
    LoopRun(START, history);
    AttemptsFallExactly(Run(START, history), e, id);
  }

  // ---------------------------------------------------------------- the race

  lemma {:induction false} RunAppend(s: Sys, a: seq<Event>, b: seq<Event>)
    ensures Run(s, a + b) == Run(Run(s, a), b)
    ensures ValidRun(s, a) && ValidRun(Run(s, a), b) ==> ValidRun(s, a + b)
    decreases |a|
  {
    if a == [] {
      assert a + b == b;
    } else {
      RunAppend(Apply(s, a[0]), a[1..], b);
      assert (a + b)[0] == a[0] && (a + b)[1..] == a[1..] + b;
    }
  }

  function OnlyRow(k: int): Row { Row("m", "u", "n", k, Pending, 3_000 * (k - 1), 0, 0) }

  /** One message, created at time 0 and retried every three seconds, `k - 1` times. */
  function Rounds(k: nat): seq<Event> {
    if k <= 1 then [Create("m", "u", "n", 0)]
    else Rounds(k - 1) + [Scan(0, 3_000 * (k - 1), [OnlyRow(k - 1)]), Process(0, 3_000 * (k - 1))]
  }

  lemma OnlyRowListed(s: Sys, k: int)
    requires s.db.rows == map["m" := OnlyRow(k)]
    ensures IsListing(s.db.rows, 3_000 * k - RETRY_AFTER, SCAN_LIMIT, [OnlyRow(k)])
  {
    assert [OnlyRow(k)][0].id == "m";
    assert Listed([OnlyRow(k)], "m");
  }

  lemma RunOne(s: Sys, a: Event)
    ensures Run(s, [a]) == Apply(s, a) && (Enabled(s, a) ==> ValidRun(s, [a]))
  {
    assert [a][1..] == [];
  }

  lemma RunTwo(s: Sys, a: Event, b: Event)
    ensures Run(s, [a, b]) == Apply(Apply(s, a), b)
    ensures Enabled(s, a) && Enabled(Apply(s, a), b) ==> ValidRun(s, [a, b])
  {
    assert [a, b][1..] == [b] && [b][1..] == [];
    assert Run(Apply(s, a), [b]) == Apply(Apply(s, a), b);
  }

  /** The system holds nothing but the one message, at its k-th attempt. */
  ghost predicate OnlyMessage(s: Sys, k: int) {
    s.db == Db(map["m" := OnlyRow(k)], []) && s.order == ["m"] && Work(s, 0) == [] && s.acks == map[]
  }

  /** One retry by loop `i`, which touches nothing of the other loops. */
  lemma RoundOf(s: Sys, i: nat, k: nat)
    requires 1 <= k <= 4 && s.db == Db(map["m" := OnlyRow(k)], []) && Work(s, i) == []
    ensures var round := [Scan(i, 3_000 * k, [OnlyRow(k)]), Process(i, 3_000 * k)];
            && ValidRun(s, round) && Run(s, round).db == Db(map["m" := OnlyRow(k + 1)], [])
            && Run(s, round).order == s.order && Run(s, round).acks == s.acks && Work(Run(s, round), i) == []
            && forall j: nat :: j != i ==> Work(Run(s, round), j) == Work(s, j)
  {
    var a, b := Scan(i, 3_000 * k, [OnlyRow(k)]), Process(i, 3_000 * k);
    OnlyRowListed(s, k);
    RunTwo(s, a, b);
    assert Work(Apply(s, a), i) == [OnlyRow(k)] && [OnlyRow(k)][1..] == [];
    assert Apply(Apply(s, a), b).db.rows == map["m" := OnlyRow(k + 1)];
  }

  lemma RoundRun(s: Sys, k: nat)
    requires 1 <= k <= 4 && OnlyMessage(s, k)
    ensures var round := [Scan(0, 3_000 * k, [OnlyRow(k)]), Process(0, 3_000 * k)];
            ValidRun(s, round) && OnlyMessage(Run(s, round), k + 1)
  {
    RoundOf(s, 0, k);
  }

  lemma {:induction false} RoundsRun(k: nat)
    requires 1 <= k <= 5
    ensures SoloRun(START, Rounds(k)) && OnlyMessage(Run(START, Rounds(k)), k)
  {
    if k == 1 {
      RunOne(START, Create("m", "u", "n", 0));
    } else {
      RoundsRun(k - 1);
      RoundRun(Run(START, Rounds(k - 1)), k - 1);
      RunAppend(START, Rounds(k - 1), [Scan(0, 3_000 * (k - 1), [OnlyRow(k - 1)]), Process(0, 3_000 * (k - 1))]);
    }
  }

  /** The fifth listing, an acknowledgement that reads and marks while it is worked through, and the two archivings. */
  function RaceEnd(): seq<Event> {
    [Scan(0, 15_000, [OnlyRow(5)]), AckRead(0, "m", "u")] + [AckUpdate(0, 15_000), Process(0, 15_000)] + [FinishAck(0, 15_000)]
  }

  lemma RaceRead(s: Sys)
    requires OnlyMessage(s, 5)
    ensures var begin := [Scan(0, 15_000, [OnlyRow(5)]), AckRead(0, "m", "u")];
            && ValidRun(s, begin)
            && Work(Run(s, begin), 0) == [OnlyRow(5)] && Run(s, begin).acks == map[0 := AckJob(OnlyRow(5), false)]
            && Run(s, begin).db == s.db
  {
    OnlyRowListed(s, 5);
    RunTwo(s, Scan(0, 15_000, [OnlyRow(5)]), AckRead(0, "m", "u"));
  }

  lemma RaceMark(s: Sys)
    requires s.db == Db(map["m" := OnlyRow(5)], []) && Work(s, 0) == [OnlyRow(5)] && s.acks == map[0 := AckJob(OnlyRow(5), false)]
    ensures var middle := [AckUpdate(0, 15_000), Process(0, 15_000)];
            && ValidRun(s, middle) && Run(s, middle).acks == map[0 := AckJob(OnlyRow(5), true)]
            && Run(s, middle).db.history == [Entry("m", 5, Undelivered, 0, 15_000)]
  {
    RunTwo(s, AckUpdate(0, 15_000), Process(0, 15_000));
  }

  lemma RaceEndRun(s: Sys)
    requires OnlyMessage(s, 5)
    ensures ValidRun(s, RaceEnd())
    ensures Run(s, RaceEnd()).db.history == [Entry("m", 5, Undelivered, 0, 15_000), Entry("m", 5, Delivered, 0, 15_000)]
  {
    var begin, middle := [Scan(0, 15_000, [OnlyRow(5)]), AckRead(0, "m", "u")], [AckUpdate(0, 15_000), Process(0, 15_000)];
    RaceRead(s);
    RaceMark(Run(s, begin));
    RunAppend(s, begin, middle);
    RunOne(Run(s, begin + middle), FinishAck(0, 15_000));
    RunAppend(s, begin + middle, [FinishAck(0, 15_000)]);
  }

  /** The race is real with a single loop: after four retries the fifth listing is being worked through when the
      client's acknowledgement is accepted, and the message ends up archived both as undelivered and as delivered. */
  lemma AckRaceArchivesTwice()
    ensures SoloRun(START, Rounds(5) + RaceEnd())
    ensures var h := Run(START, Rounds(5) + RaceEnd()).db.history;
            |h| == 2 && h[0].id == h[1].id && h[0].outcome == Undelivered && h[1].outcome == Delivered
  {
    RoundsRun(5);
    RaceAfter(Rounds(5));
  }

  lemma RaceAfter(before: seq<Event>)
    requires SoloRun(START, before)
    requires OnlyMessage(Run(START, before), 5)
    ensures SoloRun(START, before + RaceEnd())
    ensures Run(START, before + RaceEnd()).db.history
            == [Entry("m", 5, Undelivered, 0, 15_000), Entry("m", 5, Delivered, 0, 15_000)]
  {
    RaceEndRun(Run(START, before));
    RunAppend(START, before, RaceEnd());
    RaceEndIsSolo();
    var end := RaceEnd();
    assert forall i :: 0 <= i < |before + end| ==> (before + end)[i] == if i < |before| then before[i] else end[i - |before|];
  }

  lemma RaceEndIsSolo()
    ensures forall i :: 0 <= i < |RaceEnd()| ==> Solo(RaceEnd()[i])
  {
  }

  /** Two acknowledgements that both read the row before either marks it. */
  function TwoAcks(): seq<Event> {
    [AckRead(0, "m", "u"), AckRead(1, "m", "u")] + [AckUpdate(0, 10), AckUpdate(1, 10)] + [FinishAck(0, 10), FinishAck(1, 10)]
  }

  lemma TwoAcksRun(s: Sys)
    requires OnlyMessage(s, 1)
    ensures ValidRun(s, TwoAcks())
    ensures Run(s, TwoAcks()).db.history == [Entry("m", 1, Delivered, 0, 10), Entry("m", 1, Delivered, 0, 10)]
  {
    var a, b := AckRead(0, "m", "u"), AckRead(1, "m", "u");
    var c, d := AckUpdate(0, 10), AckUpdate(1, 10);
    RunTwo(s, a, b);
    var s2 := Apply(Apply(s, a), b);
    assert s2.acks == map[0 := AckJob(OnlyRow(1), false), 1 := AckJob(OnlyRow(1), false)] && s2.db == s.db;
    RunTwo(s2, c, d);
    var s4 := Apply(Apply(s2, c), d);
    assert s4.acks == map[0 := AckJob(OnlyRow(1), true), 1 := AckJob(OnlyRow(1), true)] && s4.db.history == [];
    RunTwo(s4, FinishAck(0, 10), FinishAck(1, 10));
    RunAppend(s, [a, b], [c, d]);
    RunAppend(s, [a, b] + [c, d], [FinishAck(0, 10), FinishAck(1, 10)]);
  }

  /** Nor does it take the loop: two overlapping acknowledgements archive one message as delivered twice. */
  lemma OverlappingAcksArchiveTwice()
    ensures ValidRun(START, Rounds(1) + TwoAcks())
    ensures var h := Run(START, Rounds(1) + TwoAcks()).db.history;
            |h| == 2 && h[0].id == h[1].id && h[0].outcome == Delivered && h[1].outcome == Delivered
  {
    RoundsRun(1);
    TwoAcksRun(Run(START, Rounds(1)));
    RunAppend(START, Rounds(1), TwoAcks());
  }

  // ---------------------------------------------------------------- two loops

  /** Loop 0 lists the message; loop 1 retries it twice; then loop 0 gets to its record. */
  function StaleRun(): seq<Event> {
    Rounds(1) + [Scan(0, 3_000, [OnlyRow(1)])] + [Scan(1, 3_000, [OnlyRow(1)]), Process(1, 3_000)]
    + [Scan(1, 6_000, [OnlyRow(2)]), Process(1, 6_000)]
  }

  lemma StaleRunHolds()
    ensures ValidRun(START, StaleRun())
    ensures var s := Run(START, StaleRun()); s.db == Db(map["m" := OnlyRow(3)], []) && Work(s, 0) == [OnlyRow(1)]
  {
    var r1, r2 := [Scan(1, 3_000, [OnlyRow(1)]), Process(1, 3_000)], [Scan(1, 6_000, [OnlyRow(2)]), Process(1, 6_000)];
    RoundsRun(1);
    var es := Rounds(1);
    OnlyRowListed(Run(START, es), 1);
    FirstLoopOnly(1);
    RunOne(Run(START, es), Scan(0, 3_000, [OnlyRow(1)]));
    RunAppend(START, es, [Scan(0, 3_000, [OnlyRow(1)])]);
    es := es + [Scan(0, 3_000, [OnlyRow(1)])];
    RoundOf(Run(START, es), 1, 1);
    RunAppend(START, es, r1);
    es := es + r1;
    RoundOf(Run(START, es), 1, 2);
    RunAppend(START, es, r2);
  }

  lemma FirstLoopOnly(j: nat)
    requires j > 0
    ensures Work(Run(START, Rounds(1)), j) == []
  {
    RunOne(START, Create("m", "u", "n", 0));
  }

  /** With two loops a stale list sets the attempt count back: from three to two. */
  lemma StaleListLowersCount()
    ensures ValidRun(START, StaleRun() + [Process(0, 6_000)])
    ensures Run(START, StaleRun()).db.rows.Keys == Run(START, StaleRun() + [Process(0, 6_000)]).db.rows.Keys == {"m"}
    ensures Run(START, StaleRun()).db.rows["m"].attempts == 3
    ensures Run(START, StaleRun() + [Process(0, 6_000)]).db.rows["m"].attempts == 2
  {
    StaleRunHolds();
    RunOne(Run(START, StaleRun()), Process(0, 6_000));
    RunAppend(START, StaleRun(), [Process(0, 6_000)]);
  }
}
