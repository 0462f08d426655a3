/** Reliable delivery of control messages: the outbound table, the retry scan and acknowledgements.
    Retry loops and acknowledgements are separate actors whose database statements interleave: an acknowledgement
    reads the pending row, marks it if it still is pending, and archives what it read, in three steps. (The first two
    share a transaction, but at the default isolation level and without a row lock the read holds nobody up.)
    Database calls are taken to succeed; times are milliseconds. */
module MessageDelivery {
  import opened Common

  const MAX_ATTEMPTS := 5
  const RETRY_AFTER := 3_000
  const SCAN_LIMIT := 64

  datatype Status = Pending | Acked

  datatype Row = Row(id: string, user: string, node: string, attempts: int, status: Status,
                     lastAttempt: int, ackedAt: int, createdAt: int)

  datatype Outcome = Delivered | Undelivered

  datatype Entry = Entry(id: string, attempts: int, outcome: Outcome, ackedAt: int, archivedAt: int)

  /** The outbound table keyed by message id, and the history table in insertion order. */
  datatype Db = Db(rows: map<string, Row>, history: seq<Entry>)

  predicate IsPending(db: Db, id: string) { id in db.rows && db.rows[id].status.Pending? }

  // ---------------------------------------------------------------- table steps

  /** `UpdateControlOutboundMessageAttempt`: only a pending row is touched. */
  function UpdateAttempt(db: Db, id: string, attempts: int, at: int): Db {
    if IsPending(db, id) then db.(rows := db.rows[id := db.rows[id].(attempts := attempts, lastAttempt := at)]) else db
  }

  /** The read of `AckControlOutboundMessage`: a pending row of the right user. */
  function Ackable(db: Db, id: string, user: string): Option<Row> {
    if !IsPending(db, id) then None
    else if user != "" && db.rows[id].user != "" && db.rows[id].user != user then None
    else Some(db.rows[id])
  }

  /** Its update: only a row that still is pending is marked, and marking none is no error. */
  function MarkRow(db: Db, id: string, at: int): Db {
    if IsPending(db, id) then db.(rows := db.rows[id := db.rows[id].(status := Acked, ackedAt := at)]) else db
  }

  /** The two with nothing in between: the record returned was read before the update. */
  function MarkAcked(db: Db, id: string, user: string, at: int): (Db, Option<Row>) {
    var r := Ackable(db, id, user);
    (if r.Some? then MarkRow(db, id, at) else db, r)
  }

  /** `ArchiveControlOutboundMessage`: one transaction that writes history and deletes the row, whatever its status. */
  function Archive(db: Db, r: Row, outcome: Outcome, at: int): Db {
    Db(db.rows - {r.id}, db.history + [Entry(r.id, r.attempts, outcome, r.ackedAt, at)])
  }

  /** The retry loop's treatment of one listed message. */
  function ProcessRow(db: Db, r: Row, now: int): Db {
    if r.attempts >= MAX_ATTEMPTS then Archive(db, r, Undelivered, now) else UpdateAttempt(db, r.id, r.attempts + 1, now)
  }

  function ProcessAll(db: Db, rs: seq<Row>, clock: nat -> int): Db {
    if rs == [] then db else ProcessRow(ProcessAll(db, rs[..|rs| - 1], clock), rs[|rs| - 1], clock(|rs| - 1))
  }

  // ---------------------------------------------------------------- listing

  predicate NotAfter(a: Row, b: Row) {
    a.lastAttempt < b.lastAttempt || (a.lastAttempt == b.lastAttempt && a.createdAt <= b.createdAt)
  }

  predicate Eligible(rows: map<string, Row>, before: int, id: string) {
    id in rows && rows[id].status.Pending? && rows[id].lastAttempt <= before
  }

  ghost predicate Listed(out: seq<Row>, id: string) { exists k :: 0 <= k < |out| && out[k].id == id }

  /** What `ListRetryable` may return; rows that tie in both order columns may come in any order. */
  ghost predicate IsListing(rows: map<string, Row>, before: int, limit: int, out: seq<Row>) {
    && (limit > 0 ==> |out| <= limit)
    && (forall k :: 0 <= k < |out| ==> Eligible(rows, before, out[k].id) && rows[out[k].id] == out[k])
    && (forall k, l :: 0 <= k < l < |out| ==> out[k].id != out[l].id && NotAfter(out[k], out[l]))
    && (forall id :: Eligible(rows, before, id) && !Listed(out, id) ==>
          limit > 0 && |out| == limit && forall k :: 0 <= k < |out| ==> NotAfter(out[k], rows[id]))
  }

  // ---------------------------------------------------------------- the interleaved system

  /** `order` lists the ids ever created; `work` is what each scanning instance has listed and not yet
      processed; `acks` holds the acknowledgements in progress, each with the record it read. */
  datatype Sys = Sys(db: Db, order: seq<string>, work: map<nat, seq<Row>>, acks: map<nat, AckJob>)

  datatype AckJob = AckJob(row: Row, marked: bool)

  const START := Sys(Db(map[], []), [], map[], map[])

  datatype Event =
    | Create(id: string, user: string, node: string, now: int)
    | Scan(inst: nat, now: int, listing: seq<Row>)
    | Process(inst: nat, now: int)
    | AckRead(ack: nat, id: string, user: string)
    | AckUpdate(ack: nat, now: int)
    | FinishAck(ack: nat, now: int)

  function Work(s: Sys, inst: nat): seq<Row> { if inst in s.work then s.work[inst] else [] }

  /** A created id is new; an instance scans when its previous list is done. */
  ghost predicate Enabled(s: Sys, e: Event) {
    match e
    case Create(id, _, _, _) => id !in s.order
    case Scan(inst, now, listing) => Work(s, inst) == [] && IsListing(s.db.rows, now - RETRY_AFTER, SCAN_LIMIT, listing)
    case Process(inst, _) => Work(s, inst) != []
    case AckRead(ack, _, _) => ack !in s.acks
    case AckUpdate(ack, _) => ack in s.acks && !s.acks[ack].marked
    case FinishAck(ack, _) => ack in s.acks && s.acks[ack].marked
  }

  function Apply(s: Sys, e: Event): Sys {
    match e
    case Create(id, user, node, now) =>
      s.(db := s.db.(rows := s.db.rows[id := Row(id, user, node, 1, Pending, now, 0, now)]), order := s.order + [id])
    case Scan(inst, _, listing) => s.(work := s.work[inst := listing])
    case Process(inst, now) =>
      var w := Work(s, inst);
      if w == [] then s else s.(db := ProcessRow(s.db, w[0], now), work := s.work[inst := w[1..]])
    case AckRead(ack, id, user) =>
      var r := Ackable(s.db, id, user);
      if r.Some? then s.(acks := s.acks[ack := AckJob(r.value, false)]) else s
    case AckUpdate(ack, now) =>
      if ack !in s.acks then s
      else s.(db := MarkRow(s.db, s.acks[ack].row.id, now), acks := s.acks[ack := s.acks[ack].(marked := true)])
    case FinishAck(ack, now) =>
      if ack !in s.acks then s
      else s.(db := Archive(s.db, s.acks[ack].row, Delivered, now), acks := s.acks - {ack})
  }

  ghost predicate ValidRun(s: Sys, es: seq<Event>)
    decreases |es|
  {
    es == [] || (Enabled(s, es[0]) && ValidRun(Apply(s, es[0]), es[1..]))
  }

  function Run(s: Sys, es: seq<Event>): Sys
    decreases |es|
  {
    if es == [] then s else Run(Apply(s, es[0]), es[1..])
  }

  // ---------------------------------------------------------------- any number of scanning instances

  predicate RowOk(r: Row) { 1 <= r.attempts <= MAX_ATTEMPTS }

  ghost predicate InHistory(db: Db, id: string) { exists k :: 0 <= k < |db.history| && db.history[k].id == id }

  /** Attempt counts are in range wherever a record is held, and a created id is either a row or in history. */
  ghost predicate Shared(s: Sys) {
    && (forall id :: id in s.db.rows ==> s.db.rows[id].id == id && id in s.order && RowOk(s.db.rows[id]) && !InHistory(s.db, id))
    && (forall id :: id in s.order && id !in s.db.rows ==> InHistory(s.db, id))
    && (forall id :: InHistory(s.db, id) ==> id in s.order)
    && (forall i, k :: i in s.work && 0 <= k < |s.work[i]| ==> RowOk(s.work[i][k]) && s.work[i][k].id in s.order)
    && (forall k :: k in s.acks ==> s.acks[k].row.id in s.order)
  }

  lemma ArchiveHistory(db: Db, r: Row, outcome: Outcome, at: int, id: string)
    ensures InHistory(Archive(db, r, outcome, at), id) <==> InHistory(db, id) || id == r.id
  {
    var h := Archive(db, r, outcome, at).history;
    assert h[|db.history|].id == r.id;
    assert forall k :: 0 <= k < |db.history| ==> h[k] == db.history[k];
  }

  lemma SharedArchive(s: Sys, r: Row, outcome: Outcome, at: int)
    requires Shared(s) && r.id in s.order
    ensures Shared(s.(db := Archive(s.db, r, outcome, at)))
  {
    forall id ensures InHistory(Archive(s.db, r, outcome, at), id) <==> InHistory(s.db, id) || id == r.id {
      ArchiveHistory(s.db, r, outcome, at, id);
    }
  }

  lemma SharedProcess(s: Sys, inst: nat, now: int)
    requires Shared(s) && Work(s, inst) != []
    ensures Shared(Apply(s, Process(inst, now)))
  {
    var w := Work(s, inst);
    var s' := s.(work := s.work[inst := w[1..]]);
    assert forall k :: 0 <= k < |w| - 1 ==> w[1..][k] == w[k + 1];
    assert Shared(s');
    assert RowOk(w[0]) && w[0].id in s.order;
    if w[0].attempts >= MAX_ATTEMPTS {
      SharedArchive(s', w[0], Undelivered, now);
    }
  }

  lemma SharedScan(s: Sys, inst: nat, now: int, listing: seq<Row>)
    requires Shared(s) && IsListing(s.db.rows, now - RETRY_AFTER, SCAN_LIMIT, listing)
    ensures Shared(Apply(s, Scan(inst, now, listing)))
  {
    forall k | 0 <= k < |listing| ensures RowOk(listing[k]) && listing[k].id in s.order {
      assert Eligible(s.db.rows, now - RETRY_AFTER, listing[k].id);
    }
  }

  lemma SharedCreate(s: Sys, e: Event)
    requires Shared(s) && Enabled(s, e) && e.Create?
    ensures Shared(Apply(s, e))
  {
  }

  lemma SharedAckRead(s: Sys, e: Event)
    requires Shared(s) && Enabled(s, e) && e.AckRead?
    ensures Shared(Apply(s, e))
  {
  }

  lemma SharedAckUpdate(s: Sys, e: Event)
    requires Shared(s) && Enabled(s, e) && e.AckUpdate?
    ensures Shared(Apply(s, e))
  {
    var t := Apply(s, e);
    assert t.db.rows.Keys == s.db.rows.Keys && t.db.history == s.db.history;
  }

  lemma SharedStep(s: Sys, e: Event)
    requires Shared(s) && Enabled(s, e)
    ensures Shared(Apply(s, e))
  {
    match e
    case Create(_, _, _, _) => SharedCreate(s, e);
    case Scan(inst, now, listing) => SharedScan(s, inst, now, listing);
    case Process(inst, now) => SharedProcess(s, inst, now);
    case FinishAck(ack, now) => SharedArchive(s.(acks := s.acks - {ack}), s.acks[ack].row, Delivered, now);
    case AckRead(_, _, _) => SharedAckRead(s, e);
    case AckUpdate(_, _) => SharedAckUpdate(s, e);
  }

  lemma {:induction false} SharedRun(s: Sys, es: seq<Event>)
    requires Shared(s) && ValidRun(s, es)
    ensures Shared(Run(s, es))
    decreases |es|
  {
    if es != [] {
      SharedStep(s, es[0]);
      SharedRun(Apply(s, es[0]), es[1..]);
    }
  }

  /** With any number of scanning instances and acknowledgements interleaved anywhere: every created message is
      in exactly one of the pending rows, the acked rows and the history, and attempt counts stay in 1..5. */
  lemma EveryMessageInOnePlace(es: seq<Event>, id: string)
    requires ValidRun(START, es)
    ensures var s := Run(START, es);
            && (id in s.order <==> id in s.db.rows || InHistory(s.db, id))
            && !(id in s.db.rows && InHistory(s.db, id))
            && (id in s.db.rows ==> 1 <= s.db.rows[id].attempts <= 5)
  {
    SharedRun(START, es);
  }

  /** One step leaves a created message that is not pending alone, or archives it. */
  lemma FrozenStep(s: Sys, e: Event, id: string)
    requires Shared(s) && Enabled(s, e) && id in s.order && !IsPending(s.db, id)
    ensures var s' := Apply(s, e);
            && id in s'.order && !IsPending(s'.db, id)
            && (id in s'.db.rows ==> id in s.db.rows && s'.db.rows[id] == s.db.rows[id])
            && (e.Scan? ==> !Listed(e.listing, id))
  {
  }

  /** Once a message is acked no later scan of any instance lists it, and its row, attempt count included,
      stays as it is until it is archived for good, even if it was on a list when the acknowledgement came. */
  lemma {:induction false} AckedStaysFrozen(s: Sys, es: seq<Event>, id: string)
    requires Shared(s) && ValidRun(s, es) && id in s.order && !IsPending(s.db, id)
    ensures var s' := Run(s, es);
            && !IsPending(s'.db, id)
            && (id in s'.db.rows ==> id in s.db.rows && s'.db.rows[id] == s.db.rows[id])
            && (forall i :: 0 <= i < |es| && es[i].Scan? ==> !Listed(es[i].listing, id))
    decreases |es|
  {
    if es != [] {
      FrozenStep(s, es[0], id);
      SharedStep(s, es[0]);
      AckedStaysFrozen(Apply(s, es[0]), es[1..], id);
      assert forall i :: 0 < i < |es| ==> es[i] == es[1..][i - 1];
    }
  }

  lemma AckedRowIsFrozen(history: seq<Event>, es: seq<Event>, id: string)
    requires ValidRun(START, history) && ValidRun(Run(START, history), es)
    requires id in Run(START, history).db.rows && Run(START, history).db.rows[id].status.Acked?
    ensures var s, s' := Run(START, history), Run(Run(START, history), es);
            && (id in s'.db.rows ==> s'.db.rows[id] == s.db.rows[id])
            && (forall i :: 0 <= i < |es| && es[i].Scan? ==> !Listed(es[i].listing, id))
  {
    SharedRun(START, history);
    AckedStaysFrozen(Run(START, history), es, id);
  }

  // ---------------------------------------------------------------- whose acknowledgements count

  /** What an acknowledgement's read does: a pending message of its own user, of no user, or read for no user is taken on
      with its record; any other read changes nothing. */
  lemma AckReadExact(s: Sys, ack: nat, id: string, user: string)
    requires Enabled(s, AckRead(ack, id, user))
    ensures var taken := id in s.db.rows && s.db.rows[id].status.Pending?
                         && (user == "" || s.db.rows[id].user == "" || s.db.rows[id].user == user);
            && (taken ==> Apply(s, AckRead(ack, id, user)) == s.(acks := s.acks[ack := AckJob(s.db.rows[id], false)]))
            && (!taken ==> Apply(s, AckRead(ack, id, user)) == s)
  {
  }

  /** Its update marks the row with the time if it still is pending, and else changes nothing but its own progress. */
  lemma AckUpdateExact(s: Sys, ack: nat, now: int)
    requires Enabled(s, AckUpdate(ack, now))
    ensures var t := Apply(s, AckUpdate(ack, now));
            var id := s.acks[ack].row.id;
            && t.acks == s.acks[ack := AckJob(s.acks[ack].row, true)] && t.db.history == s.db.history
            && t.db.rows.Keys == s.db.rows.Keys
            && (forall i :: i in s.db.rows && i != id ==> t.db.rows[i] == s.db.rows[i])
            && (id in s.db.rows ==>
                  if s.db.rows[id].status.Pending? then t.db.rows[id] == s.db.rows[id].(status := Acked, ackedAt := now)
                  else t.db.rows[id] == s.db.rows[id])
  {
  }

  /** A scan lists at most 64 rows, and none within three seconds of its last attempt. */
  lemma ScansWait(s: Sys, inst: nat, now: int, listing: seq<Row>)
    requires Enabled(s, Scan(inst, now, listing))
    ensures |listing| <= 64 && forall k :: 0 <= k < |listing| ==> listing[k].lastAttempt + 3_000 <= now
  {
    forall k | 0 <= k < |listing| ensures listing[k].lastAttempt + 3_000 <= now {
      assert Eligible(s.db.rows, now - RETRY_AFTER, listing[k].id);
    }
  }

  // ---- acknowledgement times

  /** No record that may still be archived carries an acknowledgement time, and no entry does. */
  ghost predicate NoAckTimes(s: Sys) {
    && (forall id :: id in s.db.rows && s.db.rows[id].status.Pending? ==> s.db.rows[id].ackedAt == 0)
    && (forall i, k :: i in s.work && 0 <= k < |s.work[i]| ==> s.work[i][k].ackedAt == 0)
    && (forall k :: k in s.acks ==> s.acks[k].row.ackedAt == 0)
    && (forall k :: 0 <= k < |s.db.history| ==> s.db.history[k].ackedAt == 0)
  }

  lemma NoAckTimesStep(s: Sys, e: Event)
    requires NoAckTimes(s) && Enabled(s, e)
    ensures NoAckTimes(Apply(s, e))
  {
    match e
    case Scan(inst, now, listing) =>
      forall k | 0 <= k < |listing| ensures listing[k].ackedAt == 0 {
        assert Eligible(s.db.rows, now - RETRY_AFTER, listing[k].id);
      }
    case Process(inst, _) => assert forall k :: 0 <= k < |Work(s, inst)| ==> Work(s, inst)[k].ackedAt == 0;
    case _ =>
  }

  lemma {:induction false} NoAckTimesRun(s: Sys, es: seq<Event>)
    requires NoAckTimes(s) && ValidRun(s, es)
    ensures NoAckTimes(Run(s, es))
    decreases |es|
  {
    if es != [] {
      NoAckTimesStep(s, es[0]);
      NoAckTimesRun(Apply(s, es[0]), es[1..]);
    }
  }

  /** The time of an acknowledgement never reaches the history: what is archived was read before it was marked. */
  lemma AckTimeIsLost(es: seq<Event>, k: nat)
    requires ValidRun(START, es) && k < |Run(START, es).db.history|
    ensures Run(START, es).db.history[k].ackedAt == 0
  {
    NoAckTimesRun(START, es);
  }

  /** The message belongs to `user`, and nobody has acknowledged it. */
  ghost predicate Unacknowledged(s: Sys, id: string, user: string) {
    Shared(s) && id in s.order && Untaken(s, id, user)
  }

  /** An acknowledgement of the message that its user did not make, and that names a user. */
  predicate Foreign(e: Event, id: string, user: string) { e.AckRead? && e.id == id ==> e.user != "" && e.user != user }

  /** It is pending or archived as undelivered, and no acknowledgement of it is in progress. */
  ghost predicate Untaken(s: Sys, id: string, user: string) {
    && (id in s.db.rows ==> s.db.rows[id].user == user && s.db.rows[id].status.Pending?)
    && (forall k :: k in s.acks ==> s.acks[k].row.id != id)
    && (forall k :: 0 <= k < |s.db.history| && s.db.history[k].id == id ==> s.db.history[k].outcome == Undelivered)
  }

  lemma ForeignRead(s: Sys, e: Event, id: string, user: string)
    requires Enabled(s, e) && e.AckRead? && Untaken(s, id, user) && user != "" && Foreign(e, id, user)
    requires forall i :: i in s.db.rows ==> s.db.rows[i].id == i
    ensures Untaken(Apply(s, e), id, user)
  {
    AckReadExact(s, e.ack, e.id, e.user);
  }

  lemma ForeignArchive(s: Sys, db: Db, r: Row, outcome: Outcome, at: int, id: string, user: string)
    requires Untaken(s, id, user) && db == Archive(s.db, r, outcome, at) && (r.id == id ==> outcome == Undelivered)
    ensures Untaken(s.(db := db), id, user)
  {
  }

  lemma ForeignElse(s: Sys, e: Event, id: string, user: string)
    requires Enabled(s, e) && Untaken(s, id, user) && (e.Create? || e.Scan? || e.AckUpdate?) && (e.Create? ==> e.id != id)
    ensures Untaken(Apply(s, e), id, user)
  {
  }

  lemma ForeignStep(s: Sys, e: Event, id: string, user: string)
    requires Enabled(s, e) && Unacknowledged(s, id, user) && user != "" && Foreign(e, id, user)
    ensures Unacknowledged(Apply(s, e), id, user)
  {
    SharedStep(s, e);
    match e
    case AckRead(_, _, _) => ForeignRead(s, e, id, user);
    case FinishAck(ack, now) =>
      ForeignArchive(s.(acks := s.acks - {ack}), Apply(s, e).db, s.acks[ack].row, Delivered, now, id, user);
    case Process(inst, now) =>
      var r := Work(s, inst)[0];
      if r.attempts >= MAX_ATTEMPTS {
        ForeignArchive(s, Apply(s, e).db, r, Undelivered, now, id, user);
      }
    case _ => ForeignElse(s, e, id, user);
  }

  lemma {:induction false} ForeignRun(s: Sys, es: seq<Event>, id: string, user: string)
    requires ValidRun(s, es) && Unacknowledged(s, id, user) && user != ""
    requires forall i :: 0 <= i < |es| ==> Foreign(es[i], id, user)
    ensures Unacknowledged(Run(s, es), id, user)
    decreases |es|
  {
    if es != [] {
      ForeignStep(s, es[0], id, user);
      assert forall i :: 0 <= i < |es| - 1 ==> es[1..][i] == es[i + 1];
      ForeignRun(Apply(s, es[0]), es[1..], id, user);
    }
  }

  /** A message created for a user becomes acked, or is archived as delivered, only if since its creation that user, or
      nobody in particular, has acknowledged it. */
  lemma OnlyOwnerAcknowledges(history: seq<Event>, create: Event, es: seq<Event>)
    requires ValidRun(START, history) && create.Create? && create.user != "" && Enabled(Run(START, history), create)
    requires ValidRun(Apply(Run(START, history), create), es)
    ensures var s, id := Run(Apply(Run(START, history), create), es), create.id;
            (id in s.db.rows && s.db.rows[id].status.Acked?)
            || (exists k :: 0 <= k < |s.db.history| && s.db.history[k].id == id && s.db.history[k].outcome == Delivered) ==>
              exists i :: 0 <= i < |es| && es[i].AckRead? && es[i].id == id && (es[i].user == "" || es[i].user == create.user)
  {
    SharedRun(START, history);
    var s := Run(START, history);
    SharedStep(s, create);
    assert Unacknowledged(Apply(s, create), create.id, create.user) by {
      assert !InHistory(s.db, create.id);
    }
    if forall i :: 0 <= i < |es| ==> Foreign(es[i], create.id, create.user) {
      ForeignRun(Apply(s, create), es, create.id, create.user);
    } else {
      var i :| 0 <= i < |es| && !Foreign(es[i], create.id, create.user);
    }
  }

  // ---------------------------------------------------------------- one scanning instance

  /** Only instance 0 runs the retry loop. */
  predicate Solo(e: Event) { (e.Scan? ==> e.inst == 0) && (e.Process? ==> e.inst == 0) }

  ghost predicate SoloRun(s: Sys, es: seq<Event>) { ValidRun(s, es) && forall i :: 0 <= i < |es| ==> Solo(es[i]) }

  /** The loop's list has distinct ids, and a listed row that is still pending is unchanged since it was listed. */
  ghost predicate LoopOk(s: Sys) {
    var w := Work(s, 0);
    && Shared(s)
    && (forall k, l :: 0 <= k < l < |w| ==> w[k].id != w[l].id)
    && (forall k :: 0 <= k < |w| && IsPending(s.db, w[k].id) ==> s.db.rows[w[k].id] == w[k])
  }

  lemma LoopProcess(s: Sys, now: int)
    requires LoopOk(s) && Work(s, 0) != []
    ensures LoopOk(Apply(s, Process(0, now)))
  {
    SharedProcess(s, 0, now);
    var w, t := Work(s, 0), Apply(s, Process(0, now));
    assert Work(t, 0) == w[1..];
    forall k | 0 <= k < |w[1..]| && IsPending(t.db, w[1..][k].id)
      ensures t.db.rows[w[1..][k].id] == w[1..][k]
    {
      assert w[1..][k] == w[k + 1] && w[k + 1].id != w[0].id;
      OtherRowKept(s.db, w[0], now, w[k + 1].id);
    }
    forall k, l | 0 <= k < l < |w[1..]| ensures w[1..][k].id != w[1..][l].id {
      assert w[1..][k] == w[k + 1] && w[1..][l] == w[l + 1];
    }
  }

  lemma OtherRowKept(db: Db, r: Row, now: int, id: string)
    requires id != r.id
    ensures IsPending(ProcessRow(db, r, now), id) <==> IsPending(db, id)
    ensures IsPending(db, id) ==> ProcessRow(db, r, now).rows[id] == db.rows[id]
  {
  }

  lemma LoopScan(s: Sys, now: int, listing: seq<Row>)
    requires LoopOk(s) && Enabled(s, Scan(0, now, listing))
    ensures LoopOk(Apply(s, Scan(0, now, listing)))
  {
    SharedScan(s, 0, now, listing);
    assert Work(Apply(s, Scan(0, now, listing)), 0) == listing;
  }

  /** Creating, reading, marking and archiving touch no other row, and leave no touched row pending but a new one. */
  lemma OthersKept(s: Sys, e: Event, id: string)
    requires Shared(s) && Enabled(s, e) && !e.Scan? && !e.Process? && id in s.order && IsPending(Apply(s, e).db, id)
    ensures IsPending(s.db, id) && Apply(s, e).db.rows[id] == s.db.rows[id]
  {
  }

  lemma LoopElse(s: Sys, e: Event)
    requires LoopOk(s) && Enabled(s, e) && !e.Scan? && !e.Process?
    ensures LoopOk(Apply(s, e))
  {
    SharedStep(s, e);
    var w, t := Work(s, 0), Apply(s, e);
    assert Work(t, 0) == w;
    forall k | 0 <= k < |w| && IsPending(t.db, w[k].id)
      ensures t.db.rows[w[k].id] == w[k]
    {
      assert w[k].id in s.order;
      OthersKept(s, e, w[k].id);
    }
  }

  lemma LoopStep(s: Sys, e: Event)
    requires LoopOk(s) && Enabled(s, e) && Solo(e)
    ensures LoopOk(Apply(s, e))
  {
    if e.Process? {
      LoopProcess(s, e.now);
    } else if e.Scan? {
      LoopScan(s, e.now, e.listing);
    } else {
      LoopElse(s, e);
    }
  }

  lemma {:induction false} LoopRun(s: Sys, es: seq<Event>)
    requires LoopOk(s) && SoloRun(s, es)
    ensures LoopOk(Run(s, es))
    decreases |es|
  {
    if es != [] {
      LoopStep(s, es[0]);
      assert forall i :: 0 <= i < |es[1..]| ==> es[1..][i] == es[i + 1];
      LoopRun(Apply(s, es[0]), es[1..]);
    }
  }

  // ---------------------------------------------------------------- history entries

  function Count(history: seq<Entry>, id: string): nat {
    if history == [] then 0
    else Count(history[..|history| - 1], id) + One(history[|history| - 1].id == id)
  }

  function One(b: bool): nat { if b then 1 else 0 }

  lemma CountArchive(db: Db, r: Row, outcome: Outcome, at: int, id: string)
    ensures Count(Archive(db, r, outcome, at).history, id) == Count(db.history, id) + One(r.id == id)
  {
    assert Archive(db, r, outcome, at).history[..|db.history|] == db.history;
  }

  /** The listed record will be archived when its turn comes, whatever happened to the message since. */
  predicate IsLast(r: Row, id: string) { r.id == id && r.attempts >= MAX_ATTEMPTS }

  function Waiting(w: seq<Row>, id: string): nat {
    if w == [] then 0 else One(IsLast(w[0], id)) + Waiting(w[1..], id)
  }

  /** The last listings of `id` that the first `n` instances still have to work through. */
  function WaitingAt(s: Sys, n: nat, id: string): nat {
    if n == 0 then 0 else WaitingAt(s, n - 1, id) + Waiting(Work(s, n - 1), id)
  }

  /** The acknowledgements of `id` in progress. */
  function Acking(acks: map<nat, AckJob>, id: string): set<nat> { set k | k in acks && acks[k].row.id == id }

  /** Archivings of `id` that are bound to happen. */
  function InFlight(s: Sys, n: nat, id: string): nat { |Acking(s.acks, id)| + WaitingAt(s, n, id) }

  /** How many archivings of `id` the event commits to: a read by an acknowledgement, or a listing for the last time. */
  function Claims(s: Sys, e: Event, id: string): nat {
    match e
    case AckRead(_, i, user) => One(i == id && Ackable(s.db, id, user).Some?)
    case Scan(_, _, listing) => Waiting(listing, id)
    case _ => 0
  }

  /** Only the first `n` instances scan. */
  predicate Within(e: Event, n: nat) { (e.Scan? ==> e.inst < n) && (e.Process? ==> e.inst < n) }

  ghost predicate RunWithin(s: Sys, es: seq<Event>, n: nat) { ValidRun(s, es) && forall i :: 0 <= i < |es| ==> Within(es[i], n) }

  lemma {:induction false} WaitingChange(s: Sys, t: Sys, n: nat, inst: nat, id: string)
    requires forall i :: i != inst ==> Work(s, i) == Work(t, i)
    ensures WaitingAt(t, n, id)
            == WaitingAt(s, n, id) + if inst < n then Waiting(Work(t, inst), id) - Waiting(Work(s, inst), id) else 0
  {
    if n > 0 {
      WaitingChange(s, t, n - 1, inst, id);
    }
  }

  lemma AckingBegins(acks: map<nat, AckJob>, k: nat, job: AckJob, id: string)
    requires k !in acks
    ensures |Acking(acks[k := job], id)| == |Acking(acks, id)| + One(job.row.id == id)
  {
    var more := acks[k := job];
    if job.row.id == id {
      assert Acking(more, id) == Acking(acks, id) + {k};
    } else {
      assert Acking(more, id) == Acking(acks, id);
    }
  }

  lemma AckingEnds(acks: map<nat, AckJob>, k: nat, id: string)
    requires k in acks
    ensures |Acking(acks - {k}, id)| == |Acking(acks, id)| - One(acks[k].row.id == id)
  {
    AckingBegins(acks - {k}, k, acks[k], id);
    assert (acks - {k})[k := acks[k]] == acks;
  }

  lemma ClaimsLoop(s: Sys, e: Event, n: nat, id: string)
    requires Enabled(s, e) && Within(e, n) && (e.Scan? || e.Process?)
    ensures var t := Apply(s, e);
            Count(t.db.history, id) + WaitingAt(t, n, id) == Count(s.db.history, id) + WaitingAt(s, n, id) + Claims(s, e, id)
  {
    WaitingChange(s, Apply(s, e), n, e.inst, id);
    if e.Process? {
      CountArchive(s.db, Work(s, e.inst)[0], Undelivered, e.now, id);
    }
  }

  lemma ClaimsAck(s: Sys, e: Event, id: string)
    requires Shared(s) && Enabled(s, e) && (e.AckRead? || e.AckUpdate? || e.FinishAck?)
    ensures var t := Apply(s, e);
            Count(t.db.history, id) + |Acking(t.acks, id)| == Count(s.db.history, id) + |Acking(s.acks, id)| + Claims(s, e, id)
  {
    if e.AckRead? {
      if Ackable(s.db, e.id, e.user).Some? {
        AckingBegins(s.acks, e.ack, AckJob(s.db.rows[e.id], false), id);
      }
    } else if e.AckUpdate? {
      assert Acking(Apply(s, e).acks, id) == Acking(s.acks, id);
    } else {
      CountArchive(s.db, s.acks[e.ack].row, Delivered, e.now, id);
      AckingEnds(s.acks, e.ack, id);
    }
  }

  /** Entries written and archivings in flight grow by exactly what the step claims. */
  lemma ClaimsStep(s: Sys, e: Event, n: nat, id: string)
    requires Shared(s) && Enabled(s, e) && Within(e, n)
    ensures var t := Apply(s, e);
            Count(t.db.history, id) + InFlight(t, n, id) == Count(s.db.history, id) + InFlight(s, n, id) + Claims(s, e, id)
  {
    if e.Scan? || e.Process? {
      ClaimsLoop(s, e, n, id);
    } else {
      WaitingChange(s, Apply(s, e), n, n, id);
      if !e.Create? {
        ClaimsAck(s, e, id);
      }
    }
  }

  function ClaimsIn(s: Sys, es: seq<Event>, id: string): nat
    decreases |es|
  {
    if es == [] then 0 else Claims(s, es[0], id) + ClaimsIn(Apply(s, es[0]), es[1..], id)
  }

  /** Some event claims the message while another claim on it is in flight. */
  ghost predicate Raced(s: Sys, es: seq<Event>, n: nat, id: string)
    decreases |es|
  {
    es != [] && ((Claims(s, es[0], id) > 0 && InFlight(s, n, id) > 0) || Raced(Apply(s, es[0]), es[1..], n, id))
  }

  lemma {:induction false} WaitingIsListed(w: seq<Row>, id: string)
    ensures Waiting(w, id) > 0 ==> Listed(w, id)
    ensures (forall k, l :: 0 <= k < l < |w| ==> w[k].id != w[l].id) ==> Waiting(w, id) <= 1
  {
    if w != [] {
      WaitingIsListed(w[1..], id);
      assert forall k :: 0 <= k < |w| - 1 ==> w[1..][k] == w[k + 1];
      if Listed(w[1..], id) {
        var k :| 0 <= k < |w| - 1 && w[1..][k].id == id;
        assert w[k + 1].id == id;
      }
    }
  }

  lemma {:induction false} NotInHistory(history: seq<Entry>, id: string)
    ensures Count(history, id) == 0 <==> !exists k :: 0 <= k < |history| && history[k].id == id
  {
    if history != [] {
      NotInHistory(history[..|history| - 1], id);
    }
  }

  /** Only a pending message can be claimed, once per event. */
  lemma ClaimNeedsPending(s: Sys, e: Event, id: string)
    requires Shared(s) && Enabled(s, e)
    ensures Claims(s, e, id) <= 1
    ensures Claims(s, e, id) == 1 ==> IsPending(s.db, id) && Count(s.db.history, id) == 0
  {
    if e.Scan? {
      WaitingIsListed(e.listing, id);
    }
    if Claims(s, e, id) == 1 {
      NotInHistory(s.db.history, id);
    }
  }

  /** Claims made so far are always accounted for, and a second claim can only come while the first is in flight. */
  lemma {:induction false} ClaimsRun(s: Sys, es: seq<Event>, n: nat, id: string)
    requires Shared(s) && RunWithin(s, es, n)
    ensures Shared(Run(s, es))
    ensures var so := Count(s.db.history, id) + InFlight(s, n, id);
            && Count(Run(s, es).db.history, id) + InFlight(Run(s, es), n, id) == so + ClaimsIn(s, es, id)
            && (so == 0 ==> (Raced(s, es, n, id) <==> ClaimsIn(s, es, id) >= 2))
            && (so > 0 ==> (Raced(s, es, n, id) <==> ClaimsIn(s, es, id) >= 1))
    decreases |es|
  {
    if es != [] {
      ClaimNeedsPending(s, es[0], id);
      ClaimsStep(s, es[0], n, id);
      SharedStep(s, es[0]);
      assert forall i :: 0 <= i < |es[1..]| ==> es[1..][i] == es[i + 1];
      ClaimsRun(Apply(s, es[0]), es[1..], n, id);
    }
  }

  lemma {:induction false} StartIsQuiet(n: nat, id: string)
    ensures Count(START.db.history, id) + InFlight(START, n, id) == 0
  {
    if n > 0 {
      StartIsQuiet(n - 1, id);
    }
    assert Acking(START.acks, id) == {};
  }

  /** With any number of retry loops and overlapping acknowledgements: each history entry of a message comes from one
      claim, an acknowledgement that read it pending or a listing for the last time, and each claim gives one entry.
      So once nothing is in flight there are exactly as many entries as claims, and more than one if and only if a
      claim was made while another was in flight. */
  lemma HistoryEntriesExact(es: seq<Event>, n: nat, id: string)
    requires RunWithin(START, es, n)
    ensures var s := Run(START, es);
            && Count(s.db.history, id) + InFlight(s, n, id) == ClaimsIn(START, es, id)
            && (ClaimsIn(START, es, id) >= 2 <==> Raced(START, es, n, id))
            && (Count(s.db.history, id) >= 2 ==> Raced(START, es, n, id))
            && (InFlight(s, n, id) == 0 ==> (Count(s.db.history, id) >= 2 <==> Raced(START, es, n, id)))
            && (id in s.order && id !in s.db.rows ==> Count(s.db.history, id) >= 1)
  {
    StartIsQuiet(n, id);
    ClaimsRun(START, es, n, id);
    NotInHistory(Run(START, es).db.history, id);
  }
}
