/** The message tables as mutable state, and the body of one retry tick as the loop over its list. */
module MessageStore {
  import opened Common
  import opened MessageDelivery

  /** Some row of a non-empty set of ids comes no later than all others. */
  lemma {:induction false} EarliestExists(rows: map<string, Row>, ids: set<string>)
    requires ids != {} && ids <= rows.Keys
    ensures exists id :: id in ids && forall j :: j in ids ==> NotAfter(rows[id], rows[j])
    decreases |ids|
  {
    var x :| x in ids;
    var rest := ids - {x};
    if rest == {} {
      assert ids == {x};
    } else {
      EarliestExists(rows, rest);
      var y :| y in rest && forall j :: j in rest ==> NotAfter(rows[y], rows[j]);
      if NotAfter(rows[x], rows[y]) {
        assert forall j :: j in ids ==> NotAfter(rows[x], rows[j]);
      } else {
        assert forall j :: j in ids ==> NotAfter(rows[y], rows[j]);
      }
    }
  }

  /** `out` is a listing of the eligible rows but for those in `left`, all of which come later. */
  ghost predicate Partial(rows: map<string, Row>, before: int, out: seq<Row>, left: set<string>) {
    && (forall id :: id in left ==> Eligible(rows, before, id) && !Listed(out, id))
    && (forall id :: Eligible(rows, before, id) && id !in left ==> Listed(out, id))
    && (forall k :: 0 <= k < |out| ==> Eligible(rows, before, out[k].id) && rows[out[k].id] == out[k])
    && (forall k, l :: 0 <= k < l < |out| ==> out[k].id != out[l].id && NotAfter(out[k], out[l]))
    && (forall k, id :: 0 <= k < |out| && id in left ==> NotAfter(out[k], rows[id]))
  }

  lemma ListedSnoc(out: seq<Row>, r: Row, id: string)
    ensures Listed(out + [r], id) <==> Listed(out, id) || r.id == id
  {
    assert (out + [r])[|out|] == r;
    assert forall k :: 0 <= k < |out| ==> (out + [r])[k] == out[k];
  }

  lemma PartialStep(rows: map<string, Row>, before: int, out: seq<Row>, left: set<string>, id: string)
    requires Partial(rows, before, out, left) && id in left && rows[id].id == id
    requires forall j :: j in left ==> NotAfter(rows[id], rows[j])
    ensures Partial(rows, before, out + [rows[id]], left - {id})
  {
    forall i ensures Listed(out + [rows[id]], i) <==> Listed(out, i) || i == id {
      ListedSnoc(out, rows[id], i);
    }
    assert forall k :: 0 <= k < |out| ==> out[k].id != id by {
      assert !Listed(out, id);
    }
  }

  class Store {
    var rows: map<string, Row>
    var history: seq<Entry>

    function View(): Db
      reads this
    {
      Db(rows, history)
    }

    /** The key of a row is its message id. */
    ghost predicate Valid()
      reads this
    {
      forall id :: id in rows ==> rows[id].id == id
    }

    constructor ()
      ensures Valid() && View() == Db(map[], [])
    {
      rows, history := map[], [];
    }

    /** The insert fails on a message id that is already in the table. */
    method CreatePending(id: string, user: string, node: string, now: int) returns (ok: bool)
      requires Valid()
      modifies this
      ensures Valid() && ok == (id !in old(rows)) && history == old(history)
      ensures rows == if ok then old(rows)[id := Row(id, user, node, 1, Pending, now, 0, now)] else old(rows)
    {
      ok := id !in rows;
      if ok {
        rows := rows[id := Row(id, user, node, 1, Pending, now, 0, now)];
      }
    }

    /** `ListRetryableControlOutboundMessages`: take the earliest eligible row until the limit or the end. */
    method ListRetryable(before: int, limit: int) returns (out: seq<Row>)
      requires Valid()
      ensures IsListing(rows, before, limit, out)
    {
      out := [];
      var left := set id | id in rows && Eligible(rows, before, id);
      while left != {} && (limit <= 0 || |out| < limit)
        invariant Partial(rows, before, out, left)
        invariant limit > 0 ==> |out| <= limit
        decreases |left|
      {
        EarliestExists(rows, left);
        var id :| id in left && forall j :: j in left ==> NotAfter(rows[id], rows[j]);
        PartialStep(rows, before, out, left, id);
        out := out + [rows[id]];
        left := left - {id};
      }
    }

    method UpdateAttempt(id: string, attempts: int, at: int)
      requires Valid()
      modifies this
      ensures Valid() && View() == MessageDelivery.UpdateAttempt(old(View()), id, attempts, at)
    {
      if id in rows && rows[id].status.Pending? {
        rows := rows[id := rows[id].(attempts := attempts, lastAttempt := at)];
      }
    }

    method ReadAckable(id: string, user: string) returns (r: Option<Row>)
      ensures r == Ackable(View(), id, user)
    {
      if !(id in rows && rows[id].status.Pending?) { return None; }
      if user != "" && rows[id].user != "" && rows[id].user != user { return None; }
      r := Some(rows[id]);
    }

    method UpdateAcked(id: string, at: int)
      requires Valid()
      modifies this
      ensures Valid() && View() == MarkRow(old(View()), id, at)
    {
      if id in rows && rows[id].status.Pending? {
        rows := rows[id := rows[id].(status := Acked, ackedAt := at)];
      }
    }

    /** `AckControlOutboundMessage` without interference. */
    method MarkAcked(id: string, user: string, at: int) returns (r: Option<Row>)
      requires Valid()
      modifies this
      ensures Valid() && (View(), r) == MessageDelivery.MarkAcked(old(View()), id, user, at)
    {
      r := ReadAckable(id, user);
      if r.Some? {
        UpdateAcked(id, at);
      }
    }

    method Archive(r: Row, outcome: Outcome, at: int)
      requires Valid()
      modifies this
      ensures Valid() && View() == MessageDelivery.Archive(old(View()), r, outcome, at)
    {
      history := history + [Entry(r.id, r.attempts, outcome, r.ackedAt, at)];
      rows := rows - {r.id};
    }

    /** The service's acknowledgement with nothing in between: mark, then archive the record as it was read. */
    method Ack(user: string, id: string, at: int) returns (ok: bool)
      requires Valid()
      modifies this
      ensures Valid()
      ensures var (db, r) := MessageDelivery.MarkAcked(old(View()), id, user, at);
              ok == r.Some? && View() == if ok then MessageDelivery.Archive(db, r.value, Delivered, at) else db
    {
      var r := MarkAcked(id, user, at);
      if r.None? { return false; }
      Archive(r.value, Delivered, at);
      ok := true;
    }

    /** One tick of the retry loop, run without interference; `clock` gives the time at each row. */
    method RetryTick(now: int, clock: nat -> int) returns (messages: seq<Row>)
      requires Valid()
      modifies this
      ensures Valid() && IsListing(old(rows), now - RETRY_AFTER, SCAN_LIMIT, messages)
      ensures View() == ProcessAll(old(View()), messages, clock)
    {
      messages := ListRetryable(now - RETRY_AFTER, SCAN_LIMIT);
      for k := 0 to |messages|
        invariant Valid()
        invariant View() == ProcessAll(old(View()), messages[..k], clock)
      {
        assert messages[..k + 1][..k] == messages[..k];
        var message := messages[k];
        if message.attempts >= MAX_ATTEMPTS {
          Archive(message, Undelivered, clock(k));
        } else {
          UpdateAttempt(message.id, message.attempts + 1, clock(k));
        }
      }
      assert messages[..|messages|] == messages;
    }
  }
}
