/** The control client's response and event demultiplexer. A frame read is one atomic step; the stream is the
    sequence of read outcomes still to come, and a read past its end fails. */
module EventQueue {
  import opened Common

  type Event = string

  /** One read: an event frame, any other frame with its message type, or a read that fails without a frame.
      `timeoutLike` says whether the error text this read gives a caller waiting for events looks like a timeout. */
  datatype Read =
    | EventFrame(event: Event)
    | OtherFrame(kind: string, timeoutLike: bool)
    | Failed(timeoutLike: bool)

  datatype Client = Client(stream: seq<Read>, queue: seq<Event>)

  function EventsOf(rs: seq<Read>): seq<Event> {
    if rs == [] then []
    else
      var front := EventsOf(rs[..|rs| - 1]);
      if rs[|rs| - 1].EventFrame? then front + [rs[|rs| - 1].event] else front
  }

  // ---------------------------------------------------------------- the three calls

  /** `read_event`: the queue first, then the wire; an error says whether it looks like a timeout. */
  function ReadEvent(c: Client): (Client, Result<Event, bool>) {
    if c.queue != [] then (c.(queue := c.queue[1..]), Ok(c.queue[0]))
    else if c.stream == [] then (c, Err(false))
    else
      var c' := c.(stream := c.stream[1..]);
      match c.stream[0]
      case EventFrame(e) => (c', Ok(e))
      case OtherFrame(_, t) => (c', Err(t))
      case Failed(t) => (c', Err(t))
  }

  /** The drain loop: what it collected, and the error that ended it if that was not a timeout. */
  function Collect(c: Client, limit: nat): (Client, seq<Event>, bool)
    decreases limit
  {
    if limit == 0 then (c, [], false)
    else
      match ReadEvent(c)
      case (c', Err(timeoutLike)) => (c', [], !timeoutLike)
      case (c', Ok(e)) => var (d, es, failed) := Collect(c', limit - 1); (d, [e] + es, failed)
  }

  /** `drain_pending_events`: on such an error the events collected so far are dropped with the vector. */
  function Drain(c: Client, limit: nat): (Client, Option<seq<Event>>) {
    var (d, es, failed) := Collect(c, limit);
    (d, if failed then None else Some(es))
  }

  /** `read_response_envelope`: events met on the way to the expected response are queued. */
  function ReadResponse(c: Client, expected: string): (Client, bool)
    decreases |c.stream|
  {
    if c.stream == [] then (c, false)
    else
      var c' := c.(stream := c.stream[1..]);
      match c.stream[0]
      case EventFrame(e) => ReadResponse(c'.(queue := c'.queue + [e]), expected)
      case OtherFrame(kind, _) => (c', kind != "error" && kind == expected)
      case Failed(_) => (c', false)
  }

  // ---------------------------------------------------------------- runs

  datatype Call = CallRead | CallDrain(limit: nat) | CallRequest(expected: string)

  /** A client with every event it has given its caller and every event a failed drain dropped. */
  datatype Log = Log(client: Client, handed: seq<Event>, lost: nat)

  function Step(l: Log, call: Call): Log {
    match call
    case CallRead =>
      var (c, r) := ReadEvent(l.client);
      l.(client := c, handed := if r.Ok? then l.handed + [r.value] else l.handed)
    case CallDrain(limit) =>
      var (c, es, failed) := Collect(l.client, limit);
      if failed then l.(client := c, lost := l.lost + |es|) else l.(client := c, handed := l.handed + es)
    case CallRequest(expected) => l.(client := ReadResponse(l.client, expected).0)
  }

  function Run(l: Log, calls: seq<Call>): Log {
    if calls == [] then l else Step(Run(l, calls[..|calls| - 1]), calls[|calls| - 1])
  }

  /** How many events stand at the front of the stream. */
  function Leading(stream: seq<Read>): (n: nat)
    ensures n <= |stream| && (n < |stream| ==> !stream[n].EventFrame?)
  {
    if stream == [] || !stream[0].EventFrame? then 0 else 1 + Leading(stream[1..])
  }

  /** A read that neither gives an event nor looks like a timeout; so does the end of the stream. */
  predicate Breaks(stream: seq<Read>, n: nat) { n >= |stream| || (!stream[n].EventFrame? && !stream[n].timeoutLike) }

  /** Fewer events are at hand than the drain may take, but some, and what comes next is an error other than a timeout. */
  predicate LossyDrain(c: Client, call: Call) {
    && call.CallDrain? && 0 < |c.queue| + Leading(c.stream) < call.limit
    && Breaks(c.stream, Leading(c.stream))
  }

  /** Some call of the run is one. */
  predicate AnyLossyDrain(l: Log, calls: seq<Call>) {
    calls != [] && (AnyLossyDrain(l, calls[..|calls| - 1]) || LossyDrain(Run(l, calls[..|calls| - 1]).client, calls[|calls| - 1]))
  }

  // ---------------------------------------------------------------- conservation

  lemma {:induction false} EventsOfAppend(a: seq<Read>, b: seq<Read>)
    ensures EventsOf(a + b) == EventsOf(a) + EventsOf(b)
    decreases |b|
  {
    if b == [] {
      assert a + b == a;
    } else {
      EventsOfAppend(a, b[..|b| - 1]);
      assert (a + b)[..|a + b| - 1] == a + b[..|b| - 1];
    }
  }

  /** Going from `c` to `d` consumed a prefix of the stream, and the events taken out, those queued before and those
      queued after balance: queued before + arrived == taken + queued after. */
  ghost predicate Balanced(c: Client, d: Client, taken: seq<Event>) {
    && |d.stream| <= |c.stream|
    && c.stream[|c.stream| - |d.stream|..] == d.stream
    && c.queue + EventsOf(c.stream[..|c.stream| - |d.stream|]) == taken + d.queue
  }

  lemma BalancedTrans(c: Client, d: Client, e: Client, xs: seq<Event>, ys: seq<Event>)
    requires Balanced(c, d, xs) && Balanced(d, e, ys)
    ensures Balanced(c, e, xs + ys)
  {
    var n, m := |c.stream| - |d.stream|, |d.stream| - |e.stream|;
    assert c.stream[..n + m] == c.stream[..n] + d.stream[..m];
    EventsOfAppend(c.stream[..n], d.stream[..m]);
    assert c.stream[n + m..] == d.stream[m..];
    var arrived, later := EventsOf(c.stream[..n]), EventsOf(d.stream[..m]);
    assert c.queue + (arrived + later) == (c.queue + arrived) + later;
    assert (xs + d.queue) + later == xs + (d.queue + later);
    assert xs + (ys + e.queue) == (xs + ys) + e.queue;
  }

  lemma BalancedRefl(c: Client)
    ensures Balanced(c, c, [])
  {
    assert c.stream[..0] == [] && c.queue + [] == c.queue && [] + c.queue == c.queue;
  }

  lemma OneRead(c: Client)
    requires c.stream != []
    ensures EventsOf(c.stream[..1]) == if c.stream[0].EventFrame? then [c.stream[0].event] else []
    ensures c.stream[|c.stream| - |c.stream[1..]|..] == c.stream[1..]
  {
    assert c.stream[..1] == [c.stream[0]] && [c.stream[0]][..0] == [];
  }

  lemma QueueBalances(c: Client)
    requires c.queue != []
    ensures Balanced(c, c.(queue := c.queue[1..]), [c.queue[0]])
  {
    assert c.stream[..0] == [] && c.queue + [] == c.queue == [c.queue[0]] + c.queue[1..];
  }

  lemma WireBalances(c: Client)
    requires c.queue == [] && c.stream != []
    ensures Balanced(c, c.(stream := c.stream[1..]), if c.stream[0].EventFrame? then [c.stream[0].event] else [])
  {
    OneRead(c);
  }

  lemma ReadEventBalances(c: Client)
    ensures var (d, r) := ReadEvent(c); Balanced(c, d, if r.Ok? then [r.value] else [])
  {
    if c.queue != [] {
      QueueBalances(c);
    } else if c.stream != [] {
      WireBalances(c);
    } else {
      BalancedRefl(c);
    }
  }

  lemma {:induction false} CollectBalances(c: Client, limit: nat)
    ensures var (d, es, _) := Collect(c, limit); Balanced(c, d, es) && |es| <= limit
    decreases limit
  {
    if limit == 0 {
      BalancedRefl(c);
    } else {
      ReadEventBalances(c);
      var (c', r) := ReadEvent(c);
      if r.Ok? {
        CollectBalances(c', limit - 1);
        var (d, es, _) := Collect(c', limit - 1);
        BalancedTrans(c, c', d, [r.value], es);
      }
    }
  }

  lemma {:induction false} ResponseBalances(c: Client, expected: string)
    ensures Balanced(c, ReadResponse(c, expected).0, [])
    decreases |c.stream|
  {
    if c.stream == [] {
      BalancedRefl(c);
    } else {
      OneRead(c);
      var c' := c.(stream := c.stream[1..]);
      if c.stream[0].EventFrame? {
        var d := c'.(queue := c.queue + [c.stream[0].event]);
        assert Balanced(c, d, []);
        ResponseBalances(d, expected);
        BalancedTrans(c, d, ReadResponse(d, expected).0, [], []);
      }
    }
  }

  /** Waiting for a response queues the events at the front of the stream and consumes the frame after them; it succeeds
      exactly when that frame is there, is no error and is of the expected kind. */
  lemma {:induction false} ResponseExact(c: Client, expected: string)
    ensures var (d, ok) := ReadResponse(c, expected);
            var n := Leading(c.stream);
            && d.queue == c.queue + EventsOf(c.stream[..n])
            && d.stream == (if n == |c.stream| then [] else c.stream[n + 1..])
            && (ok <==> n < |c.stream| && c.stream[n].OtherFrame? && c.stream[n].kind != "error" && c.stream[n].kind == expected)
    decreases |c.stream|
  {
    var n := Leading(c.stream);
    if c.stream == [] || !c.stream[0].EventFrame? {
      assert c.stream[..0] == [] && c.queue + [] == c.queue;
    } else {
      var rest := c.stream[1..];
      ResponseExact(Client(rest, c.queue + [c.stream[0].event]), expected);
      FrontEvent(c.queue, c.stream, n);
      assert n < |c.stream| ==> rest[n - 1] == c.stream[n] && rest[n..] == c.stream[n + 1..];
    }
  }

  lemma FrontEvent(queue: seq<Event>, stream: seq<Read>, n: nat)
    requires 0 < n <= |stream| && stream[0].EventFrame?
    ensures queue + EventsOf(stream[..n]) == (queue + [stream[0].event]) + EventsOf(stream[1..][..n - 1])
  {
    assert stream[..n] == [stream[0]] + stream[1..][..n - 1];
    EventsOfAppend([stream[0]], stream[1..][..n - 1]);
    assert [stream[0]][..0] == [];
  }

  /** Every event that arrived is, in arrival order, taken and then queued; the events handed out are the taken
      ones except those a failed drain dropped. */
  ghost predicate Conserved(start: Client, l: Log, taken: seq<Event>) {
    Balanced(start, l.client, taken) && |taken| == |l.handed| + l.lost && (l.lost == 0 ==> taken == l.handed)
  }

  lemma StepConserves(start: Client, l: Log, taken: seq<Event>, call: Call) returns (taken': seq<Event>)
    requires Conserved(start, l, taken)
    ensures Conserved(start, Step(l, call), taken')
  {
    match call
    case CallRead =>
      ReadEventBalances(l.client);
      var (c, r) := ReadEvent(l.client);
      var got := if r.Ok? then [r.value] else [];
      BalancedTrans(start, l.client, c, taken, got);
      taken' := taken + got;
    case CallDrain(limit) =>
      CollectBalances(l.client, limit);
      var (c, es, _) := Collect(l.client, limit);
      BalancedTrans(start, l.client, c, taken, es);
      taken' := taken + es;
    case CallRequest(expected) =>
      ResponseBalances(l.client, expected);
      BalancedTrans(start, l.client, ReadResponse(l.client, expected).0, taken, []);
      taken' := taken + [];
  }

  lemma {:induction false} RunConserves(start: Client, calls: seq<Call>) returns (taken: seq<Event>)
    ensures Conserved(start, Run(Log(start, [], 0), calls), taken)
  {
    if calls == [] {
      BalancedRefl(start);
      taken := [];
    } else {
      var front := calls[..|calls| - 1];
      taken := RunConserves(start, front);
      taken := StepConserves(start, Run(Log(start, [], 0), front), taken, calls[|calls| - 1]);
    }
  }

  /** What a drain does, told from the queue and the reads to come: it takes what is at hand up to its limit, and fails
      exactly when that is less than the limit and an error other than a timeout comes next. */
  lemma {:induction false} CollectExactly(c: Client, limit: nat)
    ensures var (_, es, failed) := Collect(c, limit);
            var ahead := |c.queue| + Leading(c.stream);
            |es| == Min(ahead, limit) && (failed <==> ahead < limit && Breaks(c.stream, Leading(c.stream)))
    decreases limit
  {
    if limit > 0 && ReadEvent(c).1.Ok? {
      CollectExactly(ReadEvent(c).0, limit - 1);
      if c.queue == [] {
        assert forall n: nat :: Breaks(c.stream[1..], n) <==> Breaks(c.stream, n + 1);
      }
    }
  }

  lemma {:induction false} LostOnlyInLossyDrains(l: Log, calls: seq<Call>)
    requires l.lost == 0
    ensures Run(l, calls).lost == 0 <==> !AnyLossyDrain(l, calls)
  {
    if calls != [] {
      LostOnlyInLossyDrains(l, calls[..|calls| - 1]);
      if calls[|calls| - 1].CallDrain? {
        CollectExactly(Run(l, calls[..|calls| - 1]).client, calls[|calls| - 1].limit);
      }
    }
  }

  /** For every sequence of reads, drains and requests on a fresh client: the events handed out followed by those
      still queued are exactly the events of the frames consumed, in arrival order, if and only if no drain was made
      with too few events at hand, but some, before an error other than a timeout. */
  lemma EventsConservedExactly(stream: seq<Read>, calls: seq<Call>)
    ensures var l := Run(Log(Client(stream, []), [], 0), calls);
            var consumed := |stream| - |l.client.stream|;
            && 0 <= consumed && stream[consumed..] == l.client.stream
            && (l.handed + l.client.queue == EventsOf(stream[..consumed])
                <==> !AnyLossyDrain(Log(Client(stream, []), [], 0), calls))
  {
    var start := Client(stream, []);
    var taken := RunConserves(start, calls);
    LostOnlyInLossyDrains(Log(start, [], 0), calls);
    NothingLost(start, Run(Log(start, [], 0), calls), taken);
  }

  /** What was handed out and what is queued are all that arrived exactly when no drain dropped anything. */
  lemma NothingLost(start: Client, l: Log, taken: seq<Event>)
    requires Conserved(start, l, taken) && start.queue == []
    ensures var consumed := |start.stream| - |l.client.stream|;
            && 0 <= consumed && start.stream[consumed..] == l.client.stream
            && (l.handed + l.client.queue == EventsOf(start.stream[..consumed]) <==> l.lost == 0)
  {
    var arrived := EventsOf(start.stream[..|start.stream| - |l.client.stream|]);
    assert start.queue + arrived == arrived;
    if l.lost > 0 {
      assert |l.handed + l.client.queue| < |arrived|;
    }
  }

  /** A drain that meets one event and then a lost connection: the event is consumed, not handed out and not queued. */
  lemma DrainDropsEvent(e: Event)
    ensures var l := Run(Log(Client([EventFrame(e), Failed(false)], []), [], 0), [CallDrain(32)]);
            l.handed + l.client.queue == [] && EventsOf([EventFrame(e), Failed(false)]) == [e] && l.client.stream == []
  {
    var start := Log(Client([EventFrame(e), Failed(false)], []), [], 0);
    assert [CallDrain(32)][..0] == [];
    assert Run(start, [CallDrain(32)]) == Step(start, CallDrain(32));
    assert start.client.stream[1..] == [Failed(false)] && [EventFrame(e), Failed(false)][..1] == [EventFrame(e)];
    var c := Client([Failed(false)], []);
    assert c.stream[1..] == [];
    assert ReadEvent(start.client) == (c, Ok(e)) && ReadEvent(c) == (Client([], []), Err(false));
    assert Collect(c, 31) == (Client([], []), [], true);
    assert EventsOf([EventFrame(e)]) == EventsOf([]) + [e] by {
      assert [EventFrame(e)][..0] == [];
    }
  }

  // ---------------------------------------------------------------- the mutable client

  class ControlWsClient {
    var stream: seq<Read>
    var queued: seq<Event>

    function View(): Client
      reads this
    {
      Client(stream, queued)
    }

    constructor (stream: seq<Read>)
      ensures View() == Client(stream, [])
    {
      this.stream, queued := stream, [];
    }

    method NextEvent() returns (r: Result<Event, bool>)
      modifies this
      ensures (View(), r) == ReadEvent(old(View()))
    {
      if queued != [] {
        r := Ok(queued[0]);
        queued := queued[1..];
        return;
      }
      if stream == [] {
        return Err(false);
      }
      var read := stream[0];
      stream := stream[1..];
      match read {
        case EventFrame(e) => r := Ok(e);
        case OtherFrame(_, t) => r := Err(t);
        case Failed(t) => r := Err(t);
      }
    }

    method DrainPendingEvents(limit: nat) returns (r: Option<seq<Event>>)
      modifies this
      ensures (View(), r) == Drain(old(View()), limit)
    {
      var events: seq<Event> := [];
      assert forall es: seq<Event> :: [] + es == es;
      for i := 0 to limit
        invariant var (d, es, failed) := Collect(View(), limit - i);
                  (d, events + es, failed) == Collect(old(View()), limit)
      {
        ghost var before := events;
        var next := NextEvent();
        match next {
          case Ok(event) =>
            events := events + [event];
            assert forall es: seq<Event> :: before + ([event] + es) == events + es;
          case Err(timeoutLike) =>
            assert events + [] == events;
            return if timeoutLike then Some(events) else None;
        }
      }
      assert events + [] == events;
      r := Some(events);
    }

    method AwaitResponse(expected: string) returns (ok: bool)
      modifies this
      ensures (View(), ok) == ReadResponse(old(View()), expected)
    {
      while stream != []
        invariant ReadResponse(View(), expected) == ReadResponse(old(View()), expected)
        decreases |stream|
      {
        var read := stream[0];
        stream := stream[1..];
        match read {
          case EventFrame(e) => queued := queued + [e];
          case OtherFrame(kind, _) => return kind != "error" && kind == expected;
          case Failed(_) => return false;
        }
      }
      ok := false;
    }
  }
}
