/** Threads that run lock-structured code. Guards are released in reverse order; an early return or `?` drops all
    guards of the operation. A mutex is not re-entrant: taking one that is held, by whomever, waits. */
module LockOrder {
  /** The facade's four mutexes, then those inside the path manager, the DERP pool, its clients, the relay client,
      the direct connector and the tunnel backend. */
  datatype Mutex =
    | ControlWs | CurrentTunnel | SnapshotState | ProbeSequence
    | PathState | PoolState | DerpClientState(link: nat) | RelayState | P2PState | BackendState

  function Rank(m: Mutex): nat {
    match m
    case ControlWs => 0
    case CurrentTunnel => 1
    case SnapshotState => 2
    case ProbeSequence => 3
    case PathState => 4
    case PoolState => 5
    case DerpClientState(_) => 6
    case RelayState => 7
    case P2PState => 8
    case BackendState => 9
  }

  const TOP := 9

  /** `Locked` holds a guard around its body, `Block` runs parts in order, `Either` branches, `Repeat` loops. */
  datatype Code =
    | Locked(mutex: Mutex, body: Code)
    | Block(parts: seq<Code>)
    | Either(left: Code, right: Code)
    | Repeat(again: Code)

  const SKIP := Block([])

  /** Every mutex taken outranks `floor` and all that are held around it. */
  predicate Ordered(c: Code, floor: int) {
    match c
    case Locked(m, body) => floor < Rank(m) && Ordered(body, Rank(m))
    case Block(parts) => forall k | 0 <= k < |parts| :: Ordered(parts[k], floor)
    case Either(a, b) => Ordered(a, floor) && Ordered(b, floor)
    case Repeat(body) => Ordered(body, floor)
  }

  // ---------------------------------------------------------------- threads

  /** What a thread has left of its current operation: code to run and guards to drop. */
  datatype Frame = Do(code: Code) | Release(mutex: Mutex)

  datatype Thread = Thread(stack: seq<Frame>, todo: seq<Code>)

  type Config = seq<Thread>

  /** A branch, or leaving the operation early. */
  datatype Action = Left | Right | Unwind

  datatype Move = Move(thread: nat, action: Action)

  predicate Holds(stack: seq<Frame>, m: Mutex) { Release(m) in stack }

  predicate Free(cfg: Config, m: Mutex) { forall i | 0 <= i < |cfg| :: !Holds(cfg[i].stack, m) }

  predicate WantsLock(t: Thread) { t.stack != [] && t.stack[0].Do? && t.stack[0].code.Locked? }

  function Wanted(t: Thread): Mutex
    requires WantsLock(t)
  {
    t.stack[0].code.mutex
  }

  predicate Finished(t: Thread) { t.stack == [] && t.todo == [] }

  /** A thread can go on unless it is finished or wants a mutex that is taken; it can leave early between two parts. */
  predicate Enabled(cfg: Config, mv: Move) {
    && mv.thread < |cfg| && !Finished(cfg[mv.thread])
    && (WantsLock(cfg[mv.thread]) ==> Free(cfg, Wanted(cfg[mv.thread])))
    && (mv.action == Unwind ==> cfg[mv.thread].stack != [] && cfg[mv.thread].stack[0].Do? && cfg[mv.thread].stack[0].code.Block?)
  }

  function Guards(stack: seq<Frame>): seq<Frame> {
    if stack == [] then []
    else if stack[0].Release? then [stack[0]] + Guards(stack[1..])
    else Guards(stack[1..])
  }

  function Advance(stack: seq<Frame>, a: Action): seq<Frame>
    requires stack != []
  {
    var rest := stack[1..];
    match stack[0]
    case Release(_) => rest
    case Do(Locked(m, body)) => [Do(body), Release(m)] + rest
    case Do(Block(parts)) =>
      if a == Unwind then Guards(stack) else if parts == [] then rest else [Do(parts[0]), Do(Block(parts[1..]))] + rest
    case Do(Either(x, y)) => [Do(if a == Left then x else y)] + rest
    case Do(Repeat(body)) => if a == Left then [Do(body), stack[0]] + rest else rest
  }

  function Step(cfg: Config, mv: Move): Config
    requires Enabled(cfg, mv)
  {
    var t := cfg[mv.thread];
    cfg[mv.thread := if t.stack == [] then Thread([Do(t.todo[0])], t.todo[1..]) else t.(stack := Advance(t.stack, mv.action))]
  }

  ghost predicate ValidRun(cfg: Config, moves: seq<Move>)
    decreases |moves|, 0
  {
    moves == [] || (ValidRun(cfg, moves[..|moves| - 1]) && Enabled(Run(cfg, moves[..|moves| - 1]), moves[|moves| - 1]))
  }

  ghost function Run(cfg: Config, moves: seq<Move>): Config
    requires ValidRun(cfg, moves)
    decreases |moves|, 1
  {
    if moves == [] then cfg else Step(Run(cfg, moves[..|moves| - 1]), moves[|moves| - 1])
  }

  // ---------------------------------------------------------------- the order is kept

  /** The rank of the innermost guard. */
  function Floor(stack: seq<Frame>): int {
    if stack == [] then -1 else if stack[0].Release? then Rank(stack[0].mutex) else Floor(stack[1..])
  }

  ghost predicate StackOk(stack: seq<Frame>) {
    stack == [] ||
    (StackOk(stack[1..]) &&
     match stack[0]
     case Release(m) => Floor(stack[1..]) < Rank(m)
     case Do(c) => Ordered(c, Floor(stack[1..])))
  }

  lemma {:induction false} GuardsOk(stack: seq<Frame>)
    requires StackOk(stack)
    ensures StackOk(Guards(stack)) && Floor(Guards(stack)) == Floor(stack)
    ensures forall m :: Holds(Guards(stack), m) <==> Holds(stack, m)
  {
    if stack != [] {
      GuardsOk(stack[1..]);
      assert stack == [stack[0]] + stack[1..];
      assert stack[0].Release? ==> Guards(stack)[1..] == Guards(stack[1..]);
      forall m
        ensures Holds(Guards(stack), m) <==> Holds(stack, m)
      {
        assert Holds(stack, m) <==> stack[0] == Release(m) || Holds(stack[1..], m);
      }
    }
  }

  lemma {:induction false} HeldBelowFloor(stack: seq<Frame>, k: nat)
    requires StackOk(stack) && k < |stack| && stack[k].Release?
    ensures Rank(stack[k].mutex) <= Floor(stack)
  {
    if k > 0 {
      HeldBelowFloor(stack[1..], k - 1);
    }
  }

  /** Guards lie in strictly increasing rank, innermost first in the stack; so no mutex is held twice by one thread. */
  lemma {:induction false} GuardsIncrease(stack: seq<Frame>, j: nat, k: nat)
    requires StackOk(stack) && j < k < |stack| && stack[j].Release? && stack[k].Release?
    ensures Rank(stack[k].mutex) < Rank(stack[j].mutex)
  {
    if j == 0 {
      HeldBelowFloor(stack[1..], k - 1);
    } else {
      GuardsIncrease(stack[1..], j - 1, k - 1);
    }
  }

  lemma PushOk(c: Code, rest: seq<Frame>)
    requires StackOk(rest) && Ordered(c, Floor(rest))
    ensures StackOk([Do(c)] + rest) && Floor([Do(c)] + rest) == Floor(rest)
  {
    assert ([Do(c)] + rest)[1..] == rest;
  }

  lemma LockOk(m: Mutex, body: Code, rest: seq<Frame>)
    requires StackOk(rest) && Floor(rest) < Rank(m) && Ordered(body, Rank(m))
    ensures StackOk([Do(body), Release(m)] + rest)
  {
    var guarded := [Release(m)] + rest;
    assert guarded[1..] == rest;
    PushOk(body, guarded);
    assert [Do(body), Release(m)] + rest == [Do(body)] + guarded;
  }

  lemma TwoPushesOk(c: Code, d: Code, rest: seq<Frame>)
    requires StackOk(rest) && Ordered(c, Floor(rest)) && Ordered(d, Floor(rest))
    ensures StackOk([Do(c), Do(d)] + rest)
  {
    PushOk(d, rest);
    PushOk(c, [Do(d)] + rest);
    assert [Do(c), Do(d)] + rest == [Do(c)] + ([Do(d)] + rest);
  }

  lemma AdvanceOk(stack: seq<Frame>, a: Action)
    requires StackOk(stack) && stack != []
    ensures StackOk(Advance(stack, a))
  {
    var rest := stack[1..];
    match stack[0]
    case Release(_) =>
    case Do(Locked(m, body)) => LockOk(m, body, rest);
    case Do(Block(parts)) =>
      if a == Unwind {
        GuardsOk(stack);
      } else if parts != [] {
        TwoPushesOk(parts[0], Block(parts[1..]), rest);
      }
    case Do(Either(x, y)) => PushOk(if a == Left then x else y, rest);
    case Do(Repeat(body)) => TwoPushesOk(body, Repeat(body), rest);
  }

  lemma AdvanceHolds(stack: seq<Frame>, a: Action, m: Mutex)
    requires StackOk(stack) && stack != [] && Holds(Advance(stack, a), m)
    ensures Holds(stack, m) || (stack[0].Do? && stack[0].code.Locked? && stack[0].code.mutex == m)
  {
    GuardsOk(stack);
    assert stack == [stack[0]] + stack[1..];
  }

  ghost predicate Inv(cfg: Config) {
    && (forall i | 0 <= i < |cfg| :: StackOk(cfg[i].stack))
    && (forall i, k | 0 <= i < |cfg| && 0 <= k < |cfg[i].todo| :: Ordered(cfg[i].todo[k], -1))
    && (forall i, j, m | 0 <= i < j < |cfg| && Holds(cfg[i].stack, m) :: !Holds(cfg[j].stack, m))
  }

  lemma StepInv(cfg: Config, mv: Move)
    requires Inv(cfg) && Enabled(cfg, mv)
    ensures Inv(Step(cfg, mv))
  {
    var t := cfg[mv.thread];
    if t.stack == [] {
      PushOk(t.todo[0], []);
      assert [Do(t.todo[0])] + [] == [Do(t.todo[0])];
    } else {
      AdvanceOk(t.stack, mv.action);
      forall m | Holds(Advance(t.stack, mv.action), m)
        ensures Holds(t.stack, m) || Free(cfg, m)
      {
        AdvanceHolds(t.stack, mv.action, m);
      }
    }
  }

  lemma {:induction false} RunInv(cfg: Config, moves: seq<Move>)
    requires Inv(cfg) && ValidRun(cfg, moves)
    ensures Inv(Run(cfg, moves))
  {
    if moves != [] {
      RunInv(cfg, moves[..|moves| - 1]);
      StepInv(Run(cfg, moves[..|moves| - 1]), moves[|moves| - 1]);
    }
  }

  // ---------------------------------------------------------------- no deadlock

  /** Each thread of `circle` waits for a mutex that a thread of `circle` holds. */
  ghost predicate Deadlocked(cfg: Config, circle: set<nat>) {
    circle != {} && forall i {:trigger Stuck(cfg, circle, i)} | i in circle :: Stuck(cfg, circle, i)
  }

  ghost predicate Stuck(cfg: Config, circle: set<nat>, i: nat) {
    i < |cfg| && WantsLock(cfg[i]) && HeldWithin(cfg, circle, Wanted(cfg[i]))
  }

  ghost predicate HeldWithin(cfg: Config, circle: set<nat>, m: Mutex) {
    exists j | j in circle :: j < |cfg| && Holds(cfg[j].stack, m)
  }

  /** Whoever holds `m` and waits, waits for something of higher rank. */
  lemma WaitsHigher(t: Thread, m: Mutex)
    requires StackOk(t.stack) && WantsLock(t) && Holds(t.stack, m)
    ensures Rank(m) < Rank(Wanted(t))
  {
    var k :| 0 <= k < |t.stack| && t.stack[k] == Release(m);
    HeldBelowFloor(t.stack[1..], k - 1);
  }

  lemma NextInCircle(cfg: Config, circle: set<nat>, i: nat) returns (j: nat)
    requires Inv(cfg) && Deadlocked(cfg, circle) && i in circle
    ensures j in circle && Stuck(cfg, circle, i) && Stuck(cfg, circle, j) && Rank(Wanted(cfg[i])) < Rank(Wanted(cfg[j]))
  {
    assert Stuck(cfg, circle, i);
    j :| j in circle && j < |cfg| && Holds(cfg[j].stack, Wanted(cfg[i]));
    assert Stuck(cfg, circle, j);
    WaitsHigher(cfg[j], Wanted(cfg[i]));
  }

  /** Following the waits from one thread of a circle would climb the ranks forever. */
  lemma {:induction false} NoCircle(cfg: Config, circle: set<nat>, i: nat)
    requires Inv(cfg) && Deadlocked(cfg, circle) && i in circle && Stuck(cfg, circle, i)
    ensures false
    decreases TOP - Rank(Wanted(cfg[i]))
  {
    var j := NextInCircle(cfg, circle, i);
    NoCircle(cfg, circle, j);
  }

  lemma NeverDeadlocked(cfg: Config, moves: seq<Move>, circle: set<nat>)
    requires Inv(cfg) && ValidRun(cfg, moves)
    ensures !Deadlocked(Run(cfg, moves), circle)
  {
    RunInv(cfg, moves);
    if Deadlocked(Run(cfg, moves), circle) {
      var i :| i in circle;
      assert Stuck(Run(cfg, moves), circle, i);
      NoCircle(Run(cfg, moves), circle, i);
    }
  }

  /** From any unfinished thread, the chain of waits ends at one that can go on. */
  lemma {:induction false} SomeoneCanMove(cfg: Config, i: nat) returns (j: nat)
    requires Inv(cfg) && i < |cfg| && !Finished(cfg[i])
    ensures Enabled(cfg, Move(j, Left))
    decreases if WantsLock(cfg[i]) then TOP - Rank(Wanted(cfg[i])) else -1
  {
    if WantsLock(cfg[i]) && !Free(cfg, Wanted(cfg[i])) {
      var h :| 0 <= h < |cfg| && Holds(cfg[h].stack, Wanted(cfg[i]));
      if WantsLock(cfg[h]) {
        WaitsHigher(cfg[h], Wanted(cfg[i]));
        j := SomeoneCanMove(cfg, h);
      } else {
        j := h;
      }
    } else {
      j := i;
    }
  }

  // ---------------------------------------------------------------- the order matters

  /** Two threads taking two mutexes in opposite orders do reach a deadlock. */
  lemma OppositeOrdersDeadlock(m: Mutex, n: Mutex) returns (cfg: Config, moves: seq<Move>)
    requires m != n
    ensures |cfg| == 2 && cfg[0] == Thread([], [Locked(m, Locked(n, SKIP))]) && cfg[1] == Thread([], [Locked(n, Locked(m, SKIP))])
    ensures ValidRun(cfg, moves) && Deadlocked(Run(cfg, moves), {0, 1})
  {
    var a, b := Locked(m, Locked(n, SKIP)), Locked(n, Locked(m, SKIP));
    cfg := [Thread([], [a]), Thread([], [b])];
    TakesFirst(cfg, [], 0, m, Locked(n, SKIP));
    var half := [] + [Move(0, Left)] + [Move(0, Left)];
    TakesFirst(cfg, half, 1, n, Locked(m, SKIP));
    moves := half + [Move(1, Left)] + [Move(1, Left)];
    var d := Run(cfg, moves);
    assert Holds(d[0].stack, m) && Holds(d[1].stack, n);
    assert Stuck(d, {0, 1}, 0) && Stuck(d, {0, 1}, 1);
  }

  lemma StartStep(cfg: Config, i: nat, c: Code)
    requires i < |cfg| && cfg[i] == Thread([], [c])
    ensures Enabled(cfg, Move(i, Left)) && Step(cfg, Move(i, Left)) == cfg[i := Thread([Do(c)], [])]
  {
    assert [c][1..] == [];
  }

  lemma LockStep(cfg: Config, i: nat, m: Mutex, body: Code)
    requires i < |cfg| && cfg[i] == Thread([Do(Locked(m, body))], []) && Free(cfg, m)
    ensures Enabled(cfg, Move(i, Left)) && Step(cfg, Move(i, Left)) == cfg[i := Thread([Do(body), Release(m)], [])]
  {
    assert cfg[i].stack[1..] == [] && [Do(body), Release(m)] + [] == [Do(body), Release(m)];
  }

  lemma TakesFirst(cfg: Config, moves: seq<Move>, i: nat, m: Mutex, body: Code)
    requires ValidRun(cfg, moves) && i < |Run(cfg, moves)| && Free(Run(cfg, moves), m)
    requires Run(cfg, moves)[i] == Thread([], [Locked(m, body)])
    ensures var longer := moves + [Move(i, Left)] + [Move(i, Left)];
      ValidRun(cfg, longer) && Run(cfg, longer) == Run(cfg, moves)[i := Thread([Do(body), Release(m)], [])]
  {
    var c := Run(cfg, moves);
    StartStep(c, i, Locked(m, body));
    RunSnoc(cfg, moves, Move(i, Left));
    LockStep(c[i := Thread([Do(Locked(m, body))], [])], i, m, body);
    RunSnoc(cfg, moves + [Move(i, Left)], Move(i, Left));
  }

  lemma RunSnoc(cfg: Config, moves: seq<Move>, mv: Move)
    requires ValidRun(cfg, moves) && Enabled(Run(cfg, moves), mv)
    ensures ValidRun(cfg, moves + [mv]) && Run(cfg, moves + [mv]) == Step(Run(cfg, moves), mv)
  {
    assert (moves + [mv])[..|moves|] == moves;
  }
}
