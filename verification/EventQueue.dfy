/** The queue between the sensor threads and the state machine, as a transition system: any number of
    producers, the listener thread, a FIFO, a mutex and a semaphore that holds at most one token.

    An action is one atomic step of one thread; a run is any sequence of actions. What an event does
    to the machine is a parameter here; the end of the module puts the chess machine in. */
module EventQueue {
  import opened Basics
  import opened ChessModel

  /** The machine that the events drive, and what is noted in the list after each. */
  datatype Machine<!M, !E, !S> = Machine(step: (M, E) -> M, out: M -> S)

  /** Where a producer is inside `queue_fsm_work_fifo`. */
  datatype Producer<E> = Idle | Locked(e: E) | HasPut | HasGiven

  /** Where the listener is inside its loop. */
  datatype Listener<E, S> = AtTake | AtGet | AtRun(e: E) | AtAppend(node: S) | AtGiveList | AtGive

  /** The shared state. `queued` and `processed` record what has happened so far. */
  datatype System<M, E, S> = System(
    fifo: seq<E>, tokens: nat, listTokens: nat, mutex: Option<nat>, producers: seq<Producer<E>>,
    listener: Listener<E, S>, machine: M, list: seq<S>, queued: seq<E>, processed: seq<E>)

  datatype Action<E> =
    | Lock(p: nat, e: E) | Put(p: nat) | Give(p: nat) | Unlock(p: nat)
    | ListenerStep

  const MAX_TOKENS: nat := 1
  const MAX_LIST_TOKENS: nat := 64

  function AddToken(tokens: nat, limit: nat): nat { if tokens < limit then tokens + 1 else tokens }

  // ----- steps; None means that the thread is blocked or elsewhere -----

  function ListenerNext<M, E, S>(f: Machine<M, E, S>, s: System<M, E, S>): Option<System<M, E, S>> {
    match s.listener
    case AtTake => if s.tokens > 0 then Some(s.(tokens := s.tokens - 1, listener := AtGet)) else None
    case AtGet => if s.fifo != [] then Some(s.(fifo := s.fifo[1..], listener := AtRun(s.fifo[0]))) else None
    case AtRun(e) =>
      var m := f.step(s.machine, e);
      Some(s.(machine := m, listener := AtAppend(f.out(m)), processed := s.processed + [e]))
    case AtAppend(node) => Some(s.(list := s.list + [node], listener := AtGiveList))
    case AtGiveList => Some(s.(listTokens := AddToken(s.listTokens, MAX_LIST_TOKENS), listener := AtGive))
    case AtGive => Some(s.(tokens := AddToken(s.tokens, MAX_TOKENS), listener := AtTake))
  }

  function ProducerNext<M, E(==), S>(s: System<M, E, S>, a: Action<E>): Option<System<M, E, S>>
    requires !a.ListenerStep?
  {
    if a.p >= |s.producers| then None
    else
      var here := s.producers[a.p];
      match a
      case Lock(p, e) =>
        if s.mutex == None && here == Idle
        then Some(s.(mutex := Some(p), producers := s.producers[p := Locked(e)])) else None
      case Put(p) =>
        if here.Locked?
        then Some(s.(fifo := s.fifo + [here.e], queued := s.queued + [here.e], producers := s.producers[p := HasPut]))
        else None
      case Give(p) =>
        if here == HasPut
        then Some(s.(tokens := AddToken(s.tokens, MAX_TOKENS), producers := s.producers[p := HasGiven])) else None
      case Unlock(p) =>
        if here == HasGiven then Some(s.(mutex := None, producers := s.producers[p := Idle])) else None
  }

  function Next<M, E(==), S>(f: Machine<M, E, S>, s: System<M, E, S>, a: Action<E>): Option<System<M, E, S>> {
    if a.ListenerStep? then ListenerNext(f, s) else ProducerNext(s, a)
  }

  function RunAll<M, E(==), S>(f: Machine<M, E, S>, s: System<M, E, S>, actions: seq<Action<E>>)
    : Option<System<M, E, S>>
    decreases |actions|
  {
    if actions == [] then Some(s)
    else
      var before := RunAll(f, s, actions[..|actions| - 1]);
      if before.None? then None else Next(f, before.value, actions[|actions| - 1])
  }

  /** Before any event: an empty queue, no token, and n producers at rest. */
  function Initial<M, E, S>(n: nat, m: M): System<M, E, S> {
    System([], 0, 0, None, seq(n, _ => Idle), AtTake, m, [], [], [])
  }

  // ----- what every reachable state satisfies -----

  /** The machine after some events, and what it shows after each of them. */
  function After<M, E, S>(f: Machine<M, E, S>, m: M, es: seq<E>): M
    decreases |es|
  {
    if es == [] then m else f.step(After(f, m, es[..|es| - 1]), es[|es| - 1])
  }

  function Outcomes<M, E, S>(f: Machine<M, E, S>, m: M, es: seq<E>): (r: seq<S>)
    ensures |r| == |es|
    decreases |es|
  {
    if es == [] then [] else Outcomes(f, m, es[..|es| - 1]) + [f.out(After(f, m, es))]
  }

  /** The events that have left the queue, the one in the listener's hands included. */
  function Taken<M, E, S>(s: System<M, E, S>): seq<E> {
    if s.listener.AtRun? then s.processed + [s.listener.e] else s.processed
  }

  /** Events come out in the order they went in. */
  ghost predicate InOrder<M, E, S>(s: System<M, E, S>) { s.queued == Taken(s) + s.fifo }

  /** The machine has run exactly the processed events and the list holds their outcomes; only the
      node of the last event may not be appended yet. */
  ghost predicate ListMatches<M, E, S>(f: Machine<M, E, S>, m: M, s: System<M, E, S>) {
    && s.machine == After(f, m, s.processed)
    && Outcomes(f, m, s.processed) == (if s.listener.AtAppend? then s.list + [s.listener.node] else s.list)
  }

  /** Only the holder of the mutex is inside. */
  predicate Exclusive<M, E(==), S>(s: System<M, E, S>) {
    forall p :: 0 <= p < |s.producers| && s.producers[p] != Idle ==> s.mutex == Some(p)
  }

  predicate BetweenPutAndGive<M, E(==), S>(s: System<M, E, S>) {
    exists p :: 0 <= p < |s.producers| && s.producers[p] == HasPut
  }

  /** Without a token the listener waits only before the first give. */
  predicate NoLostWakeup<M, E(==), S>(s: System<M, E, S>) {
    s.listener.AtTake? && s.tokens == 0 ==> s.processed == [] && (s.fifo != [] ==> BetweenPutAndGive(s))
  }

  ghost predicate Inv<M, E, S>(f: Machine<M, E, S>, m: M, s: System<M, E, S>) {
    s.tokens <= MAX_TOKENS && InOrder(s) && ListMatches(f, m, s) && Exclusive(s) && NoLostWakeup(s)
  }

  lemma InitialInv<M, E, S>(f: Machine<M, E, S>, n: nat, m: M)
    ensures Inv(f, m, Initial(n, m))
  {
  }

  // One lemma for each position of the listener.

  lemma TakeKeepsInv<M, E, S>(f: Machine<M, E, S>, m: M, s: System<M, E, S>)
    requires Inv(f, m, s) && s.listener.AtTake? && s.tokens > 0
    ensures Inv(f, m, ListenerNext(f, s).value)
  {
  }

  lemma HeadMoves<E>(a: seq<E>, q: seq<E>)
    requires q != []
    ensures a + q == (a + [q[0]]) + q[1..]
  {
  }

  lemma GetKeepsInv<M, E, S>(f: Machine<M, E, S>, m: M, s: System<M, E, S>)
    requires Inv(f, m, s) && s.listener.AtGet? && s.fifo != []
    ensures Inv(f, m, ListenerNext(f, s).value)
  {
    HeadMoves(s.processed, s.fifo);
    assert InOrder(ListenerNext(f, s).value);
  }

  lemma RunKeepsInv<M, E, S>(f: Machine<M, E, S>, m: M, s: System<M, E, S>)
    requires Inv(f, m, s) && s.listener.AtRun?
    ensures Inv(f, m, ListenerNext(f, s).value)
  {
    var t := ListenerNext(f, s).value;
    assert t.processed[..|s.processed|] == s.processed;
  }

  lemma AppendKeepsInv<M, E, S>(f: Machine<M, E, S>, m: M, s: System<M, E, S>)
    requires Inv(f, m, s) && s.listener.AtAppend?
    ensures Inv(f, m, ListenerNext(f, s).value)
  {
  }

  lemma GiveKeepsInv<M, E, S>(f: Machine<M, E, S>, m: M, s: System<M, E, S>)
    requires Inv(f, m, s) && (s.listener.AtGiveList? || s.listener.AtGive?)
    ensures Inv(f, m, ListenerNext(f, s).value)
  {
  }

  lemma ListenerKeepsInv<M, E, S>(f: Machine<M, E, S>, m: M, s: System<M, E, S>)
    requires Inv(f, m, s) && ListenerNext(f, s).Some?
    ensures Inv(f, m, ListenerNext(f, s).value)
  {
    match s.listener
    case AtTake => TakeKeepsInv(f, m, s);
    case AtGet => GetKeepsInv(f, m, s);
    case AtRun(_) => RunKeepsInv(f, m, s);
    case AtAppend(_) => AppendKeepsInv(f, m, s);
    case AtGiveList => GiveKeepsInv(f, m, s);
    case AtGive => GiveKeepsInv(f, m, s);
  }

  lemma PutKeepsInv<M, E, S>(f: Machine<M, E, S>, m: M, s: System<M, E, S>, p: nat)
    requires Inv(f, m, s) && ProducerNext(s, Put(p)).Some?
    ensures Inv(f, m, ProducerNext(s, Put(p)).value)
  {
    assert ProducerNext(s, Put(p)).value.producers[p] == HasPut;
  }

  lemma ProducerKeepsInv<M, E, S>(f: Machine<M, E, S>, m: M, s: System<M, E, S>, a: Action<E>)
    requires Inv(f, m, s) && !a.ListenerStep? && ProducerNext(s, a).Some?
    ensures Inv(f, m, ProducerNext(s, a).value)
  {
    if a.Put? { PutKeepsInv(f, m, s, a.p); }
  }

  lemma {:induction false} ActionsKeepInv<M, E, S>(f: Machine<M, E, S>, m: M, s: System<M, E, S>,
                                                   actions: seq<Action<E>>)
    requires Inv(f, m, s) && RunAll(f, s, actions).Some?
    ensures Inv(f, m, RunAll(f, s, actions).value)
    decreases |actions|
  {
    if actions == [] {
    } else {
      var before, a := actions[..|actions| - 1], actions[|actions| - 1];
      ActionsKeepInv(f, m, s, before);
      var t := RunAll(f, s, before).value;
      if a.ListenerStep? { ListenerKeepsInv(f, m, t); } else { ProducerKeepsInv(f, m, t, a); }
    }
  }

  /** In every run, with any number of producers and any interleaving. */
  lemma EveryRunKeepsInv<M, E, S>(f: Machine<M, E, S>, n: nat, m: M, actions: seq<Action<E>>)
    requires RunAll(f, Initial(n, m), actions).Some?
    ensures Inv(f, m, RunAll(f, Initial(n, m), actions).value)
  {
    InitialInv(f, n, m);
    ActionsKeepInv(f, m, Initial(n, m), actions);
  }

  // ----- what that means -----

  /** Events are processed in the order in which they were queued. */
  lemma ProcessedInOrder<M, E, S>(f: Machine<M, E, S>, n: nat, m: M, actions: seq<Action<E>>)
    requires RunAll(f, Initial(n, m), actions).Some?
    ensures var s := RunAll(f, Initial(n, m), actions).value;
      && s.processed <= s.queued && s.machine == After(f, m, s.processed)
      && (s.listener.AtTake? ==> s.list == Outcomes(f, m, s.processed))
  {
    EveryRunKeepsInv(f, n, m, actions);
  }

  /** If an item is queued and every producer that has put has also given, the listener is not
      blocked, wherever it stands in its loop. */
  lemma ListenerNotBlocked<M, E, S>(f: Machine<M, E, S>, n: nat, m: M, actions: seq<Action<E>>)
    requires RunAll(f, Initial(n, m), actions).Some?
    requires var s := RunAll(f, Initial(n, m), actions).value; s.fifo != [] && !BetweenPutAndGive(s)
    ensures Next(f, RunAll(f, Initial(n, m), actions).value, ListenerStep).Some?
  {
    EveryRunKeepsInv(f, n, m, actions);
  }

  /** The listener alone, for a number of steps. */
  function Listen<M, E, S>(f: Machine<M, E, S>, s: System<M, E, S>, steps: nat): Option<System<M, E, S>>
    decreases steps
  {
    if steps == 0 then Some(s)
    else
      var t := ListenerNext(f, s);
      if t.None? then None else Listen(f, t.value, steps - 1)
  }

  /** The steps the listener takes until the queue is empty and it waits again. */
  function StepsLeft<M, E, S>(s: System<M, E, S>): nat {
    6 * |s.fifo| +
    match s.listener
    case AtTake => if s.tokens > 0 then 1 else 0
    case AtGet => 0
    case AtRun(_) => 5
    case AtAppend(_) => 4
    case AtGiveList => 3
    case AtGive => 2
  }

  lemma StepsGoDown<M, E, S>(f: Machine<M, E, S>, s: System<M, E, S>)
    requires s.tokens <= MAX_TOKENS && NoLostWakeup(s) && !BetweenPutAndGive(s) && StepsLeft(s) > 0
    ensures var t := ListenerNext(f, s);
      && t.Some? && StepsLeft(t.value) == StepsLeft(s) - 1
      && t.value.queued == s.queued && t.value.producers == s.producers
  {
  }

  /** Everything that was queued is processed, with one outcome in the list for each event. */
  ghost predicate Drained<M, E, S>(f: Machine<M, E, S>, m: M, queued: seq<E>, r: System<M, E, S>) {
    && r.fifo == [] && r.queued == queued && r.processed == queued
    && r.list == Outcomes(f, m, queued) && r.machine == After(f, m, queued)
  }

  lemma NothingLeft<M, E, S>(f: Machine<M, E, S>, m: M, s: System<M, E, S>)
    requires Inv(f, m, s) && StepsLeft(s) == 0
    ensures Drained(f, m, s.queued, s)
  {
    assert s.fifo == [];
    assert s.processed + [] == s.processed;
  }

  /** If every producer that has put has also given, the listener by itself processes everything that
      was ever queued. */
  lemma {:induction false} ListenerDrainsQueue<M, E, S>(f: Machine<M, E, S>, m: M, s: System<M, E, S>, steps: nat)
    returns (r: System<M, E, S>)
    requires Inv(f, m, s) && !BetweenPutAndGive(s) && steps == StepsLeft(s)
    ensures Listen(f, s, steps) == Some(r) && Drained(f, m, s.queued, r)
    decreases steps
  {
    if steps == 0 {
      NothingLeft(f, m, s);
      r := s;
    } else {
      StepsGoDown(f, s);
      ListenerKeepsInv(f, m, s);
      r := ListenerDrainsQueue(f, m, ListenerNext(f, s).value, steps - 1);
    }
  }

  /** After any run in which no producer stopped between its put and its give, some number of
      listener steps leaves every queued event processed. */
  lemma EveryQueuedEventIsProcessed<M, E, S>(f: Machine<M, E, S>, n: nat, m: M, actions: seq<Action<E>>)
    requires RunAll(f, Initial(n, m), actions).Some?
    requires !BetweenPutAndGive(RunAll(f, Initial(n, m), actions).value)
    ensures var s := RunAll(f, Initial(n, m), actions).value;
      exists steps :: Listen(f, s, steps).Some? && Drained(f, m, s.queued, Listen(f, s, steps).value)
  {
    EveryRunKeepsInv(f, n, m, actions);
    var s := RunAll(f, Initial(n, m), actions).value;
    var r := ListenerDrainsQueue(f, m, s, StepsLeft(s));
  }

  // ----- the chess machine -----

  type Board64 = s: Chess | Ok(s) witness Reset(seq(64, _ => EMPTY))
  type SquareEvent = e: Event | e.pin < 64 witness Event(0, false)

  function ChessStep(s: Board64, e: SquareEvent): Board64 { Step(s, e.pin, e.up) }
  function ChessState(s: Board64): State { s.stateVal }

  const CHESS: Machine<Board64, SquareEvent, State> := Machine(ChessStep, ChessState)

  lemma {:induction false} AfterIsRun(s: Board64, es: seq<SquareEvent>)
    ensures After(CHESS, s, es) == Run(s, es)
    decreases |es|
  {
    if es == [] {
    } else {
      AfterIsRun(s, es[..|es| - 1]);
    }
  }

  /** With the chess machine: its state is that after a run of the processed events, and the list
      holds `state_val` after each of them. */
  lemma {:induction false} ChessOutcomes(s: Board64, es: seq<SquareEvent>, i: nat)
    requires i < |es|
    ensures Outcomes(CHESS, s, es)[i] == Run(s, es[..i + 1]).stateVal
    decreases |es|
  {
    var n := |es| - 1;
    if i == n {
      AfterIsRun(s, es);
      assert es[..i + 1] == es;
    } else {
      ChessOutcomes(s, es[..n], i);
      assert es[..n][..i + 1] == es[..i + 1];
    }
  }

  // ----- producers are not kept waiting by anything but the mutex -----

  function Then<M, E(==), S>(f: Machine<M, E, S>, s: Option<System<M, E, S>>, a: Action<E>): Option<System<M, E, S>> {
    if s.None? then None else Next(f, s.value, a)
  }

  /** With the mutex free, a producer at rest can queue its event: all four steps are possible, whatever
      the listener is doing, and then the event is last in the queue, there is a token, and the mutex is
      free again. */
  lemma ProducerQueues<M, E, S>(f: Machine<M, E, S>, s: System<M, E, S>, p: nat, e: E)
    requires p < |s.producers| && s.producers[p] == Idle && s.mutex == None && s.tokens <= 1
    ensures var r := Then(f, Then(f, Then(f, Next(f, s, Lock(p, e)), Put(p)), Give(p)), Unlock(p));
      r == Some(s.(fifo := s.fifo + [e], queued := s.queued + [e], tokens := 1))
  {
    assert s.producers[p := Locked(e)][p := HasPut][p := HasGiven][p := Idle] == s.producers;
  }

  /** The list semaphore counts the appended nodes, up to 64; the last may still be uncounted. */
  predicate ListCounted<M, E(==), S>(s: System<M, E, S>) {
    var n := |s.list| - if s.listener.AtGiveList? then 1 else 0;
    s.listTokens == if n < 64 then n else 64
  }

  lemma {:induction false} ListIsCounted<M, E, S>(f: Machine<M, E, S>, n: nat, m: M, actions: seq<Action<E>>)
    requires RunAll(f, Initial(n, m), actions).Some?
    ensures ListCounted(RunAll(f, Initial(n, m), actions).value)
    decreases |actions|
  {
    if actions == [] {
    } else {
      ListIsCounted(f, n, m, actions[..|actions| - 1]);
      StepCounts(f, RunAll(f, Initial(n, m), actions[..|actions| - 1]).value, actions[|actions| - 1]);
    }
  }

  lemma StepCounts<M, E, S>(f: Machine<M, E, S>, s: System<M, E, S>, a: Action<E>)
    requires ListCounted(s) && Next(f, s, a).Some?
    ensures ListCounted(Next(f, s, a).value)
  {
  }
}
