/**
  SurrealDBIngester (server/events/ingester.py): the fields its two coroutines share, changed between awaits, and
  every interleaving of the consume loop and the flush timer at those awaits.
 */
module Ingester {
  import opened Options

  const BACKPRESSURE_THRESHOLD := 10_000
  const BUFFER_SIZE_THRESHOLD := 500

  /** What the pipeline looks at in an event. */
  datatype Event = Event(
    valid: bool,       // validate_event accepts it
    builds: bool,      // its queries can be built
    queries: bool,     // it yields at least one query
    terminal: bool,    // a terminal task event type
    uuid: string)

  /** Events are named by their place in the order of arrival. */
  type Arrivals = nat -> Event

  /** A terminal task event with an id. */
  predicate IsReported(e: Event) {
    e.terminal && e.uuid != ""
  }

  function TerminalIds(world: Arrivals, ns: seq<nat>): seq<string> {
    if ns == [] then []
    else
      var init, e := TerminalIds(world, ns[..|ns| - 1]), world(ns[|ns| - 1]);
      if IsReported(e) then init + [e.uuid] else init
  }

  /** The events of a batch whose queries can be built. */
  function Built(world: Arrivals, ns: seq<nat>): seq<nat> {
    if ns == [] then []
    else
      var init, n := Built(world, ns[..|ns| - 1]), ns[|ns| - 1];
      if world(n).builds then init + [n] else init
  }

  function Broken(world: Arrivals, ns: seq<nat>): seq<nat> {
    if ns == [] then []
    else
      var init, n := Broken(world, ns[..|ns| - 1]), ns[|ns| - 1];
      if world(n).builds then init else init + [n]
  }

  predicate HasQueries(world: Arrivals, ns: seq<nat>) {
    exists k :: 0 <= k < |ns| && world(ns[k]).queries
  }

  // ---- The object's fields, changed between awaits ----

  class Pipeline {
    var buffer: seq<nat>
    var hasTerminal: bool
    var droppedCount: nat

    constructor ()
      ensures buffer == [] && !hasTerminal && droppedCount == 0
    {
      buffer, hasTerminal, droppedCount := [], false, 0;
    }

    /** The body of _consume_loop behind queue.get(): whether the loop goes on to flush. */
    method Consume(world: Arrivals, n: nat) returns (flush: bool)
      modifies this
      ensures var kept := Accepts(world, old(buffer), n);
        && buffer == (if kept then old(buffer) + [n] else old(buffer))
        && droppedCount == old(droppedCount) + (if kept then 0 else 1)
        && hasTerminal == (old(hasTerminal) || (kept && world(n).terminal))
        && flush == (kept && (|buffer| >= BUFFER_SIZE_THRESHOLD || hasTerminal))
    {
      if |buffer| >= BACKPRESSURE_THRESHOLD {
        droppedCount := droppedCount + 1;
        return false;
      }
      if !world(n).valid {
        droppedCount := droppedCount + 1;
        return false;
      }
      buffer := buffer + [n];
      if world(n).terminal {
        hasTerminal := true;
      }
      flush := |buffer| >= BUFFER_SIZE_THRESHOLD || hasTerminal;
    }

    /** _flush_buffer up to the commit: the batch, its terminal ids, and whether there is anything to commit. */
    method TakeBatch(world: Arrivals) returns (batch: seq<nat>, ids: seq<string>, commits: bool)
      modifies this
      ensures buffer == [] && hasTerminal == (old(hasTerminal) && old(buffer) == [])
      ensures batch == Built(world, old(buffer)) && ids == TerminalIds(world, batch)
      ensures commits == HasQueries(world, batch)
      ensures droppedCount == old(droppedCount) + |Broken(world, old(buffer))|
    {
      batch, ids, commits := [], [], false;
      if buffer == [] {
        return;
      }
      var events := buffer;
      buffer, hasTerminal := [], false;
      for k := 0 to |events|
        invariant buffer == [] && !hasTerminal
        invariant batch == Built(world, events[..k]) && ids == TerminalIds(world, batch)
        invariant commits == HasQueries(world, batch)
        invariant droppedCount == old(droppedCount) + |Broken(world, events[..k])|
      {
        assert events[..k + 1][..k] == events[..k];
        var e := world(events[k]);
        if !e.builds {
          droppedCount := droppedCount + 1;
          continue;
        }
        ghost var before := batch;
        batch := batch + [events[k]];
        assert batch[..|batch| - 1] == before;
        if IsReported(e) {
          ids := ids + [e.uuid];
        }
        HasQueriesSnoc(world, before, events[k]);
        commits := commits || e.queries;
      }
      assert events[..|events|] == events;
    }

    /** A failed commit puts its batch in front of what arrived meanwhile. */
    method Restore(batch: seq<nat>)
      modifies this`buffer
      ensures buffer == batch + old(buffer)
    {
      buffer := batch + buffer;
    }
  }

  predicate Accepts(world: Arrivals, buffer: seq<nat>, n: nat) {
    |buffer| < BACKPRESSURE_THRESHOLD && world(n).valid
  }

  lemma {:induction false} HasQueriesSnoc(world: Arrivals, ns: seq<nat>, n: nat)
    ensures HasQueries(world, ns + [n]) <==> HasQueries(world, ns) || world(n).queries
  {
    if k :| 0 <= k < |ns| && world(ns[k]).queries { assert (ns + [n])[k] == ns[k]; }
    if world(n).queries { assert (ns + [n])[|ns|] == n; }
    if k :| 0 <= k < |ns + [n]| && world((ns + [n])[k]).queries { assert k < |ns| ==> ns[k] == (ns + [n])[k]; }
  }

  // ---- Interleavings ----

  /** Where a coroutine is suspended. The consume loop idles in queue.get(), the timer in its sleep. */
  datatype Place = Idle | WantsLock | Committing | Calling

  datatype Who = Consumer | Timer

  datatype State = State(
    taken: nat,
    buffer: seq<nat>,
    hasTerminal: bool,
    dropped: set<nat>,
    droppedCount: nat,
    found: seq<nat>,          // how many events waited when the n-th was taken; for the proofs
    flushedTo: nat,           // events taken before the last flush; for the proofs
    lock: Option<Who>,
    batch: seq<nat>,          // in flight
    finished: seq<nat>,
    handed: seq<string>,      // ids given to on_terminal, in order
    consumer: Place,
    timer: Place)

  const START := State(0, [], false, {}, 0, [], 0, None, [], [], [], Idle, Idle)

  function PlaceOf(s: State, who: Who): Place {
    if who == Consumer then s.consumer else s.timer
  }

  function Goto(s: State, who: Who, place: Place): State {
    if who == Consumer then s.(consumer := place) else s.(timer := place)
  }

  datatype Step =
    | Take                    // the consume loop gets the next event
    | Wake                    // the flush timer's interval is over
    | Acquire(who: Who)       // the lock is granted and the buffer taken
    | Succeed(who: Who)       // the transaction is committed
    | Fail(who: Who)          // it is not, conflict or otherwise
    | Return(who: Who)        // on_terminal ends, or raises

  predicate CanStep(s: State, step: Step) {
    match step
    case Take => s.consumer == Idle
    case Wake => s.timer == Idle
    case Acquire(who) => s.lock.None? && PlaceOf(s, who) == WantsLock
    case Succeed(who) => PlaceOf(s, who) == Committing
    case Fail(who) => PlaceOf(s, who) == Committing
    case Return(who) => PlaceOf(s, who) == Calling
  }

  function Elements(ns: seq<nat>): set<nat> {
    set n <- ns
  }

  function TakeEvent(was: State, world: Arrivals): State {
    var n, s := was.taken, was.(found := was.found + [|was.buffer|]);
    if Accepts(world, s.buffer, n) then
      var buffer, hasTerminal := s.buffer + [n], s.hasTerminal || world(n).terminal;
      s.(taken := n + 1, buffer := buffer, hasTerminal := hasTerminal,
         consumer := if |buffer| >= BUFFER_SIZE_THRESHOLD || hasTerminal then WantsLock else Idle)
    else s.(taken := n + 1, dropped := s.dropped + {n}, droppedCount := s.droppedCount + 1)
  }

  /** The events are done; their terminal ids go to the callback. */
  function Finish(s: State, world: Arrivals, who: Who, batch: seq<nat>): State {
    var ids := TerminalIds(world, batch);
    Goto(s.(lock := None, batch := [], finished := s.finished + batch, handed := s.handed + ids),
         who, if ids == [] then Idle else Calling)
  }

  function Flush(s: State, world: Arrivals, who: Who): State {
    if s.buffer == [] then Goto(s, who, Idle)
    else
      var batch, broken := Built(world, s.buffer), Broken(world, s.buffer);
      var emptied := s.(buffer := [], hasTerminal := false, dropped := s.dropped + Elements(broken),
                        droppedCount := s.droppedCount + |broken|, flushedTo := s.taken);
      if HasQueries(world, batch) then Goto(emptied.(lock := Some(who), batch := batch), who, Committing)
      else Finish(emptied, world, who, batch)
  }

  function Apply(s: State, world: Arrivals, step: Step): State
    requires CanStep(s, step)
  {
    match step
    case Take => TakeEvent(s, world)
    case Wake => if s.buffer == [] then s else s.(timer := WantsLock)
    case Acquire(who) => Flush(s, world, who)
    case Succeed(who) => Finish(s, world, who, s.batch)
    case Fail(who) => Goto(s.(lock := None, buffer := s.batch + s.buffer, batch := []), who, Idle)
    case Return(who) => Goto(s, who, Idle)
  }

  // ---- The invariant ----

  /** Finished, in flight and waiting events, in this order. */
  function Line(s: State): seq<nat> {
    s.finished + s.batch + s.buffer
  }

  ghost predicate Increasing(ns: seq<nat>) {
    forall j, k :: 0 <= j < k < |ns| ==> ns[j] < ns[k]
  }

  /** Each taken event is dropped or in the line, and not both; the line keeps arrival order. */
  ghost predicate Conserved(s: State) {
    && Increasing(Line(s))
    && (forall n: nat :: n < s.taken <==> n in s.dropped || n in Line(s))
    && (forall n <- s.dropped :: n !in Line(s))
    && s.droppedCount == |s.dropped|
  }

  ghost predicate Locked(s: State) {
    && (s.lock == Some(Consumer) <==> s.consumer == Committing)
    && (s.lock == Some(Timer) <==> s.timer == Committing)
    && (s.lock.None? ==> s.batch == [])
  }

  ghost predicate Inv(s: State, world: Arrivals) {
    && Conserved(s) && Locked(s)
    && s.handed == TerminalIds(world, s.finished)
    && (s.lock.Some? ==>
          && |s.buffer| <= BUFFER_SIZE_THRESHOLD
          && (s.consumer != WantsLock ==> |s.buffer| < BUFFER_SIZE_THRESHOLD))
  }

  lemma {:induction false} TerminalIdsConcat(world: Arrivals, a: seq<nat>, b: seq<nat>)
    ensures TerminalIds(world, a + b) == TerminalIds(world, a) + TerminalIds(world, b)
  {
    if b == [] {
      assert a + b == a;
    } else {
      assert (a + b)[..|a + b| - 1] == a + b[..|b| - 1];
      TerminalIdsConcat(world, a, b[..|b| - 1]);
    }
  }

  lemma {:induction false} IncreasingSnoc(ns: seq<nat>, n: nat)
    requires Increasing(ns) && forall m <- ns :: m < n
    ensures Increasing(ns + [n])
  {
    forall j, k | 0 <= j < k < |ns + [n]| ensures (ns + [n])[j] < (ns + [n])[k] {
      assert (ns + [n])[j] in ns;
    }
  }

  lemma {:induction false} IncreasingInit(ns: seq<nat>, n: nat)
    requires Increasing(ns + [n])
    ensures Increasing(ns) && forall m <- ns :: m < n
  {
    forall j, k | 0 <= j < k < |ns| ensures ns[j] < ns[k] {
      assert (ns + [n])[j] < (ns + [n])[k];
    }
    forall m <- ns ensures m < n {
      var j :| 0 <= j < |ns| && ns[j] == m;
      assert (ns + [n])[j] < (ns + [n])[|ns|];
    }
  }

  lemma {:induction false} BuiltIn(world: Arrivals, ns: seq<nat>)
    ensures forall n <- Built(world, ns) :: n in ns
    ensures forall n <- Broken(world, ns) :: n in ns
  {
    if ns != [] {
      assert ns == ns[..|ns| - 1] + [ns[|ns| - 1]];
      BuiltIn(world, ns[..|ns| - 1]);
    }
  }

  lemma {:induction false} BelowLast(done: seq<nat>, init: seq<nat>, n: nat)
    requires Increasing(done + (init + [n]))
    ensures Increasing(done + init)
    ensures forall m <- done :: m < n
    ensures forall m <- init :: m < n
  {
    assert done + (init + [n]) == (done + init) + [n];
    IncreasingInit(done + init, n);
    forall m | m in done || m in init ensures m < n {
      assert m in done + init;
    }
  }

  /** Taking the broken events out of a batch keeps the order. */
  lemma {:induction false} BuiltOrder(world: Arrivals, done: seq<nat>, ns: seq<nat>)
    requires Increasing(done + ns)
    ensures Increasing(done + Built(world, ns))
    decreases |ns|
  {
    if ns != [] {
      var init, n := ns[..|ns| - 1], ns[|ns| - 1];
      assert ns == init + [n];
      BelowLast(done, init, n);
      BuiltOrder(world, done, init);
      if world(n).builds {
        BuiltIn(world, init);
        forall m <- done + Built(world, init) ensures m < n {
          assert m in done || m in init;
        }
        IncreasingSnoc(done + Built(world, init), n);
        assert done + Built(world, ns) == (done + Built(world, init)) + [n];
      }
    }
  }

  /** Built and broken events are all events, and none is both. */
  lemma {:induction false} BatchParts(world: Arrivals, done: seq<nat>, ns: seq<nat>)
    requires Increasing(done + ns)
    ensures forall n: nat :: n in ns <==> n in Built(world, ns) || n in Broken(world, ns)
    ensures forall n <- Broken(world, ns) :: n !in Built(world, ns) && n !in done
    ensures |Elements(Broken(world, ns))| == |Broken(world, ns)|
    decreases |ns|
  {
    if ns != [] {
      var init, n := ns[..|ns| - 1], ns[|ns| - 1];
      assert ns == init + [n];
      BelowLast(done, init, n);
      BatchParts(world, done, init);
      assert n !in init && n !in done;
      if !world(n).builds {
        assert Elements(Broken(world, ns)) == Elements(Broken(world, init)) + {n};
      }
    }
  }

  lemma {:induction false} TakeKeepsInv(s: State, world: Arrivals)
    requires Inv(s, world) && CanStep(s, Take)
    ensures Inv(TakeEvent(s, world), world)
  {
    var t := TakeEvent(s, world);
    if Accepts(world, s.buffer, s.taken) {
      assert Line(t) == Line(s) + [s.taken];
      IncreasingSnoc(Line(s), s.taken);
    } else {
      assert s.taken !in s.dropped;
    }
  }

  lemma {:induction false} FinishKeepsInv(s: State, world: Arrivals, who: Who)
    requires Inv(s, world) && PlaceOf(s, who) == Committing
    ensures Inv(Finish(s, world, who, s.batch), world)
  {
    TerminalIdsConcat(world, s.finished, s.batch);
    assert Line(Finish(s, world, who, s.batch)) == Line(s);
  }

  lemma {:induction false} FailKeepsInv(s: State, world: Arrivals, who: Who)
    requires Inv(s, world) && CanStep(s, Fail(who))
    ensures Inv(Apply(s, world, Fail(who)), world)
  {
    assert Line(Apply(s, world, Fail(who))) == Line(s);
  }

  /** The line before and after the buffer is taken and its broken events dropped. */
  lemma {:induction false} FlushConserves(s: State, t: State, world: Arrivals)
    requires Conserved(s) && s.batch == [] && t.taken == s.taken
    requires Line(t) == s.finished + Built(world, s.buffer)
    requires t.dropped == s.dropped + Elements(Broken(world, s.buffer))
    requires t.droppedCount == s.droppedCount + |Broken(world, s.buffer)|
    ensures Conserved(t)
  {
    assert Line(s) == s.finished + s.buffer;
    BuiltOrder(world, s.finished, s.buffer);
    BatchParts(world, s.finished, s.buffer);
    assert s.dropped !! Elements(Broken(world, s.buffer));
  }

  lemma {:induction false} FlushKeepsInv(s: State, world: Arrivals, who: Who)
    requires Inv(s, world) && CanStep(s, Acquire(who))
    ensures Inv(Flush(s, world, who), world)
  {
    if s.buffer != [] {
      var batch := Built(world, s.buffer);
      FlushConserves(s, Flush(s, world, who), world);
      TerminalIdsConcat(world, s.finished, batch);
    }
  }

  lemma {:induction false} StepKeepsInv(s: State, world: Arrivals, step: Step)
    requires Inv(s, world) && CanStep(s, step)
    ensures Inv(Apply(s, world, step), world)
  {
    match step
    case Take => TakeKeepsInv(s, world);
    case Wake => assert Line(Apply(s, world, Wake)) == Line(s);
    case Acquire(who) => FlushKeepsInv(s, world, who);
    case Succeed(who) => FinishKeepsInv(s, world, who);
    case Fail(who) => FailKeepsInv(s, world, who);
    case Return(who) => assert Line(Apply(s, world, step)) == Line(s);
  }

  function Execute(world: Arrivals, steps: seq<Step>): Option<State> {
    if steps == [] then Some(START)
    else
      match Execute(world, steps[..|steps| - 1])
      case None => None
      case Some(s) => if CanStep(s, steps[|steps| - 1]) then Some(Apply(s, world, steps[|steps| - 1])) else None
  }

  lemma {:induction false} ReachableInv(world: Arrivals, steps: seq<Step>)
    requires Execute(world, steps).Some?
    ensures Inv(Execute(world, steps).value, world)
    decreases |steps|
  {
    if steps != [] {
      ReachableInv(world, steps[..|steps| - 1]);
      StepKeepsInv(Execute(world, steps[..|steps| - 1]).value, world, steps[|steps| - 1]);
    }
  }

  /**
    After any interleaving: each taken event is dropped and counted, finished, in flight or waiting, and only one
    of these; the last three keep arrival order; the terminal ids of finished events were handed on, each once;
    and at most 500 events wait while a commit is in flight.
   */
  lemma {:induction false} PipelineConserves(world: Arrivals, steps: seq<Step>, s: State)
    requires Execute(world, steps) == Some(s)
    ensures forall n: nat :: n < s.taken <==> n in s.dropped || n in s.finished || n in s.batch || n in s.buffer
    ensures s.droppedCount == |s.dropped| && Increasing(s.finished + s.batch + s.buffer)
    ensures s.dropped !! Elements(s.finished + s.batch + s.buffer)
    ensures s.handed == TerminalIds(world, s.finished)
    ensures s.consumer == Committing || s.timer == Committing ==> |s.buffer| <= BUFFER_SIZE_THRESHOLD
    ensures !(s.consumer == Committing && s.timer == Committing)
  {
    ReachableInv(world, steps);
    assert Line(s) == s.finished + s.batch + s.buffer;
    forall n: nat ensures n in Line(s) <==> n in s.finished || n in s.batch || n in s.buffer {
    }
  }
}
