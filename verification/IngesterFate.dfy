/** What becomes of each event: which ones are dropped, that a terminal one is flushed at once, and that all can end. */
module IngesterFate {
  import opened Options
  import opened Ingester

  // ---- Who is dropped ----

  /** Valid, and taken while fewer than 10,000 events waited. */
  predicate IsAdmitted(s: State, world: Arrivals, n: nat) {
    n < |s.found| && world(n).valid && s.found[n] < 10_000
  }

  ghost predicate Sifted(s: State, world: Arrivals) {
    && |s.found| == s.taken
    && (forall n <- s.dropped :: n < s.taken && !(IsAdmitted(s, world, n) && world(n).builds))
    && (forall n <- Line(s) :: IsAdmitted(s, world, n))
    && (forall n <- s.finished + s.batch :: world(n).builds)
  }

  lemma {:induction false} BuiltBuilds(world: Arrivals, ns: seq<nat>)
    ensures forall n <- Built(world, ns) :: world(n).builds && n in ns
    ensures forall n <- Broken(world, ns) :: !world(n).builds && n in ns
  {
    if ns != [] {
      assert ns == ns[..|ns| - 1] + [ns[|ns| - 1]];
      BuiltBuilds(world, ns[..|ns| - 1]);
    }
  }

  lemma {:induction false} TakeKeepsSifted(s: State, world: Arrivals)
    requires Sifted(s, world)
    ensures Sifted(TakeEvent(s, world), world)
  {
    var t := TakeEvent(s, world);
    forall n <- Line(t) ensures IsAdmitted(t, world, n) {
      assert n in Line(s) ==> IsAdmitted(s, world, n);
    }
    forall n <- t.dropped ensures n < t.taken && !(IsAdmitted(t, world, n) && world(n).builds) {
      assert n in s.dropped || n == s.taken;
    }
  }

  /** What stood in the line before still does, or is dropped because it does not build. */
  lemma {:induction false} SiftedAfter(s: State, t: State, world: Arrivals)
    requires Sifted(s, world) && t.taken == s.taken && t.found == s.found
    requires forall n <- Line(t) :: n in Line(s)
    requires forall n <- t.dropped :: n in s.dropped || (n in Line(s) && !world(n).builds)
    requires forall n <- t.finished + t.batch :: world(n).builds
    ensures Sifted(t, world)
  {
  }

  lemma {:induction false} FlushKeepsSifted(s: State, world: Arrivals, who: Who)
    requires Sifted(s, world) && s.batch == []
    ensures Sifted(Flush(s, world, who), world)
  {
    BuiltBuilds(world, s.buffer);
    SiftedAfter(s, Flush(s, world, who), world);
  }

  lemma {:induction false} StepKeepsSifted(s: State, world: Arrivals, step: Step)
    requires Inv(s, world) && Sifted(s, world) && CanStep(s, step)
    ensures Sifted(Apply(s, world, step), world)
  {
    match step
    case Take => TakeKeepsSifted(s, world);
    case Acquire(who) => FlushKeepsSifted(s, world, who);
    case _ => SiftedAfter(s, Apply(s, world, step), world);
  }

  lemma {:induction false} ReachableSifted(world: Arrivals, steps: seq<Step>)
    requires Execute(world, steps).Some?
    ensures Sifted(Execute(world, steps).value, world)
    decreases |steps|
  {
    if steps != [] {
      ReachableInv(world, steps[..|steps| - 1]);
      ReachableSifted(world, steps[..|steps| - 1]);
      StepKeepsSifted(Execute(world, steps[..|steps| - 1]).value, world, steps[|steps| - 1]);
    }
  }

  /**
    An event is dropped only if it is malformed or cannot be built, or came while 10,000 others waited; and such an
    event is never finished.
   */
  lemma {:induction false} DroppedOnlyIf(world: Arrivals, steps: seq<Step>, s: State, n: nat)
    requires Execute(world, steps) == Some(s) && n < s.taken
    ensures |s.found| == s.taken
    ensures n in s.dropped ==> !world(n).valid || !world(n).builds || s.found[n] >= 10_000
    ensures !world(n).valid || s.found[n] >= 10_000 ==> n in s.dropped
    ensures !world(n).builds ==> n in s.dropped || n in s.buffer
    ensures n in s.finished || n in s.batch ==> world(n).valid && world(n).builds
  {
    ReachableSifted(world, steps);
    PipelineConserves(world, steps, s);
    assert n in s.finished + s.batch <==> n in s.finished || n in s.batch;
    assert n in Line(s) <==> n in s.finished || n in s.batch || n in s.buffer;
  }

  // ---- How many can wait ----

  lemma {:induction false} IncreasingFits(ns: seq<nat>, bound: nat)
    requires Increasing(ns) && forall n <- ns :: n < bound
    ensures |ns| <= bound
    decreases |ns|
  {
    if ns != [] {
      var init, last := ns[..|ns| - 1], ns[|ns| - 1];
      assert ns == init + [last] && last in ns;
      IncreasingInit(init, last);
      IncreasingFits(init, last);
    }
  }

  /** No more events wait than were taken. */
  lemma {:induction false} BufferFits(s: State, world: Arrivals)
    requires Inv(s, world)
    ensures |s.buffer| <= s.taken
  {
    IncreasingFits(Line(s), s.taken);
  }

  ghost predicate Found(s: State) {
    |s.found| == s.taken && forall n: nat :: n < s.taken ==> s.found[n] <= n
  }

  lemma {:induction false} StepKeepsFound(s: State, world: Arrivals, step: Step)
    requires Found(s) && CanStep(s, step) && |s.buffer| <= s.taken
    ensures Found(Apply(s, world, step))
  {
  }

  lemma {:induction false} FoundFits(world: Arrivals, steps: seq<Step>, s: State)
    requires Execute(world, steps) == Some(s)
    ensures Found(s)
    decreases |steps|
  {
    if steps != [] {
      var before := Execute(world, steps[..|steps| - 1]).value;
      FoundFits(world, steps[..|steps| - 1], before);
      ReachableInv(world, steps[..|steps| - 1]);
      BufferFits(before, world);
      StepKeepsFound(before, world, steps[|steps| - 1]);
    }
  }

  /** Of the first 10,000 events only malformed ones are lost. */
  lemma {:induction false} GoodEventsSurvive(world: Arrivals, steps: seq<Step>, s: State)
    requires Execute(world, steps) == Some(s) && s.taken <= 10_000
    requires forall n: nat :: n < s.taken ==> world(n).valid && world(n).builds
    ensures s.dropped == {} && s.droppedCount == 0
  {
    FoundFits(world, steps, s);
    ReachableSifted(world, steps);
    PipelineConserves(world, steps, s);
  }

  // ---- A terminal event does not wait for the timer ----

  ghost predicate Prompt(s: State, world: Arrivals) {
    && s.flushedTo <= s.taken
    && (s.hasTerminal ==> s.consumer == WantsLock && s.buffer != [])
    && (forall n <- s.batch :: n < s.flushedTo)
    && (forall n <- s.buffer :: n < s.taken && (n >= s.flushedTo && world(n).terminal ==> s.hasTerminal))
  }

  lemma {:induction false} FlushKeepsPrompt(s: State, world: Arrivals, who: Who)
    requires Prompt(s, world) && PlaceOf(s, who) == WantsLock && s.batch == []
    ensures Prompt(Flush(s, world, who), world)
  {
    BuiltBuilds(world, s.buffer);
  }

  lemma {:induction false} StepKeepsPrompt(s: State, world: Arrivals, step: Step)
    requires Inv(s, world) && Prompt(s, world) && CanStep(s, step)
    ensures Prompt(Apply(s, world, step), world)
  {
    if step.Acquire? { FlushKeepsPrompt(s, world, step.who); }
  }

  /** Unless it is retried behind a failed commit, a waiting terminal event has the consumer at the lock already. */
  lemma {:induction false} TerminalFlushesAtOnce(world: Arrivals, steps: seq<Step>, s: State)
    requires Execute(world, steps) == Some(s)
    ensures Prompt(s, world)
    ensures forall n <- s.buffer :: n >= s.flushedTo && world(n).terminal ==> s.consumer == WantsLock
    decreases |steps|
  {
    if steps != [] {
      var before := Execute(world, steps[..|steps| - 1]).value;
      TerminalFlushesAtOnce(world, steps[..|steps| - 1], before);
      ReachableInv(world, steps[..|steps| - 1]);
      StepKeepsPrompt(before, world, steps[|steps| - 1]);
    }
  }

  // ---- What a step may do ----

  /** An event is finished by its commit, or without one if it asks for no query. */
  lemma {:induction false} FinishedByCommit(s: State, world: Arrivals, step: Step, n: nat)
    requires Inv(s, world) && CanStep(s, step)
    requires n in Apply(s, world, step).finished && n !in s.finished
    ensures if step.Succeed? then n in s.batch else step.Acquire? && n in s.buffer && !world(n).queries
  {
    if step.Acquire? {
      BuiltBuilds(world, s.buffer);
      var batch := Built(world, s.buffer);
      assert n in batch;
      var k :| 0 <= k < |batch| && batch[k] == n;
    }
  }

  /** There is never an empty transaction. */
  lemma {:induction false} CommitsHaveQueries(world: Arrivals, steps: seq<Step>, s: State)
    requires Execute(world, steps) == Some(s)
    ensures s.lock.Some? ==> exists n :: n in s.batch && world(n).queries
    decreases |steps|
  {
    if steps != [] {
      var before, step := Execute(world, steps[..|steps| - 1]).value, steps[|steps| - 1];
      CommitsHaveQueries(world, steps[..|steps| - 1], before);
      ReachableInv(world, steps[..|steps| - 1]);
      if step.Acquire? && s.lock.Some? {
        var k :| 0 <= k < |s.batch| && world(s.batch[k]).queries;
        assert s.batch[k] in s.batch;
      }
    }
  }

  /** Whoever hands ids on is in the callback from then on, without the lock; the timer goes for it only with events. */
  lemma {:induction false} CallbackHoldsNoLock(s: State, world: Arrivals, step: Step)
    requires Inv(s, world) && CanStep(s, step)
    ensures var next := Apply(s, world, step);
      && (next.handed != s.handed <==> exists who :: PlaceOf(next, who) == Calling && PlaceOf(s, who) != Calling)
      && (next.handed != s.handed ==> next.lock.None?)
      && (next.timer == WantsLock && s.timer != WantsLock ==> s.buffer != [])
  {
    var next := Apply(s, world, step);
    if step.Succeed? || step.Acquire? {
      assert PlaceOf(next, step.who) == Calling <==> next.handed != s.handed;
    }
  }

  // ---- Which ids are handed on ----

  /** The events of a task that has ended, with an id. */
  function Reported(world: Arrivals, ns: seq<nat>): set<nat> {
    set n | n in ns && world(n).terminal && world(n).uuid != ""
  }

  lemma {:induction false} ReportedSnoc(world: Arrivals, init: seq<nat>, last: nat)
    requires last !in init
    ensures |Reported(world, init + [last])| ==
      |Reported(world, init)| + if world(last).terminal && world(last).uuid != "" then 1 else 0
  {
    if world(last).terminal && world(last).uuid != "" {
      assert Reported(world, init + [last]) == Reported(world, init) + {last};
    } else {
      assert Reported(world, init + [last]) == Reported(world, init);
    }
  }

  /** The id of an event stands behind those of the events before it. */
  lemma {:induction false} IdsInOrder(world: Arrivals, ns: seq<nat>)
    requires Increasing(ns)
    ensures |TerminalIds(world, ns)| == |Reported(world, ns)|
    ensures forall k :: 0 <= k < |ns| && ns[k] in Reported(world, ns) ==>
      var at := |Reported(world, ns[..k])|;
      at < |TerminalIds(world, ns)| && TerminalIds(world, ns)[at] == world(ns[k]).uuid
    decreases |ns|
  {
    if ns != [] {
      var init, last := ns[..|ns| - 1], ns[|ns| - 1];
      assert ns == init + [last];
      IncreasingInit(init, last);
      IdsInOrder(world, init);
      ReportedSnoc(world, init, last);
      forall k | 0 <= k < |ns| && ns[k] in Reported(world, ns)
        ensures |Reported(world, ns[..k])| < |TerminalIds(world, ns)|
        ensures TerminalIds(world, ns)[|Reported(world, ns[..k])|] == world(ns[k]).uuid
      {
        if k < |init| {
          assert ns[..k] == init[..k] && ns[k] == init[k] && ns[k] in Reported(world, init);
        } else {
          assert ns[..k] == init;
        }
      }
    }
  }

  /** The callback gets the id of every finished event that ended a task, once and in order, and nothing else. */
  lemma {:induction false} IdsHandedOn(world: Arrivals, steps: seq<Step>, s: State)
    requires Execute(world, steps) == Some(s)
    ensures |s.handed| == |Reported(world, s.finished)|
    ensures forall k :: 0 <= k < |s.finished| && s.finished[k] in Reported(world, s.finished) ==>
      var at := |Reported(world, s.finished[..k])|;
      at < |s.handed| && s.handed[at] == world(s.finished[k]).uuid
  {
    PipelineConserves(world, steps, s);
    var line := s.finished + s.batch + s.buffer;
    forall j, k | 0 <= j < k < |s.finished| ensures s.finished[j] < s.finished[k] {
      assert line[j] < line[k];
    }
    IdsInOrder(world, s.finished);
  }

  // ---- Everything can end ----

  lemma {:induction false} Extend(world: Arrivals, steps: seq<Step>, s: State, step: Step)
    returns (more: seq<Step>, next: State)
    requires Execute(world, steps) == Some(s) && CanStep(s, step)
    ensures Execute(world, more) == Some(next) && next == Apply(s, world, step) && more == steps + [step]
  {
    more, next := steps + [step], Apply(s, world, step);
    assert more[..|more| - 1] == steps;
  }

  /** The run goes on without new events and with nothing but commits that succeed. */
  ghost predicate GoesOn(steps: seq<Step>, more: seq<Step>) {
    && |steps| <= |more| && more[..|steps|] == steps
    && forall k :: |steps| <= k < |more| ==> !more[k].Take? && !more[k].Fail?
  }

  /** The commit in flight ends. */
  lemma {:induction false} CommitEnds(world: Arrivals, steps: seq<Step>, s: State)
    returns (more: seq<Step>, t: State)
    requires Execute(world, steps) == Some(s)
    ensures Execute(world, more) == Some(t) && GoesOn(steps, more)
    ensures t.taken == s.taken && t.lock.None? && t.batch == [] && t.buffer == s.buffer
  {
    ReachableInv(world, steps);
    more, t := steps, s;
    if s.lock.Some? {
      more, t := Extend(world, steps, s, Succeed(s.lock.value));
    }
  }

  /** With the lock free, whoever waits for it takes it, or the timer wakes up for it. */
  lemma {:induction false} SomeoneWaits(world: Arrivals, steps: seq<Step>, s: State)
    returns (more: seq<Step>, t: State, who: Who)
    requires Execute(world, steps) == Some(s) && s.lock.None? && s.buffer != []
    ensures Execute(world, more) == Some(t) && GoesOn(steps, more) && CanStep(t, Acquire(who))
    ensures t.taken == s.taken && t.buffer == s.buffer && t.batch == s.batch
  {
    ReachableInv(world, steps);
    more, t := steps, s;
    if s.consumer == WantsLock {
      who := Consumer;
    } else {
      who := Timer;
      if s.timer == Calling { more, t := Extend(world, more, t, Return(Timer)); }
      if t.timer == Idle { more, t := Extend(world, more, t, Wake); }
    }
  }

  lemma {:induction false} GoesOnTrans(a: seq<Step>, b: seq<Step>, c: seq<Step>)
    requires GoesOn(a, b) && GoesOn(b, c)
    ensures GoesOn(a, c)
  {
    assert c[..|a|] == c[..|b|][..|a|];
    forall k | |a| <= k < |c| ensures !c[k].Take? && !c[k].Fail? {
      assert k < |b| ==> c[k] == c[..|b|][k];
    }
  }

  /** The waiting events are flushed. */
  lemma {:induction false} BufferEnds(world: Arrivals, steps: seq<Step>, s: State) returns (more: seq<Step>, t: State)
    requires Execute(world, steps) == Some(s) && s.lock.None? && s.batch == []
    ensures Execute(world, more) == Some(t) && GoesOn(steps, more)
    ensures t.taken == s.taken && t.buffer == []
  {
    more, t := steps, s;
    if s.buffer != [] {
      var ready, u, who := SomeoneWaits(world, steps, s);
      more, t := Extend(world, ready, u, Acquire(who));
      GoesOnTrans(steps, ready, more);
    }
  }

  /** From every reachable state, without new events, each event taken so far can come to its end. */
  lemma {:induction false} EverythingCanEnd(world: Arrivals, steps: seq<Step>, s: State)
    returns (more: seq<Step>, t: State)
    requires Execute(world, steps) == Some(s)
    ensures Execute(world, more) == Some(t) && GoesOn(steps, more) && t.taken == s.taken
    ensures forall n: nat :: n < s.taken <==> n in t.dropped || n in t.finished
  {
    var first, u := CommitEnds(world, steps, s);
    var second, v := BufferEnds(world, first, u);
    more, t := CommitEnds(world, second, v);
    GoesOnTrans(steps, first, second);
    GoesOnTrans(steps, second, more);
    PipelineConserves(world, more, t);
  }
}
