/**
  Execution observations: the poller rewrites an unchanged one only every minute (server/workers/poller.py), and
  readers expire it after two (src/utils/task-execution.ts). Times are milliseconds of one clock.
 */
module ExecutionObservation {
  import opened Options

  type Time = int

  const REFRESH := 60_000
  const MAX_AGE := 120_000

  /** What polls and readers see of a STARTED task. */
  datatype Task = Task(lastUpdated: Time, active: Option<bool>, observedAt: Option<Time>)

  datatype Execution = Active | NotActive | Unknown

  // ---- The reader ----

  predicate IsCurrent(observedAt: Option<Time>, now: Time, maxAge: nat) {
    observedAt.Some? && now - observedAt.value <= maxAge && observedAt.value - now <= maxAge
  }

  /** getTaskExecution */
  function Read(t: Task, now: Time, maxAge: nat): Execution {
    if !IsCurrent(t.observedAt, now, maxAge) || t.observedAt.value < t.lastUpdated then Unknown
    else if t.active == Some(true) then Active
    else if t.active == Some(false) then NotActive
    else Unknown
  }

  // ---- The poll ----

  /** The WHERE of the poll's UPDATE, for a task of the worker that answered. */
  predicate IsDue(t: Task, listed: bool, at: Time, refresh: nat) {
    && t.lastUpdated <= at
    && (|| t.active != Some(listed) || t.observedAt.None? || t.observedAt.value < t.lastUpdated
        || t.observedAt.value < at - refresh)
  }

  function Observe(t: Task, listed: bool, at: Time, refresh: nat): Task {
    if IsDue(t, listed, at, refresh) then t.(active := Some(listed), observedAt := Some(at)) else t
  }

  // ---- A run of polls ----

  /** `asked` is when the last applied poll was sent. */
  datatype State = State(task: Task, asked: Time, now: Time)

  datatype Step =
    | Pass(ticks: nat)
    | Poll(listed: bool, at: Time)    // applied now, asked at some earlier moment
    | Touch(updated: Time)            // an event moves last_updated forward

  /** A poll is applied within `gap` of the moment the previous one was sent. */
  predicate CanStep(s: State, step: Step, gap: nat) {
    match step
    case Pass(ticks) => s.now + ticks <= s.asked + gap
    case Poll(_, at) => s.asked <= at <= s.now
    case Touch(updated) => s.task.lastUpdated <= updated
  }

  function Apply(s: State, step: Step, refresh: nat): State {
    match step
    case Pass(ticks) => s.(now := s.now + ticks)
    case Poll(listed, at) => State(Observe(s.task, listed, at, refresh), at, s.now)
    case Touch(updated) => s.(task := s.task.(lastUpdated := updated))
  }

  function Execute(s: State, steps: seq<Step>, gap: nat, refresh: nat): Option<State> {
    if steps == [] then Some(s)
    else
      match Execute(s, steps[..|steps| - 1], gap, refresh)
      case None => None
      case Some(t) => if CanStep(t, steps[|steps| - 1], gap) then Some(Apply(t, steps[|steps| - 1], refresh)) else None
  }

  /** Every poll lists the task, or none does, and nothing else touches it. */
  predicate AllSay(listed: bool, steps: seq<Step>) {
    forall step <- steps :: step.Pass? || (step.Poll? && step.listed == listed)
  }

  /** No poll lists the task; events may touch it. */
  predicate NoneListed(steps: seq<Step>) {
    forall step <- steps :: step.Poll? ==> !step.listed
  }

  /** A poll of a started task whose answer is stored, applied at once or later. */
  predicate IsFirstPoll(listed: bool, s: State, gap: nat, refresh: nat) {
    && s.task.observedAt.Some? && s.task.active == Some(listed) && s.task.lastUpdated <= s.task.observedAt.value
    && s.task.observedAt.value == s.asked <= s.now <= s.asked + gap
  }

  /** The stored observation says the same and is at most `refresh` older than the last poll. */
  predicate IsFresh(listed: bool, s: State, gap: nat, refresh: nat) {
    && s.task.active == Some(listed) && s.task.observedAt.Some? && s.task.lastUpdated <= s.task.observedAt.value
    && s.asked - refresh <= s.task.observedAt.value <= s.asked <= s.now <= s.asked + gap
  }

  lemma {:induction false} ObservationIsFresh(listed: bool, s: State, steps: seq<Step>, gap: nat, refresh: nat)
    requires IsFirstPoll(listed, s, gap, refresh) && AllSay(listed, steps) && Execute(s, steps, gap, refresh).Some?
    ensures IsFresh(listed, Execute(s, steps, gap, refresh).value, gap, refresh)
    decreases |steps|
  {
    if steps != [] {
      assert steps == steps[..|steps| - 1] + [steps[|steps| - 1]];
      ObservationIsFresh(listed, s, steps[..|steps| - 1], gap, refresh);
    }
  }

  function Reading(listed: bool): Execution {
    if listed then Active else NotActive
  }

  ghost predicate Reads(listed: bool, s: State, maxAge: nat) {
    Read(s.task, s.now, maxAge) == Reading(listed)
  }

  /** Every run of polls that say the same reads what they say at every moment. */
  ghost predicate AlwaysReads(listed: bool, gap: nat, refresh: nat, maxAge: nat) {
    forall s: State, steps: seq<Step> ::
      IsFirstPoll(listed, s, gap, refresh) && AllSay(listed, steps) && Execute(s, steps, gap, refresh).Some? ==>
      Reads(listed, Execute(s, steps, gap, refresh).value, maxAge)
  }

  lemma {:induction false} Extend(
    listed: bool, s: State, steps: seq<Step>, t: State, step: Step, gap: nat, refresh: nat)
    returns (more: seq<Step>, next: State)
    requires Execute(s, steps, gap, refresh) == Some(t) && CanStep(t, step, gap)
    requires AllSay(listed, steps) && AllSay(listed, [step])
    ensures Execute(s, more, gap, refresh) == Some(next) && next == Apply(t, step, refresh) && AllSay(listed, more)
  {
    more, next := steps + [step], Apply(t, step, refresh);
    assert step in [step];
    assert more[..|more| - 1] == steps;
  }

  function First(listed: bool): State {
    State(Task(0, Some(listed), Some(0)), 0, 0)
  }

  /** A poll at every tick up to `refresh` leaves the first observation in place. */
  lemma {:induction false} PollsKeepFirst(listed: bool, k: nat, gap: nat, refresh: nat)
    returns (steps: seq<Step>, t: State)
    requires k <= refresh && gap > 0
    ensures Execute(First(listed), steps, gap, refresh) == Some(t) && AllSay(listed, steps)
    ensures t == State(First(listed).task, k, k)
  {
    if k == 0 {
      steps, t := [], First(listed);
    } else {
      steps, t := PollsKeepFirst(listed, k - 1, gap, refresh);
      steps, t := Extend(listed, First(listed), steps, t, Pass(1), gap, refresh);
      steps, t := Extend(listed, First(listed), steps, t, Poll(listed, k), gap, refresh);
    }
  }

  /**
    A task that every poll lists reads active at every moment, and one that none lists reads not active, exactly when
    gap and refresh together stay within the expiry.
   */
  lemma {:induction false} AlwaysReadsIff(listed: bool, gap: nat, refresh: nat, maxAge: nat)
    requires gap > 0
    ensures AlwaysReads(listed, gap, refresh, maxAge) <==> gap + refresh <= maxAge
  {
    if gap + refresh <= maxAge {
      forall s: State, steps: seq<Step> |
        IsFirstPoll(listed, s, gap, refresh) && AllSay(listed, steps) && Execute(s, steps, gap, refresh).Some?
        ensures Reads(listed, Execute(s, steps, gap, refresh).value, maxAge)
      {
        ObservationIsFresh(listed, s, steps, gap, refresh);
      }
    } else {
      var steps, t := PollsKeepFirst(listed, refresh, gap, refresh);
      steps, t := Extend(listed, First(listed), steps, t, Pass(gap), gap, refresh);
      assert IsFirstPoll(listed, First(listed), gap, refresh) && Read(t.task, t.now, maxAge) == Unknown;
    }
  }

  /** With the constants of both sides: polls applied within a minute of the previous one. */
  lemma {:induction false} MinutePollsRead(listed: bool, gap: nat)
    requires gap > 0
    ensures AlwaysReads(listed, gap, REFRESH, MAX_AGE) <==> gap <= 60_000
  {
    AlwaysReadsIff(listed, gap, REFRESH, MAX_AGE);
  }

  /** A poll that is as new as the task's last event is stored, or an equal one not older than the refresh is kept. */
  lemma {:induction false} PollIsStored(s: State, listed: bool, at: Time, gap: nat, refresh: nat)
    requires CanStep(s, Poll(listed, at), gap) && s.task.lastUpdated <= at
    ensures var t := Apply(s, Poll(listed, at), refresh).task;
      && t.active == Some(listed) && t.observedAt.Some? && t.lastUpdated <= t.observedAt.value
      && (t.observedAt == Some(at) || (t.observedAt == s.task.observedAt && at - refresh <= t.observedAt.value))
  {
  }

  /** A poll that was sent before the task's last event stores nothing. */
  lemma {:induction false} OldPollStoresNothing(s: State, listed: bool, at: Time, refresh: nat)
    requires at < s.task.lastUpdated
    ensures Apply(s, Poll(listed, at), refresh).task == s.task
  {
  }

  /** The expiry is the tolerance in both directions: a reader's clock may be as far behind as ahead. */
  lemma {:induction false} ReadIsSymmetric(t: Task, distance: nat, maxAge: nat)
    requires t.observedAt.Some? && t.active.Some? && t.lastUpdated <= t.observedAt.value
    ensures Read(t, t.observedAt.value - distance, maxAge) == Read(t, t.observedAt.value + distance, maxAge)
    ensures Read(t, t.observedAt.value - distance, maxAge) ==
      if distance > maxAge then Unknown else if t.active == Some(true) then Active else NotActive
  {
    if t.active.value {
      assert t.active == Some(true);
    } else {
      assert t.active == Some(false);
    }
  }

  // ---- A task that is missing ----

  /** No observation is from after the last poll was sent. */
  predicate IsPast(s: State) {
    s.task.observedAt.Some? ==> s.task.observedAt.value <= s.asked
  }

  /** The last poll did not list the task: what is stored is negative, absent, or older than the task's last event. */
  predicate IsMissing(s: State) {
    IsPast(s) && (s.task.active != Some(true) || s.task.observedAt.None? ||
      s.task.observedAt.value < s.task.lastUpdated)
  }

  lemma {:induction false} MissingStays(s: State, steps: seq<Step>, gap: nat, refresh: nat)
    requires IsMissing(s) && NoneListed(steps) && Execute(s, steps, gap, refresh).Some?
    ensures IsMissing(Execute(s, steps, gap, refresh).value)
    decreases |steps|
  {
    if steps != [] {
      assert steps == steps[..|steps| - 1] + [steps[|steps| - 1]];
      MissingStays(s, steps[..|steps| - 1], gap, refresh);
    }
  }

  /**
    From a poll that does not list the task until one lists it again, it never reads active, even where the poll
    was older than the task's last event and stored nothing.
   */
  lemma {:induction false} MissingNeverActive(
    s: State, at: Time, steps: seq<Step>, gap: nat, refresh: nat, maxAge: nat, t: State)
    requires IsPast(s) && CanStep(s, Poll(false, at), gap) && NoneListed(steps)
    requires Execute(Apply(s, Poll(false, at), refresh), steps, gap, refresh) == Some(t)
    ensures Read(t.task, t.now, maxAge) != Active
  {
    MissingStays(Apply(s, Poll(false, at), refresh), steps, gap, refresh);
  }
}
