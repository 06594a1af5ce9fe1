/**
  Progress of the leader election: an instance that has started never stops waiting for its turn, a lock that is free
  is taken in bounded time, and whoever takes it leads until it stops or a request fails.
 */
module ElectionProgress {
  import opened Options
  import opened LeaderElection

  // ---- Nobody stops trying ----

  /** An instance that has started and is not stopped. */
  predicate IsRunning(l: Local) {
    l != NEW && !l.stopped
  }

  /** A leader has its heartbeat; anyone else has a request on its way or a poll to come. */
  predicate IsWaiting(l: Local, tm: Timing) {
    && (l.status == Leader <==> l.isLeader) && !l.releasing
    && if l.isLeader then l.heartbeatAt.Some? && l.standbyAt.None? && (l.request.NoRequest? || l.request.Beat?)
       else
         && l.heartbeatAt.None? && !l.request.Beat? && (l.request.NoRequest? ==> l.standbyAt.Some?)
         && (l.request.Acquire? && l.request.polling ==>
               l.standbyAt.Some? && l.standbyAt.value <= l.request.sent + tm.lifetime)
  }

  /** Timers and requests are never overdue, and lie within their periods. */
  predicate IsTimely(l: Local, tm: Timing, now: Time) {
    && MayReach(l, tm, now) && (l.request != NoRequest ==> l.request.sent <= now)
    && (l.heartbeatAt.Some? ==> l.heartbeatAt.value <= now + tm.period)
    && (l.standbyAt.Some? ==> l.standbyAt.value <= now + tm.lifetime)
  }

  predicate IsLive(l: Local, tm: Timing, now: Time) {
    IsTimely(l, tm, now) && (IsRunning(l) ==> IsWaiting(l, tm))
  }

  ghost predicate Live(s: State, tm: Timing) {
    forall i: nat :: i < |s.locals| ==> IsLive(s.locals[i], tm, s.now)
  }

  lemma {:induction false} RepliesKeepLive(l: Local, tm: Timing, now: Time, acquired: bool)
    requires IsLive(l, tm, now) && l != NEW
    ensures l.request.Acquire? ==> IsLive(AcquireReplied(l, tm, now, acquired), tm, now)
    ensures l.request.Beat? ==> IsLive(BeatReplied(l, now, acquired), tm, now)
    ensures l.request.Ask? ==> IsLive(AskReplied(l, tm, now), tm, now)
  {
  }

  lemma {:induction false} LocalKeepsLive(s: State, tm: Timing, step: Step)
    requires Live(s, tm) && CanStep(s, tm, step) && !step.Pass?
    ensures |Apply(s, tm, step).locals| == |s.locals| && IsLive(Apply(s, tm, step).locals[step.i], tm, s.now)
  {
    assert IsLive(s.locals[step.i], tm, s.now);
    if step.AcquireAnswers? || step.BeatAnswers? || step.AskAnswers? {
      var done := if step.AskAnswers? then false else !step.failed && s.locals[step.i].request.done == Some(true);
      RepliesKeepLive(s.locals[step.i], tm, s.now, done);
    }
  }

  lemma {:induction false} StepKeepsLive(s: State, tm: Timing, step: Step)
    requires Live(s, tm) && CanStep(s, tm, step)
    ensures Live(Apply(s, tm, step), tm)
  {
    var next := Apply(s, tm, step);
    if !step.Pass? { LocalKeepsLive(s, tm, step); }
    forall i: nat | i < |next.locals| ensures IsLive(next.locals[i], tm, next.now) {
      assert IsLive(s.locals[i], tm, s.now);
      assert s.locals[i] in s.locals;
    }
  }

  lemma {:induction false} ReachableLive(s: State, tm: Timing, steps: seq<Step>)
    requires IsInitial(s) && Execute(s, tm, steps).Some?
    ensures Live(Execute(s, tm, steps).value, tm)
    decreases |steps|
  {
    if steps == [] {
      forall i: nat | i < |s.locals| ensures s.locals[i] == NEW {
        assert s.locals[i] in s.locals;
      }
    } else {
      ReachableLive(s, tm, steps[..|steps| - 1]);
      StepKeepsLive(Execute(s, tm, steps[..|steps| - 1]).value, tm, steps[|steps| - 1]);
    }
  }

  /** In every reachable state an instance that runs has a request, a heartbeat or a poll ahead of it. */
  lemma {:induction false} NobodyGivesUp(s: State, tm: Timing, steps: seq<Step>, t: State, i: nat)
    requires IsInitial(s) && Execute(s, tm, steps) == Some(t) && i < |t.locals| && IsRunning(t.locals[i])
    ensures var l := t.locals[i];
      if l.isLeader then l.heartbeatAt.Some? else l.request != NoRequest || l.standbyAt.Some?
  {
    ReachableLive(s, tm, steps);
    assert IsLive(t.locals[i], tm, t.now);
  }

  /** The step that an instance needs before time can pass for it. */
  function Pressing(l: Local, i: nat, now: Time): Step {
    match l.request
    case Acquire(_, _, _) => AcquireAnswers(i, true)
    case Beat(_, _) => BeatAnswers(i, true)
    case Ask(_) => AskAnswers(i)
    case NoRequest => if l.heartbeatAt == Some(now) then FireHeartbeat(i) else FirePoll(i)
  }

  lemma {:induction false} PressingCanHappen(s: State, tm: Timing, i: nat)
    requires i < |s.locals| && IsLive(s.locals[i], tm, s.now) && !MayReach(s.locals[i], tm, s.now + 1)
    ensures CanStep(s, tm, Pressing(s.locals[i], i, s.now))
  {
  }

  ghost predicate IsPressed(s: State, tm: Timing, i: nat) {
    i < |s.locals| && CanStep(s, tm, Pressing(s.locals[i], i, s.now))
  }

  /** No reachable state is stuck: time can pass, or what stands in its way can happen. */
  lemma {:induction false} NeverStuck(s: State, tm: Timing, steps: seq<Step>, t: State)
    requires IsInitial(s) && Execute(s, tm, steps) == Some(t)
    ensures CanStep(t, tm, Pass(1)) || exists i: nat :: IsPressed(t, tm, i)
  {
    ReachableLive(s, tm, steps);
    if !CanStep(t, tm, Pass(1)) {
      var l :| l in t.locals && !MayReach(l, tm, t.now + 1);
      var i: nat :| i < |t.locals| && t.locals[i] == l;
      assert IsLive(t.locals[i], tm, t.now);
      PressingCanHappen(t, tm, i);
      assert IsPressed(t, tm, i);
    }
  }

  // ---- A free lock is taken ----

  /** The lock is missing, or its heartbeat is older than its lifetime. */
  predicate IsFree(s: State, tm: Timing) {
    s.lock.None? || s.lock.value.heartbeat < s.now - tm.lifetime
  }

  /** By when the instance's next acquisition takes effect, if none of its acquisitions fails. */
  function Due(l: Local, tm: Timing): Time
    requires IsRunning(l) && IsWaiting(l, tm)
  {
    match l.request
    case Acquire(sent, done, polling) =>
      if done.None? then sent + tm.delay
      else if done.value then sent + tm.period + tm.lifetime + 4 * tm.delay
      else if polling then l.standbyAt.value + tm.delay
      else sent + tm.lifetime + 3 * tm.delay
    case Ask(sent) => sent + tm.lifetime + 2 * tm.delay
    case Beat(sent, done) =>
      (if done == Some(true) then l.heartbeatAt.value else sent) + tm.lifetime + 3 * tm.delay
    case NoRequest =>
      if l.isLeader then l.heartbeatAt.value + tm.lifetime + 3 * tm.delay else l.standbyAt.value + tm.delay
  }

  lemma {:induction false} DueBounds(l: Local, tm: Timing, now: Time)
    requires IsLive(l, tm, now) && IsRunning(l)
    ensures now <= Due(l, tm) <= now + tm.period + tm.lifetime + 4 * tm.delay
    ensures !l.isLeader && !(l.request.Acquire? && l.request.done == Some(true)) ==>
      Due(l, tm) <= now + tm.lifetime + 3 * tm.delay
  {
  }

  /** What one lost acquisition costs. */
  function Penalty(step: Step, i: nat, tm: Timing): nat {
    if step == AcquireAnswers(i, true) then tm.lifetime + 2 * tm.delay else 0
  }

  lemma {:induction false} ReplyKeepsDue(l: Local, tm: Timing, now: Time, failed: bool)
    requires IsLive(l, tm, now) && IsRunning(l) && l.request.Acquire? && (failed || l.request.done.Some?)
    ensures var next := AcquireReplied(l, tm, now, !failed && l.request.done == Some(true));
      && IsRunning(next) && IsWaiting(next, tm)
      && Due(next, tm) <= Due(l, tm) + if failed then tm.lifetime + 2 * tm.delay else 0
  {
  }

  lemma {:induction false} BeatKeepsDue(l: Local, tm: Timing, now: Time, failed: bool)
    requires IsLive(l, tm, now) && IsRunning(l) && l.request.Beat? && (failed || l.request.done.Some?)
    ensures var next := BeatReplied(l, now, !failed && l.request.done == Some(true));
      IsRunning(next) && IsWaiting(next, tm) && Due(next, tm) <= Due(l, tm)
  {
  }

  /** While the lock is free and stays free, no step of the instance puts its acquisition off, but for a lost one. */
  lemma {:induction false} StepKeepsDue(s: State, tm: Timing, step: Step, i: nat)
    requires Live(s, tm) && CanStep(s, tm, step) && i < |s.locals| && IsRunning(s.locals[i])
    requires IsFree(s, tm) && IsFree(Apply(s, tm, step), tm) && IsRunning(Apply(s, tm, step).locals[i])
    ensures Live(Apply(s, tm, step), tm) && IsWaiting(s.locals[i], tm) && IsWaiting(Apply(s, tm, step).locals[i], tm)
    ensures Due(Apply(s, tm, step).locals[i], tm) <= Due(s.locals[i], tm) + Penalty(step, i, tm)
  {
    StepKeepsLive(s, tm, step);
    var l := s.locals[i];
    assert IsLive(l, tm, s.now) && IsLive(Apply(s, tm, step).locals[i], tm, Apply(s, tm, step).now);
    if !step.Pass? && step.i == i {
      if step.AcquireAnswers? {
        ReplyKeepsDue(l, tm, s.now, step.failed);
      } else if step.BeatAnswers? {
        BeatKeepsDue(l, tm, s.now, step.failed);
      }
    }
  }

  /** How many of the instance's acquisitions report an error, and what they cost. */
  function Lost(steps: seq<Step>, i: nat): nat {
    if steps == [] then 0
    else Lost(steps[..|steps| - 1], i) + if steps[|steps| - 1] == AcquireAnswers(i, true) then 1 else 0
  }

  function Penalties(steps: seq<Step>, i: nat, tm: Timing): nat {
    if steps == [] then 0 else Penalties(steps[..|steps| - 1], i, tm) + Penalty(steps[|steps| - 1], i, tm)
  }

  lemma {:induction false} PenaltiesAre(steps: seq<Step>, i: nat, tm: Timing)
    ensures Penalties(steps, i, tm) == Lost(steps, i) * (tm.lifetime + 2 * tm.delay)
  {
    if steps != [] {
      PenaltiesAre(steps[..|steps| - 1], i, tm);
      var cost, before := tm.lifetime + 2 * tm.delay, Lost(steps[..|steps| - 1], i);
      assert (before + 1) * cost == before * cost + cost;
    }
  }

  predicate IsFreeFor(s: State, tm: Timing, i: nat) {
    IsFree(s, tm) && i < |s.locals| && IsRunning(s.locals[i])
  }

  /** The run can happen, and at its every moment the lock is free and the instance runs. */
  predicate StaysFree(s: State, tm: Timing, steps: seq<Step>, i: nat) {
    && Execute(s, tm, steps).Some? && IsFreeFor(Execute(s, tm, steps).value, tm, i)
    && (steps == [] || StaysFree(s, tm, steps[..|steps| - 1], i))
  }

  lemma {:induction false} FreeFromStart(s: State, tm: Timing, steps: seq<Step>, i: nat)
    requires StaysFree(s, tm, steps, i)
    ensures IsFreeFor(s, tm, i)
  {
    if steps != [] { FreeFromStart(s, tm, steps[..|steps| - 1], i); }
  }

  lemma {:induction false} FreeRunBounded(s: State, tm: Timing, steps: seq<Step>, t: State, i: nat)
    requires Live(s, tm) && i < |s.locals| && IsRunning(s.locals[i]) && StaysFree(s, tm, steps, i)
    requires Execute(s, tm, steps) == Some(t)
    ensures Live(t, tm) && i < |t.locals| && IsRunning(t.locals[i]) && IsWaiting(t.locals[i], tm)
    ensures IsWaiting(s.locals[i], tm)
    ensures Due(t.locals[i], tm) <= Due(s.locals[i], tm) + Penalties(steps, i, tm)
    decreases |steps|
  {
    assert IsLive(s.locals[i], tm, s.now);
    if steps != [] {
      var u := Execute(s, tm, steps[..|steps| - 1]).value;
      FreeRunBounded(s, tm, steps[..|steps| - 1], u, i);
      StepKeepsDue(u, tm, steps[|steps| - 1], i);
    }
  }

  /**
    The lock cannot stay free beside a running instance for longer than one heartbeat, one lifetime and four delays,
    and one lifetime and two delays more for each of its acquisitions that fails.
   */
  lemma {:induction false} FreeLockIsTaken(
    start: State, tm: Timing, before: seq<Step>, s: State, i: nat, steps: seq<Step>, t: State)
    requires IsInitial(start) && Execute(start, tm, before) == Some(s) && Execute(s, tm, steps) == Some(t)
    requires StaysFree(s, tm, steps, i)
    ensures t.now <= s.now + tm.period + tm.lifetime + 4 * tm.delay + Lost(steps, i) * (tm.lifetime + 2 * tm.delay)
  {
    ReachableLive(start, tm, before);
    FreeFromStart(s, tm, steps, i);
    FreeRunBounded(s, tm, steps, t, i);
    PenaltiesAre(steps, i, tm);
    assert IsLive(s.locals[i], tm, s.now) && IsLive(t.locals[i], tm, t.now);
    DueBounds(s.locals[i], tm, s.now);
    DueBounds(t.locals[i], tm, t.now);
  }

  /** With a safe timing a free lock has no leader, and one lifetime and three delays are enough. */
  lemma {:induction false} FreeLockIsTakenSoon(
    start: State, tm: Timing, before: seq<Step>, s: State, i: nat, steps: seq<Step>, t: State)
    requires IsSafe(tm) && IsInitial(start)
    requires Execute(start, tm, before) == Some(s) && Execute(s, tm, steps) == Some(t)
    requires StaysFree(s, tm, steps, i)
    ensures t.now <= s.now + tm.lifetime + 3 * tm.delay + Lost(steps, i) * (tm.lifetime + 2 * tm.delay)
  {
    ReachableLive(start, tm, before);
    ReachableInv(start, tm, before);
    FreeFromStart(s, tm, steps, i);
    FreeRunBounded(s, tm, steps, t, i);
    PenaltiesAre(steps, i, tm);
    assert LocalHolds(s.locals[i], i, tm, s.lock, s.now);
    assert IsLive(s.locals[i], tm, s.now) && IsLive(t.locals[i], tm, t.now);
    DueBounds(s.locals[i], tm, s.now);
    DueBounds(t.locals[i], tm, t.now);
  }

  // ---- Who takes the lock leads ----

  /** An acquisition that takes effect on a free lock or the instance's own, and is answered, makes it the leader. */
  lemma {:induction false} TakerLeads(s: State, tm: Timing, i: nat)
    requires i < |s.locals| && s.locals[i].request.Acquire? && s.locals[i].request.done.None? && !s.locals[i].stopped
    requires IsFree(s, tm) || Holds(s.lock, i)
    ensures CanStep(s, tm, AcquireTakesEffect(i))
    ensures var taken := Apply(s, tm, AcquireTakesEffect(i));
      && taken.lock == Some(Lock(i, s.now)) && CanStep(taken, tm, AcquireAnswers(i, false))
      && Leads(Apply(taken, tm, AcquireAnswers(i, false)).locals[i])
  {
  }

  lemma {:induction false} StepKeepsLeader(s: State, tm: Timing, step: Step, i: nat)
    requires IsSafe(tm) && Inv(s, tm) && Live(s, tm) && CanStep(s, tm, step) && i < |s.locals| && Leads(s.locals[i])
    requires step != StopInstance(i) && step != BeatAnswers(i, true)
    ensures i < |Apply(s, tm, step).locals| && Leads(Apply(s, tm, step).locals[i])
  {
    assert LocalHolds(s.locals[i], i, tm, s.lock, s.now);
    assert IsLive(s.locals[i], tm, s.now);
  }

  lemma {:induction false} ExecuteConcat(s: State, tm: Timing, before: seq<Step>, steps: seq<Step>, t: State)
    requires Execute(s, tm, before) == Some(t)
    ensures Execute(s, tm, before + steps) == Execute(t, tm, steps)
    decreases |steps|
  {
    if steps == [] {
      assert before + steps == before;
    } else {
      assert (before + steps)[..|before + steps| - 1] == before + steps[..|steps| - 1];
      ExecuteConcat(s, tm, before, steps[..|steps| - 1], t);
    }
  }

  /** A leader stays the leader until it is stopped or one of its heartbeats fails. */
  lemma {:induction false} LeaderStays(
    start: State, tm: Timing, before: seq<Step>, s: State, i: nat, steps: seq<Step>, t: State)
    requires IsSafe(tm) && IsInitial(start)
    requires Execute(start, tm, before) == Some(s) && Execute(s, tm, steps) == Some(t)
    requires i < |s.locals| && Leads(s.locals[i])
    requires forall step <- steps :: step != StopInstance(i) && step != BeatAnswers(i, true)
    ensures i < |t.locals| && Leads(t.locals[i])
    decreases |steps|
  {
    if steps != [] {
      var init := steps[..|steps| - 1];
      var u := Execute(s, tm, init).value;
      assert forall step <- init :: step in steps;
      LeaderStays(start, tm, before, s, i, init, u);
      ExecuteConcat(start, tm, before, init, s);
      ReachableInv(start, tm, before + init);
      ReachableLive(start, tm, before + init);
      assert steps[|steps| - 1] in steps;
      StepKeepsLeader(u, tm, steps[|steps| - 1], i);
    }
  }

  /** A leader that stops frees the lock at once, and nobody else's stop touches it. */
  lemma {:induction false} StopFreesLock(start: State, tm: Timing, before: seq<Step>, s: State, i: nat)
    requires IsSafe(tm) && IsInitial(start) && Execute(start, tm, before) == Some(s)
    requires i < |s.locals| && IsRunning(s.locals[i])
    ensures var stopped := Apply(s, tm, StopInstance(i));
      if s.locals[i].isLeader then
        CanStep(stopped, tm, ReleaseTakesEffect(i)) && Apply(stopped, tm, ReleaseTakesEffect(i)).lock.None?
      else !CanStep(stopped, tm, ReleaseTakesEffect(i)) && stopped.lock == s.lock
  {
    ReachableInv(start, tm, before);
    assert LocalHolds(s.locals[i], i, tm, s.lock, s.now);
  }

  // ---- Stopping is final ----

  /** No timer runs, and no request is on its way that was sent later. */
  predicate IsQuiet(l: Local, since: Time) {
    && l.stopped && l.heartbeatAt.None? && l.standbyAt.None?
    && (l.request != NoRequest ==> l.request.sent <= since)
  }

  lemma {:induction false} StepKeepsQuiet(s: State, tm: Timing, step: Step, i: nat, since: Time)
    requires CanStep(s, tm, step) && i < |s.locals| && IsQuiet(s.locals[i], since)
    ensures IsQuiet(Apply(s, tm, step).locals[i], since)
    ensures Apply(s, tm, step).locals[i].isLeader ==> s.locals[i].isLeader
  {
  }

  /** After a stop an instance never arms a timer, sends a request or becomes the leader again. */
  lemma {:induction false} StopIsFinal(
    start: State, tm: Timing, before: seq<Step>, s: State, i: nat, steps: seq<Step>, t: State)
    requires IsInitial(start) && Execute(start, tm, before) == Some(s) && CanStep(s, tm, StopInstance(i))
    requires Execute(Apply(s, tm, StopInstance(i)), tm, steps) == Some(t)
    ensures i < |t.locals| && IsQuiet(t.locals[i], s.now) && (t.locals[i].isLeader ==> s.locals[i].isLeader)
    decreases |steps|
  {
    if steps == [] {
      ReachableLive(start, tm, before);
      assert IsLive(s.locals[i], tm, s.now);
    } else {
      var u := Execute(Apply(s, tm, StopInstance(i)), tm, steps[..|steps| - 1]).value;
      StopIsFinal(start, tm, before, s, i, steps[..|steps| - 1], u);
      StepKeepsQuiet(u, tm, steps[|steps| - 1], i, s.now);
    }
  }
}
