/**
  LeaderElection (runtime/leader-election.ts): the fields of one instance, changed by its methods and callbacks,
  and any number of instances that share one lock record and a clock. A request takes effect in the database and
  replies, with success or an error, within D of being sent.
 */
module LeaderElection {
  import opened Options

  type Time = int

  /** Heartbeat period, lock lifetime and the bound on requests, in ticks of the clock. */
  datatype Timing = Timing(period: nat, lifetime: nat, delay: nat)

  datatype Status = Disabled | Leader | Standby

  /** What an instance waits for; `done` is the request's answer once it took effect. */
  datatype Request =
    | NoRequest
    | Acquire(sent: Time, done: Option<bool>, polling: bool)
    | Beat(sent: Time, done: Option<bool>)
    | Ask(sent: Time)

  /** The fields of an instance, with the next firing of its two timers. */
  datatype Local = Local(
    isLeader: bool, status: Status, stopped: bool,
    heartbeatAt: Option<Time>, standbyAt: Option<Time>,
    request: Request, releasing: bool)

  const NEW := Local(false, Disabled, false, None, None, NoRequest, false)

  // ---- What the methods do to the fields ----

  function ClearTimers(l: Local): Local {
    l.(heartbeatAt := None, standbyAt := None)
  }

  /** promoteToLeader and startHeartbeat */
  function Promote(l: Local, tm: Timing, now: Time): Local {
    if l.stopped then l
    else ClearTimers(l).(isLeader := true, status := Leader, heartbeatAt := Some(now + tm.period))
  }

  /** enterStandby, up to its question for the current leader. */
  function EnterStandby(l: Local, now: Time): Local {
    if l.stopped then l
    else ClearTimers(l).(isLeader := false, status := Standby, request := Ask(now))
  }

  function Answered(l: Local): Local {
    l.(request := NoRequest)
  }

  /** Behind tryAcquireLock, in start and in the standby timer. */
  function AcquireReplied(l: Local, tm: Timing, now: Time, acquired: bool): Local
    requires l.request.Acquire?
  {
    if acquired then Promote(Answered(l), tm, now)
    else if l.request.polling then Answered(l)
    else EnterStandby(Answered(l), now)
  }

  /** Behind the heartbeat's UPDATE: a lost lock and a failed request end leadership alike. */
  function BeatReplied(l: Local, now: Time, held: bool): Local {
    if l.stopped || held then Answered(l) else EnterStandby(Answered(l), now)
  }

  /** The end of enterStandby. */
  function AskReplied(l: Local, tm: Timing, now: Time): Local {
    if l.stopped then Answered(l) else Answered(l).(standbyAt := Some(now + tm.lifetime))
  }

  function Stopping(l: Local): Local {
    ClearTimers(l).(stopped := true, releasing := l.isLeader)
  }

  function Released(l: Local): Local {
    l.(isLeader := false, status := Disabled, releasing := false)
  }

  class Instance {
    const timing: Timing
    var isLeader: bool
    var status: Status
    var stopped: bool
    var heartbeatAt: Option<Time>
    var standbyAt: Option<Time>
    var request: Request
    var releasing: bool

    constructor (tm: Timing)
      ensures View() == NEW && timing == tm
    {
      timing := tm;
      isLeader, status, stopped := false, Disabled, false;
      heartbeatAt, standbyAt, request, releasing := None, None, NoRequest, false;
    }

    function View(): Local
      reads this
    {
      Local(isLeader, status, stopped, heartbeatAt, standbyAt, request, releasing)
    }

    method StopTimers()
      modifies this`heartbeatAt, this`standbyAt
      ensures View() == ClearTimers(old(View()))
    {
      heartbeatAt := None;
      standbyAt := None;
    }

    method PromoteToLeader(now: Time)
      modifies this
      ensures View() == Promote(old(View()), timing, now)
    {
      if stopped {
        return;
      }
      isLeader := true;
      status := Leader;
      StopTimers();
      heartbeatAt := Some(now + timing.period);
    }

    method GoStandby(now: Time)
      modifies this
      ensures View() == EnterStandby(old(View()), now)
    {
      if stopped {
        return;
      }
      isLeader := false;
      status := Standby;
      StopTimers();
      request := Ask(now);
    }

    method OnAcquireReply(now: Time, acquired: bool)
      requires request.Acquire?
      modifies this
      ensures View() == AcquireReplied(old(View()), timing, now, acquired)
    {
      var polling := request.polling;
      request := NoRequest;
      if acquired {
        PromoteToLeader(now);
      } else if !polling {
        GoStandby(now);
      }
    }

    method OnHeartbeatReply(now: Time, held: bool)
      modifies this
      ensures View() == BeatReplied(old(View()), now, held)
    {
      request := NoRequest;
      if stopped {
        return;
      }
      if !held {
        isLeader := false;
        StopTimers();
        GoStandby(now);
      }
    }

    method OnCurrentLeader(now: Time)
      modifies this
      ensures View() == AskReplied(old(View()), timing, now)
    {
      request := NoRequest;
      if stopped {
        return;
      }
      standbyAt := Some(now + timing.lifetime);
    }

    method Stop()
      modifies this
      ensures View() == Stopping(old(View()))
    {
      stopped := true;
      StopTimers();
      releasing := isLeader;
    }
  }

  // ---- The lock record ----

  datatype Lock = Lock(holder: nat, heartbeat: Time)

  /** The WHERE of tryAcquireLock; a missing record is created. */
  predicate CanTake(lock: Option<Lock>, id: nat, lifetime: nat, now: Time) {
    lock.None? || lock.value.holder == id || lock.value.heartbeat < now - lifetime
  }

  predicate Holds(lock: Option<Lock>, id: nat) {
    lock.Some? && lock.value.holder == id
  }

  // ---- Instances over one lock ----

  datatype State = State(now: Time, lock: Option<Lock>, locals: seq<Local>)

  datatype Step =
    | Pass(ticks: nat)
    | Start(i: nat)
    | AcquireTakesEffect(i: nat)
    | AcquireAnswers(i: nat, failed: bool)   // an error reports no acquisition, whether it took effect or not
    | FireHeartbeat(i: nat)
    | BeatTakesEffect(i: nat)
    | BeatAnswers(i: nat, failed: bool)
    | AskAnswers(i: nat)
    | FirePoll(i: nat)
    | StopInstance(i: nat)
    | ReleaseTakesEffect(i: nat)
    | ReleaseAnswers(i: nat)
    | LateAcquire(i: nat)                    // the effect of a request whose reply was an error
    | LateBeat(i: nat)

  predicate Within(deadline: Option<Time>, at: Time) {
    deadline.Some? ==> at <= deadline.value
  }

  /** A reply is due within D, a timer fires when it is due. */
  predicate MayReach(l: Local, tm: Timing, at: Time) {
    && (l.request != NoRequest ==> at <= l.request.sent + tm.delay)
    && Within(l.heartbeatAt, at) && Within(l.standbyAt, at)
  }

  predicate CanStep(s: State, tm: Timing, step: Step) {
    if step.Pass? then forall l <- s.locals :: MayReach(l, tm, s.now + step.ticks)
    else
      step.i < |s.locals| &&
      var l := s.locals[step.i];
      match step
      case Pass(_) => true
      case Start(_) => l == NEW
      case AcquireTakesEffect(_) => l.request.Acquire? && l.request.done.None?
      case AcquireAnswers(_, failed) => l.request.Acquire? && (failed || l.request.done.Some?)
      case FireHeartbeat(_) => l.heartbeatAt == Some(s.now) && l.request == NoRequest
      case BeatTakesEffect(_) => l.request.Beat? && l.request.done.None?
      case BeatAnswers(_, failed) => l.request.Beat? && (failed || l.request.done.Some?)
      case AskAnswers(_) => l.request.Ask?
      case FirePoll(_) => l.standbyAt == Some(s.now) && l.request == NoRequest
      case StopInstance(_) => !l.stopped
      case ReleaseTakesEffect(_) => l.releasing
      case ReleaseAnswers(_) => l.releasing
      case LateAcquire(_) => true
      case LateBeat(_) => true
  }

  function With(s: State, i: nat, l: Local): State
    requires i < |s.locals|
  {
    s.(locals := s.locals[i := l])
  }

  function Taken(s: State, i: nat, tm: Timing): State {
    if CanTake(s.lock, i, tm.lifetime, s.now) then s.(lock := Some(Lock(i, s.now))) else s
  }

  function Beaten(s: State, i: nat): State {
    if Holds(s.lock, i) then s.(lock := Some(Lock(i, s.now))) else s
  }

  function Apply(s: State, tm: Timing, step: Step): State
    requires CanStep(s, tm, step)
  {
    match step
    case Pass(ticks) => s.(now := s.now + ticks)
    case Start(i) => With(s, i, s.locals[i].(request := Acquire(s.now, None, false)))
    case AcquireTakesEffect(i) =>
      var taken := CanTake(s.lock, i, tm.lifetime, s.now);
      var r := s.locals[i].request;
      With(Taken(s, i, tm), i, s.locals[i].(request := Acquire(r.sent, Some(taken), r.polling)))
    case AcquireAnswers(i, failed) =>
      With(s, i, AcquireReplied(s.locals[i], tm, s.now, !failed && s.locals[i].request.done == Some(true)))
    case FireHeartbeat(i) =>
      With(s, i, s.locals[i].(heartbeatAt := Some(s.now + tm.period), request := Beat(s.now, None)))
    case BeatTakesEffect(i) =>
      With(Beaten(s, i), i, s.locals[i].(request := Beat(s.locals[i].request.sent, Some(Holds(s.lock, i)))))
    case BeatAnswers(i, failed) =>
      With(s, i, BeatReplied(s.locals[i], s.now, !failed && s.locals[i].request.done == Some(true)))
    case AskAnswers(i) => With(s, i, AskReplied(s.locals[i], tm, s.now))
    case FirePoll(i) =>
      With(s, i, s.locals[i].(standbyAt := Some(s.now + tm.lifetime), request := Acquire(s.now, None, true)))
    case StopInstance(i) => With(s, i, Stopping(s.locals[i]))
    case ReleaseTakesEffect(i) => if Holds(s.lock, i) then s.(lock := None) else s
    case ReleaseAnswers(i) => With(s, i, Released(s.locals[i]))
    case LateAcquire(i) => Taken(s, i, tm)
    case LateBeat(i) => Beaten(s, i)
  }

  // ---- Safety ----

  predicate Leads(l: Local) {
    l.isLeader && !l.stopped
  }

  predicate HoldsSince(lock: Option<Lock>, id: nat, at: Time) {
    Holds(lock, id) && at <= lock.value.heartbeat
  }

  /** A leader's next refresh will reach the lock before it goes stale. */
  predicate LeaderHolds(l: Local, i: nat, tm: Timing, lock: Option<Lock>) {
    l.heartbeatAt.Some? && l.standbyAt.None? &&
    match l.request
    case NoRequest => HoldsSince(lock, i, l.heartbeatAt.value - tm.period - tm.delay)
    case Beat(sent, done) =>
      && l.heartbeatAt.value == sent + tm.period
      && (if done.None? then HoldsSince(lock, i, sent - tm.period - tm.delay)
           else done.value && HoldsSince(lock, i, sent))
    case _ => false
  }

  predicate LocalHolds(l: Local, i: nat, tm: Timing, lock: Option<Lock>, now: Time) {
    && MayReach(l, tm, now) && (l.request != NoRequest ==> l.request.sent <= now)
    && (!l.stopped ==>
      && !l.releasing
      && (if l.isLeader then LeaderHolds(l, i, tm, lock) else l.heartbeatAt.None? && !l.request.Beat?)
      && (l.request.Acquire? && l.request.done == Some(true) ==> HoldsSince(lock, i, l.request.sent)))
  }

  ghost predicate Inv(s: State, tm: Timing) {
    && (s.lock.Some? ==> s.lock.value.heartbeat <= s.now)
    && forall i: nat :: i < |s.locals| ==> LocalHolds(s.locals[i], i, tm, s.lock, s.now)
  }

  /** Every request is answered before the next heartbeat, and a refresh arrives before the lock goes stale. */
  predicate IsSafe(tm: Timing) {
    tm.delay < tm.period && tm.period + 2 * tm.delay <= tm.lifetime
  }

  /** Nobody takes the lock from a leader or from an instance that just acquired it. */
  lemma {:induction false} LockIsFresh(s: State, tm: Timing, i: nat, j: nat)
    requires IsSafe(tm) && Inv(s, tm) && i < |s.locals| && j != i
    requires var l := s.locals[i]; Leads(l) || (!l.stopped && l.request.Acquire? && l.request.done == Some(true))
    ensures !CanTake(s.lock, j, tm.lifetime, s.now)
  {
    assert LocalHolds(s.locals[i], i, tm, s.lock, s.now);
  }

  /** i takes, refreshes or deletes the lock; nobody else does. */
  predicate LockMoves(lock: Option<Lock>, next: Option<Lock>, i: nat, tm: Timing, now: Time) {
    || next == lock
    || (CanTake(lock, i, tm.lifetime, now) && next == Some(Lock(i, now)))
    || (Holds(lock, i) && next.None?)
  }

  lemma {:induction false} OthersKeep(s: State, next: State, tm: Timing, i: nat, j: nat)
    requires IsSafe(tm) && Inv(s, tm) && j < |s.locals| && j != i
    requires next.now == s.now && |next.locals| == |s.locals| && next.locals[j] == s.locals[j]
    requires LockMoves(s.lock, next.lock, i, tm, s.now)
    ensures LocalHolds(next.locals[j], j, tm, next.lock, next.now)
  {
    assert LocalHolds(s.locals[j], j, tm, s.lock, s.now);
    var l := s.locals[j];
    if Leads(l) || (!l.stopped && l.request.Acquire? && l.request.done == Some(true)) {
      LockIsFresh(s, tm, j, i);
    }
  }

  /** A step of i keeps the invariant if it does for i itself. */
  lemma {:induction false} StepOf(s: State, next: State, tm: Timing, i: nat)
    requires IsSafe(tm) && Inv(s, tm) && i < |s.locals|
    requires next.now == s.now && |next.locals| == |s.locals| && next.locals == s.locals[i := next.locals[i]]
    requires LockMoves(s.lock, next.lock, i, tm, s.now)
    requires LocalHolds(next.locals[i], i, tm, next.lock, next.now)
    ensures Inv(next, tm)
  {
    forall j: nat | j < |next.locals| ensures LocalHolds(next.locals[j], j, tm, next.lock, next.now) {
      if j != i { OthersKeep(s, next, tm, i, j); }
    }
  }

  lemma {:induction false} RepliesKeepInv(s: State, tm: Timing, step: Step)
    requires IsSafe(tm) && Inv(s, tm) && CanStep(s, tm, step)
    requires step.AcquireAnswers? || step.BeatAnswers? || step.AskAnswers? || step.ReleaseAnswers?
    ensures Inv(Apply(s, tm, step), tm)
  {
    assert LocalHolds(s.locals[step.i], step.i, tm, s.lock, s.now);
    StepOf(s, Apply(s, tm, step), tm, step.i);
  }

  lemma {:induction false} EffectsKeepInv(s: State, tm: Timing, step: Step)
    requires IsSafe(tm) && Inv(s, tm) && CanStep(s, tm, step)
    requires step.AcquireTakesEffect? || step.BeatTakesEffect? || step.ReleaseTakesEffect?
    ensures Inv(Apply(s, tm, step), tm)
  {
    assert LocalHolds(s.locals[step.i], step.i, tm, s.lock, s.now);
    StepOf(s, Apply(s, tm, step), tm, step.i);
  }

  lemma {:induction false} LocalStepsKeepInv(s: State, tm: Timing, step: Step)
    requires IsSafe(tm) && Inv(s, tm) && CanStep(s, tm, step)
    requires step.Start? || step.FireHeartbeat? || step.FirePoll? || step.StopInstance? || step.LateAcquire? ||
      step.LateBeat?
    ensures Inv(Apply(s, tm, step), tm)
  {
    assert LocalHolds(s.locals[step.i], step.i, tm, s.lock, s.now);
    StepOf(s, Apply(s, tm, step), tm, step.i);
  }

  lemma {:induction false} StepKeepsInv(s: State, tm: Timing, step: Step)
    requires IsSafe(tm) && Inv(s, tm) && CanStep(s, tm, step)
    ensures Inv(Apply(s, tm, step), tm)
  {
    if step.Pass? {
      forall i: nat | i < |s.locals| ensures LocalHolds(s.locals[i], i, tm, s.lock, s.now + step.ticks) {
        assert LocalHolds(s.locals[i], i, tm, s.lock, s.now);
        assert s.locals[i] in s.locals;
      }
    } else if step.AcquireAnswers? || step.BeatAnswers? || step.AskAnswers? || step.ReleaseAnswers? {
      RepliesKeepInv(s, tm, step);
    } else if step.AcquireTakesEffect? || step.BeatTakesEffect? || step.ReleaseTakesEffect? {
      EffectsKeepInv(s, tm, step);
    } else {
      LocalStepsKeepInv(s, tm, step);
    }
  }

  /** Instances that have not started, beside a lock that some earlier process may have left. */
  ghost predicate IsInitial(s: State) {
    (forall l <- s.locals :: l == NEW) && (s.lock.Some? ==> s.lock.value.heartbeat <= s.now)
  }

  function Execute(s: State, tm: Timing, steps: seq<Step>): Option<State> {
    if steps == [] then Some(s)
    else
      match Execute(s, tm, steps[..|steps| - 1])
      case None => None
      case Some(t) => if CanStep(t, tm, steps[|steps| - 1]) then Some(Apply(t, tm, steps[|steps| - 1])) else None
  }

  lemma {:induction false} ReachableInv(s: State, tm: Timing, steps: seq<Step>)
    requires IsSafe(tm) && IsInitial(s) && Execute(s, tm, steps).Some?
    ensures Inv(Execute(s, tm, steps).value, tm)
    decreases |steps|
  {
    if steps == [] {
      forall i: nat | i < |s.locals| ensures LocalHolds(s.locals[i], i, tm, s.lock, s.now) {
        assert s.locals[i] in s.locals;
      }
    } else {
      ReachableInv(s, tm, steps[..|steps| - 1]);
      StepKeepsInv(Execute(s, tm, steps[..|steps| - 1]).value, tm, steps[|steps| - 1]);
    }
  }

  /** Whoever leads holds the lock, so no two unstopped instances lead. */
  ghost predicate OneLeader(s: State) {
    && (forall i: nat :: i < |s.locals| && Leads(s.locals[i]) ==> Holds(s.lock, i))
    && (forall i: nat, j: nat :: i < |s.locals| && j < |s.locals| && Leads(s.locals[i]) && Leads(s.locals[j]) ==>
         i == j)
  }

  lemma {:induction false} AtMostOneLeader(s: State, tm: Timing, steps: seq<Step>, t: State)
    requires IsSafe(tm) && IsInitial(s) && Execute(s, tm, steps) == Some(t)
    ensures OneLeader(t)
  {
    ReachableInv(s, tm, steps);
    forall i: nat | i < |t.locals| && Leads(t.locals[i]) ensures Holds(t.lock, i) {
      assert LocalHolds(t.locals[i], i, tm, t.lock, t.now);
    }
  }

  // ---- The bound is exact ----

  lemma {:induction false} Extend(
    s: State, tm: Timing, steps: seq<Step>, t: State, step: Step) returns (more: seq<Step>, next: State)
    requires Execute(s, tm, steps) == Some(t) && CanStep(t, tm, step)
    ensures Execute(s, tm, more) == Some(next) && next == Apply(t, tm, step)
  {
    more, next := steps + [step], Apply(t, tm, step);
    assert more[..|more| - 1] == steps;
  }

  const PAIR := State(0, None, [NEW, NEW])

  /**
    The first instance acquires the lock at 0 and learns it at D, so that its first refresh may reach the lock at
    H + 2D.
   */
  lemma {:induction false} FirstLeads(tm: Timing) returns (steps: seq<Step>, t: State)
    requires tm.delay < tm.period < tm.lifetime
    ensures Execute(PAIR, tm, steps) == Some(t)
    ensures t == State(tm.delay, Some(Lock(0, 0)),
      [Local(true, Leader, false, Some(tm.delay + tm.period), None, NoRequest, false), NEW])
  {
    steps, t := Extend(PAIR, tm, [], PAIR, Start(0));
    steps, t := Extend(PAIR, tm, steps, t, AcquireTakesEffect(0));
    steps, t := Extend(PAIR, tm, steps, t, Pass(tm.delay));
    steps, t := Extend(PAIR, tm, steps, t, AcquireAnswers(0, false));
  }

  /** Until the lock is stale the first instance may still lead. */
  lemma {:induction false} FirstStillLeads(tm: Timing) returns (steps: seq<Step>, t: State)
    requires tm.delay < tm.period < tm.lifetime < tm.period + 2 * tm.delay
    ensures Execute(PAIR, tm, steps) == Some(t)
    ensures |t.locals| == 2 && t.now == tm.lifetime + 1 && t.lock == Some(Lock(0, 0)) && Leads(t.locals[0]) &&
      t.locals[1] == NEW
  {
    steps, t := FirstLeads(tm);
    if tm.lifetime + 1 <= tm.delay + tm.period {
      steps, t := Extend(PAIR, tm, steps, t, Pass(tm.lifetime + 1 - tm.delay));
    } else {
      steps, t := Extend(PAIR, tm, steps, t, Pass(tm.period));
      steps, t := Extend(PAIR, tm, steps, t, FireHeartbeat(0));
      steps, t := Extend(PAIR, tm, steps, t, Pass(tm.lifetime + 1 - tm.delay - tm.period));
    }
  }

  lemma {:induction false} TwoLeaders(tm: Timing) returns (steps: seq<Step>, t: State)
    requires tm.delay < tm.period < tm.lifetime < tm.period + 2 * tm.delay
    ensures Execute(PAIR, tm, steps) == Some(t) && IsInitial(PAIR) && !OneLeader(t)
  {
    steps, t := FirstStillLeads(tm);
    steps, t := Extend(PAIR, tm, steps, t, Start(1));
    steps, t := Extend(PAIR, tm, steps, t, AcquireTakesEffect(1));
    steps, t := Extend(PAIR, tm, steps, t, AcquireAnswers(1, false));
    assert Leads(t.locals[0]) && Leads(t.locals[1]);
  }

  ghost predicate AlwaysOneLeader(tm: Timing) {
    forall s: State, steps: seq<Step> :: IsInitial(s) && Execute(s, tm, steps).Some? ==>
      OneLeader(Execute(s, tm, steps).value)
  }

  /** With D < H < TTL, there is never a second leader exactly when H + 2D <= TTL. */
  lemma {:induction false} OneLeaderIff(tm: Timing)
    requires tm.delay < tm.period < tm.lifetime
    ensures AlwaysOneLeader(tm) <==> tm.period + 2 * tm.delay <= tm.lifetime
  {
    if tm.period + 2 * tm.delay <= tm.lifetime {
      forall s: State, steps: seq<Step> | IsInitial(s) && Execute(s, tm, steps).Some?
        ensures OneLeader(Execute(s, tm, steps).value)
      {
        AtMostOneLeader(s, tm, steps, Execute(s, tm, steps).value);
      }
    } else {
      var steps, t := TwoLeaders(tm);
    }
  }
}
