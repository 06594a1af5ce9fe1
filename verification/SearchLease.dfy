/**
  The lease table of runtime/search-indexes.ts: instances that share one database agree about search indexing, or
  a start fails before it changes anything.
 */
module SearchLease {
  import opened Options

  type Time = int

  const LEASE := 60

  datatype Row = Row(enabled: bool, expiresAt: Time)
  datatype Config = Config(enabled: bool, ready: bool)

  /** search_instance, search_config:current and the database's clock. */
  datatype State = State(rows: map<nat, Row>, config: Option<Config>, now: Time)

  predicate Conflicts(s: State, enabled: bool) {
    exists i :: i in s.rows && s.rows[i].expiresAt > s.now && s.rows[i].enabled != enabled
  }

  /** The start transaction, unless it throws: expired rows go, the setting and the own row are written. */
  function Started(s: State, i: nat, enabled: bool): State {
    var live := map j | j in s.rows && s.rows[j].expiresAt > s.now :: s.rows[j];
    var ready := s.config.Some? && s.config.value.enabled == enabled && s.config.value.ready;
    s.(rows := live[i := Row(enabled, s.now + LEASE)], config := Some(Config(enabled, ready)))
  }

  function Beaten(s: State, i: nat): State {
    if i in s.rows then s.(rows := s.rows[i := s.rows[i].(expiresAt := s.now + LEASE)]) else s
  }

  function Stopped(s: State, i: nat): State {
    s.(rows := s.rows - {i})
  }

  /** The shared rows, changed in place by each instance's statements. */
  class Control {
    var rows: map<nat, Row>
    var config: Option<Config>
    var now: Time

    constructor ()
      ensures View() == EMPTY
    {
      rows, config, now := map[], None, 0;
    }

    function View(): State
      reads this
    {
      State(rows, config, now)
    }

    /** SearchIndexes.start up to its heartbeat; false where the transaction throws. */
    method Start(i: nat, enabled: bool) returns (ok: bool)
      modifies this
      ensures ok == !Conflicts(old(View()), enabled)
      ensures View() == if ok then Started(old(View()), i, enabled) else old(View())
    {
      if Conflicts(View(), enabled) {
        return false;
      }
      rows := map j | j in rows && rows[j].expiresAt > now :: rows[j];
      var ready := config.Some? && config.value.enabled == enabled && config.value.ready;
      config := Some(Config(enabled, ready));
      rows := rows[i := Row(enabled, now + LEASE)];
      ok := true;
    }

    method Beat(i: nat)
      modifies this`rows
      ensures View() == Beaten(old(View()), i)
    {
      if i in rows {
        rows := rows[i := rows[i].(expiresAt := now + LEASE)];
      }
    }

    method Stop(i: nat)
      modifies this`rows
      ensures View() == Stopped(old(View()), i)
    {
      rows := rows - {i};
    }
  }

  const EMPTY := State(map[], None, 0)

  // ---- Any number of instances ----

  datatype Step =
    | Pass(ticks: nat)
    | Start(i: nat, enabled: bool)
    | Beat(i: nat)
    | Stop(i: nat)
    | SetReady(i: nat, ready: bool)   // around schema creation and backfill, while the lease lasts

  predicate CanStep(s: State, step: Step) {
    step.SetReady? ==> step.i in s.rows && s.config.Some? && (step.ready ==> s.rows[step.i].enabled)
  }

  function Apply(s: State, step: Step): State
    requires CanStep(s, step)
  {
    match step
    case Pass(ticks) => s.(now := s.now + ticks)
    case Start(i, enabled) => if Conflicts(s, enabled) then s else Started(s, i, enabled)
    case Beat(i) => Beaten(s, i)
    case Stop(i) => Stopped(s, i)
    case SetReady(_, ready) => s.(config := Some(s.config.value.(ready := ready)))
  }

  /** Each instance's row, expired or not, carries the shared setting; only an enabled index is ever ready. */
  ghost predicate Agree(s: State) {
    && (forall i <- s.rows :: s.config.Some? && s.rows[i].enabled == s.config.value.enabled)
    && (s.config.Some? && s.config.value.ready ==> s.config.value.enabled)
  }

  lemma {:induction false} StepKeepsAgreement(s: State, step: Step)
    requires Agree(s) && CanStep(s, step)
    ensures Agree(Apply(s, step))
  {
    if step.Start? && !Conflicts(s, step.enabled) {
      var next := Started(s, step.i, step.enabled);
      forall i <- next.rows ensures next.rows[i].enabled == step.enabled {
        if i != step.i { assert s.rows[i].expiresAt > s.now; }
      }
    }
  }

  function Execute(steps: seq<Step>): Option<State> {
    if steps == [] then Some(EMPTY)
    else
      match Execute(steps[..|steps| - 1])
      case None => None
      case Some(s) => if CanStep(s, steps[|steps| - 1]) then Some(Apply(s, steps[|steps| - 1])) else None
  }

  lemma {:induction false} InstancesAgree(steps: seq<Step>)
    requires Execute(steps).Some?
    ensures Agree(Execute(steps).value)
    decreases |steps|
  {
    if steps != [] {
      InstancesAgree(steps[..|steps| - 1]);
      StepKeepsAgreement(Execute(steps[..|steps| - 1]).value, steps[|steps| - 1]);
    }
  }

  /**
    While an instance's lease lasts, a start with the other setting changes nothing; once all have run out, it
    wins.
   */
  lemma {:induction false} ConflictingStart(steps: seq<Step>, s: State, i: nat, enabled: bool)
    requires Execute(steps) == Some(s) && s.config.Some? && s.config.value.enabled != enabled
    ensures Apply(s, Start(i, enabled)) == s <==> exists j :: j in s.rows && s.rows[j].expiresAt > s.now
    ensures Apply(s, Start(i, enabled)) != s ==>
      Apply(s, Start(i, enabled)).rows == map[i := Row(enabled, s.now + LEASE)]
  {
    InstancesAgree(steps);
    if j: nat :| j in s.rows && s.rows[j].expiresAt > s.now {
      assert Conflicts(s, enabled);
    }
  }

  // ---- A lease that is kept ----

  /** Ticks since the instance last beat. */
  function Since(steps: seq<Step>, i: nat): nat {
    if steps == [] then 0
    else
      match steps[|steps| - 1]
      case Pass(ticks) => Since(steps[..|steps| - 1], i) + ticks
      case Beat(j) => if j == i then 0 else Since(steps[..|steps| - 1], i)
      case _ => Since(steps[..|steps| - 1], i)
  }

  /** The run goes on from s, and the instance neither stops nor starts anew and beats before its lease is over. */
  ghost predicate KeepsBeating(s: State, steps: seq<Step>, i: nat)
    decreases |steps|
  {
    Since(steps, i) < LEASE && (steps == [] || (
      var init, last := steps[..|steps| - 1], steps[|steps| - 1];
      && KeepsBeating(s, init, i) && CanStep(From(s, init), last)
      && last != Stop(i) && !(last.Start? && last.i == i)))
  }

  function From(s: State, steps: seq<Step>): State
    decreases |steps|
  {
    if steps == [] then s
    else
      var t := From(s, steps[..|steps| - 1]);
      if CanStep(t, steps[|steps| - 1]) then Apply(t, steps[|steps| - 1]) else t
  }

  /** An instance that has started and beats in time keeps a live lease, with its setting, whatever others do. */
  lemma {:induction false} LeaseLasts(s: State, i: nat, enabled: bool, steps: seq<Step>)
    requires !Conflicts(s, enabled) && KeepsBeating(Apply(s, Start(i, enabled)), steps, i)
    ensures var t := From(Apply(s, Start(i, enabled)), steps);
      i in t.rows && t.rows[i] == Row(enabled, t.now + LEASE - Since(steps, i)) && t.rows[i].expiresAt > t.now
    decreases |steps|
  {
    if steps != [] {
      LeaseLasts(s, i, enabled, steps[..|steps| - 1]);
    }
  }

  // ---- The ready mark ----

  predicate IsReady(s: State) {
    s.config.Some? && s.config.value.ready
  }

  /** What takes the mark away: whoever builds, or a start that changes the setting. */
  predicate Clears(s: State, step: Step) {
    || (step.SetReady? && !step.ready)
    || (step.Start? && !Conflicts(s, step.enabled) && s.config.Some? && s.config.value.enabled != step.enabled)
  }

  lemma {:induction false} ReadyStep(s: State, step: Step)
    requires CanStep(s, step)
    ensures IsReady(Apply(s, step)) <==> (step.SetReady? && step.ready) || (IsReady(s) && !Clears(s, step))
  {
  }

  /** The k-th step sets the mark, and no later one takes it away. */
  ghost predicate SetAt(steps: seq<Step>, k: nat) {
    && k < |steps| && steps[k].SetReady? && steps[k].ready
    && forall j: nat :: k < j < |steps| && Execute(steps[..j]).Some? ==> !Clears(Execute(steps[..j]).value, steps[j])
  }

  lemma {:induction false} SetBefore(steps: seq<Step>, k: nat)
    requires SetAt(steps, k) && k + 1 < |steps|
    ensures SetAt(steps[..|steps| - 1], k)
  {
    var init := steps[..|steps| - 1];
    forall j: nat | k < j < |init| && Execute(init[..j]).Some? ensures !Clears(Execute(init[..j]).value, init[j]) {
      assert init[..j] == steps[..j];
    }
  }

  lemma {:induction false} SetStays(steps: seq<Step>, k: nat)
    requires steps != [] && SetAt(steps[..|steps| - 1], k) && Execute(steps[..|steps| - 1]).Some?
    requires !Clears(Execute(steps[..|steps| - 1]).value, steps[|steps| - 1])
    ensures SetAt(steps, k)
  {
    var init := steps[..|steps| - 1];
    forall j: nat | k < j < |steps| && Execute(steps[..j]).Some? ensures !Clears(Execute(steps[..j]).value, steps[j]) {
      if j < |init| { assert init[..j] == steps[..j]; }
    }
  }

  /** The index is ready exactly if some step set the mark and nothing since has taken it away: restarts keep it. */
  lemma {:induction false} ReadyIff(steps: seq<Step>, s: State)
    requires Execute(steps) == Some(s)
    ensures IsReady(s) <==> exists k: nat :: SetAt(steps, k)
    decreases |steps|
  {
    if steps != [] {
      var init, last := steps[..|steps| - 1], steps[|steps| - 1];
      var before := Execute(init).value;
      ReadyIff(init, before);
      ReadyStep(before, last);
      if last.SetReady? && last.ready {
        assert SetAt(steps, |init|);
      } else if IsReady(s) {
        var k: nat :| SetAt(init, k);
        SetStays(steps, k);
      } else if k: nat :| SetAt(steps, k) {
        assert steps[..|init|] == init;
        SetBefore(steps, k);
      }
    }
  }
}
