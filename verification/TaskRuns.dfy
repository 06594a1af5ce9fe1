/** The store's records are histories: what a run of transactions leaves of a task is what its writes leave in order. */
module TaskRuns {
  import opened Options
  import opened TaskMerge
  import opened TaskHistory
  import opened WorkflowSummary
  import opened WorkflowRuns

  /** The event makes a placeholder of the task. */
  predicate NamesParent(e: Event, id: string) {
    && Get(e.fields, "parent_id") == Some(id) && id != "" && e.uuid != ""
    && (e.kind == Some(Sent) || e.kind == Some(Received))
  }

  function OwnWrites(e: Event, id: string): seq<Write> {
    if e.uuid == id && IsTaskEvent(e) then [EventWrite(e)] else []
  }

  function ParentWrites(e: Event, now: Time, id: string): seq<Write> {
    if NamesParent(e, id) then [ParentWrite(now)] else []
  }

  /** What an event writes to a task: itself, and the placeholder of a parent behind it. */
  function EventWrites(e: Event, now: Time, id: string): seq<Write> {
    OwnWrites(e, id) + ParentWrites(e, now, id)
  }

  function BatchWrites(events: seq<Event>, now: Time, id: string): seq<Write> {
    if events == [] then [] else EventWrites(events[0], now, id) + BatchWrites(events[1..], now, id)
  }

  /** What a transaction writes to a task. */
  function WritesTo(step: Step, id: string): seq<Write> {
    match step
    case Batch(events, now) => BatchWrites(events, now, id)
    case Poll(key, meta, now) => if key == id then [MetaWrite(meta, now)] else []
    case FetchResult(key, data) => if key == id then [FetchWrite(data)] else []
    case _ => []
  }

  /** A transaction that writes tasks and removes none. */
  predicate IsWriting(step: Step) {
    step.Batch? || step.Poll? || (step.FetchResult? && forall name <- step.data :: IsResultField(name))
  }

  function AllWrites(steps: seq<Step>, id: string): seq<Write> {
    if steps == [] then [] else AllWrites(steps[..|steps| - 1], id) + WritesTo(steps[|steps| - 1], id)
  }

  /** Stored records have a state; a record that is not stored reads as blank. */
  ghost predicate HaveStates(s: Store) {
    forall id <- s.tasks :: s.tasks[id].state.Some?
  }

  lemma {:induction false} WritesCan(events: seq<Event>, now: Time, id: string)
    ensures forall w <- BatchWrites(events, now, id) :: CanWrite(w)
  {
    if events != [] { WritesCan(events[1..], now, id); }
  }

  lemma {:induction false} StepWritesCan(step: Step, id: string)
    requires IsWriting(step)
    ensures forall w <- WritesTo(step, id) :: CanWrite(w)
  {
    if step.Batch? { WritesCan(step.events, step.now, id); }
  }

  lemma {:induction false} AllWritesCan(steps: seq<Step>, id: string)
    requires forall step <- steps :: IsWriting(step)
    ensures forall w <- AllWrites(steps, id) :: CanWrite(w)
    decreases |steps|
  {
    if steps != [] {
      assert forall step <- steps[..|steps| - 1] :: step in steps;
      AllWritesCan(steps[..|steps| - 1], id);
      StepWritesCan(steps[|steps| - 1], id);
    }
  }

  lemma {:induction false} RunConcat(t: Task, id: string, a: seq<Write>, b: seq<Write>)
    requires (forall w <- a :: CanWrite(w)) && (forall w <- b :: CanWrite(w))
    ensures Run(t, id, a + b) == Run(Run(t, id, a), id, b)
  {
    RunSplit(t, id, a + b, |a|);
    assert (a + b)[..|a|] == a && (a + b)[|a|..] == b;
  }

  lemma {:induction false} RunOne(t: Task, id: string, w: Write)
    requires CanWrite(w)
    ensures Run(t, id, [w]) == Written(t, id, w)
  {
    assert [w][1..] == [];
  }

  lemma {:induction false} OwnIsHistory(tasks: map<string, Task>, e: Event, id: string)
    ensures forall w <- OwnWrites(e, id) :: CanWrite(w)
    ensures Find(UpsertTask(tasks, e), id) == Run(Find(tasks, id), id, OwnWrites(e, id))
  {
    if OwnWrites(e, id) != [] { RunOne(Find(tasks, id), id, EventWrite(e)); }
  }

  lemma {:induction false} ParentIsHistory(tasks: map<string, Task>, e: Event, now: Time, id: string)
    requires e.uuid != ""
    ensures forall w <- ParentWrites(e, now, id) :: CanWrite(w)
    ensures Find(UpsertParent(tasks, e, now), id) == Run(Find(tasks, id), id, ParentWrites(e, now, id))
  {
    if NamesParent(e, id) { RunOne(Find(tasks, id), id, ParentWrite(now)); }
  }

  lemma {:induction false} EventTables(s: Store, e: Event, now: Time)
    requires HaveStates(s) && e.uuid != ""
    ensures ApplyEvent(s, e, now).tasks == UpsertParent(UpsertTask(s.tasks, e), e, now)
    ensures HaveStates(ApplyEvent(s, e, now))
  {
  }

  lemma {:induction false} EventIsHistory(s: Store, e: Event, now: Time, id: string)
    requires HaveStates(s)
    ensures forall w <- EventWrites(e, now, id) :: CanWrite(w)
    ensures HaveStates(ApplyEvent(s, e, now))
    ensures Find(ApplyEvent(s, e, now).tasks, id) == Run(Find(s.tasks, id), id, EventWrites(e, now, id))
  {
    OwnIsHistory(s.tasks, e, id);
    if e.uuid != "" {
      EventTables(s, e, now);
      ParentIsHistory(UpsertTask(s.tasks, e), e, now, id);
    }
    RunConcat(Find(s.tasks, id), id, OwnWrites(e, id), ParentWrites(e, now, id));
  }

  lemma {:induction false} BatchIsHistory(s: Store, events: seq<Event>, now: Time, id: string)
    requires HaveStates(s)
    ensures forall w <- BatchWrites(events, now, id) :: CanWrite(w)
    ensures HaveStates(ApplyBatch(s, events, now))
    ensures Find(ApplyBatch(s, events, now).tasks, id) == Run(Find(s.tasks, id), id, BatchWrites(events, now, id))
    decreases |events|
  {
    WritesCan(events, now, id);
    if events != [] {
      EventIsHistory(s, events[0], now, id);
      BatchIsHistory(ApplyEvent(s, events[0], now), events[1..], now, id);
      RunConcat(Find(s.tasks, id), id, EventWrites(events[0], now, id), BatchWrites(events[1..], now, id));
    }
  }

  lemma {:induction false} PollIsHistory(s: Store, key: string, m: Meta, now: Time, id: string)
    requires HaveStates(s)
    ensures HaveStates(ApplyPoll(s, key, m, now))
    ensures Find(ApplyPoll(s, key, m, now).tasks, id) == Run(Find(s.tasks, id), id, WritesTo(Poll(key, m, now), id))
  {
    if key == id { RunOne(Find(s.tasks, id), id, MetaWrite(m, now)); }
  }

  lemma {:induction false} FetchIsHistory(s: Store, key: string, data: map<string, string>, id: string)
    requires HaveStates(s) && forall name <- data :: IsResultField(name)
    ensures HaveStates(ApplyResult(s, key, data))
    ensures Find(ApplyResult(s, key, data).tasks, id) ==
      Run(Find(s.tasks, id), id, WritesTo(FetchResult(key, data), id))
  {
    if key == id { RunOne(Find(s.tasks, id), id, FetchWrite(data)); }
  }

  lemma {:induction false} StepIsHistory(s: Store, step: Step, id: string)
    requires HaveStates(s) && IsWriting(step)
    ensures forall w <- WritesTo(step, id) :: CanWrite(w)
    ensures HaveStates(Apply(s, step))
    ensures Find(Apply(s, step).tasks, id) == Run(Find(s.tasks, id), id, WritesTo(step, id))
  {
    StepWritesCan(step, id);
    match step
    case Batch(events, now) => BatchIsHistory(s, events, now, id);
    case Poll(key, meta, now) => PollIsHistory(s, key, meta, now, id);
    case FetchResult(key, data) => FetchIsHistory(s, key, data, id);
  }

  /** After any run of event batches, polls and fetched results each record is the history of the writes to it. */
  lemma {:induction false} StoreIsHistory(steps: seq<Step>, id: string)
    requires forall step <- steps :: IsWriting(step)
    ensures forall w <- AllWrites(steps, id) :: CanWrite(w)
    ensures HaveStates(Execute(steps))
    ensures Find(Execute(steps).tasks, id) == Run(BLANK, id, AllWrites(steps, id))
    decreases |steps|
  {
    AllWritesCan(steps, id);
    if steps != [] {
      var init, last := steps[..|steps| - 1], steps[|steps| - 1];
      assert forall step <- init :: step in steps;
      StoreIsHistory(init, id);
      StepIsHistory(Execute(init), last, id);
      RunConcat(BLANK, id, AllWrites(init, id), WritesTo(last, id));
    }
  }
}
