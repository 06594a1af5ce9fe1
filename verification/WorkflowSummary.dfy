/**
  Workflow summary rows and the transactions that touch them: event batches (server/events/ingester.py), backend
  polls (server/tasks/result_fetcher.py), cleanup and clear (runtime/observation-api.ts). Each is atomic.
 */
module WorkflowSummary {
  import opened Options
  import opened TaskMerge

  datatype Summary = Summary(
    total: nat, completed: nat, failures: nat, retries: nat, active: nat, workers: nat, aggregate: string)

  datatype Store = Store(tasks: map<string, Task>, workflows: map<string, Summary>)

  predicate IsActive(state: Option<string>) {
    state == Some("PENDING") || state == Some("RECEIVED") || state == Some("STARTED")
  }

  predicate IsRetry(state: Option<string>) {
    state == Some("RETRY")
  }

  predicate IsFailure(state: Option<string>) {
    state == Some("FAILURE")
  }

  /** `state NOT IN $active_states AND state != 'RETRY'`, which a missing state satisfies. */
  predicate IsCompleted(state: Option<string>) {
    !IsActive(state) && !IsRetry(state)
  }

  // ---- The recount ----

  function Members(tasks: map<string, Task>, w: string): set<string> {
    set id | id in tasks && tasks[id].workflow == Some(w)
  }

  function InState(tasks: map<string, Task>, w: string, p: Option<string> -> bool): set<string> {
    set id | id in Members(tasks, w) && p(tasks[id].state)
  }

  /** `worker != NONE GROUP BY worker` */
  function Workers(tasks: map<string, Task>, w: string): set<string> {
    set id | id in Members(tasks, w) && "worker" in tasks[id].fields :: tasks[id].fields["worker"]
  }

  function Aggregate(total: nat, failures: nat, retries: nat, active: nat): string {
    if failures > 0 then "FAILURE"
    else if retries > 0 then "RETRY"
    else if active > 0 then "STARTED"
    else if total > 0 then "SUCCESS"
    else "PENDING"
  }

  /** build_workflow_summary_recompute */
  function Recount(tasks: map<string, Task>, w: string): Summary {
    var total := |Members(tasks, w)|;
    var failures := |InState(tasks, w, IsFailure)|;
    var retries := |InState(tasks, w, IsRetry)|;
    var active := |InState(tasks, w, IsActive)|;
    Summary(total, |InState(tasks, w, IsCompleted)|, failures, retries, active, |Workers(tasks, w)|,
            Aggregate(total, failures, retries, active))
  }

  lemma {:induction false} PartSizes(all: set<string>, a: set<string>, b: set<string>, c: set<string>)
    requires all == a + b + c && a !! b && (a + b) !! c
    ensures |all| == |a| + |b| + |c|
  {
    assert |a + b| == |a| + |b|;
  }

  lemma {:induction false} Contained(a: set<string>, b: set<string>)
    requires a <= b
    ensures |a| <= |b|
  {
    assert b == a + (b - a);
  }

  lemma {:induction false} StatesCover(tasks: map<string, Task>, w: string)
    ensures Members(tasks, w) == InState(tasks, w, IsActive) + InState(tasks, w, IsRetry) +
      InState(tasks, w, IsCompleted)
  {
    forall id <- Members(tasks, w)
      ensures id in InState(tasks, w, IsActive) || id in InState(tasks, w, IsRetry) ||
        id in InState(tasks, w, IsCompleted)
    {
      assert IsActive(tasks[id].state) || IsRetry(tasks[id].state) || IsCompleted(tasks[id].state);
    }
  }

  lemma {:induction false} StatesExclude(
    tasks: map<string, Task>, w: string, p: Option<string> -> bool, q: Option<string> -> bool)
    requires forall state :: !(p(state) && q(state))
    ensures InState(tasks, w, p) !! InState(tasks, w, q)
  {
  }

  lemma {:induction false} StatesInclude(
    tasks: map<string, Task>, w: string, p: Option<string> -> bool, q: Option<string> -> bool)
    requires forall state :: p(state) ==> q(state)
    ensures |InState(tasks, w, p)| <= |InState(tasks, w, q)|
  {
    Contained(InState(tasks, w, p), InState(tasks, w, q));
  }

  /** Every member is active, retried or completed, and no two of these; failures are completed. */
  lemma {:induction false} RecountPartitions(tasks: map<string, Task>, w: string)
    ensures var s := Recount(tasks, w); s.active + s.retries + s.completed == s.total && s.failures <= s.completed
  {
    StatesCover(tasks, w);
    StatesExclude(tasks, w, IsActive, IsRetry);
    StatesExclude(tasks, w, IsActive, IsCompleted);
    StatesExclude(tasks, w, IsRetry, IsCompleted);
    PartSizes(Members(tasks, w), InState(tasks, w, IsActive), InState(tasks, w, IsRetry),
      InState(tasks, w, IsCompleted));
    StatesInclude(tasks, w, IsFailure, IsCompleted);
  }

  /** How many members are in a state, by event type: each type counts as one kind of state. */
  lemma {:induction false} KindCounts(kind: Kind)
    ensures IsActive(Some(StateOf(kind))) <==> kind in {Sent, Received, Started}
    ensures IsRetry(Some(StateOf(kind))) <==> kind == Retried
    ensures IsFailure(Some(StateOf(kind))) <==> kind == Failed
    ensures IsCompleted(Some(StateOf(kind))) <==> IsTerminalEvent(kind)
  {
  }

  /** Some member is in a state that p accepts. */
  ghost predicate SomeIn(tasks: map<string, Task>, w: string, p: Option<string> -> bool) {
    exists id :: id in tasks && tasks[id].workflow == Some(w) && p(tasks[id].state)
  }

  lemma {:induction false} CountPositive(tasks: map<string, Task>, w: string, p: Option<string> -> bool)
    ensures |InState(tasks, w, p)| > 0 <==> SomeIn(tasks, w, p)
  {
    if id :| id in tasks && tasks[id].workflow == Some(w) && p(tasks[id].state) {
      assert id in InState(tasks, w, p);
    }
    if |InState(tasks, w, p)| > 0 {
      var id :| id in InState(tasks, w, p);
    }
  }

  lemma {:induction false} MembersPositive(tasks: map<string, Task>, w: string)
    ensures |Members(tasks, w)| > 0 <==> exists id :: id in tasks && tasks[id].workflow == Some(w)
  {
    if id :| id in tasks && tasks[id].workflow == Some(w) { assert id in Members(tasks, w); }
    if |Members(tasks, w)| > 0 { var id :| id in Members(tasks, w); }
  }

  /** A workflow has failed if a member has, else is retried if one is, else runs if one does, else has succeeded. */
  lemma {:induction false} RecountAggregate(tasks: map<string, Task>, w: string)
    ensures var failed, retried := SomeIn(tasks, w, IsFailure), SomeIn(tasks, w, IsRetry);
      var running, any := SomeIn(tasks, w, IsActive), exists id :: id in tasks && tasks[id].workflow == Some(w);
      var aggregate := Recount(tasks, w).aggregate;
      && (aggregate == "FAILURE" <==> failed)
      && (aggregate == "RETRY" <==> retried && !failed)
      && (aggregate == "STARTED" <==> running && !failed && !retried)
      && (aggregate == "SUCCESS" <==> any && !failed && !retried && !running)
      && (aggregate == "PENDING" <==> !any)
  {
    CountPositive(tasks, w, IsFailure);
    CountPositive(tasks, w, IsRetry);
    CountPositive(tasks, w, IsActive);
    MembersPositive(tasks, w);
  }

  /** Two task tables with the same members of w, in the same states and on the same workers. */
  ghost predicate SameMembers(before: map<string, Task>, after: map<string, Task>, w: string) {
    && Members(before, w) == Members(after, w)
    && forall id <- Members(before, w) ::
         before[id].state == after[id].state && Get(before[id].fields, "worker") == Get(after[id].fields, "worker")
  }

  lemma {:induction false} RecountFrame(before: map<string, Task>, after: map<string, Task>, w: string)
    requires SameMembers(before, after, w)
    ensures Recount(before, w) == Recount(after, w)
  {
    assert InState(before, w, IsFailure) == InState(after, w, IsFailure);
    assert InState(before, w, IsRetry) == InState(after, w, IsRetry);
    assert InState(before, w, IsActive) == InState(after, w, IsActive);
    assert InState(before, w, IsCompleted) == InState(after, w, IsCompleted);
    WorkersFrame(before, after, w);
  }

  lemma {:induction false} WorkersFrame(before: map<string, Task>, after: map<string, Task>, w: string)
    requires SameMembers(before, after, w)
    ensures Workers(before, w) == Workers(after, w)
  {
    forall name ensures name in Workers(before, w) <==> name in Workers(after, w) {
      if name in Workers(before, w) {
        var id :| id in Members(before, w) && "worker" in before[id].fields && before[id].fields["worker"] == name;
        assert Get(after[id].fields, "worker") == Some(name);
      }
      if name in Workers(after, w) {
        var id :| id in Members(after, w) && "worker" in after[id].fields && after[id].fields["worker"] == name;
        assert Get(before[id].fields, "worker") == Some(name);
      }
    }
  }

  // ---- Transactions ----

  function Find(tasks: map<string, Task>, id: string): Task {
    if id in tasks then tasks[id] else BLANK
  }

  /** build_task_upsert, on the table. */
  function UpsertTask(tasks: map<string, Task>, e: Event): map<string, Task> {
    if IsTaskEvent(e) then tasks[e.uuid := MergeEvent(Find(tasks, e.uuid), e)] else tasks
  }

  /** The workflow that the event's task left without members. */
  function LeftWorkflow(s: Store, e: Event): set<string> {
    var left := Find(s.tasks, e.uuid).workflow;
    if IsTaskEvent(e) && IsFilled(Get(e.fields, "root_id")) && left.Some? && left.value != EventWorkflow(e)
       && Members(UpsertTask(s.tasks, e), left.value) == {}
    then {left.value} else {}
  }

  /** build_children_update: the parent appears as a pending task when it is not known yet. */
  function UpsertParent(tasks: map<string, Task>, e: Event, now: Time): map<string, Task> {
    var parent := Get(e.fields, "parent_id");
    if IsFilled(parent) && e.uuid != "" && (e.kind == Some(Sent) || e.kind == Some(Received)) then
      tasks[parent.value := MergeParent(Find(tasks, parent.value), now)]
    else tasks
  }

  /** The stored grouping, where there is one, wins over the event's. */
  function GroupOf(tasks: map<string, Task>, id: string, otherwise: string): string {
    Find(tasks, id).workflow.Or(otherwise)
  }

  const EMPTY_ROW := Summary(0, 0, 0, 0, 0, 0, "PENDING")

  function UpsertMembership(s: Store, e: Event): map<string, Summary> {
    var w := GroupOf(s.tasks, e.uuid, EventWorkflow(e));
    if e.uuid == "" || e.timestamp.Or(0) == 0 || w in s.workflows then s.workflows else s.workflows[w := EMPTY_ROW]
  }

  function Recompute(s: Store, id: string, otherwise: string): Store {
    var w := GroupOf(s.tasks, id, otherwise);
    s.(workflows := s.workflows[w := Recount(s.tasks, w)])
  }

  /** One task event's statements, in the order they are sent. */
  function ApplyEvent(s: Store, e: Event, now: Time): Store {
    if e.uuid == "" then s
    else
      var upserted := Store(UpsertTask(s.tasks, e), s.workflows - LeftWorkflow(s, e));
      var related := upserted.(workflows := UpsertMembership(upserted, e));
      Recompute(related.(tasks := UpsertParent(related.tasks, e, now)), e.uuid, EventWorkflow(e))
  }

  /** ResultBackendPoller._poll_once for one key. */
  function ApplyPoll(s: Store, id: string, m: Meta, now: Time): Store {
    Recompute(s.(tasks := s.tasks[id := MergeMeta(Find(s.tasks, id), id, m, now)]), id, id)
  }

  /** ResultFetcher: result fields of an existing task; no other field that a summary counts. */
  function ApplyResult(s: Store, id: string, data: map<string, string>): Store {
    if id in s.tasks then s.(tasks := s.tasks[id := MergeResult(s.tasks[id], data)]) else s
  }

  /** The transaction of cleanup: the rows, and every task that belongs to them. */
  function Delete(s: Store, rows: set<string>): Store {
    Store(map id | id in s.tasks && !(s.tasks[id].workflow.Some? && s.tasks[id].workflow.value in rows) :: s.tasks[id],
          s.workflows - rows)
  }

  // ---- The invariant ----

  /** root names a workflow for each task, and a workflow's root task is its own root. */
  ghost predicate IsAncestry(root: string -> string) {
    forall id {:trigger root(root(id))} :: root(root(id)) == root(id)
  }

  /** An event that names a root names the task's. */
  ghost predicate Agrees(e: Event, root: string -> string) {
    IsFilled(Get(e.fields, "root_id")) ==> e.fields["root_id"] == root(e.uuid)
  }

  ghost predicate IsGrouped(t: Task, id: string, root: string -> string) {
    && (t.state.Some? <==> t.lastUpdated.Some?)
    && (t.workflow.Some? ==> t.state.Some? && (t.workflow.value == id || t.workflow.value == root(id)))
  }

  ghost predicate Counted(s: Store) {
    forall w <- s.workflows :: s.workflows[w] == Recount(s.tasks, w)
  }

  ghost predicate Named(s: Store) {
    forall id <- s.tasks :: s.tasks[id].workflow.Some? ==> s.tasks[id].workflow.value in s.workflows
  }

  ghost predicate Grouped(tasks: map<string, Task>, root: string -> string) {
    forall id <- tasks :: IsGrouped(tasks[id], id, root)
  }

  ghost predicate Inv(s: Store, root: string -> string) {
    Counted(s) && Named(s) && Grouped(s.tasks, root)
  }

  // ---- One task written ----

  lemma {:induction false} MembersWritten(tasks: map<string, Task>, id: string, t: Task, w: string)
    ensures Members(tasks[id := t], w) ==
      if t.workflow == Some(w) then Members(tasks, w) + {id} else Members(tasks, w) - {id}
  {
  }

  /** Writing one task leaves the recount of workflows alone that the task is in neither before nor after. */
  lemma {:induction false} WrittenElsewhere(tasks: map<string, Task>, id: string, t: Task, w: string)
    requires t.workflow != Some(w) && (id in tasks ==> tasks[id].workflow != Some(w))
    ensures Recount(tasks[id := t], w) == Recount(tasks, w)
  {
    MembersWritten(tasks, id, t, w);
    RecountFrame(tasks, tasks[id := t], w);
  }

  /** Only a task can be in the workflow of its own name if that is not its root. */
  lemma {:induction false} OwnWorkflow(tasks: map<string, Task>, root: string -> string, id: string, other: string)
    requires Grouped(tasks, root) && IsAncestry(root) && root(id) != id
    requires other in tasks && tasks[other].workflow == Some(id)
    ensures other == id
  {
    assert IsGrouped(tasks[other], other, root);
    assert root(root(other)) == root(other);
  }

  lemma {:induction false} EventGroups(t: Task, e: Event, root: string -> string)
    requires IsTaskEvent(e) && Agrees(e, root) && IsGrouped(t, e.uuid, root)
    ensures var u := MergeEvent(t, e);
      && IsGrouped(u, e.uuid, root) && u.workflow.Some?
      && (u.workflow == t.workflow || t.workflow.None? ||
           (IsFilled(Get(e.fields, "root_id")) && u.workflow == Some(root(e.uuid))))
  {
  }

  // ---- The recompute repairs what a written task broke ----

  /** Every row but that of w equals its recount. */
  ghost predicate CountedBut(s: Store, w: string) {
    forall v <- s.workflows :: v != w ==> s.workflows[v] == Recount(s.tasks, v)
  }

  ghost predicate NamedBut(s: Store, w: string) {
    forall id <- s.tasks :: s.tasks[id].workflow.Some? && s.tasks[id].workflow.value != w ==>
      s.tasks[id].workflow.value in s.workflows
  }

  lemma {:induction false} RecomputeRepairs(s: Store, id: string, otherwise: string, root: string -> string)
    requires CountedBut(s, GroupOf(s.tasks, id, otherwise)) && NamedBut(s, GroupOf(s.tasks, id, otherwise)) &&
      Grouped(s.tasks, root)
    ensures Inv(Recompute(s, id, otherwise), root)
  {
  }

  /** The state after one task is written: its new workflow's row is the only one out of date. */
  lemma {:induction false} WriteLeavesOne(s: Store, root: string -> string, id: string, t: Task, left: set<string>)
    requires Inv(s, root) && IsAncestry(root) && t.workflow.Some? && IsGrouped(t, id, root)
    requires left == (if id in s.tasks && s.tasks[id].workflow.Some? && s.tasks[id].workflow != t.workflow
                      then {s.tasks[id].workflow.value} else {})
    requires left != {} ==> t.workflow == Some(root(id))
    ensures var after := Store(s.tasks[id := t], s.workflows - left);
      CountedBut(after, t.workflow.value) && NamedBut(after, t.workflow.value) && Grouped(after.tasks, root)
    ensures left != {} ==> left == {id} && root(id) != id && Members(s.tasks[id := t], id) == {}
  {
    var after := Store(s.tasks[id := t], s.workflows - left);
    forall v <- after.workflows | v != t.workflow.value ensures after.workflows[v] == Recount(after.tasks, v) {
      WrittenElsewhere(s.tasks, id, t, v);
    }
    if left != {} {
      assert IsGrouped(s.tasks[id], id, root);
      forall other <- s.tasks | s.tasks[other].workflow == Some(id) ensures other == id {
        OwnWorkflow(s.tasks, root, id, other);
      }
    }
  }

  // ---- The transactions keep the invariant ----

  lemma {:induction false} LeftIsMoved(s: Store, root: string -> string, e: Event)
    requires Inv(s, root) && IsAncestry(root) && Agrees(e, root) && IsTaskEvent(e)
    ensures var t, u := Find(s.tasks, e.uuid), MergeEvent(Find(s.tasks, e.uuid), e);
      && IsGrouped(u, e.uuid, root) && u.workflow.Some?
      && LeftWorkflow(s, e) == (if t.workflow.Some? && t.workflow != u.workflow then {t.workflow.value} else {})
      && (LeftWorkflow(s, e) != {} ==> u.workflow == Some(root(e.uuid)))
  {
    var t := Find(s.tasks, e.uuid);
    var u := MergeEvent(t, e);
    EventGroups(t, e, root);
    if t.workflow.Some? && t.workflow != u.workflow {
      WriteLeavesOne(s, root, e.uuid, u, {t.workflow.value});
    } else if t.workflow.Some? {
      assert e.uuid in Members(UpsertTask(s.tasks, e), t.workflow.value);
    }
  }

  /** The parent's placeholder belongs to no workflow, and a known parent keeps what is counted of it. */
  lemma {:induction false} ParentKeepsCounts(tasks: map<string, Task>, e: Event, now: Time, root: string -> string)
    requires Grouped(tasks, root)
    ensures Grouped(UpsertParent(tasks, e, now), root)
    ensures forall w :: Recount(UpsertParent(tasks, e, now), w) == Recount(tasks, w)
    ensures forall id :: Find(UpsertParent(tasks, e, now), id).workflow == Find(tasks, id).workflow
  {
    var after := UpsertParent(tasks, e, now);
    forall w ensures Recount(after, w) == Recount(tasks, w) {
      RecountFrame(tasks, after, w);
    }
  }

  lemma {:induction false} EventKeepsInv(s: Store, root: string -> string, e: Event, now: Time)
    requires Inv(s, root) && IsAncestry(root) && Agrees(e, root)
    ensures Inv(ApplyEvent(s, e, now), root)
  {
    if e.uuid != "" {
      var upserted := Store(UpsertTask(s.tasks, e), s.workflows - LeftWorkflow(s, e));
      if IsTaskEvent(e) {
        LeftIsMoved(s, root, e);
        WriteLeavesOne(s, root, e.uuid, MergeEvent(Find(s.tasks, e.uuid), e), LeftWorkflow(s, e));
      }
      ParentKeepsCounts(upserted.tasks, e, now, root);
      RepairAfterEvent(upserted, e, now, root);
    }
  }

  /** An event without an id touches nothing, not even the row that its root names. */
  lemma {:induction false} NoIdNoChange(s: Store, e: Event, now: Time)
    requires e.uuid == ""
    ensures ApplyEvent(s, e, now) == s
  {
  }

  /** An event touches no row but its workflow's and, in the same transaction, that of a workflow it leaves empty. */
  lemma {:induction false} EventTouchesTwo(s: Store, e: Event, now: Time, w: string)
    requires w !in LeftWorkflow(s, e) && w != GroupOf(ApplyEvent(s, e, now).tasks, e.uuid, EventWorkflow(e))
    ensures w in ApplyEvent(s, e, now).workflows <==> w in s.workflows
    ensures w in s.workflows ==> ApplyEvent(s, e, now).workflows[w] == s.workflows[w]
  {
    if e.uuid != "" {
      var tasks := UpsertTask(s.tasks, e);
      assert GroupOf(UpsertParent(tasks, e, now), e.uuid, EventWorkflow(e)) == GroupOf(tasks, e.uuid, EventWorkflow(e));
    }
  }

  lemma {:induction false} RepairAfterEvent(s: Store, e: Event, now: Time, root: string -> string)
    requires CountedBut(s, GroupOf(s.tasks, e.uuid, EventWorkflow(e))) &&
      NamedBut(s, GroupOf(s.tasks, e.uuid, EventWorkflow(e)))
    requires Grouped(s.tasks, root)
    ensures Inv(Recompute(Store(UpsertParent(s.tasks, e, now), UpsertMembership(s, e)), e.uuid, EventWorkflow(e)), root)
  {
    ParentKeepsCounts(s.tasks, e, now, root);
    var related := Store(UpsertParent(s.tasks, e, now), UpsertMembership(s, e));
    forall id <- related.tasks | related.tasks[id].workflow.Some?
      ensures Find(s.tasks, id).workflow == related.tasks[id].workflow
    {
      assert Find(related.tasks, id).workflow == Find(s.tasks, id).workflow;
    }
    RecomputeRepairs(related, e.uuid, EventWorkflow(e), root);
  }

  lemma {:induction false} MetaGroups(t: Task, id: string, m: Meta, now: Time, root: string -> string)
    requires IsGrouped(t, id, root)
    ensures IsGrouped(MergeMeta(t, id, m, now), id, root)
    ensures MergeMeta(t, id, m, now).workflow == Some(t.workflow.Or(id))
  {
  }

  lemma {:induction false} PollKeepsInv(s: Store, root: string -> string, id: string, m: Meta, now: Time)
    requires Inv(s, root) && IsAncestry(root)
    ensures Inv(ApplyPoll(s, id, m, now), root)
  {
    var t := MergeMeta(Find(s.tasks, id), id, m, now);
    MetaGroups(Find(s.tasks, id), id, m, now, root);
    WriteLeavesOne(s, root, id, t, {});
    assert s.workflows - {} == s.workflows;
    RecomputeRepairs(Store(s.tasks[id := t], s.workflows), id, id, root);
  }

  lemma {:induction false} ResultSameMembers(s: Store, id: string, data: map<string, string>, w: string)
    requires forall name <- data :: IsResultField(name)
    ensures SameMembers(s.tasks, ApplyResult(s, id, data).tasks, w)
  {
    assert "worker" !in data;
    if id in s.tasks {
      assert Get(Overlay(s.tasks[id].fields, data, true), "worker") == Get(s.tasks[id].fields, "worker");
    }
  }

  lemma {:induction false} ResultKeepsInv(s: Store, root: string -> string, id: string, data: map<string, string>)
    requires Inv(s, root) && forall name <- data :: IsResultField(name)
    ensures Inv(ApplyResult(s, id, data), root)
  {
    var after := ApplyResult(s, id, data);
    forall w <- after.workflows ensures after.workflows[w] == Recount(after.tasks, w) {
      ResultSameMembers(s, id, data, w);
      RecountFrame(s.tasks, after.tasks, w);
    }
  }

  lemma {:induction false} DeleteKeepsInv(s: Store, root: string -> string, rows: set<string>)
    requires Inv(s, root)
    ensures Inv(Delete(s, rows), root)
  {
    forall w <- s.workflows - rows ensures Recount(Delete(s, rows).tasks, w) == Recount(s.tasks, w) {
      RecountFrame(s.tasks, Delete(s, rows).tasks, w);
    }
  }
}
