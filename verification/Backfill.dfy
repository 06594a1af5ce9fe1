/**
  planWorkflowBackfill (runtime/surreal-schema.ts): one pass over the tasks that folds them into workflow rows,
  against the recount that the ingester does for each workflow.
 */
module Backfill {
  import opened Options
  import opened TaskMerge
  import opened WorkflowSummary
  import TaskConvergence

  datatype Row = Row(id: string, task: Task)

  function GroupFor(row: Row): string {
    if IsFilled(Get(row.task.fields, "root_id")) then row.task.fields["root_id"]
    else if IsFilled(row.task.workflow) then row.task.workflow.value
    else row.id
  }

  /** An import groups a task where the events of its backup had put it, also if the backup lacks the grouping. */
  lemma {:induction false} ImportKeepsGroup(es: seq<Event>, id: string)
    requires es != [] && id != "" && TaskConvergence.AreTaskEvents(es) && TaskConvergence.IsConsistent(es, id)
    ensures var t := TaskConvergence.Merged(es);
      && t.workflow == Some(GroupFor(Row(id, t)))
      && t.workflow == Some(GroupFor(Row(id, t.(workflow := None))))
  {
    var t := TaskConvergence.Merged(es);
    var e := TaskConvergence.MergedWorkflow(es, id);
    TaskConvergence.MergedRoot(es);
    if "root_id" in t.fields {
      var carrier := TaskConvergence.FieldIsCarried(es, "root_id");
      assert TaskConvergence.RootOf(carrier) == TaskConvergence.RootOf(e);
    }
  }

  /** Without a root in the backup, a grouping that is stored there is kept. */
  lemma {:induction false} StoredGroupStays(row: Row)
    requires Get(row.task.fields, "root_id").Or("") == "" && row.task.workflow.Or("") != ""
    ensures row.task.workflow == Some(GroupFor(row))
  {
  }

  /** The row of a workflow while tasks are folded into it. */
  datatype Seed = Seed(
    total: nat, completed: nat, failures: nat, retries: nat, active: nat, workers: set<string>,
    lastUpdated: Option<Time>)

  const NEW_SEED := Seed(0, 0, 0, 0, 0, {}, None)

  function OneIf(condition: bool): nat { if condition then 1 else 0 }

  /** What the loop body does to the row of the task's workflow; an empty state counts as no state. */
  function Fold(seed: Seed, t: Task): Seed {
    var worker := Get(t.fields, "worker");
    Seed(
      seed.total + 1,
      seed.completed + OneIf(IsFilled(t.state) && IsCompleted(t.state)),
      seed.failures + OneIf(IsFailure(t.state)),
      seed.retries + OneIf(IsRetry(t.state)),
      seed.active + OneIf(IsActive(t.state)),
      if IsFilled(worker) then seed.workers + {worker.value} else seed.workers,
      if t.lastUpdated.Some? && (seed.lastUpdated.None? || t.lastUpdated.value > seed.lastUpdated.value)
      then t.lastUpdated else seed.lastUpdated)
  }

  function SeedOf(seeds: map<string, Seed>, w: string): Seed {
    if w in seeds then seeds[w] else NEW_SEED
  }

  function Summarize(seed: Seed): Summary {
    Summary(seed.total, seed.completed, seed.failures, seed.retries, seed.active, |seed.workers|,
            Aggregate(seed.total, seed.failures, seed.retries, seed.active))
  }

  datatype Step =
    | SetGroup(id: string, workflow: string)
    | SetRow(workflow: string, summary: Summary, lastUpdated: Option<Time>)
    | Relate(workflow: string, id: string)

  // ---- Specification: the rows of a list of tasks ----

  ghost predicate DistinctIds(rows: seq<Row>) {
    forall j, k :: 0 <= j < k < |rows| ==> rows[j].id != rows[k].id
  }

  /** The folded row of w. */
  function Tally(rows: seq<Row>, w: string): Seed {
    if rows == [] then NEW_SEED
    else
      var init, last := Tally(rows[..|rows| - 1], w), rows[|rows| - 1];
      if GroupFor(last) == w then Fold(init, last.task) else init
  }

  /** The workflows in the order of their first task. */
  function Groups(rows: seq<Row>): seq<string> {
    if rows == [] then []
    else
      var init, w := Groups(rows[..|rows| - 1]), GroupFor(rows[|rows| - 1]);
      if w in init then init else init + [w]
  }

  function GroupSteps(rows: seq<Row>): seq<Step> {
    if rows == [] then []
    else GroupSteps(rows[..|rows| - 1]) + [SetGroup(rows[|rows| - 1].id, GroupFor(rows[|rows| - 1]))]
  }

  function RelateSteps(rows: seq<Row>, w: string): seq<Step> {
    if rows == [] then []
    else
      var init, last := RelateSteps(rows[..|rows| - 1], w), rows[|rows| - 1];
      if GroupFor(last) == w then init + [Relate(w, last.id)] else init
  }

  function RowSteps(rows: seq<Row>, groups: seq<string>): seq<Step> {
    if groups == [] then []
    else
      var w := groups[|groups| - 1];
      RowSteps(rows, groups[..|groups| - 1])
        + ([SetRow(w, Summarize(Tally(rows, w)), Tally(rows, w).lastUpdated)] + RelateSteps(rows, w))
  }

  function PlanOf(rows: seq<Row>): seq<Step> {
    GroupSteps(rows) + RowSteps(rows, Groups(rows))
  }

  // ---- The loops ----

  lemma {:induction false} Snoc(rows: seq<Row>, k: nat)
    requires k < |rows|
    ensures rows[..k + 1][..k] == rows[..k] && rows[..k + 1][k] == rows[k] && |rows[..k + 1]| == k + 1
  {
  }

  lemma {:induction false} SnocGroup(groups: seq<string>, k: nat)
    requires k < |groups|
    ensures groups[..k + 1][..k] == groups[..k] && groups[..k + 1][k] == groups[k] && |groups[..k + 1]| == k + 1
  {
  }

  /** The pass over the tasks. A Map keeps its keys in insertion order; `order` is that order. */
  method FoldTasks(rows: seq<Row>) returns (order: seq<string>, seeds: map<string, Seed>)
    ensures order == Groups(rows) && forall w :: w in order <==> w in seeds
    ensures forall w :: SeedOf(seeds, w) == Tally(rows, w)
  {
    order, seeds := [], map[];
    for k := 0 to |rows|
      invariant order == Groups(rows[..k]) && forall w :: w in order <==> w in seeds
      invariant forall w :: SeedOf(seeds, w) == Tally(rows[..k], w)
    {
      Snoc(rows, k);
      var w := GroupFor(rows[k]);
      if w !in seeds {
        order := order + [w];
      }
      seeds := seeds[w := Fold(SeedOf(seeds, w), rows[k].task)];
    }
    assert rows[..|rows|] == rows;
  }

  method RelateMembers(rows: seq<Row>, w: string) returns (steps: seq<Step>)
    ensures steps == RelateSteps(rows, w)
  {
    steps := [];
    for k := 0 to |rows|
      invariant steps == RelateSteps(rows[..k], w)
    {
      Snoc(rows, k);
      if GroupFor(rows[k]) == w {
        steps := steps + [Relate(w, rows[k].id)];
      }
    }
    assert rows[..|rows|] == rows;
  }

  method AssignGroups(rows: seq<Row>) returns (steps: seq<Step>)
    ensures steps == GroupSteps(rows)
  {
    steps := [];
    for k := 0 to |rows|
      invariant steps == GroupSteps(rows[..k])
    {
      Snoc(rows, k);
      steps := steps + [SetGroup(rows[k].id, GroupFor(rows[k]))];
    }
    assert rows[..|rows|] == rows;
  }

  method PlanWorkflowBackfill(rows: seq<Row>) returns (steps: seq<Step>)
    ensures steps == PlanOf(rows)
  {
    var order, seeds := FoldTasks(rows);
    var first := AssignGroups(rows);
    steps := first;
    for k := 0 to |order|
      invariant steps == first + RowSteps(rows, order[..k])
    {
      SnocGroup(order, k);
      var w := order[k];
      var seed := SeedOf(seeds, w);
      var members := RelateMembers(rows, w);
      steps := steps + ([SetRow(w, Summarize(seed), seed.lastUpdated)] + members);
    }
    assert order[..|order|] == order;
  }

  // ---- The table the plan leaves ----

  function WithGroup(row: Row): Task {
    row.task.(workflow := Some(GroupFor(row)))
  }

  function Table(rows: seq<Row>): map<string, Task> {
    if rows == [] then map[] else Table(rows[..|rows| - 1])[rows[|rows| - 1].id := WithGroup(rows[|rows| - 1])]
  }

  lemma {:induction false} TableKeys(rows: seq<Row>, id: string)
    ensures id in Table(rows) <==> exists k :: 0 <= k < |rows| && rows[k].id == id
  {
    if rows != [] { TableKeys(rows[..|rows| - 1], id); }
  }

  lemma {:induction false} LastIsNew(rows: seq<Row>)
    requires rows != [] && DistinctIds(rows)
    ensures DistinctIds(rows[..|rows| - 1]) && rows[|rows| - 1].id !in Table(rows[..|rows| - 1])
  {
    TableKeys(rows[..|rows| - 1], rows[|rows| - 1].id);
  }

  lemma {:induction false} StateAdded(
    tasks: map<string, Task>, id: string, t: Task, w: string, p: Option<string> -> bool)
    requires id !in tasks
    ensures |InState(tasks[id := t], w, p)| == |InState(tasks, w, p)| + OneIf(t.workflow == Some(w) && p(t.state))
  {
    var more := if t.workflow == Some(w) && p(t.state) then {id} else {};
    assert InState(tasks[id := t], w, p) == InState(tasks, w, p) + more;
  }

  lemma {:induction false} MemberAdded(tasks: map<string, Task>, id: string, t: Task, w: string)
    requires id !in tasks
    ensures |Members(tasks[id := t], w)| == |Members(tasks, w)| + OneIf(t.workflow == Some(w))
  {
    var more := if t.workflow == Some(w) then {id} else {};
    assert Members(tasks[id := t], w) == Members(tasks, w) + more;
  }

  lemma {:induction false} WorkerAdded(tasks: map<string, Task>, id: string, t: Task, w: string)
    requires id !in tasks
    ensures Workers(tasks[id := t], w) ==
      Workers(tasks, w) + (if t.workflow == Some(w) && "worker" in t.fields then {t.fields["worker"]} else {})
  {
    var after := tasks[id := t];
    forall name | name in Workers(tasks, w) ensures name in Workers(after, w) {
      var other :| other in Members(tasks, w) && "worker" in tasks[other].fields &&
        tasks[other].fields["worker"] == name;
      assert other in Members(after, w) && after[other].fields["worker"] == name;
    }
    if t.workflow == Some(w) && "worker" in t.fields {
      assert id in Members(after, w) && after[id].fields["worker"] == t.fields["worker"];
    }
  }

  const IsCounted := (state: Option<string>) => IsFilled(state) && IsCompleted(state)

  /** What the fold counts, in terms of the members it counted. */
  lemma {:induction false} TallyCounts(rows: seq<Row>, w: string)
    requires DistinctIds(rows)
    ensures var seed, tasks := Tally(rows, w), Table(rows);
      && seed.total == |Members(tasks, w)|
      && seed.failures == |InState(tasks, w, IsFailure)| && seed.retries == |InState(tasks, w, IsRetry)|
      && seed.active == |InState(tasks, w, IsActive)| && seed.completed == |InState(tasks, w, IsCounted)|
  {
    if rows != [] {
      var init, last := rows[..|rows| - 1], rows[|rows| - 1];
      LastIsNew(rows);
      TallyCounts(init, w);
      MemberAdded(Table(init), last.id, WithGroup(last), w);
      StateAdded(Table(init), last.id, WithGroup(last), w, IsFailure);
      StateAdded(Table(init), last.id, WithGroup(last), w, IsRetry);
      StateAdded(Table(init), last.id, WithGroup(last), w, IsActive);
      StateAdded(Table(init), last.id, WithGroup(last), w, IsCounted);
    }
  }

  lemma {:induction false} TallyWorkers(rows: seq<Row>, w: string)
    requires DistinctIds(rows)
    ensures Tally(rows, w).workers == Workers(Table(rows), w) - {""}
  {
    if rows != [] {
      var init, last := rows[..|rows| - 1], rows[|rows| - 1];
      LastIsNew(rows);
      TallyWorkers(init, w);
      WorkerAdded(Table(init), last.id, WithGroup(last), w);
    }
  }

  // ---- When the plan is the recount ----

  /** No member lacks a state, and none has an empty state or worker. */
  ghost predicate IsClean(tasks: map<string, Task>, w: string) {
    forall id <- Members(tasks, w) :: IsFilled(tasks[id].state) && Get(tasks[id].fields, "worker") != Some("")
  }

  lemma {:induction false} SameSize(a: set<string>, b: set<string>)
    requires a <= b && |a| == |b|
    ensures a == b
  {
    assert b == a + (b - a);
  }

  lemma {:induction false} CompletedIff(tasks: map<string, Task>, w: string)
    ensures |InState(tasks, w, IsCounted)| == |InState(tasks, w, IsCompleted)|
       <==> forall id <- Members(tasks, w) :: IsFilled(tasks[id].state)
  {
    var counted, completed := InState(tasks, w, IsCounted), InState(tasks, w, IsCompleted);
    if |counted| == |completed| {
      SameSize(counted, completed);
      forall id <- Members(tasks, w) ensures IsFilled(tasks[id].state) {
        assert id in completed ==> id in counted;
      }
    }
    if forall id <- Members(tasks, w) :: IsFilled(tasks[id].state) {
      assert counted == completed;
    }
  }

  lemma {:induction false} WorkersIff(tasks: map<string, Task>, w: string)
    ensures |Workers(tasks, w) - {""}| == |Workers(tasks, w)|
       <==> forall id <- Members(tasks, w) :: Get(tasks[id].fields, "worker") != Some("")
  {
    var workers := Workers(tasks, w);
    if |workers - {""}| == |workers| {
      SameSize(workers - {""}, workers);
      forall id <- Members(tasks, w) ensures Get(tasks[id].fields, "worker") != Some("") {
        assert "worker" in tasks[id].fields ==> tasks[id].fields["worker"] in workers;
      }
    }
    if forall id <- Members(tasks, w) :: Get(tasks[id].fields, "worker") != Some("") {
      assert "" !in workers;
      assert workers - {""} == workers;
    }
  }

  /** The row that the one pass gives a workflow is the ingester's recount exactly when its members are clean. */
  lemma {:induction false} PlannedRowIsRecount(rows: seq<Row>, w: string)
    requires DistinctIds(rows)
    ensures Summarize(Tally(rows, w)) == Recount(Table(rows), w) <==> IsClean(Table(rows), w)
  {
    TallyCounts(rows, w);
    TallyWorkers(rows, w);
    CompletedIff(Table(rows), w);
    WorkersIff(Table(rows), w);
  }

  /** The planned time is a member's, and no member's is later. */
  lemma {:induction false} TallyLatest(rows: seq<Row>, w: string, id: string)
    requires DistinctIds(rows) && id in Members(Table(rows), w) && Table(rows)[id].lastUpdated.Some?
    ensures Tally(rows, w).lastUpdated.Some? && Table(rows)[id].lastUpdated.value <= Tally(rows, w).lastUpdated.value
  {
    var init, last := rows[..|rows| - 1], rows[|rows| - 1];
    LastIsNew(rows);
    if id != last.id { TallyLatest(init, w, id); }
  }

  lemma {:induction false} TallyLatestIsMember(rows: seq<Row>, w: string) returns (id: string)
    requires DistinctIds(rows) && Tally(rows, w).lastUpdated.Some?
    ensures id in Members(Table(rows), w) && Table(rows)[id].lastUpdated == Tally(rows, w).lastUpdated
  {
    var init, last := rows[..|rows| - 1], rows[|rows| - 1];
    LastIsNew(rows);
    if Tally(rows, w).lastUpdated == Tally(init, w).lastUpdated {
      id := TallyLatestIsMember(init, w);
    } else {
      id := last.id;
    }
  }

  // ---- One membership step per task ----

  lemma {:induction false} GroupStepsRelateNone(rows: seq<Row>, step: Step)
    requires step.Relate?
    ensures step !in multiset(GroupSteps(rows))
  {
    if rows != [] { GroupStepsRelateNone(rows[..|rows| - 1], step); }
  }

  ghost predicate HasRow(rows: seq<Row>, w: string, id: string) {
    exists k :: 0 <= k < |rows| && rows[k].id == id && GroupFor(rows[k]) == w
  }

  lemma {:induction false} HasRowSnoc(rows: seq<Row>, w: string, id: string)
    requires rows != []
    ensures HasRow(rows, w, id) <==>
      HasRow(rows[..|rows| - 1], w, id) || (rows[|rows| - 1].id == id && GroupFor(rows[|rows| - 1]) == w)
  {
    var init := rows[..|rows| - 1];
    if k :| 0 <= k < |init| && init[k].id == id && GroupFor(init[k]) == w { assert rows[k] == init[k]; }
    if k :| 0 <= k < |rows| - 1 && rows[k].id == id && GroupFor(rows[k]) == w { assert rows[k] == init[k]; }
  }

  lemma {:induction false} RelatesMembers(rows: seq<Row>, v: string, w: string, id: string)
    requires DistinctIds(rows)
    ensures multiset(RelateSteps(rows, v))[Relate(w, id)] == OneIf(v == w && HasRow(rows, w, id))
  {
    if rows != [] {
      var init, last := rows[..|rows| - 1], rows[|rows| - 1];
      RelatesMembers(init, v, w, id);
      HasRowSnoc(rows, w, id);
    }
  }

  lemma {:induction false} GroupsHold(rows: seq<Row>, w: string)
    ensures w in Groups(rows) <==> exists id :: HasRow(rows, w, id)
  {
    if rows != [] {
      var init, last := rows[..|rows| - 1], rows[|rows| - 1];
      GroupsHold(init, w);
      forall id ensures HasRow(rows, w, id) <==> HasRow(init, w, id) || (last.id == id && GroupFor(last) == w) {
        HasRowSnoc(rows, w, id);
      }
      if GroupFor(last) == w { assert HasRow(rows, w, last.id); }
    }
  }

  ghost predicate Distinct(groups: seq<string>) {
    forall j, k :: 0 <= j < k < |groups| ==> groups[j] != groups[k]
  }

  lemma {:induction false} GroupsDistinct(rows: seq<Row>)
    ensures Distinct(Groups(rows))
  {
    if rows != [] { GroupsDistinct(rows[..|rows| - 1]); }
  }

  lemma {:induction false} RowStepsRelate(rows: seq<Row>, groups: seq<string>, w: string, id: string)
    requires DistinctIds(rows) && Distinct(groups)
    ensures multiset(RowSteps(rows, groups))[Relate(w, id)] == OneIf(w in groups && HasRow(rows, w, id))
  {
    if groups != [] {
      var init, v := groups[..|groups| - 1], groups[|groups| - 1];
      assert groups == init + [v];
      RowStepsRelate(rows, init, w, id);
      RelatesMembers(rows, v, w, id);
    }
  }

  /** The plan relates each task to its own workflow once, and to no other. */
  lemma {:induction false} OneMembershipEach(rows: seq<Row>, w: string, id: string)
    requires DistinctIds(rows)
    ensures multiset(PlanOf(rows))[Relate(w, id)] == OneIf(HasRow(rows, w, id))
  {
    GroupStepsRelateNone(rows, Relate(w, id));
    GroupsDistinct(rows);
    RowStepsRelate(rows, Groups(rows), w, id);
    GroupsHold(rows, w);
  }

  // ---- Importing a backup ----

  /** The statements of the plan on the tables; membership edges are not counted from. */
  function ApplyStep(s: Store, step: Step): Store {
    match step
    case SetGroup(id, w) => s.(tasks := s.tasks[id := Find(s.tasks, id).(workflow := Some(w))])
    case SetRow(w, summary, _) => s.(workflows := s.workflows[w := summary])
    case Relate(_, _) => s
  }

  function RunSteps(s: Store, steps: seq<Step>): Store {
    if steps == [] then s else ApplyStep(RunSteps(s, steps[..|steps| - 1]), steps[|steps| - 1])
  }

  /** The imported records before the plan runs. */
  function Stored(rows: seq<Row>): map<string, Task> {
    if rows == [] then map[] else Stored(rows[..|rows| - 1])[rows[|rows| - 1].id := rows[|rows| - 1].task]
  }

  function ImportBackup(rows: seq<Row>): Store {
    RunSteps(Store(Stored(rows), map[]), PlanOf(rows))
  }

  function PlannedRows(rows: seq<Row>, groups: seq<string>): map<string, Summary> {
    map w | w in groups :: Summarize(Tally(rows, w))
  }

  lemma {:induction false} RunConcat(s: Store, a: seq<Step>, b: seq<Step>)
    ensures RunSteps(s, a + b) == RunSteps(RunSteps(s, a), b)
  {
    if b == [] {
      assert a + b == a;
    } else {
      assert (a + b)[..|a + b| - 1] == a + b[..|b| - 1];
      RunConcat(s, a, b[..|b| - 1]);
    }
  }

  lemma {:induction false} Replaced(a: map<string, Task>, more: map<string, Task>, id: string, t: Task)
    requires id !in more
    ensures a[id := t] + more == a + more[id := t]
  {
  }

  lemma {:induction false} Regrouped(a: map<string, Task>, more: map<string, Task>, row: Row)
    requires row.id !in more
    ensures Find(a + more[row.id := row.task], row.id).(workflow := Some(GroupFor(row))) == WithGroup(row)
    ensures (a + more[row.id := row.task])[row.id := WithGroup(row)] == a[row.id := WithGroup(row)] + more
  {
  }

  /** The statements that set groups, next to other tasks. */
  lemma {:induction false} GroupsSet(rows: seq<Row>, more: map<string, Task>)
    requires DistinctIds(rows) && forall k :: 0 <= k < |rows| ==> rows[k].id !in more
    ensures RunSteps(Store(Stored(rows) + more, map[]), GroupSteps(rows)) == Store(Table(rows) + more, map[])
  {
    if rows != [] {
      var init, last := rows[..|rows| - 1], rows[|rows| - 1];
      var rest := more[last.id := last.task];
      assert Stored(rows) + more == Stored(init) + rest by { Replaced(Stored(init), more, last.id, last.task); }
      GroupsSet(init, rest);
      LastIsNew(rows);
      Regrouped(Table(init), more, last);
    }
  }

  lemma {:induction false} RelatesKeep(s: Store, rows: seq<Row>, w: string)
    ensures RunSteps(s, RelateSteps(rows, w)) == s
  {
    if rows != [] { RelatesKeep(s, rows[..|rows| - 1], w); }
  }

  lemma {:induction false} OneRowSet(s: Store, rows: seq<Row>, w: string)
    ensures RunSteps(s, [SetRow(w, Summarize(Tally(rows, w)), Tally(rows, w).lastUpdated)] + RelateSteps(rows, w))
         == s.(workflows := s.workflows[w := Summarize(Tally(rows, w))])
  {
    var first := [SetRow(w, Summarize(Tally(rows, w)), Tally(rows, w).lastUpdated)];
    RunConcat(s, first, RelateSteps(rows, w));
    assert first[..0] == [];
    RelatesKeep(RunSteps(s, first), rows, w);
  }

  lemma {:induction false} PlannedRowsSnoc(rows: seq<Row>, groups: seq<string>)
    requires groups != []
    ensures var init, w := groups[..|groups| - 1], groups[|groups| - 1];
      PlannedRows(rows, groups) == PlannedRows(rows, init)[w := Summarize(Tally(rows, w))]
  {
    assert groups == groups[..|groups| - 1] + [groups[|groups| - 1]];
  }

  lemma {:induction false} RowsSet(tasks: map<string, Task>, rows: seq<Row>, groups: seq<string>)
    ensures RunSteps(Store(tasks, map[]), RowSteps(rows, groups)) == Store(tasks, PlannedRows(rows, groups))
  {
    if groups != [] {
      var init, w := groups[..|groups| - 1], groups[|groups| - 1];
      var more := [SetRow(w, Summarize(Tally(rows, w)), Tally(rows, w).lastUpdated)] + RelateSteps(rows, w);
      RowsSet(tasks, rows, init);
      RunConcat(Store(tasks, map[]), RowSteps(rows, init), more);
      OneRowSet(Store(tasks, PlannedRows(rows, init)), rows, w);
      PlannedRowsSnoc(rows, groups);
    }
  }

  /** An import leaves every task grouped and one row for each group. */
  lemma {:induction false} ImportLeaves(rows: seq<Row>)
    requires DistinctIds(rows)
    ensures ImportBackup(rows) == Store(Table(rows), PlannedRows(rows, Groups(rows)))
  {
    GroupsSet(rows, map[]);
    assert Stored(rows) + map[] == Stored(rows) && Table(rows) + map[] == Table(rows);
    RunConcat(Store(Stored(rows), map[]), GroupSteps(rows), RowSteps(rows, Groups(rows)));
    RowsSet(Table(rows), rows, Groups(rows));
  }

  /** After an import every row is its recount exactly when every member of every workflow is clean. */
  lemma {:induction false} ImportCountsIff(rows: seq<Row>)
    requires DistinctIds(rows)
    ensures Counted(ImportBackup(rows)) <==> forall w <- Groups(rows) :: IsClean(Table(rows), w)
  {
    ImportLeaves(rows);
    forall w ensures Summarize(Tally(rows, w)) == Recount(Table(rows), w) <==> IsClean(Table(rows), w) {
      PlannedRowIsRecount(rows, w);
    }
    if Counted(ImportBackup(rows)) {
      forall w <- Groups(rows) ensures IsClean(Table(rows), w) {
        assert w in ImportBackup(rows).workflows;
      }
    }
  }

  lemma {:induction false} TableGroups(rows: seq<Row>, id: string)
    requires id in Table(rows)
    ensures Table(rows)[id].workflow.Some? && Table(rows)[id].workflow.value in Groups(rows)
  {
    if rows != [] && rows[|rows| - 1].id != id { TableGroups(rows[..|rows| - 1], id); }
  }

  /** Every imported task's workflow has a row. */
  lemma {:induction false} ImportNames(rows: seq<Row>)
    requires DistinctIds(rows)
    ensures Named(ImportBackup(rows))
  {
    ImportLeaves(rows);
    forall id <- Table(rows)
      ensures Table(rows)[id].workflow.Some? && Table(rows)[id].workflow.value in PlannedRows(rows, Groups(rows))
    {
      TableGroups(rows, id);
    }
  }
}
