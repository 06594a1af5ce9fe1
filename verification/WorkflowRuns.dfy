/** Every run of the transactions that touch tasks and workflows keeps the summaries exact. */
module WorkflowRuns {
  import opened TaskMerge
  import opened WorkflowSummary
  import opened Backfill

  datatype Step =
    | Batch(events: seq<Event>, now: Time)
    | Poll(id: string, meta: Meta, now: Time)
    | FetchResult(id: string, data: map<string, string>)
    | Cleanup(workflows: set<string>)
    | Import(rows: seq<Row>)
    | Clear

  /** A backup of well-formed tasks whose groups follow the ancestry. */
  ghost predicate IsImportable(rows: seq<Row>, root: string -> string) {
    && DistinctIds(rows)
    && (forall w <- Groups(rows) :: IsClean(Table(rows), w))
    && (forall row <- rows :: (row.task.state.Some? <==> row.task.lastUpdated.Some?) &&
         (GroupFor(row) == row.id || GroupFor(row) == root(row.id)))
  }

  lemma {:induction false} TableGrouped(rows: seq<Row>, root: string -> string, id: string)
    requires id in Table(rows) && DistinctIds(rows)
    requires forall row <- rows ::
      (row.task.state.Some? <==> row.task.lastUpdated.Some?) &&
      (GroupFor(row) == row.id || GroupFor(row) == root(row.id))
    requires forall w <- Groups(rows) :: IsClean(Table(rows), w)
    ensures IsGrouped(Table(rows)[id], id, root)
  {
    var k := RowBehind(rows, id);
    assert rows[k] in rows;
    TableGroups(rows, id);
    assert id in Members(Table(rows), GroupFor(rows[k]));
  }

  lemma {:induction false} RowBehind(rows: seq<Row>, id: string) returns (k: nat)
    requires id in Table(rows)
    ensures k < |rows| && rows[k].id == id && Table(rows)[id] == WithGroup(rows[k])
  {
    if rows[|rows| - 1].id == id { k := |rows| - 1; } else { k := RowBehind(rows[..|rows| - 1], id); }
  }

  lemma {:induction false} ImportHasInv(rows: seq<Row>, root: string -> string)
    requires IsImportable(rows, root)
    ensures Inv(ImportBackup(rows), root)
  {
    ImportCountsIff(rows);
    ImportNames(rows);
    ImportLeaves(rows);
    forall id <- Table(rows) ensures IsGrouped(Table(rows)[id], id, root) {
      TableGrouped(rows, root, id);
    }
  }

  ghost predicate CanStep(step: Step, root: string -> string) {
    match step
    case Batch(events, _) => forall e <- events :: Agrees(e, root)
    case FetchResult(_, data) => forall name <- data :: IsResultField(name)
    case Import(rows) => IsImportable(rows, root)
    case _ => true
  }

  /** One transaction for the whole batch, each event's statements behind the previous event's. */
  function ApplyBatch(s: Store, events: seq<Event>, now: Time): Store
    decreases |events|
  {
    if events == [] then s else ApplyBatch(ApplyEvent(s, events[0], now), events[1..], now)
  }

  const EMPTY := Store(map[], map[])

  function Apply(s: Store, step: Step): Store {
    match step
    case Batch(events, now) => ApplyBatch(s, events, now)
    case Poll(id, meta, now) => ApplyPoll(s, id, meta, now)
    case FetchResult(id, data) => ApplyResult(s, id, data)
    case Cleanup(workflows) => Delete(s, workflows)
    case Import(rows) => ImportBackup(rows)
    case Clear => EMPTY
  }

  lemma {:induction false} BatchKeepsInv(s: Store, root: string -> string, events: seq<Event>, now: Time)
    requires Inv(s, root) && IsAncestry(root) && forall e <- events :: Agrees(e, root)
    ensures Inv(ApplyBatch(s, events, now), root)
    decreases |events|
  {
    if events != [] {
      EventKeepsInv(s, root, events[0], now);
      BatchKeepsInv(ApplyEvent(s, events[0], now), root, events[1..], now);
    }
  }

  lemma {:induction false} StepKeepsInv(s: Store, root: string -> string, step: Step)
    requires Inv(s, root) && IsAncestry(root) && CanStep(step, root)
    ensures Inv(Apply(s, step), root)
  {
    match step
    case Batch(events, now) => BatchKeepsInv(s, root, events, now);
    case Poll(id, meta, now) => PollKeepsInv(s, root, id, meta, now);
    case FetchResult(id, data) => ResultKeepsInv(s, root, id, data);
    case Cleanup(workflows) => DeleteKeepsInv(s, root, workflows);
    case Import(rows) => ImportHasInv(rows, root);
    case Clear =>
  }

  function Execute(steps: seq<Step>): Store
    decreases |steps|
  {
    if steps == [] then EMPTY else Apply(Execute(steps[..|steps| - 1]), steps[|steps| - 1])
  }

  /**
    After every run of transactions with consistent ancestry, each workflow row equals the recount of its members,
    which are active, retried or completed, and each grouped task's workflow has a row.
   */
  lemma {:induction false} SummariesAreExact(steps: seq<Step>, root: string -> string)
    requires IsAncestry(root) && forall step <- steps :: CanStep(step, root)
    ensures Inv(Execute(steps), root)
    ensures forall w <- Execute(steps).workflows :: var row := Execute(steps).workflows[w];
      row.active + row.retries + row.completed == row.total == |Members(Execute(steps).tasks, w)|
    decreases |steps|
  {
    if steps != [] {
      SummariesAreExact(steps[..|steps| - 1], root);
      StepKeepsInv(Execute(steps[..|steps| - 1]), root, steps[|steps| - 1]);
    }
    forall w <- Execute(steps).workflows
      ensures var row := Execute(steps).workflows[w];
        row.active + row.retries + row.completed == row.total == |Members(Execute(steps).tasks, w)|
    {
      RecountPartitions(Execute(steps).tasks, w);
    }
  }
}
