/**
  The tables an indexed search reads: after any run of writers and builders it finds what the plain predicates
  of src/lib/indexed-search.ts find.
 */
module SearchDatabase {
  import opened Options
  import opened SearchTerms
  import opened SearchProjection
  import opened SearchTables

  // ---- The triggers of the search schema ----

  /** UPDATE task_search ... for the kwargs text that the row holds, whatever its source. */
  ghost predicate IsTermUpdate(p: Projection, q: Projection, task: Task) {
    exists source: Option<string> :: q == WithTerms(p, task.kwargs, source)
  }

  ghost function TaskUpkeep(lower: Lower): Upkeep<Task, Projection> {
    Upkeep(
      (now: Task) => Task(now.id, seq(|now.fields|, (k: int) => None), None, None),
      (now: Task, before: Task) => now.id == before.id && |now.fields| == |before.fields|,
      (now: Task, before: Task) => Searched(now) == Searched(before),
      (now: Task, before: Task, p: Option<Projection>) =>
        if |now.fields| == |before.fields| && (p.Some? ==> |p.value.texts.grams| == |now.fields| + 2)
        then Project(lower, now, before, p) else Projection(TextIndex([], true), {}, true),
      (p: Projection, q: Projection, task: Task) => IsTermUpdate(p, q, task),
      (p: Projection, task: Task) => Covers(lower, p, task))
  }

  ghost function WorkflowUpkeep(lower: Lower): Upkeep<Workflow, TextIndex> {
    Upkeep(
      (now: Workflow) => now.(fields := seq(|now.fields|, (k: int) => None)),
      (now: Workflow, before: Workflow) =>
        now.id == before.id && now.rootTaskId == before.rootTaskId && |now.fields| == |before.fields|,
      (now: Workflow, before: Workflow) => WorkflowFields(now) == WorkflowFields(before),
      (now: Workflow, before: Workflow, i: Option<TextIndex>) =>
        if |now.fields| == |before.fields| && (i.Some? ==> |i.value.grams| == |now.fields| + 2)
        then ProjectWorkflow(lower, now, before, i) else TextIndex([], true),
      (i: TextIndex, j: TextIndex, w: Workflow) => false,
      (i: TextIndex, w: Workflow) => CoversWorkflow(lower, i, w))
  }

  lemma {:induction false} TaskUpkeepSound(lower: Lower)
    ensures Sound(TaskUpkeep(lower))
  {
    var u := TaskUpkeep(lower);
    forall now: Task, before: Task, p: Option<Projection> | u.sameRecord(now, before) &&
      (p.Some? ==> u.covers(p.value, before))
      ensures u.covers(u.project(now, before, p), now)
    {
      ProjectCovers(lower, now, before, p);
    }
    forall p: Projection, q: Projection, task: Task | u.rewrites(p, q, task) && u.covers(p, task)
      ensures u.covers(q, task)
    {
      var source: Option<string> :| q == WithTerms(p, task.kwargs, source);
      AnySourceCovers(task.kwargs, source);
    }
    forall now: Task, before: Task, p: Projection | u.sameRecord(now, before) && u.same(now, before) &&
      u.covers(p, before)
      ensures u.covers(p, now)
    {
      assert Searched(now)[|now.fields|] == now.kwargs && Searched(before)[|now.fields|] == before.kwargs;
    }
  }

  lemma {:induction false} WorkflowUpkeepSound(lower: Lower)
    ensures Sound(WorkflowUpkeep(lower))
  {
    var u := WorkflowUpkeep(lower);
    forall now: Workflow, before: Workflow, i: Option<TextIndex> |
      u.sameRecord(now, before) && (i.Some? ==> u.covers(i.value, before))
      ensures u.covers(u.project(now, before, i), now)
    {
      ProjectWorkflowCovers(lower, now, before, i);
    }
  }

  type Tables = Database<Task, Projection, Workflow, TextIndex>
  type Change = Step<Task, Projection, Workflow>

  ghost function SearchTriggers(lower: Lower): Triggers<Task, Projection, Workflow, TextIndex> {
    Triggers(TaskUpkeep(lower), WorkflowUpkeep(lower))
  }

  // ---- Searches ----

  ghost function PlainTasks(lower: Lower, s: Tables, search: Search): set<nat> {
    set id | id in s.tasks.rows && TaskMatches(lower, search, s.tasks.rows[id])
  }

  /** build_indexed_task_search: candidates first once the projections are ready, then the same predicate. */
  ghost function IndexedTasks(lower: Lower, s: Tables, search: Search): set<nat> {
    if !IsIndexedSearch(search) || !s.ready then PlainTasks(lower, s, search)
    else set id | id in s.tasks.index && TaskCandidate(s.tasks.index[id], search)
                && id in s.tasks.rows && TaskMatches(lower, search, s.tasks.rows[id])
  }

  /** $searchWorkflows, only computed for a key=value search. */
  ghost function MemberWorkflows(s: Tables, search: Search, tasks: set<nat>, range: set<string>): set<string> {
    if search.pair.None? then {}
    else set id | id in tasks && id in s.tasks.rows && s.tasks.rows[id].workflow.Some?
             && s.tasks.rows[id].workflow.value in range :: s.tasks.rows[id].workflow.value
  }

  ghost function PlainWorkflows(lower: Lower, s: Tables, search: Search, range: set<string>): set<nat> {
    var members := MemberWorkflows(s, search, PlainTasks(lower, s, search), range);
    set id | id in s.workflows.rows && WorkflowMatches(lower, search, s.workflows.rows[id], members)
  }

  ghost function IndexedWorkflows(lower: Lower, s: Tables, search: Search, range: set<string>): set<nat> {
    if !IsIndexedSearch(search) || !s.ready then PlainWorkflows(lower, s, search, range)
    else
      var members := MemberWorkflows(s, search, IndexedTasks(lower, s, search), range);
      set id | id in s.workflows.index && id in s.workflows.rows
            && WorkflowCandidate(s.workflows.index[id], search, s.workflows.rows[id], members)
            && WorkflowMatches(lower, search, s.workflows.rows[id], members)
  }

  ghost predicate RowsHaveScalarKeys(s: Tables) {
    forall id <- s.tasks.rows :: KeysAreScalars(s.tasks.rows[id].kwargs.Or(""))
  }

  lemma {:induction false} IndexedTasksArePlain(lower: Lower, s: Tables, search: Search)
    requires Inv(SearchTriggers(lower), s) && RowsHaveScalarKeys(s) && IsSearch(search)
    ensures IndexedTasks(lower, s, search) == PlainTasks(lower, s, search)
  {
    if IsIndexedSearch(search) && s.ready {
      forall id <- PlainTasks(lower, s, search) ensures TaskCandidate(s.tasks.index[id], search) {
        MatchIsCandidate(lower, search, s.tasks.rows[id], s.tasks.index[id]);
      }
    }
  }

  lemma {:induction false} IndexedWorkflowsArePlain(lower: Lower, s: Tables, search: Search, range: set<string>)
    requires Inv(SearchTriggers(lower), s) && RowsHaveScalarKeys(s) && IsSearch(search)
    ensures IndexedWorkflows(lower, s, search, range) == PlainWorkflows(lower, s, search, range)
  {
    if IsIndexedSearch(search) && s.ready {
      IndexedTasksArePlain(lower, s, search);
      var members := MemberWorkflows(s, search, PlainTasks(lower, s, search), range);
      forall id <- PlainWorkflows(lower, s, search, range)
        ensures WorkflowCandidate(s.workflows.index[id], search, s.workflows.rows[id], members)
      {
        WorkflowMatchIsCandidate(lower, search, s.workflows.rows[id], s.workflows.index[id], members);
      }
    }
  }

  /** After any run of writers and builders an indexed search finds what the plain search finds. */
  lemma {:induction false} IndexedSearchIsExact(
    lower: Lower, steps: seq<Change>, s: Tables, search: Search, range: set<string>)
    requires Execute(SearchTriggers(lower), steps) == Some(s) && RowsHaveScalarKeys(s) && IsSearch(search)
    ensures IndexedTasks(lower, s, search) == PlainTasks(lower, s, search)
    ensures IndexedWorkflows(lower, s, search, range) == PlainWorkflows(lower, s, search, range)
  {
    TaskUpkeepSound(lower);
    WorkflowUpkeepSound(lower);
    ReachableInv(SearchTriggers(lower), steps);
    IndexedTasksArePlain(lower, s, search);
    IndexedWorkflowsArePlain(lower, s, search, range);
  }

  /** Every query is such a search. */
  lemma {:induction false} IndexedQueryIsExact(
    nonprintable: char -> bool, fold: Lower, query: string, lower: Lower, steps: seq<Change>, s: Tables,
    range: set<string>)
    requires Execute(SearchTriggers(lower), steps) == Some(s) && RowsHaveScalarKeys(s)
    ensures var search := SearchFor(nonprintable, fold, query);
      && IndexedTasks(lower, s, search) == PlainTasks(lower, s, search)
      && IndexedWorkflows(lower, s, search, range) == PlainWorkflows(lower, s, search, range)
  {
    ClausePair(nonprintable, fold, query);
    IndexedSearchIsExact(lower, steps, s, SearchFor(nonprintable, fold, query), range);
  }
}
