/** From query text to result rows: what a search through the index finds in any reachable state. */
module SearchResults {
  import opened Options
  import opened SearchText
  import opened SearchValue
  import opened SearchParser
  import opened SearchPattern
  import opened SearchFind
  import opened SearchClause
  import opened SearchPrinted
  import opened SearchTerms
  import opened SearchQuery
  import opened SearchProjection
  import opened SearchTables
  import opened SearchDatabase

  /** A text search looks at no member tasks; a key=value search also finds the workflows in range of what it finds. */
  lemma {:induction false} WorkflowsFound(lower: Lower, s: Tables, search: Search, range: set<string>, w: nat)
    requires w in s.workflows.rows
    ensures w in PlainWorkflows(lower, s, search, range) <==>
      || TextMatches(lower, WorkflowTexts(s.workflows.rows[w]), search.text)
      || (&& search.pair.Some? && s.workflows.rows[w].rootTaskId in range
          && exists id: nat :: IsMember(lower, s, search, s.workflows.rows[w].rootTaskId, id))
  {
    var root := s.workflows.rows[w].rootTaskId;
    if id: nat :| IsMember(lower, s, search, root, id) {
      assert id in PlainTasks(lower, s, search);
    }
    if root in MemberWorkflows(s, search, PlainTasks(lower, s, search), range) {
      var id :| id in PlainTasks(lower, s, search) && s.tasks.rows[id].workflow == Some(root);
      assert IsMember(lower, s, search, root, id);
    }
  }

  /** A task of the workflow that the search finds. */
  ghost predicate IsMember(lower: Lower, s: Tables, search: Search, workflow: string, id: nat) {
    id in s.tasks.rows && s.tasks.rows[id].workflow == Some(workflow) && TaskMatches(lower, search, s.tasks.rows[id])
  }

  /** A query for a printed value, and a task whose kwargs are a printed dictionary. */
  ghost predicate IsCase(
    q: Spelled, qd: Dumper, value: SearchValue, d: Dumper, v: SearchValue, fold: Lower, task: Task) {
    && q.Valid() && q.raw == qd.Text(value) && qd.CanPrint(value) && WellFormed(value)
    && Depth(value) <= MAX_NESTING_DEPTH && BuildTaskSearch(d.nonprintable, fold, q.Text()).keyValue.Some?
    && WellFormed(v) && v.Collection? && v.isObject && task.kwargs == Some(d.Text(v))
  }

  lemma {:induction false} CaseMatches(
    q: Spelled, qd: Dumper, value: SearchValue, d: Dumper, v: SearchValue, fold: Lower, lower: Lower, task: Task)
    requires IsCase(q, qd, value, d, v, fold, task)
    ensures var search, has := SearchFor(d.nonprintable, fold, q.Text()), HasEntry(v, Entry(Str(q.key), value));
      && search.pair.Some? && (has ==> TaskMatches(lower, search, task))
      && (NoBackslash(d.Text(v)) && Depth(v) <= MAX_NESTING_DEPTH && TaskMatches(lower, search, task) ==>
            has || TextMatches(lower, TaskTexts(task), search.text))
  {
    ClausePair(d.nonprintable, fold, q.Text());
    QueryFinds(fold, q, qd, value, d, v);
  }

  /**
    Through the index, in every reachable state, a query for a printed value finds every task whose printed kwargs
    have such an entry; and no task without one, unless its texts hold the query.
   */
  lemma {:induction false} TasksFound(
    q: Spelled, qd: Dumper, value: SearchValue, d: Dumper, v: SearchValue, fold: Lower, lower: Lower,
    steps: seq<Change>, s: Tables, id: nat)
    requires Execute(SearchTriggers(lower), steps) == Some(s) && RowsHaveScalarKeys(s)
    requires id in s.tasks.rows && IsCase(q, qd, value, d, v, fold, s.tasks.rows[id])
    ensures var search, has := SearchFor(d.nonprintable, fold, q.Text()), HasEntry(v, Entry(Str(q.key), value));
      && (has ==> id in IndexedTasks(lower, s, search))
      && (NoBackslash(d.Text(v)) && Depth(v) <= MAX_NESTING_DEPTH && id in IndexedTasks(lower, s, search) ==>
            has || TextMatches(lower, TaskTexts(s.tasks.rows[id]), search.text))
  {
    IndexedQueryIsExact(d.nonprintable, fold, q.Text(), lower, steps, s, {});
    CaseMatches(q, qd, value, d, v, fold, lower, s.tasks.rows[id]);
  }

  /** And every workflow in range with a task that has such an entry. */
  lemma {:induction false} TheirWorkflowsFound(
    q: Spelled, qd: Dumper, value: SearchValue, d: Dumper, v: SearchValue, fold: Lower, lower: Lower,
    steps: seq<Change>, s: Tables, range: set<string>, id: nat, w: nat)
    requires Execute(SearchTriggers(lower), steps) == Some(s) && RowsHaveScalarKeys(s)
    requires id in s.tasks.rows && IsCase(q, qd, value, d, v, fold, s.tasks.rows[id])
    requires HasEntry(v, Entry(Str(q.key), value))
    requires w in s.workflows.rows && s.tasks.rows[id].workflow == Some(s.workflows.rows[w].rootTaskId)
    requires s.workflows.rows[w].rootTaskId in range
    ensures w in IndexedWorkflows(lower, s, SearchFor(d.nonprintable, fold, q.Text()), range)
  {
    var search := SearchFor(d.nonprintable, fold, q.Text());
    IndexedQueryIsExact(d.nonprintable, fold, q.Text(), lower, steps, s, range);
    CaseMatches(q, qd, value, d, v, fold, lower, s.tasks.rows[id]);
    assert IsMember(lower, s, search, s.workflows.rows[w].rootTaskId, id);
    WorkflowsFound(lower, s, search, range, w);
  }

  // ---- When a row is marked for fallback ----

  /** A write that leaves the kwargs alone keeps their terms and mark, and one that changes them marks the row. */
  lemma {:induction false} WriteKeepsTerms(
    lower: Lower, t: Table<Task, Projection>, id: nat, now: Task)
    requires id in t.rows && id in t.index && CanPut(TaskUpkeep(lower), t, id, now)
    requires |t.index[id].texts.grams| == |now.fields| + 2
    ensures var next := Put(TaskUpkeep(lower), t, id, now, true);
      && id in next.index
      && if now.kwargs == t.rows[id].kwargs
         then next.index[id].terms == t.index[id].terms && next.index[id].fallback == t.index[id].fallback
         else next.index[id].terms == {} && (next.index[id].fallback <==> now.kwargs.Or("") != "")
  {
    var before := t.rows[id];
    if Searched(now) == Searched(before) {
      assert Searched(now)[|now.fields|] == now.kwargs && Searched(before)[|before.fields|] == before.kwargs;
    }
  }

  /** The statement that writes the terms lifts the mark exactly from a text that can be indexed. */
  lemma {:induction false} TermsLiftMark(p: Projection, kwargs: Option<string>, source: Option<string>)
    ensures WithTerms(p, kwargs, source).fallback <==> kwargs.Or("") != "" && !IsIndexedObject(kwargs.value, source)
    ensures WithTerms(p, kwargs, source).texts == p.texts
  {
    FallbackIff(kwargs, source);
  }
}
