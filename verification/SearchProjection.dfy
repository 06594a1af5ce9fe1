/**
  The search projections of runtime/search-index-schema.surql, the statements that keep them up to date, and
  the candidate lists of src/lib/indexed-search.ts: in every reachable state an indexed search returns what the
  plain predicate returns.
 */
module SearchProjection {
  import opened Options
  import opened SearchClause
  import opened SearchTerms

  const GRAM := 3
  const INDEXED_CHARACTERS := 512

  type Lower = string -> string

  // ---- Grams ----

  ghost predicate ContainsAt(s: string, q: string, i: nat) {
    i + |q| <= |s| && s[i..i + |q|] == q
  }

  ghost predicate Contains(s: string, q: string) {
    exists i: nat :: ContainsAt(s, q, i)
  }

  /** fn::search_grams */
  function Grams(lower: Lower, text: string): set<string> {
    var s := if |lower(text)| > INDEXED_CHARACTERS then lower(text)[..INDEXED_CHARACTERS] else lower(text);
    set i | 0 <= i < |s| - GRAM + 1 :: GramAt(s, i)
  }

  function GramAt(s: string, i: int): string
    requires 0 <= i < |s| - GRAM + 1
  {
    s[i..i + GRAM]
  }

  function LastGram(q: string): string
    requires |q| >= GRAM
  {
    q[|q| - GRAM..]
  }

  /** The grams of a text are the texts of three characters within its first 512, lower-cased. */
  lemma {:induction false} GramIff(lower: Lower, text: string, g: string)
    ensures g in Grams(lower, text) <==> |g| == 3 && exists i: nat :: i + 3 <= 512 && ContainsAt(lower(text), g, i)
  {
    var whole := lower(text);
    var s := if |whole| > INDEXED_CHARACTERS then whole[..INDEXED_CHARACTERS] else whole;
    if g in Grams(lower, text) {
      var i :| 0 <= i < |s| - GRAM + 1 && GramAt(s, i) == g;
      assert GramAt(s, i) == g;
      assert GramAt(s, i) == s[i..i + 3];
      assert s[i..i + 3] == whole[i..i + 3];
      assert ContainsAt(whole, g, i as nat);
    }
    if i: nat :| |g| == 3 && i + 3 <= 512 && ContainsAt(whole, g, i) {
      assert i < |s| - GRAM + 1 && GramAt(s, i) == whole[i..i + GRAM] == g;
    }
  }

  lemma {:induction false} GramFound(lower: Lower, text: string, q: string)
    requires |q| >= GRAM && |lower(text)| <= INDEXED_CHARACTERS && Contains(lower(text), q)
    ensures LastGram(q) in Grams(lower, text)
  {
    var s := lower(text);
    var i: nat :| ContainsAt(s, q, i);
    var k := i + |q| - GRAM;
    assert GramAt(s, k) == s[i..i + |q|][|q| - GRAM..];
  }

  ghost predicate TextMatches(lower: Lower, texts: seq<string>, q: string) {
    exists k :: 0 <= k < |texts| && Contains(lower(texts[k]), q)
  }

  /** The gram columns and the length mark of a task_search or workflow_search record. */
  datatype TextIndex = TextIndex(grams: seq<set<string>>, fallback: bool)

  ghost predicate HasLongText(lower: Lower, texts: seq<string>) {
    exists k :: 0 <= k < |texts| && |lower(texts[k])| > INDEXED_CHARACTERS
  }

  ghost predicate IndexesTexts(index: TextIndex, lower: Lower, texts: seq<string>) {
    && |index.grams| == |texts|
    && (forall k :: 0 <= k < |texts| ==> index.grams[k] == Grams(lower, texts[k]))
    && (index.fallback <==> HasLongText(lower, texts))
  }

  /** `grams CONTAINS $searchGram OR text_fallback = true` */
  ghost predicate TextCandidate(index: TextIndex, q: string)
    requires |q| >= GRAM
  {
    index.fallback || exists k :: 0 <= k < |index.grams| && LastGram(q) in index.grams[k]
  }

  lemma {:induction false} TextMatchIsCandidate(index: TextIndex, lower: Lower, texts: seq<string>, q: string)
    requires IndexesTexts(index, lower, texts) && |q| >= GRAM && TextMatches(lower, texts, q)
    ensures TextCandidate(index, q)
  {
    var k :| 0 <= k < |texts| && Contains(lower(texts[k]), q);
    if |lower(texts[k])| <= INDEXED_CHARACTERS {
      GramFound(lower, texts[k], q);
      assert LastGram(q) in index.grams[k];
    }
  }

  /** One gram column: kept when the record exists and the field did not change, else computed again. */
  ghost function Column(
    lower: Lower, previous: Option<set<string>>, now: Option<string>, before: Option<string>): set<string> {
    if previous.Some? && now == before then previous.value else Grams(lower, now.Or(""))
  }

  function Texts(id: string, fields: seq<Option<string>>): (texts: seq<string>)
    ensures |texts| == |fields| + 1
  {
    [id] + seq(|fields|, k requires 0 <= k < |fields| => fields[k].Or(""))
  }

  /** Column k: the id, which never changes, then the fields. */
  ghost function ColumnAt(
    lower: Lower, id: string, now: seq<Option<string>>, before: seq<Option<string>>,
    previous: Option<TextIndex>, k: nat): set<string>
    requires |now| == |before| && k <= |now| && (previous.Some? ==> |previous.value.grams| == |now| + 1)
  {
    var column := if previous.Some? then Some(previous.value.grams[k]) else None;
    if k == 0 then Column(lower, column, Some(id), Some(id)) else Column(lower, column, now[k - 1], before[k - 1])
  }

  /** The gram part of fn::search_project_task and fn::search_project_workflow. */
  ghost function ProjectTexts(
    lower: Lower, id: string, now: seq<Option<string>>, before: seq<Option<string>>,
    previous: Option<TextIndex>): TextIndex
    requires |now| == |before| && (previous.Some? ==> |previous.value.grams| == |now| + 1)
  {
    TextIndex(seq(|now| + 1, (k: int) requires 0 <= k <= |now| => ColumnAt(lower, id, now, before, previous, k)),
              HasLongText(lower, Texts(id, now)))
  }

  lemma {:induction false} ColumnAtIsGrams(
    lower: Lower, id: string, now: seq<Option<string>>, before: seq<Option<string>>,
    previous: Option<TextIndex>, k: nat)
    requires |now| == |before| && k <= |now|
    requires previous.Some? ==> IndexesTexts(previous.value, lower, Texts(id, before))
    ensures ColumnAt(lower, id, now, before, previous, k) == Grams(lower, Texts(id, now)[k])
  {
    if previous.Some? { assert previous.value.grams[k] == Grams(lower, Texts(id, before)[k]); }
  }

  lemma {:induction false} ProjectTextsIndexes(
    lower: Lower, id: string, now: seq<Option<string>>, before: seq<Option<string>>, previous: Option<TextIndex>)
    requires |now| == |before|
    requires previous.Some? ==> IndexesTexts(previous.value, lower, Texts(id, before))
    ensures IndexesTexts(ProjectTexts(lower, id, now, before, previous), lower, Texts(id, now))
  {
    forall k | 0 <= k <= |now|
      ensures ColumnAt(lower, id, now, before, previous, k) == Grams(lower, Texts(id, now)[k])
    {
      ColumnAtIsGrams(lower, id, now, before, previous, k);
    }
  }

  // ---- Task rows ----

  /** The searched fields of a task; `fields` are type, worker, exception, result and args. */
  datatype Task = Task(id: string, fields: seq<Option<string>>, kwargs: Option<string>, workflow: Option<string>)

  datatype Projection = Projection(texts: TextIndex, terms: set<string>, fallback: bool)

  function Searched(task: Task): seq<Option<string>> {
    task.fields + [task.kwargs]
  }

  function TaskTexts(task: Task): seq<string> {
    Texts(task.id, Searched(task))
  }

  /** The terms hold every pair of the kwargs, or the row is marked as not indexed. */
  ghost predicate IndexesKwargs(terms: set<string>, fallback: bool, kwargs: Option<string>) {
    fallback || KwargsTerms(kwargs, Some("saferepr")) == KwargsSearchTerms(terms, false)
  }

  ghost predicate Covers(lower: Lower, p: Projection, task: Task) {
    IndexesTexts(p.texts, lower, TaskTexts(task)) && IndexesKwargs(p.terms, p.fallback, task.kwargs)
  }

  /** fn::search_project_task */
  ghost function Project(lower: Lower, now: Task, before: Task, previous: Option<Projection>): Projection
    requires |now.fields| == |before.fields|
    requires previous.Some? ==> |previous.value.texts.grams| == |now.fields| + 2
  {
    var texts := ProjectTexts(lower, now.id, Searched(now), Searched(before),
                              if previous.Some? then Some(previous.value.texts) else None);
    if now.kwargs == before.kwargs then
      if previous.Some? then Projection(texts, previous.value.terms, previous.value.fallback)
        else Projection(texts, {}, true)
    else Projection(texts, {}, now.kwargs.Or("") != "")
  }

  /** The trigger keeps an accurate projection accurate, and starts one that is. */
  lemma {:induction false} ProjectCovers(lower: Lower, now: Task, before: Task, previous: Option<Projection>)
    requires |now.fields| == |before.fields| && now.id == before.id
    requires previous.Some? ==> Covers(lower, previous.value, before)
    ensures Covers(lower, Project(lower, now, before, previous), now)
  {
    ProjectTextsIndexes(lower, now.id, Searched(now), Searched(before),
      if previous.Some? then Some(previous.value.texts) else None);
  }

  /** Terms depend on the source of the text only through whether it is indexed at all. */
  lemma {:induction false} AnySourceCovers(kwargs: Option<string>, source: Option<string>)
    ensures var index := KwargsTerms(kwargs, source); IndexesKwargs(index.terms, index.fallback, kwargs)
  {
  }

  function WithTerms(p: Projection, kwargs: Option<string>, source: Option<string>): Projection {
    var index := KwargsTerms(kwargs, source);
    p.(terms := index.terms, fallback := index.fallback)
  }

  // ---- A search ----

  ghost predicate TaskMatches(lower: Lower, search: Search, task: Task) {
    || (search.pair.Some? && KwargsClause(PairPattern(search.nonprintable, search.pair.value), task.kwargs.Or("")))
    || TextMatches(lower, TaskTexts(task), search.text)
  }

  predicate IsIndexedSearch(search: Search) {
    |search.text| >= GRAM
  }

  /** The WHERE of build_indexed_task_search's candidate list. */
  ghost predicate TaskCandidate(p: Projection, search: Search)
    requires IsIndexedSearch(search)
  {
    || TextCandidate(p.texts, search.text)
    || (search.pair.Some? && (PairTerm(search.pair.value) in p.terms || p.fallback))
  }

  lemma {:induction false} MatchIsCandidate(lower: Lower, search: Search, task: Task, p: Projection)
    requires IsIndexedSearch(search) && IsSearch(search) && Covers(lower, p, task) && TaskMatches(lower, search, task)
    requires KeysAreScalars(task.kwargs.Or(""))
    ensures TaskCandidate(p, search)
  {
    if TextMatches(lower, TaskTexts(task), search.text) {
      TextMatchIsCandidate(p.texts, lower, TaskTexts(task), search.text);
    } else {
      IndexKeepsMatches(search.nonprintable, search.pair.value, task.kwargs, Some("saferepr"));
    }
  }

  // ---- Workflow rows ----

  /** `fields` are root_task_type and latest_exception_preview. */
  datatype Workflow = Workflow(id: string, rootTaskId: string, fields: seq<Option<string>>)

  function WorkflowFields(w: Workflow): seq<Option<string>> {
    [Some(w.rootTaskId)] + w.fields
  }

  function WorkflowTexts(w: Workflow): seq<string> {
    Texts(w.id, WorkflowFields(w))
  }

  /** fn::search_project_workflow */
  ghost function ProjectWorkflow(lower: Lower, now: Workflow, before: Workflow, i: Option<TextIndex>): TextIndex
    requires |now.fields| == |before.fields| && (i.Some? ==> |i.value.grams| == |now.fields| + 2)
  {
    ProjectTexts(lower, now.id, WorkflowFields(now), WorkflowFields(before), i)
  }

  ghost predicate CoversWorkflow(lower: Lower, i: TextIndex, w: Workflow) {
    IndexesTexts(i, lower, WorkflowTexts(w))
  }

  lemma {:induction false} ProjectWorkflowCovers(lower: Lower, now: Workflow, before: Workflow, i: Option<TextIndex>)
    requires |now.fields| == |before.fields| && now.id == before.id
    requires i.Some? ==> CoversWorkflow(lower, i.value, before)
    ensures CoversWorkflow(lower, ProjectWorkflow(lower, now, before, i), now)
  {
    ProjectTextsIndexes(lower, now.id, WorkflowFields(now), WorkflowFields(before), i);
  }

  ghost predicate WorkflowMatches(lower: Lower, search: Search, w: Workflow, members: set<string>) {
    TextMatches(lower, WorkflowTexts(w), search.text) || w.rootTaskId in members
  }

  ghost predicate WorkflowCandidate(index: TextIndex, search: Search, w: Workflow, members: set<string>)
    requires IsIndexedSearch(search)
  {
    TextCandidate(index, search.text) || w.rootTaskId in members
  }

  lemma {:induction false} WorkflowMatchIsCandidate(
    lower: Lower, search: Search, w: Workflow, index: TextIndex, members: set<string>)
    requires IsIndexedSearch(search) && CoversWorkflow(lower, index, w)
    requires WorkflowMatches(lower, search, w, members)
    ensures WorkflowCandidate(index, search, w, members)
  {
    if TextMatches(lower, WorkflowTexts(w), search.text) {
      TextMatchIsCandidate(index, lower, WorkflowTexts(w), search.text);
    }
  }
}
