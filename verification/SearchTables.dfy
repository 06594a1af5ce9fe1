/**
  Two tables with projections kept by triggers, over every run of writers and of any number of index builders
  (runtime/search-indexes.ts): whenever `ready` is set, every row has an accurate projection.
 */
module SearchTables {
  import opened Options

  // ---- One table and its projection ----

  datatype Table<R, I> = Table(rows: map<nat, R>, index: map<nat, I>)

  /** How a table's trigger maintains its projection. */
  datatype Upkeep<!R, !I> = Upkeep(
    blank: R -> R,                       // the missing record before a CREATE, with the row's id
    sameRecord: (R, R) -> bool,          // whether a row may become another one
    same: (R, R) -> bool,                // no searched field differs: the trigger does not fire
    project: (R, R, Option<I>) -> I,
    rewrites: (I, I, R) -> bool,         // a writer's own statement may replace a row's projection
    covers: (I, R) -> bool)

  ghost predicate Sound<R(!new), I(!new)>(u: Upkeep<R, I>) {
    && (forall now: R, before: R, i: Option<I> {:trigger u.project(now, before, i)} ::
          u.sameRecord(now, before) && (i.Some? ==> u.covers(i.value, before)) ==>
            u.covers(u.project(now, before, i), now))
    && (forall now: R, before: R, i: I {:trigger u.same(now, before), u.covers(i, before)} ::
          u.sameRecord(now, before) && u.same(now, before) && u.covers(i, before) ==> u.covers(i, now))
    && (forall i: I, j: I, row: R {:trigger u.rewrites(i, j, row)} :: u.rewrites(i, j, row) && u.covers(i, row) ==>
         u.covers(j, row))
    && (forall row: R {:trigger u.sameRecord(row, row)} :: u.sameRecord(row, row))
    && (forall row: R {:trigger u.blank(row)} :: u.sameRecord(row, u.blank(row)))
  }

  ghost predicate Accurate<R, I>(u: Upkeep<R, I>, t: Table<R, I>) {
    forall id <- t.index :: id in t.rows && u.covers(t.index[id], t.rows[id])
  }

  function Lookup<I>(index: map<nat, I>, id: nat): Option<I> {
    if id in index then Some(index[id]) else None
  }

  ghost function Put<R, I>(u: Upkeep<R, I>, t: Table<R, I>, id: nat, now: R, installed: bool): Table<R, I> {
    var before := if id in t.rows then t.rows[id] else u.blank(now);
    var index := if installed && (id !in t.rows || !u.same(now, before))
                 then t.index[id := u.project(now, before, Lookup(t.index, id))] else t.index;
    Table(t.rows[id := now], index)
  }

  function Remove<R, I>(t: Table<R, I>, id: nat): Table<R, I> {
    Table(t.rows - {id}, t.index - {id})
  }

  /** The backfill of one page: each record is read again inside the statement. */
  ghost function ProjectPage<R, I>(u: Upkeep<R, I>, t: Table<R, I>, page: set<nat>): Table<R, I> {
    t.(index := map id | id in t.index.Keys + (page * t.rows.Keys) ::
      if id in page && id in t.rows then u.project(t.rows[id], t.rows[id], Lookup(t.index, id)) else t.index[id])
  }

  ghost predicate CanPut<R, I>(u: Upkeep<R, I>, t: Table<R, I>, id: nat, now: R) {
    id in t.rows ==> u.sameRecord(now, t.rows[id])
  }

  lemma {:induction false} PutAccurate<R(!new), I(!new)>(
    u: Upkeep<R, I>, t: Table<R, I>, id: nat, now: R, installed: bool)
    requires Sound(u) && Accurate(u, t) && CanPut(u, t, id, now)
    requires !installed ==> t.index == map[]
    ensures Accurate(u, Put(u, t, id, now, installed))
  {
    var before := if id in t.rows then t.rows[id] else u.blank(now);
    assert id !in t.rows ==> Lookup(t.index, id).None?;
    assert u.sameRecord(now, before);
    assert installed && (id !in t.rows || !u.same(now, before)) ==>
      u.covers(u.project(now, before, Lookup(t.index, id)), now);
  }

  lemma {:induction false} ProjectPageAccurate<R(!new), I(!new)>(u: Upkeep<R, I>, t: Table<R, I>, page: set<nat>)
    requires Sound(u) && Accurate(u, t)
    ensures Accurate(u, ProjectPage(u, t, page))
  {
    forall id | id in page && id in t.rows
      ensures u.covers(u.project(t.rows[id], t.rows[id], Lookup(t.index, id)), t.rows[id])
    {
      assert u.sameRecord(t.rows[id], t.rows[id]);
    }
  }

  // ---- A builder's walk over one table ----

  /** Behind `after`; `page` is the page being processed, up to `last`. */
  datatype Walk = Walk(after: Option<nat>, page: set<nat>, last: nat)

  predicate Behind(after: Option<nat>, id: nat) {
    after.Some? && id <= after.value
  }

  /** Rows behind the walk have a projection, rows of the page without one are still to be projected. */
  ghost predicate Walked<R, I>(t: Table<R, I>, w: Walk) {
    forall id <- t.rows :: id in t.index || !(Behind(w.after, id) || (w.page != {} && id <= w.last)) || id in w.page
  }

  /** SELECT ... WHERE $after = NULL OR id > $after ORDER BY id LIMIT 200 */
  ghost predicate IsPage<R, I>(t: Table<R, I>, after: Option<nat>, page: set<nat>, last: nat) {
    && page == (set id | id in t.rows && !Behind(after, id) && id <= last)
    && last in page && |page| <= 200
    && (|page| < 200 ==> forall id <- t.rows :: id <= last)
  }

  ghost predicate NoRowAhead<R, I>(t: Table<R, I>, after: Option<nat>) {
    forall id <- t.rows :: Behind(after, id)
  }

  lemma {:induction false} WalkedProject<R, I>(u: Upkeep<R, I>, t: Table<R, I>, w: Walk)
    requires Walked(t, w) && w.page != {}
    ensures Walked(ProjectPage(u, t, w.page), Walk(Some(w.last), {}, 0))
  {
  }

  /** Another table that only gains projections, loses rows, or gains rows together with their projection. */
  ghost predicate KeepsIndexed<R, I>(t: Table<R, I>, next: Table<R, I>) {
    forall id <- next.rows :: id in next.index || (id in t.rows && id !in t.index)
  }

  // ---- The database ----

  datatype Phase = Preparing | Tasks(walk: Walk) | Workflows(walk: Walk)

  datatype Database<T, P, W, I> = Database(
    tasks: Table<T, P>,
    workflows: Table<W, I>,
    installed: bool,
    ready: bool,
    builders: map<nat, Phase>)

  /** How the triggers of both tables work. */
  datatype Triggers<!T, !P, !W, !I> = Triggers(tasks: Upkeep<T, P>, workflows: Upkeep<W, I>)

  ghost predicate AreSound<T(!new), P(!new), W(!new), I(!new)>(u: Triggers<T, P, W, I>) {
    Sound(u.tasks) && Sound(u.workflows)
  }

  // ---- Steps ----

  datatype Step<T, P, W> =
    | PutTask(id: nat, task: T)
    | RemoveTask(id: nat)
    | RewriteTask(id: nat, projection: P)
    | PutWorkflow(id: nat, workflow: W)
    | RemoveWorkflow(id: nat)
    | MarkUnready(builder: nat)
    | Install(builder: nat)
    | ReadPage(builder: nat, page: set<nat>, last: nat)
    | BuildPage(builder: nat)
    | EndWalk(builder: nat)
    | Abandon(builder: nat)
    | DropProjections                    // start with indexing disabled

  ghost predicate CanReadPage<T, P, W, I>(s: Database<T, P, W, I>, builder: nat, page: set<nat>, last: nat) {
    builder in s.builders &&
    match s.builders[builder]
    case Preparing => false
    case Tasks(w) => w.page == {} && IsPage(s.tasks, w.after, page, last)
    case Workflows(w) => w.page == {} && IsPage(s.workflows, w.after, page, last)
  }

  ghost predicate CanEndWalk<T, P, W, I>(s: Database<T, P, W, I>, builder: nat) {
    builder in s.builders &&
    match s.builders[builder]
    case Preparing => false
    case Tasks(w) => w.page == {} && NoRowAhead(s.tasks, w.after)
    case Workflows(w) => w.page == {} && NoRowAhead(s.workflows, w.after)
  }

  ghost predicate CanStep<T, P, W, I>(u: Triggers<T, P, W, I>, s: Database<T, P, W, I>, step: Step<T, P, W>) {
    match step
    case PutTask(id, task) => CanPut(u.tasks, s.tasks, id, task)
    case RewriteTask(id, p) => id in s.tasks.index && id in s.tasks.rows &&
      u.tasks.rewrites(s.tasks.index[id], p, s.tasks.rows[id])
    case PutWorkflow(id, workflow) => CanPut(u.workflows, s.workflows, id, workflow)
    case MarkUnready(b) => b !in s.builders
    case Install(b) => b in s.builders && s.builders[b].Preparing?
    case ReadPage(b, page, last) => CanReadPage(s, b, page, last)
    case BuildPage(b) => b in s.builders && !s.builders[b].Preparing? && s.builders[b].walk.page != {}
    case EndWalk(b) => CanEndWalk(s, b)
    case DropProjections => s.builders == map[]
    case _ => true
  }

  const START := Walk(None, {}, 0)

  ghost function Apply<T, P, W, I>(
    u: Triggers<T, P, W, I>, s: Database<T, P, W, I>, step: Step<T, P, W>): Database<T, P, W, I>
    requires CanStep(u, s, step)
  {
    match step
    case PutTask(id, task) => s.(tasks := Put(u.tasks, s.tasks, id, task, s.installed))
    case RemoveTask(id) => s.(tasks := Remove(s.tasks, id))
    case RewriteTask(id, p) => s.(tasks := s.tasks.(index := s.tasks.index[id := p]))
    case PutWorkflow(id, workflow) => s.(workflows := Put(u.workflows, s.workflows, id, workflow, s.installed))
    case RemoveWorkflow(id) => s.(workflows := Remove(s.workflows, id))
    case MarkUnready(b) => s.(ready := false, builders := s.builders[b := Preparing])
    case Install(b) => s.(installed := true, builders := s.builders[b := Tasks(START)])
    case ReadPage(b, page, last) =>
      s.(builders := s.builders[b := s.builders[b].(walk := s.builders[b].walk.(page := page, last := last))])
    case BuildPage(b) =>
      var w := s.builders[b].walk;
      var next := s.builders[b].(walk := Walk(Some(w.last), {}, 0));
      if s.builders[b].Tasks?
      then s.(tasks := ProjectPage(u.tasks, s.tasks, w.page), builders := s.builders[b := next])
      else s.(workflows := ProjectPage(u.workflows, s.workflows, w.page), builders := s.builders[b := next])
    case EndWalk(b) =>
      if s.builders[b].Tasks? then s.(builders := s.builders[b := Workflows(START)])
      else s.(ready := true, builders := s.builders - {b})
    case Abandon(b) => s.(builders := s.builders - {b})
    case DropProjections =>
      s.(ready := false, installed := false, tasks := s.tasks.(index := map[]),
        workflows := s.workflows.(index := map[]))
  }

  // ---- The invariant ----

  ghost predicate AllIndexed<R, I>(t: Table<R, I>) {
    forall id <- t.rows :: id in t.index
  }

  ghost predicate PhaseHolds<T, P, W, I>(s: Database<T, P, W, I>, phase: Phase) {
    match phase
    case Preparing => true
    case Tasks(w) => s.installed && Walked(s.tasks, w)
    case Workflows(w) => s.installed && AllIndexed(s.tasks) && Walked(s.workflows, w)
  }

  ghost predicate Inv<T, P, W, I>(u: Triggers<T, P, W, I>, s: Database<T, P, W, I>) {
    && Accurate(u.tasks, s.tasks) && Accurate(u.workflows, s.workflows)
    && (!s.installed ==> s.tasks.index == map[] && s.workflows.index == map[])
    && (forall b <- s.builders :: PhaseHolds(s, s.builders[b]))
    && (s.ready ==> s.installed && AllIndexed(s.tasks) && AllIndexed(s.workflows))
  }

  /** A step that touches rows and projections only, and leaves no row without a projection it had. */
  ghost predicate KeepsBuilds<T, P, W, I>(s: Database<T, P, W, I>, next: Database<T, P, W, I>) {
    && next.installed == s.installed && next.ready == s.ready && next.builders == s.builders
    && (s.installed ==> KeepsIndexed(s.tasks, next.tasks) && KeepsIndexed(s.workflows, next.workflows))
  }

  lemma {:induction false} BuildsKept<T, P, W, I>(
    u: Triggers<T, P, W, I>, s: Database<T, P, W, I>, next: Database<T, P, W, I>)
    requires Inv(u, s) && KeepsBuilds(s, next)
    requires Accurate(u.tasks, next.tasks) && Accurate(u.workflows, next.workflows)
    requires !s.installed ==> next.tasks.index == map[] && next.workflows.index == map[]
    ensures Inv(u, next)
  {
    forall b <- next.builders ensures PhaseHolds(next, next.builders[b]) {
      assert PhaseHolds(s, s.builders[b]);
    }
  }

  lemma {:induction false} PutKeeps<R, I>(u: Upkeep<R, I>, t: Table<R, I>, id: nat, now: R)
    requires Accurate(u, t)
    ensures KeepsIndexed(t, Put(u, t, id, now, true))
    ensures Put(u, t, id, now, false).index == t.index
  {
  }

  /** Writers keep the invariant, with or without projections installed. */
  lemma {:induction false} WriteKeepsInv<T(!new), P(!new), W(!new), I(!new)>(
    u: Triggers<T, P, W, I>, s: Database<T, P, W, I>, step: Step<T, P, W>)
    requires AreSound(u) && Inv(u, s) && CanStep(u, s, step)
    requires step.PutTask? || step.RemoveTask? || step.RewriteTask? || step.PutWorkflow? || step.RemoveWorkflow?
    ensures Inv(u, Apply(u, s, step))
  {
    if step.PutTask? {
      PutAccurate(u.tasks, s.tasks, step.id, step.task, s.installed);
      PutKeeps(u.tasks, s.tasks, step.id, step.task);
    } else if step.PutWorkflow? {
      PutAccurate(u.workflows, s.workflows, step.id, step.workflow, s.installed);
      PutKeeps(u.workflows, s.workflows, step.id, step.workflow);
    }
    BuildsKept(u, s, Apply(u, s, step));
  }

  lemma {:induction false} OtherBuilders<T, P, W, I>(s: Database<T, P, W, I>, next: Database<T, P, W, I>)
    requires KeepsIndexed(s.tasks, next.tasks) && KeepsIndexed(s.workflows, next.workflows)
    requires s.installed ==> next.installed
    ensures forall phase: Phase {:trigger PhaseHolds(next, phase)} :: PhaseHolds(s, phase) ==> PhaseHolds(next, phase)
  {
  }

  lemma {:induction false} PageKeepsInv<T(!new), P(!new), W(!new), I(!new)>(
    u: Triggers<T, P, W, I>, s: Database<T, P, W, I>, b: nat)
    requires AreSound(u) && Inv(u, s) && CanStep(u, s, BuildPage(b))
    ensures Inv(u, Apply(u, s, BuildPage(b)))
  {
    var w := s.builders[b].walk;
    assert PhaseHolds(s, s.builders[b]);
    if s.builders[b].Tasks? {
      ProjectPageAccurate(u.tasks, s.tasks, w.page);
      WalkedProject(u.tasks, s.tasks, w);
    } else {
      ProjectPageAccurate(u.workflows, s.workflows, w.page);
      WalkedProject(u.workflows, s.workflows, w);
    }
    OtherBuilders(s, Apply(u, s, BuildPage(b)));
  }

  lemma {:induction false} BuildKeepsInv<T, P, W, I>(
    u: Triggers<T, P, W, I>, s: Database<T, P, W, I>, step: Step<T, P, W>)
    requires Inv(u, s) && CanStep(u, s, step)
    requires step.MarkUnready? || step.Install? || step.ReadPage? || step.EndWalk? || step.Abandon?
    ensures Inv(u, Apply(u, s, step))
  {
    var next := Apply(u, s, step);
    OtherBuilders(s, next);
    forall b <- next.builders ensures PhaseHolds(next, next.builders[b]) {
      if b in s.builders { assert PhaseHolds(s, s.builders[b]); }
    }
  }

  lemma {:induction false} StepKeepsInv<T(!new), P(!new), W(!new), I(!new)>(
    u: Triggers<T, P, W, I>, s: Database<T, P, W, I>, step: Step<T, P, W>)
    requires AreSound(u) && Inv(u, s) && CanStep(u, s, step)
    ensures Inv(u, Apply(u, s, step))
  {
    if step.PutTask? || step.RemoveTask? || step.RewriteTask? || step.PutWorkflow? || step.RemoveWorkflow? {
      WriteKeepsInv(u, s, step);
    } else if step.BuildPage? {
      PageKeepsInv(u, s, step.builder);
    } else if !step.DropProjections? {
      BuildKeepsInv(u, s, step);
    }
  }

  // ---- Runs ----

  function Empty<T, P, W, I>(): Database<T, P, W, I> {
    Database(Table(map[], map[]), Table(map[], map[]), false, false, map[])
  }

  /** Where the steps lead from the empty database, if each can be taken. */
  ghost function Execute<T, P, W, I>(u: Triggers<T, P, W, I>, steps: seq<Step<T, P, W>>): Option<Database<T, P, W, I>>
    decreases |steps|
  {
    if steps == [] then Some(Empty())
    else
      match Execute(u, steps[..|steps| - 1])
      case None => None
      case Some(s) => if CanStep(u, s, steps[|steps| - 1]) then Some(Apply(u, s, steps[|steps| - 1])) else None
  }

  lemma {:induction false} ReachableInv<T(!new), P(!new), W(!new), I(!new)>(
    u: Triggers<T, P, W, I>, steps: seq<Step<T, P, W>>)
    requires AreSound(u) && Execute(u, steps).Some?
    ensures Inv(u, Execute(u, steps).value)
    decreases |steps|
  {
    if steps != [] {
      ReachableInv(u, steps[..|steps| - 1]);
      StepKeepsInv(u, Execute(u, steps[..|steps| - 1]).value, steps[|steps| - 1]);
    }
  }
}
