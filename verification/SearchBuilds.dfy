/** A build of the search projections can always be brought to its end: then the index is ready. */
module SearchBuilds {
  import opened Options
  import opened SearchTables

  // ---- Pages ----

  lemma {:induction false} LeastOf(ids: set<nat>) returns (least: nat)
    requires ids != {}
    ensures least in ids && forall id <- ids :: least <= id
    decreases |ids|
  {
    var any :| any in ids;
    least := any;
    if ids != {any} {
      var other := LeastOf(ids - {any});
      if other < any { least := other; }
      forall id <- ids ensures least <= id {
        assert id == any || id in ids - {any};
      }
    }
  }

  function UpTo(ids: set<nat>, last: nat): set<nat> {
    set id | id in ids && id <= last
  }

  /** The first n of the ids, or all of them. */
  lemma {:induction false} FirstIds(ids: set<nat>, n: nat) returns (last: nat)
    requires ids != {} && n > 0
    ensures last in ids && 0 < |UpTo(ids, last)| <= n
    ensures |UpTo(ids, last)| < n ==> forall id <- ids :: id <= last
    decreases n
  {
    if n == 1 {
      last := LeastOf(ids);
      assert UpTo(ids, last) == {last};
    } else {
      last := FirstIds(ids, n - 1);
      var before, rest := last, ids - UpTo(ids, last);
      if rest == {} {
        forall id <- ids ensures id <= before {
          assert id !in rest;
        }
      } else {
        last := LeastOf(rest);
        NextOf(ids, before, last);
      }
    }
  }

  lemma {:induction false} NextOf(ids: set<nat>, before: nat, last: nat)
    requires last in ids - UpTo(ids, before) && forall id <- ids - UpTo(ids, before) :: last <= id
    ensures UpTo(ids, last) == UpTo(ids, before) + {last} && last !in UpTo(ids, before)
  {
    forall id: nat ensures id in UpTo(ids, last) <==> id in UpTo(ids, before) + {last} {
      if id in ids && id !in UpTo(ids, before) { assert id in ids - UpTo(ids, before); }
    }
  }

  function Ahead<R, I>(t: Table<R, I>, after: Option<nat>): set<nat> {
    set id | id in t.rows && !Behind(after, id)
  }

  /** Where rows lie ahead, there is a page of them. */
  lemma {:induction false} NextPage<R, I>(t: Table<R, I>, after: Option<nat>) returns (page: set<nat>, last: nat)
    requires Ahead(t, after) != {}
    ensures IsPage(t, after, page, last) && page != {}
  {
    last := FirstIds(Ahead(t, after), 200);
    page := UpTo(Ahead(t, after), last);
    if |page| < 200 {
      forall id <- t.rows ensures id <= last {
        assert id in Ahead(t, after) || Behind(after, id);
      }
    }
  }

  lemma {:induction false} NothingAhead<R, I>(t: Table<R, I>, after: Option<nat>)
    requires Ahead(t, after) == {}
    ensures NoRowAhead(t, after)
  {
    forall id <- t.rows ensures Behind(after, id) {
      assert id !in Ahead(t, after);
    }
  }

  /** Behind the page less lies ahead. */
  lemma {:induction false} AheadShrinks<R, I>(t: Table<R, I>, next: Table<R, I>, after: Option<nat>, last: nat)
    requires last in Ahead(t, after) && next.rows == t.rows
    ensures |Ahead(next, Some(last))| < |Ahead(t, after)|
  {
    var was, now := Ahead(t, after), Ahead(next, Some(last));
    assert now <= was - {last};
    assert was == now + (was - now) && last in was - now;
  }

  // ---- Runs of one builder ----

  lemma {:induction false} Extend<T(!new), P(!new), W(!new), I(!new)>(
    u: Triggers<T, P, W, I>, steps: seq<Step<T, P, W>>, s: Database<T, P, W, I>, step: Step<T, P, W>)
    returns (more: seq<Step<T, P, W>>, t: Database<T, P, W, I>)
    requires Execute(u, steps) == Some(s) && CanStep(u, s, step)
    ensures Execute(u, more) == Some(t) && t == Apply(u, s, step)
  {
    more, t := steps + [step], Apply(u, s, step);
    assert more[..|more| - 1] == steps;
  }

  ghost predicate SameRows<T, P, W, I>(s: Database<T, P, W, I>, t: Database<T, P, W, I>) {
    t.tasks.rows == s.tasks.rows && t.workflows.rows == s.workflows.rows
  }

  lemma {:induction false} TasksWalk<T(!new), P(!new), W(!new), I(!new)>(
    u: Triggers<T, P, W, I>, steps: seq<Step<T, P, W>>, s: Database<T, P, W, I>, b: nat, after: Option<nat>)
    returns (more: seq<Step<T, P, W>>, t: Database<T, P, W, I>)
    requires Execute(u, steps) == Some(s) && b in s.builders && s.builders[b] == Tasks(Walk(after, {}, 0))
    ensures Execute(u, more) == Some(t) && SameRows(s, t)
    ensures b in t.builders && t.builders[b] == Workflows(START)
    decreases |Ahead(s.tasks, after)|
  {
    if Ahead(s.tasks, after) == {} {
      NothingAhead(s.tasks, after);
      more, t := Extend(u, steps, s, EndWalk(b));
    } else {
      var page, last := NextPage(s.tasks, after);
      more, t := Extend(u, steps, s, ReadPage(b, page, last));
      more, t := Extend(u, more, t, BuildPage(b));
      AheadShrinks(s.tasks, t.tasks, after, last);
      more, t := TasksWalk(u, more, t, b, Some(last));
    }
  }

  lemma {:induction false} WorkflowsWalk<T(!new), P(!new), W(!new), I(!new)>(
    u: Triggers<T, P, W, I>, steps: seq<Step<T, P, W>>, s: Database<T, P, W, I>, b: nat, after: Option<nat>)
    returns (more: seq<Step<T, P, W>>, t: Database<T, P, W, I>)
    requires Execute(u, steps) == Some(s) && b in s.builders && s.builders[b] == Workflows(Walk(after, {}, 0))
    ensures Execute(u, more) == Some(t) && SameRows(s, t) && t.ready
    decreases |Ahead(s.workflows, after)|
  {
    if Ahead(s.workflows, after) == {} {
      NothingAhead(s.workflows, after);
      more, t := Extend(u, steps, s, EndWalk(b));
    } else {
      var page, last := NextPage(s.workflows, after);
      more, t := Extend(u, steps, s, ReadPage(b, page, last));
      more, t := Extend(u, more, t, BuildPage(b));
      AheadShrinks(s.workflows, t.workflows, after, last);
      more, t := WorkflowsWalk(u, more, t, b, Some(last));
    }
  }

  /** From every reachable state a new builder can bring the index to ready, with every row indexed. */
  lemma {:induction false} BuildCanEnd<T(!new), P(!new), W(!new), I(!new)>(
    u: Triggers<T, P, W, I>, steps: seq<Step<T, P, W>>, s: Database<T, P, W, I>, b: nat)
    returns (more: seq<Step<T, P, W>>, t: Database<T, P, W, I>)
    requires AreSound(u) && Execute(u, steps) == Some(s) && b !in s.builders
    ensures Execute(u, more) == Some(t) && SameRows(s, t)
    ensures t.ready && AllIndexed(t.tasks) && AllIndexed(t.workflows)
  {
    more, t := Extend(u, steps, s, MarkUnready(b));
    more, t := Extend(u, more, t, Install(b));
    more, t := TasksWalk(u, more, t, b, None);
    more, t := WorkflowsWalk(u, more, t, b, None);
    ReachableInv(u, more);
  }
}
