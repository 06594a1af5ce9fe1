/** The cleanup of runtime/observation-api.ts: whole workflows, oldest first, until the tasks are few enough. */
module Cleanup {
  import opened TaskMerge
  import opened WorkflowSummary

  /** A workflow row as the cleanup query returns it. */
  datatype Aged = Aged(id: string, total: nat)

  function Sum(rows: seq<Aged>): nat {
    if rows == [] then 0 else Sum(rows[..|rows| - 1]) + rows[|rows| - 1].total
  }

  function Ids(rows: seq<Aged>): set<string> {
    set row <- rows :: row.id
  }

  /** The first k rows hold the excess, or are all there are, and fewer do not. */
  ghost predicate IsEnough(rows: seq<Aged>, excess: int, k: nat) {
    && k <= |rows|
    && (k == |rows| || Sum(rows[..k]) >= excess)
    && forall j :: 0 <= j < k ==> Sum(rows[..j]) < excess
  }

  lemma {:induction false} Snoc(rows: seq<Aged>, k: nat)
    requires k < |rows|
    ensures Sum(rows[..k + 1]) == Sum(rows[..k]) + rows[k].total
    ensures Ids(rows[..k + 1]) == Ids(rows[..k]) + {rows[k].id}
  {
    assert rows[..k + 1][..k] == rows[..k];
    assert rows[..k + 1] == rows[..k] + [rows[k]];
  }

  /** How many of the rows go, oldest first, to take the excess with them. */
  function Needed(rows: seq<Aged>, excess: int): (k: nat)
    ensures k <= |rows|
  {
    if excess <= 0 || rows == [] then 0 else 1 + Needed(rows[1..], excess - rows[0].total)
  }

  lemma {:induction false} NeededIsEnough(rows: seq<Aged>, excess: int)
    ensures IsEnough(rows, excess, Needed(rows, excess))
    decreases |rows|
  {
    if excess > 0 && rows != [] {
      var k := Needed(rows[1..], excess - rows[0].total);
      NeededIsEnough(rows[1..], excess - rows[0].total);
      SumFromFirst(rows, k + 1);
      forall j | 0 <= j < k + 1 ensures Sum(rows[..j]) < excess {
        if j > 0 { SumFromFirst(rows, j); }
      }
    }
  }

  lemma {:induction false} NeededBounds(rows: seq<Aged>, excess: int, k: nat)
    requires k == Needed(rows, excess)
    ensures k == |rows| || Sum(rows[..k]) >= excess
    ensures k > 0 ==> Sum(rows[..k - 1]) < excess
  {
    NeededIsEnough(rows, excess);
  }

  lemma {:induction false} SumFromFirst(rows: seq<Aged>, j: nat)
    requires 0 < j <= |rows|
    ensures Sum(rows[..j]) == rows[0].total + Sum(rows[1..][..j - 1])
    decreases j
  {
    if j > 1 {
      SumFromFirst(rows, j - 1);
      assert rows[..j][..j - 1] == rows[..j - 1];
      assert rows[1..][..j - 1][..j - 2] == rows[1..][..j - 2];
    } else {
      assert rows[..1][..0] == [] && rows[1..][..0] == [];
    }
  }

  /** The loop of cleanup: `excess` falls by each removed workflow's task count. */
  method RemoveOldest(rows: seq<Aged>, total: nat, limit: nat) returns (remove: set<string>)
    ensures remove == Ids(rows[..Needed(rows, total - limit)])
  {
    var excess: int := total - limit;
    remove := {};
    if excess > 0 {
      for n := 0 to |rows|
        invariant remove == Ids(rows[..n]) && excess > 0
        invariant Needed(rows, total - limit) == n + Needed(rows[n..], excess)
      {
        Snoc(rows, n);
        assert rows[n..][1..] == rows[n + 1..];
        remove := remove + {rows[n].id};
        excess := excess - rows[n].total;
        if excess <= 0 {
          return;
        }
      }
      assert rows[..|rows|] == rows;
    }
  }

  // ---- What is left ----

  ghost predicate ListsWorkflows(rows: seq<Aged>, s: Store) {
    && Ids(rows) == s.workflows.Keys
    && (forall j, k :: 0 <= j < k < |rows| ==> rows[j].id != rows[k].id)
    && (forall row <- rows :: row.id in s.workflows && row.total == s.workflows[row.id].total)
  }

  /** Distinct rows that carry the numbers of their members. */
  ghost predicate Measures(s: Store, rows: seq<Aged>) {
    rows == [] || (
      var init, last := rows[..|rows| - 1], rows[|rows| - 1];
      last.total == |Members(s.tasks, last.id)| && last.id !in Ids(init) && Measures(s, init))
  }

  lemma {:induction false} MeasuresPrefix(s: Store, rows: seq<Aged>, k: nat)
    requires Measures(s, rows) && k <= |rows|
    ensures Measures(s, rows[..k])
  {
    if k < |rows| {
      MeasuresPrefix(s, rows[..|rows| - 1], k);
      assert rows[..|rows| - 1][..k] == rows[..k];
    } else {
      assert rows[..k] == rows;
    }
  }

  /** With exact summaries the rows of the cleanup query measure their workflows. */
  lemma {:induction false} ListedMeasures(s: Store, rows: seq<Aged>, k: nat)
    requires Counted(s) && ListsWorkflows(rows, s) && k <= |rows|
    ensures Measures(s, rows[..k])
  {
    if k > 0 {
      ListedMeasures(s, rows, k - 1);
      assert rows[..k][..k - 1] == rows[..k - 1] && rows[..k][k - 1] == rows[k - 1];
      assert rows[k - 1] in rows;
      assert s.workflows[rows[k - 1].id] == Recount(s.tasks, rows[k - 1].id);
    }
  }

  function Belonging(s: Store, rows: set<string>): set<string> {
    set id | id in s.tasks && s.tasks[id].workflow.Some? && s.tasks[id].workflow.value in rows
  }

  lemma {:induction false} DeleteLeaves(s: Store, rows: set<string>)
    ensures |Delete(s, rows).tasks| == |s.tasks| - |Belonging(s, rows)|
  {
    assert Delete(s, rows).tasks.Keys == s.tasks.Keys - Belonging(s, rows);
    assert Belonging(s, rows) <= s.tasks.Keys;
  }

  lemma {:induction false} BelongingAdds(s: Store, rows: set<string>, w: string)
    requires w !in rows
    ensures |Belonging(s, rows + {w})| == |Belonging(s, rows)| + |Members(s.tasks, w)|
  {
    assert Belonging(s, rows + {w}) == Belonging(s, rows) + Members(s.tasks, w);
  }

  /** The counts that the rows carry are the tasks they take with them. */
  lemma {:induction false} SumIsBelonging(s: Store, rows: seq<Aged>)
    requires Measures(s, rows)
    ensures Sum(rows) == |Belonging(s, Ids(rows))|
  {
    if rows == [] {
      assert Belonging(s, Ids(rows)) == {};
    } else {
      var init, last := rows[..|rows| - 1], rows[|rows| - 1];
      SumIsBelonging(s, init);
      BelongingAdds(s, Ids(init), last.id);
      assert rows == init + [last];
      assert Ids(rows) == Ids(init) + {last.id};
    }
  }

  function LeftAfter(s: Store, rows: seq<Aged>, k: nat): map<string, Task>
    requires k <= |rows|
  {
    Delete(s, Ids(rows[..k])).tasks
  }

  lemma {:induction false} LeftCount(s: Store, rows: seq<Aged>, k: nat)
    requires Measures(s, rows) && k <= |rows|
    ensures |LeftAfter(s, rows, k)| == |s.tasks| - Sum(rows[..k])
  {
    MeasuresPrefix(s, rows, k);
    SumIsBelonging(s, rows[..k]);
    DeleteLeaves(s, Ids(rows[..k]));
  }

  function Ungrouped(s: Store): set<string> {
    set id | id in s.tasks && s.tasks[id].workflow.None?
  }

  lemma {:induction false} AllListedRemoved(s: Store, rows: seq<Aged>)
    requires Named(s) && Ids(rows) == s.workflows.Keys
    ensures LeftAfter(s, rows, |rows|).Keys == Ungrouped(s)
  {
    assert rows[..|rows|] == rows;
  }

  /** With exact summaries the cleanup brings the tasks down to the limit, or to those that belong to no workflow. */
  lemma {:induction false} CleanupIsEnough(s: Store, rows: seq<Aged>, limit: nat)
    requires Measures(s, rows) && Named(s) && Ids(rows) == s.workflows.Keys
    ensures var left := LeftAfter(s, rows, Needed(rows, |s.tasks| - limit));
      |left| <= limit || left.Keys == Ungrouped(s)
  {
    var k := Needed(rows, |s.tasks| - limit);
    if k == |rows| {
      AllListedRemoved(s, rows);
    } else {
      NeededBounds(rows, |s.tasks| - limit, k);
      LeftCount(s, rows, k);
    }
  }

  /** It removes no workflow too many: keeping the newest of them would have left more tasks than the limit. */
  lemma {:induction false} CleanupIsSparing(s: Store, rows: seq<Aged>, limit: nat, k: nat)
    requires Measures(s, rows) && k + 1 == Needed(rows, |s.tasks| - limit)
    ensures |LeftAfter(s, rows, k)| > limit
  {
    NeededBounds(rows, |s.tasks| - limit, k + 1);
    LeftCount(s, rows, k);
  }

  /** The same from the tables: exact summaries, and the rows of all workflows in some order. */
  lemma {:induction false} CleanupKeepsLimit(s: Store, rows: seq<Aged>, limit: nat)
    requires Counted(s) && Named(s) && ListsWorkflows(rows, s)
    ensures var left := LeftAfter(s, rows, Needed(rows, |s.tasks| - limit));
      |left| <= limit || left.Keys == Ungrouped(s)
  {
    ListedMeasures(s, rows, |rows|);
    assert rows[..|rows|] == rows;
    CleanupIsEnough(s, rows, limit);
  }
}
