/**
  Results.page (runtime/mcp/common.ts) and keyset walks: pages that shrink to a byte budget, each resumed behind
  the last row it returned.
 */
module Paging {
  import opened Options

  /** Whether a response holding the first n rows, and a cursor at that row, fits the byte budget. */
  type Budget<!T> = (seq<T>, nat, Option<T>) -> bool

  /** A page of n rows, or query_budget_exceeded. */
  datatype Page<T> = TooLarge | Page(items: seq<T>, hasMore: bool, cursor: Option<T>)

  function CursorAt<T>(rows: seq<T>, n: nat): Option<T>
    requires n <= |rows|
  {
    if n < |rows| && n > 0 then Some(rows[n - 1]) else None
  }

  predicate Fits<T>(rows: seq<T>, n: nat, fits: Budget<T>)
    requires n <= |rows|
  {
    fits(rows, n, CursorAt(rows, n))
  }

  function Least(a: nat, b: nat): nat { if a < b then a else b }

  /** Not even one row fits, or not even the empty answer. */
  ghost predicate NoneFits<T>(rows: seq<T>, limit: nat, fits: Budget<T>) {
    if rows == [] then !Fits(rows, 0, fits) else forall m :: 0 < m <= Least(limit, |rows|) ==> !Fits(rows, m, fits)
  }

  /** The largest number of rows, at most m, that fits; 0 if no number above it does. */
  function PageSize<T>(rows: seq<T>, m: nat, fits: Budget<T>): (n: nat)
    requires m <= |rows|
    ensures n <= m && (n > 0 ==> Fits(rows, n, fits))
    ensures forall k :: n < k <= m ==> !Fits(rows, k, fits)
  {
    if m == 0 || Fits(rows, m, fits) then m else PageSize(rows, m - 1, fits)
  }

  /** What Results.page makes of its rows: the longest prefix that fits, with its cursor, or an error. */
  ghost predicate IsPageOf<T>(page: Page<T>, rows: seq<T>, limit: nat, fits: Budget<T>) {
    match page
    case TooLarge => NoneFits(rows, limit, fits)
    case Page(items, hasMore, cursor) =>
      var n := PageSize(rows, Least(limit, |rows|), fits);
      && items == rows[..n] && Fits(rows, n, fits) && (rows != [] ==> n > 0)
      && hasMore == (n < |rows|) && cursor == CursorAt(rows, n)
  }

  /** The loop of Results.page: rows are popped until the response fits. */
  method MakePage<T>(rows: seq<T>, limit: nat, fits: Budget<T>) returns (page: Page<T>)
    ensures IsPageOf(page, rows, limit, fits)
    ensures page.Page? ==> !NoneFits(rows, limit, fits)
  {
    var items := rows[..Least(limit, |rows|)];
    while items != [] && !Fits(rows, |items|, fits)
      invariant |items| <= Least(limit, |rows|) && items == rows[..|items|]
      invariant PageSize(rows, Least(limit, |rows|), fits) == PageSize(rows, |items|, fits)
    {
      items := items[..|items| - 1];
    }
    if rows != [] && items == [] {
      return TooLarge;
    }
    if !Fits(rows, |items|, fits) {
      return TooLarge;
    }
    page := Page(items, |items| < |rows|, CursorAt(rows, |items|));
  }

  // ---- Keyset anchors ----

  ghost predicate StrictOrder<T(!new)>(less: (T, T) -> bool) {
    && (forall a: T :: !less(a, a))
    && (forall a: T, b: T, c: T :: less(a, b) && less(b, c) ==> less(a, c))
    && (forall a: T, b: T :: a == b || less(a, b) || less(b, a))
  }

  ghost predicate Sorted<T>(all: seq<T>, less: (T, T) -> bool) {
    forall j, k :: 0 <= j < k < |all| ==> less(all[j], all[k])
  }

  function Filter<T>(all: seq<T>, p: T -> bool): seq<T> {
    if all == [] then [] else (if p(all[0]) then [all[0]] else []) + Filter(all[1..], p)
  }

  /** The rows a query returns behind an anchor, in order; without an anchor, all rows. */
  function Beyond<T>(all: seq<T>, less: (T, T) -> bool, anchor: Option<T>): seq<T> {
    match anchor
    case None => all
    case Some(a) => Filter(all, x => less(a, x))
  }

  lemma {:induction false} FilterAll<T>(all: seq<T>, p: T -> bool)
    requires forall x <- all :: p(x)
    ensures Filter(all, p) == all
  {
    if all != [] { FilterAll(all[1..], p); }
  }

  lemma {:induction false} FilterNone<T>(all: seq<T>, p: T -> bool)
    requires forall x <- all :: !p(x)
    ensures Filter(all, p) == []
  {
    if all != [] { FilterNone(all[1..], p); }
  }

  lemma {:induction false} Regroup<T>(a: seq<T>, b: seq<T>, c: seq<T>)
    ensures a + b + c == a + (b + c)
  {
  }

  lemma {:induction false} FilterConcat<T>(a: seq<T>, b: seq<T>, p: T -> bool)
    ensures Filter(a + b, p) == Filter(a, p) + Filter(b, p)
  {
    if a == [] {
      assert a + b == b;
    } else {
      assert (a + b)[1..] == a[1..] + b && (a + b)[0] == a[0];
      FilterConcat(a[1..], b, p);
      Regroup(if p(a[0]) then [a[0]] else [], Filter(a[1..], p), Filter(b, p));
    }
  }

  /** In a sorted table the rows behind the k-th are the rest of the table. */
  lemma {:induction false} BeyondIsRest<T(!new)>(all: seq<T>, less: (T, T) -> bool, k: nat)
    requires StrictOrder(less) && Sorted(all, less) && k < |all|
    ensures Beyond(all, less, Some(all[k])) == all[k + 1..]
  {
    var p := x => less(all[k], x);
    assert all == all[..k + 1] + all[k + 1..];
    FilterConcat(all[..k + 1], all[k + 1..], p);
    FilterNone(all[..k + 1], p);
    FilterAll(all[k + 1..], p);
  }

  /** Where a walk stands: before the first row, or behind the row of its cursor. */
  ghost predicate StandsAt<T>(all: seq<T>, anchor: Option<T>, k: nat) {
    k <= |all| && if k == 0 then anchor.None? else anchor == Some(all[k - 1])
  }

  lemma {:induction false} BeyondAt<T(!new)>(all: seq<T>, less: (T, T) -> bool, anchor: Option<T>, k: nat)
    requires StrictOrder(less) && Sorted(all, less) && StandsAt(all, anchor, k)
    ensures Beyond(all, less, anchor) == all[k..]
  {
    if k > 0 { BeyondIsRest(all, less, k - 1); }
  }

  /** Each query behind a place of the walk returns the rows behind it. */
  ghost predicate Answers<T(!new)>(all: seq<T>, less: (T, T) -> bool) {
    forall anchor: Option<T>, k: nat {:trigger Beyond(all, less, anchor), StandsAt(all, anchor, k)} ::
      StandsAt(all, anchor, k) ==> Beyond(all, less, anchor) == all[k..]
  }

  lemma {:induction false} SortedAnswers<T(!new)>(all: seq<T>, less: (T, T) -> bool)
    requires StrictOrder(less) && Sorted(all, less)
    ensures Answers(all, less)
  {
    forall anchor: Option<T>, k: nat | StandsAt(all, anchor, k) ensures Beyond(all, less, anchor) == all[k..] {
      BeyondAt(all, less, anchor, k);
    }
  }

  // ---- A walk over a table that does not change ----

  /** The calls of a walk: where the cursor of the call at k stands, if there is one, and whether the call raises. */
  datatype Calls = Calls(turn: nat -> Option<nat>, raises: nat -> bool)

  /** Following cursors from k leads to a call at j, with no call before it that raises. */
  ghost predicate Leads(calls: Calls, bound: nat, k: nat, j: nat)
    decreases bound - k
  {
    || j == k
    || (k < bound && !calls.raises(k)
        && match calls.turn(k)
           case None => false
           case Some(next) => k < next <= bound && Leads(calls, bound, next, j))
  }

  /** No call on the way from the start raises. */
  ghost predicate NeverRaises(calls: Calls, bound: nat) {
    forall j: nat :: Leads(calls, bound, 0, j) ==> !calls.raises(j)
  }

  /** Every call that the walk makes, it makes behind k, or it does not raise. */
  ghost predicate SafeUpTo(calls: Calls, bound: nat, k: nat) {
    forall j: nat :: Leads(calls, bound, 0, j) ==> Leads(calls, bound, k, j) || !calls.raises(j)
  }

  lemma {:induction false} LeadsOn(calls: Calls, bound: nat, k: nat, j: nat, next: nat)
    requires Leads(calls, bound, k, j) && !calls.raises(j) && calls.turn(j) == Some(next) && j < next <= bound
    ensures Leads(calls, bound, k, next)
    decreases bound - k
  {
    if j == k {
      assert Leads(calls, bound, next, next);
    } else {
      LeadsOn(calls, bound, calls.turn(k).value, j, next);
    }
  }

  /** A call that succeeds hands the walk on to its cursor. */
  lemma {:induction false} WalkOn(calls: Calls, bound: nat, k: nat, next: nat)
    requires Leads(calls, bound, 0, k) && SafeUpTo(calls, bound, k)
    requires !calls.raises(k) && calls.turn(k) == Some(next) && k < next <= bound
    ensures Leads(calls, bound, 0, next) && SafeUpTo(calls, bound, next)
  {
    LeadsOn(calls, bound, 0, k, next);
  }

  lemma {:induction false} WalkEnds(calls: Calls, bound: nat, k: nat)
    requires SafeUpTo(calls, bound, k) && !calls.raises(k) && calls.turn(k).None?
    ensures NeverRaises(calls, bound)
  {
  }

  /** What a call fetches behind all[..k]: one row more than the page may hold. */
  function Fetched<T>(all: seq<T>, limit: nat, k: nat): seq<T> {
    if k <= |all| then all[k..Least(k + limit + 1, |all|)] else []
  }

  ghost function SearchCalls<T>(all: seq<T>, limit: nat, fits: Budget<T>): Calls {
    Calls((k: nat) => PageTurn(all, limit, fits, k), (k: nat) => NoneFits(Fetched(all, limit, k), limit, fits))
  }

  function PageTurn<T>(all: seq<T>, limit: nat, fits: Budget<T>, k: nat): Option<nat> {
    var rows := Fetched(all, limit, k);
    var n := PageSize(rows, Least(limit, |rows|), fits);
    if n < |rows| then Some(k + n) else None
  }

  lemma {:induction false} FetchedBehind<T>(all: seq<T>, limit: nat, k: nat)
    requires k <= |all|
    ensures all[k..][..Least(limit + 1, |all| - k)] == Fetched(all, limit, k)
  {
  }

  lemma {:induction false} SliceOn<T>(all: seq<T>, k: nat, next: nat)
    requires k <= next <= |all|
    ensures all[..k] + all[k..next] == all[..next]
  {
  }

  /** What one call behind all[..k] gives: the next rows and the cursor behind them, or an error. */
  ghost predicate IsAnswer<T>(page: Page<T>, all: seq<T>, limit: nat, calls: Calls, k: nat) {
    match page
    case TooLarge => calls.raises(k)
    case Page(items, hasMore, cursor) =>
      var next := k + |items|;
      && !calls.raises(k) && next <= |all| && items == all[k..next] && |items| <= limit
      && calls.turn(k) == (if hasMore then Some(next) else None)
      && if hasMore then next > k && cursor == Some(all[next - 1]) else next == |all|
  }

  lemma {:induction false} PageAnswers<T>(page: Page<T>, all: seq<T>, limit: nat, fits: Budget<T>, k: nat)
    requires k <= |all| && limit > 0 && IsPageOf(page, Fetched(all, limit, k), limit, fits)
    requires page.Page? ==> !NoneFits(Fetched(all, limit, k), limit, fits)
    ensures IsAnswer(page, all, limit, SearchCalls(all, limit, fits), k)
  {
  }

  /** One call: limit + 1 rows behind the cursor, cut to a page. */
  method Next<T(!new)>(
    all: seq<T>, less: (T, T) -> bool, anchor: Option<T>, limit: nat, fits: Budget<T>, ghost k: nat)
    returns (page: Page<T>)
    requires Answers(all, less) && StandsAt(all, anchor, k) && limit > 0
    ensures IsAnswer(page, all, limit, SearchCalls(all, limit, fits), k)
  {
    var behind := Beyond(all, less, anchor);
    FetchedBehind(all, limit, k);
    page := MakePage(behind[..Least(limit + 1, |behind|)], limit, fits);
    PageAnswers(page, all, limit, fits, k);
  }

  /** Where a walk is: at a call that it makes, with no raising call behind it. */
  ghost predicate Reached<T>(all: seq<T>, anchor: Option<T>, calls: Calls, at: nat) {
    StandsAt(all, anchor, at) && Leads(calls, |all|, 0, at) && SafeUpTo(calls, |all|, at)
  }

  /** The walk is at a call, or at its end. */
  ghost predicate IsUnderway<T>(all: seq<T>, anchor: Option<T>, calls: Calls, at: nat, more: bool) {
    if more then Reached(all, anchor, calls, at) else at == |all| && NeverRaises(calls, |all|)
  }

  lemma {:induction false} WalkStarts<T>(all: seq<T>, calls: Calls)
    ensures IsUnderway(all, None, calls, 0, true)
  {
  }

  /** From one call to the next, or to the end. */
  lemma {:induction false} AnswerReaches<T>(
    page: Page<T>, all: seq<T>, anchor: Option<T>, limit: nat, calls: Calls, at: nat)
    requires Reached(all, anchor, calls, at) && page.Page? && IsAnswer(page, all, limit, calls, at)
    ensures at + |page.items| <= |all| && all[..at] + page.items == all[..at + |page.items|]
    ensures at + |page.items| > at || !page.hasMore
    ensures IsUnderway(all, page.cursor, calls, at + |page.items|, page.hasMore)
  {
    SliceOn(all, at, at + |page.items|);
    if page.hasMore {
      WalkOn(calls, |all|, at, at + |page.items|);
    } else {
      WalkEnds(calls, |all|, at);
    }
  }

  /** Following cursors until there is none. */
  method FollowCursors<T(!new)>(
    all: seq<T>, less: (T, T) -> bool, limit: nat, fits: Budget<T>, ghost calls: Calls)
    returns (rows: seq<T>, complete: bool, ghost at: nat)
    requires Answers(all, less) && limit > 0 && calls == SearchCalls(all, limit, fits)
    ensures complete ==> rows == all && NeverRaises(calls, |all|)
    ensures !complete ==> at <= |all| && rows == all[..at] && Leads(calls, |all|, 0, at) && calls.raises(at)
  {
    rows, at := [], 0;
    var anchor: Option<T> := None;
    var more := true;
    WalkStarts(all, calls);
    while more
      invariant at <= |all| && rows == all[..at] && IsUnderway(all, anchor, calls, at, more)
      decreases |all| - at, if more then 1 else 0
    {
      var page := Next(all, less, anchor, limit, fits, at);
      if page.TooLarge? {
        return rows, false, at;
      }
      AnswerReaches(page, all, anchor, limit, calls, at);
      rows := rows + page.items;
      at := at + |page.items|;
      anchor := page.cursor;
      more := page.hasMore;
    }
    complete := true;
  }

  /**
    A walk over an unchanging table gives every row once, in order, if no call on the way raises; otherwise it
    gives the rows before the first call that does.
   */
  method WalkAll<T(!new)>(all: seq<T>, less: (T, T) -> bool, limit: nat, fits: Budget<T>)
    returns (rows: seq<T>, complete: bool, ghost at: nat)
    requires StrictOrder(less) && Sorted(all, less) && limit > 0
    ensures var calls := SearchCalls(all, limit, fits);
      && (complete <==> NeverRaises(calls, |all|)) && (complete ==> rows == all)
      && (!complete ==> at <= |all| && rows == all[..at] && Leads(calls, |all|, 0, at) && calls.raises(at))
  {
    SortedAnswers(all, less);
    rows, complete, at := FollowCursors(all, less, limit, fits, SearchCalls(all, limit, fits));
  }

  // ---- Budgets in bytes ----

  function Total<T>(rows: seq<T>, size: T -> nat): nat {
    if rows == [] then 0 else size(rows[0]) + Total(rows[1..], size)
  }

  /** A frame, the rows on the page and the cursor, within a number of bytes. */
  function Bytes<T>(frame: nat, size: T -> nat, cursorSize: T -> nat, budget: nat): Budget<T> {
    (rows: seq<T>, n: nat, cursor: Option<T>) =>
      n <= |rows| &&
      frame + Total(rows[..n], size) + (if cursor.Some? then cursorSize(cursor.value) else 0) <= budget
  }

  /** A walk in bytes is complete as soon as each row by itself, with a cursor at it, fits. */
  lemma {:induction false} SingleRowsSuffice<T>(
    all: seq<T>, limit: nat, frame: nat, size: T -> nat, cursorSize: T -> nat, budget: nat)
    requires limit > 0 && frame <= budget && forall r <- all :: frame + size(r) + cursorSize(r) <= budget
    ensures NeverRaises(SearchCalls(all, limit, Bytes(frame, size, cursorSize, budget)), |all|)
  {
    forall k: nat ensures !NoneFits(Fetched(all, limit, k), limit, Bytes(frame, size, cursorSize, budget)) {
      RowsFit(Fetched(all, limit, k), limit, frame, size, cursorSize, budget);
    }
  }

  lemma {:induction false} RowsFit<T>(
    rows: seq<T>, limit: nat, frame: nat, size: T -> nat, cursorSize: T -> nat, budget: nat)
    requires limit > 0 && frame <= budget && forall r <- rows :: frame + size(r) + cursorSize(r) <= budget
    ensures !NoneFits(rows, limit, Bytes(frame, size, cursorSize, budget))
  {
    if rows != [] {
      assert rows[..1] == [rows[0]] && Total([rows[0]], size) == size(rows[0]) + Total([], size) by {
        assert [rows[0]][1..] == [];
      }
      assert Fits(rows, 1, Bytes(frame, size, cursorSize, budget));
    } else {
      assert rows[..0] == [] && Total([], size) == 0;
      assert Total(rows[..0], size) == 0;
      assert Fits(rows, 0, Bytes(frame, size, cursorSize, budget));
    }
  }

  // ---- The order of workflow searches ----

  predicate TextLess(a: string, b: string) {
    if b == "" then false
    else if a == "" then true
    else a[0] < b[0] || (a[0] == b[0] && TextLess(a[1..], b[1..]))
  }

  lemma {:induction false} TextIrreflexive(a: string)
    ensures !TextLess(a, a)
  {
    if a != "" { TextIrreflexive(a[1..]); }
  }

  lemma {:induction false} TextTransitive(a: string, b: string, c: string)
    requires TextLess(a, b) && TextLess(b, c)
    ensures TextLess(a, c)
  {
    if a != "" && a[0] == b[0] == c[0] { TextTransitive(a[1..], b[1..], c[1..]); }
  }

  lemma {:induction false} TextTotal(a: string, b: string)
    ensures a == b || TextLess(a, b) || TextLess(b, a)
  {
    if a != "" && b != "" && a[0] == b[0] {
      TextTotal(a[1..], b[1..]);
      assert a == [a[0]] + a[1..] && b == [b[0]] + b[1..];
    }
  }

  /** a comes first where the two differ, or is a beginning of b. */
  ghost predicate DiffersAt(a: string, b: string, k: nat) {
    k <= |a| && k < |b| && a[..k] == b[..k] && (k == |a| || a[k] < b[k])
  }

  lemma {:induction false} TextLessIff(a: string, b: string)
    ensures TextLess(a, b) <==> exists k: nat :: DiffersAt(a, b, k)
  {
    if TextLess(a, b) {
      if a == "" || a[0] < b[0] {
        assert DiffersAt(a, b, 0);
      } else {
        TextLessIff(a[1..], b[1..]);
        var k: nat :| DiffersAt(a[1..], b[1..], k);
        assert a[..k + 1] == [a[0]] + a[1..][..k] && b[..k + 1] == [b[0]] + b[1..][..k];
        assert DiffersAt(a, b, k + 1);
      }
    }
    if k: nat :| DiffersAt(a, b, k) {
      if k > 0 {
        assert a[0] == a[..k][0] == b[..k][0] == b[0];
        assert a[1..][..k - 1] == a[..k][1..] && b[1..][..k - 1] == b[..k][1..];
        assert DiffersAt(a[1..], b[1..], k - 1);
        TextLessIff(a[1..], b[1..]);
      }
    }
  }

  datatype Candidate = Candidate(rank: int, time: int, id: string)

  /** ORDER BY rank DESC, time DESC, workflow_id ASC; also the search anchor: b stands behind a. */
  predicate Before(a: Candidate, b: Candidate) {
    || b.rank < a.rank
    || (b.rank == a.rank && b.time < a.time)
    || (b.rank == a.rank && b.time == a.time && TextLess(a.id, b.id))
  }

  lemma {:induction false} BeforeIsStrict()
    ensures StrictOrder(Before)
  {
    forall a: Candidate ensures !Before(a, a) {
      TextIrreflexive(a.id);
    }
    forall a: Candidate, b: Candidate, c: Candidate | Before(a, b) && Before(b, c) ensures Before(a, c) {
      if TextLess(a.id, b.id) && TextLess(b.id, c.id) { TextTransitive(a.id, b.id, c.id); }
    }
    forall a: Candidate, b: Candidate ensures a == b || Before(a, b) || Before(b, a) {
      TextTotal(a.id, b.id);
    }
  }

  /** Results come best first, then latest first, then by id. */
  lemma {:induction false} BestFirst(all: seq<Candidate>, j: nat, k: nat)
    requires Sorted(all, Before) && j < k < |all|
    ensures all[j].rank >= all[k].rank
    ensures all[j].rank == all[k].rank ==> all[j].time >= all[k].time
    ensures all[j].rank == all[k].rank && all[j].time == all[k].time ==>
      exists n: nat :: DiffersAt(all[j].id, all[k].id, n)
  {
    TextLessIff(all[j].id, all[k].id);
  }

  /** search_workflows with its own order and anchor. */
  method SearchAll(all: seq<Candidate>, limit: nat, fits: Budget<Candidate>)
    returns (rows: seq<Candidate>, complete: bool, ghost at: nat)
    requires Sorted(all, Before) && limit > 0
    ensures var calls := SearchCalls(all, limit, fits);
      && (complete <==> NeverRaises(calls, |all|)) && (complete ==> rows == all)
      && (!complete ==> at <= |all| && rows == all[..at] && Leads(calls, |all|, 0, at) && calls.raises(at))
  {
    BeforeIsStrict();
    rows, complete, at := WalkAll(all, Before, limit, fits);
  }
}
