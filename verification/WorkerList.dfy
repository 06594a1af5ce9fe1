/**
  list_workers (runtime/mcp/workers.ts): a scan of at most 200 workers per call, in batches of 50, for those that
  register a task name, cut to a byte budget and resumed by a cursor.
 */
module WorkerList {
  import opened Options
  import opened Paging

  const BATCH := 50
  const MAX_SCAN := 200

  /** A row of the filtered worker query. */
  datatype Worker = Worker(priority: nat, hostname: string, registered: seq<string>)

  predicate Precedes(a: Worker, b: Worker) {
    a.priority < b.priority || (a.priority == b.priority && TextLess(a.hostname, b.hostname))
  }

  /** ORDER BY priority, hostname, over distinct host names, none of them empty. */
  ghost predicate IsTable(all: seq<Worker>) {
    && (forall j, k :: 0 <= j < k < |all| ==> Precedes(all[j], all[k]))
    && (forall w <- all :: w.hostname != "")
  }

  /** Workers come by priority, then by host name. */
  lemma {:induction false} LowPriorityFirst(all: seq<Worker>, j: nat, k: nat)
    requires IsTable(all) && j < k < |all|
    ensures all[j].priority <= all[k].priority
    ensures all[j].priority == all[k].priority ==> exists n: nat :: DiffersAt(all[j].hostname, all[k].hostname, n)
  {
    TextLessIff(all[j].hostname, all[k].hostname);
  }

  /** A position from a cursor; a host name that is empty is no anchor. */
  datatype Position = Position(priority: nat, hostname: string)

  function PositionOf(w: Worker): Position {
    Position(w.priority, w.hostname)
  }

  predicate IsBehind(w: Worker, after: Option<Position>) {
    after.Some? && after.value.hostname != "" ==>
      || w.priority > after.value.priority
      || (w.priority == after.value.priority && TextLess(after.value.hostname, w.hostname))
  }

  /** One batch of the scan. */
  function Batch(all: seq<Worker>, after: Option<Position>): seq<Worker> {
    var rows := Filter(all, w => IsBehind(w, after));
    if |rows| > BATCH then rows[..BATCH] else rows
  }

  /** The scan stands behind all[..k]. */
  ghost predicate At(all: seq<Worker>, after: Option<Position>, k: nat) {
    k <= |all| && if k == 0 then after.None? else after == Some(PositionOf(all[k - 1]))
  }

  lemma {:induction false} BehindRest(all: seq<Worker>, after: Option<Position>, k: nat)
    requires IsTable(all) && At(all, after, k)
    ensures Filter(all, w => IsBehind(w, after)) == all[k..]
  {
    var p := w => IsBehind(w, after);
    assert all == all[..k] + all[k..];
    FilterConcat(all[..k], all[k..], p);
    forall w <- all[..k] ensures !p(w) {
      NotBehind(all, after, k, w);
    }
    FilterNone(all[..k], p);
    FilterAll(all[k..], p);
  }

  lemma {:induction false} NotBehind(all: seq<Worker>, after: Option<Position>, k: nat, w: Worker)
    requires IsTable(all) && At(all, after, k) && w in all[..k]
    ensures !IsBehind(w, after)
  {
    var j :| 0 <= j < k && all[j] == w;
    var last := all[k - 1];
    assert last in all;
    TextIrreflexive(last.hostname);
    if j < k - 1 && w.priority == last.priority && TextLess(last.hostname, w.hostname) {
      TextTransitive(w.hostname, last.hostname, w.hostname);
      TextIrreflexive(w.hostname);
    }
  }

  lemma {:induction false} BatchRest(all: seq<Worker>, after: Option<Position>, k: nat)
    requires IsTable(all) && At(all, after, k)
    ensures Batch(all, after) == all[k..Least(k + BATCH, |all|)]
  {
    BehindRest(all, after, k);
    assert all[k..][..Least(BATCH, |all| - k)] == all[k..Least(k + BATCH, |all|)];
  }

  type Matches = Worker -> bool

  datatype Scan = Scan(
    selected: seq<Worker>, after: Option<Position>, scanned: nat, exhausted: bool, last: Option<Worker>)

  /** Where a scan from k stops that stands at e: at the end, at the bound or with one worker too many. */
  function ScanEnd(all: seq<Worker>, p: Matches, limit: nat, k: nat, e: nat): (end: nat)
    requires k <= e <= |all|
    ensures e <= end <= |all| && (end == e || end <= k + MAX_SCAN)
    decreases |all| - e
  {
    if e == |all| || e >= k + MAX_SCAN || |Filter(all[k..e], p)| > limit then e else ScanEnd(all, p, limit, k, e + 1)
  }

  /** The workers that the scan from k selects. */
  function Selected(all: seq<Worker>, p: Matches, limit: nat, k: nat): seq<Worker>
    requires k <= |all|
  {
    Filter(all[k..ScanEnd(all, p, limit, k, k)], p)
  }

  /** The scan from k stands at e: everything up to e that matches is selected, and it stops where it should. */
  ghost predicate Scanned(all: seq<Worker>, p: Matches, limit: nat, k: nat, e: nat, s: Scan) {
    && k <= e <= |all| && s.scanned == e - k <= MAX_SCAN
    && s.selected == Filter(all[k..e], p)
    && (if e == k then s.last.None? else s.last == Some(all[e - 1]))
    && ScanEnd(all, p, limit, k, e) == ScanEnd(all, p, limit, k, k)
  }

  lemma {:induction false} FilterSnoc(all: seq<Worker>, p: Matches, k: nat, e: nat)
    requires k <= e < |all|
    ensures Filter(all[k..e + 1], p) == Filter(all[k..e], p) + (if p(all[e]) then [all[e]] else [])
  {
    assert all[k..e + 1] == all[k..e] + [all[e]];
    FilterConcat(all[k..e], [all[e]], p);
  }

  /** The body of the inner loop. */
  function Seen(s: Scan, p: Matches, raw: Worker): Scan {
    s.(last := Some(raw), scanned := s.scanned + 1, selected := if p(raw) then s.selected + [raw] else s.selected)
  }

  lemma {:induction false} ScannedSnoc(all: seq<Worker>, p: Matches, limit: nat, k: nat, e: nat, s: Scan)
    requires Scanned(all, p, limit, k, e, s) && |s.selected| <= limit && e < |all| && e < k + MAX_SCAN
    ensures Scanned(all, p, limit, k, e + 1, Seen(s, p, all[e]))
  {
    FilterSnoc(all, p, k, e);
  }

  lemma {:induction false} BatchAt(all: seq<Worker>, batch: seq<Worker>, start: nat, n: nat)
    requires start + |batch| <= |all| && batch == all[start..start + |batch|] && n < |batch|
    ensures batch[n] == all[start + n]
  {
  }

  /** The inner loop: one batch, until the selection is full. */
  method ScanBatch(
    all: seq<Worker>, p: Matches, limit: nat, batch: seq<Worker>, before: Scan, ghost k: nat, ghost start: nat)
    returns (s: Scan, ghost e: nat)
    requires Scanned(all, p, limit, k, start, before) && |before.selected| <= limit && batch != []
    requires start + |batch| <= |all| && batch == all[start..start + |batch|] && start + |batch| <= k + MAX_SCAN
    ensures start < e <= start + |batch| && Scanned(all, p, limit, k, e, s)
    ensures |s.selected| <= limit ==> e == start + |batch|
    ensures s.exhausted == before.exhausted
  {
    s, e := before, start;
    for n := 0 to |batch|
      invariant e == start + n && Scanned(all, p, limit, k, e, s) && |s.selected| <= limit
      invariant s.exhausted == before.exhausted
    {
      var raw := batch[n];
      BatchAt(all, batch, start, n);
      ScannedSnoc(all, p, limit, k, e, s);
      s := Seen(s, p, raw);
      e := e + 1;
      if |s.selected| > limit {
        break;
      }
    }
  }

  /** One turn of the outer loop: the next batch, or the end of the table. */
  method ScanRound(all: seq<Worker>, p: Matches, limit: nat, before: Scan, ghost k: nat, ghost start: nat)
    returns (s: Scan, ghost e: nat)
    requires IsTable(all) && At(all, before.after, start) && Scanned(all, p, limit, k, start, before)
    requires |before.selected| <= limit && !before.exhausted && start + BATCH <= k + MAX_SCAN
    ensures start <= e <= start + BATCH && Scanned(all, p, limit, k, e, s)
    ensures |s.selected| <= limit ==>
      if s.exhausted then e == |all| && e < start + BATCH else e == start + BATCH && At(all, s.after, e)
    ensures |s.selected| > limit ==> e > start
  {
    var batch := Batch(all, before.after);
    BatchRest(all, before.after, start);
    if batch == [] {
      return before.(exhausted := true), start;
    }
    s, e := ScanBatch(all, p, limit, batch, before, k, start);
    s := s.(after := Some(PositionOf(s.last.value)), exhausted := |batch| < BATCH);
  }

  /** What a finished scan from k has found: the selection up to its end, and whether the table goes on. */
  ghost predicate IsScan(all: seq<Worker>, p: Matches, limit: nat, k: nat, s: Scan) {
    k <= |all| &&
    var e := ScanEnd(all, p, limit, k, k);
    && s.selected == Selected(all, p, limit, k)
    && (if e == k then s.last.None? else s.last == Some(all[e - 1]))
    && (|s.selected| <= limit ==> (s.exhausted <==> e < k + MAX_SCAN) && (s.exhausted ==> e == |all|))
  }

  /** The outer loop. */
  method ScanWorkers(all: seq<Worker>, p: Matches, limit: nat, position: Option<Position>, ghost k: nat)
    returns (s: Scan)
    requires IsTable(all) && At(all, position, k)
    ensures IsScan(all, p, limit, k, s)
  {
    s := Scan([], position, 0, false, None);
    ghost var e := k;
    ghost var rounds := 0;
    while |s.selected| <= limit && s.scanned < MAX_SCAN && !s.exhausted
      invariant Scanned(all, p, limit, k, e, s)
      invariant |s.selected| <= limit && !s.exhausted ==> At(all, s.after, e) && e == k + BATCH * rounds
      invariant s.exhausted && |s.selected| <= limit ==> e == |all| && e < k + MAX_SCAN
      decreases |all| - e, if s.exhausted then 0 else 1
    {
      s, e := ScanRound(all, p, limit, s, k, e);
      rounds := rounds + 1;
    }
  }

  /** The answer: the page, and the cursor from its last worker or from the last one scanned. */
  datatype Answer = OverBudget | Answer(workers: seq<Worker>, hasMore: bool, cursor: Option<Position>)

  /** Whether a page fits while it is cut, its rows carrying their priorities, and whether it does when it is sent. */
  datatype Budgets = Budgets(cut: Budget<Worker>, sent: Budget<Worker>)

  /** The row of the answer's cursor: the last of n workers or, when nothing is left over, the last one scanned. */
  function CursorRow(s: Scan, n: nat): Option<Worker>
    requires n <= |s.selected|
  {
    if n < |s.selected| then CursorAt(s.selected, n) else if !s.exhausted then s.last else None
  }

  /** What is made of a finished scan: the longest page that fits, if the answer with its cursor fits as well. */
  ghost predicate IsAnswerOf(answer: Answer, s: Scan, limit: nat, budgets: Budgets) {
    var n := PageSize(s.selected, Least(limit, |s.selected|), budgets.cut);
    var cursor := CursorRow(s, n);
    var fails := NoneFits(s.selected, limit, budgets.cut) || !budgets.sent(s.selected, n, cursor);
    match answer
    case OverBudget => fails
    case Answer(workers, hasMore, position) =>
      && !fails && workers == s.selected[..n] && (s.selected != [] ==> n > 0)
      && hasMore == cursor.Some? && (hasMore ==> position == Some(PositionOf(cursor.value)))
  }

  /** The answer for a finished scan: where the cursor points and whether it fits. */
  method AnswerScan(s: Scan, limit: nat, budgets: Budgets) returns (answer: Answer)
    requires limit > 0
    ensures IsAnswerOf(answer, s, limit, budgets)
    ensures answer.Answer? && |answer.workers| < |s.selected| ==>
      answer.workers != [] && answer.cursor == Some(PositionOf(answer.workers[|answer.workers| - 1]))
    ensures answer.Answer? && |answer.workers| == |s.selected| && !s.exhausted && s.last.Some? ==>
      answer.cursor == Some(PositionOf(s.last.value))
  {
    var page := MakePage(s.selected, limit, budgets.cut);
    if page.TooLarge? {
      return OverBudget;
    }
    var cursor := page.cursor;
    if !page.hasMore && !s.exhausted && s.last.Some? {
      cursor := s.last;
    }
    if !budgets.sent(s.selected, |page.items|, cursor) {
      return OverBudget;
    }
    answer := match cursor
      case Some(row) => Answer(page.items, true, Some(PositionOf(row)))
      case None => Answer(page.items, false, None);
  }

  /** Behind the n-th match from k on. */
  function NthEnd(all: seq<Worker>, p: Matches, k: nat, n: nat): nat
    decreases |all| - k
  {
    if n == 0 || k >= |all| then k else NthEnd(all, p, k + 1, if p(all[k]) then n - 1 else n)
  }

  lemma {:induction false} FilterCons(all: seq<Worker>, p: Matches, k: nat, e: nat)
    requires k < e <= |all|
    ensures Filter(all[k..e], p) == (if p(all[k]) then [all[k]] else []) + Filter(all[k + 1..e], p)
  {
    assert all[k..e][1..] == all[k + 1..e];
  }

  lemma {:induction false} NthEndMatches(all: seq<Worker>, p: Matches, k: nat, e: nat, n: nat)
    requires k <= e <= |all| && n <= |Filter(all[k..e], p)|
    ensures var next := NthEnd(all, p, k, n);
      && k <= next <= e && Filter(all[k..next], p) == Filter(all[k..e], p)[..n]
      && (n > 0 ==> k < next && all[next - 1] == Filter(all[k..e], p)[n - 1])
    decreases e - k
  {
    if n == 0 {
      assert all[k..k] == [];
    } else {
      FilterCons(all, p, k, e);
      NthEndMatches(all, p, k + 1, e, if p(all[k]) then n - 1 else n);
      FilterCons(all, p, k, NthEnd(all, p, k, n));
    }
  }

  // ---- Following the cursors ----

  /** Where the cursor of the call behind all[..k] stands: behind its page, or where the scan met its bound. */
  function WorkerTurn(all: seq<Worker>, p: Matches, limit: nat, budgets: Budgets, k: nat): Option<nat> {
    if k > |all| then None else
      var rows := Selected(all, p, limit, k);
      var n := PageSize(rows, Least(limit, |rows|), budgets.cut);
      if n < |rows| then Some(NthEnd(all, p, k, n))
      else if ScanEnd(all, p, limit, k, k) == k + MAX_SCAN then Some(k + MAX_SCAN)
      else None
  }

  /** The row of that cursor. */
  function TurnRow(all: seq<Worker>, p: Matches, limit: nat, k: nat, n: nat): Option<Worker>
    requires k <= |all| && n <= |Selected(all, p, limit, k)|
  {
    var rows, e := Selected(all, p, limit, k), ScanEnd(all, p, limit, k, k);
    if n < |rows| then CursorAt(rows, n) else if e == k + MAX_SCAN then Some(all[e - 1]) else None
  }

  /** The call behind all[..k] raises query_budget_exceeded: no selected worker fits, or not the answer as sent. */
  ghost predicate Raises(all: seq<Worker>, p: Matches, limit: nat, budgets: Budgets, k: nat) {
    k <= |all| &&
    var rows := Selected(all, p, limit, k);
    var n := PageSize(rows, Least(limit, |rows|), budgets.cut);
    NoneFits(rows, limit, budgets.cut) || !budgets.sent(rows, n, TurnRow(all, p, limit, k, n))
  }

  /** Sending drops the priorities, so that what fits while the page is cut fits when it is sent. */
  ghost predicate IsSmaller(budgets: Budgets) {
    forall rows: seq<Worker>, n: nat, cursor: Option<Worker> ::
      budgets.cut(rows, n, cursor) ==> budgets.sent(rows, n, cursor)
  }

  /**
    Then a call raises exactly when no selected worker fits, or when all of them do, but not with the cursor at the
    last scanned worker, which is added behind the cut; no shorter page is tried.
   */
  lemma {:induction false} RaisesIff(all: seq<Worker>, p: Matches, limit: nat, budgets: Budgets, k: nat)
    requires k <= |all| && limit > 0 && IsSmaller(budgets)
    ensures var rows, e := Selected(all, p, limit, k), ScanEnd(all, p, limit, k, k);
      Raises(all, p, limit, budgets, k) <==>
        || NoneFits(rows, limit, budgets.cut)
        || (&& |rows| <= limit && Fits(rows, |rows|, budgets.cut)
            && e == k + MAX_SCAN && !budgets.sent(rows, |rows|, Some(all[e - 1])))
  {
    var rows := Selected(all, p, limit, k);
    var n := PageSize(rows, Least(limit, |rows|), budgets.cut);
    if !NoneFits(rows, limit, budgets.cut) {
      assert Fits(rows, n, budgets.cut);
    }
  }

  lemma {:induction false} TotalSmaller(rows: seq<Worker>, cutSize: Worker -> nat, sentSize: Worker -> nat)
    requires forall w :: sentSize(w) <= cutSize(w)
    ensures Total(rows, sentSize) <= Total(rows, cutSize)
  {
    if rows != [] { TotalSmaller(rows[1..], cutSize, sentSize); }
  }

  /** In bytes it suffices that no worker grows. */
  lemma {:induction false} BytesAreSmaller(
    frame: nat, cutSize: Worker -> nat, sentSize: Worker -> nat, cursorSize: Worker -> nat, budget: nat)
    requires forall w :: sentSize(w) <= cutSize(w)
    ensures IsSmaller(Budgets(Bytes(frame, cutSize, cursorSize, budget), Bytes(frame, sentSize, cursorSize, budget)))
  {
    var cut, sent := Bytes(frame, cutSize, cursorSize, budget), Bytes(frame, sentSize, cursorSize, budget);
    forall rows: seq<Worker>, n: nat, cursor: Option<Worker> | cut(rows, n, cursor) ensures sent(rows, n, cursor) {
      TotalSmaller(rows[..n], cutSize, sentSize);
    }
  }

  ghost function WorkerCalls(all: seq<Worker>, p: Matches, limit: nat, budgets: Budgets): Calls {
    Calls((k: nat) => WorkerTurn(all, p, limit, budgets, k), (k: nat) => Raises(all, p, limit, budgets, k))
  }

  /** What one call behind all[..k] gives: the matches up to next and a cursor there, or an error. */
  ghost predicate IsReply(answer: Answer, all: seq<Worker>, p: Matches, limit: nat, calls: Calls, k: nat, next: nat) {
    match answer
    case OverBudget => calls.raises(k)
    case Answer(workers, hasMore, cursor) =>
      && !calls.raises(k) && k <= next <= |all| && |workers| <= limit && workers == Filter(all[k..next], p)
      && calls.turn(k) == (if hasMore then Some(next) else None)
      && if hasMore then next > k && At(all, cursor, next) else next == |all|
  }

  /** Where the call behind all[..k] stops reading, as far as its answer goes. */
  function NextOf(all: seq<Worker>, p: Matches, limit: nat, budgets: Budgets, k: nat): nat {
    match WorkerTurn(all, p, limit, budgets, k)
    case Some(next) => next
    case None => |all|
  }

  /** The cursor's row as the scan knows it and as the table does. */
  lemma {:induction false} CursorIsTurn(s: Scan, all: seq<Worker>, p: Matches, limit: nat, k: nat, n: nat)
    requires IsScan(all, p, limit, k, s) && n <= |s.selected| && n <= limit
    ensures CursorRow(s, n) == TurnRow(all, p, limit, k, n)
  {
  }

  /** What a page of n workers covers: the matches up to its cursor's row, or to the end of the table. */
  lemma {:induction false} TurnCovers(all: seq<Worker>, p: Matches, limit: nat, budgets: Budgets, k: nat)
    requires k <= |all| && limit > 0 && !NoneFits(Selected(all, p, limit, k), limit, budgets.cut)
    ensures var rows, next := Selected(all, p, limit, k), NextOf(all, p, limit, budgets, k);
      var n := PageSize(rows, Least(limit, |rows|), budgets.cut);
      var row := TurnRow(all, p, limit, k, n);
      && k <= next <= |all| && rows[..n] == Filter(all[k..next], p)
      && WorkerTurn(all, p, limit, budgets, k) == (if row.Some? then Some(next) else None)
      && if row.Some? then next > k && row == Some(all[next - 1]) else next == |all|
  {
    var rows := Selected(all, p, limit, k);
    NthEndMatches(all, p, k, ScanEnd(all, p, limit, k, k), PageSize(rows, Least(limit, |rows|), budgets.cut));
    EndIsBound(all, p, limit, k, k);
  }

  lemma {:induction false} ScanReplies(
    answer: Answer, s: Scan, all: seq<Worker>, p: Matches, limit: nat, budgets: Budgets, k: nat)
    requires k <= |all| && limit > 0 && IsScan(all, p, limit, k, s) && IsAnswerOf(answer, s, limit, budgets)
    ensures IsReply(answer, all, p, limit, WorkerCalls(all, p, limit, budgets), k, NextOf(all, p, limit, budgets, k))
  {
    CursorIsTurn(s, all, p, limit, k, PageSize(s.selected, Least(limit, |s.selected|), budgets.cut));
    if answer.Answer? { TurnCovers(all, p, limit, budgets, k); }
  }

  /** A scan that stops before its bound with its selection not full has met the end. */
  lemma {:induction false} EndIsBound(all: seq<Worker>, p: Matches, limit: nat, k: nat, e: nat)
    requires k <= e <= |all| && e <= k + MAX_SCAN
    ensures var end := ScanEnd(all, p, limit, k, e);
      end == |all| || end == k + MAX_SCAN || |Filter(all[k..end], p)| > limit
    decreases |all| - e
  {
    if !(e == |all| || e >= k + MAX_SCAN || |Filter(all[k..e], p)| > limit) { EndIsBound(all, p, limit, k, e + 1); }
  }

  /** One call of list_workers. */
  method ListWorkers(
    all: seq<Worker>, p: Matches, limit: nat, position: Option<Position>, budgets: Budgets, ghost k: nat)
    returns (answer: Answer)
    requires IsTable(all) && At(all, position, k) && limit > 0
    ensures IsReply(answer, all, p, limit, WorkerCalls(all, p, limit, budgets), k, NextOf(all, p, limit, budgets, k))
  {
    var s := ScanWorkers(all, p, limit, position, k);
    answer := AnswerScan(s, limit, budgets);
    ScanReplies(answer, s, all, p, limit, budgets, k);
  }

  /** Where a walk is: at a call that it makes, with no raising call behind it. */
  ghost predicate Reaches(all: seq<Worker>, position: Option<Position>, calls: Calls, at: nat) {
    At(all, position, at) && Leads(calls, |all|, 0, at) && SafeUpTo(calls, |all|, at)
  }

  /** From one call to the next, or to the end. */
  lemma {:induction false} ReplyReaches(
    answer: Answer, all: seq<Worker>, p: Matches, position: Option<Position>, limit: nat, calls: Calls, at: nat,
    next: nat)
    requires Reaches(all, position, calls, at) && answer.Answer? && IsReply(answer, all, p, limit, calls, at, next)
    ensures Filter(all[..at], p) + answer.workers == Filter(all[..next], p)
    ensures answer.hasMore ==> Reaches(all, answer.cursor, calls, next)
    ensures !answer.hasMore ==> NeverRaises(calls, |all|)
  {
    SliceOn(all, at, next);
    FilterConcat(all[..at], all[at..next], p);
    if answer.hasMore {
      WalkOn(calls, |all|, at, next);
    } else {
      WalkEnds(calls, |all|, at);
    }
  }

  /**
    Following the cursors of an unchanging table gives every matching worker once, in order, although pages are
    empty, cut by the scan bound or shortened by the byte budget, exactly when no call on the way raises; otherwise
    it gives the matches before the first call that does.
   */
  method ListAll(all: seq<Worker>, p: Matches, limit: nat, budgets: Budgets)
    returns (workers: seq<Worker>, complete: bool, ghost at: nat)
    requires IsTable(all) && limit > 0
    ensures var calls := WorkerCalls(all, p, limit, budgets);
      && (complete <==> NeverRaises(calls, |all|)) && (complete ==> workers == Filter(all, p))
      && (!complete ==>
        at <= |all| && workers == Filter(all[..at], p) && Leads(calls, |all|, 0, at) && calls.raises(at))
  {
    workers, at := [], 0;
    ghost var calls := WorkerCalls(all, p, limit, budgets);
    var position: Option<Position> := None;
    var more := true;
    while more
      invariant at <= |all| && workers == Filter(all[..at], p)
      invariant if more then Reaches(all, position, calls, at) else at == |all| && NeverRaises(calls, |all|)
      decreases |all| - at, if more then 1 else 0
    {
      var answer := ListWorkers(all, p, limit, position, budgets, at);
      if answer.OverBudget? {
        return workers, false, at;
      }
      ghost var next := NextOf(all, p, limit, budgets, at);
      ReplyReaches(answer, all, p, position, limit, calls, at, next);
      workers := workers + answer.workers;
      position := answer.cursor;
      more := answer.hasMore;
      at := next;
    }
    assert all[..|all|] == all;
    complete := true;
  }

  // ---- A page that fits and is refused ----

  lemma {:induction false} FilterWithin(all: seq<Worker>, p: Matches, k: nat, e: nat, end: nat)
    requires k <= e <= end <= |all|
    ensures |Filter(all[k..e], p)| <= |Filter(all[k..end], p)|
  {
    assert all[k..end] == all[k..e] + all[e..end];
    FilterConcat(all[k..e], all[e..end], p);
  }

  /** With few matches a scan goes to its bound. */
  lemma {:induction false} ScanMeetsBound(all: seq<Worker>, p: Matches, limit: nat, k: nat, e: nat)
    requires k <= e <= k + MAX_SCAN <= |all| && |Filter(all[k..k + MAX_SCAN], p)| <= limit
    ensures ScanEnd(all, p, limit, k, e) == k + MAX_SCAN
    decreases k + MAX_SCAN - e
  {
    FilterWithin(all, p, k, e, k + MAX_SCAN);
    if e < k + MAX_SCAN { ScanMeetsBound(all, p, limit, k, e + 1); }
  }

  lemma {:induction false} TotalSnoc(rows: seq<Worker>, size: Worker -> nat, n: nat)
    requires n < |rows|
    ensures Total(rows[..n + 1], size) == Total(rows[..n], size) + size(rows[n])
  {
    if n > 0 {
      TotalSnoc(rows[1..], size, n - 1);
      assert rows[..n + 1][1..] == rows[1..][..n] && rows[..n][1..] == rows[1..][..n - 1];
    } else {
      assert rows[..1][1..] == [];
    }
  }

  /**
    Two or more matches among 200 workers, a page of which fills the byte budget to less than a cursor: the call
    raises, although the page without its last worker, with the cursor at its end, fits.
   */
  lemma {:induction false} CursorRefusesPage(
    all: seq<Worker>, p: Matches, limit: nat, k: nat, frame: nat, cutSize: Worker -> nat, sentSize: Worker -> nat,
    cursorSize: Worker -> nat, budget: nat)
    requires k + MAX_SCAN <= |all| && 2 <= |Filter(all[k..k + MAX_SCAN], p)| <= limit
    requires var rows := Filter(all[k..k + MAX_SCAN], p);
      && frame + Total(rows, cutSize) <= budget
      && frame + Total(rows, sentSize) + cursorSize(all[k + MAX_SCAN - 1]) > budget
      && cursorSize(rows[|rows| - 2]) <= cutSize(rows[|rows| - 1])
    ensures var cut := Bytes(frame, cutSize, cursorSize, budget);
      var budgets := Budgets(cut, Bytes(frame, sentSize, cursorSize, budget));
      var rows := Selected(all, p, limit, k);
      && Raises(all, p, limit, budgets, k) && |rows| > 1 && Fits(rows, |rows|, cut) && Fits(rows, |rows| - 1, cut)
  {
    ScanMeetsBound(all, p, limit, k, k);
    var rows := Filter(all[k..k + MAX_SCAN], p);
    assert rows[..|rows|] == rows;
    TotalSnoc(rows, cutSize, |rows| - 1);
    assert Fits(rows, |rows|, Bytes(frame, cutSize, cursorSize, budget));
  }

  /** Idle workers, named by more and more letters; the first two register a task. */
  function Idle(n: nat): (all: seq<Worker>)
    ensures |all| == n && forall i :: 0 <= i < n ==> all[i] == IdleWorker(i)
  {
    seq(n, i requires 0 <= i => IdleWorker(i))
  }

  function Letters(n: nat): (text: string)
    ensures |text| == n
  {
    if n == 0 then "" else "w" + Letters(n - 1)
  }

  function IdleWorker(i: nat): Worker {
    Worker(0, Letters(i + 1), if i < 2 then ["task"] else [])
  }

  lemma {:induction false} LettersLess(m: nat, n: nat)
    requires m < n
    ensures TextLess(Letters(m), Letters(n))
  {
    if m > 0 { LettersLess(m - 1, n - 1); }
  }

  lemma {:induction false} IdleIsTable(n: nat)
    ensures IsTable(Idle(n))
  {
    forall j, k | 0 <= j < k < n ensures Precedes(Idle(n)[j], Idle(n)[k]) {
      LettersLess(j + 1, k + 1);
    }
  }

  lemma {:induction false} IdleMatches(n: nat, p: Matches)
    requires n >= MAX_SCAN && forall w :: p(w) <==> w.registered != []
    ensures Filter(Idle(n)[0..MAX_SCAN], p) == Idle(n)[..2]
  {
    var all := Idle(n);
    assert all[0..MAX_SCAN] == all[..2] + all[2..MAX_SCAN];
    FilterConcat(all[..2], all[2..MAX_SCAN], p);
    FilterAll(all[..2], p);
    FilterNone(all[2..MAX_SCAN], p);
  }

  /**
    Such calls: 200 workers or more, two matches of 400 bytes, 380 when sent, a cursor of 200 and a budget of 900.
    The first call raises, so that the walk is not complete, and one worker with a cursor would fit.
   */
  lemma {:induction false} PageRefusedForCursor(n: nat)
    requires n >= MAX_SCAN
    ensures var p := (w: Worker) => w.registered != [];
      var cut := Bytes(0, (w: Worker) => 400, (w: Worker) => 200, 900);
      var budgets := Budgets(cut, Bytes(0, (w: Worker) => 380, (w: Worker) => 200, 900));
      && IsTable(Idle(n)) && Selected(Idle(n), p, 2, 0) == Idle(n)[..2] && Fits(Idle(n)[..2], 1, cut)
      && Raises(Idle(n), p, 2, budgets, 0) && !NeverRaises(WorkerCalls(Idle(n), p, 2, budgets), n)
  {
    var p := (w: Worker) => w.registered != [];
    var cutSize, sentSize, cursorSize := (w: Worker) => 400, (w: Worker) => 380, (w: Worker) => 200;
    IdleIsTable(n);
    IdleMatches(n, p);
    TwoTotal(n, cutSize);
    TwoTotal(n, sentSize);
    CursorRefusesPage(Idle(n), p, 2, 0, 0, cutSize, sentSize, cursorSize, 900);
    ScanMeetsBound(Idle(n), p, 2, 0, 0);
    var budgets := Budgets(Bytes(0, cutSize, cursorSize, 900), Bytes(0, sentSize, cursorSize, 900));
    var calls := WorkerCalls(Idle(n), p, 2, budgets);
    assert Leads(calls, n, 0, 0) && calls.raises(0);
  }

  lemma {:induction false} TwoTotal(n: nat, size: Worker -> nat)
    requires n >= 2
    ensures Total(Idle(n)[..2], size) == size(Idle(n)[0]) + size(Idle(n)[1])
  {
    TotalSnoc(Idle(n), size, 1);
    TotalSnoc(Idle(n), size, 0);
  }
}
