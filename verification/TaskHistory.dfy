/** What no interleaving of the writers does to a task record. */
module TaskHistory {
  import opened Options
  import opened TaskMerge

  datatype Write =
    | EventWrite(event: Event)
    | MetaWrite(meta: Meta, now: Time)
    | FetchWrite(data: map<string, string>)
    | ParentWrite(now: Time)

  predicate CanWrite(w: Write) {
    && (w.EventWrite? ==> IsTaskEvent(w.event))
    && (w.FetchWrite? ==> forall name <- w.data :: IsResultField(name))
  }

  /** The record after one write; fetched results update a record that exists and create none. */
  function Written(previous: Task, id: string, w: Write): Task
    requires CanWrite(w)
  {
    match w
    case EventWrite(event) => MergeEvent(previous, event)
    case MetaWrite(meta, now) => MergeMeta(previous, id, meta, now)
    case FetchWrite(data) => if previous == BLANK then previous else MergeResult(previous, data)
    case ParentWrite(now) => MergeParent(previous, now)
  }

  function Run(t: Task, id: string, writes: seq<Write>): Task
    requires forall w <- writes :: CanWrite(w)
    decreases |writes|
  {
    if writes == [] then t else Run(Written(t, id, writes[0]), id, writes[1..])
  }

  /** The time a write claims for the task itself; only events and dated metadata claim one. */
  function WriteTime(w: Write): Option<Time> {
    match w
    case EventWrite(event) => event.timestamp
    case MetaWrite(meta, _) => meta.done
    case _ => None
  }

  /** The state a write offers; fetched results offer none. */
  function WriteState(w: Write): Option<string>
    requires CanWrite(w)
  {
    match w
    case EventWrite(event) => Some(StateOf(event.kind.value))
    case MetaWrite(meta, _) => Some(MetaState(meta))
    case FetchWrite(_) => None
    case ParentWrite(_) => Some("PENDING")
  }

  /** Events and metadata write whole records. */
  predicate IsMerge(w: Write) {
    w.EventWrite? || w.MetaWrite?
  }

  /** The record has a time that is not marked as the monitor's observation. */
  predicate IsEvidence(t: Task) {
    t.lastUpdated.Some? && t.observed != Some(true)
  }

  /** A record that an event or metadata has written. */
  predicate IsComplete(t: Task) {
    && t.state.Some? && t.lastUpdated.Some? && t.observed.Some? && t.workflow.Some? && t.firstObserved.Some?
  }

  /** State and time come together. */
  predicate IsSound(t: Task) {
    t.state.Some? <==> t.lastUpdated.Some?
  }

  /** From an earlier record to a later one: no stored field goes away, evidence stays and its time never falls. */
  ghost predicate Later(t: Task, u: Task) {
    && IsSound(u) && (IsComplete(t) ==> IsComplete(u))
    && (t.state.Some? ==> u.state.Some?) && (t.lastUpdated.Some? ==> u.lastUpdated.Some?)
    && (IsEvidence(t) ==> IsEvidence(u) && u.lastUpdated.value >= t.lastUpdated.value)
    && t.fields.Keys <= u.fields.Keys
    && (t.workflow.Some? ==> u.workflow.Some?)
    && (t.firstObserved.Some? ==> u.firstObserved.Some? && u.firstObserved.value <= t.firstObserved.value)
    && (forall k <- t.stamps :: k in u.stamps && u.stamps[k] <= t.stamps[k])
    && (t.hadError ==> u.hadError)
  }

  lemma {:induction false} WrittenLater(t: Task, id: string, w: Write)
    requires CanWrite(w) && IsSound(t)
    ensures Later(t, Written(t, id, w)) && (IsMerge(w) ==> IsComplete(Written(t, id, w)))
  {
  }

  lemma {:induction false} RunLater(t: Task, id: string, writes: seq<Write>)
    requires IsSound(t) && forall w <- writes :: CanWrite(w)
    ensures Later(t, Run(t, id, writes))
    ensures (exists w <- writes :: IsMerge(w)) ==> IsComplete(Run(t, id, writes))
    decreases |writes|
  {
    if writes != [] {
      WrittenLater(t, id, writes[0]);
      RunLater(Written(t, id, writes[0]), id, writes[1..]);
      assert writes == [writes[0]] + writes[1..];
    }
  }

  lemma {:induction false} RunSplit(t: Task, id: string, writes: seq<Write>, k: nat)
    requires k <= |writes| && forall w <- writes :: CanWrite(w)
    ensures Run(t, id, writes) == Run(Run(t, id, writes[..k]), id, writes[k..])
    decreases |writes|
  {
    if k > 0 {
      RunSplit(Written(t, id, writes[0]), id, writes[1..], k - 1);
      assert writes[..k][1..] == writes[1..][..k - 1] && writes[k..] == writes[1..][k - 1..];
    }
  }

  /** Between any two points of any run. */
  lemma {:induction false} HistoryIsMonotone(id: string, writes: seq<Write>, j: nat, k: nat)
    requires j <= k <= |writes| && forall w <- writes :: CanWrite(w)
    ensures Later(Run(BLANK, id, writes[..j]), Run(BLANK, id, writes[..k]))
    ensures (exists w <- writes[..k] :: IsMerge(w)) ==> IsComplete(Run(BLANK, id, writes[..k]))
  {
    RunSplit(BLANK, id, writes[..k], j);
    assert writes[..k][..j] == writes[..j];
    RunLater(BLANK, id, writes[..j]);
    RunLater(Run(BLANK, id, writes[..j]), id, writes[..k][j..]);
    RunLater(BLANK, id, writes[..k]);
  }

  /** A changed state comes with the writer's own state and time, never alone. */
  lemma {:induction false} StateComesWithTime(t: Task, id: string, w: Write)
    requires CanWrite(w) && Written(t, id, w).state != t.state
    ensures Written(t, id, w).state == WriteState(w)
    ensures WriteTime(w).Some? ==>
      Written(t, id, w).lastUpdated == WriteTime(w) && Written(t, id, w).observed == Some(false)
    ensures WriteTime(w).None? && t.lastUpdated.Some? ==> Written(t, id, w).lastUpdated == t.lastUpdated
  {
  }

  /** A terminal state gives way only to a dated write that is newer, or from the backend as new. */
  lemma {:induction false} TerminalStateHolds(t: Task, id: string, w: Write)
    requires CanWrite(w) && IsTerminal(t.state) && t.lastUpdated.Some?
    requires Written(t, id, w).state != t.state
    ensures WriteTime(w).Some? && WriteTime(w).value >= t.lastUpdated.value
    ensures w.EventWrite? ==> WriteTime(w).value > t.lastUpdated.value
  {
  }

  // ---- Fields: what a write leaves of a filled one ----

  /** The field values that a write offers. */
  function WriteFields(w: Write): map<string, string> {
    match w
    case EventWrite(event) => Offered(event)
    case MetaWrite(meta, _) => Outcome(meta) + meta.invocation
    case FetchWrite(data) => data
    case ParentWrite(_) => map[]
  }

  /** The values on offer replace stored ones, and do not only fill gaps. */
  predicate TakesOver(t: Task, w: Write)
    requires CanWrite(w)
  {
    match w
    case EventWrite(event) => AppliesFields(t, event)
    case MetaWrite(meta, _) => MetaApplies(t, meta)
    case FetchWrite(_) => t != BLANK
    case ParentWrite(_) => false
  }

  /** The write takes a field over with the empty text. */
  predicate Empties(t: Task, w: Write, f: string)
    requires CanWrite(w)
  {
    TakesOver(t, w) && Get(WriteFields(w), f) == Some("")
  }

  /** A stored field changes to the value on offer or not at all. */
  lemma {:induction false} StoredField(t: Task, id: string, w: Write, f: string)
    requires CanWrite(w) && f in t.fields
    ensures Get(Written(t, id, w).fields, f) ==
      if TakesOver(t, w) && f in WriteFields(w) then Some(WriteFields(w)[f]) else Some(t.fields[f])
  {
  }

  /** A filled field is emptied exactly by being taken over with the empty text. */
  lemma {:induction false} FilledUnlessEmptied(t: Task, id: string, w: Write, f: string)
    requires CanWrite(w) && IsFilled(Get(t.fields, f))
    ensures IsFilled(Get(Written(t, id, w).fields, f)) <==> !Empties(t, w, f)
  {
    StoredField(t, id, w, f);
  }

  /** The record after the first k writes. */
  function RunTo(t: Task, id: string, writes: seq<Write>, k: nat): Task
    requires k <= |writes| && forall w <- writes :: CanWrite(w)
  {
    Run(t, id, writes[..k])
  }

  lemma {:induction false} RunOn(t: Task, id: string, writes: seq<Write>, k: nat)
    requires k < |writes| && forall w <- writes :: CanWrite(w)
    ensures RunTo(t, id, writes, k + 1) == Written(RunTo(t, id, writes, k), id, writes[k])
  {
    RunSplit(t, id, writes[..k + 1], k);
    assert writes[..k + 1][..k] == writes[..k] && writes[..k + 1][k..] == [writes[k]];
  }

  /** The first k writes empty the field nowhere. */
  ghost predicate NeverEmpties(t: Task, id: string, writes: seq<Write>, f: string, k: nat)
    requires k <= |writes| && forall w <- writes :: CanWrite(w)
  {
    forall j: nat :: j < k ==> !Empties(RunTo(t, id, writes, j), writes[j], f)
  }

  /** A filled field stays filled through a run exactly when no write on the way takes it over with the empty text. */
  lemma {:induction false} StaysFilledIff(t: Task, id: string, writes: seq<Write>, f: string, n: nat)
    requires IsFilled(Get(t.fields, f)) && n <= |writes| && forall w <- writes :: CanWrite(w)
    ensures NeverEmpties(t, id, writes, f, n) <==>
      forall k: nat :: k <= n ==> IsFilled(Get(RunTo(t, id, writes, k).fields, f))
    decreases n
  {
    if n > 0 {
      StaysFilledIff(t, id, writes, f, n - 1);
      RunOn(t, id, writes, n - 1);
      if IsFilled(Get(RunTo(t, id, writes, n - 1).fields, f)) {
        FilledUnlessEmptied(RunTo(t, id, writes, n - 1), id, writes[n - 1], f);
      }
    }
  }

  /** Such a run: a second event of the same time or later, with an empty result. */
  lemma {:induction false} ResultEmptied(at: Time, later: Time)
    requires 0 < at <= later
    ensures var writes := [
        EventWrite(Event("t", Some(Succeeded), Some(at), None, map["result" := "1"])),
        EventWrite(Event("t", Some(Succeeded), Some(later), None, map["result" := ""]))];
      && (forall w <- writes :: CanWrite(w))
      && Get(RunTo(BLANK, "t", writes, 1).fields, "result") == Some("1")
      && Get(RunTo(BLANK, "t", writes, 2).fields, "result") == Some("")
  {
    var first := EventWrite(Event("t", Some(Succeeded), Some(at), None, map["result" := "1"]));
    var second := EventWrite(Event("t", Some(Succeeded), Some(later), None, map["result" := ""]));
    RunOn(BLANK, "t", [first, second], 0);
    RunOn(BLANK, "t", [first, second], 1);
    StoredField(Written(BLANK, "t", first), "t", second, "result");
  }

  predicate IsLate(w: Write, at: Time) {
    WriteTime(w).Some? ==> if w.EventWrite? then WriteTime(w).value <= at else WriteTime(w).value < at
  }

  /**
    Once a terminal state rests on evidence, late and undated messages change neither state nor time, in any
    number and order.
   */
  lemma {:induction false} LateWritesKeepOutcome(t: Task, id: string, writes: seq<Write>)
    requires IsTerminal(t.state) && IsEvidence(t)
    requires forall w <- writes :: CanWrite(w) && IsLate(w, t.lastUpdated.value)
    ensures Run(t, id, writes).state == t.state && Run(t, id, writes).lastUpdated == t.lastUpdated
    decreases |writes|
  {
    if writes != [] {
      assert IsLate(writes[0], t.lastUpdated.value);
      LateWritesKeepOutcome(Written(t, id, writes[0]), id, writes[1..]);
    }
  }
}
