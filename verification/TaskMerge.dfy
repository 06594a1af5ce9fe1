/**
  The task record and its writers: Celery events and the placeholders of their parents (server/events/ingester.py),
  result-backend metadata and fetched results (server/tasks/result_fetcher.py). Each statement reads the stored
  record once and assigns every field from it.
 */
module TaskMerge {
  import opened Options

  type Time = int

  datatype Kind = Sent | Received | Started | Succeeded | Failed | Rejected | Revoked | Retried

  /** EVENT_STATE_MAP */
  function StateOf(kind: Kind): string {
    match kind
    case Sent => "PENDING"
    case Received => "RECEIVED"
    case Started => "STARTED"
    case Succeeded => "SUCCESS"
    case Failed => "FAILURE"
    case Rejected => "REJECTED"
    case Revoked => "REVOKED"
    case Retried => "RETRY"
  }

  predicate IsTerminalEvent(kind: Kind) {
    kind == Succeeded || kind == Failed || kind == Revoked || kind == Rejected
  }

  predicate IsTerminal(state: Option<string>) {
    || state == Some("SUCCESS") || state == Some("FAILURE") || state == Some("REVOKED")
    || state == Some("REJECTED") || state == Some("IGNORED")
  }

  /** An absent field is not in the map, an absent stamp not in the stamps. */
  datatype Task = Task(
    state: Option<string>,
    lastUpdated: Option<Time>,
    observed: Option<bool>,          // last_updated is monitor time, not task evidence
    stamps: map<Kind, Time>,         // sent_at, received_at, ...
    firstObserved: Option<Time>,
    workflow: Option<string>,
    hadError: bool,
    fields: map<string, string>)     // type, args, root_id, worker, ...

  /** The record a missing task reads as. */
  const BLANK := Task(None, None, None, map[], None, None, false, map[])

  datatype Event = Event(
    uuid: string,
    kind: Option<Kind>,              // None for a type outside EVENT_STATE_MAP
    timestamp: Option<Time>,
    hostname: Option<string>,
    fields: map<string, string>)     // by stored name, TASK_FIELD_MAP applied

  /** build_task_upsert returns nothing without an id, a known type or a timestamp; 0 counts as missing. */
  predicate IsTaskEvent(e: Event) {
    e.uuid != "" && e.kind.Some? && e.timestamp.Some? && e.timestamp.value != 0
  }

  function Get(fields: map<string, string>, name: string): Option<string> {
    if name in fields then Some(fields[name]) else None
  }

  predicate IsFilled(value: Option<string>) {
    value.Some? && value.value != ""
  }

  /** _workflow_id_for_event */
  function EventWorkflow(e: Event): string {
    if IsFilled(Get(e.fields, "root_id")) then e.fields["root_id"] else e.uuid
  }

  /** The values an event offers, its worker included. */
  function Offered(e: Event): map<string, string> {
    if IsFilled(e.hostname) then e.fields["worker" := e.hostname.value] else e.fields
  }

  predicate Replaceable(previous: Task, state: string) {
    previous.observed == Some(true) && (!IsTerminal(previous.state) || previous.state == Some(state))
  }

  predicate Applies(previous: Task, e: Event)
    requires IsTaskEvent(e)
  {
    || previous.lastUpdated.None?
    || e.timestamp.value > previous.lastUpdated.value
    || (IsTerminalEvent(e.kind.value) && Replaceable(previous, StateOf(e.kind.value)))
  }

  predicate AppliesFields(previous: Task, e: Event)
    requires IsTaskEvent(e)
  {
    Applies(previous, e) || (previous.lastUpdated.Some? && e.timestamp.value >= previous.lastUpdated.value)
  }

  /** The stored fields over the offered ones: gaps are always filled, filled fields only when `over` says so. */
  function Overlay(stored: map<string, string>, offered: map<string, string>, over: bool): map<string, string> {
    map f | f in stored.Keys + offered.Keys :: if f in offered && (over || f !in stored) then offered[f] else stored[f]
  }

  function Earlier(stamp: Option<Time>, at: Time): Time {
    if stamp.None? || at < stamp.value then at else stamp.value
  }

  function StampOf(stamps: map<Kind, Time>, kind: Kind): Option<Time> {
    if kind in stamps then Some(stamps[kind]) else None
  }

  function MovedWorkflow(previous: Task, e: Event): string
    requires IsTaskEvent(e)
  {
    if IsFilled(Get(e.fields, "root_id")) && ("root_id" !in previous.fields || AppliesFields(previous, e))
    then EventWorkflow(e) else previous.workflow.Or(EventWorkflow(e))
  }

  /** build_task_upsert */
  function MergeEvent(previous: Task, e: Event): Task
    requires IsTaskEvent(e)
  {
    var at, kind := e.timestamp.value, e.kind.value;
    var apply := Applies(previous, e);
    Task(
      if apply then Some(StateOf(kind)) else previous.state,
      if apply then Some(at) else previous.lastUpdated,
      if apply then Some(false) else Some(previous.observed.Or(false)),
      previous.stamps[kind := Earlier(StampOf(previous.stamps, kind), at)],
      Some(Earlier(previous.firstObserved, at)),
      Some(MovedWorkflow(previous, e)),
      previous.hadError || kind == Failed || IsFilled(Get(e.fields, "exception")) ||
        IsFilled(Get(e.fields, "traceback")),
      Overlay(previous.fields, Offered(e), AppliesFields(previous, e)))
  }

  // ---- Result-backend metadata ----

  datatype Meta = Meta(
    status: Option<string>,
    done: Option<Time>,              // date_done
    invocation: map<string, string>, // type, args, kwargs, worker, retries, routing_key, where present
    result: Option<string>,
    traceback: Option<string>)

  function MetaState(m: Meta): string {
    if IsFilled(m.status) then m.status.value else "PENDING"
  }

  function MetaTime(previous: Task, m: Meta, now: Time): Time {
    m.done.Or(previous.lastUpdated.Or(now))
  }

  predicate MetaObserved(previous: Task, m: Meta) {
    m.done.None? && previous.observed.Or(previous.lastUpdated.None?)
  }

  predicate MetaApplies(previous: Task, m: Meta) {
    || previous.state.None?
    || (if m.done.Some? then
          || previous.lastUpdated.None? || m.done.value >= previous.lastUpdated.value
          || Replaceable(previous, MetaState(m))
        else !IsTerminal(previous.state))
  }

  /** The outcome fields that metadata carries: result, traceback, and the result as exception of a failure. */
  function Outcome(m: Meta): map<string, string> {
    (if m.result.Some? then map["result" := m.result.value] else map[]) +
    (if m.traceback.Some? then map["traceback" := m.traceback.value] else map[]) +
    (if MetaState(m) == "FAILURE" && m.result.Some? then map["exception" := m.result.value] else map[])
  }

  function OutcomeStamp(m: Meta): Option<Kind> {
    if m.done.None? then None
    else if MetaState(m) == "SUCCESS" then Some(Succeeded)
    else if MetaState(m) == "FAILURE" then Some(Failed)
    else if MetaState(m) == "RETRY" then Some(Retried)
    else None
  }

  function KeepStamp(stamps: map<Kind, Time>, kind: Kind, at: Time): map<Kind, Time> {
    if kind in stamps then stamps else stamps[kind := at]
  }

  /** Outcome fields are taken when the metadata applies, or fill gaps of the state that is stored. */
  function MergeOutcome(previous: Task, m: Meta): map<string, string> {
    if MetaApplies(previous, m) then Overlay(previous.fields, Outcome(m), true)
    else if previous.state == Some(MetaState(m)) then Overlay(previous.fields, Outcome(m), false)
    else previous.fields
  }

  /** _build_task_meta_upsert */
  function MergeMeta(previous: Task, id: string, m: Meta, now: Time): Task {
    var apply := MetaApplies(previous, m);
    var at := MetaTime(previous, m, now);
    var sent := KeepStamp(previous.stamps, Sent, at);
    Task(
      if apply then Some(MetaState(m)) else previous.state,
      if apply then Some(at) else previous.lastUpdated,
      Some(if apply then MetaObserved(previous, m) else previous.observed.Or(false)),
      if apply && OutcomeStamp(m).Some? then KeepStamp(sent, OutcomeStamp(m).value, at) else sent,
      Some(previous.firstObserved.Or(at)),
      Some(previous.workflow.Or(id)),
      previous.hadError || MetaState(m) == "FAILURE" || IsFilled(m.traceback),
      Overlay(MergeOutcome(previous, m), m.invocation, apply))
  }

  // ---- The two smaller writers ----

  predicate IsResultField(name: string) {
    name == "result" || name == "result_truncated" || name == "traceback" || name == "exception"
  }

  /** ResultFetcher on an existing task: what the backend returned replaces what is stored. */
  function MergeResult(previous: Task, data: map<string, string>): Task {
    previous.(
      fields := Overlay(previous.fields, data, true),
      hadError := previous.hadError || IsFilled(Get(data, "exception")) || IsFilled(Get(data, "traceback")))
  }

  /** build_children_update: a parent that is not known yet appears as a pending task. */
  function MergeParent(previous: Task, now: Time): Task {
    previous.(state := Some(previous.state.Or("PENDING")), lastUpdated := Some(previous.lastUpdated.Or(now)))
  }

  // ---- Assembling the fields, one TASK_FIELD_MAP entry after the other ----

  /** What a field is after its assignment. */
  function Assigned(
    previous: map<string, string>, offered: map<string, string>, over: bool, f: string): Option<string> {
    if f in offered && (over || f !in previous) then Some(offered[f]) else Get(previous, f)
  }

  /** The loop over TASK_FIELD_MAP: each offered value adds one assignment, decided on the record as it was. */
  method AssignFields(previous: map<string, string>, offered: map<string, string>, names: seq<string>, over: bool)
    returns (fields: map<string, string>)
    requires forall f <- offered :: f in names
    ensures fields == Overlay(previous, offered, over)
  {
    fields := previous;
    for k := 0 to |names|
      invariant forall f: string {:trigger Get(fields, f)} ::
        Get(fields, f) == if f in names[..k] then Assigned(previous, offered, over, f) else Get(previous, f)
    {
      var f := names[k];
      ghost var before := fields;
      if f in offered && (f !in previous || over) {
        fields := fields[f := offered[f]];
      }
      assert forall g: string {:trigger Get(fields, g)} ::
        Get(fields, g) == if g == f then Assigned(previous, offered, over, f) else Get(before, g) by {
        assert Get(before, f) == Get(previous, f) || Get(before, f) == Assigned(previous, offered, over, f);
      }
    }
    OverlaySame(previous, offered, over, fields);
  }

  lemma {:induction false} OverlaySame(
    previous: map<string, string>, offered: map<string, string>, over: bool, fields: map<string, string>)
    requires forall f: string {:trigger Get(fields, f)} :: Get(fields, f) == Assigned(previous, offered, over, f)
    ensures fields == Overlay(previous, offered, over)
  {
    var overlay := Overlay(previous, offered, over);
    forall f: string ensures f in fields <==> f in overlay
      ensures f in fields && f in overlay ==> fields[f] == overlay[f]
    {
      assert Get(fields, f) == Assigned(previous, offered, over, f);
    }
  }
}
