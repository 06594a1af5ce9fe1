/** Which write decides a task's state: exactly, for each write and for runs of dated ones. */
module TaskDecision {
  import opened Options
  import opened TaskMerge
  import opened TaskHistory

  /** Every event type leaves a state of its own, and the types that end a task leave terminal ones. */
  lemma {:induction false} KindsEndTasks(kind: Kind, other: Kind)
    ensures StateOf(kind) == StateOf(other) <==> kind == other
    ensures IsTerminalEvent(kind) <==> IsTerminal(Some(StateOf(kind)))
    ensures IsTerminalEvent(kind) <==> kind in {Succeeded, Failed, Revoked, Rejected}
  {
  }

  // ---- One write ----

  /** The new state and time are the write's, as task evidence. */
  predicate Decides(u: Task, state: string, at: Option<Time>) {
    u.state == Some(state) && u.lastUpdated == at && u.observed == Some(false)
  }

  /** State and time are as they were. */
  predicate Leaves(t: Task, u: Task) {
    u.state == t.state && u.lastUpdated == t.lastUpdated && u.observed == Some(t.observed.Or(false))
  }

  /**
    An event decides if it is newer than the record; or if it ends the task, the record's time is the monitor's own,
    and the task has not ended otherwise. Then its time may even be earlier.
   */
  lemma {:induction false} EventDecides(t: Task, e: Event)
    requires IsTaskEvent(e)
    ensures var state := StateOf(e.kind.value);
      if t.lastUpdated.None? || e.timestamp.value > t.lastUpdated.value
        || (e.kind.value in {Succeeded, Failed, Revoked, Rejected} && t.observed == Some(true)
            && (!IsTerminal(t.state) || t.state == Some(state)))
      then Decides(MergeEvent(t, e), state, e.timestamp)
      else Leaves(t, MergeEvent(t, e))
  {
  }

  /**
    Dated metadata decides if it is as new as the record, or if the record's time is the monitor's own and the task
    has not ended otherwise.
   */
  lemma {:induction false} DatedMetaDecides(t: Task, id: string, m: Meta, now: Time)
    requires m.done.Some?
    ensures var state := if IsFilled(m.status) then m.status.value else "PENDING";
      if t.state.None? || t.lastUpdated.None? || m.done.value >= t.lastUpdated.value
        || (t.observed == Some(true) && (!IsTerminal(t.state) || t.state == Some(state)))
      then Decides(MergeMeta(t, id, m, now), state, m.done)
      else Leaves(t, MergeMeta(t, id, m, now))
  {
  }

  /** Undated metadata decides exactly for a task that has not ended, and keeps the time, or brings the monitor's. */
  lemma {:induction false} UndatedMetaDecides(t: Task, id: string, m: Meta, now: Time)
    requires m.done.None?
    ensures var u := MergeMeta(t, id, m, now);
      var state := if IsFilled(m.status) then m.status.value else "PENDING";
      if t.state.None? || !IsTerminal(t.state) then
        && u.state == Some(state)
        && u.lastUpdated == Some(if t.lastUpdated.Some? then t.lastUpdated.value else now)
        && u.observed == Some(if t.observed.Some? then t.observed.value else t.lastUpdated.None?)
      else Leaves(t, u)
  {
  }

  /** An undated import never stands in the way of evidence that the task has ended. */
  lemma {:induction false} EvidenceEndsObserved(t: Task, id: string, m: Meta, now: Time, e: Event)
    requires t == BLANK && m.done.None? && !IsTerminal(Some(MetaState(m)))
    requires IsTaskEvent(e) && IsTerminalEvent(e.kind.value)
    ensures Decides(MergeEvent(MergeMeta(t, id, m, now), e), StateOf(e.kind.value), e.timestamp)
  {
    UndatedMetaDecides(t, id, m, now);
    EventDecides(MergeMeta(t, id, m, now), e);
  }

  /** The lifecycle time of an outcome is the metadata's date, unless there is one; only a decision sets it. */
  lemma {:induction false} MetaStampsOutcome(t: Task, id: string, m: Meta, now: Time, kind: Kind)
    requires kind != Sent && m.done.Some?
    ensures var u := MergeMeta(t, id, m, now);
      StampOf(u.stamps, kind) ==
        if kind in t.stamps then Some(t.stamps[kind])
        else if kind in {Succeeded, Failed, Retried} && MetaState(m) == StateOf(kind) && MetaApplies(t, m) then m.done
        else None
  {
    KindsEndTasks(kind, Succeeded);
    KindsEndTasks(kind, Failed);
    KindsEndTasks(kind, Retried);
  }

  /** The outcome fields of metadata: its result, which is also the exception of a failure, and its traceback. */
  lemma {:induction false} OutcomeFields(m: Meta, f: string)
    ensures Get(Outcome(m), f) ==
      if f == "result" then m.result
      else if f == "traceback" then m.traceback
      else if f == "exception" && MetaState(m) == "FAILURE" then m.result
      else None
  {
  }

  /** Metadata fills gaps: invocation fields always, outcome fields if it decides or is of the stored state. */
  lemma {:induction false} MetaFillsGaps(t: Task, id: string, m: Meta, now: Time, f: string)
    requires f !in t.fields && !(f in m.invocation && IsResultField(f))
    ensures Get(MergeMeta(t, id, m, now).fields, f) ==
      if f in m.invocation then Some(m.invocation[f])
      else if MetaApplies(t, m) || t.state == Some(MetaState(m)) then Get(Outcome(m), f)
      else None
  {
    OverlayField(t.fields, Outcome(m), true, f);
    OverlayField(t.fields, Outcome(m), false, f);
    OverlayField(MergeOutcome(t, m), m.invocation, MetaApplies(t, m), f);
  }

  lemma {:induction false} OverlayField(
    stored: map<string, string>, offered: map<string, string>, over: bool, f: string)
    ensures Get(Overlay(stored, offered, over), f) == Assigned(stored, offered, over, f)
  {
  }

  /** An event offers its fields, and its host as the worker. */
  lemma {:induction false} EventOffers(e: Event, f: string)
    ensures Get(Offered(e), f) ==
      if f == "worker" && e.hostname.Some? && e.hostname.value != "" then e.hostname else Get(e.fields, f)
  {
  }

  /** What fetched results say is stored, whatever was there, and other fields stay. */
  lemma {:induction false} FetchStores(t: Task, id: string, data: map<string, string>, f: string)
    requires CanWrite(FetchWrite(data)) && t != BLANK
    ensures var u := Written(t, id, FetchWrite(data));
      && Get(u.fields, f) == (if f in data then Some(data[f]) else Get(t.fields, f))
      && u.state == t.state && u.lastUpdated == t.lastUpdated && u.workflow == t.workflow
  {
  }

  /** The error mark comes from a failure, an exception or a traceback, of whichever writer, and from nothing else. */
  lemma {:induction false} ErrorMarkIff(t: Task, id: string, w: Write)
    requires CanWrite(w) && !t.hadError
    ensures Written(t, id, w).hadError <==>
      match w
      case EventWrite(e) =>
        e.kind == Some(Failed) || Get(e.fields, "exception").Or("") != "" || Get(e.fields, "traceback").Or("") != ""
      case MetaWrite(m, _) => MetaState(m) == "FAILURE" || m.traceback.Or("") != ""
      case FetchWrite(data) =>
        t != BLANK && (Get(data, "exception").Or("") != "" || Get(data, "traceback").Or("") != "")
      case ParentWrite(_) => false
  {
  }

  /** Metadata stands in for the first sight and the sending of a task that is not known yet. */
  lemma {:induction false} MetaFirstSight(t: Task, id: string, m: Meta, now: Time)
    ensures var u := MergeMeta(t, id, m, now);
      var at := if m.done.Some? then m.done.value else if t.lastUpdated.Some? then t.lastUpdated.value else now;
      && u.firstObserved == (if t.firstObserved.Some? then t.firstObserved else Some(at))
      && StampOf(u.stamps, Sent) == (if Sent in t.stamps then Some(t.stamps[Sent]) else Some(at))
      && u.workflow == (if t.workflow.Some? then t.workflow else Some(id))
  {
  }

  /** A placeholder makes an unknown parent pending and changes nothing of a known one. */
  lemma {:induction false} PlaceholderIsPending(t: Task, id: string, now: Time)
    ensures var u := Written(t, id, ParentWrite(now));
      if t.state.Some? && t.lastUpdated.Some? then u == t
      else if t == BLANK then u == BLANK.(state := Some("PENDING"), lastUpdated := Some(now))
      else u.state == Some(t.state.Or("PENDING")) && u.lastUpdated == Some(t.lastUpdated.Or(now))
  {
  }

  // ---- Runs of dated writes ----

  predicate IsDated(w: Write) {
    w.EventWrite? || (w.MetaWrite? && w.meta.done.Some?)
  }

  ghost predicate AreDated(writes: seq<Write>) {
    forall w <- writes :: CanWrite(w) && IsDated(w) && WriteTime(w).Some?
  }

  function TimeAt(writes: seq<Write>, j: nat): Time
    requires j < |writes|
  {
    WriteTime(writes[j]).Or(0)
  }

  /** Of the first n writes the k-th decides: of the latest, the last metadata or, without any, the first event. */
  ghost predicate IsDecider(writes: seq<Write>, n: nat, k: nat) {
    && k < n <= |writes| && (forall j: nat :: j < n ==> TimeAt(writes, j) <= TimeAt(writes, k))
    && forall j: nat :: j < n && TimeAt(writes, j) == TimeAt(writes, k) ==>
         if writes[k].MetaWrite? then writes[j].MetaWrite? ==> j <= k else writes[j].EventWrite? && k <= j
  }

  /** After any run of events and dated metadata, state and time are those of the one write that decides. */
  lemma {:induction false} DatedRunDecides(id: string, writes: seq<Write>, n: nat) returns (k: nat)
    requires AreDated(writes) && 0 < n <= |writes|
    ensures IsDecider(writes, n, k)
    ensures WriteState(writes[k]).Some?
    ensures Decides(RunTo(BLANK, id, writes, n), WriteState(writes[k]).value, WriteTime(writes[k]))
    decreases n
  {
    var w := writes[n - 1];
    RunOn(BLANK, id, writes, n - 1);
    if n == 1 {
      k := 0;
      assert writes[..0] == [];
      StepDecides(BLANK, id, w);
    } else {
      k := DatedRunDecides(id, writes, n - 1);
      StepDecides(RunTo(BLANK, id, writes, n - 1), id, w);
      var last, at := TimeAt(writes, k), TimeAt(writes, n - 1);
      if at > last || (w.MetaWrite? && at == last) { k := n - 1; }
    }
  }

  /** A dated write on a record with evidence, or on none. */
  lemma {:induction false} StepDecides(t: Task, id: string, w: Write)
    requires CanWrite(w) && IsDated(w)
    requires t == BLANK || (t.lastUpdated.Some? && t.state.Some? && t.observed == Some(false))
    ensures WriteState(w).Some? && WriteTime(w).Some?
    ensures if t == BLANK || WriteTime(w).value > t.lastUpdated.value
               || (w.MetaWrite? && WriteTime(w).value == t.lastUpdated.value)
      then Decides(Written(t, id, w), WriteState(w).value, WriteTime(w))
      else Leaves(t, Written(t, id, w))
  {
    match w
    case EventWrite(event) => EventDecides(t, event);
    case MetaWrite(meta, now) => DatedMetaDecides(t, id, meta, now);
  }
}
