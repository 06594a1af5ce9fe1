/** Events alone, in any arrival order: what the record converges to, and when the order shows. */
module TaskConvergence {
  import opened Options
  import opened TaskMerge

  ghost predicate AreTaskEvents(es: seq<Event>) {
    forall e <- es :: IsTaskEvent(e)
  }

  /** The record after the events arrived in this order. */
  function Merged(es: seq<Event>): Task
    requires AreTaskEvents(es)
  {
    if es == [] then BLANK else MergeEvent(Merged(es[..|es| - 1]), es[|es| - 1])
  }

  /** Presence of evidence of an error. */
  predicate ShowsError(e: Event) {
    e.kind == Some(Failed) || IsFilled(Get(e.fields, "exception")) || IsFilled(Get(e.fields, "traceback"))
  }

  ghost predicate IsLatest(es: seq<Event>, e: Event)
    requires AreTaskEvents(es)
  {
    e in es && forall f <- es :: f.timestamp.value <= e.timestamp.value
  }

  ghost predicate IsEarliest(es: seq<Event>, e: Event)
    requires AreTaskEvents(es)
  {
    e in es && forall f <- es :: e.timestamp.value <= f.timestamp.value
  }

  ghost predicate IsEarliestOf(es: seq<Event>, e: Event)
    requires AreTaskEvents(es)
  {
    e in es && forall f <- es :: f.kind == e.kind ==> e.timestamp.value <= f.timestamp.value
  }

  // ---- What the record is ----

  lemma {:induction false} Snoc(es: seq<Event>) returns (init: seq<Event>, last: Event)
    requires es != [] && AreTaskEvents(es)
    ensures init == es[..|es| - 1] && last == es[|es| - 1] && |init| < |es|
    ensures AreTaskEvents(init) && IsTaskEvent(last)
    ensures forall e :: e in es <==> e in init || e == last
  {
    init, last := es[..|es| - 1], es[|es| - 1];
    assert es == init + [last];
  }

  /** Events never find the stored time to be monitor time. */
  lemma {:induction false} EventsAreEvidence(es: seq<Event>)
    requires AreTaskEvents(es)
    ensures Merged(es).observed == if es == [] then None else Some(false)
    ensures Merged(es).lastUpdated.Some? <==> es != []
    ensures Merged(es).firstObserved.Some? <==> es != []
  {
    if es != [] { EventsAreEvidence(es[..|es| - 1]); }
  }

  lemma {:induction false} LatestOf(previous: Task, e: Event)
    requires IsTaskEvent(e) && previous.observed != Some(true)
    ensures var t := MergeEvent(previous, e);
      if previous.lastUpdated.None? || e.timestamp.value > previous.lastUpdated.value
      then t.lastUpdated == e.timestamp && t.state == Some(StateOf(e.kind.value))
      else t.lastUpdated == previous.lastUpdated && t.state == previous.state
  {
  }

  lemma {:induction false} LatestStep(es: seq<Event>, init: Task, last: Event)
    requires es != [] && AreTaskEvents(es) && IsTaskEvent(last) && init == Merged(es[..|es| - 1]) &&
      last == es[|es| - 1]
    ensures
      if init.lastUpdated.None? || last.timestamp.value > init.lastUpdated.value
      then Merged(es).lastUpdated == last.timestamp && Merged(es).state == Some(StateOf(last.kind.value))
      else Merged(es).lastUpdated == init.lastUpdated && Merged(es).state == init.state
  {
    EventsAreEvidence(es[..|es| - 1]);
    LatestOf(init, last);
  }

  /** State and time are those of a latest event. */
  lemma {:induction false} MergedLatest(es: seq<Event>) returns (e: Event)
    requires es != [] && AreTaskEvents(es)
    ensures IsLatest(es, e)
    ensures Merged(es).lastUpdated == e.timestamp && Merged(es).state == Some(StateOf(e.kind.value))
  {
    var init, last := Snoc(es);
    LatestStep(es, Merged(init), last);
    EventsAreEvidence(init);
    if init == [] {
      e := last;
    } else {
      e := MergedLatest(init);
      if last.timestamp.value > e.timestamp.value { e := last; }
    }
  }

  lemma {:induction false} MergedEarliest(es: seq<Event>) returns (e: Event)
    requires es != [] && AreTaskEvents(es)
    ensures IsEarliest(es, e) && Merged(es).firstObserved == e.timestamp
  {
    var init, last := Snoc(es);
    EventsAreEvidence(init);
    if init == [] {
      e := last;
    } else {
      e := MergedEarliest(init);
      if last.timestamp.value < e.timestamp.value { e := last; }
    }
  }

  lemma {:induction false} MergedKinds(es: seq<Event>, kind: Kind)
    requires AreTaskEvents(es)
    ensures kind in Merged(es).stamps <==> exists e :: e in es && e.kind == Some(kind)
  {
    if es != [] {
      var init, last := Snoc(es);
      MergedKinds(init, kind);
    }
  }

  lemma {:induction false} MergedStamp(es: seq<Event>, kind: Kind) returns (e: Event)
    requires AreTaskEvents(es) && kind in Merged(es).stamps
    ensures IsEarliestOf(es, e) && e.kind == Some(kind) && Merged(es).stamps[kind] == e.timestamp.value
  {
    var init, last := Snoc(es);
    MergedKinds(init, kind);
    if kind in Merged(init).stamps {
      e := MergedStamp(init, kind);
      if last.kind == Some(kind) && last.timestamp.value < e.timestamp.value { e := last; }
    } else {
      e := last;
    }
  }

  lemma {:induction false} ErrorOf(previous: Task, e: Event)
    requires IsTaskEvent(e)
    ensures MergeEvent(previous, e).hadError <==> previous.hadError || ShowsError(e)
  {
  }

  lemma {:induction false} MergedError(es: seq<Event>)
    requires AreTaskEvents(es)
    ensures Merged(es).hadError <==> exists e :: e in es && ShowsError(e)
  {
    if es != [] {
      var init, last := Snoc(es);
      MergedError(init);
      ErrorOf(Merged(init), last);
      if e :| e in init && ShowsError(e) { assert e in es && ShowsError(e); }
      if ShowsError(last) { assert last in es; }
    }
  }

  // ---- Ancestry ----

  function RootOf(e: Event): Option<string> {
    Get(e.fields, "root_id")
  }

  /** The events are of one task, and those that name a root name the same one. */
  ghost predicate IsConsistent(es: seq<Event>, id: string) {
    && (forall e <- es :: e.uuid == id)
    && (forall e <- es, f <- es :: RootOf(e).Some? && RootOf(f).Some? ==> RootOf(e) == RootOf(f))
  }

  lemma {:induction false} RootKept(previous: Task, e: Event)
    requires IsTaskEvent(e)
    ensures "root_id" in MergeEvent(previous, e).fields <==> "root_id" in previous.fields || RootOf(e).Some?
  {
  }

  lemma {:induction false} MergedRoot(es: seq<Event>)
    requires AreTaskEvents(es)
    ensures "root_id" in Merged(es).fields <==> exists e :: e in es && RootOf(e).Some?
  {
    if es != [] {
      var init, last := Snoc(es);
      MergedRoot(init);
      RootKept(Merged(init), last);
      if e :| e in init && RootOf(e).Some? { assert e in es && RootOf(e).Some?; }
      if RootOf(last).Some? { assert last in es; }
    }
  }

  function NamedWorkflow(e: Event): string {
    if IsFilled(RootOf(e)) then RootOf(e).value else e.uuid
  }

  lemma {:induction false} WorkflowOf(previous: Task, e: Event)
    requires IsTaskEvent(e)
    ensures var w := MergeEvent(previous, e).workflow;
      && (w == Some(NamedWorkflow(e)) || w == previous.workflow)
      && (previous.workflow.None? ==> w == Some(NamedWorkflow(e)))
      && (!IsFilled(RootOf(e)) && previous.workflow.Some? ==> w == previous.workflow)
      && (IsFilled(RootOf(e)) && "root_id" !in previous.fields ==> w == Some(NamedWorkflow(e)))
  {
  }

  /** The workflow is the root that any event names, else the task itself. */
  lemma {:induction false} MergedWorkflow(es: seq<Event>, id: string) returns (e: Event)
    requires es != [] && AreTaskEvents(es) && IsConsistent(es, id)
    ensures e in es && (RootOf(e).Some? || forall f <- es :: RootOf(f).None?)
    ensures Merged(es).workflow == Some(NamedWorkflow(e))
  {
    var init, last := Snoc(es);
    WorkflowOf(Merged(init), last);
    e := last;
    if init != [] {
      MergedRoot(init);
      e := MergedWorkflow(init, id);
      if RootOf(e).None? { e := last; }
    }
  }

  // ---- Metadata ----

  lemma {:induction false} FieldOf(previous: Task, e: Event, f: string)
    requires IsTaskEvent(e) && previous.observed != Some(true)
    ensures var t := MergeEvent(previous, e);
      Get(t.fields, f) ==
        if f in Offered(e) && (f !in previous.fields || previous.lastUpdated.None? ||
          e.timestamp.value >= previous.lastUpdated.value)
        then Some(Offered(e)[f]) else Get(previous.fields, f)
  {
  }

  /** A field that a latest event carries ends with a latest event's value, whenever the others arrive. */
  lemma {:induction false} LatestField(es: seq<Event>, f: string, g: Event) returns (e: Event)
    requires AreTaskEvents(es) && IsLatest(es, g) && f in Offered(g)
    ensures IsLatest(es, e) && f in Offered(e) && Get(Merged(es).fields, f) == Some(Offered(e)[f])
  {
    var init, last := Snoc(es);
    EventsAreEvidence(init);
    FieldOf(Merged(init), last, f);
    if init == [] {
      e := last;
    } else {
      var newest := MergedLatest(init);
      if f in Offered(last) && last.timestamp.value >= newest.timestamp.value {
        e := last;
      } else {
        e := LatestField(init, f, g);
      }
    }
  }

  /** Any field that some event carries is filled. */
  lemma {:induction false} FieldsFill(es: seq<Event>, f: string)
    requires AreTaskEvents(es)
    ensures f in Merged(es).fields <==> exists e :: e in es && f in Offered(e)
  {
    if es != [] {
      var init, last := Snoc(es);
      EventsAreEvidence(init);
      FieldsFill(init, f);
      FieldOf(Merged(init), last, f);
      assert f in Merged(es).fields <==> f in Merged(init).fields || f in Offered(last);
      if e :| e in init && f in Offered(e) { assert e in es && f in Offered(e); }
      if f in Offered(last) { assert last in es; }
    }
  }

  // ---- Convergence ----

  ghost predicate SameEvents(es: seq<Event>, fs: seq<Event>) {
    multiset(es) == multiset(fs)
  }

  lemma {:induction false} SameMembers(es: seq<Event>, fs: seq<Event>)
    requires SameEvents(es, fs)
    ensures forall e :: e in es <==> e in fs
  {
    forall e ensures e in es <==> e in fs {
      assert e in es <==> e in multiset(es);
      assert e in fs <==> e in multiset(fs);
    }
  }

  /** The latest events agree about the state. */
  ghost predicate LatestAgree(es: seq<Event>)
    requires AreTaskEvents(es)
  {
    forall e, f :: IsLatest(es, e) && IsLatest(es, f) ==> StateOf(e.kind.value) == StateOf(f.kind.value)
  }

  lemma {:induction false} StampsConverge(es: seq<Event>, fs: seq<Event>)
    requires AreTaskEvents(es) && AreTaskEvents(fs) && SameEvents(es, fs)
    ensures Merged(es).stamps == Merged(fs).stamps
  {
    SameMembers(es, fs);
    forall kind: Kind
      ensures kind in Merged(es).stamps <==> kind in Merged(fs).stamps
      ensures kind in Merged(es).stamps ==> Merged(es).stamps[kind] == Merged(fs).stamps[kind]
    {
      MergedKinds(es, kind);
      MergedKinds(fs, kind);
      if kind in Merged(es).stamps {
        var e := MergedStamp(es, kind);
        var f := MergedStamp(fs, kind);
      }
    }
  }

  lemma {:induction false} TimesConverge(es: seq<Event>, fs: seq<Event>)
    requires es != [] && fs != [] && AreTaskEvents(es) && AreTaskEvents(fs) && SameEvents(es, fs)
    ensures Merged(es).lastUpdated == Merged(fs).lastUpdated && Merged(es).firstObserved == Merged(fs).firstObserved
  {
    SameMembers(es, fs);
    var e := MergedLatest(es);
    var f := MergedLatest(fs);
    var g := MergedEarliest(es);
    var h := MergedEarliest(fs);
  }

  lemma {:induction false} ErrorConverges(es: seq<Event>, fs: seq<Event>)
    requires AreTaskEvents(es) && AreTaskEvents(fs) && SameEvents(es, fs)
    ensures Merged(es).hadError == Merged(fs).hadError
  {
    SameMembers(es, fs);
    MergedError(es);
    MergedError(fs);
  }

  lemma {:induction false} WorkflowConverges(es: seq<Event>, fs: seq<Event>, id: string)
    requires es != [] && fs != [] && AreTaskEvents(es) && AreTaskEvents(fs) && SameEvents(es, fs) &&
      IsConsistent(es, id)
    ensures Merged(es).workflow == Merged(fs).workflow
  {
    SameMembers(es, fs);
    var e := MergedWorkflow(es, id);
    var f := MergedWorkflow(fs, id);
  }

  /** Two arrival orders give the same times, lifecycle stamps, error mark and, with consistent ancestry, workflow. */
  lemma {:induction false} OrdersConverge(es: seq<Event>, fs: seq<Event>, id: string)
    requires es != [] && AreTaskEvents(es) && AreTaskEvents(fs) && SameEvents(es, fs) && IsConsistent(es, id)
    ensures Merged(es).lastUpdated == Merged(fs).lastUpdated && Merged(es).observed == Merged(fs).observed
    ensures Merged(es).firstObserved == Merged(fs).firstObserved && Merged(es).stamps == Merged(fs).stamps
    ensures Merged(es).hadError == Merged(fs).hadError
    ensures Merged(es).workflow == Merged(fs).workflow
  {
    SameMembers(es, fs);
    assert fs != [] by { assert es[0] in fs; }
    TimesConverge(es, fs);
    StampsConverge(es, fs);
    ErrorConverges(es, fs);
    WorkflowConverges(es, fs, id);
    EventsAreEvidence(es);
    EventsAreEvidence(fs);
  }

  /** The first event with the latest time fixes the state. */
  lemma {:induction false} FirstLatestWins(e: Event, rest: seq<Event>)
    requires IsTaskEvent(e) && AreTaskEvents(rest) && forall f <- rest :: f.timestamp.value <= e.timestamp.value
    ensures AreTaskEvents([e] + rest)
    ensures Merged([e] + rest).state == Some(StateOf(e.kind.value)) && Merged([e] + rest).lastUpdated == e.timestamp
    decreases |rest|
  {
    var es := [e] + rest;
    LatestStep(es, Merged(es[..|es| - 1]), es[|es| - 1]);
    if rest == [] {
      assert es[..0] == [] && es[0] == e;
    } else {
      assert es[..|es| - 1] == [e] + rest[..|rest| - 1];
      FirstLatestWins(e, rest[..|rest| - 1]);
    }
  }

  lemma {:induction false} MoveToFront(es: seq<Event>, e: Event) returns (rest: seq<Event>)
    requires e in es && AreTaskEvents(es)
    ensures SameEvents(es, [e] + rest) && forall f <- rest :: f in es
  {
    var k :| 0 <= k < |es| && es[k] == e;
    rest := es[..k] + es[k + 1..];
    assert es == es[..k] + [e] + es[k + 1..];
  }

  ghost predicate StateConverges(es: seq<Event>)
    requires AreTaskEvents(es)
  {
    forall fs: seq<Event> :: SameEvents(es, fs) && AreTaskEvents(fs) ==> Merged(fs).state == Merged(es).state
  }

  lemma {:induction false} StateShowsOrder(es: seq<Event>, e: Event)
    requires AreTaskEvents(es) && IsLatest(es, e) && StateConverges(es)
    ensures Merged(es).state == Some(StateOf(e.kind.value))
  {
    var rest := MoveToFront(es, e);
    FirstLatestWins(e, rest);
    assert SameEvents(es, [e] + rest);
  }

  /** Every arrival order gives the same state exactly when the events with the latest time agree about it. */
  lemma {:induction false} StateConvergesIff(es: seq<Event>)
    requires es != [] && AreTaskEvents(es)
    ensures StateConverges(es) <==> LatestAgree(es)
  {
    if LatestAgree(es) {
      forall fs: seq<Event> | SameEvents(es, fs) && AreTaskEvents(fs) ensures Merged(fs).state == Merged(es).state {
        AgreedState(es, fs);
      }
    }
    if StateConverges(es) {
      forall e, f | IsLatest(es, e) && IsLatest(es, f) ensures StateOf(e.kind.value) == StateOf(f.kind.value) {
        StateShowsOrder(es, e);
        StateShowsOrder(es, f);
      }
    }
  }

  lemma {:induction false} AgreedState(es: seq<Event>, fs: seq<Event>)
    requires es != [] && AreTaskEvents(es) && AreTaskEvents(fs) && SameEvents(es, fs) && LatestAgree(es)
    ensures Merged(fs).state == Merged(es).state
  {
    SameMembers(es, fs);
    assert fs != [] by { assert es[0] in fs; }
    var e := MergedLatest(es);
    var f := MergedLatest(fs);
    assert IsLatest(es, f);
  }

  // ---- Fields ----

  ghost predicate FieldConverges(es: seq<Event>, f: string)
    requires AreTaskEvents(es)
  {
    forall fs: seq<Event> :: SameEvents(es, fs) && AreTaskEvents(fs) ==>
      Get(Merged(fs).fields, f) == Get(Merged(es).fields, f)
  }

  ghost predicate IsLatestCarrier(es: seq<Event>, f: string, e: Event)
    requires AreTaskEvents(es)
  {
    IsLatest(es, e) && f in Offered(e)
  }

  ghost predicate IsCarrier(es: seq<Event>, f: string, e: Event) {
    e in es && f in Offered(e)
  }

  /** The latest events that carry the field agree on it or, when none does, all that carry it. */
  ghost predicate CarriersAgree(es: seq<Event>, f: string)
    requires AreTaskEvents(es)
  {
    if exists e :: IsLatestCarrier(es, f, e)
    then forall e, g :: IsLatestCarrier(es, f, e) && IsLatestCarrier(es, f, g) ==> Offered(e)[f] == Offered(g)[f]
    else forall e, g :: IsCarrier(es, f, e) && IsCarrier(es, f, g) ==> Offered(e)[f] == Offered(g)[f]
  }

  /** A stored field is the value of an event. */
  lemma {:induction false} FieldIsCarried(es: seq<Event>, f: string) returns (e: Event)
    requires AreTaskEvents(es) && f in Merged(es).fields
    ensures IsCarrier(es, f, e) && Get(Merged(es).fields, f) == Some(Offered(e)[f])
  {
    var init, last := Snoc(es);
    EventsAreEvidence(init);
    FieldOf(Merged(init), last, f);
    if Get(Merged(es).fields, f) == Get(Merged(init).fields, f) {
      e := FieldIsCarried(init, f);
    } else {
      e := last;
    }
  }

  lemma {:induction false} MoveToBack(es: seq<Event>, e: Event) returns (rest: seq<Event>)
    requires e in es && AreTaskEvents(es)
    ensures SameEvents(es, rest + [e]) && AreTaskEvents(rest + [e]) && forall f <- rest :: f in es
  {
    rest := MoveToFront(es, e);
    assert multiset(rest + [e]) == multiset([e] + rest);
  }

  /** A latest event that arrives last leaves its value. */
  lemma {:induction false} LastLatestWins(rest: seq<Event>, e: Event, f: string)
    requires AreTaskEvents(rest) && IsTaskEvent(e) && f in Offered(e)
    requires forall g <- rest :: g.timestamp.value <= e.timestamp.value
    ensures AreTaskEvents(rest + [e])
    ensures Get(Merged(rest + [e]).fields, f) == Some(Offered(e)[f])
  {
    var es := rest + [e];
    assert es[..|es| - 1] == rest;
    EventsAreEvidence(rest);
    if rest != [] { var newest := MergedLatest(rest); }
    FieldOf(Merged(rest), e, f);
  }

  /** Behind a latest event without the field, the first event with it leaves its value. */
  lemma {:induction false} FirstFillStays(latest: Event, e: Event, rest: seq<Event>, f: string)
    requires IsTaskEvent(latest) && IsTaskEvent(e) && AreTaskEvents(rest) && f !in Offered(latest) && f in Offered(e)
    requires e.timestamp.value < latest.timestamp.value
    requires forall g <- rest :: g.timestamp.value <= latest.timestamp.value
    requires forall g <- rest :: f in Offered(g) ==> g.timestamp.value < latest.timestamp.value
    ensures AreTaskEvents([latest] + ([e] + rest))
    ensures Get(Merged([latest] + ([e] + rest)).fields, f) == Some(Offered(e)[f])
    decreases |rest|
  {
    var es := [latest] + ([e] + rest);
    if rest == [] {
      assert es == [latest] + [e] && es[..1] == [latest];
      FirstLatestWins(latest, []);
      assert [latest] + [] == [latest] && [latest][..0] == [];
      EventsAreEvidence([latest]);
      FieldOf(BLANK, latest, f);
      FieldOf(Merged([latest]), e, f);
    } else {
      var init, last := [latest] + ([e] + rest[..|rest| - 1]), rest[|rest| - 1];
      assert es[..|es| - 1] == init && es[|es| - 1] == last;
      FirstFillStays(latest, e, rest[..|rest| - 1], f);
      FirstLatestWins(latest, [e] + rest[..|rest| - 1]);
      EventsAreEvidence(init);
      FieldOf(Merged(init), last, f);
    }
  }

  lemma {:induction false} AgreedField(es: seq<Event>, fs: seq<Event>, f: string)
    requires AreTaskEvents(es) && AreTaskEvents(fs) && SameEvents(es, fs) && CarriersAgree(es, f)
    ensures Get(Merged(fs).fields, f) == Get(Merged(es).fields, f)
  {
    SameMembers(es, fs);
    if g :| IsLatestCarrier(es, f, g) {
      var e := LatestField(es, f, g);
      var h := LatestField(fs, f, g);
      assert IsLatestCarrier(es, f, e) && IsLatestCarrier(es, f, h);
    } else {
      FieldsFill(es, f);
      FieldsFill(fs, f);
      if f in Merged(es).fields {
        var e := FieldIsCarried(es, f);
        var h := FieldIsCarried(fs, f);
        assert IsCarrier(es, f, e) && IsCarrier(es, f, h);
      }
    }
  }

  lemma {:induction false} LatestFieldShows(es: seq<Event>, f: string, e: Event)
    requires AreTaskEvents(es) && FieldConverges(es, f) && IsLatestCarrier(es, f, e)
    ensures Get(Merged(es).fields, f) == Some(Offered(e)[f])
  {
    var rest := MoveToBack(es, e);
    LastLatestWins(rest, e, f);
  }

  lemma {:induction false} MoveTwo(es: seq<Event>, first: Event, second: Event) returns (rest: seq<Event>)
    requires first in es && second in es && first != second && AreTaskEvents(es)
    ensures SameEvents(es, [first] + ([second] + rest)) && forall g <- rest :: g in es
  {
    var others := MoveToFront(es, first);
    SameMembers(es, [first] + others);
    rest := MoveToFront(others, second);
  }

  /** An arrival order in which a latest event without the field comes first and an event with it second. */
  lemma {:induction false} EarlyOrder(es: seq<Event>, f: string, latest: Event, e: Event) returns (fs: seq<Event>)
    requires AreTaskEvents(es) && IsLatest(es, latest) && IsCarrier(es, f, e)
    requires forall g <- es | f in Offered(g) :: g.timestamp.value < latest.timestamp.value
    ensures SameEvents(es, fs) && AreTaskEvents(fs) && Get(Merged(fs).fields, f) == Some(Offered(e)[f])
  {
    var rest := MoveTwo(es, latest, e);
    fs := [latest] + ([e] + rest);
    FirstFillStays(latest, e, rest, f);
  }

  lemma {:induction false} CarrierIsEarly(es: seq<Event>, f: string, latest: Event, g: Event)
    requires AreTaskEvents(es) && IsLatest(es, latest) && IsCarrier(es, f, g) && !IsLatestCarrier(es, f, g)
    ensures g.timestamp.value < latest.timestamp.value
  {
  }

  lemma {:induction false} EarlyFieldShows(es: seq<Event>, f: string, e: Event)
    requires AreTaskEvents(es) && FieldConverges(es, f) && IsCarrier(es, f, e)
    requires forall g :: !IsLatestCarrier(es, f, g)
    ensures Get(Merged(es).fields, f) == Some(Offered(e)[f])
  {
    var latest := MergedLatest(es);
    forall g <- es | f in Offered(g) ensures g.timestamp.value < latest.timestamp.value {
      CarrierIsEarly(es, f, latest, g);
    }
    var fs := EarlyOrder(es, f, latest, e);
  }

  /** Every arrival order gives the same field exactly when the events that decide it agree on it. */
  lemma {:induction false} FieldConvergesIff(es: seq<Event>, f: string)
    requires AreTaskEvents(es)
    ensures FieldConverges(es, f) <==> CarriersAgree(es, f)
  {
    if CarriersAgree(es, f) {
      forall fs: seq<Event> | SameEvents(es, fs) && AreTaskEvents(fs)
        ensures Get(Merged(fs).fields, f) == Get(Merged(es).fields, f)
      {
        AgreedField(es, fs, f);
      }
    }
    if FieldConverges(es, f) {
      if g :| IsLatestCarrier(es, f, g) {
        forall e | IsLatestCarrier(es, f, e) ensures Get(Merged(es).fields, f) == Some(Offered(e)[f]) {
          LatestFieldShows(es, f, e);
        }
      } else {
        forall e | IsCarrier(es, f, e) ensures Get(Merged(es).fields, f) == Some(Offered(e)[f]) {
          EarlyFieldShows(es, f, e);
        }
      }
    }
  }
}
