/** A flush never hangs, and whatever state a connector is in, flushing a stored record with answered posts delivers all
    of its evidence. */
module FlushProgress {
  import opened Wrappers
  import opened Protocol
  import opened Records
  import opened JournalStore
  import opened JournalCalls
  import opened Connector
  import opened ConnectorBase
  import opened SendContinuations
  import opened EvidenceOrder
  import opened EvidenceRuns
  import CallMeanings
  import EvidenceStreams

  // ---- A running flush can always go on ----

  /** The flush of `id` takes a step; if it posts, the inbox answers. */
  ghost predicate FlushStep(site: Site, s: System, id: string, t: System) {
    exists action, error :: FlushesOwn(action, id) && Answered(action) && Completes(site, s, action, error, t)
  }

  predicate Answered(action: Action) {
    action.FlushPost? ==> action.reached && action.answered
  }

  function NextAction(s: System, id: string): Action
    requires id in s.flushes && s.flushes[id].index <= |s.flushes[id].snapshot.evidence|
  {
    var f := s.flushes[id];
    if f.index == |f.snapshot.evidence| then FlushEnd(id)
    else match f.phase
      case Posting =>
        if f.snapshot.evidence[f.index].deliveredAt.Some? then FlushSkip(id) else FlushPost(id, true, true)
      case Marking => FlushMark(id)
      case Failing => FlushFail(id)
  }

  /** How many steps a flush has left at most. */
  function StepsLeft(f: Flush): nat
    requires f.index <= |f.snapshot.evidence|
  {
    3 * (|f.snapshot.evidence| - f.index) + (match f.phase case Posting => 2 case Marking => 1 case Failing => 0)
  }

  lemma NextEnabled(site: Site, s: System, id: string)
    requires s.up && id in s.flushes && s.flushes[id].index <= |s.flushes[id].snapshot.evidence|
    ensures var action := NextAction(s, id);
            Enabled(site, s, action) && Flushes(action) && FlushesOwn(action, id) && Answered(action)
  {
  }

  lemma NextCall(site: Site, s: System, id: string) returns (node: Node, error: Option<Error>)
    requires s.up && id in s.flushes && s.flushes[id].index <= |s.flushes[id].snapshot.evidence|
    ensures var action := NextAction(s, id);
            match CallOf(site, s, action)
            case None => node == s.node && error.None?
            case Some(call) => Returns(site.cfg, s.node, call, node, error)
    ensures NextAction(s, id).FlushMark? ==>
              var o := DeliveredOutcome(s.node, id, FlushEntry(s, id).evidence.eventId, s.clock);
              node == o.node && error == ErrorOf(o.reply)
    ensures NextAction(s, id).FlushFail? ==>
              var o := FailureOutcome(s.node, id, FlushEntry(s, id).evidence.eventId, "evidence", s.clock);
              node == o.node && error == ErrorOf(o.reply)
    ensures !NextAction(s, id).FlushMark? && !NextAction(s, id).FlushFail? ==> node == s.node && error.None?
  {
    hide DeliveredOutcome, FailureOutcome;
    match NextAction(s, id)
    case FlushMark(_) =>
      var o := DeliveredOutcome(s.node, id, FlushEntry(s, id).evidence.eventId, s.clock);
      node, error := o.node, ErrorOf(o.reply);
    case FlushFail(_) =>
      var o := FailureOutcome(s.node, id, FlushEntry(s, id).evidence.eventId, "evidence", s.clock);
      node, error := o.node, ErrorOf(o.reply);
    case _ => node, error := s.node, None;
  }

  lemma NextCompletes(site: Site, s: System, action: Action, node: Node, error: Option<Error>)
    requires Enabled(site, s, action) && !action.Crash?
    requires match CallOf(site, s, action)
             case None => node == s.node && error.None?
             case Some(call) => Returns(site.cfg, s.node, call, node, error)
    ensures Completes(site, s, action, error, Next(site, s, action, node, error.Some?))
  {
    hide Enabled, CallOf, Returns, Next;
    NodeIs(site, s, action, node, error.Some?);
  }

  lemma RunIndex(site: Site, t: seq<System>, i: nat, id: string)
    requires ValidSite(site) && Run(site, t) && i < |t| && id in t[i].flushes
    ensures t[i].flushes[id].index <= |t[i].flushes[id].snapshot.evidence|
  {
    hide Run, ValidSite;
    RunOrdered(site, t, i);
    OrderedAt(site, t[i], id);
    hide EvidenceInOrder, AllVersions, PostsKnown, PostedAfterDelivered, AllDelivered;
  }

  /** At every moment of every run a flush that is under way has a next step. */
  lemma FlushNeverStuck(site: Site, t: seq<System>, i: nat, id: string)
    requires ValidSite(site) && Run(site, t) && i < |t| && t[i].up && id in t[i].flushes
    ensures exists action, error, u :: Flushes(action) && action.id == id && Completes(site, t[i], action, error, u)
  {
    hide Run, ValidSite;
    RunIndex(site, t, i, id);
    NextEnabled(site, t[i], id);
    var node, error := NextCall(site, t[i], id);
    hide Enabled, CallOf, Returns, Completes, Next, NextAction;
    NextCompletes(site, t[i], NextAction(t[i], id), node, error);
  }

  // ---- What the next step does ----

  lemma HomeLocated(site: Site, s: System, id: string)
    requires ValidSite(site) && Base(site, s) && s.up && HomeRecord(site, s.node.disk, id).Some?
    ensures CallMeanings.Stored(site.cfg, s.node.disk, HomeOf(site.cfg, site.catalog(id)))
    ensures HomeOf(site.cfg, site.catalog(id)).id == id && HomeOf(site.cfg, site.catalog(id)) in s.node.disk.records
    ensures Locate(s.node.disk, id) == Done(HomeOf(site.cfg, site.catalog(id)))
    ensures Numbered(HomeRecord(site, s.node.disk, id).value)
  {
    var home := HomeOf(site.cfg, site.catalog(id));
    assert Consistent(site.cfg, s.node.disk) && Indexed(s.node.disk) && home in s.node.disk.records && home.id == id;
    hide Base, Indexed, Consistent, ValidRecord;
    CallMeanings.StoredLocated(site.cfg, s.node.disk, home);
    CallMeanings.ValidNumbered(s.node.disk.records[home]);
  }

  /** Two versions of a record with the same evidence, of which deliveries were only added. */
  ghost predicate SameEvents(r: Record, q: Record) {
    && |q.evidence| == |r.evidence|
    && forall k | 0 <= k < |r.evidence| ::
         && q.evidence[k].evidence == r.evidence[k].evidence
         && (r.evidence[k].deliveredAt.Some? ==> q.evidence[k].deliveredAt.Some?)
  }

  lemma FlushAfter(site: Site, s: System, id: string, node: Node, threw: bool)
    requires s.up && id in s.flushes && s.flushes[id].index <= |s.flushes[id].snapshot.evidence|
    ensures var action, f := NextAction(s, id), s.flushes[id];
            var u := Next(site, s, action, node, threw);
            && u.up && u.clock == s.clock && u.node == node
            && match action
               case FlushSkip(_) => id in u.flushes && u.flushes[id] == f.(index := f.index + 1)
               case FlushPost(_, _, _) => id in u.flushes && u.flushes[id] == f.(phase := Marking)
               case FlushMark(_) => id in u.flushes && u.flushes[id] ==
                   if threw then f.(phase := Failing) else f.(phase := Posting, index := f.index + 1)
               case _ => id !in u.flushes
  {
    hide ActiveNext, ResumableNext, AnswersNext, InboxNext, StaleResume, RemovedBetween;
  }

  lemma MarkedSame(r: Record, eventId: nat, now: Time, error: string)
    ensures SameEvents(r, MarkDelivered(r, eventId, now)) && SameEvents(r, NoteFailure(r, eventId, error, now))
  {
  }

  /** The record after the journal call of the next step. */
  lemma CallStays(site: Site, s: System, id: string, node: Node, error: Option<Error>)
    requires ValidSite(site) && Base(site, s) && s.up && HomeRecord(site, s.node.disk, id).Some?
    requires id in s.flushes && s.flushes[id].index <= |s.flushes[id].snapshot.evidence|
    requires NextAction(s, id).FlushMark? ==>
               var o := DeliveredOutcome(s.node, id, FlushEntry(s, id).evidence.eventId, s.clock);
               node == o.node && error == ErrorOf(o.reply)
    requires NextAction(s, id).FlushFail? ==>
               var o := FailureOutcome(s.node, id, FlushEntry(s, id).evidence.eventId, "evidence", s.clock);
               node == o.node && error == ErrorOf(o.reply)
    requires !NextAction(s, id).FlushMark? && !NextAction(s, id).FlushFail? ==> node == s.node && error.None?
    ensures error.None? && HomeRecord(site, node.disk, id).Some?
    ensures SameEvents(HomeRecord(site, s.node.disk, id).value, HomeRecord(site, node.disk, id).value)
    ensures NextAction(s, id).FlushMark? ==>
              HomeRecord(site, node.disk, id).value ==
                MarkDelivered(HomeRecord(site, s.node.disk, id).value, FlushEntry(s, id).evidence.eventId, s.clock)
    ensures !NextAction(s, id).FlushMark? && !NextAction(s, id).FlushFail? ==> node == s.node
  {
    HomeLocated(site, s, id);
    var r := HomeRecord(site, s.node.disk, id).value;
    hide ValidSite, Base, Locate, CallMeanings.Stored, Numbered, MarkDelivered, NoteFailure, HasEvent, EventIndex,
         SameEvents;
    SelfSame(r);
    match NextAction(s, id)
    case FlushMark(_) =>
      var eventId := FlushEntry(s, id).evidence.eventId;
      MarkedSame(r, eventId, s.clock, "");
      OutcomeStored(site, s.node, id, eventId, s.clock);
      DeliveredDone(s.node, id, eventId, s.clock);
    case FlushFail(_) =>
      var eventId := FlushEntry(s, id).evidence.eventId;
      MarkedSame(r, eventId, s.clock, "evidence");
      FailureStored(site, s.node, id, eventId, "evidence", s.clock);
    case _ =>
  }

  lemma SelfSame(r: Record)
    ensures SameEvents(r, r)
  {
  }

  lemma DeliveredDone(n: Node, id: string, eventId: nat, now: Time)
    requires Locate(n.disk, id).Done?
    ensures DeliveredOutcome(n, id, eventId, now).reply.Done?
  {
    hide Locate;
  }

  lemma FailureStored(site: Site, n: Node, id: string, eventId: nat, error: string, now: Time)
    requires var home := HomeOf(site.cfg, site.catalog(id)); Locate(n.disk, id) == Done(home) && home in n.disk.records
    ensures FailureOutcome(n, id, eventId, error, now).reply.Done?
    ensures HomeRecord(site, FailureOutcome(n, id, eventId, error, now).node.disk, id) ==
              Some(NoteFailure(n.disk.records[HomeOf(site.cfg, site.catalog(id))], eventId, error, now))
  {
    hide Locate;
  }

  /** What the next step does: to the flush, and only by marking and failing to the record. */
  ghost predicate StepsTo(site: Site, s: System, id: string, u: System)
    requires id in s.flushes && s.flushes[id].index <= |s.flushes[id].snapshot.evidence|
  {
    var f := s.flushes[id];
    && u.up && u.clock == s.clock
    && HomeRecord(site, s.node.disk, id).Some? && HomeRecord(site, u.node.disk, id).Some?
    && SameEvents(HomeRecord(site, s.node.disk, id).value, HomeRecord(site, u.node.disk, id).value)
    && match NextAction(s, id)
       case FlushSkip(_) => u.node == s.node && id in u.flushes && u.flushes[id] == f.(index := f.index + 1)
       case FlushPost(_, _, _) => u.node == s.node && id in u.flushes && u.flushes[id] == f.(phase := Marking)
       case FlushMark(_) =>
         && id in u.flushes && u.flushes[id] == f.(phase := Posting, index := f.index + 1)
         && HomeRecord(site, u.node.disk, id).value ==
              MarkDelivered(HomeRecord(site, s.node.disk, id).value, FlushEntry(s, id).evidence.eventId, s.clock)
       case FlushFail(_) => id !in u.flushes
       case _ => u.node == s.node && id !in u.flushes
  }

  lemma StepsToFrom(site: Site, s: System, id: string, node: Node, u: System)
    requires id in s.flushes && s.flushes[id].index <= |s.flushes[id].snapshot.evidence|
    requires u.up && u.clock == s.clock && u.node == node
    requires HomeRecord(site, s.node.disk, id).Some? && HomeRecord(site, node.disk, id).Some?
    requires SameEvents(HomeRecord(site, s.node.disk, id).value, HomeRecord(site, node.disk, id).value)
    requires var f := s.flushes[id];
             match NextAction(s, id)
             case FlushSkip(_) => id in u.flushes && u.flushes[id] == f.(index := f.index + 1)
             case FlushPost(_, _, _) => id in u.flushes && u.flushes[id] == f.(phase := Marking)
             case FlushMark(_) => id in u.flushes && u.flushes[id] == f.(phase := Posting, index := f.index + 1)
             case _ => id !in u.flushes
    requires NextAction(s, id).FlushMark? ==>
               HomeRecord(site, node.disk, id).value ==
                 MarkDelivered(HomeRecord(site, s.node.disk, id).value, FlushEntry(s, id).evidence.eventId, s.clock)
    requires !NextAction(s, id).FlushMark? && !NextAction(s, id).FlushFail? ==> node == s.node
    ensures StepsTo(site, s, id, u)
  {
    hide HomeRecord, SameEvents, MarkDelivered, NextAction;
  }

  lemma NextStep(site: Site, s: System, id: string) returns (u: System)
    requires ValidSite(site) && Base(site, s) && s.up && HomeRecord(site, s.node.disk, id).Some?
    requires id in s.flushes && s.flushes[id].index <= |s.flushes[id].snapshot.evidence|
    ensures FlushStep(site, s, id, u) && StepsTo(site, s, id, u)
  {
    hide *;
    var node, error := NextCall(site, s, id);
    CallStays(site, s, id, node, error);
    NextEnabled(site, s, id);
    FlushAfter(site, s, id, node, false);
    var action := NextAction(s, id);
    u := Next(site, s, action, node, false);
    NextCompletes(site, s, action, node, error);
    ItIsAStep(site, s, id, action, error, u);
    StepsToFrom(site, s, id, node, u);
  }

  lemma ItIsAStep(site: Site, s: System, id: string, action: Action, error: Option<Error>, u: System)
    requires FlushesOwn(action, id) && Answered(action) && Completes(site, s, action, error, u)
    ensures FlushStep(site, s, id, u)
  {
    hide FlushesOwn, Answered, Completes;
  }

  lemma StepShrinks(site: Site, s: System, id: string, u: System)
    requires id in s.flushes && s.flushes[id].index <= |s.flushes[id].snapshot.evidence| && StepsTo(site, s, id, u)
    ensures id in u.flushes ==>
              && u.flushes[id].snapshot == s.flushes[id].snapshot
              && u.flushes[id].index <= |u.flushes[id].snapshot.evidence|
              && StepsLeft(u.flushes[id]) < StepsLeft(s.flushes[id])
  {
    hide SameEvents, HomeRecord, MarkDelivered;
  }

  // ---- A pass from the stored record delivers all of it ----

  /** The flush started from the stored record: what it passed is delivered, and the rest is as it was read. */
  ghost predicate Passing(site: Site, s: System, id: string) {
    && s.up && id in s.flushes && HomeRecord(site, s.node.disk, id).Some?
    && var f, r := s.flushes[id], HomeRecord(site, s.node.disk, id).value;
       && f.index <= |f.snapshot.evidence| == |r.evidence| && !f.phase.Failing?
       && (forall k | 0 <= k < f.index :: r.evidence[k].deliveredAt.Some?)
       && (forall k | 0 <= k < |r.evidence| :: r.evidence[k].evidence == f.snapshot.evidence[k].evidence)
       && (forall k | f.index <= k < |r.evidence| && f.snapshot.evidence[k].deliveredAt.Some? ::
             r.evidence[k].deliveredAt.Some?)
  }

  lemma MarksAt(r: Record, k: nat, now: Time)
    requires Numbered(r) && k < |r.evidence|
    ensures MarkDelivered(r, r.evidence[k].evidence.eventId, now).evidence[k].deliveredAt.Some?
  {
    CallMeanings.EntryAt(r, r.evidence[k].evidence.eventId, k);
  }

  lemma PassingStep(site: Site, s: System, id: string, u: System)
    requires Passing(site, s, id) && StepsTo(site, s, id, u) && Numbered(HomeRecord(site, s.node.disk, id).value)
    ensures if id in u.flushes then Passing(site, u, id) else AllDelivered(HomeRecord(site, u.node.disk, id).value)
  {
    hide HomeRecord, MarkDelivered, Numbered;
    var f, r := s.flushes[id], HomeRecord(site, s.node.disk, id).value;
    if NextAction(s, id).FlushMark? { MarksAt(r, f.index, s.clock); }
  }

  // ---- From every state ----

  /** A run that goes on from `t` by steps of this flush alone. */
  ghost predicate FlushRun(site: Site, t: seq<System>, r: seq<System>, id: string) {
    && |t| > 0 && Run(site, r) && t <= r
    && forall i | |t| - 1 <= i < |r| - 1 :: FlushStep(site, r[i], id, r[i + 1])
  }

  /** The stored record holds this evidence, all of it is delivered, and the flush is over. */
  ghost predicate Drained(site: Site, s: System, id: string, events: seq<Evidence>) {
    && HomeRecord(site, s.node.disk, id).Some? && id !in s.flushes
    && Events(HomeRecord(site, s.node.disk, id).value) == events
    && AllDelivered(HomeRecord(site, s.node.disk, id).value)
  }

  ghost predicate CanDrain(site: Site, t: seq<System>, id: string, events: seq<Evidence>) {
    exists r :: FlushRun(site, t, r, id) && Drained(site, Last(r), id, events)
  }

  lemma StepIsStep(site: Site, s: System, id: string, u: System)
    requires FlushStep(site, s, id, u)
    ensures Step(site, s, u)
  {
    hide Completes, FlushesOwn, Answered;
  }

  lemma DrainLater(site: Site, t: seq<System>, u: System, id: string, events: seq<Evidence>)
    requires |t| > 0 && FlushStep(site, Last(t), id, u) && CanDrain(site, t + [u], id, events)
    ensures CanDrain(site, t, id, events)
  {
    hide FlushStep, Run, Drained;
    var r :| FlushRun(site, t + [u], r, id) && Drained(site, Last(r), id, events);
    assert t <= r by { assert r[..|t|] == (t + [u])[..|t|]; }
    forall i | |t| - 1 <= i < |r| - 1 ensures FlushStep(site, r[i], id, r[i + 1]) {
      if i == |t| - 1 { assert r[i] == (t + [u])[i] && r[i + 1] == (t + [u])[i + 1]; }
    }
    assert FlushRun(site, t, r, id);
  }

  lemma SameEventsEvents(r: Record, q: Record)
    requires SameEvents(r, q)
    ensures Events(q) == Events(r)
  {
  }

  function EventsOf(site: Site, s: System, id: string): seq<Evidence>
    requires HomeRecord(site, s.node.disk, id).Some?
  {
    Events(HomeRecord(site, s.node.disk, id).value)
  }

  lemma OneStep(site: Site, t: seq<System>, id: string) returns (u: System)
    requires |t| > 0 && ValidSite(site) && Run(site, t) && Last(t).up && id in Last(t).flushes
    requires HomeRecord(site, Last(t).node.disk, id).Some?
    ensures Last(t).flushes[id].index <= |Last(t).flushes[id].snapshot.evidence|
    ensures FlushStep(site, Last(t), id, u) && StepsTo(site, Last(t), id, u) && Run(site, t + [u]) && u.up
    ensures HomeRecord(site, u.node.disk, id).Some? && EventsOf(site, u, id) == EventsOf(site, Last(t), id)
    ensures id in u.flushes ==>
              && u.flushes[id].index <= |u.flushes[id].snapshot.evidence|
              && StepsLeft(u.flushes[id]) < StepsLeft(Last(t).flushes[id])
  {
    hide Run, ValidSite, Base, FlushStep, Step, SameEvents, MarkDelivered, Numbered, HomeRecord, Events, NextAction;
    RunBase(site, t, |t| - 1);
    RunIndex(site, t, |t| - 1, id);
    u := NextStep(site, Last(t), id);
    StepIsStep(site, Last(t), id, u);
    Prolong(site, t, u);
    StepShrinks(site, Last(t), id, u);
    SameEventsEvents(HomeRecord(site, Last(t).node.disk, id).value, HomeRecord(site, u.node.disk, id).value);
  }

  lemma {:induction false} FromPassing(site: Site, t: seq<System>, id: string)
    requires |t| > 0 && ValidSite(site) && Run(site, t) && Passing(site, Last(t), id)
    ensures CanDrain(site, t, id, EventsOf(site, Last(t), id))
    decreases StepsLeft(Last(t).flushes[id])
  {
    var u := OneStep(site, t, id);
    assert Numbered(HomeRecord(site, Last(t).node.disk, id).value) by {
      hide Run, ValidSite, Base, StepsTo, FlushStep;
      RunBase(site, t, |t| - 1);
      HomeLocated(site, Last(t), id);
    }
    PassingStep(site, Last(t), id, u);
    hide Run, ValidSite, FlushStep, StepsTo, CanDrain, HomeRecord, Events, AllDelivered, Numbered, StepsLeft;
    if id in u.flushes {
      FromPassing(site, t + [u], id);
    } else {
      AtEnd(site, t + [u], id);
    }
    DrainLater(site, t, u, id, EventsOf(site, Last(t), id));
  }

  lemma AtEnd(site: Site, t: seq<System>, id: string)
    requires |t| > 0 && Run(site, t) && HomeRecord(site, Last(t).node.disk, id).Some? && id !in Last(t).flushes
    requires AllDelivered(HomeRecord(site, Last(t).node.disk, id).value)
    ensures CanDrain(site, t, id, EventsOf(site, Last(t), id))
  {
    hide Run, AllDelivered, FlushStep;
    assert FlushRun(site, t, t, id);
  }

  lemma ReadStep(site: Site, s: System, id: string) returns (u: System)
    requires ValidSite(site) && Base(site, s) && s.up && HomeRecord(site, s.node.disk, id).Some? && id !in s.flushes
    ensures FlushStep(site, s, id, u) && Passing(site, u, id) && u.node == s.node
  {
    hide *;
    HomeLocated(site, s, id);
    u := Next(site, s, FlushRead(id), s.node, false);
    ReadNext(site, s, id);
    ReadEnabled(site, s, id);
    NextCompletes(site, s, FlushRead(id), s.node, None);
    ItIsAStep(site, s, id, FlushRead(id), None, u);
  }

  lemma ReadEnabled(site: Site, s: System, id: string)
    requires s.up && id !in s.flushes && Locate(s.node.disk, id).Done?
    ensures Enabled(site, s, FlushRead(id)) && CallOf(site, s, FlushRead(id)).None?
    ensures FlushesOwn(FlushRead(id), id) && Answered(FlushRead(id))
  {
    hide Locate;
  }

  lemma ReadNext(site: Site, s: System, id: string)
    requires s.up && HomeRecord(site, s.node.disk, id).Some? && id !in s.flushes
    requires Locate(s.node.disk, id) == Done(HomeOf(site.cfg, site.catalog(id)))
    ensures var u := Next(site, s, FlushRead(id), s.node, false); Passing(site, u, id) && u.node == s.node
  {
    hide ActiveNext, ResumableNext, AnswersNext, InboxNext, StaleResume, RemovedBetween, Locate;
  }

  lemma FromIdle(site: Site, t: seq<System>, id: string)
    requires |t| > 0 && ValidSite(site) && Run(site, t) && Last(t).up && id !in Last(t).flushes
    requires HomeRecord(site, Last(t).node.disk, id).Some?
    ensures CanDrain(site, t, id, EventsOf(site, Last(t), id))
  {
    hide Run, ValidSite, Base, FlushStep, Step, Passing, CanDrain, HomeRecord, Events;
    RunBase(site, t, |t| - 1);
    var u := ReadStep(site, Last(t), id);
    StepIsStep(site, Last(t), id, u);
    Prolong(site, t, u);
    FromPassing(site, t + [u], id);
    DrainLater(site, t, u, id, EventsOf(site, Last(t), id));
  }

  lemma {:induction false} FromFlush(site: Site, t: seq<System>, id: string)
    requires |t| > 0 && ValidSite(site) && Run(site, t) && Last(t).up && id in Last(t).flushes
    requires HomeRecord(site, Last(t).node.disk, id).Some?
    requires Last(t).flushes[id].index <= |Last(t).flushes[id].snapshot.evidence|
    ensures CanDrain(site, t, id, EventsOf(site, Last(t), id))
    decreases StepsLeft(Last(t).flushes[id])
  {
    var u := OneStep(site, t, id);
    hide Run, ValidSite, FlushStep, StepsTo, CanDrain, HomeRecord, Events, StepsLeft;
    if id in u.flushes { FromFlush(site, t + [u], id); } else { FromIdle(site, t + [u], id); }
    DrainLater(site, t, u, id, EventsOf(site, Last(t), id));
  }

  /** From every running state that can be reached, whatever the flush of the command was doing, steps of its flush with
      answered posts lead to a state in which all evidence of its stored record, unchanged, is delivered and part of the
      inbox. */
  lemma FlushDeliversAll(site: Site, t: seq<System>, id: string)
    requires |t| > 0 && ValidSite(site) && Run(site, t) && Last(t).up
    requires HomeRecord(site, Last(t).node.disk, id).Some?
    ensures exists r :: FlushRun(site, t, r, id) && Drained(site, Last(r), id, EventsOf(site, Last(t), id))
                        && forall e | e in EventsOf(site, Last(t), id) :: e in Last(r).inbox
  {
    hide Run, ValidSite, FlushStep, Drained, HomeRecord, Events;
    if id in Last(t).flushes {
      RunIndex(site, t, |t| - 1, id);
      FromFlush(site, t, id);
    } else {
      FromIdle(site, t, id);
    }
    var r :| FlushRun(site, t, r, id) && Drained(site, Last(r), id, EventsOf(site, Last(t), id));
    DrainedPosted(site, t, r, id, EventsOf(site, Last(t), id));
  }

  lemma DrainedPosted(site: Site, t: seq<System>, r: seq<System>, id: string, events: seq<Evidence>)
    requires ValidSite(site) && FlushRun(site, t, r, id) && Drained(site, Last(r), id, events)
    ensures forall e | e in events :: e in Last(r).inbox
  {
    hide Run, ValidSite, FlushStep, Ordered;
    RunOrdered(site, r, |r| - 1);
    OrderedAt(site, Last(r), id);
    hide EvidenceInOrder;
    var v := ViewOf(site, Last(r), id);
    EvidenceStreams.StoredPosted(v, id);
    var q := v.stored.value;
    forall e | e in events ensures e in Last(r).inbox {
      var k :| 0 <= k < |Events(q)| && Events(q)[k] == e;
      assert q.evidence[k].evidence == e;
    }
  }

  /** A flush is not started again while it is under way: until it ends it walks the snapshot it read, forwards. */
  lemma OneFlushAtATime(site: Site, s: System, action: Action, error: Option<Error>, t: System, id: string)
    requires Completes(site, s, action, error, t) && id in s.flushes && id in t.flushes
    ensures t.flushes[id].snapshot == s.flushes[id].snapshot
    ensures s.flushes[id].index <= t.flushes[id].index <= s.flushes[id].index + 1
  {
    hide Returns, CallOf, ActiveNext, ResumableNext, AnswersNext, InboxNext, StaleResume, RemovedBetween, Locate;
  }

  // ---- A post without an answer ----

  /** After a post that was not answered the flush neither marks the entry nor goes on to later ones: its only next step
      notes the failure. */
  lemma UnansweredPost(site: Site, s: System, id: string, reached: bool, answered: bool, error: Option<Error>,
                       t: System)
    requires Completes(site, s, FlushPost(id, reached, answered), error, t) && !(reached && answered)
    ensures t.node == s.node && t.inbox == if reached then s.inbox + [FlushEntry(s, id).evidence] else s.inbox
    ensures forall action, other, u | Completes(site, t, action, other, u) && FlushesOwn(action, id) ::
              action == FlushFail(id)
  {
    FailingAfter(site, s, id, reached, answered, error, t);
    forall action, other, u | Completes(site, t, action, other, u) && FlushesOwn(action, id)
      ensures action == FlushFail(id)
    {
      OnlyFails(site, t, id, action, other, u);
    }
  }

  lemma FailingAfter(site: Site, s: System, id: string, reached: bool, answered: bool, error: Option<Error>, t: System)
    requires Completes(site, s, FlushPost(id, reached, answered), error, t) && !(reached && answered)
    ensures t.node == s.node && t.inbox == if reached then s.inbox + [FlushEntry(s, id).evidence] else s.inbox
    ensures id in t.flushes && t.flushes[id].phase.Failing? && t.flushes[id].index < |t.flushes[id].snapshot.evidence|
  {
    hide ActiveNext, ResumableNext, AnswersNext, StaleResume, RemovedBetween;
  }

  lemma OnlyFails(site: Site, s: System, id: string, action: Action, error: Option<Error>, u: System)
    requires id in s.flushes && s.flushes[id].phase.Failing? && s.flushes[id].index < |s.flushes[id].snapshot.evidence|
    requires Completes(site, s, action, error, u) && FlushesOwn(action, id)
    ensures action == FlushFail(id)
  {
    hide Next, CallOf, Returns;
  }

  /** One more attempt of the entry under this event id, if it was still undelivered. */
  ghost predicate Noted(r: Record, q: Record, eventId: nat, now: Time) {
    forall k | 0 <= k < |r.evidence| && r.evidence[k].evidence.eventId == eventId ::
      q == if r.evidence[k].deliveredAt.Some? then r
           else CallMeanings.WithEntry(r, k, CallMeanings.Attempted(r.evidence[k], "evidence", now), now)
  }

  lemma FailureNoted(cfg: Config, n: Node, slot: Slot, eventId: nat, now: Time)
    requires CallMeanings.Stored(cfg, n.disk, slot)
    ensures slot in n.disk.records
    ensures var x := FailureOutcome(n, slot.id, eventId, "evidence", now).node.disk;
            slot in x.records && Noted(n.disk.records[slot], x.records[slot], eventId, now)
  {
    hide *;
    CallMeanings.StoredLocated(cfg, n.disk, slot);
    CallMeanings.FailureMeans(cfg, n, slot, eventId, "evidence", now);
    NotedFrom(n.disk, slot, eventId, now, FailureOutcome(n, slot.id, eventId, "evidence", now).node.disk);
  }

  lemma NotedFrom(d: Disk, slot: Slot, eventId: nat, now: Time, x: Disk)
    requires slot in d.records
    requires var r := d.records[slot];
             && (forall k | 0 <= k < |r.evidence| && r.evidence[k].evidence.eventId == eventId ::
                   x == if r.evidence[k].deliveredAt.Some? then d else
                     SetRecord(d, slot,
                               CallMeanings.WithEntry(r, k, CallMeanings.Attempted(r.evidence[k], "evidence", now),
                                                      now)))
             && ((forall k | 0 <= k < |r.evidence| :: r.evidence[k].evidence.eventId != eventId) ==> x == d)
    ensures slot in x.records && Noted(d.records[slot], x.records[slot], eventId, now)
  {
    hide CallMeanings.WithEntry, CallMeanings.Attempted;
  }

  /** Noting the failure counts one more attempt of the entry, if it is still stored undelivered, and ends the flush. */
  lemma FailureEndsFlush(site: Site, s: System, id: string, error: Option<Error>, t: System)
    requires ValidSite(site) && Base(site, s) && s.up && HomeRecord(site, s.node.disk, id).Some?
    requires Completes(site, s, FlushFail(id), error, t)
    ensures FlushIn(s, id, Failing) && id !in t.flushes && t.inbox == s.inbox && HomeRecord(site, t.node.disk, id).Some?
    ensures Noted(HomeRecord(site, s.node.disk, id).value, HomeRecord(site, t.node.disk, id).value,
                  FlushEntry(s, id).evidence.eventId, s.clock)
  {
    FailEnds(site, s, id, error, t);
    HomeLocated(site, s, id);
    FailureNoted(site.cfg, s.node, HomeOf(site.cfg, site.catalog(id)), FlushEntry(s, id).evidence.eventId, s.clock);
    hide ValidSite, Base, CallMeanings.Stored, Completes, Noted, FailureOutcome, FlushEntry, Numbered, Locate, FlushIn;
  }

  lemma FailEnds(site: Site, s: System, id: string, error: Option<Error>, t: System)
    requires Completes(site, s, FlushFail(id), error, t)
    ensures FlushIn(s, id, Failing) && id !in t.flushes && t.inbox == s.inbox
    ensures t.node == FailureOutcome(s.node, id, FlushEntry(s, id).evidence.eventId, "evidence", s.clock).node
  {
    hide ActiveNext, ResumableNext, AnswersNext, StaleResume, RemovedBetween, FailureOutcome;
  }
}
