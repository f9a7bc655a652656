/** Evidence reaches the inbox in order, over every run of the connector. */
module EvidenceRuns {
  import opened Wrappers
  import opened Protocol
  import opened Records
  import opened JournalStore
  import opened JournalCalls
  import opened FreshIds
  import opened Connector
  import opened ConnectorBase
  import opened EvidenceOrder

  function HomeRecord(site: Site, d: Disk, id: string): Option<Record> {
    var home := HomeOf(site.cfg, site.catalog(id));
    if home in d.records then Some(d.records[home]) else None
  }

  function RemovedOf(removed: set<Record>, id: string): set<Record> {
    set r | r in removed && r.command.commandId == id
  }

  function ViewOf(site: Site, s: System, id: string): View {
    View(HomeRecord(site, s.node.disk, id), RemovedOf(s.removed, id),
         if id in s.flushes then Some(s.flushes[id]) else None, s.inbox, s.node.next)
  }

  ghost predicate EvidenceInOrder(site: Site, s: System) {
    forall id :: Ordered(ViewOf(site, s, id), id)
  }

  // ---- The journal call of a step ----

  /** A journal call delivers only the entry that the command's flush is marking. */
  predicate MarksFlushed(s: System, call: Call) {
    call.Delivered? ==>
      && call.id in s.flushes && s.flushes[call.id].phase.Marking?
      && s.flushes[call.id].index < |s.flushes[call.id].snapshot.evidence|
      && s.flushes[call.id].snapshot.evidence[s.flushes[call.id].index].evidence.eventId == call.eventId
  }

  /** The journal and the compacted records after a call; the process has not gone on yet. */
  function Moved(s: System, node: Node): System {
    s.(node := node, removed := s.removed + RemovedBetween(s.node.disk, node.disk))
  }

  lemma RemovedNext(site: Site, s: System, node: Node, id: string)
    requires ValidSite(site) && Base(site, s)
    ensures var home := HomeOf(site.cfg, site.catalog(id));
            RemovedOf(Moved(s, node).removed, id) ==
              RemovedOf(s.removed, id) + (if home in s.node.disk.records && home !in node.disk.records
                                          then {s.node.disk.records[home]} else {})
  {
    hide ValidRecord, DrawnBefore, Timely, HasMessage, OwnCommands;
    var d := s.node.disk;
    var home := HomeOf(site.cfg, site.catalog(id));
    forall r | r in RemovedBetween(d, node.disk) && r.command.commandId == id
      ensures home in d.records && home !in node.disk.records && r == d.records[home]
    {
      var slot :| slot in d.records && slot !in node.disk.records && d.records[slot] == r;
      assert slot == HomeOf(site.cfg, r.command);
    }
  }

  lemma StoredLater(site: Site, s: System, call: Call, x: Disk, next: nat, id: string)
    requires ValidSite(site) && Base(site, s) && Kept(site.cfg, s.node, call, x, next)
             && FreshEvents(s.node.disk, x, s.node.next)
    requires HomeRecord(site, s.node.disk, id).Some? && HomeRecord(site, x, id).Some?
    requires MarksFlushed(s, call)
    ensures var r, t := HomeRecord(site, s.node.disk, id).value, HomeRecord(site, x, id).value;
            Later(r, t, id, s.node.next, next) && MarksOnly(ViewOf(site, s, id), r, t)
  {
    StoredMove(site, s, call, x, next, id);
    var r, t := HomeRecord(site, s.node.disk, id).value, HomeRecord(site, x, id).value;
    hide *;
    LaterFrom(r, t, call, id, s.node.next, next);
    MarksFrom(ViewOf(site, s, id), s, r, t, call, id) by { ViewFlush(site, s, id); }
  }

  lemma StoredMove(site: Site, s: System, call: Call, x: Disk, next: nat, id: string)
    requires ValidSite(site) && Base(site, s) && Kept(site.cfg, s.node, call, x, next)
             && FreshEvents(s.node.disk, x, s.node.next)
    requires HomeRecord(site, s.node.disk, id).Some? && HomeRecord(site, x, id).Some?
    ensures var r, t := HomeRecord(site, s.node.disk, id).value, HomeRecord(site, x, id).value;
            Evolves(r, t, call) && NewEvents(r, t, s.node.next) && Numbered(t) && DrawnBefore(t, next)
                && s.node.next <= next
            && r.command.commandId == id
  {
    hide Lifecycle, Numbered, Timely, HasMessage, Evolves, NewEvents, DrawnBefore, OwnCommands;
    var home := HomeOf(site.cfg, site.catalog(id));
    assert ValidRecord(x.records[home]) && DrawnBefore(x.records[home], next);
    assert Evolves(s.node.disk.records[home], x.records[home], call)
        && NewEvents(s.node.disk.records[home], x.records[home], s.node.next);
    assert s.node.disk.records[home].command == site.catalog(id);
  }

  lemma LaterFrom(r: Record, t: Record, call: Call, id: string, first: nat, next: nat)
    requires Evolves(r, t, call) && NewEvents(r, t, first) && Numbered(t) && DrawnBefore(t, next) && first <= next
    ensures Later(r, t, id, first, next)
  {
  }

  lemma ViewFlush(site: Site, s: System, id: string)
    ensures ViewOf(site, s, id).flush == FlushOf(s.flushes, id)
  {
  }

  lemma MarksFrom(v: View, s: System, r: Record, t: Record, call: Call, id: string)
    requires Evolves(r, t, call) && MarksFlushed(s, call) && v.flush == FlushOf(s.flushes, id)
             && r.command.commandId == id
    ensures MarksOnly(v, r, t)
  {
  }

  lemma StoredFirst(site: Site, s: System, call: Call, x: Disk, next: nat, id: string)
    requires ValidSite(site) && Base(site, s) && Kept(site.cfg, s.node, call, x, next)
    requires HomeRecord(site, s.node.disk, id).None? && HomeRecord(site, x, id).Some?
    ensures var t := HomeRecord(site, x, id).value;
            && Numbered(t) && DrawnBefore(t, next) && t.command.commandId == id && s.node.next < next
            && |t.evidence| == 1 && s.node.next <= t.evidence[0].evidence.eventId && t.evidence[0].deliveredAt.None?
  {
    hide Lifecycle, Timely, HasMessage, Evolves;
    var home := HomeOf(site.cfg, site.catalog(id));
    assert ValidRecord(x.records[home]) && DrawnBefore(x.records[home], next);
    assert call.Receive? && home == HomeOf(site.cfg, call.command);
    assert x.records[home].evidence[0].evidence.eventId < next;
  }

  lemma StoredGone(site: Site, s: System, call: Call, x: Disk, next: nat, id: string)
    requires Kept(site.cfg, s.node, call, x, next)
    requires HomeRecord(site, s.node.disk, id).Some? && HomeRecord(site, x, id).None?
    ensures AllDelivered(HomeRecord(site, s.node.disk, id).value)
  {
    hide ValidRecord, DrawnBefore, Timely, HasMessage, Evolves, Consistent, AllDelivered;
    var home := HomeOf(site.cfg, site.catalog(id));
    assert ExpiredSlot(site.cfg, s.node.disk, home, call.now);
  }

  lemma ViewMoved(site: Site, s: System, node: Node, id: string)
    requires ValidSite(site) && Base(site, s)
    ensures var v := ViewOf(site, s, id);
            var stored := HomeRecord(site, node.disk, id);
            ViewOf(site, Moved(s, node), id) ==
              v.(stored := stored, next := node.next,
                 removed := v.removed + (if v.stored.Some? && stored.None? then {v.stored.value} else {}))
    ensures ViewOf(site, s, id).stored == HomeRecord(site, s.node.disk, id)
  {
    RemovedNext(site, s, node, id);
    hide ValidSite, Base, RemovedOf, RemovedBetween, HomeOf;
  }

  /** A journal call, finished or cut short, keeps the evidence of every command in order. */
  lemma CallOrdered(site: Site, s: System, call: Call, node: Node, id: string)
    requires ValidSite(site) && Base(site, s) && Kept(site.cfg, s.node, call, node.disk, node.next)
    requires FreshEvents(s.node.disk, node.disk, s.node.next) && MarksFlushed(s, call)
    requires Ordered(ViewOf(site, s, id), id)
    ensures Ordered(ViewOf(site, Moved(s, node), id), id)
  {
    hide *;
    ViewMoved(site, s, node, id);
    NextGrows(site, s, call, node, id);
    var v, stored := ViewOf(site, s, id), HomeRecord(site, node.disk, id);
    if v.stored.Some? && stored.Some? {
      StoredLater(site, s, call, node.disk, node.next, id);
      EvolveOrdered(v, v.stored.value, stored.value, id, node.next);
      assert v.removed + {} == v.removed;
    } else if stored.Some? {
      StoredFirst(site, s, call, node.disk, node.next, id);
      CreateOrdered(v, stored.value, id, node.next);
      assert v.removed + {} == v.removed;
    } else if v.stored.Some? {
      StoredGone(site, s, call, node.disk, node.next, id);
      RemoveOrdered(v, id);
      DrawOrdered(v.(stored := None, removed := v.removed + {v.stored.value}), id, node.next);
    } else {
      DrawOrdered(v, id, node.next);
      assert v.removed + {} == v.removed;
    }
  }

  lemma NextGrows(site: Site, s: System, call: Call, node: Node, id: string)
    requires Kept(site.cfg, s.node, call, node.disk, node.next)
    ensures s.node.next <= node.next && ViewOf(site, s, id).next == s.node.next
  {
    hide Sound, Moves;
  }

  // ---- The flush of a step ----

  predicate FlushesOwn(action: Action, id: string) {
    (Flushes(action) || action.FlushRead?) && action.id == id
  }

  function FlushOf(flushes: map<string, Flush>, id: string): Option<Flush> {
    if id in flushes then Some(flushes[id]) else None
  }

  lemma ViewNext(site: Site, s: System, action: Action, node: Node, threw: bool, id: string)
    ensures ViewOf(site, Next(site, s, action, node, threw), id) ==
              ViewOf(site, Moved(s, node), id).(
                flush := FlushOf(FlushesNext(s, action, threw), id), inbox := InboxNext(s, action))
    ensures var w := ViewOf(site, Moved(s, node), id); w.flush == FlushOf(s.flushes, id) && w.inbox == s.inbox
  {
    hide FlushesNext, InboxNext, ActiveNext, ResumableNext, AnswersNext, StaleResume, RemovedBetween, RemovedOf,
         HomeRecord;
  }

  lemma OtherFlush(s: System, action: Action, threw: bool, id: string)
    requires !FlushesOwn(action, id)
    ensures FlushOf(FlushesNext(s, action, threw), id) == FlushOf(s.flushes, id)
    ensures InboxNext(s, action) == s.inbox
            || (action.FlushPost? && action.id != id && FlushIn(s, action.id, Posting)
                && InboxNext(s, action) == s.inbox + [FlushEntry(s, action.id).evidence])
  {
    hide Locate, FlushNext;
  }

  /** A flush posts evidence of its own command. */
  lemma PostsOwn(site: Site, s: System, id: string)
    requires Ordered(ViewOf(site, s, id), id) && FlushIn(s, id, Posting)
    ensures FlushEntry(s, id).evidence.commandId == id
  {
    hide Agree, InOrder, DeliveredWerePosted, DrawnBefore, PostsKnown, PostedAfterDelivered, FlushKept;
    var snapshot := s.flushes[id].snapshot;
    assert snapshot in Versions(ViewOf(site, s, id));
    assert Version(snapshot, id, s.inbox, s.node.next);
  }

  lemma OtherOrdered(site: Site, s: System, action: Action, threw: bool, w: View, id: string)
    requires !FlushesOwn(action, id) && Ordered(w, id) && w.flush == FlushOf(s.flushes, id) && w.inbox == s.inbox
    requires EvidenceInOrder(site, s)
    ensures Ordered(w.(flush := FlushOf(FlushesNext(s, action, threw), id), inbox := InboxNext(s, action)), id)
  {
    hide FlushesNext, InboxNext, FlushesOwn, FlushOf, FlushEntry, ViewOf, Ordered;
    OtherFlush(s, action, threw, id);
    if InboxNext(s, action) != s.inbox {
      PostsOwn(site, s, action.id);
      ForeignPost(w, id, FlushEntry(s, action.id).evidence);
    }
  }

  /** The steps of the command's own flush; a read finds the stored record, and an entry that was marked is delivered.
      */
  lemma OwnOrdered(s: System, action: Action, threw: bool, w: View, id: string)
    requires FlushesOwn(action, id) && Ordered(w, id) && w.flush == FlushOf(s.flushes, id) && w.inbox == s.inbox
    requires FlushReady(s, action)
    requires action.FlushRead? ==> w.stored == Some(s.node.disk.records[Locate(s.node.disk, id).value])
    requires action.FlushMark? && !threw ==> MarkedOnDisk(w)
    ensures Ordered(w.(flush := FlushOf(FlushesNext(s, action, threw), id), inbox := InboxNext(s, action)), id)
  {
    hide Ordered, Locate, MarkedOnDisk, FlushReady;
    OwnFlush(s, action, threw, id);
    hide FlushesNext, InboxNext;
    match action
    case FlushRead(_) =>
      FlushStarts(w, id);
      FlushOrdered(w, id, Some(Flush(w.stored.value, 0, Posting)));
    case FlushSkip(_) =>
      SkipPasses(w, id);
      FlushOrdered(w, id, Some(w.flush.value.(index := w.flush.value.index + 1)));
    case FlushPost(_, reached, answered) =>
      if reached { OwnPost(w, id); }
      var after := w.(inbox := InboxNext(s, action));
      var phase := if reached && answered then Marking else Failing;
      FlushWaits(after, id, phase);
      FlushOrdered(after, id, Some(after.flush.value.(phase := phase)));
    case FlushMark(_) =>
      if threw {
        FlushWaits(w, id, Failing);
        FlushOrdered(w, id, Some(w.flush.value.(phase := Failing)));
      } else {
        MarkPasses(w, id);
        FlushOrdered(w, id, Some(w.flush.value.(phase := Posting, index := w.flush.value.index + 1)));
      }
    case _ => FlushOrdered(w, id, None);
  }

  /** What a step of a flush requires of it. */
  predicate FlushReady(s: System, action: Action) {
    match action
    case FlushRead(id) => Locate(s.node.disk, id).Done? && Locate(s.node.disk, id).value in s.node.disk.records
    case FlushSkip(id) => FlushIn(s, id, Posting) && FlushEntry(s, id).deliveredAt.Some?
    case FlushPost(id, _, _) => FlushIn(s, id, Posting)
    case FlushMark(id) => FlushIn(s, id, Marking)
    case FlushFail(id) => FlushIn(s, id, Failing)
    case FlushEnd(id) => id in s.flushes
    case _ => true
  }

  /** The entry that the flush was marking is delivered in the stored record. */
  predicate MarkedOnDisk(w: View) {
    && w.flush.Some? && w.flush.value.index < |w.flush.value.snapshot.evidence| && w.flush.value.phase.Marking?
    && var f := w.flush.value;
       w.stored.Some? && Shares(w.stored.value, f.snapshot, f.index) ==>
           w.stored.value.evidence[f.index].deliveredAt.Some?
  }

  lemma OwnFlush(s: System, action: Action, threw: bool, id: string)
    requires FlushesOwn(action, id) && FlushReady(s, action)
    ensures var flush, inbox := FlushOf(FlushesNext(s, action, threw), id), InboxNext(s, action);
            match action
            case FlushRead(_) => flush == Some(Flush(s.node.disk.records[Locate(s.node.disk, id).value], 0, Posting))
                && inbox == s.inbox
            case FlushSkip(_) =>
              && id in s.flushes && s.flushes[id].phase.Posting?
                  && s.flushes[id].index < |s.flushes[id].snapshot.evidence|
              && s.flushes[id].snapshot.evidence[s.flushes[id].index].deliveredAt.Some?
              && flush == Some(s.flushes[id].(index := s.flushes[id].index + 1)) && inbox == s.inbox
            case FlushPost(_, reached, answered) =>
              && id in s.flushes && s.flushes[id].index < |s.flushes[id].snapshot.evidence|
              && flush == Some(s.flushes[id].(phase := if reached && answered then Marking else Failing))
              && inbox == if reached then s.inbox + [s.flushes[id].snapshot.evidence[s.flushes[id].index].evidence]
                  else s.inbox
            case FlushMark(_) =>
              && id in s.flushes && s.flushes[id].index < |s.flushes[id].snapshot.evidence|
              && flush == (if threw then Some(s.flushes[id].(phase := Failing))
                           else Some(s.flushes[id].(phase := Posting, index := s.flushes[id].index + 1)))
              && inbox == s.inbox
            case _ => flush.None? && inbox == s.inbox
  {
    hide Locate;
  }

  lemma SkipPasses(w: View, id: string)
    requires Ordered(w, id) && w.flush.Some? && w.flush.value.index < |w.flush.value.snapshot.evidence|
    requires w.flush.value.phase.Posting? && w.flush.value.snapshot.evidence[w.flush.value.index].deliveredAt.Some?
    ensures var f := w.flush.value.(index := w.flush.value.index + 1); FlushKept(w.(flush := Some(f)), f)
  {
    hide Ordered, FlushKept;
    FlushPasses(w, id);
    assert w.flush.value.(phase := Posting, index := w.flush.value.index + 1) ==
        w.flush.value.(index := w.flush.value.index + 1);
  }

  lemma MarkPasses(w: View, id: string)
    requires Ordered(w, id) && MarkedOnDisk(w)
    ensures var f := w.flush.value.(phase := Posting,
                                    index := w.flush.value.index + 1); FlushKept(w.(flush := Some(f)), f)
  {
    hide Ordered, FlushKept;
    FlushPasses(w, id);
  }

  // ---- Steps and runs ----

  lemma CallMarksFlushed(site: Site, s: System, action: Action)
    requires CallOf(site, s, action).Some?
    ensures MarksFlushed(s, CallOf(site, s, action).value)
  {
  }

  lemma ReadFinds(site: Site, s: System, id: string)
    requires ValidSite(site) && Base(site, s) && Locate(s.node.disk, id).Done?
    ensures Locate(s.node.disk, id).value in s.node.disk.records
    ensures Locate(s.node.disk, id).value == HomeOf(site.cfg, site.catalog(id))
    ensures HomeRecord(site, s.node.disk, id) == Some(s.node.disk.records[Locate(s.node.disk, id).value])
  {
    hide ValidRecord, DrawnBefore, Timely, HasMessage, OwnCommands, Locate;
    LocateFinds(site.cfg, s.node.disk, id) by { hide ValidRecord, HasMessage; }
    var slot := Locate(s.node.disk, id).value;
    assert slot == HomeOf(site.cfg, s.node.disk.records[slot].command);
  }

  lemma ActionReady(site: Site, s: System, action: Action)
    requires ValidSite(site) && Base(site, s) && Enabled(site, s, action)
    ensures FlushReady(s, action)
  {
    hide Base, Locate, ValidSite;
    if action.FlushRead? { ReadFinds(site, s, action.id); }
  }

  /** Marking an entry without an error leaves it delivered. */
  lemma MarkDelivers(site: Site, s: System, action: Action, error: Option<Error>, t: System)
    requires ValidSite(site) && Base(site, s) && Completes(site, s, action, error, t) && action.FlushMark?
             && error.None?
    ensures MarkedOnDisk(ViewOf(site, Moved(s, t.node), action.id))
  {
    var id := action.id;
    hide *;
    MarkCalls(site, s, action, error, t);
    MarkOutcome(site, s, id, t.node, error);
    var w := ViewOf(site, Moved(s, t.node), id);
    assert w.stored == HomeRecord(site, t.node.disk, id) && w.flush == FlushOf(s.flushes, id)
        by { ViewNow(site, s, t.node, id); }
    MarkShown(w, s, id);
  }

  lemma MarkCalls(site: Site, s: System, action: Action, error: Option<Error>, t: System)
    requires Completes(site, s, action, error, t) && action.FlushMark?
    ensures FlushIn(s, action.id, Marking)
    ensures Returns(site.cfg, s.node, Call.Delivered(action.id, FlushEntry(s, action.id).evidence.eventId, s.clock),
                    t.node, error)
  {
    hide Returns, Next, FlushEntry;
  }

  lemma ViewNow(site: Site, s: System, node: Node, id: string)
    ensures var w := ViewOf(site, Moved(s, node), id);
            w.stored == HomeRecord(site, node.disk, id) && w.flush == FlushOf(s.flushes, id)
  {
    hide HomeRecord, RemovedOf, RemovedBetween;
  }

  ghost predicate EntryDelivered(r: Record, eventId: nat) {
    forall i | 0 <= i < |r.evidence| && r.evidence[i].evidence.eventId == eventId :: r.evidence[i].deliveredAt.Some?
  }

  lemma MarkShown(w: View, s: System, id: string)
    requires FlushIn(s, id, Marking) && w.flush == FlushOf(s.flushes, id)
    requires w.stored.Some? ==> EntryDelivered(w.stored.value, FlushEntry(s, id).evidence.eventId)
    ensures MarkedOnDisk(w)
  {
  }

  lemma MarkOutcome(site: Site, s: System, id: string, after: Node, error: Option<Error>)
    requires ValidSite(site) && Base(site, s) && FlushIn(s, id, Marking) && error.None?
    requires Returns(site.cfg, s.node, Call.Delivered(id, FlushEntry(s, id).evidence.eventId, s.clock), after, error)
    ensures var stored := HomeRecord(site, after.disk, id);
            stored.Some? ==> EntryDelivered(stored.value, FlushEntry(s, id).evidence.eventId)
  {
    var eventId := FlushEntry(s, id).evidence.eventId;
    hide FlushEntry, ValidSite, Base, Locate, MarkDelivered, EntryDelivered;
    assert Locate(s.node.disk, id).Done?;
    ReadFinds(site, s, id);
    var r := s.node.disk.records[Locate(s.node.disk, id).value];
    StoredNumbered(site, s, Locate(s.node.disk, id).value);
    MarksEntry(r, eventId, s.clock);
    OutcomeStored(site, s.node, id, eventId, s.clock);
  }

  lemma StoredNumbered(site: Site, s: System, slot: Slot)
    requires Base(site, s) && slot in s.node.disk.records
    ensures Numbered(s.node.disk.records[slot])
  {
    hide Numbered, Lifecycle, DrawnBefore, Timely, HasMessage, OwnCommands, Catalogued;
    assert ValidRecord(s.node.disk.records[slot]);
  }

  lemma OutcomeStored(site: Site, n: Node, id: string, eventId: nat, now: Time)
    requires var home := HomeOf(site.cfg, site.catalog(id)); Locate(n.disk, id) == Done(home) && home in n.disk.records
    ensures HomeRecord(site, DeliveredOutcome(n, id, eventId, now).node.disk, id) ==
              Some(MarkDelivered(n.disk.records[HomeOf(site.cfg, site.catalog(id))], eventId, now))
  {
    hide Locate;
  }

  lemma MarksEntry(r: Record, eventId: nat, now: Time)
    requires Numbered(r)
    ensures EntryDelivered(MarkDelivered(r, eventId, now), eventId)
  {
    AgreeSelf(r);
  }

  lemma CompletesOrdered(site: Site, s: System, action: Action, error: Option<Error>, t: System)
    requires ValidSite(site) && Base(site, s) && EvidenceInOrder(site, s) && Completes(site, s, action, error, t)
    ensures EvidenceInOrder(site, t)
  {
    hide *;
    ClockMoves(site, s, action, error, t);
    forall id ensures Ordered(ViewOf(site, t, id), id) {
      OrderedAt(site, s, id);
      MovedOrdered(site, s, action, error, t, id);
      ViewNext(site, s, action, t.node, error.Some?, id);
      var w := ViewOf(site, Moved(s, t.node), id);
      if FlushesOwn(action, id) {
        ActionReady(site, s, action);
        OwnFacts(site, s, action, error, t, id);
        OwnOrdered(s, action, error.Some?, w, id);
      } else {
        OtherOrdered(site, s, action, error.Some?, w, id);
      }
    }
    EachOrdered(site, t);
  }

  lemma OrderedAt(site: Site, s: System, id: string)
    requires EvidenceInOrder(site, s)
    ensures Ordered(ViewOf(site, s, id), id)
  {
  }

  lemma EachOrdered(site: Site, s: System)
    requires forall id :: Ordered(ViewOf(site, s, id), id)
    ensures EvidenceInOrder(site, s)
  {
  }

  lemma OwnFacts(site: Site, s: System, action: Action, error: Option<Error>, t: System, id: string)
    requires ValidSite(site) && Base(site, s) && Completes(site, s, action, error, t)
    requires FlushesOwn(action, id) && FlushReady(s, action)
    ensures var w := ViewOf(site, Moved(s, t.node), id);
            && (action.FlushRead? ==> w.stored == Some(s.node.disk.records[Locate(s.node.disk, id).value]))
            && (action.FlushMark? && error.None? ==> MarkedOnDisk(w))
  {
    hide Base, ValidSite, Next, Locate, HomeRecord, RemovedBetween, RemovedOf, MarkedOnDisk, Returns;
    if action.FlushRead? { ReadFinds(site, s, id); }
    if action.FlushMark? && error.None? { MarkDelivers(site, s, action, error, t); }
  }

  lemma MovedOrdered(site: Site, s: System, action: Action, error: Option<Error>, t: System, id: string)
    requires ValidSite(site) && Base(site, s) && Completes(site, s, action, error, t)
    requires Ordered(ViewOf(site, s, id), id)
    ensures Ordered(ViewOf(site, Moved(s, t.node), id), id)
  {
    hide Base, ValidSite, Next, Ordered, CallOf, Enabled, Returns, ViewOf, RemovedBetween, MarksFlushed, FreshEvents,
         Kept, Ready;
    if CallOf(site, s, action).Some? {
      var call := CallOf(site, s, action).value;
      CallReady(site, s, action, call);
      ReturnKeeps(site.cfg, s.node, call, t.node, error, s.clock);
      ReturnsFresh(site.cfg, s.node, call, t.node, error);
      CallMarksFlushed(site, s, action);
      CallOrdered(site, s, call, t.node, id);
    } else {
      NotMoved(s);
    }
  }

  lemma NotMoved(s: System)
    ensures Moved(s, s.node) == s
  {
    NothingRemoved(s.node.disk, s.node.disk);
  }

  lemma DiesOrdered(site: Site, s: System, action: Action, t: System)
    requires ValidSite(site) && Base(site, s) && EvidenceInOrder(site, s) && Dies(site, s, action, t)
    ensures EvidenceInOrder(site, t)
  {
    hide *;
    forall id ensures Ordered(ViewOf(site, t, id), id) {
      OrderedAt(site, s, id);
      var node := Node(t.node.disk, map[], t.node.next);
      CutOrdered(site, s, action, t, node, id);
      var w := ViewOf(site, Moved(s, node), id);
      FlushOrdered(w, id, None);
      DownView(site, s, action, t, node, id);
    }
    EachOrdered(site, t);
  }

  lemma DownView(site: Site, s: System, action: Action, t: System, node: Node, id: string)
    requires Dies(site, s, action, t) && node == Node(t.node.disk, map[], t.node.next)
    ensures ViewOf(site, t, id) == ViewOf(site, Moved(s, node), id).(flush := None)
  {
    hide HomeRecord, RemovedOf, RemovedBetween, Enabled, CallOf, Interrupted;
  }

  lemma CutOrdered(site: Site, s: System, action: Action, t: System, node: Node, id: string)
    requires ValidSite(site) && Base(site, s) && Dies(site, s, action, t)
    requires node == Node(t.node.disk, map[], t.node.next) && Ordered(ViewOf(site, s, id), id)
    ensures Ordered(ViewOf(site, Moved(s, node), id), id)
  {
    hide Base, ValidSite, Down, Ordered, CallOf, Enabled, Interrupted, ViewOf, RemovedBetween, MarksFlushed,
         FreshEvents, Kept, Ready;
    if CallOf(site, s, action).Some? {
      var call := CallOf(site, s, action).value;
      CallReady(site, s, action, call);
      InterruptKeeps(site.cfg, s.node, call, t.node.disk, t.node.next, s.clock);
      InterruptedFresh(site.cfg, s.node, call, t.node.disk, t.node.next);
      CallMarksFlushed(site, s, action);
      CallOrdered(site, s, call, node, id);
    } else {
      NotMoved(s);
      SameView(site, s, node, id);
    }
  }

  lemma SameView(site: Site, s: System, node: Node, id: string)
    requires node.disk == s.node.disk && node.next == s.node.next
    ensures ViewOf(site, Moved(s, node), id) == ViewOf(site, Moved(s, s.node), id)
  {
  }

  lemma StepOrdered(site: Site, s: System, t: System)
    requires ValidSite(site) && Base(site, s) && EvidenceInOrder(site, s) && Step(site, s, t)
    ensures EvidenceInOrder(site, t)
  {
    hide Completes, Dies, Base, EvidenceInOrder, ValidSite;
    if action, error :| Completes(site, s, action, error, t) {
      CompletesOrdered(site, s, action, error, t);
    } else {
      var action :| Dies(site, s, action, t);
      DiesOrdered(site, s, action, t);
    }
  }

  lemma InitialOrdered(site: Site, s: System)
    requires Initial(s)
    ensures EvidenceInOrder(site, s)
  {
  }

  lemma {:induction false} RunOrdered(site: Site, t: seq<System>, i: nat)
    requires ValidSite(site) && Run(site, t) && i < |t|
    ensures EvidenceInOrder(site, t[i])
  {
    hide Base, Step, ValidSite, EvidenceInOrder, Initial;
    if i == 0 {
      InitialOrdered(site, t[0]);
    } else {
      RunOrdered(site, t, i - 1);
      RunBase(site, t, i - 1);
      StepOrdered(site, t[i - 1], t[i]);
    }
  }

  // ---- What the inbox sees, over every run ----

  /** How many entries in front are delivered. */
  function DeliveredCount(r: Record, from: nat := 0): (n: nat)
    requires from <= |r.evidence|
    ensures from <= n <= |r.evidence|
    ensures forall i | from <= i < n :: r.evidence[i].deliveredAt.Some?
    ensures n < |r.evidence| ==> r.evidence[n].deliveredAt.None?
    decreases |r.evidence| - from
  {
    if from < |r.evidence| && r.evidence[from].deliveredAt.Some? then DeliveredCount(r, from + 1) else from
  }

  ghost predicate KnownRecord(site: Site, s: System, id: string, r: Record) {
    r.command.commandId == id && (HomeRecord(site, s.node.disk, id) == Some(r) || r in s.removed)
  }

  /** For every stored or compacted record, at every moment of every run with failed posts and crashes: the delivered
      entries are a prefix of its evidence; without repeated event ids, the posts that the inbox accepted for it are a
      prefix of its evidence, numbered 1, 2, 3, ...; and the inbox is at most one entry ahead of the marks. */
  lemma EvidenceArrivesInOrder(site: Site, t: seq<System>, i: nat, id: string, r: Record)
    requires ValidSite(site) && Run(site, t) && i < |t| && KnownRecord(site, t[i], id, r)
    ensures var accepted := AcceptedFor(t[i].inbox, r);
            var delivered := DeliveredCount(r);
            && accepted <= Events(r)
            && (forall k | 0 <= k < |accepted| :: accepted[k].sequence == k + 1 && accepted[k].commandId == id)
            && (forall k | delivered <= k < |r.evidence| :: r.evidence[k].deliveredAt.None?)
            && delivered <= |accepted| <= delivered + 1
  {
    hide ValidSite, Run, AcceptedFor;
    RunOrdered(site, t, i);
    OrderedAt(site, t[i], id);
    hide EvidenceInOrder;
    var v := ViewOf(site, t[i], id);
    KnownIn(site, t[i], id, r);
    VersionOwn(v, id, r);
    AcceptedPrefix(t[i].inbox, r);
    MarkedPrefix(v, id, r);
    Counts(t[i].inbox, r, |AcceptedFor(t[i].inbox, r)|, DeliveredCount(r));
  }

  /** The inbox never accepts a post that is not evidence of a stored or compacted record of its command. */
  lemma PostsAreEvidence(site: Site, t: seq<System>, i: nat, e: Evidence)
    requires ValidSite(site) && Run(site, t) && i < |t| && e in t[i].inbox
    ensures exists r :: KnownRecord(site, t[i], e.commandId, r) && e in Events(r)
  {
    hide ValidSite, Run;
    RunOrdered(site, t, i);
    OrderedAt(site, t[i], e.commandId);
    hide EvidenceInOrder, AllVersions, FlushKept, PostedAfterDelivered, AllDelivered;
    var v := ViewOf(site, t[i], e.commandId);
    var r :| r in Retained(v) && e in Events(r);
    VersionOwn(v, e.commandId, r);
    assert KnownRecord(site, t[i], e.commandId, r);
  }

  lemma Counts(inbox: seq<Evidence>, r: Record, accepted: nat, delivered: nat)
    requires accepted <= |r.evidence| && delivered <= |r.evidence|
    requires forall k | 0 <= k < |r.evidence| :: r.evidence[k].evidence in inbox <==> k < accepted
    requires forall k | 0 <= k < delivered :: r.evidence[k].evidence in inbox
    requires forall k | delivered < k < |r.evidence| :: r.evidence[k].evidence !in inbox
    ensures delivered <= accepted <= delivered + 1
  {
    if 0 < delivered { assert r.evidence[delivered - 1].evidence in inbox; }
    if delivered + 1 < |r.evidence| { assert r.evidence[delivered + 1].evidence !in inbox; }
  }

  lemma KnownIn(site: Site, s: System, id: string, r: Record)
    requires KnownRecord(site, s, id, r)
    ensures r in Retained(ViewOf(site, s, id)) && ViewOf(site, s, id).inbox == s.inbox
  {
  }

  lemma VersionOwn(v: View, id: string, r: Record)
    requires Ordered(v, id) && r in Retained(v)
    ensures Numbered(r) && InOrder(v.inbox, r) && OwnPosts(v.inbox, r) && DeliveredWerePosted(v.inbox, r)
            && r.command.commandId == id
  {
    hide InOrder, DrawnBefore, Numbered, DeliveredWerePosted, AllDelivered, FlushKept, PostedAfterDelivered;
    assert r in Versions(v);
    forall e | e in v.inbox && e.commandId == id && HasEvent(r, e.eventId) ensures e in Events(r) {
      var c :| c in Retained(v) && e in Events(c);
      assert c in Versions(v);
      assert Agree(r, c);
      var j :| 0 <= j < |Events(c)| && Events(c)[j] == e;
      var k :| 0 <= k < |r.evidence| && r.evidence[k].evidence.eventId == e.eventId;
      assert Events(r)[k] == e;
    }
  }

  lemma MarkedPrefix(v: View, id: string, r: Record)
    requires Ordered(v, id) && r in Retained(v) && DeliveredWerePosted(v.inbox, r)
    ensures forall k | DeliveredCount(r) <= k < |r.evidence| :: r.evidence[k].deliveredAt.None?
    ensures forall k | 0 <= k < DeliveredCount(r) :: r.evidence[k].evidence in v.inbox
    ensures forall k | DeliveredCount(r) < k < |r.evidence| :: r.evidence[k].evidence !in v.inbox
  {
    hide AllVersions, PostsKnown, FlushKept;
    var n := DeliveredCount(r);
    assert PostedAfterDelivered(v.inbox, r) by { hide DeliveredCount; }
  }
}
