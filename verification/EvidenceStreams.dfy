/** The whole stream of posts of one command: the evidence of its compacted records, one after another, and then a
    prefix of the evidence of the stored one. */
module EvidenceStreams {
  import opened Wrappers
  import opened Protocol
  import opened Records
  import opened JournalStore
  import opened JournalCalls
  import opened FreshIds
  import opened Connector
  import opened ConnectorBase
  import opened EvidenceOrder
  import opened EvidenceRuns
  import Sorting

  /** The posts of a command without repeated event ids. */
  function Stream(inbox: seq<Evidence>, id: string): seq<Evidence> {
    if inbox == [] then [] else
    var before, e := Stream(inbox[..|inbox| - 1], id), inbox[|inbox| - 1];
    if e.commandId != id || Repeats(before, e) then before else before + [e]
  }

  function AllEvents(order: seq<Record>): seq<Evidence> {
    if order == [] then [] else AllEvents(order[..|order| - 1]) + Events(order[|order| - 1])
  }

  /** Every event of `a` was drawn before every event of `b`. */
  ghost predicate Earlier(a: Record, b: Record) {
    forall i, j | 0 <= i < |a.evidence| && 0 <= j < |b.evidence| ::
      a.evidence[i].evidence.eventId < b.evidence[j].evidence.eventId
  }

  /** The compacted records in order, and the stored one after them. */
  ghost predicate InTurn(v: View, order: seq<Record>) {
    && Sorting.Elements(order) == v.removed && Sorting.Distinct(order)
    && (forall r | r in order :: r.evidence != [])
    && (v.stored.Some? ==> forall r | r in order :: Earlier(r, v.stored.value))
  }

  function StoredEvents(v: View): seq<Evidence> {
    if v.stored.Some? then Events(v.stored.value) else []
  }

  ghost predicate Streamed(v: View, id: string, order: seq<Record>) {
    && InTurn(v, order)
    && AllEvents(order) <= Stream(v.inbox, id)
    && Stream(v.inbox, id)[|AllEvents(order)|..] <= StoredEvents(v)
  }

  // ---- What the stream holds ----

  lemma StreamMore(inbox: seq<Evidence>, e: Evidence, id: string)
    ensures Stream(inbox + [e], id) ==
              var before := Stream(inbox, id); if e.commandId != id || Repeats(before, e) then before else before + [e]
  {
    assert (inbox + [e])[..|inbox|] == inbox;
  }

  /** Every post of the command is in the stream, by its event id. */
  lemma {:induction false} StreamHolds(inbox: seq<Evidence>, id: string, e: Evidence)
    requires e in inbox && e.commandId == id
    ensures Repeats(Stream(inbox, id), e)
  {
    var front, last := inbox[..|inbox| - 1], inbox[|inbox| - 1];
    assert inbox == front + [last];
    StreamMore(front, last, id);
    var before, after := Stream(front, id), Stream(inbox, id);
    if e in front {
      StreamHolds(front, id, e);
      var i :| 0 <= i < |before| && before[i].eventId == e.eventId;
      assert after[i] == before[i];
    } else if !Repeats(before, e) {
      assert after[|before|] == e;
    }
  }

  lemma {:induction false} EventOf(order: seq<Record>, k: nat) returns (r: Record)
    requires k < |AllEvents(order)|
    ensures r in order && AllEvents(order)[k] in Events(r)
  {
    var front, last := order[..|order| - 1], order[|order| - 1];
    if k < |AllEvents(front)| {
      r := EventOf(front, k);
    } else {
      r := last;
      assert AllEvents(order)[k] == Events(last)[k - |AllEvents(front)|];
    }
  }

  /** An event of the stored record that was posted comes in the stream after all compacted records, at its own place.
      */
  lemma StoredPlace(v: View, id: string, order: seq<Record>, k: nat)
    requires Ordered(v, id) && Streamed(v, id, order) && v.stored.Some? && k < |v.stored.value.evidence|
    requires v.stored.value.evidence[k].evidence in v.inbox
    ensures k < |Stream(v.inbox, id)| - |AllEvents(order)|
  {
    var r, stream, done := v.stored.value, Stream(v.inbox, id), AllEvents(order);
    var e := r.evidence[k].evidence;
    StoredNumbers(v, id);
    StreamHolds(v.inbox, id, e);
    var i :| 0 <= i < |stream| && stream[i].eventId == e.eventId;
    if i < |done| {
      var c := EventOf(order, i);
      assert done[i] == stream[i];
      EarlierEvents(c, r, done[i], e);
    } else {
      assert stream[|done|..][i - |done|] == Events(r)[i - |done|];
      AgreeSelf(r);
    }
  }

  lemma StoredNumbers(v: View, id: string)
    requires Ordered(v, id) && v.stored.Some?
    ensures Numbered(v.stored.value) && v.stored.value.command.commandId == id
    ensures forall k | 0 <= k < |v.stored.value.evidence| :: v.stored.value.evidence[k].evidence.commandId == id
  {
    hide Agree, InOrder, DeliveredWerePosted, DrawnBefore, PostsKnown, PostedAfterDelivered, FlushKept, AllDelivered;
    assert v.stored.value in Versions(v);
    assert Version(v.stored.value, id, v.inbox, v.next);
  }

  lemma EarlierEvents(a: Record, b: Record, d: Evidence, e: Evidence)
    requires Earlier(a, b) && d in Events(a) && e in Events(b)
    ensures d.eventId < e.eventId
  {
    var i :| 0 <= i < |Events(a)| && Events(a)[i] == d;
    var j :| 0 <= j < |Events(b)| && Events(b)[j] == e;
    assert a.evidence[i].evidence == d && b.evidence[j].evidence == e;
  }

  // ---- Steps ----

  lemma LaterEarlier(c: Record, r: Record, s: Record, id: string, first: nat, next: nat)
    requires Earlier(c, r) && Later(r, s, id, first, next) && DrawnBefore(c, first)
    ensures Earlier(c, s)
  {
  }

  lemma RemovedDrawn(v: View, id: string, c: Record)
    requires Ordered(v, id) && c in v.removed
    ensures DrawnBefore(c, v.next) && AllDelivered(c) && DeliveredWerePosted(v.inbox, c)
    ensures forall k | 0 <= k < |c.evidence| :: c.evidence[k].evidence.commandId == id
  {
    hide Agree, InOrder, DrawnBefore, PostsKnown, PostedAfterDelivered, FlushKept, AllDelivered, DeliveredWerePosted;
    assert c in Versions(v);
    assert Version(c, id, v.inbox, v.next);
  }

  lemma EvolveStreamed(v: View, r: Record, s: Record, id: string, next: nat, order: seq<Record>)
    requires Ordered(v, id) && Streamed(v, id, order) && v.stored == Some(r) && Later(r, s, id, v.next, next)
    ensures Streamed(v.(stored := Some(s), next := next), id, order)
  {
    assert Events(r) <= Events(s);
    forall c | c in order ensures Earlier(c, s) {
      assert c in Sorting.Elements(order);
      RemovedDrawn(v, id, c);
      LaterEarlier(c, r, s, id, v.next, next);
    }
    hide Earlier, Later, Ordered, Events, Stream, AllEvents;
  }

  lemma CreateStreamed(v: View, s: Record, id: string, next: nat, order: seq<Record>)
    requires Ordered(v, id) && Streamed(v, id, order) && v.stored.None?
    requires |s.evidence| == 1 && v.next <= s.evidence[0].evidence.eventId
    ensures Streamed(v.(stored := Some(s), next := next), id, order)
  {
    forall c | c in order ensures Earlier(c, s) {
      assert c in Sorting.Elements(order);
      RemovedDrawn(v, id, c);
    }
    hide Earlier, Ordered, Events, Stream, AllEvents;
  }

  /** When a record is compacted its whole evidence is in the stream. */
  lemma RemoveStreamed(v: View, id: string, order: seq<Record>)
    requires Ordered(v, id) && Streamed(v, id, order) && v.stored.Some?
    requires AllDelivered(v.stored.value) && v.stored.value.evidence != []
    ensures var w := v.(stored := None, removed := v.removed + {v.stored.value});
            Streamed(w, id, order + [v.stored.value])
  {
    var r := v.stored.value;
    StoredPosted(v, id);
    StoredPlace(v, id, order, |r.evidence| - 1);
    AllEventsMore(order, r);
    hide Ordered, Stream, AllEvents, Earlier;
    NewlyRemoved(v, order, r);
    hide InTurn;
    WholeSuffix(Stream(v.inbox, id), AllEvents(order), Events(r));
  }

  lemma AllEventsMore(order: seq<Record>, r: Record)
    ensures AllEvents(order + [r]) == AllEvents(order) + Events(r)
  {
    assert (order + [r])[..|order|] == order;
  }

  lemma WholeSuffix(stream: seq<Evidence>, done: seq<Evidence>, last: seq<Evidence>)
    requires done <= stream && stream[|done|..] <= last && |stream| - |done| >= |last|
    ensures stream == done + last
  {
  }

  lemma NotEarlierThanItself(r: Record)
    requires r.evidence != []
    ensures !Earlier(r, r)
  {
    var e := r.evidence[0].evidence.eventId;
    assert !(e < e);
  }

  lemma NewlyRemoved(v: View, order: seq<Record>, r: Record)
    requires InTurn(v, order) && v.stored == Some(r) && r.evidence != []
    ensures InTurn(v.(stored := None, removed := v.removed + {r}), order + [r])
  {
    NotEarlierThanItself(r);
    assert r !in order;
    forall x ensures x in Sorting.Elements(order + [r]) <==> x in v.removed + {r} {
      assert x in Sorting.Elements(order) <==> x in v.removed;
    }
  }

  lemma StoredPosted(v: View, id: string)
    requires Ordered(v, id) && v.stored.Some? && AllDelivered(v.stored.value)
    ensures forall k | 0 <= k < |v.stored.value.evidence| :: v.stored.value.evidence[k].evidence in v.inbox
  {
    hide Agree, InOrder, DrawnBefore, PostsKnown, PostedAfterDelivered, FlushKept;
    assert v.stored.value in Versions(v);
    assert Version(v.stored.value, id, v.inbox, v.next);
  }

  /** A post of the flush repeats one before, or is the next entry of the stored record. */
  lemma PostStreamed(v: View, id: string, order: seq<Record>)
    requires Ordered(v, id) && Streamed(v, id, order)
    requires v.flush.Some? && v.flush.value.index < |v.flush.value.snapshot.evidence|
    ensures var e := v.flush.value.snapshot.evidence[v.flush.value.index].evidence;
            Streamed(v.(inbox := v.inbox + [e]), id, order)
  {
    var f := v.flush.value;
    var e, stream, done := f.snapshot.evidence[f.index].evidence, Stream(v.inbox, id), AllEvents(order);
    StreamMore(v.inbox, e, id);
    if e.commandId == id && !Repeats(stream, e) { NewPost(v, id, order); }
    hide Earlier, Ordered, Stream, AllEvents, InTurn, Repeats;
    SameTurn(v, v.(inbox := v.inbox + [e]), order);
    if Stream(v.inbox + [e], id) == stream + [e] && stream + [e] != stream {
      NextEntry(stream, done, StoredEvents(v), e);
    }
  }

  lemma NextEntry(stream: seq<Evidence>, done: seq<Evidence>, stored: seq<Evidence>, e: Evidence)
    requires done <= stream && stream[|done|..] <= stored && |stream| - |done| < |stored|
             && stored[|stream| - |done|] == e
    ensures done <= stream + [e] && (stream + [e])[|done|..] <= stored
  {
    assert (stream + [e])[|done|..] == stream[|done|..] + [e];
  }

  lemma SameTurn(v: View, w: View, order: seq<Record>)
    requires InTurn(v, order) && w.stored == v.stored && w.removed == v.removed
    ensures InTurn(w, order)
  {
  }

  lemma NewPost(v: View, id: string, order: seq<Record>)
    requires Ordered(v, id) && Streamed(v, id, order)
    requires v.flush.Some? && v.flush.value.index < |v.flush.value.snapshot.evidence|
    requires var e := v.flush.value.snapshot.evidence[v.flush.value.index].evidence;
             e.commandId == id && !Repeats(Stream(v.inbox, id), e)
    ensures var e, k := v.flush.value.snapshot.evidence[v.flush.value.index].evidence,
                        |Stream(v.inbox, id)| - |AllEvents(order)|;
            v.stored.Some? && k < |v.stored.value.evidence| && Events(v.stored.value)[k] == e
  {
    var f := v.flush.value;
    var e := f.snapshot.evidence[f.index].evidence;
    if e in v.inbox { StreamHolds(v.inbox, id, e); }
    NewPostStored(v, id);
    var r, k := v.stored.value, |Stream(v.inbox, id)| - |AllEvents(order)|;
    if f.index > 0 { StoredPlace(v, id, order, f.index - 1); }
    forall i | 0 <= i < k ensures Repeats(Stream(v.inbox, id), Events(r)[i]) { PlaceRepeats(v, id, order, i); }
  }

  lemma PlaceRepeats(v: View, id: string, order: seq<Record>, i: nat)
    requires Streamed(v, id, order) && v.stored.Some? && i < |Stream(v.inbox, id)| - |AllEvents(order)|
    ensures i < |v.stored.value.evidence| && Repeats(Stream(v.inbox, id), Events(v.stored.value)[i])
  {
    var stream, done := Stream(v.inbox, id), AllEvents(order);
    assert stream[|done|..][i] == Events(v.stored.value)[i] == stream[|done| + i];
  }

  /** A post that is new belongs to the stored record. */
  lemma NewPostStored(v: View, id: string)
    requires Ordered(v, id) && v.flush.Some? && v.flush.value.index < |v.flush.value.snapshot.evidence|
    requires v.flush.value.snapshot.evidence[v.flush.value.index].evidence !in v.inbox
    ensures v.stored.Some? && Covers(v.stored.value, v.flush.value.snapshot)
    ensures forall j | 0 <= j < v.flush.value.index :: v.stored.value.evidence[j].evidence in v.inbox
  {
    hide Agree, InOrder, DrawnBefore, PostsKnown, PostedAfterDelivered, Numbered;
    var f := v.flush.value;
    var c :| c in Retained(v) && Covers(c, f.snapshot);
    assert c in Versions(v);
    assert Version(c, id, v.inbox, v.next);
    assert c.evidence[f.index].evidence == f.snapshot.evidence[f.index].evidence;
    assert c !in v.removed;
  }

  lemma ForeignStreamed(v: View, id: string, order: seq<Record>, e: Evidence)
    requires Streamed(v, id, order) && e.commandId != id
    ensures Streamed(v.(inbox := v.inbox + [e]), id, order)
  {
    StreamMore(v.inbox, e, id);
  }

  // ---- Steps of the connector ----

  lemma DrawStreamed(v: View, id: string, next: nat, order: seq<Record>)
    requires Streamed(v, id, order)
    ensures Streamed(v.(next := next), id, order)
  {
    hide Earlier, Stream, AllEvents, Events;
  }

  lemma StoredNonempty(site: Site, s: System, id: string)
    requires Base(site, s) && HomeRecord(site, s.node.disk, id).Some?
    ensures HomeRecord(site, s.node.disk, id).value.evidence != []
  {
    hide Numbered, DrawnBefore, Timely, HasMessage, OwnCommands, Catalogued;
    assert ValidRecord(s.node.disk.records[HomeOf(site.cfg, site.catalog(id))]);
  }

  /** A journal call, finished or cut short, compacts at most the stored record. */
  lemma CallStreamed(site: Site, s: System, call: Call, node: Node, id: string, order: seq<Record>)
    returns (later: seq<Record>)
    requires ValidSite(site) && Base(site, s) && Kept(site.cfg, s.node, call, node.disk, node.next)
    requires FreshEvents(s.node.disk, node.disk, s.node.next) && MarksFlushed(s, call)
    requires Ordered(ViewOf(site, s, id), id) && Streamed(ViewOf(site, s, id), id, order)
    ensures Streamed(ViewOf(site, Moved(s, node), id), id, later) && order <= later
  {
    hide *;
    later := order;
    ViewMoved(site, s, node, id);
    NextGrows(site, s, call, node, id);
    var v, stored := ViewOf(site, s, id), HomeRecord(site, node.disk, id);
    if v.stored.Some? && stored.Some? {
      StoredLater(site, s, call, node.disk, node.next, id);
      EvolveStreamed(v, v.stored.value, stored.value, id, node.next, order);
      assert v.removed + {} == v.removed;
    } else if stored.Some? {
      StoredFirst(site, s, call, node.disk, node.next, id);
      CreateStreamed(v, stored.value, id, node.next, order);
      assert v.removed + {} == v.removed;
    } else if v.stored.Some? {
      StoredGone(site, s, call, node.disk, node.next, id);
      StoredNonempty(site, s, id);
      RemoveStreamed(v, id, order);
      later := order + [v.stored.value];
      DrawStreamed(v.(stored := None, removed := v.removed + {v.stored.value}), id, node.next, later);
    } else {
      DrawStreamed(v, id, node.next, order);
      assert v.removed + {} == v.removed;
    }
  }

  /** What the rest of a step does: the flush goes on and the inbox may have accepted a post. */
  lemma InboxStreamed(site: Site, s: System, action: Action, threw: bool, w: View, id: string, order: seq<Record>)
    requires Ordered(w, id) && Streamed(w, id, order) && w.flush == FlushOf(s.flushes, id) && w.inbox == s.inbox
    requires EvidenceInOrder(site, s) && FlushReady(s, action)
    ensures Streamed(w.(flush := FlushOf(FlushesNext(s, action, threw), id), inbox := InboxNext(s, action)), id, order)
  {
    hide FlushesNext, Ordered, Streamed, ViewOf, EvidenceInOrder;
    if action.FlushPost? && action.reached && FlushIn(s, action.id, Posting) {
      if action.id == id {
        PostStreamed(w, id, order);
      } else {
        OrderedAt(site, s, action.id);
        PostsOwn(site, s, action.id);
        ForeignStreamed(w, id, order, FlushEntry(s, action.id).evidence);
      }
    }
    FlushStreamed(w.(inbox := InboxNext(s, action)), FlushOf(FlushesNext(s, action, threw), id), id, order);
  }

  lemma FlushStreamed(v: View, flush: Option<Flush>, id: string, order: seq<Record>)
    requires Streamed(v, id, order)
    ensures Streamed(v.(flush := flush), id, order)
  {
    hide Earlier, Stream, AllEvents, Events;
  }

  lemma CompletesStreamed(site: Site, s: System, action: Action, error: Option<Error>, t: System, id: string,
                          order: seq<Record>)
    returns (later: seq<Record>)
    requires ValidSite(site) && Base(site, s) && EvidenceInOrder(site, s) && Completes(site, s, action, error, t)
    requires Streamed(ViewOf(site, s, id), id, order)
    ensures Streamed(ViewOf(site, t, id), id, later) && order <= later
  {
    hide *;
    OrderedAt(site, s, id);
    ClockMoves(site, s, action, error, t);
    MovedOrdered(site, s, action, error, t, id);
    later := MovedStreamed(site, s, action, error, t, id, order);
    ActionReady(site, s, action);
    ViewNext(site, s, action, t.node, error.Some?, id);
    InboxStreamed(site, s, action, error.Some?, ViewOf(site, Moved(s, t.node), id), id, later);
  }

  lemma MovedStreamed(site: Site, s: System, action: Action, error: Option<Error>, t: System, id: string,
                      order: seq<Record>)
    returns (later: seq<Record>)
    requires ValidSite(site) && Base(site, s) && Completes(site, s, action, error, t)
    requires Ordered(ViewOf(site, s, id), id) && Streamed(ViewOf(site, s, id), id, order)
    ensures Streamed(ViewOf(site, Moved(s, t.node), id), id, later) && order <= later
  {
    hide Base, ValidSite, Next, Ordered, CallOf, Enabled, Returns, ViewOf, RemovedBetween, MarksFlushed, FreshEvents,
         Kept, Ready,
         Streamed;
    later := order;
    if CallOf(site, s, action).Some? {
      var call := CallOf(site, s, action).value;
      CallReady(site, s, action, call);
      ReturnKeeps(site.cfg, s.node, call, t.node, error, s.clock);
      ReturnsFresh(site.cfg, s.node, call, t.node, error);
      CallMarksFlushed(site, s, action);
      later := CallStreamed(site, s, call, t.node, id, order);
    } else {
      EvidenceRuns.NotMoved(s);
    }
  }

  lemma DiesStreamed(site: Site, s: System, action: Action, t: System, id: string, order: seq<Record>)
    returns (later: seq<Record>)
    requires ValidSite(site) && Base(site, s) && EvidenceInOrder(site, s) && Dies(site, s, action, t)
    requires Streamed(ViewOf(site, s, id), id, order)
    ensures Streamed(ViewOf(site, t, id), id, later) && order <= later
  {
    hide *;
    OrderedAt(site, s, id);
    var node := Node(t.node.disk, map[], t.node.next);
    later := CutStreamed(site, s, action, t, node, id, order);
    FlushStreamed(ViewOf(site, Moved(s, node), id), None, id, later);
    DownView(site, s, action, t, node, id);
  }

  lemma CutStreamed(site: Site, s: System, action: Action, t: System, node: Node, id: string, order: seq<Record>)
    returns (later: seq<Record>)
    requires ValidSite(site) && Base(site, s) && Dies(site, s, action, t)
    requires node == Node(t.node.disk, map[], t.node.next)
    requires Ordered(ViewOf(site, s, id), id) && Streamed(ViewOf(site, s, id), id, order)
    ensures Streamed(ViewOf(site, Moved(s, node), id), id, later) && order <= later
  {
    hide Base, ValidSite, Down, Ordered, CallOf, Enabled, Interrupted, ViewOf, RemovedBetween, MarksFlushed,
         FreshEvents, Kept, Ready,
         Streamed;
    later := order;
    if CallOf(site, s, action).Some? {
      var call := CallOf(site, s, action).value;
      CallReady(site, s, action, call);
      InterruptKeeps(site.cfg, s.node, call, t.node.disk, t.node.next, s.clock);
      InterruptedFresh(site.cfg, s.node, call, t.node.disk, t.node.next);
      CallMarksFlushed(site, s, action);
      later := CallStreamed(site, s, call, node, id, order);
    } else {
      EvidenceRuns.NotMoved(s);
      SameView(site, s, node, id);
    }
  }

  lemma StepStreamed(site: Site, s: System, t: System, id: string, order: seq<Record>) returns (later: seq<Record>)
    requires ValidSite(site) && Base(site, s) && EvidenceInOrder(site, s) && Step(site, s, t)
    requires Streamed(ViewOf(site, s, id), id, order)
    ensures Streamed(ViewOf(site, t, id), id, later) && order <= later
  {
    hide Completes, Dies, Base, EvidenceInOrder, ValidSite, Streamed;
    if action, error :| Completes(site, s, action, error, t) {
      later := CompletesStreamed(site, s, action, error, t, id, order);
    } else {
      var action :| Dies(site, s, action, t);
      later := DiesStreamed(site, s, action, t, id, order);
    }
  }

  // ---- Runs ----

  /** The records of the command compacted up to a moment are the first ones of the order. */
  ghost predicate CompactedFirst(t: seq<System>, k: nat, id: string, order: seq<Record>) {
    k < |t| && exists n: nat | n <= |order| :: RemovedOf(t[k].removed, id) == Sorting.Elements(order[..n])
  }

  lemma InitialStreamed(site: Site, t: seq<System>, id: string)
    requires |t| > 0 && Initial(t[0])
    ensures Streamed(ViewOf(site, t[0], id), id, []) && CompactedFirst(t, 0, id, [])
  {
    assert RemovedOf(t[0].removed, id) == Sorting.Elements([][..0]);
  }

  lemma FirstStays(t: seq<System>, k: nat, id: string, order: seq<Record>, later: seq<Record>)
    requires CompactedFirst(t, k, id, order) && order <= later
    ensures CompactedFirst(t, k, id, later)
  {
    var n: nat :| n <= |order| && RemovedOf(t[k].removed, id) == Sorting.Elements(order[..n]);
    assert later[..n] == order[..n];
  }

  lemma AllCompacted(site: Site, t: seq<System>, i: nat, id: string, order: seq<Record>)
    requires i < |t| && Streamed(ViewOf(site, t[i], id), id, order)
    ensures CompactedFirst(t, i, id, order) && RemovedOf(t[i].removed, id) == Sorting.Elements(order)
  {
    hide Stream, AllEvents, Earlier;
    assert order[..|order|] == order;
  }

  lemma {:induction false} RunStreamed(site: Site, t: seq<System>, i: nat, id: string) returns (order: seq<Record>)
    requires ValidSite(site) && Run(site, t) && i < |t|
    ensures Streamed(ViewOf(site, t[i], id), id, order)
    ensures forall k: nat | k <= i :: CompactedFirst(t, k, id, order)
  {
    hide Base, Step, ValidSite, EvidenceInOrder, Initial, Streamed, CompactedFirst;
    if i == 0 {
      InitialStreamed(site, t, id);
      order := [];
    } else {
      var before := RunStreamed(site, t, i - 1, id);
      RunOrdered(site, t, i - 1);
      RunBase(site, t, i - 1);
      order := StepStreamed(site, t[i - 1], t[i], id, before);
      AllCompacted(site, t, i, id, order);
      forall k: nat | k <= i ensures CompactedFirst(t, k, id, order) {
        if k < i { FirstStays(t, k, id, before, order); }
      }
    }
  }

  /** At every moment of every run, the posts that the inbox accepted for a command, without repeated event ids, are the
      full evidence of its compacted records, in the order in which they were compacted, followed by a prefix of the
      evidence of its stored record. */
  lemma StreamOfCommand(site: Site, t: seq<System>, i: nat, id: string) returns (order: seq<Record>)
    requires ValidSite(site) && Run(site, t) && i < |t|
    ensures Sorting.Distinct(order) && Sorting.Elements(order) == RemovedOf(t[i].removed, id)
    ensures forall k: nat | k <= i :: CompactedFirst(t, k, id, order)
    ensures var stored := HomeRecord(site, t[i].node.disk, id);
            && AllEvents(order) <= Stream(t[i].inbox, id)
            && Stream(t[i].inbox, id)[|AllEvents(order)|..] <= if stored.Some? then Events(stored.value) else []
  {
    order := RunStreamed(site, t, i, id);
    hide Run, ValidSite, Earlier, Stream, AllEvents, CompactedFirst;
  }
}
