/** Acknowledgements may come before or after the acceptance of their message, in any order: the record ends up with
    the same strongest one. */
module AckRuns {
  import opened Wrappers
  import opened Protocol
  import opened Records
  import opened JournalStore
  import opened JournalCalls

  /** A crash-free run: `seen` collects the acknowledgements taken in for each message, `lost` the messages of which
      one was turned away or evicted, or whose record is no longer retained. */
  datatype Watch = Watch(node: Node, clock: Time, seen: map<string, set<AckStatus>>, lost: set<string>)

  function Seen(w: Watch, m: string): set<AckStatus> {
    if m in w.seen then w.seen[m] else {}
  }

  /** sent < failed < delivered < read. */
  function Strongest(statuses: set<AckStatus>): Option<AckStatus> {
    if StatusRead in statuses then Some(StatusRead)
    else if StatusDelivered in statuses then Some(StatusDelivered)
    else if StatusFailed in statuses then Some(StatusFailed)
    else if StatusSent in statuses then Some(StatusSent)
    else None
  }

  /** The strongest acknowledgement among a record's evidence. */
  function StrongestOf(r: Record): Option<AckStatus> {
    Strongest(set status: AckStatus | HasKind(r, AckKind(status)))
  }

  function Rank(status: AckStatus): nat {
    match status
    case StatusSent => 0
    case StatusFailed => 1
    case StatusDelivered => 2
    case StatusRead => 3
  }

  lemma StrongestIsMaximum(statuses: set<AckStatus>)
    ensures match Strongest(statuses)
            case None => statuses == {}
            case Some(best) => best in statuses && forall s | s in statuses :: Rank(s) <= Rank(best)
  {
    if Strongest(statuses).None? {
      forall s ensures s !in statuses {
        match s case StatusSent => case StatusFailed => case StatusDelivered => case StatusRead =>
      }
    }
  }

  /** Whether an acknowledgement is taken in: by its accepted record, or because it falls into a send race and the
      time window. */
  predicate TakenIn(cfg: Config, n: Node, call: Call)
    requires call.Acknowledge?
  {
    call.message in n.disk.messages
    || (InRace(n.races, call.sessionId, call.occurredAt)
        && InWindow(cfg, Orphan(call.sessionId, call.status, call.occurredAt), call.now))
  }

  /** The messages this call makes incomparable. */
  function Dropped(cfg: Config, n: Node, call: Call, after: Node): set<string> {
    (if call.Acknowledge? && !TakenIn(cfg, n, call) then {call.message} else {})
    + (if call.MarkAccepted? && call.messageId in n.disk.messages then {call.messageId} else {})
    + (set m | m in n.disk.orphans && m !in after.disk.orphans && !(call.MarkAccepted? && call.messageId == m))
    + (set m | m in n.disk.messages && m !in after.disk.messages)
  }

  ghost predicate WatchStep(cfg: Config, session: string, w: Watch, call: Call, error: Option<Error>, v: Watch) {
    && !call.Recover? && WellFormed(call) && w.clock <= call.now == v.clock
    && (call.Receive? ==> call.command.sessionId == session)
    && (call.Acknowledge? ==> call.sessionId == session)
    && Returns(cfg, w.node, call, v.node, error)
    && v.seen == (if call.Acknowledge? && TakenIn(cfg, w.node, call)
                  then w.seen[call.message := Seen(w, call.message) + {call.status}] else w.seen)
    && v.lost == w.lost + Dropped(cfg, w.node, call, v.node)
  }

  ghost predicate WatchRun(cfg: Config, session: string, t: seq<Watch>) {
    && |t| > 0 && t[0].node.disk == Disk(map[], map[], map[], map[]) && t[0].seen == map[]
    && forall i | 0 <= i < |t| - 1 :: WatchNext(cfg, session, t[i], t[i + 1])
  }

  ghost predicate WatchNext(cfg: Config, session: string, w: Watch, v: Watch) {
    exists call, error :: WatchStep(cfg, session, w, call, error, v)
  }

  ghost predicate RecordAgrees(session: string, w: Watch, slot: Slot)
    requires slot in w.node.disk.records
  {
    var r := w.node.disk.records[slot];
    && r.command.sessionId == session
    && (r.messageId.Some? && r.messageId.value !in w.lost ==>
          HasOwnMessage(w.node.disk, slot) && StrongestOf(r) == Strongest(Seen(w, r.messageId.value)))
  }

  ghost predicate OrphanAgrees(session: string, w: Watch, m: string) {
    m !in w.lost && m !in w.node.disk.messages ==>
      if Seen(w, m) == {} then m !in w.node.disk.orphans
      else m in w.node.disk.orphans && w.node.disk.orphans[m].sessionId == session
           && Some(w.node.disk.orphans[m].status) == Strongest(Seen(w, m))
  }

  ghost predicate Agrees(session: string, w: Watch) {
    && (forall slot | slot in w.node.disk.records :: RecordAgrees(session, w, slot))
    && (forall m :: OrphanAgrees(session, w, m))
  }

  // ---- The two ways of combining acknowledgements agree with the maximum ----

  lemma OneMore(statuses: set<AckStatus>, status: AckStatus)
    ensures var best := Strongest(statuses);
            Strongest(statuses + {status})
            == if best.None? || ShouldReplaceAck(best.value, status) then Some(status) else best
  {
  }

  lemma AppendTakesMaximum(r: Record, status: AckStatus, eventId: nat, occurredAt: Time, statuses: set<AckStatus>)
    requires r.state.StateAccepted? && r.messageId.Some? && r.messageId != Some("")
    requires StrongestOf(r) == Strongest(statuses)
    ensures StrongestOf(AppendAck(r, status, eventId, occurredAt)) == Strongest(statuses + {status})
  {
    var s := AppendAck(r, status, eventId, occurredAt);
    if !AckIgnored(r, status) {
      AppendedKinds(r, s);
    }
  }

  lemma AppendedKinds(r: Record, s: Record)
    requires |s.evidence| == |r.evidence| + 1 && s.evidence[..|r.evidence|] == r.evidence
    ensures forall kind :: HasKind(s, kind) <==> HasKind(r, kind) || kind == s.evidence[|r.evidence|].evidence.kind
  {
    assert forall i | 0 <= i < |r.evidence| :: s.evidence[i] == r.evidence[i] by {
      forall i | 0 <= i < |r.evidence| ensures s.evidence[i] == r.evidence[i] {
        assert s.evidence[..|r.evidence|][i] == s.evidence[i];
      }
    }
    forall kind | HasKind(r, kind) ensures HasKind(s, kind) {
      var i :| 0 <= i < |r.evidence| && r.evidence[i].evidence.kind == kind;
      assert s.evidence[i].evidence.kind == kind;
    }
  }

  lemma SameKinds(r: Record, s: Record)
    requires |s.evidence| == |r.evidence|
    requires forall i | 0 <= i < |r.evidence| :: s.evidence[i].evidence == r.evidence[i].evidence
    ensures StrongestOf(s) == StrongestOf(r)
  {
    forall kind ensures HasKind(s, kind) <==> HasKind(r, kind) {
      if HasKind(r, kind) {
        var i :| 0 <= i < |r.evidence| && r.evidence[i].evidence.kind == kind;
        assert s.evidence[i].evidence.kind == kind;
      }
    }
  }

  // ---- Every call keeps the agreement ----

  /** One record is rewritten; indexes, parked acknowledgements and bookkeeping stay. */
  lemma RewriteAgrees(session: string, w: Watch, v: Watch, slot: Slot, s: Record)
    requires Agrees(session, w) && v.seen == w.seen && v.lost == w.lost
    requires v.node.disk == SetRecord(w.node.disk, slot, s) && s.command.sessionId == session
    requires s.messageId.None?
             || (slot in w.node.disk.records && s.messageId == w.node.disk.records[slot].messageId
                 && s.command == w.node.disk.records[slot].command
                     && StrongestOf(s) == StrongestOf(w.node.disk.records[slot]))
    ensures Agrees(session, v)
  {
    hide Strongest, StrongestOf;
    forall m ensures OrphanAgrees(session, v, m) {
      assert OrphanAgrees(session, w, m);
    }
    forall t | t in v.node.disk.records ensures RecordAgrees(session, v, t) {
      if t in w.node.disk.records { assert RecordAgrees(session, w, t); }
    }
  }

  lemma IdleAgrees(session: string, w: Watch, v: Watch)
    requires Agrees(session, w) && v.seen == w.seen && v.lost >= w.lost
    requires v.node.disk.records == w.node.disk.records && v.node.disk.messages == w.node.disk.messages
    requires forall m | m !in v.lost :: m in v.node.disk.orphans <==> m in w.node.disk.orphans
    requires forall m | m !in v.lost && m in v.node.disk.orphans :: v.node.disk.orphans[m] == w.node.disk.orphans[m]
    ensures Agrees(session, v)
  {
    hide Strongest, StrongestOf;
    forall m ensures OrphanAgrees(session, v, m) {
      assert OrphanAgrees(session, w, m);
    }
    forall t | t in v.node.disk.records ensures RecordAgrees(session, v, t) {
      assert RecordAgrees(session, w, t);
    }
  }

  lemma ReceiveAgrees(cfg: Config, session: string, w: Watch, call: Call, error: Option<Error>, v: Watch)
    requires Agrees(session, w) && WatchStep(cfg, session, w, call, error, v) && call.Receive?
    ensures Agrees(session, v)
  {
    hide Strongest, StrongestOf, Agrees;
    var o := ReceiveOutcome(cfg, w.node, call.command, call.digest, call.webhookId, call.now, call.utilization,
                            call.maximum);
    if o.node.disk.records != w.node.disk.records {
      var slot := HomeOf(cfg, call.command);
      var r := NewRecord(call.command, call.digest, call.webhookId, w.node.next, call.now);
      var x := v.(node := v.node.(disk := SetRecord(w.node.disk, slot, r)));
      RewriteAgrees(session, w, x, slot, r);
      IdleAgrees(session, x, v);
    } else {
      IdleAgrees(session, w, v);
    }
  }

  lemma TransitionAgrees(cfg: Config, session: string, w: Watch, call: Call, error: Option<Error>, v: Watch)
    requires Agrees(session, w) && WatchStep(cfg, session, w, call, error, v)
    requires Sound(cfg, w.node.disk, w.node.next, w.clock)
    requires call.MarkStarted? || call.MarkRejected? || call.MarkIndeterminate?
    ensures Agrees(session, v)
  {
    hide Strongest, StrongestOf, Sound, Locate, ValidRecord, DrawnBefore, Timely, RaceFor;
    StoredFacts(cfg, w.node.disk, call.id, w.node.next, w.clock);
    var o := TransitionOutcome(cfg, w.node, call.id, TransitionOf(call));
    if o.points == [] {
      IdleAgrees(session, w, v);
    } else {
      var slot := Locate(w.node.disk, call.id).value;
      assert RecordAgrees(session, w, slot);
      NotYetAccepted(w.node.disk.records[slot]);
      RewriteAgrees(session, w, v, slot, AppendEvidence(w.node.disk.records[slot], TransitionOf(call), w.node.next));
    }
  }

  lemma NotYetAccepted(r: Record)
    requires ValidRecord(r)
    ensures !r.state.StateAccepted? <==> r.messageId.None?
    ensures r.messageId != Some("")
  {
  }

  lemma EvidenceAgrees(cfg: Config, session: string, w: Watch, call: Call, error: Option<Error>, v: Watch)
    requires Agrees(session, w) && WatchStep(cfg, session, w, call, error, v)
    requires Sound(cfg, w.node.disk, w.node.next, w.clock) && (call.Delivered? || call.Failure?)
    ensures Agrees(session, v)
  {
    hide Strongest, StrongestOf, Sound, Locate, ValidRecord, DrawnBefore, Timely, HasEvent, MarkDelivered,
         NoteFailure, EventIndex;
    StoredFacts(cfg, w.node.disk, call.id, w.node.next, w.clock);
    if EntryOutcome(w.node, call).points == [] {
      IdleAgrees(session, w, v);
    } else {
      var slot := Locate(w.node.disk, call.id).value;
      assert RecordAgrees(session, w, slot);
      var s := EntryMarked(w.node.disk.records[slot], call);
      MarkedKinds(w.node.disk.records[slot], call);
      RewriteAgrees(session, w, v, slot, s);
    }
  }

  lemma MarkedKinds(r: Record, call: Call)
    requires call.Delivered? || call.Failure?
    ensures var s := EntryMarked(r, call);
            StrongestOf(s) == StrongestOf(r) && s.messageId == r.messageId && s.command == r.command
  {
    hide Strongest, StrongestOf;
    SameKinds(r, EntryMarked(r, call));
  }

  /** The record a message pointer leads to carries that message id. */
  lemma PointedRecord(cfg: Config, d: Disk, m: string)
    requires Consistent(cfg, d) && Indexed(d) && m in d.messages
    ensures var found := Locate(d, d.messages[m].commandId);
            && found.Done? && found.value in d.records && found.value.id == d.messages[m].commandId
            && var r := d.records[found.value];
               && r.messageId == Some(m) && r.command.sessionId == d.messages[m].sessionId && r.state.StateAccepted?
  {
    var slot :| HasMessage(d, m, d.messages[m], slot);
    LocateFinds(cfg, d, slot.id);
    NotYetAccepted(d.records[slot]);
    hide Lifecycle, Numbered;
  }

  lemma DirectWatched(cfg: Config, session: string, w: Watch, call: Call, error: Option<Error>, v: Watch, slot: Slot)
    requires WatchStep(cfg, session, w, call, error, v) && call.Acknowledge? && call.message in w.node.disk.messages
    requires Locate(w.node.disk, w.node.disk.messages[call.message].commandId) == Done(slot)
             && slot in w.node.disk.records
    requires w.node.disk.messages[call.message].sessionId == w.node.disk.records[slot].command.sessionId == session
    ensures v.node.disk ==
            SetRecord(w.node.disk, slot,
                      AppendAck(w.node.disk.records[slot], call.status, w.node.next, call.occurredAt))
    ensures v.seen == w.seen[call.message := Seen(w, call.message) + {call.status}] && w.lost <= v.lost
  {
    hide AppendAck, AckIgnored, Locate, ParkedTo, InRace, InWindow, Dropped;
    var r := w.node.disk.records[slot];
    AckIdentity(r, call.status, w.node.next, call.occurredAt);
    assert SetRecord(w.node.disk, slot, r) == w.node.disk
        by { assert w.node.disk.records[slot := r] == w.node.disk.records; }
  }

  lemma DirectAgrees(cfg: Config, session: string, w: Watch, call: Call, error: Option<Error>, v: Watch)
    requires Agrees(session, w) && WatchStep(cfg, session, w, call, error, v)
    requires Consistent(cfg, w.node.disk) && Indexed(w.node.disk)
    requires call.Acknowledge? && call.message in w.node.disk.messages
    ensures Agrees(session, v)
  {
    hide Strongest, StrongestOf, Consistent, Indexed, Locate, AppendAck, WatchStep;
    var d, m := w.node.disk, call.message;
    PointedRecord(cfg, d, m);
    var slot := Locate(d, d.messages[m].commandId).value;
    var r := d.records[slot];
    assert RecordAgrees(session, w, slot);
    var s := AppendAck(r, call.status, w.node.next, call.occurredAt);
    AckIdentity(r, call.status, w.node.next, call.occurredAt);
    DirectWatched(cfg, session, w, call, error, v, slot);
    if m !in w.lost {
      AppendTakesMaximum(r, call.status, w.node.next, call.occurredAt, Seen(w, m)) by { NonEmptyId(cfg, d, slot); }
    }
    forall other ensures OrphanAgrees(session, v, other) {
      assert OrphanAgrees(session, w, other);
    }
    forall other | other in v.node.disk.records ensures RecordAgrees(session, v, other) {
      assert RecordAgrees(session, w, other);
      if other != slot && d.records[other].messageId == Some(m) && m !in v.lost {
        SameHome(cfg, d, slot, other);
      }
    }
  }

  lemma SameHome(cfg: Config, d: Disk, s: Slot, t: Slot)
    requires Consistent(cfg, d) && s in d.records && t in d.records && s.id == t.id
    ensures s == t
  {
  }

  lemma NonEmptyId(cfg: Config, d: Disk, slot: Slot)
    requires Consistent(cfg, d) && slot in d.records
    ensures d.records[slot].messageId != Some("")
  {
  }

  lemma AckIdentity(r: Record, status: AckStatus, eventId: nat, occurredAt: Time)
    ensures var s := AppendAck(r, status, eventId, occurredAt);
            s.messageId == r.messageId && s.command == r.command && (AckIgnored(r, status) ==> s == r)
  {
  }

  lemma ParkAgrees(cfg: Config, session: string, w: Watch, call: Call, error: Option<Error>, v: Watch)
    requires Agrees(session, w) && WatchStep(cfg, session, w, call, error, v)
    requires call.Acknowledge? && call.message !in w.node.disk.messages
    ensures Agrees(session, v)
  {
    hide Strongest, StrongestOf, InRace, InWindow, AppendAck, AckIgnored, Locate, ParkedTo, Agrees;
    if TakenIn(cfg, w.node, call) {
      var o := Orphan(call.sessionId, call.status, call.occurredAt);
      assert ParkedTo(cfg, w.node.disk.orphans, call.message, o, call.now, v.node.disk.orphans);
      ParkedElsewhere(cfg, w.node.disk.orphans, call.message, o, call.now, v.node.disk.orphans);
      hide Returns, Dropped;
      assert forall m | m in w.node.disk.orphans && m !in v.node.disk.orphans :: m in v.lost by {
        EvictedAreLost(cfg, session, w, call, error, v);
      }
      TakenInAgrees(session, w, call, v);
    } else {
      UntakenSame(cfg, w.node, call, v.node, error);
      IdleAgrees(session, w, v);
    }
  }

  lemma EvictedAreLost(cfg: Config, session: string, w: Watch, call: Call, error: Option<Error>, v: Watch)
    requires WatchStep(cfg, session, w, call, error, v) && call.Acknowledge?
    ensures forall m | m in w.node.disk.orphans && m !in v.node.disk.orphans :: m in v.lost
  {
    hide Returns;
  }

  lemma UntakenSame(cfg: Config, n: Node, call: Call, after: Node, error: Option<Error>)
    requires call.Acknowledge? && Returns(cfg, n, call, after, error) && !TakenIn(cfg, n, call)
    ensures after.disk == n.disk
  {
    hide InRace, InWindow, AppendAck, AckIgnored, Locate, PrunedTo;
  }

  lemma TakenInAgrees(session: string, w: Watch, call: Call, v: Watch)
    requires Agrees(session, w) && call.Acknowledge? && call.sessionId == session
             && call.message !in w.node.disk.messages
    requires v.seen == w.seen[call.message := Seen(w, call.message) + {call.status}] && w.lost <= v.lost
    requires v.node.disk == w.node.disk.(orphans := v.node.disk.orphans)
    requires var orphans, parked, m := w.node.disk.orphans, v.node.disk.orphans, call.message;
             && (forall k | k in parked && k != m :: k in orphans && parked[k] == orphans[k])
             && (forall k | k in orphans && k !in parked :: k in v.lost)
             && m in parked
             && parked[m] == if m in orphans && !ShouldReplaceAck(orphans[m].status, call.status) then orphans[m]
                             else Orphan(session, call.status, call.occurredAt)
    ensures Agrees(session, v)
  {
    hide Strongest, StrongestOf, ShouldReplaceAck;
    var m := call.message;
    OneMore(Seen(w, m), call.status);
    StrongestNone();
    assert OrphanAgrees(session, w, m);
    forall other ensures OrphanAgrees(session, v, other) {
      assert OrphanAgrees(session, w, other);
    }
    forall slot | slot in v.node.disk.records ensures RecordAgrees(session, v, slot) {
      assert RecordAgrees(session, w, slot);
    }
  }

  lemma StrongestNone()
    ensures Strongest({}) == None
    ensures forall s: set<AckStatus> | s != {} :: Strongest(s).Some?
  {
    forall s: set<AckStatus> | s != {} ensures Strongest(s).Some? {
      StrongestIsMaximum(s);
    }
  }

  lemma ParkedElsewhere(cfg: Config, orphans: map<string, Orphan>, m: string, o: Orphan, now: Time,
                        parked: map<string, Orphan>)
    requires ParkedTo(cfg, orphans, m, o, now, parked) && InWindow(cfg, o, now)
    ensures forall k | k in parked && k != m :: k in orphans && parked[k] == orphans[k]
    ensures m in parked
    ensures parked[m] == if m in orphans && !ShouldReplaceAck(orphans[m].status, o.status) then orphans[m] else o
  {
    forall k | k in parked && k != m ensures k in orphans && parked[k] == orphans[k] {
      if m !in orphans { assert k in parked - {m}; }
    }
  }

  /** What accepting a message changes: its record, its index entry and its parked acknowledgement. Unless the message
      was lost, it is indexed and its record is `e`. */
  ghost predicate AcceptedTo(w: Watch, v: Watch, slot: Slot, m: string, e: Record) {
    var d, x := w.node.disk, v.node.disk;
    && slot in d.records && slot in x.records && x.records == d.records[slot := x.records[slot]]
    && v.seen == w.seen && w.lost <= v.lost && (m in d.messages ==> m in v.lost)
    && (forall k | k != m :: k in x.orphans <==> k in d.orphans)
    && (forall k | k in x.orphans :: k in d.orphans && x.orphans[k] == d.orphans[k])
    && (forall k | k in d.messages && k != m :: k in x.messages && x.messages[k] == d.messages[k])
    && (forall k | k in x.messages && k != m :: k in d.messages)
    && x.records[slot].messageId == Some(m) && x.records[slot].command == d.records[slot].command
    && (m !in v.lost ==>
          && x.records[slot] == e
          && m in x.messages && x.messages[m] == MessagePointer(slot.id, d.records[slot].command.sessionId))
  }

  /** The record after its acceptance and a parked acknowledgement of the same session. */
  function AcceptedWithParked(session: string, d: Disk, r: Record, m: string, now: Time, next: nat): Record {
    var s := AcceptedRecord(r, m, now, next);
    if m in d.orphans && d.orphans[m].sessionId == session then WithParked(d, s, m, next + 1) else s
  }

  lemma AcceptWatched(cfg: Config, session: string, w: Watch, call: Call, error: Option<Error>, v: Watch)
    requires WatchStep(cfg, session, w, call, error, v) && call.MarkAccepted?
    ensures v.node == AcceptOutcome(w.node, call.id, call.messageId, call.now).node
    ensures v.seen == w.seen && w.lost <= v.lost
            && (call.messageId in w.node.disk.messages ==> call.messageId in v.lost)
  {
    hide AcceptOutcome;
  }

  lemma AcceptEnds(cfg: Config, session: string, w: Watch, call: Call, error: Option<Error>, v: Watch)
    requires WatchStep(cfg, session, w, call, error, v) && call.MarkAccepted? && Accepts(w.node.disk, call.id)
    requires Locate(w.node.disk, call.id).value.id == call.id
    requires w.node.disk.records[Locate(w.node.disk, call.id).value].command.sessionId == session
    ensures var slot := Locate(w.node.disk, call.id).value;
            AcceptedTo(w, v, slot, call.messageId,
                       AcceptedWithParked(session, w.node.disk, w.node.disk.records[slot], call.messageId, call.now,
                                          w.node.next))
  {
    AcceptWatched(cfg, session, w, call, error, v);
    AcceptDisk(session, w.node, call.id, call.messageId, call.now);
    hide *;
    AcceptedFrom(w, v, Locate(w.node.disk, call.id).value, call.messageId,
                 AcceptedWithParked(session, w.node.disk, w.node.disk.records[Locate(w.node.disk, call.id).value],
                                    call.messageId,
                                    call.now, w.node.next));
  }

  lemma AcceptedFrom(w: Watch, v: Watch, slot: Slot, m: string, e: Record)
    requires var d, x := w.node.disk, v.node.disk;
             && slot in d.records && slot in x.records && x.records == d.records[slot := x.records[slot]]
             && x.records[slot].messageId == Some(m) && x.records[slot].command == d.records[slot].command
             && (x.orphans == d.orphans || x.orphans == d.orphans - {m})
             && (m !in d.messages ==>
                   x.records[slot] == e
                       && x.messages == d.messages[m := MessagePointer(slot.id, d.records[slot].command.sessionId)])
             && (m in d.messages ==> x.messages == d.messages)
    requires v.seen == w.seen && w.lost <= v.lost && (m in w.node.disk.messages ==> m in v.lost)
    ensures AcceptedTo(w, v, slot, m, e)
  {
  }

  lemma AcceptDisk(session: string, n: Node, id: string, m: string, now: Time)
    requires Accepts(n.disk, id) && Locate(n.disk, id).value.id == id
    requires n.disk.records[Locate(n.disk, id).value].command.sessionId == session
    ensures var slot, d, x := Locate(n.disk, id).value, n.disk, AcceptOutcome(n, id, m, now).node.disk;
            var r := d.records[slot];
            && slot in x.records && x.records == d.records[slot := x.records[slot]]
            && x.records[slot].messageId == Some(m) && x.records[slot].command == r.command
            && (x.orphans == d.orphans || x.orphans == d.orphans - {m})
            && (m !in d.messages ==>
                  && x.records[slot] == AcceptedWithParked(session, d, r, m, now, n.next)
                  && x.messages == d.messages[m := MessagePointer(slot.id, r.command.sessionId)])
            && (m in d.messages ==> x.messages == d.messages)
  {
    hide AcceptedRecord, AppendAck, Locate, AppendEvidence, AckIgnored, AcceptOutcome, AcceptedIndexed;
    var slot := Locate(n.disk, id).value;
    var r := n.disk.records[slot];
    var s := AcceptedRecord(r, m, now, n.next);
    AcceptOutcomeIs(n, id, m, now);
    AcceptedIdentity(r, m, now, n.next);
    if m in n.disk.orphans {
      AckIdentity(s, n.disk.orphans[m].status, n.next + 1, n.disk.orphans[m].occurredAt);
    }
  }

  lemma AcceptOutcomeIs(n: Node, id: string, messageId: string, now: Time)
    requires Accepts(n.disk, id) && Locate(n.disk, id).value.id == id
    ensures var slot := Locate(n.disk, id).value;
            var s := AcceptedRecord(n.disk.records[slot], messageId, now, n.next);
            var d, p := SetRecord(n.disk, slot, s), MessagePointer(slot.id, s.command.sessionId);
            AcceptOutcome(n, id, messageId, now).node.disk ==
              if messageId in d.messages && d.messages[messageId] != p then d
              else ApplyOrphan(d.(messages := d.messages[messageId := p]), slot, s, messageId, n.next + 1).0
  {
    hide AcceptedRecord, ApplyOrphan, Locate;
    var r := n.disk.records[Locate(n.disk, id).value];
    AcceptedCommand(r, messageId, now, n.next);
    AcceptedIs(r, messageId, now, n.next);
  }

  lemma AcceptedIs(r: Record, messageId: string, now: Time, eventId: nat)
    ensures AcceptedRecord(r, messageId, now, eventId) ==
            AppendEvidence(r, AcceptTransition(messageId, now), eventId).(messageId := Some(messageId))
  {
  }

  lemma AcceptedIdentity(r: Record, messageId: string, now: Time, eventId: nat)
    ensures var s := AcceptedRecord(r, messageId, now, eventId);
          s.messageId == Some(messageId) && s.command == r.command
  {
  }

  lemma AcceptedToAgrees(session: string, w: Watch, v: Watch, slot: Slot, m: string, e: Record)
    requires Agrees(session, w) && AcceptedTo(w, v, slot, m, e)
    requires m !in v.lost ==> StrongestOf(e) == Strongest(Seen(w, m))
    ensures Agrees(session, v)
  {
    hide Strongest, StrongestOf;
    assert RecordAgrees(session, w, slot);
    forall other ensures OrphanAgrees(session, v, other) {
      assert OrphanAgrees(session, w, other);
    }
    forall other | other in v.node.disk.records ensures RecordAgrees(session, v, other) {
      if other != slot { assert RecordAgrees(session, w, other); }
    }
  }

  /** The accepted record carries the strongest acknowledgement seen so far, which was parked. */
  lemma AcceptedStrongest(session: string, w: Watch, r: Record, m: string, now: Time)
    requires Agrees(session, w) && ValidRecord(r) && r.state.StateStarted? && m != ""
    requires m !in w.lost && m !in w.node.disk.messages
    ensures StrongestOf(AcceptedWithParked(session, w.node.disk, r, m, now, w.node.next)) == Strongest(Seen(w, m))
  {
    hide Strongest, StrongestOf, ValidRecord, AppendAck, AckIgnored, AppendEvidence;
    var d := w.node.disk;
    assert OrphanAgrees(session, w, m);
    hide Agrees;
    JustAccepted(r, m, now, w.node.next);
    StrongestNone();
    if m in d.orphans {
      AppendTakesMaximum(AcceptedRecord(r, m, now, w.node.next), d.orphans[m].status, w.node.next + 1,
                         d.orphans[m].occurredAt, {});
      SingleStrongest(d.orphans[m].status);
    }
  }

  lemma AcceptAgrees(cfg: Config, session: string, w: Watch, call: Call, error: Option<Error>, v: Watch)
    requires Agrees(session, w) && WatchStep(cfg, session, w, call, error, v) && call.MarkAccepted?
    requires Sound(cfg, w.node.disk, w.node.next, w.clock)
    ensures Agrees(session, v)
  {
    hide Strongest, StrongestOf, Sound, Locate, ValidRecord, DrawnBefore, Timely, AcceptedTo, AcceptOutcome,
         AcceptedWithParked, Agrees;
    var d, m := w.node.disk, call.messageId;
    StoredFacts(cfg, d, call.id, w.node.next, w.clock);
    AcceptShape(w.node, call.id, m, call.now);
    if Accepts(d, call.id) {
      var slot := Locate(d, call.id).value;
      AgreesAt(session, w, slot);
      AcceptEnds(cfg, session, w, call, error, v);
      var e := AcceptedWithParked(session, d, d.records[slot], m, call.now, w.node.next);
      if m !in v.lost { AcceptedStrongest(session, w, d.records[slot], m, call.now); }
      AcceptedToAgrees(session, w, v, slot, m, e);
    } else {
      IdleAgrees(session, w, v);
    }
  }

  lemma AgreesAt(session: string, w: Watch, slot: Slot)
    requires Agrees(session, w) && slot in w.node.disk.records
    ensures w.node.disk.records[slot].command.sessionId == session
  {
    assert RecordAgrees(session, w, slot);
  }

  lemma SingleStrongest(status: AckStatus)
    ensures Strongest({} + {status}) == Some(status)
  {
  }

  lemma JustAccepted(r: Record, messageId: string, now: Time, eventId: nat)
    requires ValidRecord(r) && r.state.StateStarted?
    ensures var s := AppendEvidence(r, AcceptTransition(messageId, now), eventId).(messageId := Some(messageId));
            s.state.StateAccepted? && s.command == r.command && StrongestOf(s) == Strongest({})
  {
    var s := AppendEvidence(r, AcceptTransition(messageId, now), eventId).(messageId := Some(messageId));
    assert !HasKind(r, SendAccepted);
    forall status ensures !HasKind(s, AckKind(status)) {
    }
    assert (set status: AckStatus | HasKind(s, AckKind(status))) == {};
  }

  lemma CompactAgrees(cfg: Config, session: string, w: Watch, call: Call, error: Option<Error>, v: Watch)
    requires Agrees(session, w) && WatchStep(cfg, session, w, call, error, v) && call.Compact?
    ensures Agrees(session, v)
  {
    hide Strongest, StrongestOf, PrunedTo, Expired;
    forall m ensures OrphanAgrees(session, v, m) {
      assert OrphanAgrees(session, w, m);
    }
    forall slot | slot in v.node.disk.records ensures RecordAgrees(session, v, slot) {
      assert RecordAgrees(session, w, slot);
    }
  }

  lemma WatchKeeps(cfg: Config, session: string, w: Watch, call: Call, error: Option<Error>, v: Watch)
    requires Agrees(session, w) && WatchStep(cfg, session, w, call, error, v)
    requires Sound(cfg, w.node.disk, w.node.next, w.clock) && Indexed(w.node.disk)
    ensures Agrees(session, v)
  {
    SoundIsConsistent(cfg, w.node.disk, w.node.next, w.clock);
    hide Agrees, WatchStep, Sound, Indexed, Consistent;
    assert !call.Recover? by { NoRecovery(cfg, session, w, call, error, v); }
    match call
    case Receive(_, _, _, _, _, _) => ReceiveAgrees(cfg, session, w, call, error, v);
    case MarkAccepted(_, _, _) => AcceptAgrees(cfg, session, w, call, error, v);
    case Acknowledge(_, _, _, _, _) =>
      if call.message in w.node.disk.messages {
        DirectAgrees(cfg, session, w, call, error, v);
      } else {
        ParkAgrees(cfg, session, w, call, error, v);
      }
    case Delivered(_, _, _) => EvidenceAgrees(cfg, session, w, call, error, v);
    case Failure(_, _, _, _) => EvidenceAgrees(cfg, session, w, call, error, v);
    case Compact(_) => CompactAgrees(cfg, session, w, call, error, v);
    case _ => TransitionAgrees(cfg, session, w, call, error, v);
  }

  lemma NoRecovery(cfg: Config, session: string, w: Watch, call: Call, error: Option<Error>, v: Watch)
    requires WatchStep(cfg, session, w, call, error, v)
    ensures !call.Recover?
  {
  }

  ghost predicate WatchInvariant(cfg: Config, session: string, w: Watch) {
    Sound(cfg, w.node.disk, w.node.next, w.clock) && Indexed(w.node.disk) && Agrees(session, w)
  }

  lemma {:induction false} WatchRunKeeps(cfg: Config, session: string, t: seq<Watch>, i: nat)
    requires WatchRun(cfg, session, t) && i < |t|
    ensures WatchInvariant(cfg, session, t[i])
  {
    if i > 0 {
      WatchRunKeeps(cfg, session, t, i - 1);
      assert WatchNext(cfg, session, t[i - 1], t[i - 1 + 1]);
      var call, error :| WatchStep(cfg, session, t[i - 1], call, error, t[i]);
      hide WatchRun, Sound, Indexed, Agrees, Returns, Kept;
      WatchKeeps(cfg, session, t[i - 1], call, error, t[i]);
      ReturnKeeps(cfg, t[i - 1].node, call, t[i].node, error, t[i - 1].clock);
      KeptSound(cfg, t[i - 1].node, call, t[i].node.disk, t[i].node.next);
    }
  }

  lemma KeptSound(cfg: Config, n: Node, call: Call, x: Disk, next: nat)
    requires Kept(cfg, n, call, x, next)
    ensures Sound(cfg, x, next, call.now)
  {
  }

  /** In a crash-free run, the strongest acknowledgement among the evidence of an accepted record is the maximum of
      all acknowledgements taken in for its message, whatever their order and wherever the acceptance fell among
      them, unless one was turned away or evicted. */
  lemma AcknowledgementsConfluent(cfg: Config, session: string, t: seq<Watch>, i: nat, slot: Slot)
    requires WatchRun(cfg, session, t) && i < |t|
    requires slot in t[i].node.disk.records
    ensures var r := t[i].node.disk.records[slot];
            r.messageId.Some? && r.messageId.value !in t[i].lost ==>
              StrongestOf(r) == Strongest(Seen(t[i], r.messageId.value))
  {
    WatchRunKeeps(cfg, session, t, i);
    hide WatchRun, Sound, Indexed;
    assert RecordAgrees(session, t[i], slot);
  }

  /** The same for a message still waiting for its acceptance: what is parked is the maximum so far. */
  lemma ParkedIsMaximum(cfg: Config, session: string, t: seq<Watch>, i: nat, m: string)
    requires WatchRun(cfg, session, t) && i < |t| && m !in t[i].lost && m !in t[i].node.disk.messages
    ensures if m in t[i].node.disk.orphans then Some(t[i].node.disk.orphans[m].status) == Strongest(Seen(t[i], m))
            else Seen(t[i], m) == {}
  {
    WatchRunKeeps(cfg, session, t, i);
    hide WatchRun, Sound, Indexed;
    assert OrphanAgrees(session, t[i], m);
  }
}
