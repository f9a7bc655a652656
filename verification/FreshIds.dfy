/** Every journal call numbers the evidence it adds with event ids drawn during the call. */
module FreshIds {
  import opened Wrappers
  import opened Protocol
  import opened Records
  import opened JournalStore
  import opened JournalCalls

  ghost predicate NewEvents(r: Record, s: Record, first: nat) {
    forall i | |r.evidence| <= i < |s.evidence| :: first <= s.evidence[i].evidence.eventId
  }

  ghost predicate FreshEvents(d: Disk, x: Disk, first: nat) {
    forall slot | slot in d.records && slot in x.records :: NewEvents(d.records[slot], x.records[slot], first)
  }

  lemma SameRecordsFresh(d: Disk, x: Disk, first: nat)
    requires forall slot | slot in d.records && slot in x.records :: x.records[slot] == d.records[slot]
    ensures FreshEvents(d, x, first)
  {
  }

  lemma OneRecordFresh(d: Disk, x: Disk, slot: Slot, s: Record, first: nat)
    requires slot in d.records && NewEvents(d.records[slot], s, first)
    requires x.records == d.records[slot := s]
    ensures FreshEvents(d, x, first)
  {
  }

  lemma AppendsFresh(r: Record, t: Transition, eventId: nat, first: nat)
    requires first <= eventId
    ensures NewEvents(r, AppendEvidence(r, t, eventId), first)
  {
  }

  lemma AckFresh(r: Record, s: Record, status: AckStatus, eventId: nat, occurredAt: Time, first: nat)
    requires first <= eventId && NewEvents(r, s, first)
    ensures NewEvents(r, AppendAck(s, status, eventId, occurredAt), first)
  {
  }

  lemma TransitionFresh(cfg: Config, n: Node, id: string, t: Transition)
    ensures var o := TransitionOutcome(cfg, n, id, t);
            FreshEvents(n.disk, o.node.disk, n.next) && forall x | x in o.points :: FreshEvents(n.disk, x, n.next)
  {
    hide AppendEvidence, NewEvents, RaceFor, Locate;
    if Locate(n.disk, id).Done? && Locate(n.disk, id).value in n.disk.records {
      AppendsFresh(n.disk.records[Locate(n.disk, id).value], t, n.next, n.next);
    }
    SameRecordsFresh(n.disk, n.disk, n.next);
    LocateStored(n.disk, id);
  }

  lemma ReceiveFresh(cfg: Config, n: Node, call: Call)
    requires call.Receive?
    ensures var o := ReceiveOutcome(cfg, n, call.command, call.digest, call.webhookId, call.now, call.utilization,
                                    call.maximum);
            FreshEvents(n.disk, o.node.disk, n.next) && forall x | x in o.points :: FreshEvents(n.disk, x, n.next)
  {
    hide FreshEvents, HomeOf, HasBucket;
    var o := ReceiveOutcome(cfg, n, call.command, call.digest, call.webhookId, call.now, call.utilization,
                            call.maximum);
    forall x | x in o.points + [o.node.disk]
        ensures FreshEvents(n.disk, x, n.next) { SameRecordsFresh(n.disk, x, n.next); }
  }

  lemma EvidenceFresh(n: Node, call: Call)
    requires call.Delivered? || call.Failure?
    ensures var o := if call.Delivered? then DeliveredOutcome(n, call.id, call.eventId, call.now)
                     else FailureOutcome(n, call.id, call.eventId, call.error, call.now);
            FreshEvents(n.disk, o.node.disk, n.next) && forall x | x in o.points :: FreshEvents(n.disk, x, n.next)
  {
    hide Locate;
    LocateStored(n.disk, call.id);
  }

  lemma AcceptFresh(n: Node, id: string, messageId: string, now: Time)
    ensures var o := AcceptOutcome(n, id, messageId, now);
            FreshEvents(n.disk, o.node.disk, n.next) && forall x | x in o.points :: FreshEvents(n.disk, x, n.next)
  {
    hide AppendEvidence, AppendAck, NewEvents, Locate, FreshEvents, AcceptOutcome;
    SameRecordsFresh(n.disk, n.disk, n.next);
    AcceptShape(n, id, messageId, now);
    if Accepts(n.disk, id) {
      var o, slot := AcceptOutcome(n, id, messageId, now), Locate(n.disk, id).value;
      var r := n.disk.records[slot];
      var s := AcceptedRecord(r, messageId, now, n.next);
      AcceptsFresh(r, messageId, now, n.next);
      if messageId in n.disk.orphans {
        AckFresh(r, s, n.disk.orphans[messageId].status, n.next + 1, n.disk.orphans[messageId].occurredAt, n.next);
      }
      forall x | x in o.points + [o.node.disk] ensures FreshEvents(n.disk, x, n.next) {
        assert AcceptPoint(n, slot, messageId, now, x);
        OneRecordFresh(n.disk, x, slot, x.records[slot], n.next);
      }
    }
  }

  lemma AcceptsFresh(r: Record, messageId: string, now: Time, eventId: nat)
    ensures NewEvents(r, AppendEvidence(r, AcceptTransition(messageId, now), eventId).(messageId := Some(messageId)),
                      eventId)
  {
  }

  lemma AcknowledgeFresh(cfg: Config, n: Node, call: Call, after: Node, reply: Reply<bool, Error>)
    requires call.Acknowledge?
    requires AcknowledgeReturns(cfg, n, call.sessionId, call.message, call.status, call.occurredAt, call.now, after,
                                reply)
    ensures FreshEvents(n.disk, after.disk, n.next)
  {
    hide AppendAck, AckIgnored, NewEvents, Locate, FreshEvents, ParkedTo, InRace;
    if call.message in n.disk.messages {
      var id := n.disk.messages[call.message].commandId;
      LocateStored(n.disk, id);
      if Locate(n.disk, id).Done? && after.disk != n.disk {
        var slot := Locate(n.disk, id).value;
        var r := n.disk.records[slot];
        NoneFresh(r, n.next);
        AckFresh(r, r, call.status, n.next, call.occurredAt, n.next);
        OneRecordFresh(n.disk, after.disk, slot, AppendAck(r, call.status, n.next, call.occurredAt), n.next);
      } else {
        SameRecordsFresh(n.disk, after.disk, n.next);
      }
    } else {
      SameRecordsFresh(n.disk, after.disk, n.next);
    }
  }

  lemma NoneFresh(r: Record, first: nat)
    ensures NewEvents(r, r, first)
  {
  }

  lemma RecoverFresh(d: Disk, x: Disk, now: Time, first: nat, next: nat)
    requires Recovering(d, x, now, first, next)
    ensures FreshEvents(d, x, first)
  {
    hide AppendEvidence, NewEvents, PointersRecovering, MessagesRecovering;
    forall slot | slot in d.records && slot in x.records ensures NewEvents(d.records[slot], x.records[slot], first) {
      var r, s := d.records[slot], x.records[slot];
      NoneFresh(r, first);
      if s != r {
        var eventId := s.evidence[|s.evidence| - 1].evidence.eventId;
        AppendsFresh(r, IndeterminateTransition("PLUGIN_RESTART_AFTER_SEND_STARTED", now), eventId, first);
      }
    }
  }

  lemma ReturnsFresh(cfg: Config, n: Node, call: Call, after: Node, error: Option<Error>)
    requires Returns(cfg, n, call, after, error)
    ensures FreshEvents(n.disk, after.disk, n.next)
  {
    hide ReceiveOutcome, TransitionOutcome, AcceptOutcome, DeliveredOutcome, FailureOutcome, AcknowledgeReturns,
         Recovering,
         FreshEvents;
    match call
    case Receive(_, _, _, _, _, _) => ReceiveFresh(cfg, n, call);
    case MarkAccepted(id, messageId, now) => AcceptFresh(n, id, messageId, now);
    case Acknowledge(sessionId, message, status, occurredAt, now) =>
      var reply :| AcknowledgeReturns(cfg, n, sessionId, message, status, occurredAt, now, after, reply)
                   && error == ErrorOf(reply);
      AcknowledgeFresh(cfg, n, call, after, reply);
    case Delivered(_, _, _) => EvidenceFresh(n, call);
    case Failure(_, _, _, _) => EvidenceFresh(n, call);
    case Compact(now) => CompactFresh(cfg, n.disk, after.disk, now, n.next);
    case Recover(now) => RecoverFresh(n.disk, after.disk, now, n.next, after.next);
    case _ => TransitionFresh(cfg, n, call.id, TransitionOf(call));
  }

  lemma CompactFresh(cfg: Config, d: Disk, x: Disk, now: Time, first: nat)
    requires Compacting(cfg, d, x, now)
    ensures FreshEvents(d, x, first)
  {
    hide ExpiredSlot;
  }

  lemma InterruptedFresh(cfg: Config, n: Node, call: Call, x: Disk, next: nat)
    requires Interrupted(cfg, n, call, x, next)
    ensures FreshEvents(n.disk, x, n.next)
  {
    hide ReceiveOutcome, TransitionOutcome, AcceptOutcome, DeliveredOutcome, FailureOutcome, AcknowledgeReturns,
         Recovering,
         FreshEvents;
    match call
    case Receive(_, _, _, _, _, _) => ReceiveFresh(cfg, n, call);
    case MarkAccepted(id, messageId, now) => AcceptFresh(n, id, messageId, now);
    case Acknowledge(sessionId, message, status, occurredAt, now) =>
      if x == n.disk.(orphans := x.orphans) && next == n.next {
        SameRecordsFresh(n.disk, x, n.next);
      } else {
        var after, reply :| AcknowledgeReturns(cfg, n, sessionId, message, status, occurredAt, now, after, reply)
                            && x == after.disk && next == after.next;
        AcknowledgeFresh(cfg, n, call, after, reply);
      }
    case Delivered(_, _, _) => EvidenceFresh(n, call);
    case Failure(_, _, _, _) => EvidenceFresh(n, call);
    case Compact(now) => CompactFresh(cfg, n.disk, x, now, n.next);
    case Recover(now) => RecoverFresh(n.disk, x, now, n.next, next);
    case _ => TransitionFresh(cfg, n, call.id, TransitionOf(call));
  }
}
