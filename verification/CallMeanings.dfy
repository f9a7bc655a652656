/** What each journal call does to a stored command and tells the inbox about it, in the journal's own terms: states,
    kinds of evidence, codes and times. */
module CallMeanings {
  import opened Wrappers
  import opened Protocol
  import opened Records
  import opened JournalStore
  import Sorting

  /** `s` is `r` in another state and with one more piece of evidence at the end, which nobody tried to deliver yet. */
  predicate Adds(r: Record, s: Record, state: State, kind: Kind, deliveryStatus: DeliveryStatus,
                 errorClass: Option<ErrorClass>, errorCode: Option<string>, occurredAt: Time) {
    && s.command == r.command && s.digest == r.digest && s.webhookId == r.webhookId && s.createdAt == r.createdAt
    && s.state == state && s.updatedAt == occurredAt
    && |s.evidence| == |r.evidence| + 1 && s.evidence[..|r.evidence|] == r.evidence
    && var last := s.evidence[|r.evidence|];
       && last.deliveredAt.None? && last.attempts == 0 && last.lastAttemptAt.None? && last.lastError.None?
       && last.evidence.kind == kind && last.evidence.deliveryStatus == deliveryStatus
       && last.evidence.errorClass == errorClass && last.evidence.errorCode == errorCode
       && last.evidence.occurredAt == occurredAt && last.evidence.messageId == s.messageId
       && last.evidence.sequence == |s.evidence| && last.evidence.commandId == r.command.commandId
       && last.evidence.digest == r.digest
  }

  /** A stored command under complete indexes. */
  ghost predicate Stored(cfg: Config, d: Disk, slot: Slot) {
    Consistent(cfg, d) && Indexed(d) && slot in d.records
  }

  lemma StoredLocated(cfg: Config, d: Disk, slot: Slot)
    requires Stored(cfg, d, slot)
    ensures slot in d.records && Locate(d, slot.id) == Done(slot) && ValidRecord(d.records[slot])
    ensures slot.id in d.pointers && d.pointers[slot.id] == Pointer(slot.bucket, d.records[slot].digest)
  {
    hide ValidRecord, HasMessage, Locate;
    LocateFinds(cfg, d, slot.id);
  }

  // ---- Transitions ----

  lemma AppendAdds(r: Record, t: Transition, eventId: nat)
    requires ValidRecord(r) && TransitionAllowed(r.state, t) && !t.state.StateAccepted?
    ensures Adds(r, AppendEvidence(r, t, eventId), t.state, t.kind, t.deliveryStatus, t.errorClass, t.errorCode, t.now)
  {
    assert !HasKind(r, t.kind);
    hide Numbered, AllTruthful, HasKind;
  }

  lemma TransitionIs(cfg: Config, n: Node, slot: Slot, t: Transition)
    requires Stored(cfg, n.disk, slot)
    ensures var r, o := n.disk.records[slot], TransitionOutcome(cfg, n, slot.id, t);
            if r.state == t.state || IsTerminal(r.state) then o.reply == Done(r) && o.node.disk == n.disk
            else if (t.state.StateStarted? || t.state.StateRejected?) && r.state.StateStarted? then
              o.reply == Failed(WrongState(StateStarted)) && o.node.disk == n.disk
            else
              && o.reply == Done(AppendEvidence(r, t, n.next))
              && o.node.disk == SetRecord(n.disk, slot, AppendEvidence(r, t, n.next))
  {
    StoredLocated(cfg, n.disk, slot);
    hide Locate, Stored, RaceFor, AppendEvidence, ValidRecord, SetRecord;
  }

  lemma OpenStates(state: State)
    ensures IsTerminal(state) <==> !state.StateReceived? && !state.StateStarted?
  {
  }

  lemma StartFields(now: Time)
    ensures var t := StartTransition(now);
            && TransitionAllowed(StateReceived, t) && t.state == StateStarted && t.kind == SendStarted
            && t.deliveryStatus == Pending && t.errorClass.None? && t.errorCode.None? && t.now == now
  {
  }

  lemma RejectionFields(errorClass: ErrorClass, errorCode: string, now: Time)
    ensures var t := RejectTransition(errorClass, errorCode, now);
            && TransitionAllowed(StateReceived, t) && t.state == StateRejected && t.kind == SendRejected
            && t.deliveryStatus == DeliveryStatus.Failure && t.errorClass == Some(errorClass)
            && t.errorCode == Some(errorCode) && t.now == now
  {
  }

  lemma IndeterminateFields(state: State, errorCode: string, now: Time)
    requires !IsTerminal(state)
    ensures var t := IndeterminateTransition(errorCode, now);
            && TransitionAllowed(state, t) && t.state == StateIndeterminate && t.kind == SendIndeterminate
            && t.deliveryStatus == Indeterminate && t.errorClass == Some(Ambiguous) && t.errorCode == Some(errorCode)
            && t.now == now
  {
  }

  /** A RECEIVED command is started under pending evidence without an error; a started or closed one is returned as it
      is. */
  lemma StartMeans(cfg: Config, n: Node, slot: Slot, now: Time)
    requires Stored(cfg, n.disk, slot)
    ensures var r, o := n.disk.records[slot], TransitionOutcome(cfg, n, slot.id, StartTransition(now));
            if r.state.StateReceived? then
              && o.reply.Done? && o.node.disk == SetRecord(n.disk, slot, o.reply.value)
              && Adds(r, o.reply.value, StateStarted, SendStarted, Pending, None, None, now)
            else o.reply == Done(r) && o.node.disk == n.disk
  {
    hide *;
    StoredLocated(cfg, n.disk, slot);
    TransitionIs(cfg, n, slot, StartTransition(now));
    StartFields(now);
    OpenStates(n.disk.records[slot].state);
    if n.disk.records[slot].state.StateReceived? { AppendAdds(n.disk.records[slot], StartTransition(now), n.next); }
  }

  /** A RECEIVED command is rejected under the class and the code of the caller; a started one is refused, and a closed
      one is returned as it is. */
  lemma RejectMeans(cfg: Config, n: Node, slot: Slot, errorClass: ErrorClass, errorCode: string, now: Time)
    requires Stored(cfg, n.disk, slot)
    ensures var r, o := n.disk.records[slot],
                TransitionOutcome(cfg, n, slot.id, RejectTransition(errorClass, errorCode, now));
            match r.state
            case StateReceived =>
              && o.reply.Done? && o.node.disk == SetRecord(n.disk, slot, o.reply.value)
              && Adds(r, o.reply.value, StateRejected, SendRejected, DeliveryStatus.Failure, Some(errorClass),
                      Some(errorCode), now)
            case StateStarted => o.reply == Failed(WrongState(StateStarted)) && o.node.disk == n.disk
            case _ => o.reply == Done(r) && o.node.disk == n.disk
  {
    hide *;
    StoredLocated(cfg, n.disk, slot);
    TransitionIs(cfg, n, slot, RejectTransition(errorClass, errorCode, now));
    RejectionFields(errorClass, errorCode, now);
    OpenStates(n.disk.records[slot].state);
    if n.disk.records[slot].state.StateReceived? {
      AppendAdds(n.disk.records[slot], RejectTransition(errorClass, errorCode, now), n.next);
    }
  }

  /** A command that is still open becomes indeterminate, AMBIGUOUS under the code of the caller; a closed one is
      returned as it is. */
  lemma IndeterminateMeans(cfg: Config, n: Node, slot: Slot, errorCode: string, now: Time)
    requires Stored(cfg, n.disk, slot)
    ensures var r, o := n.disk.records[slot],
                TransitionOutcome(cfg, n, slot.id, IndeterminateTransition(errorCode, now));
            if r.state.StateReceived? || r.state.StateStarted? then
              && o.reply.Done? && o.node.disk == SetRecord(n.disk, slot, o.reply.value)
              && Adds(r, o.reply.value, StateIndeterminate, SendIndeterminate, Indeterminate, Some(Ambiguous),
                      Some(errorCode), now)
            else o.reply == Done(r) && o.node.disk == n.disk
  {
    hide *;
    StoredLocated(cfg, n.disk, slot);
    TransitionIs(cfg, n, slot, IndeterminateTransition(errorCode, now));
    var state := n.disk.records[slot].state;
    OpenStates(state);
    IndeterminateFields(StateReceived, errorCode, now) by { OpenStates(StateReceived); }
    if !IsTerminal(state) {
      IndeterminateFields(state, errorCode, now);
      AppendAdds(n.disk.records[slot], IndeterminateTransition(errorCode, now), n.next);
    }
  }

  // ---- Acceptance ----

  /** The kind of evidence for an acknowledgement. */
  predicate TellsStatus(kind: Kind, status: AckStatus) {
    match status
    case StatusSent => kind.AckSent?
    case StatusDelivered => kind.AckDelivered?
    case StatusRead => kind.AckRead?
    case StatusFailed => kind.AckFailed?
  }

  /** `s` is `r`, accepted under `m`, with the evidence of the acceptance after that of `r`. */
  predicate AcceptedAs(r: Record, s: Record, m: string, now: Time) {
    && s.command == r.command && s.digest == r.digest && s.webhookId == r.webhookId && s.createdAt == r.createdAt
    && s.state.StateAccepted? && s.messageId == Some(m)
    && |r.evidence| < |s.evidence| && s.evidence[..|r.evidence|] == r.evidence
    && var entry := s.evidence[|r.evidence|];
       && entry.deliveredAt.None? && entry.attempts == 0
       && entry.evidence.kind.SendAccepted? && entry.evidence.deliveryStatus == DeliveryStatus.Accepted
       && entry.evidence.errorClass.None? && entry.evidence.errorCode.None?
       && entry.evidence.occurredAt == now && entry.evidence.messageId == Some(m)
  }

  /** The last of `n + 1` pieces of evidence is that of the acknowledgement. */
  predicate AcknowledgedLast(s: Record, n: nat, o: Orphan) {
    && |s.evidence| == n + 1
    && s.evidence[n].deliveredAt.None? && TellsStatus(s.evidence[n].evidence.kind, o.status)
    && s.evidence[n].evidence.occurredAt == o.occurredAt == s.updatedAt
    && s.evidence[n].evidence.messageId == s.messageId
  }

  /** `s` is `r` with the evidence of the acknowledgement at the end. */
  predicate Acknowledged(r: Record, s: Record, o: Orphan) {
    && s.state == r.state && s.command == r.command && s.messageId == r.messageId
    && AcknowledgedLast(s, |r.evidence|, o) && s.evidence[..|r.evidence|] == r.evidence
  }

  lemma AcceptAppends(r: Record, m: string, now: Time, eventId: nat)
    requires ValidRecord(r) && r.state.StateStarted?
    ensures var s := AcceptedRecord(r, m, now, eventId);
            AcceptedAs(r, s, m, now) && |s.evidence| == |r.evidence| + 1
            && forall status :: !HasKind(s, AckKind(status))
  {
    assert !HasKind(r, SendAccepted);
    var s := AcceptedRecord(r, m, now, eventId);
    forall status ensures !HasKind(s, AckKind(status)) {
      assert |s.evidence| == 3;
    }
  }

  lemma ParkedAppends(r: Record, s: Record, m: string, now: Time, o: Orphan, eventId: nat)
    requires AcceptedAs(r, s, m, now) && |s.evidence| == |r.evidence| + 1 && m != ""
    requires forall status :: !HasKind(s, AckKind(status))
    ensures var t := AppendAck(s, o.status, eventId, o.occurredAt);
            !AckIgnored(s, o.status) && AcceptedAs(r, t, m, now) && AcknowledgedLast(t, |r.evidence| + 1, o)
  {
    hide HasKind;
    assert !HasKind(s, AckKind(StatusSent)) && !HasKind(s, AckKind(StatusDelivered));
    assert !HasKind(s, AckKind(StatusRead));
    var t := AppendAck(s, o.status, eventId, o.occurredAt);
    assert t.evidence[..|r.evidence|] == s.evidence[..|r.evidence|];
  }

  /** Under a consistent index a message id that is listed belongs to another command than one that was just started. */
  lemma ListedElsewhere(cfg: Config, d: Disk, slot: Slot, m: string)
    requires Stored(cfg, d, slot) && d.records[slot].state.StateStarted? && m in d.messages
    ensures d.messages[m].commandId != slot.id
  {
    var other :| HasMessage(d, m, d.messages[m], other);
    assert ValidRecord(d.records[slot]);
    hide Lifecycle, Numbered, AllTruthful;
  }

  /** What accepting a started command leaves in `x`: the accepted record in any case. Unless another command has the
      message id, the index leads from it to this command, and an acknowledgement parked for it by the same session is
      recorded and forgotten. */
  predicate AcceptedInto(d: Disk, slot: Slot, m: string, now: Time, x: Disk, reply: Reply<Record, Error>)
    requires slot in d.records
  {
    var r := d.records[slot];
    && slot in x.records && x.records == d.records[slot := x.records[slot]] && x.pointers == d.pointers
    && var s := x.records[slot];
       && AcceptedAs(r, s, m, now)
       && if m in d.messages then
            && reply == Failed(MessageConflict) && x.messages == d.messages && x.orphans == d.orphans
            && |s.evidence| == |r.evidence| + 1
          else
            && reply == Done(s) && x.messages == d.messages[m := MessagePointer(slot.id, r.command.sessionId)]
            && if m in d.orphans && d.orphans[m].sessionId == r.command.sessionId
               then x.orphans == d.orphans - {m} && AcknowledgedLast(s, |r.evidence| + 1, d.orphans[m])
               else x.orphans == d.orphans && |s.evidence| == |r.evidence| + 1
  }

  /** Only a started command is accepted; a closed one is returned as it is. */
  lemma AcceptMeans(cfg: Config, n: Node, slot: Slot, m: string, now: Time)
    requires Stored(cfg, n.disk, slot) && m != ""
    ensures var r, o := n.disk.records[slot], AcceptOutcome(n, slot.id, m, now);
            match r.state
            case StateReceived => o.reply == Failed(WrongState(StateReceived)) && o.node.disk == n.disk
            case StateStarted => AcceptedInto(n.disk, slot, m, now, o.node.disk, o.reply)
            case _ => o.reply == Done(r) && o.node.disk == n.disk
  {
    StoredLocated(cfg, n.disk, slot);
    if n.disk.records[slot].state.StateStarted? {
      AcceptStarted(cfg, n, slot, m, now);
      hide *;
    } else {
      hide Stored, Locate, ValidRecord, AcceptedOutcome, AcceptedInto;
    }
  }

  lemma AcceptedFrom(n: Node, slot: Slot, m: string, now: Time, x: Disk, reply: Reply<Record, Error>)
    requires slot in n.disk.records
    requires var r := n.disk.records[slot];
             var s := AcceptedRecord(r, m, now, n.next);
             && s.command == r.command && AcceptedAs(r, s, m, now) && |s.evidence| == |r.evidence| + 1
             && x.pointers == n.disk.pointers
             && (if m in n.disk.messages then reply == Failed(MessageConflict) && x == SetRecord(n.disk, slot, s)
                 else
                   && x.messages == n.disk.messages[m := MessagePointer(slot.id, s.command.sessionId)]
                   && if m in n.disk.orphans && n.disk.orphans[m].sessionId == s.command.sessionId then
                        var o := n.disk.orphans[m];
                        var t := AppendAck(s, o.status, n.next + 1, o.occurredAt);
                        && reply == Done(t) && x.orphans == n.disk.orphans - {m}
                        && (!AckIgnored(s, o.status) ==> x.records == n.disk.records[slot := t])
                        && !AckIgnored(s, o.status) && AcceptedAs(r, t, m, now)
                        && AcknowledgedLast(t, |r.evidence| + 1, o)
                      else reply == Done(s) && x.orphans == n.disk.orphans && x.records == n.disk.records[slot := s])
    ensures AcceptedInto(n.disk, slot, m, now, x, reply)
  {
    hide AcceptedRecord, AppendAck, AckIgnored, AcceptedAs, AcknowledgedLast;
  }

  lemma AcceptStarted(cfg: Config, n: Node, slot: Slot, m: string, now: Time)
    requires Stored(cfg, n.disk, slot) && m != "" && n.disk.records[slot].state.StateStarted?
    ensures AcceptedInto(n.disk, slot, m, now, AcceptOutcome(n, slot.id, m, now).node.disk,
                         AcceptOutcome(n, slot.id, m, now).reply)
  {
    hide *;
    StoredLocated(cfg, n.disk, slot);
    var d, r := n.disk, n.disk.records[slot];
    var s := AcceptedRecord(r, m, now, n.next);
    AcceptAppends(r, m, now, n.next);
    if m in d.messages { ListedElsewhere(cfg, d, slot, m); }
    if m in d.orphans { ParkedAppends(r, s, m, now, d.orphans[m], n.next + 1); }
    AcceptFields(r, m, now, n.next);
    AcceptsAs(n, slot, m, now);
    AcceptedFrom(n, slot, m, now, AcceptOutcome(n, slot.id, m, now).node.disk, AcceptOutcome(n, slot.id, m, now).reply);
  }

  lemma AcceptFields(r: Record, m: string, now: Time, eventId: nat)
    ensures AcceptedRecord(r, m, now, eventId).command == r.command
  {
  }

  /** The outcome in terms of the accepted record and the acknowledgement appended to it. */
  lemma AcceptsAs(n: Node, slot: Slot, m: string, now: Time)
    requires slot in n.disk.records && Locate(n.disk, slot.id) == Done(slot) && n.disk.records[slot].state.StateStarted?
    requires AcceptedRecord(n.disk.records[slot], m, now, n.next).command == n.disk.records[slot].command
    requires m in n.disk.messages ==> n.disk.messages[m].commandId != slot.id
    ensures var d, o := n.disk, AcceptOutcome(n, slot.id, m, now);
            var s, x := AcceptedRecord(d.records[slot], m, now, n.next), o.node.disk;
            && x.pointers == d.pointers
            && if m in d.messages then
                 o.reply == Failed(MessageConflict) && x == SetRecord(d, slot, s)
               else
                 && x.messages == d.messages[m := MessagePointer(slot.id, s.command.sessionId)]
                 && if m in d.orphans && d.orphans[m].sessionId == s.command.sessionId then
                      var t := AppendAck(s, d.orphans[m].status, n.next + 1, d.orphans[m].occurredAt);
                      && o.reply == Done(t) && x.orphans == d.orphans - {m}
                      && (!AckIgnored(s, d.orphans[m].status) ==> x.records == d.records[slot := t])
                    else o.reply == Done(s) && x.orphans == d.orphans && x.records == d.records[slot := s]
  {
    hide Locate, AppendAck, AckIgnored, AppendEvidence;
  }

  // ---- Receipt ----

  /** A new record: RECEIVED, under one piece of pending evidence without an error. */
  predicate FreshRecord(r: Record, command: Command, digest: string, webhookId: string, now: Time) {
    && r.command == command && r.digest == digest && r.webhookId == webhookId
    && r.state.StateReceived? && r.messageId.None? && r.createdAt == r.updatedAt == now
    && |r.evidence| == 1
    && var entry := r.evidence[0];
       && entry.deliveredAt.None? && entry.attempts == 0 && entry.lastAttemptAt.None? && entry.lastError.None?
       && entry.evidence.kind.CommandReceived? && entry.evidence.deliveryStatus.Pending?
       && entry.evidence.errorClass.None? && entry.evidence.errorCode.None? && entry.evidence.messageId.None?
       && entry.evidence.sequence == 1 && entry.evidence.commandId == command.commandId
       && entry.evidence.digest == digest && entry.evidence.occurredAt == now
  }

  /** A stored command is returned as it is, or refused when the payload has another digest. A new one is refused under
      a nonsensical limit or at capacity, and otherwise stored and indexed. */
  lemma ReceiveMeans(cfg: Config, n: Node, command: Command, digest: string, webhookId: string, now: Time,
                     utilization: real, maximum: real)
    requires Consistent(cfg, n.disk)
    ensures var d, o := n.disk, ReceiveOutcome(cfg, n, command, digest, webhookId, now, utilization, maximum);
            var id, x := command.commandId, o.node.disk;
            var home := Slot(Bucket(command.sessionId, command.createdDay, cfg.shard(id)), id);
            && (forall slot | slot in d.records && slot.id == id && (id in d.pointers || slot == home) ::
                  x.records == d.records && x.messages == d.messages && x.orphans == d.orphans
                  && if d.records[slot].digest == digest
                     then o.reply == Done((d.records[slot], false)) && id in x.pointers
                     else
                       && o.reply.Failed? && (o.reply.error.PayloadConflict? || o.reply.error.BucketConflict?)
                       && x == d)
            && ((forall slot | slot in d.records :: slot.id != id) ==>
                  if maximum <= 0.0 || maximum > 1.0 then o.reply == Failed(InvalidOption) && x == d
                  else if utilization >= maximum then o.reply == Failed(OverCapacity(utilization)) && x == d
                  else
                    && o.reply.Done? && o.reply.value.1 && FreshRecord(o.reply.value.0, command, digest, webhookId, now)
                    && x == Disk(d.records[home := o.reply.value.0],
                                 d.pointers[id := Pointer(home.bucket, digest)], d.messages, d.orphans))
  {
    hide ValidRecord, HasMessage;
    NewIsFresh(command, digest, webhookId, n.next, now);
    hide NewRecord, FreshRecord;
  }

  lemma NewIsFresh(command: Command, digest: string, webhookId: string, eventId: nat, now: Time)
    ensures FreshRecord(NewRecord(command, digest, webhookId, eventId, now), command, digest, webhookId, now)
  {
  }

  // ---- Delivery ----

  function WithEntry(r: Record, i: nat, entry: Entry, now: Time): Record
    requires i < |r.evidence|
  {
    r.(evidence := r.evidence[i := entry], updatedAt := now)
  }

  lemma EntryAt(r: Record, eventId: nat, i: nat)
    requires Numbered(r) && i < |r.evidence| && r.evidence[i].evidence.eventId == eventId
    ensures HasEvent(r, eventId) && EventIndex(r, eventId) == i
  {
  }

  /** One more attempt, which delivered the entry. */
  function Delivered(entry: Entry, now: Time): Entry {
    Entry(entry.evidence, Some(now), entry.attempts + 1, Some(now), None)
  }

  /** One more attempt, which failed; the first 256 characters of the error are kept. */
  function Attempted(entry: Entry, error: string, now: Time): Entry {
    Entry(entry.evidence, None, entry.attempts + 1, Some(now), Some(if |error| <= 256 then error else error[..256]))
  }

  lemma ValidNumbered(r: Record)
    requires ValidRecord(r)
    ensures Numbered(r)
  {
  }

  lemma EventThere(r: Record, eventId: nat)
    requires HasEvent(r, eventId)
    ensures exists i :: 0 <= i < |r.evidence| && r.evidence[i].evidence.eventId == eventId
  {
  }

  lemma DeliveredAt(r: Record, eventId: nat, i: nat, now: Time)
    requires Numbered(r) && i < |r.evidence| && r.evidence[i].evidence.eventId == eventId
    ensures HasEvent(r, eventId) && EventIndex(r, eventId) == i
    ensures r.evidence[i].deliveredAt.None? ==>
              MarkDelivered(r, eventId, now) == WithEntry(r, i, Delivered(r.evidence[i], now), now)
  {
    EntryAt(r, eventId, i);
    hide Numbered, HasEvent, EventIndex;
  }

  lemma DeliveredAs(n: Node, slot: Slot, eventId: nat, now: Time)
    requires Locate(n.disk, slot.id) == Done(slot) && slot in n.disk.records
    ensures var r, o := n.disk.records[slot], DeliveredOutcome(n, slot.id, eventId, now);
            && o.reply == Done(())
            && o.node.disk == if HasEvent(r, eventId) && r.evidence[EventIndex(r, eventId)].deliveredAt.None?
                              then SetRecord(n.disk, slot, MarkDelivered(r, eventId, now)) else n.disk
  {
    hide Locate, MarkDelivered, NoteFailure, EventIndex;
  }

  /** The one entry under an event id, if it is still undelivered, is delivered now. */
  lemma DeliveredMeans(cfg: Config, n: Node, slot: Slot, eventId: nat, now: Time)
    requires Stored(cfg, n.disk, slot)
    ensures var r, o := n.disk.records[slot], DeliveredOutcome(n, slot.id, eventId, now);
            && o.reply == Done(())
            && (forall i | 0 <= i < |r.evidence| && r.evidence[i].evidence.eventId == eventId ::
                  o.node.disk == if r.evidence[i].deliveredAt.Some? then n.disk else
                    SetRecord(n.disk, slot, WithEntry(r, i, Delivered(r.evidence[i], now), now)))
            && ((forall i | 0 <= i < |r.evidence| :: r.evidence[i].evidence.eventId != eventId) ==>
                  o.node.disk == n.disk)
  {
    hide *;
    StoredLocated(cfg, n.disk, slot);
    ValidNumbered(n.disk.records[slot]);
    DeliveredAs(n, slot, eventId, now);
    var r, o := n.disk.records[slot], DeliveredOutcome(n, slot.id, eventId, now);
    forall i | 0 <= i < |r.evidence| && r.evidence[i].evidence.eventId == eventId
      ensures o.node.disk == if r.evidence[i].deliveredAt.Some? then n.disk else
                SetRecord(n.disk, slot, WithEntry(r, i, Delivered(r.evidence[i], now), now))
    {
      DeliveredAt(r, eventId, i, now);
    }
    if HasEvent(r, eventId) { EventThere(r, eventId); }
  }

  lemma FailureAt(r: Record, eventId: nat, i: nat, error: string, now: Time)
    requires Numbered(r) && i < |r.evidence| && r.evidence[i].evidence.eventId == eventId
    ensures HasEvent(r, eventId) && EventIndex(r, eventId) == i
    ensures r.evidence[i].deliveredAt.None? ==>
              NoteFailure(r, eventId, error, now) == WithEntry(r, i, Attempted(r.evidence[i], error, now), now)
  {
    EntryAt(r, eventId, i);
    hide Numbered, HasEvent, EventIndex;
  }

  lemma FailureAs(n: Node, slot: Slot, eventId: nat, error: string, now: Time)
    requires Locate(n.disk, slot.id) == Done(slot) && slot in n.disk.records
    ensures var r, o := n.disk.records[slot], FailureOutcome(n, slot.id, eventId, error, now);
            && o.reply == Done(())
            && o.node.disk == if HasEvent(r, eventId) && r.evidence[EventIndex(r, eventId)].deliveredAt.None?
                              then SetRecord(n.disk, slot, NoteFailure(r, eventId, error, now)) else n.disk
  {
    hide Locate, MarkDelivered, NoteFailure, EventIndex;
  }

  /** A failed attempt is counted at the one entry under an event id, unless that is delivered. */
  lemma FailureMeans(cfg: Config, n: Node, slot: Slot, eventId: nat, error: string, now: Time)
    requires Stored(cfg, n.disk, slot)
    ensures var r, o := n.disk.records[slot], FailureOutcome(n, slot.id, eventId, error, now);
            && o.reply == Done(())
            && (forall i | 0 <= i < |r.evidence| && r.evidence[i].evidence.eventId == eventId ::
                  o.node.disk == if r.evidence[i].deliveredAt.Some? then n.disk else
                    SetRecord(n.disk, slot, WithEntry(r, i, Attempted(r.evidence[i], error, now), now)))
            && ((forall i | 0 <= i < |r.evidence| :: r.evidence[i].evidence.eventId != eventId) ==>
                  o.node.disk == n.disk)
  {
    hide *;
    StoredLocated(cfg, n.disk, slot);
    ValidNumbered(n.disk.records[slot]);
    FailureAs(n, slot, eventId, error, now);
    var r, o := n.disk.records[slot], FailureOutcome(n, slot.id, eventId, error, now);
    forall i | 0 <= i < |r.evidence| && r.evidence[i].evidence.eventId == eventId
      ensures o.node.disk == if r.evidence[i].deliveredAt.Some? then n.disk else
                SetRecord(n.disk, slot, WithEntry(r, i, Attempted(r.evidence[i], error, now), now))
    {
      FailureAt(r, eventId, i, error, now);
    }
    if HasEvent(r, eventId) { EventThere(r, eventId); }
  }

  // ---- Acknowledgements of a known message ----

  predicate HasAck(r: Record, status: AckStatus) {
    exists i | 0 <= i < |r.evidence| :: TellsStatus(r.evidence[i].evidence.kind, status)
  }

  /** What an acknowledgement says is known already: the same, or something stronger. */
  predicate AlreadyKnown(r: Record, status: AckStatus) {
    match status
    case StatusSent => HasAck(r, StatusSent) || HasAck(r, StatusDelivered) || HasAck(r, StatusRead)
    case StatusFailed => HasAck(r, StatusFailed) || HasAck(r, StatusDelivered) || HasAck(r, StatusRead)
    case StatusDelivered => HasAck(r, StatusDelivered) || HasAck(r, StatusRead)
    case StatusRead => HasAck(r, StatusRead)
  }

  lemma HasAckIs(r: Record, status: AckStatus)
    ensures HasAck(r, status) <==> HasKind(r, AckKind(status))
  {
    if HasKind(r, AckKind(status)) {
      var i :| 0 <= i < |r.evidence| && r.evidence[i].evidence.kind == AckKind(status);
      assert TellsStatus(r.evidence[i].evidence.kind, status);
    }
  }

  lemma KnownIs(r: Record, status: AckStatus)
    requires r.state.StateAccepted? && r.messageId.Some? && r.messageId != Some("")
    ensures AckIgnored(r, status) <==> AlreadyKnown(r, status)
  {
    hide HasAck, HasKind;
    HasAckIs(r, StatusSent);
    HasAckIs(r, StatusDelivered);
    HasAckIs(r, StatusRead);
    HasAckIs(r, StatusFailed);
  }

  /** An acknowledgement for an accepted message of its session is recorded at the end of the evidence unless it says
      nothing new; one of another session is ignored. */
  lemma AcknowledgeMeans(cfg: Config, n: Node, slot: Slot, sessionId: string, m: string, status: AckStatus,
                         occurredAt: Time, now: Time, after: Node, reply: Reply<bool, Error>)
    requires Stored(cfg, n.disk, slot) && m in n.disk.messages && n.disk.records[slot].messageId == Some(m)
    requires n.disk.messages[m].commandId == slot.id
    requires AcknowledgeReturns(cfg, n, sessionId, m, status, occurredAt, now, after, reply)
    ensures var r := n.disk.records[slot];
            if sessionId != r.command.sessionId || AlreadyKnown(r, status) then
              reply == Done(false) && after.disk == n.disk
            else
              && reply == Done(true) && slot in after.disk.records
              && after.disk == SetRecord(n.disk, slot, after.disk.records[slot])
              && Acknowledged(r, after.disk.records[slot], Orphan(sessionId, status, occurredAt))
  {
    var r := n.disk.records[slot];
    StoredLocated(cfg, n.disk, slot);
    PointerSession(cfg, n.disk, slot, m);
    AcceptedFacts(r);
    KnownIs(r, status);
    if !AckIgnored(r, status) { AckAppends(r, status, n.next, occurredAt); }
    hide Stored, Locate, ValidRecord, AppendAck, AckIgnored, AlreadyKnown, Acknowledged, ParkedTo, InRace;
  }

  lemma PointerSession(cfg: Config, d: Disk, slot: Slot, m: string)
    requires Stored(cfg, d, slot) && m in d.messages && d.messages[m].commandId == slot.id
    ensures d.messages[m].sessionId == d.records[slot].command.sessionId
  {
    hide ValidRecord;
    var other :| HasMessage(d, m, d.messages[m], other);
  }

  lemma AcceptedFacts(r: Record)
    requires ValidRecord(r) && r.messageId.Some?
    ensures r.state.StateAccepted? && r.messageId != Some("")
  {
    hide Lifecycle, Numbered, AllTruthful;
  }

  lemma AckAppends(r: Record, status: AckStatus, eventId: nat, occurredAt: Time)
    requires !AckIgnored(r, status)
    ensures var s := AppendAck(r, status, eventId, occurredAt);
            forall sessionId :: Acknowledged(r, s, Orphan(sessionId, status, occurredAt))
  {
    hide AckIgnored;
  }

  // ---- Recovery ----

  /** A restart closes exactly the interrupted sends, as ambiguous, and hands out exactly the RECEIVED commands. */
  lemma RecoverMeans(cfg: Config, n: Node, now: Time, after: Node, reply: Reply<Recovery, Error>)
    requires Consistent(cfg, n.disk) && RecoverReturns(n, now, after, reply) && reply.Done?
    ensures after.disk.records.Keys == n.disk.records.Keys && after.disk.orphans == n.disk.orphans
    ensures forall slot | slot in n.disk.records ::
              var r, s := n.disk.records[slot], after.disk.records[slot];
              if r.state.StateStarted? then
                Adds(r, s, StateIndeterminate, SendIndeterminate, Indeterminate, Some(Ambiguous),
                     Some("PLUGIN_RESTART_AFTER_SEND_STARTED"), now)
              else s == r
    ensures reply.value.resumable ==
              set slot | slot in n.disk.records && n.disk.records[slot].state.StateReceived? :: n.disk.records[slot]
    ensures reply.value.indeterminate ==
              |set slot | slot in n.disk.records && n.disk.records[slot].state.StateStarted?|
  {
    hide ValidRecord, HasMessage, RecoversTo, ExactIndexes, Adds;
    forall slot | slot in n.disk.records
      ensures var r, s := n.disk.records[slot], after.disk.records[slot];
              if r.state.StateStarted? then
                Adds(r, s, StateIndeterminate, SendIndeterminate, Indeterminate, Some(Ambiguous),
                     Some("PLUGIN_RESTART_AFTER_SEND_STARTED"), now)
              else s == r
    {
      RecoversAdds(n.disk.records[slot], after.disk.records[slot], now, n.next, after.next);
    }
    SetsAgree(n.disk);
  }

  lemma RecoversAdds(r: Record, s: Record, now: Time, first: nat, next: nat)
    requires ValidRecord(r) && RecoversTo(r, s, now, first, next)
    ensures if r.state.StateStarted? then
              Adds(r, s, StateIndeterminate, SendIndeterminate, Indeterminate, Some(Ambiguous),
                   Some("PLUGIN_RESTART_AFTER_SEND_STARTED"), now)
            else s == r
  {
    if r.state.StateStarted? {
      var code := "PLUGIN_RESTART_AFTER_SEND_STARTED";
      IndeterminateFields(StateStarted, code, now);
      AppendAdds(r, IndeterminateTransition(code, now), s.evidence[|s.evidence| - 1].evidence.eventId);
      hide Adds, ValidRecord, AppendEvidence, IndeterminateTransition;
    }
  }

  lemma SetsAgree(d: Disk)
    ensures RecordsAt(d, InState(d, StateReceived)) ==
            set slot | slot in d.records && d.records[slot].state.StateReceived? :: d.records[slot]
    ensures InState(d, StateStarted) == set slot | slot in d.records && d.records[slot].state.StateStarted?
  {
  }

  // ---- Pruning ----

  /** Observed at most 30 seconds before it occurred, and within the retention after. */
  predicate InTime(cfg: Config, o: Orphan, now: Time) {
    o.occurredAt <= now + 30_000 && now - o.occurredAt <= cfg.orphanRetention
  }

  /** Pruning keeps parked acknowledgements as they are, only ones in time, as many of those as are to be retained, and
      the latest; at the same time the later message id stays. */
  lemma PruneMeans(cfg: Config, before: map<string, Orphan>, after: map<string, Orphan>, now: Time, retain: nat)
    requires PrunedTo(cfg, before, after, now, retain)
    ensures forall m | m in after :: m in before && after[m] == before[m] && InTime(cfg, before[m], now)
    ensures forall m, k | m in before && m !in after && k in after && InTime(cfg, before[m], now) ::
              before[m].occurredAt < after[k].occurredAt
              || (before[m].occurredAt == after[k].occurredAt && cfg.before(m, k))
    ensures |after| == Sorting.Min(|set m | m in before && InTime(cfg, before[m], now)|, retain)
  {
    var live := Live(cfg, before, now);
    assert live == set m | m in before && InTime(cfg, before[m], now);
    forall m, k | m in before && m !in after && k in after && InTime(cfg, before[m], now)
      ensures before[m].occurredAt < after[k].occurredAt
              || (before[m].occurredAt == after[k].occurredAt && cfg.before(m, k))
    {
      assert m in live && m !in after.Keys && k in after.Keys;
      assert Older(cfg, before, m, k);
    }
    assert after.Keys <= live;
    forall m | m in after ensures m in before && InTime(cfg, before[m], now) { assert m in after.Keys; }
  }
}
