/** All journal calls as one step relation, and what every one of them keeps, also when a crash cuts it short. */
module JournalCalls {
  import opened Wrappers
  import opened Protocol
  import opened Records
  import opened JournalStore

  datatype Call =
    | Receive(command: Command, digest: string, webhookId: string, utilization: real, maximum: real, now: Time)
    | MarkStarted(id: string, now: Time)
    | MarkRejected(id: string, errorClass: ErrorClass, errorCode: string, now: Time)
    | MarkIndeterminate(id: string, errorCode: string, now: Time)
    | MarkAccepted(id: string, messageId: string, now: Time)
    | Acknowledge(sessionId: string, message: string, status: AckStatus, occurredAt: Time, now: Time)
    | Delivered(id: string, eventId: nat, now: Time)
    | Failure(id: string, eventId: nat, error: string, now: Time)
    | Compact(now: Time)
    | Recover(now: Time)

  function TransitionOf(call: Call): Transition
    requires call.MarkStarted? || call.MarkRejected? || call.MarkIndeterminate?
  {
    match call
    case MarkStarted(_, now) => StartTransition(now)
    case MarkRejected(_, errorClass, errorCode, now) => RejectTransition(errorClass, errorCode, now)
    case MarkIndeterminate(_, errorCode, now) => IndeterminateTransition(errorCode, now)
  }

  function ErrorOf<T>(reply: Reply<T, Error>): Option<Error> {
    if reply.Done? then None else Some(reply.error)
  }

  /** The call, made on `n`, completes in `after`; `error` is what it throws, if it throws. */
  ghost predicate Returns(cfg: Config, n: Node, call: Call, after: Node, error: Option<Error>) {
    match call
    case Receive(command, digest, webhookId, utilization, maximum, now) =>
      var o := ReceiveOutcome(cfg, n, command, digest, webhookId, now, utilization, maximum);
      after == o.node && error == ErrorOf(o.reply)
    case MarkAccepted(id, messageId, now) =>
      var o := AcceptOutcome(n, id, messageId, now);
      after == o.node && error == ErrorOf(o.reply)
    case Acknowledge(sessionId, message, status, occurredAt, now) =>
      exists reply :: AcknowledgeReturns(cfg, n, sessionId, message, status, occurredAt, now, after, reply)
                      && error == ErrorOf(reply)
    case Delivered(id, eventId, now) =>
      var o := DeliveredOutcome(n, id, eventId, now);
      after == o.node && error == ErrorOf(o.reply)
    case Failure(id, eventId, message, now) =>
      var o := FailureOutcome(n, id, eventId, message, now);
      after == o.node && error == ErrorOf(o.reply)
    case Compact(now) => CompactReturns(cfg, n, now, after) && error.None?
    case Recover(now) =>
      exists reply :: RecoverReturns(n, now, after, reply) && error == ErrorOf(reply)
    case _ =>
      var o := TransitionOutcome(cfg, n, call.id, TransitionOf(call));
      after == o.node && error == ErrorOf(o.reply)
  }

  /** A crash during the call, after at least one of its storage writes, leaves `x` on disk. */
  ghost predicate Interrupted(cfg: Config, n: Node, call: Call, x: Disk, next: nat) {
    match call
    case Receive(command, digest, webhookId, utilization, maximum, now) =>
      var o := ReceiveOutcome(cfg, n, command, digest, webhookId, now, utilization, maximum);
      x in o.points && next == o.node.next
    case MarkAccepted(id, messageId, now) =>
      var o := AcceptOutcome(n, id, messageId, now);
      x in o.points && next == o.node.next
    case Acknowledge(sessionId, message, status, occurredAt, now) =>
      || (next == n.next && x == n.disk.(orphans := x.orphans) && Fewer(x.orphans, n.disk.orphans))
      || exists after, reply :: AcknowledgeReturns(cfg, n, sessionId, message, status, occurredAt, now, after, reply)
                                && x == after.disk && next == after.next
    case Delivered(id, eventId, now) =>
      var o := DeliveredOutcome(n, id, eventId, now);
      x in o.points && next == o.node.next
    case Failure(id, eventId, message, now) =>
      var o := FailureOutcome(n, id, eventId, message, now);
      x in o.points && next == o.node.next
    case Compact(now) => next == n.next && Compacting(cfg, n.disk, x, now)
    case Recover(now) => n.next <= next && Recovering(n.disk, x, now, n.next, next)
    case _ =>
      var o := TransitionOutcome(cfg, n, call.id, TransitionOf(call));
      x in o.points && next == o.node.next
  }

  /** The ways a call can change the stored records. */
  ghost predicate Moves(cfg: Config, d: Disk, call: Call, x: Disk, first: nat) {
    && (forall slot | slot in d.records && slot in x.records :: Evolves(d.records[slot], x.records[slot], call))
    && (forall slot | slot in x.records && slot !in d.records ::
          && call.Receive? && slot == HomeOf(cfg, call.command)
          && x.records[slot] == NewRecord(call.command, call.digest, call.webhookId, first, call.now))
    && (forall slot | slot in d.records && slot !in x.records :: call.Compact? && ExpiredSlot(cfg, d, slot, call.now))
  }

  predicate Transitions(call: Call) {
    call.MarkStarted? || call.MarkRejected? || call.MarkIndeterminate?
  }

  /** Only an acceptance gives a message id. Only a start, a rejection, a closing and, from STARTED, an acceptance
      change a state, each of the command it is made for, and recovery does from STARTED. */
  predicate Permitted(r: Record, s: Record, call: Call) {
    && (s.messageId == r.messageId
        || (call.MarkAccepted? && s.messageId == Some(call.messageId) && r.command.commandId == call.id))
    && (s.state == r.state || (call.Recover? && r.state.StateStarted?)
        || ((Transitions(call) || (call.MarkAccepted? && r.state.StateStarted?)) && r.command.commandId == call.id))
  }

  /** A retained record only extends, never returns to RECEIVED, and only `Delivered` delivers, one entry. */
  ghost predicate Evolves(r: Record, s: Record, call: Call) {
    && Extends(r, s) && Permitted(r, s, call)
    && (forall i | 0 <= i < |r.evidence| && s.evidence[i].deliveredAt != r.evidence[i].deliveredAt ::
          call.Delivered? && r.evidence[i].evidence.eventId == call.eventId && r.command.commandId == call.id)
    && (forall i | |r.evidence| <= i < |s.evidence| :: s.evidence[i].deliveredAt.None?)
  }

  /** The calls a connector makes: an accepted message has an id. */
  predicate WellFormed(call: Call) {
    call.MarkAccepted? ==> call.messageId != ""
  }

  // ---- One record is rewritten ----

  lemma RewriteKeeps(cfg: Config, d: Disk, slot: Slot, s: Record)
    requires Consistent(cfg, d) && slot in d.records && ValidRecord(s)
    requires KeepsIdentity(d.records[slot], s)
    ensures Consistent(cfg, SetRecord(d, slot, s))
    ensures Indexed(d) ==> Indexed(SetRecord(d, slot, s))
  {
    hide *;
    RewriteSame(d, slot, s);
    SameSlotsKeep(cfg, d, SetRecord(d, slot, s)) by { AllValid(cfg, d, slot, s); }
  }

  lemma AllValid(cfg: Config, d: Disk, slot: Slot, s: Record)
    requires Consistent(cfg, d) && slot in d.records && ValidRecord(s)
    ensures forall t | t in d.records :: ValidRecord(d.records[slot := s][t])
  {
    hide ValidRecord, HasMessage;
  }

  lemma RewriteSame(d: Disk, slot: Slot, s: Record)
    requires slot in d.records && KeepsIdentity(d.records[slot], s)
    ensures var x := SetRecord(d, slot, s);
            && x == d.(records := d.records[slot := s]) && x.records.Keys == d.records.Keys
            && forall t | t in d.records :: KeepsIdentity(d.records[t], x.records[t])
    ensures Indexed(d) ==> Indexed(SetRecord(d, slot, s))
  {
  }

  lemma SameSlotsKeep(cfg: Config, d: Disk, x: Disk)
    requires Consistent(cfg, d) && x == d.(records := x.records) && x.records.Keys == d.records.Keys
    requires forall t | t in d.records :: ValidRecord(x.records[t])
    requires forall t | t in d.records :: KeepsIdentity(d.records[t], x.records[t])
    ensures Consistent(cfg, x)
  {
    hide ValidRecord, HasMessage;
    MessagesStay(d, x);
    hide KeepsIdentity;
    forall t | t in d.records
        ensures x.records[t].command == d.records[t].command && x.records[t].digest == d.records[t].digest {
      SameIdentity(d.records[t], x.records[t]);
    }
  }

  lemma SameIdentity(r: Record, s: Record)
    requires KeepsIdentity(r, s)
    ensures s.command == r.command && s.digest == r.digest
  {
  }

  /** Message pointers stay good while every record they may mean keeps its identity. */
  lemma MessagesStay(d: Disk, x: Disk)
    requires forall slot | slot in d.records :: slot in x.records && KeepsIdentity(d.records[slot], x.records[slot])
    ensures forall m | m in d.messages ::
              (exists slot :: HasMessage(d, m, d.messages[m], slot)) ==> exists slot ::
                  HasMessage(x, m, d.messages[m], slot)
  {
    forall m | m in d.messages && exists slot :: HasMessage(d, m, d.messages[m], slot)
      ensures exists slot :: HasMessage(x, m, d.messages[m], slot)
    {
      var t :| HasMessage(d, m, d.messages[m], t);
      assert HasMessage(x, m, d.messages[m], t);
    }
  }

  ghost predicate KeepsIdentity(r: Record, s: Record) {
    && s.command == r.command && s.digest == r.digest
    && (r.messageId.Some? ==> s.messageId == r.messageId)
  }

  /** A record whose evidence grew only by undelivered entries stays timely. */
  lemma GrownTimely(r: Record, s: Record, clock: Time, now: Time)
    requires Timely(r, clock) && clock <= now && s.createdAt == r.createdAt
    requires |r.evidence| < |s.evidence| && s.evidence[..|r.evidence|] == r.evidence
    requires forall i | |r.evidence| <= i < |s.evidence| :: s.evidence[i].deliveredAt.None?
    ensures Timely(s, now)
  {
    forall i | 0 <= i < |r.evidence| ensures s.evidence[i] == r.evidence[i] {
      assert s.evidence[..|r.evidence|][i] == s.evidence[i];
    }
    assert s.evidence[|r.evidence|].deliveredAt.None?;
    assert !AllDelivered(s);
  }

  ghost predicate Grown(r: Record, s: Record) {
    && s.createdAt == r.createdAt
    && |r.evidence| <= |s.evidence| && s.evidence[..|r.evidence|] == r.evidence
    && (forall i | |r.evidence| <= i < |s.evidence| :: s.evidence[i].deliveredAt.None?)
    && (|r.evidence| == |s.evidence| ==> s == r)
  }

  /** A record left alone is as timely later, under more drawn ids, and has evolved by any call. */
  lemma Untouched(r: Record, call: Call, first: nat, next: nat, clock: Time, now: Time)
    requires DrawnBefore(r, first) && Timely(r, clock) && first <= next && clock <= now
    ensures DrawnBefore(r, next) && Timely(r, now) && Evolves(r, r, call)
  {
  }

  lemma AllUntouched(d: Disk, call: Call, first: nat, next: nat, clock: Time, now: Time)
    requires forall slot | slot in d.records :: DrawnBefore(d.records[slot], first) && Timely(d.records[slot], clock)
    requires first <= next && clock <= now
    ensures forall slot | slot in d.records ::
              DrawnBefore(d.records[slot], next) && Timely(d.records[slot], now)
              && Evolves(d.records[slot], d.records[slot], call)
  {
    forall slot | slot in d.records
      ensures DrawnBefore(d.records[slot], next) && Timely(d.records[slot], now)
              && Evolves(d.records[slot], d.records[slot], call)
    {
      Untouched(d.records[slot], call, first, next, clock, now);
    }
  }

  /** Rewriting one record by a proper evolution is a sound move. */
  lemma RewriteStep(cfg: Config, d: Disk, call: Call, slot: Slot, s: Record, first: nat, next: nat, clock: Time,
                    now: Time)
    requires Sound(cfg, d, first, clock) && clock <= now && first <= next && slot in d.records
    requires ValidRecord(s) && DrawnBefore(s, next) && Timely(s, now)
    requires Evolves(d.records[slot], s, call) && KeepsIdentity(d.records[slot], s)
    ensures Sound(cfg, SetRecord(d, slot, s), next, now)
    ensures Moves(cfg, d, call, SetRecord(d, slot, s), first)
    ensures Indexed(d) ==> Indexed(SetRecord(d, slot, s))
  {
    hide ValidRecord, DrawnBefore, Timely, Evolves, KeepsIdentity, Consistent, Indexed;
    RewriteKeeps(cfg, d, slot, s);
    AllUntouched(d, call, first, next, clock, now);
  }

  lemma GrownRecord(r: Record, s: Record, call: Call, clock: Time, now: Time)
    requires Timely(r, clock) && clock <= now && ValidRecord(r) && Extends(r, s) && Grown(r, s)
    requires Permitted(r, s, call)
    ensures Timely(s, now) && Evolves(r, s, call) && KeepsIdentity(r, s)
  {
    if |r.evidence| < |s.evidence| { GrownTimely(r, s, clock, now); }
    forall i | 0 <= i < |r.evidence| ensures s.evidence[i] == r.evidence[i] {
      assert s.evidence[..|r.evidence|][i] == s.evidence[i];
    }
  }

  /** The same for a record that only grew. */
  lemma GrownStep(cfg: Config, d: Disk, call: Call, slot: Slot, s: Record, first: nat, next: nat, clock: Time,
                  now: Time)
    requires Sound(cfg, d, first, clock) && clock <= now && first <= next && slot in d.records
    requires ValidRecord(s) && DrawnBefore(s, next) && Extends(d.records[slot], s) && Grown(d.records[slot], s)
    requires Permitted(d.records[slot], s, call)
    ensures Sound(cfg, SetRecord(d, slot, s), next, now)
    ensures Moves(cfg, d, call, SetRecord(d, slot, s), first)
    ensures Indexed(d) ==> Indexed(SetRecord(d, slot, s))
  {
    hide Lifecycle, Numbered, Timely, Extends, Grown, Moves, DrawnBefore, Permitted;
    GrownRecord(d.records[slot], s, call, clock, now);
    RewriteStep(cfg, d, call, slot, s, first, next, clock, now);
  }

  lemma AppendEvidenceGrows(r: Record, t: Transition, eventId: nat, messageId: Option<string>)
    ensures Grown(r, AppendEvidence(r, t, eventId)) || HasKind(r, t.kind)
    ensures !HasKind(r, t.kind) ==> Grown(r, AppendEvidence(r, t, eventId).(messageId := messageId))
  {
  }

  lemma AppendAckGrows(r: Record, status: AckStatus, eventId: nat, occurredAt: Time)
    ensures Grown(r, AppendAck(r, status, eventId, occurredAt))
  {
  }

  // ---- Every call ----

  /** What a call owes to every disk it leaves behind, finished or not. */
  ghost predicate Kept(cfg: Config, n: Node, call: Call, x: Disk, next: nat) {
    && Sound(cfg, x, next, call.now)
    && Moves(cfg, n.disk, call, x, n.next)
    && n.next <= next
  }

  ghost predicate Ready(cfg: Config, n: Node, call: Call, clock: Time) {
    && Sound(cfg, n.disk, n.next, clock)
    && clock <= call.now
    && (Indexed(n.disk) || call.Recover?)
    && WellFormed(call)
  }

  /** The facts about one stored record. */
  lemma StoredFacts(cfg: Config, d: Disk, id: string, next: nat, clock: Time)
    requires Sound(cfg, d, next, clock)
    ensures Locate(d, id).Done? ==>
              var slot := Locate(d, id).value;
              && slot in d.records && slot.id == id
              && var r := d.records[slot];
                 ValidRecord(r) && DrawnBefore(r, next) && Timely(r, clock) && r.command.commandId == id
  {
    hide ValidRecord, DrawnBefore, Timely;
    LocateFinds(cfg, d, id);
  }

  /** Disks that differ from the old one only in the indexes and the parked acknowledgements. */
  lemma SameRecordsStep(cfg: Config, n: Node, call: Call, x: Disk, next: nat, clock: Time)
    requires Ready(cfg, n, call, clock) && n.next <= next
    requires x.records == n.disk.records && Consistent(cfg, x)
    ensures Kept(cfg, n, call, x, next)
  {
    hide ValidRecord, DrawnBefore, Timely, Evolves, Consistent, Indexed;
    AllUntouched(n.disk, call, n.next, next, clock, call.now);
  }

  lemma IdleStep(cfg: Config, n: Node, call: Call, clock: Time)
    requires Ready(cfg, n, call, clock)
    ensures Kept(cfg, n, call, n.disk, n.next)
  {
    hide ValidRecord, DrawnBefore, Timely, Evolves, Consistent, Indexed;
    SameRecordsStep(cfg, n, call, n.disk, n.next, clock);
  }

  // -- receive

  lemma NewRecordSound(call: Call, r: Record, next: nat)
    requires call.Receive? && r == NewRecord(call.command, call.digest, call.webhookId, next, call.now)
    ensures ValidRecord(r) && DrawnBefore(r, next + 1) && Timely(r, call.now)
  {
    assert r.evidence[0].deliveredAt.None?;
  }

  lemma AddRecordConsistent(cfg: Config, d: Disk, slot: Slot, r: Record)
    requires Consistent(cfg, d) && ValidRecord(r) && slot == HomeOf(cfg, r.command)
    requires forall t | t in d.records :: t.id != slot.id
    ensures Consistent(cfg, SetRecord(d, slot, r))
  {
    hide ValidRecord, HasMessage;
    MessagesStay(d, SetRecord(d, slot, r));
  }

  /** Adding command pointers to stored records is consistent. */
  lemma MorePointers(cfg: Config, d: Disk, x: Disk)
    requires Consistent(cfg, d) && x == d.(pointers := x.pointers)
    requires forall id | id in x.pointers ::
               var slot := Slot(x.pointers[id].bucket, id);
               slot in d.records && d.records[slot].digest == x.pointers[id].digest
    ensures Consistent(cfg, x)
  {
    hide ValidRecord;
    forall m | m in x.messages ensures exists t :: HasMessage(x, m, x.messages[m], t) {
      var t :| HasMessage(d, m, d.messages[m], t);
      assert HasMessage(x, m, x.messages[m], t);
    }
  }

  lemma OnePointer(cfg: Config, d: Disk, slot: Slot, digest: string)
    requires Consistent(cfg, d) && slot in d.records && d.records[slot].digest == digest
    ensures Consistent(cfg, SetPointer(d, slot, digest))
  {
    MorePointers(cfg, d, SetPointer(d, slot, digest)) by { hide ValidRecord, HasMessage; }
  }

  lemma AddRecordStep(cfg: Config, n: Node, call: Call, slot: Slot, r: Record, clock: Time)
    requires Ready(cfg, n, call, clock) && call.Receive?
    requires forall t | t in n.disk.records :: t.id != slot.id
    requires slot == HomeOf(cfg, call.command)
             && r == NewRecord(call.command, call.digest, call.webhookId, n.next, call.now)
    ensures Kept(cfg, n, call, SetRecord(n.disk, slot, r), n.next + 1)
    ensures Kept(cfg, n, call, SetPointer(SetRecord(n.disk, slot, r), slot, call.digest), n.next + 1)
  {
    hide ValidRecord, DrawnBefore, Timely, Evolves, Consistent, Indexed;
    NewRecordSound(call, r, n.next);
    AddRecordConsistent(cfg, n.disk, slot, r);
    OnePointer(cfg, SetRecord(n.disk, slot, r), slot, call.digest);
    AllUntouched(n.disk, call, n.next, n.next + 1, clock, call.now);
  }

  lemma ReceiveStep(cfg: Config, n: Node, call: Call, clock: Time)
    requires Ready(cfg, n, call, clock) && call.Receive?
    ensures var o := ReceiveOutcome(cfg, n, call.command, call.digest, call.webhookId, call.now, call.utilization,
                                    call.maximum);
            && Kept(cfg, n, call, o.node.disk, o.node.next) && Indexed(o.node.disk)
            && forall x | x in o.points :: Kept(cfg, n, call, x, o.node.next)
  {
    hide Sound, Moves, Kept;
    if call.command.commandId in n.disk.pointers || HomeOf(cfg, call.command) in n.disk.records
       || call.maximum <= 0.0 || call.maximum > 1.0 || call.utilization >= call.maximum {
      IdleStep(cfg, n, call, clock);
    } else {
      AddRecordStep(cfg, n, call, HomeOf(cfg, call.command),
                    NewRecord(call.command, call.digest, call.webhookId, n.next, call.now), clock);
    }
  }

  // -- transitions

  lemma TransitionStep(cfg: Config, n: Node, call: Call, clock: Time)
    requires Ready(cfg, n, call, clock) && (call.MarkStarted? || call.MarkRejected? || call.MarkIndeterminate?)
    ensures var o := TransitionOutcome(cfg, n, call.id, TransitionOf(call));
            && Kept(cfg, n, call, o.node.disk, o.node.next) && Indexed(o.node.disk)
            && forall x | x in o.points :: Kept(cfg, n, call, x, o.node.next)
  {
    hide Sound, Moves, Locate, ValidRecord, DrawnBefore, Timely, Extends, Grown, Indexed, RaceFor;
    var t := TransitionOf(call);
    IdleStep(cfg, n, call, clock);
    StoredFacts(cfg, n.disk, call.id, n.next, clock);
    if Locate(n.disk, call.id).Done? {
      var slot := Locate(n.disk, call.id).value;
      TransitionGrows(n.disk.records[slot], t, n.next);
      if TransitionAllowed(n.disk.records[slot].state, t) {
        GrownStep(cfg, n.disk, call, slot, AppendEvidence(n.disk.records[slot], t, n.next), n.next, n.next + 1, clock,
                  call.now);
      }
    }
  }

  lemma TransitionGrows(r: Record, t: Transition, next: nat)
    requires ValidRecord(r) && DrawnBefore(r, next) && !t.state.StateAccepted?
    ensures TransitionAllowed(r.state, t) ==>
              var s := AppendEvidence(r, t, next);
              ValidRecord(s) && DrawnBefore(s, next + 1) && Extends(r, s) && Grown(r, s) && s.state == t.state
                  && s.messageId == r.messageId
  {
    if TransitionAllowed(r.state, t) {
      AppendEvidenceKeeps(r, t, next);
      AppendEvidenceGrows(r, t, next, None);
      assert !HasKind(r, t.kind);
    }
  }

  // -- delivery of evidence

  lemma EntryStep(r: Record, call: Call, next: nat, clock: Time)
    requires ValidRecord(r) && DrawnBefore(r, next) && Timely(r, clock) && clock <= call.now
    requires (call.Delivered? || call.Failure?) && r.command.commandId == call.id
    ensures var s := EntryMarked(r, call);
            ValidRecord(s) && DrawnBefore(s, next) && Timely(s, call.now) && Evolves(r, s, call) && KeepsIdentity(r, s)
  {
    if call.Delivered? {
      MarkDeliveredKeeps(r, call.eventId, call.now);
      DeliveryTimely(r, call.eventId, clock, call.now);
    } else {
      NoteFailureKeeps(r, call.eventId, call.error, call.now);
      FailureTimely(r, call.eventId, call.error, clock, call.now);
    }
  }

  function EntryMarked(r: Record, call: Call): Record
    requires call.Delivered? || call.Failure?
  {
    if call.Delivered? then MarkDelivered(r, call.eventId, call.now)
        else NoteFailure(r, call.eventId, call.error, call.now)
  }

  function EntryOutcome(n: Node, call: Call): Outcome<()>
    requires call.Delivered? || call.Failure?
  {
    if call.Delivered? then DeliveredOutcome(n, call.id, call.eventId, call.now)
    else FailureOutcome(n, call.id, call.eventId, call.error, call.now)
  }

  lemma EvidenceStep(cfg: Config, n: Node, call: Call, clock: Time)
    requires Ready(cfg, n, call, clock) && (call.Delivered? || call.Failure?)
    ensures var o := EntryOutcome(n, call);
            && Kept(cfg, n, call, o.node.disk, o.node.next) && Indexed(o.node.disk)
            && forall x | x in o.points :: Kept(cfg, n, call, x, o.node.next)
  {
    hide Sound, Moves, Locate, ValidRecord, DrawnBefore, Timely, Evolves, KeepsIdentity, Indexed, HasEvent,
         MarkDelivered, NoteFailure, EventIndex;
    IdleStep(cfg, n, call, clock);
    StoredFacts(cfg, n.disk, call.id, n.next, clock);
    if Locate(n.disk, call.id).Done? {
      var slot := Locate(n.disk, call.id).value;
      EntryStep(n.disk.records[slot], call, n.next, clock);
      RewriteStep(cfg, n.disk, call, slot, EntryMarked(n.disk.records[slot], call), n.next, n.next, clock, call.now);
    }
  }

  // -- acknowledgements

  /** The parked acknowledgements play no part in consistency. */
  lemma AnyOrphans(cfg: Config, d: Disk, orphans: map<string, Orphan>)
    requires Consistent(cfg, d)
    ensures Consistent(cfg, d.(orphans := orphans))
  {
    hide ValidRecord;
    var x := d.(orphans := orphans);
    forall m | m in x.messages ensures exists t :: HasMessage(x, m, x.messages[m], t) {
      var t :| HasMessage(d, m, d.messages[m], t);
      assert HasMessage(x, m, x.messages[m], t);
    }
  }

  lemma OrphansStep(cfg: Config, n: Node, call: Call, orphans: map<string, Orphan>, next: nat, clock: Time)
    requires Ready(cfg, n, call, clock) && n.next <= next
    ensures Kept(cfg, n, call, n.disk.(orphans := orphans), next)
  {
    hide ValidRecord, DrawnBefore, Timely, Evolves, Consistent, Indexed;
    AnyOrphans(cfg, n.disk, orphans);
    SameRecordsStep(cfg, n, call, n.disk.(orphans := orphans), next, clock);
  }

  lemma AckRecordStep(cfg: Config, n: Node, call: Call, slot: Slot, status: AckStatus, eventId: nat, occurredAt: Time,
                      clock: Time)
    requires Ready(cfg, n, call, clock) && slot in n.disk.records && n.next <= eventId
    requires ValidRecord(n.disk.records[slot]) && DrawnBefore(n.disk.records[slot], n.next)
    ensures var x := SetRecord(n.disk, slot, AppendAck(n.disk.records[slot], status, eventId, occurredAt));
            Kept(cfg, n, call, x, eventId + 1) && (Indexed(n.disk) ==> Indexed(x))
  {
    hide Sound, Moves, ValidRecord, DrawnBefore, Timely, Extends, Grown, Indexed, AppendAck;
    var r := n.disk.records[slot];
    AckRecordGrows(r, status, n.next, eventId, occurredAt);
    GrownStep(cfg, n.disk, call, slot, AppendAck(r, status, eventId, occurredAt), n.next, eventId + 1, clock, call.now);
  }

  lemma AckRecordGrows(r: Record, status: AckStatus, next: nat, eventId: nat, occurredAt: Time)
    requires ValidRecord(r) && DrawnBefore(r, next) && next <= eventId
    ensures var s := AppendAck(r, status, eventId, occurredAt);
            ValidRecord(s) && DrawnBefore(s, eventId + 1) && Extends(r, s) && Grown(r, s) && s.state == r.state
                && s.messageId == r.messageId
  {
    hide Lifecycle, Numbered;
    assert DrawnBefore(r, eventId);
    AppendAckKeeps(r, status, eventId, occurredAt);
    AppendAckGrows(r, status, eventId, occurredAt);
  }

  lemma AcknowledgeStep(cfg: Config, n: Node, call: Call, after: Node, reply: Reply<bool, Error>, clock: Time)
    requires Ready(cfg, n, call, clock) && call.Acknowledge?
    requires AcknowledgeReturns(cfg, n, call.sessionId, call.message, call.status, call.occurredAt, call.now, after,
                                reply)
    ensures Kept(cfg, n, call, after.disk, after.next) && Indexed(after.disk)
  {
    hide Sound, Moves, Locate, ValidRecord, DrawnBefore, Timely, AppendAck, AckIgnored, ParkedTo;
    IdleStep(cfg, n, call, clock);
    OrphansStep(cfg, n, call, after.disk.orphans, n.next, clock);
    if call.message in n.disk.messages {
      var id := n.disk.messages[call.message].commandId;
      StoredFacts(cfg, n.disk, id, n.next, clock);
      if Locate(n.disk, id).Done? {
        AckRecordStep(cfg, n, call, Locate(n.disk, id).value, call.status, n.next, call.occurredAt, clock);
      }
    }
  }

  // -- acceptance

  lemma AcceptedGrows(r: Record, messageId: string, now: Time, next: nat)
    requires ValidRecord(r) && DrawnBefore(r, next) && r.state.StateStarted? && messageId != ""
    ensures var s := AppendEvidence(r, AcceptTransition(messageId, now), next).(messageId := Some(messageId));
            ValidRecord(s) && DrawnBefore(s, next + 1) && Extends(r, s) && Grown(r, s) && s.state.StateAccepted?
  {
    AppendEvidenceKeeps(r, AcceptTransition(messageId, now), next);
    AppendEvidenceGrows(r, AcceptTransition(messageId, now), next, Some(messageId));
    assert !HasKind(r, SendAccepted);
  }

  lemma GrownTransitive(r: Record, s: Record, t: Record)
    requires Extends(r, s) && Extends(s, t) && Grown(r, s) && Grown(s, t)
    ensures Extends(r, t) && Grown(r, t)
  {
    ExtendsTransitive(r, s, t);
    assert t.evidence[..|r.evidence|] == r.evidence by {
      assert t.evidence[..|r.evidence|] == t.evidence[..|s.evidence|][..|r.evidence|];
    }
    forall i | |r.evidence| <= i < |t.evidence| ensures t.evidence[i].deliveredAt.None? {
      if i < |s.evidence| { assert t.evidence[..|s.evidence|][i] == t.evidence[i]; }
    }
  }

  /** The accepted record is on disk; the message index and the parked acknowledgements may or may not have
      followed. */
  lemma AcceptedPoint(cfg: Config, n: Node, call: Call, slot: Slot, s: Record, x: Disk, next: nat, clock: Time)
    requires Ready(cfg, n, call, clock) && call.MarkAccepted? && slot in n.disk.records && n.next <= next
    requires ValidRecord(s) && DrawnBefore(s, next) && Extends(n.disk.records[slot], s)
             && Grown(n.disk.records[slot], s) && Permitted(n.disk.records[slot], s, call)
    requires s.messageId == Some(call.messageId)
    requires x == SetRecord(n.disk, slot, s).(messages := x.messages, orphans := x.orphans)
    requires x.messages == n.disk.messages
             || x.messages == n.disk.messages[call.messageId := MessagePointer(slot.id, s.command.sessionId)]
    ensures Kept(cfg, n, call, x, next)
    ensures Indexed(n.disk) ==> Indexed(x)
  {
    hide Sound, Moves, ValidRecord, DrawnBefore, Timely, Extends, Grown, Consistent;
    var d := SetRecord(n.disk, slot, s);
    GrownStep(cfg, n.disk, call, slot, s, n.next, next, clock, call.now);
    SoundIsConsistent(cfg, d, next, call.now);
    MoreMessages(cfg, d, slot, x.messages);
    AnyOrphans(cfg, d.(messages := x.messages), x.orphans);
    KeptSame(cfg, n, call, d, x, next);
  }

  lemma KeptSame(cfg: Config, n: Node, call: Call, d: Disk, x: Disk, next: nat)
    requires Kept(cfg, n, call, d, next) && Consistent(cfg, x) && x.records == d.records
    ensures Kept(cfg, n, call, x, next)
  {
    hide ValidRecord, DrawnBefore, Timely, Evolves, Consistent;
  }

  lemma MoreMessages(cfg: Config, d: Disk, slot: Slot, messages: map<string, MessagePointer>)
    requires Consistent(cfg, d) && slot in d.records
    requires messages == d.messages
             || (d.records[slot].messageId.Some?
                 && messages == d.messages[d.records[slot].messageId.value :=
                                           MessagePointer(slot.id, d.records[slot].command.sessionId)])
    ensures Consistent(cfg, d.(messages := messages))
  {
    hide ValidRecord;
    var x := d.(messages := messages);
    forall m | m in x.messages ensures exists t :: HasMessage(x, m, x.messages[m], t) {
      if m in d.messages && x.messages[m] == d.messages[m] {
        var t :| HasMessage(d, m, d.messages[m], t);
        assert HasMessage(x, m, x.messages[m], t);
      } else {
        assert HasMessage(x, m, x.messages[m], slot);
      }
    }
  }

  lemma AcceptPointKept(cfg: Config, n: Node, call: Call, slot: Slot, x: Disk, clock: Time)
    requires Ready(cfg, n, call, clock) && call.MarkAccepted? && slot in n.disk.records
    requires ValidRecord(n.disk.records[slot]) && DrawnBefore(n.disk.records[slot], n.next)
    requires n.disk.records[slot].state.StateStarted? && AcceptPoint(n, slot, call.messageId, call.now, x)
    requires n.disk.records[slot].command.commandId == call.id
    ensures Kept(cfg, n, call, x, n.next + 2) && (Indexed(n.disk) ==> Indexed(x))
  {
    hide Sound, Moves, Kept, ValidRecord, DrawnBefore, Timely, Extends, Grown, Indexed, AppendAck, AppendEvidence;
    var r := n.disk.records[slot];
    AcceptedGrows(r, call.messageId, call.now, n.next);
    var s := AcceptedRecord(r, call.messageId, call.now, n.next);
    SameCommand(r, s);
    if x.records == n.disk.records[slot := s] {
      DrawnLater(s, n.next + 1, n.next + 2);
      AcceptedPoint(cfg, n, call, slot, s, x, n.next + 2, clock);
    } else {
      var orphan := n.disk.orphans[call.messageId];
      var t := AppendAck(s, orphan.status, n.next + 1, orphan.occurredAt);
      AckRecordGrows(s, orphan.status, n.next + 1, n.next + 1, orphan.occurredAt);
      GrownTransitive(r, s, t);
      AckSameMessage(s, orphan.status, n.next + 1, orphan.occurredAt);
      AcceptedPoint(cfg, n, call, slot, t, x, n.next + 2, clock);
    }
  }

  lemma AcceptStep(cfg: Config, n: Node, call: Call, clock: Time)
    requires Ready(cfg, n, call, clock) && call.MarkAccepted?
    ensures var o := AcceptOutcome(n, call.id, call.messageId, call.now);
            && Kept(cfg, n, call, o.node.disk, o.node.next) && Indexed(o.node.disk)
            && forall x | x in o.points :: Kept(cfg, n, call, x, o.node.next)
  {
    hide Sound, Moves, Kept, Locate, ValidRecord, DrawnBefore, Timely, Indexed, AcceptOutcome, AcceptPoint;
    IdleStep(cfg, n, call, clock);
    StoredFacts(cfg, n.disk, call.id, n.next, clock);
    AcceptShape(n, call.id, call.messageId, call.now);
    if Accepts(n.disk, call.id) {
      var o := AcceptOutcome(n, call.id, call.messageId, call.now);
      forall x | x in o.points + [o.node.disk] ensures Kept(cfg, n, call, x, o.node.next) && Indexed(x) {
        AcceptPointKept(cfg, n, call, Locate(n.disk, call.id).value, x, clock);
      }
    }
  }

  lemma SameCommand(r: Record, s: Record)
    requires Extends(r, s)
    ensures r.command == s.command
  {
  }

  lemma DrawnLater(r: Record, first: nat, next: nat)
    requires DrawnBefore(r, first) && first <= next
    ensures DrawnBefore(r, next)
  {
  }

  lemma AckSameMessage(r: Record, status: AckStatus, eventId: nat, occurredAt: Time)
    ensures var s := AppendAck(r, status, eventId, occurredAt); s.messageId == r.messageId && s.command == r.command
  {
  }

  // -- compaction

  lemma CompactingConsistent(cfg: Config, d: Disk, x: Disk, now: Time)
    requires Consistent(cfg, d) && Compacting(cfg, d, x, now)
    ensures Consistent(cfg, x)
  {
    hide ValidRecord, ExpiredSlot, HasMessage;
    forall m | m in x.messages ensures exists t :: HasMessage(x, m, x.messages[m], t) {
      var t :| HasMessage(d, m, d.messages[m], t);
      CompactedMessage(cfg, d, x, m, t, now);
    }
    hide Compacting;
  }

  lemma CompactedMessage(cfg: Config, d: Disk, x: Disk, m: string, t: Slot, now: Time)
    requires Compacting(cfg, d, x, now) && m in x.messages && m in d.messages && HasMessage(d, m, d.messages[m], t)
    ensures HasMessage(x, m, x.messages[m], t)
  {
    hide ExpiredSlot;
  }

  lemma CompactStep(cfg: Config, n: Node, call: Call, x: Disk, clock: Time)
    requires Ready(cfg, n, call, clock) && call.Compact? && Compacting(cfg, n.disk, x, call.now)
    ensures Kept(cfg, n, call, x, n.next)
  {
    hide ValidRecord, DrawnBefore, Timely, Evolves, Consistent, Indexed, Expired;
    CompactingConsistent(cfg, n.disk, x, call.now);
    AllUntouched(n.disk, call, n.next, n.next, clock, call.now);
  }

  lemma CompactIndexed(cfg: Config, n: Node, now: Time, after: Node)
    requires Consistent(cfg, n.disk) && Indexed(n.disk) && CompactReturns(cfg, n, now, after)
    ensures Indexed(after.disk)
  {
    hide ValidRecord, Expired, PrunedTo, HasMessage;
    forall slot | slot in after.disk.records ensures slot.id in after.disk.pointers {
      assert slot in n.disk.records && Slot(n.disk.pointers[slot.id].bucket, slot.id) == slot;
    }
  }

  // -- recovery

  lemma RecoveredRecord(r: Record, s: Record, call: Call, first: nat, next: nat, clock: Time)
    requires call.Recover? && ValidRecord(r) && DrawnBefore(r, first) && Timely(r, clock) && clock <= call.now
             && first <= next
    requires s == r || RecoversTo(r, s, call.now, first, next)
    ensures ValidRecord(s) && DrawnBefore(s, next) && Timely(s, call.now) && Evolves(r, s, call) && KeepsIdentity(r, s)
  {
    if s == r {
      Untouched(r, call, first, next, clock, call.now);
    } else {
      hide ValidRecord, Extends, Grown, Timely, AppendEvidence, DrawnBefore;
      ClosedRecord(r, s, call, first, next, clock);
    }
  }

  lemma ClosedRecord(r: Record, s: Record, call: Call, first: nat, next: nat, clock: Time)
    requires call.Recover? && ValidRecord(r) && DrawnBefore(r, first) && Timely(r, clock) && clock <= call.now
    requires r.state.StateStarted? && RecoversTo(r, s, call.now, first, next)
    ensures ValidRecord(s) && DrawnBefore(s, next) && Timely(s, call.now) && Evolves(r, s, call) && KeepsIdentity(r, s)
  {
    var t := IndeterminateTransition("PLUGIN_RESTART_AFTER_SEND_STARTED", call.now);
    var eventId := s.evidence[|s.evidence| - 1].evidence.eventId;
    hide Lifecycle, Numbered, AllTruthful, Extends, Grown, Timely, AppendEvidence, DrawnBefore;
    DrawnLater(r, first, eventId);
    TransitionGrows(r, t, eventId);
    GrownRecord(r, s, call, clock, call.now);
    DrawnLater(s, eventId + 1, next);
  }

  lemma RecoverStep(cfg: Config, n: Node, call: Call, x: Disk, next: nat, clock: Time)
    requires Ready(cfg, n, call, clock) && call.Recover? && n.next <= next
             && Recovering(n.disk, x, call.now, n.next, next)
    ensures Kept(cfg, n, call, x, next)
  {
    hide ValidRecord, DrawnBefore, Timely, Evolves, RecoversTo, HasMessage;
    forall slot | slot in n.disk.records
      ensures var s := x.records[slot];
              ValidRecord(s) && DrawnBefore(s, next) && Timely(s, call.now)
              && Evolves(n.disk.records[slot], s, call) && KeepsIdentity(n.disk.records[slot], s)
    {
      RecoveredRecord(n.disk.records[slot], x.records[slot], call, n.next, next, clock);
    }
    RecoveringConsistent(cfg, n.disk, x, call.now, n.next, next);
    hide Consistent;
  }

  lemma RecoveringConsistent(cfg: Config, d: Disk, x: Disk, now: Time, first: nat, next: nat)
    requires Consistent(cfg, d) && Recovering(d, x, now, first, next)
    requires forall slot | slot in d.records ::
          ValidRecord(x.records[slot]) && KeepsIdentity(d.records[slot], x.records[slot])
    ensures Consistent(cfg, x)
  {
    hide ValidRecord, RecoversTo, HasMessage;
    forall m | m in x.messages ensures exists t :: HasMessage(x, m, x.messages[m], t) {
      RecoveredPointer(d, x, m);
    }
  }

  lemma RecoveredPointer(d: Disk, x: Disk, m: string)
    requires MessagesRecovering(d, x.messages) && m in x.messages
    requires forall k | k in d.messages :: exists t :: HasMessage(d, k, d.messages[k], t)
    requires forall slot | slot in d.records :: slot in x.records && KeepsIdentity(d.records[slot], x.records[slot])
    ensures exists t :: HasMessage(x, m, x.messages[m], t)
  {
    var t :| HasMessage(d, m, x.messages[m], t);
    assert HasMessage(x, m, x.messages[m], t);
  }

  // -- all together

  /** Whatever call is made, and whether it returns, throws or is cut short by a crash between two of its storage
      writes: the disk it leaves is sound and its records only moved as `Moves` allows. Returning calls also keep
      the command index exact, and recovery makes it so. */
  lemma ReturnKeeps(cfg: Config, n: Node, call: Call, after: Node, error: Option<Error>, clock: Time)
    requires Ready(cfg, n, call, clock) && Returns(cfg, n, call, after, error)
    ensures Kept(cfg, n, call, after.disk, after.next)
    ensures !(call.Recover? && error.Some?) ==> Indexed(after.disk)
  {
    hide Sound, Moves, Kept, ReceiveOutcome, TransitionOutcome, AcceptOutcome, DeliveredOutcome, FailureOutcome,
         AcknowledgeReturns, Recovering, Compacting, Indexed;
    match call
    case Receive(_, _, _, _, _, _) => ReceiveStep(cfg, n, call, clock);
    case MarkAccepted(_, _, _) => AcceptStep(cfg, n, call, clock);
    case Acknowledge(sessionId, message, status, occurredAt, now) =>
      var reply :| AcknowledgeReturns(cfg, n, sessionId, message, status, occurredAt, now, after, reply)
                   && error == ErrorOf(reply);
      AcknowledgeStep(cfg, n, call, after, reply, clock);
    case Delivered(_, _, _) => EvidenceStep(cfg, n, call, clock);
    case Failure(_, _, _, _) => EvidenceStep(cfg, n, call, clock);
    case Compact(now) =>
      CompactStep(cfg, n, call, after.disk, clock);
      SoundIsConsistent(cfg, n.disk, n.next, clock);
      CompactIndexed(cfg, n, now, after);
    case Recover(_) => RecoverStep(cfg, n, call, after.disk, after.next, clock);
    case _ => TransitionStep(cfg, n, call, clock);
  }

  lemma SoundIsConsistent(cfg: Config, d: Disk, next: nat, clock: Time)
    requires Sound(cfg, d, next, clock)
    ensures Consistent(cfg, d)
  {
  }

  lemma InterruptKeeps(cfg: Config, n: Node, call: Call, x: Disk, next: nat, clock: Time)
    requires Ready(cfg, n, call, clock) && Interrupted(cfg, n, call, x, next)
    ensures Kept(cfg, n, call, x, next)
  {
    hide Sound, Moves, Kept, ReceiveOutcome, TransitionOutcome, AcceptOutcome, DeliveredOutcome, FailureOutcome,
         AcknowledgeReturns, Recovering, Compacting, Indexed;
    match call
    case Receive(_, _, _, _, _, _) => ReceiveStep(cfg, n, call, clock);
    case MarkAccepted(_, _, _) => AcceptStep(cfg, n, call, clock);
    case Acknowledge(sessionId, message, status, occurredAt, now) =>
      if x == n.disk.(orphans := x.orphans) && next == n.next {
        OrphansStep(cfg, n, call, x.orphans, n.next, clock);
      } else {
        var after, reply :| AcknowledgeReturns(cfg, n, sessionId, message, status, occurredAt, now, after, reply)
                            && x == after.disk && next == after.next;
        AcknowledgeStep(cfg, n, call, after, reply, clock);
      }
    case Delivered(_, _, _) => EvidenceStep(cfg, n, call, clock);
    case Failure(_, _, _, _) => EvidenceStep(cfg, n, call, clock);
    case Compact(_) => CompactStep(cfg, n, call, x, clock);
    case Recover(_) => RecoverStep(cfg, n, call, x, next, clock);
    case _ => TransitionStep(cfg, n, call, clock);
  }
}
