/** One command's journal record and the two ways evidence is appended to it. */
module Records {
  import opened Wrappers
  import opened Protocol

  datatype State = StateReceived | StateStarted | StateAccepted | StateRejected | StateIndeterminate

  datatype Entry = Entry(
    evidence: Evidence, deliveredAt: Option<Time>, attempts: nat,
    lastAttemptAt: Option<Time>, lastError: Option<string>)

  datatype Record = Record(
    command: Command, digest: string, webhookId: string, state: State, messageId: Option<string>,
    evidence: seq<Entry>, createdAt: Time, updatedAt: Time)

  datatype Transition = Transition(
    state: State, kind: Kind, deliveryStatus: DeliveryStatus, errorClass: Option<ErrorClass>,
    errorCode: Option<string>, messageId: Option<string>, now: Time)

  predicate IsTerminal(state: State) {
    state.StateAccepted? || state.StateRejected? || state.StateIndeterminate?
  }

  predicate HasKind(r: Record, kind: Kind) {
    exists i | 0 <= i < |r.evidence| :: r.evidence[i].evidence.kind == kind
  }

  predicate AllDelivered(r: Record) {
    forall i | 0 <= i < |r.evidence| :: r.evidence[i].deliveredAt.Some?
  }

  function PendingEntry(evidence: Evidence): Entry {
    Entry(evidence, None, 0, None, None)
  }

  function MessageOr(first: Option<string>, second: Option<string>): Option<string> {
    if first.Some? then first else second
  }

  /** The record written when a command is first received. */
  function NewRecord(command: Command, digest: string, webhookId: string, eventId: nat, now: Time): Record {
    Record(command, digest, webhookId, StateReceived, None,
           [PendingEntry(Evidence(eventId, command.commandId, 1, CommandReceived, None, Pending, None, None, digest,
                                  now))],
           now, now)
  }

  function AppendEvidence(r: Record, t: Transition, eventId: nat): Record {
    if HasKind(r, t.kind) then r else
    var e := Evidence(eventId, r.command.commandId, |r.evidence| + 1, t.kind, MessageOr(t.messageId, r.messageId),
                      t.deliveryStatus, t.errorClass, t.errorCode, r.digest, t.now);
    r.(evidence := r.evidence + [PendingEntry(e)], state := t.state, updatedAt := t.now)
  }

  /** Whether an acknowledgement says nothing new about the record. */
  predicate AckIgnored(r: Record, status: AckStatus) {
    || r.messageId.None? || r.messageId == Some("") || !r.state.StateAccepted?
    || (status.StatusSent? && (HasKind(r, AckSent) || HasKind(r, AckDelivered) || HasKind(r, AckRead)))
    || (status.StatusDelivered? && HasKind(r, AckRead))
    || (status.StatusFailed? && (HasKind(r, AckDelivered) || HasKind(r, AckRead)))
    || HasKind(r, AckKind(status))
  }

  function AppendAck(r: Record, status: AckStatus, eventId: nat, occurredAt: Time): Record {
    if AckIgnored(r, status) then r else
    var failed := status.StatusFailed?;
    var e := Evidence(eventId, r.command.commandId, |r.evidence| + 1, AckKind(status), r.messageId, AckDelivery(status),
                      if failed then Some(TransientFailure) else None,
                      if failed then Some("OPENWA_DELIVERY_FAILED") else None, r.digest, occurredAt);
    r.(evidence := r.evidence + [PendingEntry(e)], updatedAt := occurredAt)
  }

  predicate HasEvent(r: Record, eventId: nat) {
    exists i | 0 <= i < |r.evidence| :: r.evidence[i].evidence.eventId == eventId
  }

  /** The position of the first entry with this event id. */
  function EventIndex(r: Record, eventId: nat, from: nat := 0): (i: nat)
    requires exists j | from <= j < |r.evidence| :: r.evidence[j].evidence.eventId == eventId
    ensures from <= i < |r.evidence| && r.evidence[i].evidence.eventId == eventId
    ensures forall j | from <= j < i :: r.evidence[j].evidence.eventId != eventId
    decreases |r.evidence| - from
  {
    if r.evidence[from].evidence.eventId == eventId then from else EventIndex(r, eventId, from + 1)
  }

  /** A post that the inbox has acknowledged; a second mark of the same event changes nothing. */
  function MarkDelivered(r: Record, eventId: nat, now: Time): Record {
    if !HasEvent(r, eventId) then r else
    var i := EventIndex(r, eventId);
    var e := r.evidence[i];
    if e.deliveredAt.Some? then r else
    r.(evidence := r.evidence[i := Entry(e.evidence, Some(now), e.attempts + 1, Some(now), None)], updatedAt := now)
  }

  function NoteFailure(r: Record, eventId: nat, error: string, now: Time): Record {
    if !HasEvent(r, eventId) then r else
    var i := EventIndex(r, eventId);
    var e := r.evidence[i];
    if e.deliveredAt.Some? then r else
    var kept := if |error| <= 256 then error else error[..256];
    r.(evidence := r.evidence[i := Entry(e.evidence, None, e.attempts + 1, Some(now), Some(kept))], updatedAt := now)
  }

  // ---- What every record obeys ----

  /** Acknowledgements may only climb: SENT or FAILED, then DELIVERED, then READ. */
  function Tier(kind: Kind): nat {
    match kind
    case AckRead => 3
    case AckDelivered => 2
    case AckSent => 1
    case AckFailed => 1
    case _ => 0
  }

  ghost predicate AcksInOrder(r: Record) {
    && (forall i | 3 <= i < |r.evidence| :: IsAck(r.evidence[i].evidence.kind))
    && (forall i, j | 3 <= i < j < |r.evidence| ::
          && r.evidence[i].evidence.kind != r.evidence[j].evidence.kind
          && Tier(r.evidence[i].evidence.kind) <= Tier(r.evidence[j].evidence.kind))
  }

  /** The kinds of evidence a record in each state carries, in order. */
  ghost predicate Lifecycle(r: Record) {
    && |r.evidence| >= 1
    && r.evidence[0].evidence.kind.CommandReceived?
    && match r.state
       case StateReceived => |r.evidence| == 1
       case StateStarted => |r.evidence| == 2 && r.evidence[1].evidence.kind.SendStarted?
       case StateRejected => |r.evidence| == 2 && r.evidence[1].evidence.kind.SendRejected?
       case StateIndeterminate =>
         || (|r.evidence| == 2 && r.evidence[1].evidence.kind.SendIndeterminate?)
         || (|r.evidence| == 3 && r.evidence[1].evidence.kind.SendStarted?
             && r.evidence[2].evidence.kind.SendIndeterminate?)
       case StateAccepted =>
         && |r.evidence| >= 3
         && r.evidence[1].evidence.kind.SendStarted? && r.evidence[2].evidence.kind.SendAccepted?
         && AcksInOrder(r)
  }

  /** Evidence names its command, is numbered 1, 2, 3, ... and carries increasing event ids and the message id
      from acceptance onwards. */
  ghost predicate Numbered(r: Record) {
    && (forall i | 0 <= i < |r.evidence| ::
          var e := r.evidence[i].evidence;
          && e.sequence == i + 1 && e.commandId == r.command.commandId && e.digest == r.digest
          && e.messageId == (if i < 2 then None else r.messageId))
    && (forall i, j | 0 <= i < j < |r.evidence| :: r.evidence[i].evidence.eventId < r.evidence[j].evidence.eventId)
  }

  /** What a piece of evidence of each kind tells the inbox. Only a rejection says that the message was surely not sent,
      and only an interrupted or unanswered send is ambiguous. */
  predicate Truthful(e: Evidence) {
    match e.kind
    case CommandReceived => e.deliveryStatus.Pending? && e.errorClass.None? && e.errorCode.None?
    case SendStarted => e.deliveryStatus.Pending? && e.errorClass.None? && e.errorCode.None?
    case SendAccepted => e.deliveryStatus.Accepted? && e.errorClass.None? && e.errorCode.None?
    case SendRejected => e.deliveryStatus.Failure? && e.errorClass.Some? && e.errorCode.Some?
    case SendIndeterminate => e.deliveryStatus.Indeterminate? && e.errorClass == Some(Ambiguous) && e.errorCode.Some?
    case AckSent => e.deliveryStatus.Sent? && e.errorClass.None? && e.errorCode.None?
    case AckDelivered => e.deliveryStatus.Delivered? && e.errorClass.None? && e.errorCode.None?
    case AckRead => e.deliveryStatus.Read? && e.errorClass.None? && e.errorCode.None?
    case AckFailed =>
      && e.deliveryStatus.Failure? && e.errorClass == Some(TransientFailure)
      && e.errorCode == Some("OPENWA_DELIVERY_FAILED")
  }

  ghost predicate AllTruthful(r: Record) {
    forall i | 0 <= i < |r.evidence| :: Truthful(r.evidence[i].evidence)
  }

  ghost predicate ValidRecord(r: Record) {
    && Lifecycle(r)
    && Numbered(r)
    && AllTruthful(r)
    && (r.messageId.Some? <==> r.state.StateAccepted?)
    && r.messageId != Some("")
  }

  /** All event ids were drawn before `next`. */
  ghost predicate DrawnBefore(r: Record, next: nat) {
    forall i | 0 <= i < |r.evidence| :: r.evidence[i].evidence.eventId < next
  }

  ghost predicate CanBecome(from: State, to: State) {
    || from == to
    || from.StateReceived?
    || (from.StateStarted? && (to.StateAccepted? || to.StateIndeterminate?))
  }

  /** `s` is a later version of `r`: evidence was only added at the end, deliveries were never undone, terminal
      states and accepted message ids never changed. */
  ghost predicate Extends(r: Record, s: Record) {
    && s.command == r.command && s.digest == r.digest && s.webhookId == r.webhookId && s.createdAt == r.createdAt
    && CanBecome(r.state, s.state)
    && (IsTerminal(r.state) ==> s.messageId == r.messageId)
    && |r.evidence| <= |s.evidence|
    && (forall i | 0 <= i < |r.evidence| ::
          && s.evidence[i].evidence == r.evidence[i].evidence
          && (r.evidence[i].deliveredAt.Some? ==> s.evidence[i].deliveredAt == r.evidence[i].deliveredAt))
  }

  lemma ExtendsTransitive(r: Record, s: Record, t: Record)
    requires Extends(r, s) && Extends(s, t)
    ensures Extends(r, t)
  {
    forall i | 0 <= i < |r.evidence|
      ensures t.evidence[i].evidence == r.evidence[i].evidence
      ensures r.evidence[i].deliveredAt.Some? ==> t.evidence[i].deliveredAt == r.evidence[i].deliveredAt
    {
      assert s.evidence[i].evidence == r.evidence[i].evidence;
    }
  }

  /** A valid record holds at most seven pieces of evidence, all of different kinds. */
  lemma AtMostSeven(r: Record)
    requires ValidRecord(r)
    ensures |r.evidence| <= 7
    ensures forall i, j | 0 <= i < j < |r.evidence| :: r.evidence[i].evidence.kind != r.evidence[j].evidence.kind
  {
    if r.state.StateAccepted? && |r.evidence| > 7 {
      var k := r.evidence;
      FourAckKinds(k[3].evidence.kind, k[4].evidence.kind, k[5].evidence.kind, k[6].evidence.kind, k[7].evidence.kind);
      assert false;
    }
  }

  /** Among five acknowledgement kinds two are equal. */
  lemma FourAckKinds(a: Kind, b: Kind, c: Kind, d: Kind, e: Kind)
    ensures IsAck(a) && IsAck(b) && IsAck(c) && IsAck(d) && IsAck(e) ==>
              a == b || a == c || a == d || a == e || b == c || b == d || b == e || c == d || c == e || d == e
  {
  }

  /** A transition that the journal lets through keeps the record valid and appends exactly one entry. */
  lemma AppendEvidenceKeeps(r: Record, t: Transition, eventId: nat)
    requires ValidRecord(r) && DrawnBefore(r, eventId)
    requires TransitionAllowed(r.state, t)
    ensures var s := AppendEvidence(r, t, eventId);
            && ValidRecord(if t.state.StateAccepted? then s.(messageId := t.messageId) else s)
            && Extends(r, if t.state.StateAccepted? then s.(messageId := t.messageId) else s)
            && s.state == t.state && |s.evidence| == |r.evidence| + 1
            && DrawnBefore(s, eventId + 1)
  {
    KindIsNew(r, t);
    AppendLifecycle(r, t, eventId);
    AppendNumbered(r, t, eventId);
    hide Lifecycle, Numbered, HasKind, CanBecome;
    CanBecomeNext(r.state, t);
  }

  lemma KindIsNew(r: Record, t: Transition)
    requires Lifecycle(r) && TransitionAllowed(r.state, t)
    ensures !HasKind(r, t.kind)
  {
  }

  lemma CanBecomeNext(from: State, t: Transition)
    requires TransitionAllowed(from, t)
    ensures CanBecome(from, t.state) && !IsTerminal(from)
  {
  }

  lemma AppendLifecycle(r: Record, t: Transition, eventId: nat)
    requires Lifecycle(r) && TransitionAllowed(r.state, t) && !HasKind(r, t.kind)
    ensures Lifecycle(AppendEvidence(r, t, eventId))
    ensures Lifecycle(AppendEvidence(r, t, eventId).(messageId := t.messageId))
  {
  }

  lemma AppendNumbered(r: Record, t: Transition, eventId: nat)
    requires Numbered(r) && Lifecycle(r) && DrawnBefore(r, eventId) && (r.messageId.Some? <==> r.state.StateAccepted?)
    requires TransitionAllowed(r.state, t) && !HasKind(r, t.kind)
    ensures var s := AppendEvidence(r, t, eventId);
            Numbered(if t.state.StateAccepted? then s.(messageId := t.messageId) else s)
  {
    hide HasKind;
  }

  /** The transitions the journal performs, from the states it performs them in. */
  ghost predicate TransitionAllowed(from: State, t: Transition) {
    && Tells(t)
    && match t.state
       case StateReceived => false
       case StateStarted => from.StateReceived? && t.kind.SendStarted? && t.messageId.None?
       case StateRejected => from.StateReceived? && t.kind.SendRejected? && t.messageId.None?
       case StateIndeterminate => !IsTerminal(from) && t.kind.SendIndeterminate? && t.messageId.None?
       case StateAccepted => from.StateStarted? && t.kind.SendAccepted? && t.messageId.Some? && t.messageId != Some("")
  }

  /** The evidence of the transition will be truthful. */
  predicate Tells(t: Transition) {
    Truthful(Evidence(0, "", 0, t.kind, None, t.deliveryStatus, t.errorClass, t.errorCode, "", t.now))
  }

  lemma AppendAckKeeps(r: Record, status: AckStatus, eventId: nat, occurredAt: Time)
    requires ValidRecord(r) && DrawnBefore(r, eventId)
    ensures var s := AppendAck(r, status, eventId, occurredAt);
            && ValidRecord(s) && Extends(r, s) && s.state == r.state && DrawnBefore(s, eventId + 1)
  {
    var s := AppendAck(r, status, eventId, occurredAt);
    if AckIgnored(r, status) {
      hide ValidRecord, AckIgnored;
    } else {
      AckLifecycle(r, status, eventId, occurredAt);
      hide Lifecycle, AckIgnored;
    }
  }

  /** An acknowledgement that is not ignored climbs over those already there. */
  lemma AckLifecycle(r: Record, status: AckStatus, eventId: nat, occurredAt: Time)
    requires Lifecycle(r) && !AckIgnored(r, status)
    ensures Lifecycle(AppendAck(r, status, eventId, occurredAt))
    ensures r.state.StateAccepted? && r.messageId.Some? && |r.evidence| >= 3
  {
    var s, n := AppendAck(r, status, eventId, occurredAt), |r.evidence|;
    assert forall i | 0 <= i < n :: s.evidence[i] == r.evidence[i];
    forall i | 3 <= i < n
      ensures s.evidence[i].evidence.kind != s.evidence[n].evidence.kind
      ensures Tier(s.evidence[i].evidence.kind) <= Tier(s.evidence[n].evidence.kind)
    {
      assert HasKind(r, r.evidence[i].evidence.kind);
    }
    assert AcksInOrder(s);
  }

  /** The same evidence with other delivery marks, none of them undone. */
  ghost predicate Remarked(r: Record, s: Record) {
    && s.command == r.command && s.digest == r.digest && s.webhookId == r.webhookId && s.createdAt == r.createdAt
    && s.state == r.state && s.messageId == r.messageId && |s.evidence| == |r.evidence|
    && (forall i | 0 <= i < |r.evidence| ::
          && s.evidence[i].evidence == r.evidence[i].evidence
          && (r.evidence[i].deliveredAt.Some? ==> s.evidence[i].deliveredAt == r.evidence[i].deliveredAt))
  }

  lemma RemarkedKeeps(r: Record, s: Record)
    requires ValidRecord(r) && Remarked(r, s)
    ensures ValidRecord(s) && Extends(r, s) && s.state == r.state
  {
    assert Lifecycle(s) by { hide Numbered; }
    hide Lifecycle;
    assert Numbered(s);
  }

  lemma MarkDeliveredKeeps(r: Record, eventId: nat, now: Time)
    requires ValidRecord(r)
    ensures var s := MarkDelivered(r, eventId, now); ValidRecord(s) && Extends(r, s) && s.state == r.state
  {
    hide ValidRecord, Extends;
    assert Remarked(r, MarkDelivered(r, eventId, now));
    RemarkedKeeps(r, MarkDelivered(r, eventId, now));
  }

  lemma NoteFailureKeeps(r: Record, eventId: nat, error: string, now: Time)
    requires ValidRecord(r)
    ensures var s := NoteFailure(r, eventId, error, now); ValidRecord(s) && Extends(r, s) && s.state == r.state
  {
    hide ValidRecord, Extends;
    assert Remarked(r, NoteFailure(r, eventId, error, now));
    RemarkedKeeps(r, NoteFailure(r, eventId, error, now));
  }

  // ---- Times ----

  /** Every delivery happened between receipt and `clock`, and a fully delivered record was last updated by its
      latest delivery. */
  ghost predicate Timely(r: Record, clock: Time) {
    && r.createdAt <= clock
    && (forall i | 0 <= i < |r.evidence| && r.evidence[i].deliveredAt.Some? ::
          r.createdAt <= r.evidence[i].deliveredAt.value <= clock)
    && (AllDelivered(r) ==> LastDelivery(r, r.updatedAt))
  }

  /** `t` is the moment the last piece of evidence was delivered. */
  ghost predicate LastDelivery(r: Record, t: Time) {
    && (exists i | 0 <= i < |r.evidence| :: r.evidence[i].deliveredAt == Some(t))
    && (forall i | 0 <= i < |r.evidence| && r.evidence[i].deliveredAt.Some? :: r.evidence[i].deliveredAt.value <= t)
  }

  lemma DeliveryTimely(r: Record, eventId: nat, clock: Time, now: Time)
    requires ValidRecord(r) && Timely(r, clock) && clock <= now
    ensures Timely(MarkDelivered(r, eventId, now), now)
  {
    if HasEvent(r, eventId) {
      var i := EventIndex(r, eventId);
      if r.evidence[i].deliveredAt.None? {
        assert MarkDelivered(r, eventId, now).evidence[i].deliveredAt == Some(now);
      }
    }
  }

  lemma FailureTimely(r: Record, eventId: nat, error: string, clock: Time, now: Time)
    requires Timely(r, clock) && clock <= now
    ensures Timely(NoteFailure(r, eventId, error, now), now)
  {
    var s := NoteFailure(r, eventId, error, now);
    if HasEvent(r, eventId) {
      var i := EventIndex(r, eventId);
      if r.evidence[i].deliveredAt.None? {
        assert s.evidence[i].deliveredAt.None?;
      }
    }
  }
}
