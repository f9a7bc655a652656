/** The journal's persisted state, and what each call does to it: the state it returns in and the states a crash
    between its storage writes can leave behind. */
module JournalStore {
  import opened Wrappers
  import opened Protocol
  import opened Records
  import Sorting

  const ACK_CLOCK_SKEW: Time := 30_000

  /** `shard` stands for the first hex digit of an id's SHA-256, `before` for the locale order on message ids. */
  datatype Config = Config(
    terminalRetention: Time, orphanRetention: Time, raceWindow: Time, maximumOrphans: int,
    shard: string -> nat, before: (string, string) -> bool)

  ghost predicate ValidConfig(cfg: Config) {
    && cfg.terminalRetention > 0 && cfg.orphanRetention > 0 && cfg.raceWindow > 0 && cfg.maximumOrphans > 0
    && (forall a, b :: a == b || cfg.before(a, b) || cfg.before(b, a))
    && (forall a, b :: !(cfg.before(a, b) && cfg.before(b, a)))
    && (forall a, b, c :: cfg.before(a, b) && cfg.before(b, c) ==> cfg.before(a, c))
  }

  datatype Bucket = Bucket(sessionId: string, day: string, shard: nat)

  // A record is stored under its command id inside one command bucket.
  datatype Slot = Slot(bucket: Bucket, id: string)

  datatype Pointer = Pointer(bucket: Bucket, digest: string)

  datatype MessagePointer = MessagePointer(commandId: string, sessionId: string)

  datatype Orphan = Orphan(sessionId: string, status: AckStatus, occurredAt: Time)

  /** Everything that survives a crash. */
  datatype Disk = Disk(
    records: map<Slot, Record>, pointers: map<string, Pointer>, messages: map<string, MessagePointer>,
    orphans: map<string, Orphan>)

  datatype Race = Race(sessionId: string, startedAt: Time, deadline: Time)

  /** A running journal: its disk, the send races it remembers and how many event ids were drawn so far. */
  datatype Node = Node(disk: Disk, races: map<string, Race>, next: nat)

  datatype Error =
    | PayloadConflict | BucketConflict | InvalidOption | OverCapacity(utilization: real)
    | MissingIndex | MissingBucket | MissingRecord | DigestMismatch | PointerConflict | MessageConflict
    | WrongState(state: State)

  /** `points` are the disks after each storage write, in order. */
  datatype Outcome<+T> = Outcome(node: Node, points: seq<Disk>, reply: Reply<T, Error>)

  function BucketOf(cfg: Config, command: Command): Bucket {
    Bucket(command.sessionId, command.createdDay, cfg.shard(command.commandId))
  }

  function HomeOf(cfg: Config, command: Command): Slot {
    Slot(BucketOf(cfg, command), command.commandId)
  }

  predicate HasBucket(d: Disk, bucket: Bucket) {
    exists slot | slot in d.records :: slot.bucket == bucket
  }

  /** The stored record a command pointer leads to. */
  function Locate(d: Disk, id: string): Reply<Slot, Error> {
    if id !in d.pointers then Failed(MissingIndex) else
    var p := d.pointers[id];
    var slot := Slot(p.bucket, id);
    if !HasBucket(d, p.bucket) then Failed(MissingBucket)
    else if slot !in d.records then Failed(MissingRecord)
    else if d.records[slot].digest != p.digest then Failed(DigestMismatch)
    else Done(slot)
  }

  function SetRecord(d: Disk, slot: Slot, r: Record): Disk {
    d.(records := d.records[slot := r])
  }

  function SetPointer(d: Disk, slot: Slot, digest: string): Disk {
    d.(pointers := d.pointers[slot.id := Pointer(slot.bucket, digest)])
  }

  function Refused<T>(n: Node, error: Error): Outcome<T> {
    Outcome(n, [], Failed(error))
  }

  // ---- Calls on one record ----

  function ReceiveOutcome(cfg: Config, n: Node, command: Command, digest: string, webhookId: string, now: Time,
                          utilization: real, maximum: real): Outcome<(Record, bool)> {
    var d := n.disk;
    var id := command.commandId;
    if id in d.pointers then
      var p := d.pointers[id];
      if p.digest != digest then Refused(n, PayloadConflict)
      else if !HasBucket(d, p.bucket) then Refused(n, MissingBucket)
      else if Slot(p.bucket, id) !in d.records then Refused(n, MissingRecord)
      else Outcome(n, [], Done((d.records[Slot(p.bucket, id)], false)))
    else
      var slot := HomeOf(cfg, command);
      if slot in d.records then
        if d.records[slot].digest != digest then Refused(n, BucketConflict)
        else var e := SetPointer(d, slot, digest); Outcome(n.(disk := e), [e], Done((d.records[slot], false)))
      else if maximum <= 0.0 || maximum > 1.0 then Refused(n, InvalidOption)
      else if utilization >= maximum then Refused(n, OverCapacity(utilization))
      else
        var r := NewRecord(command, digest, webhookId, n.next, now);
        var d1 := SetRecord(d, slot, r);
        var d2 := SetPointer(d1, slot, digest);
        Outcome(n.(disk := d2, next := n.next + 1), [d1, d2], Done((r, true)))
  }

  function RaceFor(cfg: Config, r: Record): Race {
    var untilExpiry := r.command.expiresAt + ACK_CLOCK_SKEW;
    var untilWindow := r.updatedAt + cfg.raceWindow;
    Race(r.command.sessionId, r.updatedAt, if untilWindow <= untilExpiry then untilWindow else untilExpiry)
  }

  function StartTransition(now: Time): Transition {
    Transition(StateStarted, SendStarted, Pending, None, None, None, now)
  }

  function RejectTransition(errorClass: ErrorClass, errorCode: string, now: Time): Transition {
    Transition(StateRejected, SendRejected, Failure, Some(errorClass), Some(errorCode), None, now)
  }

  function IndeterminateTransition(errorCode: string, now: Time): Transition {
    Transition(StateIndeterminate, SendIndeterminate, Indeterminate, Some(Ambiguous), Some(errorCode), None, now)
  }

  function AcceptTransition(messageId: string, now: Time): Transition {
    Transition(StateAccepted, SendAccepted, DeliveryStatus.Accepted, None, None, Some(messageId), now)
  }

  function TransitionOutcome(cfg: Config, n: Node, id: string, t: Transition): Outcome<Record> {
    match Locate(n.disk, id)
    case Failed(e) => Refused(n, e)
    case Done(slot) =>
      var r := n.disk.records[slot];
      if r.state == t.state then
        Outcome(if r.state.StateStarted? then n.(races := n.races[id := RaceFor(cfg, r)]) else n, [], Done(r))
      else if IsTerminal(r.state) then Outcome(n.(races := n.races - {id}), [], Done(r))
      else if t.state.StateStarted? && !r.state.StateReceived? then Refused(n, WrongState(r.state))
      else if t.state.StateRejected? && !r.state.StateReceived? then Refused(n, WrongState(r.state))
      else
        var s := AppendEvidence(r, t, n.next);
        var races := if s.state.StateStarted? then n.races[id := RaceFor(cfg, s)] else n.races - {id};
        var d := SetRecord(n.disk, slot, s);
        Outcome(Node(d, races, n.next + 1), [d], Done(s))
  }

  function AcceptOutcome(n: Node, id: string, messageId: string, now: Time): Outcome<Record> {
    match Locate(n.disk, id)
    case Failed(e) => Refused(n, e)
    case Done(slot) =>
      var r := n.disk.records[slot];
      if IsTerminal(r.state) then Outcome(n.(races := n.races - {id}), [], Done(r))
      else if !r.state.StateStarted? then Refused(n, WrongState(r.state))
      else
        AcceptedOutcome(n, slot, messageId, now)
  }

  /** A started send is accepted: the record, then the message index, then a parked acknowledgement. */
  function AcceptedOutcome(n: Node, slot: Slot, messageId: string, now: Time): Outcome<Record>
    requires slot in n.disk.records
  {
    var r := n.disk.records[slot];
    var s := AppendEvidence(r, AcceptTransition(messageId, now), n.next).(messageId := Some(messageId));
    var d := SetRecord(n.disk, slot, s);
    var (after, points, reply) := AcceptedIndexed(d, slot, s, messageId, n.next + 1);
    Outcome(Node(after, n.races - {slot.id}, n.next + 2), [d] + points, reply)
  }

  /** The final disk, the disk after each write, and what the caller gets. */
  function AcceptedIndexed(d: Disk, slot: Slot, r: Record, messageId: string, eventId: nat): (Disk, seq<Disk>,
      Reply<Record, Error>) {
    var p := MessagePointer(slot.id, r.command.sessionId);
    if messageId in d.messages && d.messages[messageId] != p then (d, [], Failed(MessageConflict)) else
    var indexed := d.(messages := d.messages[messageId := p]);
    var written := if messageId in d.messages then [] else [indexed];
    var (after, applied, t) := ApplyOrphan(indexed, slot, r, messageId, eventId);
    (after, written + applied, Done(t))
  }

  /** Appends a parked acknowledgement of the same session and then forgets it: the final disk, the disk after each
      write, and the record. */
  function ApplyOrphan(d: Disk, slot: Slot, r: Record, messageId: string, eventId: nat): (Disk, seq<Disk>, Record) {
    if messageId !in d.orphans || d.orphans[messageId].sessionId != r.command.sessionId then (d, [], r) else
    var o := d.orphans[messageId];
    var s := AppendAck(r, o.status, eventId, o.occurredAt);
    var d1 := if AckIgnored(r, o.status) then d else SetRecord(d, slot, s);
    var d2 := d1.(orphans := d1.orphans - {messageId});
    (d2, if AckIgnored(r, o.status) then [d2] else [d1, d2], s)
  }

  function AcceptedRecord(r: Record, messageId: string, now: Time, eventId: nat): Record {
    AppendEvidence(r, AcceptTransition(messageId, now), eventId).(messageId := Some(messageId))
  }

  function WithParked(d: Disk, r: Record, messageId: string, eventId: nat): Record {
    if messageId in d.orphans then AppendAck(r, d.orphans[messageId].status, eventId, d.orphans[messageId].occurredAt)
        else r
  }

  /** A disk after the record was accepted; the message index and the parked acknowledgement may have followed. */
  ghost predicate AcceptPoint(n: Node, slot: Slot, messageId: string, now: Time, x: Disk) {
    && slot in n.disk.records
    && var r := n.disk.records[slot];
       var s := AcceptedRecord(r, messageId, now, n.next);
       && (x.records == n.disk.records[slot := s]
           || x.records == n.disk.records[slot := WithParked(n.disk, s, messageId, n.next + 1)])
       && x.pointers == n.disk.pointers
       && (x.messages == n.disk.messages
           || x.messages == n.disk.messages[messageId := MessagePointer(slot.id, r.command.sessionId)])
       && (x.orphans == n.disk.orphans || x.orphans == n.disk.orphans - {messageId})
  }

  predicate Accepts(d: Disk, id: string) {
    Locate(d, id).Done? && Locate(d, id).value in d.records && d.records[Locate(d, id).value].state.StateStarted?
  }

  lemma AcceptShape(n: Node, id: string, messageId: string, now: Time)
    ensures var o := AcceptOutcome(n, id, messageId, now);
            if Accepts(n.disk, id) then
              && o.node.next == n.next + 2
              && forall x | x in o.points + [o.node.disk] :: AcceptPoint(n, Locate(n.disk, id).value, messageId, now, x)
            else o.points == [] && o.node.disk == n.disk && o.node.next == n.next
  {
    hide AppendEvidence, AppendAck, AckIgnored, Locate, ApplyOrphan, AcceptPoint;
    if Accepts(n.disk, id) {
      var slot := Locate(n.disk, id).value;
      var s := AcceptedRecord(n.disk.records[slot], messageId, now, n.next);
      var d := SetRecord(n.disk, slot, s);
      AcceptedCommand(n.disk.records[slot], messageId, now, n.next);
      PlainPoints(n, slot, messageId, now);
      ParkedPoints(n, slot, messageId, now,
                   d.(messages := d.messages[messageId := MessagePointer(slot.id, s.command.sessionId)]), s);
    }
    LocateStored(n.disk, id);
  }

  lemma AcceptedCommand(r: Record, messageId: string, now: Time, eventId: nat)
    ensures AcceptedRecord(r, messageId, now, eventId).command == r.command
  {
  }

  lemma LocateStored(d: Disk, id: string)
    ensures Locate(d, id).Done? ==> Locate(d, id).value in d.records
  {
  }

  lemma PlainPoints(n: Node, slot: Slot, messageId: string, now: Time)
    requires slot in n.disk.records
    ensures var r := n.disk.records[slot];
            var d := SetRecord(n.disk, slot, AcceptedRecord(r, messageId, now, n.next));
            AcceptPoint(n, slot, messageId, now, d)
            && AcceptPoint(n, slot, messageId, now,
                           d.(messages := d.messages[messageId := MessagePointer(slot.id, r.command.sessionId)]))
  {
    hide AcceptedRecord, WithParked;
  }

  lemma ParkedPoints(n: Node, slot: Slot, messageId: string, now: Time, d: Disk, s: Record)
    requires slot in n.disk.records && s == AcceptedRecord(n.disk.records[slot], messageId, now, n.next)
    requires d.records == n.disk.records[slot := s] && d.pointers == n.disk.pointers && d.orphans == n.disk.orphans
    requires d.messages == n.disk.messages[messageId := MessagePointer(slot.id, n.disk.records[slot].command.sessionId)]
    ensures var (after, applied, t) := ApplyOrphan(d, slot, s, messageId, n.next + 1);
            forall x | x in applied + [after] :: AcceptPoint(n, slot, messageId, now, x)
  {
    hide AppendAck, AckIgnored, AcceptedRecord;
    IgnoredAck(s, messageId, d, n.next + 1);
  }

  lemma IgnoredAck(r: Record, messageId: string, d: Disk, eventId: nat)
    ensures messageId in d.orphans && AckIgnored(r, d.orphans[messageId].status) ==>
            WithParked(d, r, messageId, eventId) == r
  {
  }

  function DeliveredOutcome(n: Node, id: string, eventId: nat, now: Time): Outcome<()> {
    match Locate(n.disk, id)
    case Failed(e) => Refused(n, e)
    case Done(slot) =>
      var r := n.disk.records[slot];
      if !HasEvent(r, eventId)
          || r.evidence[EventIndex(r, eventId)].deliveredAt.Some? then Outcome(n, [], Done(())) else
      var d := SetRecord(n.disk, slot, MarkDelivered(r, eventId, now));
      Outcome(n.(disk := d), [d], Done(()))
  }

  function FailureOutcome(n: Node, id: string, eventId: nat, error: string, now: Time): Outcome<()> {
    match Locate(n.disk, id)
    case Failed(e) => Refused(n, e)
    case Done(slot) =>
      var r := n.disk.records[slot];
      if !HasEvent(r, eventId)
          || r.evidence[EventIndex(r, eventId)].deliveredAt.Some? then Outcome(n, [], Done(())) else
      var d := SetRecord(n.disk, slot, NoteFailure(r, eventId, error, now));
      Outcome(n.(disk := d), [d], Done(()))
  }

  // ---- Acknowledgements that arrive before their message id is known ----

  predicate ShouldReplaceAck(current: AckStatus, next: AckStatus) {
    if current == next || current.StatusRead? then false
    else if next.StatusRead? then true
    else if next.StatusDelivered? then !current.StatusDelivered?
    else next.StatusFailed? && current.StatusSent?
  }

  predicate InRace(races: map<string, Race>, sessionId: string, occurredAt: Time) {
    exists id | id in races ::
      races[id].sessionId == sessionId && races[id].startedAt - ACK_CLOCK_SKEW <= occurredAt <= races[id].deadline
  }

  predicate InWindow(cfg: Config, o: Orphan, now: Time) {
    o.occurredAt <= now + ACK_CLOCK_SKEW && now - o.occurredAt <= cfg.orphanRetention
  }

  function Live(cfg: Config, orphans: map<string, Orphan>, now: Time): set<string> {
    set m | m in orphans && InWindow(cfg, orphans[m], now)
  }

  predicate Older(cfg: Config, orphans: map<string, Orphan>, a: string, b: string) {
    && a in orphans && b in orphans
    && (orphans[a].occurredAt < orphans[b].occurredAt
        || (orphans[a].occurredAt == orphans[b].occurredAt && cfg.before(a, b)))
  }

  /** `pruned` keeps, unchanged, exactly the newest `retain` parked acknowledgements that are inside the window. */
  ghost predicate PrunedTo(cfg: Config, orphans: map<string, Orphan>, pruned: map<string, Orphan>, now: Time,
                           retain: nat) {
    && (forall m | m in pruned :: m in orphans && pruned[m] == orphans[m])
    && Sorting.BestOf(pruned.Keys, Live(cfg, orphans, now), retain, (a, b) => Older(cfg, orphans, a, b))
  }

  ghost predicate Fewer(some: map<string, Orphan>, all: map<string, Orphan>) {
    forall m | m in some :: m in all && some[m] == all[m]
  }

  function OccurredAt(orphans: map<string, Orphan>, m: string): Time {
    if m in orphans then orphans[m].occurredAt else 0
  }

  /** The order in which parked acknowledgements are evicted. */
  function EvictionOrder(cfg: Config, orphans: map<string, Orphan>): (string, string) -> bool {
    (a, b) => OccurredAt(orphans, a) < OccurredAt(orphans, b)
              || (OccurredAt(orphans, a) == OccurredAt(orphans, b) && !cfg.before(b, a))
  }

  /** Sorting the parked acknowledgements in eviction order and dropping the first ones keeps the newest. */
  lemma EvictionKeepsNewest(cfg: Config, orphans: map<string, Orphan>, sorted: seq<string>, drop: nat,
                            pruned: map<string, Orphan>, now: Time, retain: nat)
    requires ValidConfig(cfg) && Sorting.Sorted(sorted, EvictionOrder(cfg, orphans)) && Sorting.Distinct(sorted)
    requires Sorting.Elements(sorted) == Live(cfg, orphans, now)
    requires drop == if |sorted| > retain then |sorted| - retain else 0
    requires pruned.Keys == Sorting.Elements(sorted[drop..])
    requires forall m | m in pruned :: m in orphans && pruned[m] == orphans[m]
    ensures PrunedTo(cfg, orphans, pruned, now, retain)
  {
    forall i, j | 0 <= i < j < |sorted| ensures Older(cfg, orphans, sorted[i], sorted[j]) {
      assert sorted[i] in Sorting.Elements(sorted) && sorted[j] in Sorting.Elements(sorted);
      assert EvictionOrder(cfg, orphans)(sorted[i], sorted[j]);
      assert cfg.before(sorted[i], sorted[j]) || cfg.before(sorted[j], sorted[i]);
    }
    Sorting.SuffixIsBest(sorted, drop, (a, b) => Older(cfg, orphans, a, b));
    Sorting.ElementsSize(sorted);
  }

  /** A disk on the way from `d` to one whose parked acknowledgements are `pruned`. */
  ghost predicate Pruning(d: Disk, x: Disk, pruned: map<string, Orphan>) {
    && x == d.(orphans := x.orphans)
    && (forall m | m in x.orphans :: m in d.orphans && x.orphans[m] == d.orphans[m])
    && (forall m | m in pruned :: m in x.orphans)
  }

  ghost predicate AcknowledgeReturns(cfg: Config, n: Node, sessionId: string, messageId: string, status: AckStatus,
                                     occurredAt: Time, observedAt: Time, after: Node, reply: Reply<bool, Error>) {
    var d := n.disk;
    if messageId !in d.messages then
      && reply == Done(false)
      && after == n.(disk := d.(orphans := after.disk.orphans))
      && if !InRace(n.races, sessionId, occurredAt) then after == n
         else ParkedTo(cfg, d.orphans, messageId, Orphan(sessionId, status, occurredAt), observedAt, after.disk.orphans)
    else if d.messages[messageId].sessionId != sessionId then after == n && reply == Done(false)
    else match Locate(d, d.messages[messageId].commandId)
      case Failed(e) => after == n && reply == Failed(e)
      case Done(slot) =>
        var r := d.records[slot];
        if AckIgnored(r, status) then after == n && reply == Done(false)
        else
          && after == n.(disk := SetRecord(d, slot, AppendAck(r, status, n.next, occurredAt)), next := n.next + 1)
          && reply == Done(true)
  }

  /** What parking an acknowledgement does: nothing outside the window, replacement by a stronger status of the same
      message, or a new entry after room was made for it. */
  ghost predicate ParkedTo(cfg: Config, orphans: map<string, Orphan>, messageId: string, o: Orphan, now: Time,
                           parked: map<string, Orphan>) {
    if !InWindow(cfg, o, now) then parked == orphans
    else if messageId in orphans then
      parked == if ShouldReplaceAck(orphans[messageId].status, o.status) then orphans[messageId := o] else orphans
    else
      && cfg.maximumOrphans >= 1
      && messageId in parked && parked[messageId] == o
      && PrunedTo(cfg, orphans, parked - {messageId}, now, cfg.maximumOrphans - 1)
  }

  // ---- Compaction ----

  ghost predicate Expired(cfg: Config, r: Record, now: Time) {
    IsTerminal(r.state) && AllDelivered(r) && now - r.updatedAt >= cfg.terminalRetention
  }

  ghost predicate ExpiredSlot(cfg: Config, d: Disk, slot: Slot, now: Time) {
    slot in d.records && Expired(cfg, d.records[slot], now)
  }

  /** A disk while compaction runs on `d`: pointers of a record always go before the record itself. */
  ghost predicate Compacting(cfg: Config, d: Disk, x: Disk, now: Time) {
    && (forall slot | slot in x.records :: slot in d.records && x.records[slot] == d.records[slot])
    && (forall slot | slot in d.records && slot !in x.records :: ExpiredSlot(cfg, d, slot, now))
    && (forall id | id in x.pointers ::
          id in d.pointers && x.pointers[id] == d.pointers[id] && Slot(x.pointers[id].bucket, id) in x.records)
    && (forall id | id in d.pointers && id !in x.pointers ::
          ExpiredSlot(cfg, d, Slot(d.pointers[id].bucket, id), now))
    && (forall m | m in x.messages :: m in d.messages && x.messages[m] == d.messages[m])
    && (forall m, slot | m in x.messages && slot in d.records && d.records[slot].messageId == Some(m) ::
        slot in x.records)
    && (forall m | m in d.messages && m !in x.messages ::
          exists slot :: ExpiredSlot(cfg, d, slot, now) && d.records[slot].messageId == Some(m))
    && (forall m | m in x.orphans :: m in d.orphans && x.orphans[m] == d.orphans[m])
  }

  ghost predicate CompactReturns(cfg: Config, n: Node, now: Time, after: Node) {
    && after == n.(disk := after.disk)
    && Compacting(cfg, n.disk, after.disk, now)
    && (forall slot :: ExpiredSlot(cfg, n.disk, slot, now) ==>
          && slot !in after.disk.records && slot.id !in after.disk.pointers
          && (n.disk.records[slot].messageId.Some? ==> n.disk.records[slot].messageId.value !in after.disk.messages))
    && cfg.maximumOrphans >= 0
    && PrunedTo(cfg, n.disk.orphans, after.disk.orphans, now, cfg.maximumOrphans)
  }

  // ---- Recovery ----

  /** What a restart makes of a record: an interrupted send becomes indeterminate, everything else stays. */
  ghost predicate RecoversTo(r: Record, s: Record, now: Time, first: nat, next: nat) {
    if r.state.StateStarted? then
      && |s.evidence| > 0
      && var eventId := s.evidence[|s.evidence| - 1].evidence.eventId;
         first <= eventId < next
         && s == AppendEvidence(r, IndeterminateTransition("PLUGIN_RESTART_AFTER_SEND_STARTED", now), eventId)
    else s == r
  }

  ghost predicate HasMessage(d: Disk, m: string, p: MessagePointer, slot: Slot) {
    && slot in d.records && slot.id == p.commandId
    && d.records[slot].messageId == Some(m) && d.records[slot].command.sessionId == p.sessionId
  }

  /** A disk while recovery runs on `d`: records may have been closed, and pointers to stored records added. */
  ghost predicate Recovering(d: Disk, x: Disk, now: Time, first: nat, next: nat) {
    && RecordsRecovering(d, x.records, now, first, next)
    && PointersRecovering(d, x.pointers)
    && MessagesRecovering(d, x.messages)
    && x.orphans == d.orphans
  }

  ghost predicate RecordsRecovering(d: Disk, records: map<Slot, Record>, now: Time, first: nat, next: nat) {
    && records.Keys == d.records.Keys
    && forall slot | slot in d.records ::
         records[slot] == d.records[slot] || RecoversTo(d.records[slot], records[slot], now, first, next)
  }

  ghost predicate PointersRecovering(d: Disk, pointers: map<string, Pointer>) {
    && (forall id | id in d.pointers :: id in pointers && pointers[id] == d.pointers[id])
    && (forall id | id in pointers && id !in d.pointers ::
          var slot := Slot(pointers[id].bucket, id); slot in d.records && pointers[id].digest == d.records[slot].digest)
  }

  ghost predicate MessagesRecovering(d: Disk, messages: map<string, MessagePointer>) {
    && (forall m | m in d.messages :: m in messages && messages[m] == d.messages[m])
    && (forall m | m in messages && m !in d.messages :: exists slot :: HasMessage(d, m, messages[m], slot))
  }

  /** Both indexes list exactly the stored records. */
  ghost predicate ExactIndexes(d: Disk) {
    && Indexed(d)
    && (forall slot | slot in d.records && d.records[slot].messageId.Some? :: HasOwnMessage(d, slot))
  }

  ghost predicate HasOwnMessage(d: Disk, slot: Slot)
    requires slot in d.records
  {
    var m := d.records[slot].messageId;
    m.Some? && m.value in d.messages
    && d.messages[m.value] == MessagePointer(slot.id, d.records[slot].command.sessionId)
  }

  datatype Recovery = Recovery(resumable: set<Record>, indeterminate: nat)

  function InState(d: Disk, state: State): set<Slot> {
    set slot | slot in d.records && d.records[slot].state == state
  }

  function RecordsAt(d: Disk, slots: set<Slot>): set<Record> {
    set slot | slot in slots && slot in d.records :: d.records[slot]
  }

  ghost predicate FewerRaces(some: map<string, Race>, all: map<string, Race>) {
    forall id | id in some :: id in all && some[id] == all[id]
  }

  /** No message id was accepted for two commands. */
  ghost predicate NoSharedMessage(d: Disk) {
    forall s, t | s in d.records && t in d.records && s != t && d.records[s].messageId.Some? ::
      d.records[s].messageId != d.records[t].messageId
  }

  ghost predicate RecoverReturns(n: Node, now: Time, after: Node, reply: Reply<Recovery, Error>) {
    && n.next <= after.next
    && Recovering(n.disk, after.disk, now, n.next, after.next)
    && (reply.Done? <==> NoSharedMessage(n.disk))
    && (reply.Failed? ==> reply.error == MessageConflict)
    && (reply.Done? ==>
          && (forall slot | slot in n.disk.records ::
                RecoversTo(n.disk.records[slot], after.disk.records[slot], now, n.next, after.next))
          && ExactIndexes(after.disk)
          && reply.value.resumable == RecordsAt(n.disk, InState(n.disk, StateReceived))
          && reply.value.indeterminate == |InState(n.disk, StateStarted)|)
    && FewerRaces(after.races, n.races)
  }

  // ---- Invariants ----

  /** Holds after every single storage write. */
  ghost predicate Consistent(cfg: Config, d: Disk) {
    && (forall slot | slot in d.records ::
          ValidRecord(d.records[slot]) && slot == HomeOf(cfg, d.records[slot].command))
    && (forall s, t | s in d.records && t in d.records && s.id == t.id :: s == t)
    && (forall id | id in d.pointers ::
          var slot := Slot(d.pointers[id].bucket, id);
                slot in d.records && d.records[slot].digest == d.pointers[id].digest)
    && (forall m | m in d.messages :: exists slot :: HasMessage(d, m, d.messages[m], slot))
  }

  /** Command pointers exist for exactly the stored records: what recovery establishes and calls rely on. */
  ghost predicate Indexed(d: Disk) {
    forall slot | slot in d.records :: slot.id in d.pointers
  }

  ghost predicate Sound(cfg: Config, d: Disk, next: nat, clock: Time) {
    && Consistent(cfg, d)
    && (forall slot | slot in d.records :: DrawnBefore(d.records[slot], next) && Timely(d.records[slot], clock))
  }

  /** Under an exact command index `Locate` finds every stored record, and only those. */
  lemma LocateFinds(cfg: Config, d: Disk, id: string)
    requires Consistent(cfg, d)
    ensures Locate(d, id).Done? ==> Locate(d, id).value in d.records && Locate(d, id).value.id == id
    ensures id in d.pointers ==> Locate(d, id) == Done(Slot(d.pointers[id].bucket, id))
    ensures Indexed(d) ==> forall slot | slot in d.records && slot.id == id :: Locate(d, id) == Done(slot)
  {
  }
}
