/** Runs of the journal: any calls in any order, crashes anywhere between storage writes, restarts that recover. */
module JournalRuns {
  import opened Wrappers
  import opened Protocol
  import opened Records
  import opened JournalStore
  import opened JournalCalls
  import Sorting

  /** `up` holds from a completed recovery to the next crash. */
  datatype World = World(node: Node, clock: Time, up: bool)

  const BLANK := Disk(map[], map[], map[], map[])

  ghost predicate Starts(w: World) {
    w.node.disk == BLANK && w.node.races == map[] && !w.up
  }

  /** A restarted process recovers before anything else; every other call needs a recovered journal. */
  ghost predicate CallStep(cfg: Config, w: World, call: Call, error: Option<Error>, v: World) {
    && w.up == !call.Recover? && WellFormed(call) && w.clock <= call.now == v.clock
    && Returns(cfg, w.node, call, v.node, error)
    && v.up == !(call.Recover? && error.Some?)
  }

  ghost predicate CutStep(cfg: Config, w: World, call: Call, v: World) {
    && w.up == !call.Recover? && WellFormed(call) && w.clock <= call.now == v.clock
    && Interrupted(cfg, w.node, call, v.node.disk, v.node.next)
    && v.node.races == map[] && !v.up
  }

  ghost predicate CrashStep(w: World, v: World) {
    v == w.(node := w.node.(races := map[]), up := false)
  }

  ghost predicate Step(cfg: Config, w: World, v: World) {
    || (exists call, error :: CallStep(cfg, w, call, error, v))
    || (exists call :: CutStep(cfg, w, call, v))
    || CrashStep(w, v)
  }

  ghost predicate Run(cfg: Config, t: seq<World>) {
    && |t| > 0 && Starts(t[0])
    && forall i | 0 <= i < |t| - 1 :: Step(cfg, t[i], t[i + 1])
  }

  ghost predicate Invariant(cfg: Config, w: World) {
    && Sound(cfg, w.node.disk, w.node.next, w.clock)
    && (w.up ==> Indexed(w.node.disk))
  }

  /** Between two moments, records appear only as new ones, extend, or go. */
  ghost predicate Onward(d: Disk, x: Disk) {
    forall slot | slot in d.records && slot in x.records :: Extends(d.records[slot], x.records[slot])
  }

  lemma StepKeeps(cfg: Config, w: World, v: World)
    requires Invariant(cfg, w) && Step(cfg, w, v)
    ensures Invariant(cfg, v) && Onward(w.node.disk, v.node.disk)
  {
    hide Sound, Indexed, Returns, Interrupted, Moves;
    if call, error :| CallStep(cfg, w, call, error, v) {
      ReturnKeeps(cfg, w.node, call, v.node, error, w.clock);
      MovesOnward(cfg, w.node.disk, call, v.node.disk, w.node.next);
    } else if call :| CutStep(cfg, w, call, v) {
      InterruptKeeps(cfg, w.node, call, v.node.disk, v.node.next, w.clock);
      MovesOnward(cfg, w.node.disk, call, v.node.disk, w.node.next);
    } else {
      Same(w.node.disk);
    }
  }

  lemma MovesOnward(cfg: Config, d: Disk, call: Call, x: Disk, first: nat)
    requires Moves(cfg, d, call, x, first)
    ensures Onward(d, x)
  {
    hide Extends;
  }

  lemma Same(d: Disk)
    ensures Onward(d, d)
  {
  }

  lemma {:induction false} RunKeeps(cfg: Config, t: seq<World>, i: nat)
    requires Run(cfg, t) && i < |t|
    ensures Invariant(cfg, t[i])
  {
    if i > 0 {
      RunKeeps(cfg, t, i - 1);
      hide Invariant, Starts, Step;
      assert Step(cfg, t[i - 1], t[i - 1 + 1]);
      StepKeeps(cfg, t[i - 1], t[i]);
    } else {
      BlankSound(cfg, t[0]);
    }
  }

  lemma BlankSound(cfg: Config, w: World)
    requires Starts(w)
    ensures Invariant(cfg, w)
  {
  }

  // ---- Indexes ----

  /** At every moment of every run, also between two storage writes, each command pointer leads to a stored record
      with its digest and each message pointer to a stored record with its message id. */
  lemma PointersResolve(cfg: Config, t: seq<World>, i: nat)
    requires Run(cfg, t) && i < |t|
    ensures var d := t[i].node.disk;
            && (forall id | id in d.pointers ::
                  var slot := Slot(d.pointers[id].bucket, id);
                  slot in d.records && d.records[slot].command.commandId == id
                      && d.records[slot].digest == d.pointers[id].digest)
            && (forall m | m in d.messages :: exists slot | slot in d.records ::
                  d.records[slot].command.commandId == d.messages[m].commandId && d.records[slot].messageId == Some(m))
            && (forall s, u | s in d.records && u in d.records && s.id == u.id :: s == u)
  {
    RunKeeps(cfg, t, i);
    hide ValidRecord, Timely, DrawnBefore;
    var d := t[i].node.disk;
    forall m | m in d.messages
      ensures exists slot | slot in d.records ::
                d.records[slot].command.commandId == d.messages[m].commandId && d.records[slot].messageId == Some(m)
    {
      var slot :| HasMessage(d, m, d.messages[m], slot);
      assert d.records[slot].messageId == Some(m);
    }
  }

  function CommandIds(d: Disk): set<string> {
    set slot | slot in d.records :: slot.id
  }

  function MessageIds(d: Disk): set<string> {
    set slot | slot in d.records && d.records[slot].messageId.Some? :: d.records[slot].messageId.value
  }

  /** From whatever a crash left behind, recovery succeeds exactly when no message id was accepted for two commands.
      Then both indexes list exactly the stored records, no send is left open, and the resumable commands are the
      stored RECEIVED ones. */
  lemma RecoveryRestores(cfg: Config, t: seq<World>, i: nat, now: Time, after: Node, reply: Reply<Recovery, Error>)
    requires Run(cfg, t) && i < |t| && !t[i].up && t[i].clock <= now
    requires RecoverReturns(t[i].node, now, after, reply)
    ensures reply.Done? <==> NoSharedMessage(t[i].node.disk)
    ensures reply.Done? ==>
              && CommandIds(after.disk) == after.disk.pointers.Keys == CommandIds(t[i].node.disk)
              && MessageIds(after.disk) == after.disk.messages.Keys
              && InState(after.disk, StateStarted) == {}
              && reply.value.resumable == RecordsAt(after.disk, InState(after.disk, StateReceived))
  {
    if reply.Done? {
      RunKeeps(cfg, t, i);
      var n := t[i].node;
      RecoveredSound(cfg, n, now, after, t[i].clock);
      ExactlyIndexed(cfg, after.disk);
      assert n.disk.records.Keys == after.disk.records.Keys;
      RecoveredStates(n, now, after, reply);
      hide *;
    }
  }

  lemma RecoveredSound(cfg: Config, n: Node, now: Time, after: Node, clock: Time)
    requires Sound(cfg, n.disk, n.next, clock) && clock <= now && n.next <= after.next
    requires Recovering(n.disk, after.disk, now, n.next, after.next)
    ensures Consistent(cfg, after.disk) && CommandIds(after.disk) == CommandIds(n.disk)
  {
    hide Sound, Moves;
    assert CommandIds(after.disk) == CommandIds(n.disk);
    RecoverStep(cfg, n, Recover(now), after.disk, after.next, clock);
    SoundIsConsistent(cfg, after.disk, after.next, now);
  }

  lemma ExactlyIndexed(cfg: Config, d: Disk)
    requires Consistent(cfg, d) && ExactIndexes(d)
    ensures CommandIds(d) == d.pointers.Keys && MessageIds(d) == d.messages.Keys
  {
    hide ValidRecord;
    forall id | id in d.pointers ensures id in CommandIds(d) {
      assert Slot(d.pointers[id].bucket, id) in d.records;
    }
    forall m | m in d.messages ensures m in MessageIds(d) {
      var slot :| HasMessage(d, m, d.messages[m], slot);
    }
    forall m | m in MessageIds(d) ensures m in d.messages {
      var slot :| slot in d.records && d.records[slot].messageId == Some(m);
      assert HasOwnMessage(d, slot);
    }
  }

  lemma RecoveredStates(n: Node, now: Time, after: Node, reply: Reply<Recovery, Error>)
    requires n.disk.records.Keys == after.disk.records.Keys && RecoverReturns(n, now, after, reply) && reply.Done?
    requires forall slot | slot in n.disk.records :: ValidRecord(n.disk.records[slot])
    ensures InState(after.disk, StateStarted) == {}
    ensures reply.value.resumable == RecordsAt(after.disk, InState(after.disk, StateReceived))
  {
    hide Recovering, ExactIndexes, NoSharedMessage, ValidRecord, RecoversTo;
    forall slot | slot in n.disk.records
      ensures !after.disk.records[slot].state.StateStarted?
      ensures n.disk.records[slot].state.StateReceived? <==> after.disk.records[slot].state.StateReceived?
      ensures n.disk.records[slot].state.StateReceived? ==> after.disk.records[slot] == n.disk.records[slot]
    {
      RecoveredState(n.disk.records[slot], after.disk.records[slot], now, n.next, after.next);
    }
    assert InState(n.disk, StateReceived) == InState(after.disk, StateReceived);
  }

  lemma RecoveredState(r: Record, s: Record, now: Time, first: nat, next: nat)
    requires ValidRecord(r) && RecoversTo(r, s, now, first, next)
    ensures if r.state.StateStarted? then s.state.StateIndeterminate? else s == r
  {
  }

  // ---- Records ----

  /** While a record is retained its evidence only grows at the end, deliveries stay, terminal states and message
      ids never change, and it always has the shape of `ValidRecord`: at most seven entries of different kinds,
      numbered 1, 2, 3, ... */
  lemma {:induction false} RecordsOnlyExtend(cfg: Config, t: seq<World>, i: nat, j: nat, slot: Slot)
    requires Run(cfg, t) && i <= j < |t|
    requires forall k | i <= k <= j :: slot in t[k].node.disk.records
    ensures var r, s := t[i].node.disk.records[slot], t[j].node.disk.records[slot];
            && Extends(r, s) && ValidRecord(s) && |s.evidence| <= 7
            && forall a, b | 0 <= a < b < |s.evidence| :: s.evidence[a].evidence.kind != s.evidence[b].evidence.kind
    decreases j
  {
    hide Invariant, Step, Extends, ValidRecord, Run;
    var s := t[j].node.disk.records[slot];
    StoredIsValid(cfg, t, j, slot);
    AtMostSeven(s);
    if i < j {
      RecordsOnlyExtend(cfg, t, i, j - 1, slot);
      ExtendsOnce(cfg, t, j - 1, slot);
      ExtendsTransitive(t[i].node.disk.records[slot], t[j - 1].node.disk.records[slot], s);
    } else {
      ExtendsItself(s);
    }
  }

  lemma StoredIsValid(cfg: Config, t: seq<World>, i: nat, slot: Slot)
    requires Run(cfg, t) && i < |t| && slot in t[i].node.disk.records
    ensures ValidRecord(t[i].node.disk.records[slot])
  {
    RunKeeps(cfg, t, i);
    hide Run, ValidRecord, Timely, DrawnBefore, HasMessage;
  }

  lemma ExtendsOnce(cfg: Config, t: seq<World>, i: nat, slot: Slot)
    requires Run(cfg, t) && i + 1 < |t| && slot in t[i].node.disk.records && slot in t[i + 1].node.disk.records
    ensures Extends(t[i].node.disk.records[slot], t[i + 1].node.disk.records[slot])
  {
    hide Invariant, Step, Extends;
    RunKeeps(cfg, t, i);
    StepKeeps(cfg, t[i], t[i + 1]);
  }

  lemma ExtendsItself(r: Record)
    ensures Extends(r, r)
  {
  }

  /** A record that has left RECEIVED never returns there, and a terminal one keeps its state. */
  lemma TerminalForGood(cfg: Config, t: seq<World>, i: nat, j: nat, slot: Slot)
    requires Run(cfg, t) && i <= j < |t|
    requires forall k | i <= k <= j :: slot in t[k].node.disk.records
    ensures var r, s := t[i].node.disk.records[slot], t[j].node.disk.records[slot];
            && (!r.state.StateReceived? ==> !s.state.StateReceived?)
            && (IsTerminal(r.state) ==> s.state == r.state && s.messageId == r.messageId)
  {
    hide Run;
    RecordsOnlyExtend(cfg, t, i, j, slot);
  }

  // ---- Retention ----

  /** Compaction removes exactly the terminal, fully delivered records whose last delivery is at least the retention
      period ago, although acknowledgements may have set `updatedAt` to any earlier time in between. */
  lemma RetentionRunsFromDelivery(cfg: Config, t: seq<World>, i: nat, now: Time, after: Node, slot: Slot)
    requires Run(cfg, t) && i < |t| && CompactReturns(cfg, t[i].node, now, after)
    requires slot in t[i].node.disk.records
    ensures var r := t[i].node.disk.records[slot];
            slot !in after.disk.records <==>
              IsTerminal(r.state) && AllDelivered(r) && exists at ::
                    LastDelivery(r, at) && now - at >= cfg.terminalRetention
  {
    RunKeeps(cfg, t, i);
    var r := t[i].node.disk.records[slot];
    RemovedIffExpired(cfg, t[i].node, now, after, slot);
    assert Timely(r, t[i].clock) by { hide Consistent, Timely, DrawnBefore; }
    hide Run, CompactReturns, Sound;
    if AllDelivered(r) {
      assert LastDelivery(r, r.updatedAt);
      forall at | LastDelivery(r, at) ensures at == r.updatedAt {
        DeliveredOnce(r, at, r.updatedAt);
      }
    }
  }

  lemma RemovedIffExpired(cfg: Config, n: Node, now: Time, after: Node, slot: Slot)
    requires CompactReturns(cfg, n, now, after) && slot in n.disk.records
    ensures slot !in after.disk.records <==> Expired(cfg, n.disk.records[slot], now)
  {
    hide Expired, PrunedTo;
    if Expired(cfg, n.disk.records[slot], now) {
      assert ExpiredSlot(cfg, n.disk, slot, now);
    }
  }

  lemma DeliveredOnce(r: Record, a: Time, b: Time)
    requires LastDelivery(r, a) && LastDelivery(r, b)
    ensures a == b
  {
  }

  // ---- Parked acknowledgements ----

  ghost predicate Bounded(cfg: Config, d: Disk) {
    |d.orphans| <= cfg.maximumOrphans
  }

  /** Starting from an empty store the parked acknowledgements never exceed their maximum, crash or no crash. */
  lemma {:induction false} OrphansBounded(cfg: Config, t: seq<World>, i: nat)
    requires ValidConfig(cfg) && Run(cfg, t) && i < |t|
    ensures |t[i].node.disk.orphans| <= cfg.maximumOrphans
  {
    if i > 0 {
      OrphansBounded(cfg, t, i - 1);
      assert Step(cfg, t[i - 1], t[i - 1 + 1]);
      hide Run, Step, ValidConfig;
      StepBounded(cfg, t[i - 1], t[i]);
    }
  }

  lemma StepBounded(cfg: Config, w: World, v: World)
    requires Bounded(cfg, w.node.disk) && Step(cfg, w, v)
    ensures Bounded(cfg, v.node.disk)
  {
    hide ReceiveOutcome, TransitionOutcome, AcceptOutcome, DeliveredOutcome, FailureOutcome, AcknowledgeReturns,
         Compacting,
         RecoverReturns, Recovering;
    if call, error :| CallStep(cfg, w, call, error, v) {
      ReturnBounded(cfg, w.node, call, v.node, error);
    } else if call :| CutStep(cfg, w, call, v) {
      InterruptBounded(cfg, w.node, call, v.node.disk, v.node.next);
    }
  }

  lemma FewerSize(some: map<string, Orphan>, all: map<string, Orphan>)
    requires Fewer(some, all)
    ensures |some| <= |all|
  {
    Sorting.SubsetAtMost(some.Keys, all.Keys);
  }

  lemma AcknowledgeBounded(cfg: Config, n: Node, call: Call, after: Node, reply: Reply<bool, Error>)
    requires Bounded(cfg, n.disk) && call.Acknowledge?
    requires AcknowledgeReturns(cfg, n, call.sessionId, call.message, call.status, call.occurredAt, call.now, after,
                                reply)
    ensures Bounded(cfg, after.disk)
  {
    hide AppendAck, AckIgnored, Locate, ParkedTo, InRace, InWindow;
    if call.message !in n.disk.messages && after != n && InRace(n.races, call.sessionId, call.occurredAt) {
      ParkedBounded(cfg, n.disk.orphans, call.message, Orphan(call.sessionId, call.status, call.occurredAt), call.now,
                    after.disk.orphans);
    }
  }

  lemma ParkedBounded(cfg: Config, orphans: map<string, Orphan>, messageId: string, o: Orphan, now: Time,
                      parked: map<string, Orphan>)
    requires |orphans| <= cfg.maximumOrphans && ParkedTo(cfg, orphans, messageId, o, now, parked)
    ensures |parked| <= cfg.maximumOrphans
  {
    if InWindow(cfg, o, now) && messageId !in orphans {
      assert |(parked - {messageId}).Keys| <= cfg.maximumOrphans - 1;
      assert parked.Keys == (parked - {messageId}).Keys + {messageId};
    }
  }

  lemma AcceptBounded(cfg: Config, n: Node, id: string, messageId: string, now: Time)
    requires Bounded(cfg, n.disk)
    ensures var o := AcceptOutcome(n, id, messageId, now);
            Bounded(cfg, o.node.disk) && forall x | x in o.points :: Bounded(cfg, x)
  {
    hide AppendAck, AckIgnored, AppendEvidence, Locate, Bounded, SetRecord;
    var o := AcceptOutcome(n, id, messageId, now);
    forall x | x in o.points + [o.node.disk] ensures Bounded(cfg, x) {
      AcceptFewer(n, id, messageId, now, x);
      FewerBounded(cfg, n.disk, x);
    }
  }

  lemma AcceptFewer(n: Node, id: string, messageId: string, now: Time, x: Disk)
    requires var o := AcceptOutcome(n, id, messageId, now); x in o.points + [o.node.disk]
    ensures Fewer(x.orphans, n.disk.orphans)
  {
    hide AcceptOutcome, AppendAck, AppendEvidence, Locate;
    AcceptShape(n, id, messageId, now);
  }

  lemma ReturnBounded(cfg: Config, n: Node, call: Call, after: Node, error: Option<Error>)
    requires Bounded(cfg, n.disk) && Returns(cfg, n, call, after, error)
    ensures Bounded(cfg, after.disk)
  {
    hide AcknowledgeReturns, AcceptOutcome, Locate, AppendEvidence, HasEvent, RecordsRecovering, PointersRecovering,
         MessagesRecovering, PrunedTo, Bounded;
    match call
    case Acknowledge(sessionId, message, status, occurredAt, now) =>
      var reply :| AcknowledgeReturns(cfg, n, sessionId, message, status, occurredAt, now, after, reply)
                   && error == ErrorOf(reply);
      AcknowledgeBounded(cfg, n, call, after, reply);
    case MarkAccepted(id, messageId, now) => AcceptBounded(cfg, n, id, messageId, now);
    case Compact(now) => FewerBounded(cfg, n.disk, after.disk);
    case Recover(now) => SameBounded(cfg, n.disk, after.disk);
    case _ => SameBounded(cfg, n.disk, after.disk);
  }

  lemma FewerBounded(cfg: Config, d: Disk, x: Disk)
    requires Bounded(cfg, d) && Fewer(x.orphans, d.orphans)
    ensures Bounded(cfg, x)
  {
    FewerSize(x.orphans, d.orphans);
  }

  lemma SameBounded(cfg: Config, d: Disk, x: Disk)
    requires Bounded(cfg, d) && x.orphans == d.orphans
    ensures Bounded(cfg, x)
  {
  }

  lemma InterruptBounded(cfg: Config, n: Node, call: Call, x: Disk, next: nat)
    requires Bounded(cfg, n.disk) && Interrupted(cfg, n, call, x, next)
    ensures Bounded(cfg, x)
  {
    hide ReceiveOutcome, TransitionOutcome, AcknowledgeReturns, AcceptOutcome, DeliveredOutcome, FailureOutcome,
         Recovering, Bounded;
    match call
    case Acknowledge(sessionId, message, status, occurredAt, now) =>
      if next == n.next && x == n.disk.(orphans := x.orphans) && Fewer(x.orphans, n.disk.orphans) {
        FewerBounded(cfg, n.disk, x);
      } else {
        var after, reply :| AcknowledgeReturns(cfg, n, sessionId, message, status, occurredAt, now, after, reply)
                            && x == after.disk && next == after.next;
        AcknowledgeBounded(cfg, n, call, after, reply);
      }
    case MarkAccepted(id, messageId, now) => AcceptBounded(cfg, n, id, messageId, now);
    case Compact(now) => FewerBounded(cfg, n.disk, x);
    case _ =>
      OrphansLeftAlone(cfg, n, call, x, next);
      SameBounded(cfg, n.disk, x);
  }

  lemma OrphansLeftAlone(cfg: Config, n: Node, call: Call, x: Disk, next: nat)
    requires Interrupted(cfg, n, call, x, next) && !call.Acknowledge? && !call.MarkAccepted? && !call.Compact?
    ensures x.orphans == n.disk.orphans
  {
    hide Locate, AppendEvidence, HasEvent, MarkDelivered, NoteFailure, HomeOf, HasBucket, RecordsRecovering,
         PointersRecovering, MessagesRecovering;
  }

  /** Pruning is a function: what it keeps is determined by what was parked. */
  lemma PruningUnique(cfg: Config, orphans: map<string, Orphan>, a: map<string, Orphan>, b: map<string, Orphan>,
                      now: Time, retain: nat)
    requires ValidConfig(cfg) && PrunedTo(cfg, orphans, a, now, retain) && PrunedTo(cfg, orphans, b, now, retain)
    ensures a == b
  {
    Sorting.BestOfUnique(a.Keys, b.Keys, Live(cfg, orphans, now), retain, (p, q) => Older(cfg, orphans, p, q));
    assert forall m :: m in a <==> m in b by {
      forall m ensures m in a <==> m in b { assert m in a.Keys <==> m in b.Keys; }
    }
  }
}
