/** Message ids accepted for two commands: how they come about, and that a connector never recovers from one. */
module SharedMessages {
  import opened Wrappers
  import opened Protocol
  import opened Records
  import opened JournalStore
  import opened JournalCalls
  import opened JournalRuns

  // ---- For good ----

  /** Recovery keeps the message id of every record. */
  lemma RecoveringKeepsShared(d: Disk, x: Disk, now: Time, first: nat, next: nat)
    requires Recovering(d, x, now, first, next) && !NoSharedMessage(d)
    ensures !NoSharedMessage(x)
  {
    hide PointersRecovering, MessagesRecovering, RecordsRecovering;
    var s, u :| s in d.records && u in d.records && s != u && d.records[s].messageId.Some?
                && d.records[s].messageId == d.records[u].messageId;
    RecoveredMessageId(d, x, s, now, first, next);
    RecoveredMessageId(d, x, u, now, first, next);
    assert s in x.records && u in x.records && x.records[s].messageId == x.records[u].messageId;
  }

  lemma RecoveredMessageId(d: Disk, x: Disk, slot: Slot, now: Time, first: nat, next: nat)
    requires RecordsRecovering(d, x.records, now, first, next) && slot in d.records
    ensures slot in x.records && x.records[slot].messageId == d.records[slot].messageId
  {
    assert slot in x.records.Keys;
  }

  /** The process is gone, and two stored records share a message id. */
  ghost predicate Stuck(w: World) {
    !w.up && !NoSharedMessage(w.node.disk)
  }

  lemma StepStaysStuck(cfg: Config, w: World, v: World)
    requires Stuck(w) && Step(cfg, w, v)
    ensures Stuck(v)
  {
    hide NoSharedMessage, Recovering, ReceiveOutcome, TransitionOutcome, AcceptOutcome, DeliveredOutcome,
         FailureOutcome,
         AcknowledgeReturns, CompactReturns, Compacting, ExactIndexes;
    if call, error :| CallStep(cfg, w, call, error, v) {
      RecoveringKeepsShared(w.node.disk, v.node.disk, call.now, w.node.next, v.node.next);
    } else if call :| CutStep(cfg, w, call, v) {
      RecoveringKeepsShared(w.node.disk, v.node.disk, call.now, w.node.next, v.node.next);
    }
  }

  /** Once a process has gone while two stored records share a message id, it never comes up again: every restart fails,
      so no other call can be made, and the shared id stays. */
  lemma {:induction false} SharedMessageIsForGood(cfg: Config, t: seq<World>, i: nat, j: nat)
    requires Run(cfg, t) && i <= j < |t| && !t[i].up && !NoSharedMessage(t[i].node.disk)
    ensures !t[j].up && !NoSharedMessage(t[j].node.disk)
    decreases j - i
  {
    hide NoSharedMessage, Step, Starts;
    if i < j {
      SharedMessageIsForGood(cfg, t, i, j - 1);
      assert Step(cfg, t[j - 1], t[j - 1 + 1]);
      StepStaysStuck(cfg, t[j - 1], t[j]);
    }
  }

  /** An acceptance that throws because the message id belongs to another command leaves two records with that id. */
  lemma ConflictShares(cfg: Config, n: Node, id: string, messageId: string, now: Time, clock: Time)
    requires Sound(cfg, n.disk, n.next, clock) && AcceptOutcome(n, id, messageId, now).reply == Failed(MessageConflict)
    requires Accepts(n.disk, id)
    ensures !NoSharedMessage(AcceptOutcome(n, id, messageId, now).node.disk)
  {
    var slot, x := Locate(n.disk, id).value, AcceptOutcome(n, id, messageId, now).node.disk;
    ConflictOutcome(n, id, messageId, now);
    StartedHasNoMessage(cfg, n.disk, id, n.next, clock);
    ConflictingRecord(cfg, n.disk, messageId, n.next, clock);
    hide *;
    var other :| HasMessage(n.disk, messageId, n.disk.messages[messageId], other);
    OtherShares(n.disk, x, messageId, slot, other, x.records[slot]);
  }

  lemma ConflictOutcome(n: Node, id: string, messageId: string, now: Time)
    requires Accepts(n.disk, id) && AcceptOutcome(n, id, messageId, now).reply == Failed(MessageConflict)
    ensures var slot, x := Locate(n.disk, id).value, AcceptOutcome(n, id, messageId, now).node.disk;
            && messageId in n.disk.messages && slot in x.records && x.records[slot].messageId == Some(messageId)
            && x == SetRecord(n.disk, slot, x.records[slot])
  {
    hide AppendEvidence, ApplyOrphan, Locate;
  }

  lemma StartedHasNoMessage(cfg: Config, d: Disk, id: string, next: nat, clock: Time)
    requires Sound(cfg, d, next, clock) && Accepts(d, id)
    ensures d.records[Locate(d, id).value].messageId.None?
  {
    StoredFacts(cfg, d, id, next, clock);
    hide Sound, Locate, Lifecycle, Numbered;
  }

  lemma OtherShares(d: Disk, x: Disk, messageId: string, slot: Slot, other: Slot, s: Record)
    requires messageId in d.messages && HasMessage(d, messageId, d.messages[messageId], other)
    requires slot in d.records && d.records[slot].messageId.None? && x == SetRecord(d, slot, s)
             && s.messageId == Some(messageId)
    ensures !NoSharedMessage(x)
  {
    assert other != slot && x.records[slot].messageId == x.records[other].messageId;
  }

  lemma ConflictingRecord(cfg: Config, d: Disk, m: string, next: nat, clock: Time)
    requires Sound(cfg, d, next, clock)
    ensures m in d.messages ==> exists slot :: HasMessage(d, m, d.messages[m], slot)
  {
    hide ValidRecord, DrawnBefore, Timely, HasMessage;
  }

  // ---- Where they come from ----

  /** The acceptance throws because the message id belongs to another command. */
  predicate Clashes(n: Node, call: Call) {
    call.MarkAccepted? && AcceptOutcome(n, call.id, call.messageId, call.now).reply == Failed(MessageConflict)
  }

  /** A step in which no acceptance meets such a conflict, whether it gets to throw or is cut short before. */
  ghost predicate QuietStep(cfg: Config, w: World, v: World) {
    || (exists call, error :: CallStep(cfg, w, call, error, v) && !Clashes(w.node, call))
    || (exists call :: CutStep(cfg, w, call, v) && !Clashes(w.node, call))
    || CrashStep(w, v)
  }

  ghost predicate MessagesIndexed(d: Disk) {
    forall slot | slot in d.records && d.records[slot].messageId.Some? :: HasOwnMessage(d, slot)
  }

  ghost predicate Unshared(w: World) {
    && NoSharedMessage(w.node.disk)
    && (w.up ==> MessagesIndexed(w.node.disk))
  }

  lemma IndexedUnshared(cfg: Config, d: Disk)
    requires Consistent(cfg, d) && MessagesIndexed(d)
    ensures NoSharedMessage(d)
  {
    hide ValidRecord, HasMessage;
    forall s, t | s in d.records && t in d.records && s != t && d.records[s].messageId.Some?
      ensures d.records[s].messageId != d.records[t].messageId
    {
      assert HasOwnMessage(d, s);
      assert d.records[t].messageId.Some? ==> HasOwnMessage(d, t);
    }
  }

  lemma ClashAccepts(n: Node, call: Call)
    requires Clashes(n, call)
    ensures Accepts(n.disk, call.id) && call.messageId in n.disk.messages
    ensures forall x | x in AcceptOutcome(n, call.id, call.messageId, call.now).points ::
              x == AcceptOutcome(n, call.id, call.messageId, call.now).node.disk
  {
    hide AppendEvidence, ApplyOrphan;
  }

  lemma ThrownShares(cfg: Config, w: World, call: Call)
    requires Invariant(cfg, w) && Clashes(w.node, call)
    ensures !NoSharedMessage(AcceptOutcome(w.node, call.id, call.messageId, call.now).node.disk)
  {
    hide Sound, NoSharedMessage, AcceptOutcome, Accepts;
    ClashAccepts(w.node, call);
    ConflictShares(cfg, w.node, call.id, call.messageId, call.now, w.clock);
  }

  /** A step with a conflict leaves two records with that message id. */
  lemma ClashShares(cfg: Config, w: World, call: Call, v: World)
    requires Invariant(cfg, w) && Clashes(w.node, call)
    requires (exists error :: CallStep(cfg, w, call, error, v)) || CutStep(cfg, w, call, v)
    ensures !NoSharedMessage(v.node.disk)
  {
    hide Sound, NoSharedMessage, AcceptOutcome, Accepts;
    ClashAccepts(w.node, call);
    ThrownShares(cfg, w, call);
  }

  // -- steps without a conflict

  /** Records keep the message ids they had. */
  ghost predicate SameIds(d: Disk, x: Disk) {
    forall slot | slot in x.records && x.records[slot].messageId.Some? ::
      && slot in d.records && x.records[slot].messageId == d.records[slot].messageId
      && x.records[slot].command == d.records[slot].command
  }

  lemma MovesSameIds(cfg: Config, d: Disk, call: Call, x: Disk, first: nat)
    requires Moves(cfg, d, call, x, first) && !call.MarkAccepted?
    ensures SameIds(d, x)
  {
    hide ExpiredSlot, DrawnBefore;
    forall slot | slot in x.records && x.records[slot].messageId.Some? && slot in d.records
      ensures x.records[slot].messageId == d.records[slot].messageId
              && x.records[slot].command == d.records[slot].command
    {
      EvolvesId(d.records[slot], x.records[slot], call);
    }
  }

  lemma EvolvesId(r: Record, s: Record, call: Call)
    requires Evolves(r, s, call)
    ensures s.command == r.command
    ensures s.messageId == r.messageId
            || (call.MarkAccepted? && s.messageId == Some(call.messageId) && r.command.commandId == call.id)
  {
  }

  lemma SameIdsUnshared(d: Disk, x: Disk)
    requires SameIds(d, x) && NoSharedMessage(d)
    ensures NoSharedMessage(x)
  {
  }

  lemma SameIdsIndexed(d: Disk, x: Disk)
    requires SameIds(d, x) && MessagesIndexed(d) && x.messages == d.messages
    ensures MessagesIndexed(x)
  {
  }

  /** Every call but an acceptance, a compaction and a recovery leaves the message index alone. */
  lemma MessagesStaySame(cfg: Config, n: Node, call: Call, after: Node, error: Option<Error>)
    requires Returns(cfg, n, call, after, error) && !call.MarkAccepted? && !call.Compact? && !call.Recover?
    ensures after.disk.messages == n.disk.messages
  {
    hide Locate, AppendEvidence, AppendAck, AckIgnored, HasEvent, MarkDelivered, NoteFailure, HomeOf, HasBucket,
         RaceFor, ParkedTo, InRace;
  }

  /** Compaction takes a message pointer only with its record. */
  lemma CompactMessages(cfg: Config, n: Node, now: Time, after: Node)
    requires CompactReturns(cfg, n, now, after) && NoSharedMessage(n.disk) && MessagesIndexed(n.disk)
    ensures MessagesIndexed(after.disk)
  {
    hide Expired, PrunedTo;
    forall slot | slot in after.disk.records && after.disk.records[slot].messageId.Some?
      ensures HasOwnMessage(after.disk, slot)
    {
      var m := n.disk.records[slot].messageId.value;
      assert HasOwnMessage(n.disk, slot);
      assert !ExpiredSlot(cfg, n.disk, slot, now);
    }
  }

  /** Only the record of the accepted command can take the accepted message id. */
  ghost predicate OneMoreId(d: Disk, x: Disk, slot: Slot, m: string) {
    && slot in x.records && slot in d.records
    && (forall t | t in x.records ::
          && t in d.records && x.records[t].command == d.records[t].command
          && (x.records[t].messageId == d.records[t].messageId || (t == slot && x.records[t].messageId == Some(m))))
  }

  lemma AcceptMoves(cfg: Config, d: Disk, call: Call, x: Disk, first: nat, slot: Slot)
    requires Consistent(cfg, d) && Moves(cfg, d, call, x, first) && call.MarkAccepted?
    requires slot in d.records && slot.id == call.id && slot in x.records
    ensures OneMoreId(d, x, slot, call.messageId)
  {
    hide ExpiredSlot, Evolves, ValidRecord, HasMessage;
    forall t | t in x.records
      ensures t in d.records && x.records[t].command == d.records[t].command
      ensures x.records[t].messageId == d.records[t].messageId
              || (t == slot && x.records[t].messageId == Some(call.messageId))
    {
      EvolvesId(d.records[t], x.records[t], call);
    }
  }

  lemma OneMoreUnshared(d: Disk, x: Disk, slot: Slot, m: string)
    requires OneMoreId(d, x, slot, m) && NoSharedMessage(d)
    requires forall t | t in d.records && t != slot :: d.records[t].messageId != Some(m)
    ensures NoSharedMessage(x)
  {
  }

  lemma OneMoreIndexed(d: Disk, x: Disk, slot: Slot, m: string)
    requires OneMoreId(d, x, slot, m) && MessagesIndexed(d)
    requires x.messages == d.messages[m := MessagePointer(slot.id, d.records[slot].command.sessionId)]
    requires forall t | t in d.records && t != slot :: d.records[t].messageId != Some(m)
    ensures MessagesIndexed(x)
  {
  }

  /** Without a conflict the message id is new, and it ends up in the index. */
  lemma AcceptedMessages(n: Node, call: Call)
    requires call.MarkAccepted? && Accepts(n.disk, call.id) && !Clashes(n, call)
    ensures var slot, m := Locate(n.disk, call.id).value, call.messageId;
            var p := MessagePointer(slot.id, n.disk.records[slot].command.sessionId);
            && (m in n.disk.messages ==> n.disk.messages[m] == p)
            && AcceptOutcome(n, call.id, m, call.now).node.disk.messages == n.disk.messages[m := p]
  {
    hide AppendAck, AckIgnored, Locate, HasKind;
  }

  lemma AcceptUnshared(cfg: Config, n: Node, call: Call, x: Disk, next: nat, clock: Time)
    requires Sound(cfg, n.disk, n.next, clock) && call.MarkAccepted? && Kept(cfg, n, call, x, next)
    requires Accepts(n.disk, call.id) && !Clashes(n, call) && MessagesIndexed(n.disk) && NoSharedMessage(n.disk)
    ensures var slot := Locate(n.disk, call.id).value;
            && OneMoreId(n.disk, x, slot, call.messageId) && NoSharedMessage(x)
            && forall t | t in n.disk.records && t != slot :: n.disk.records[t].messageId != Some(call.messageId)
  {
    var d, slot := n.disk, Locate(n.disk, call.id).value;
    StoredFacts(cfg, d, call.id, n.next, clock);
    SoundIsConsistent(cfg, d, n.next, clock);
    AcceptedMessages(n, call);
    hide Sound, AcceptOutcome, Locate, NoSharedMessage, MessagesIndexed, Clashes, OneMoreId;
    assert slot in x.records by { hide Consistent, Evolves; }
    AcceptMoves(cfg, d, call, x, n.next, slot);
    forall t | t in d.records && t != slot ensures d.records[t].messageId != Some(call.messageId) {
      IdElsewhere(cfg, d, slot, t, call.messageId);
    }
    OneMoreUnshared(d, x, slot, call.messageId);
  }

  lemma IdElsewhere(cfg: Config, d: Disk, slot: Slot, t: Slot, m: string)
    requires Consistent(cfg, d) && MessagesIndexed(d) && slot in d.records && t in d.records && t != slot
    requires m in d.messages ==> d.messages[m] == MessagePointer(slot.id, d.records[slot].command.sessionId)
    ensures d.records[t].messageId != Some(m)
  {
    hide ValidRecord, HasMessage;
    assert d.records[t].messageId.Some? ==> HasOwnMessage(d, t);
  }

  lemma AcceptIndexed(cfg: Config, n: Node, call: Call, after: Node, error: Option<Error>, clock: Time)
    requires Ready(cfg, n, call, clock) && call.MarkAccepted? && Returns(cfg, n, call, after, error)
    requires !Clashes(n, call) && MessagesIndexed(n.disk) && NoSharedMessage(n.disk)
    ensures MessagesIndexed(after.disk)
  {
    hide Sound, Kept, AcceptOutcome, NoSharedMessage, MessagesIndexed, Clashes, OneMoreId, AcceptPoint, Locate;
    AcceptShape(n, call.id, call.messageId, call.now);
    if Accepts(n.disk, call.id) {
      ReturnKeeps(cfg, n, call, after, error, clock);
      AcceptUnshared(cfg, n, call, after.disk, after.next, clock);
      AcceptedMessages(n, call);
      OneMoreIndexed(n.disk, after.disk, Locate(n.disk, call.id).value, call.messageId);
    }
  }

  lemma ReturnIndexed(cfg: Config, n: Node, call: Call, after: Node, error: Option<Error>, clock: Time)
    requires Ready(cfg, n, call, clock) && Returns(cfg, n, call, after, error) && !Clashes(n, call)
    requires NoSharedMessage(n.disk) && (call.Recover? || MessagesIndexed(n.disk))
    ensures MessagesIndexed(after.disk) && !(call.Recover? && error.Some?)
  {
    hide Ready, Kept, Moves, NoSharedMessage, MessagesIndexed, Clashes, SameIds, AcceptOutcome, TransitionOutcome,
         ReceiveOutcome, DeliveredOutcome, FailureOutcome, AcknowledgeReturns, CompactReturns, RecoverReturns;
    ReturnKeeps(cfg, n, call, after, error, clock);
    if call.MarkAccepted? {
      AcceptIndexed(cfg, n, call, after, error, clock);
    } else if call.Compact? {
      CompactMessages(cfg, n, call.now, after);
    } else if call.Recover? {
      var reply :| RecoverReturns(n, call.now, after, reply) && error == ErrorOf(reply);
      RecoveredIndexed(n, call.now, after, reply);
    } else {
      MessagesStaySame(cfg, n, call, after, error);
      KeptMoves(cfg, n, call, after.disk, after.next);
      MovesSameIds(cfg, n.disk, call, after.disk, n.next);
      SameIdsIndexed(n.disk, after.disk);
    }
  }

  lemma KeptMoves(cfg: Config, n: Node, call: Call, x: Disk, next: nat)
    requires Kept(cfg, n, call, x, next)
    ensures Moves(cfg, n.disk, call, x, n.next) && Consistent(cfg, x)
  {
    hide Moves, Consistent;
  }

  lemma RecoveredIndexed(n: Node, now: Time, after: Node, reply: Reply<Recovery, Error>)
    requires RecoverReturns(n, now, after, reply) && NoSharedMessage(n.disk)
    ensures reply.Done? && MessagesIndexed(after.disk)
  {
    hide NoSharedMessage, Recovering;
  }

  lemma CutUnshared(cfg: Config, n: Node, call: Call, x: Disk, next: nat, clock: Time)
    requires Ready(cfg, n, call, clock) && Interrupted(cfg, n, call, x, next) && !Clashes(n, call)
    requires NoSharedMessage(n.disk) && (call.Recover? || MessagesIndexed(n.disk))
    ensures NoSharedMessage(x)
  {
    hide Interrupted, Kept, NoSharedMessage, MessagesIndexed, Clashes, SameIds, Moves, Sound, Locate, Accepts;
    InterruptKeeps(cfg, n, call, x, next, clock);
    if call.MarkAccepted? {
      CutAccepts(cfg, n, call, x, next);
      AcceptUnshared(cfg, n, call, x, next, clock);
    } else {
      KeptMoves(cfg, n, call, x, next);
      MovesSameIds(cfg, n.disk, call, x, n.next);
      SameIdsUnshared(n.disk, x);
    }
  }

  lemma CutAccepts(cfg: Config, n: Node, call: Call, x: Disk, next: nat)
    requires call.MarkAccepted? && Interrupted(cfg, n, call, x, next)
    ensures Accepts(n.disk, call.id)
  {
    hide AcceptOutcome, Locate, Accepts, AcceptPoint;
    AcceptShape(n, call.id, call.messageId, call.now);
  }

  lemma QuietKeeps(cfg: Config, w: World, v: World)
    requires Invariant(cfg, w) && Unshared(w) && QuietStep(cfg, w, v)
    ensures Unshared(v)
  {
    hide Sound, Indexed, Returns, Interrupted, NoSharedMessage, MessagesIndexed, Clashes, Kept;
    if call, error :| CallStep(cfg, w, call, error, v) && !Clashes(w.node, call) {
      ReturnIndexed(cfg, w.node, call, v.node, error, w.clock);
      ReturnKeeps(cfg, w.node, call, v.node, error, w.clock);
      KeptMoves(cfg, w.node, call, v.node.disk, v.node.next);
      IndexedUnshared(cfg, v.node.disk);
    } else if call :| CutStep(cfg, w, call, v) && !Clashes(w.node, call) {
      CutUnshared(cfg, w.node, call, v.node.disk, v.node.next, w.clock);
    }
  }

  lemma {:induction false} QuietSoFar(cfg: Config, t: seq<World>, i: nat)
    requires Run(cfg, t) && i < |t| && forall k | 0 <= k < i :: QuietStep(cfg, t[k], t[k + 1])
    ensures Unshared(t[i])
  {
    if i > 0 {
      hide Run, QuietStep, Invariant, Unshared;
      QuietSoFar(cfg, t, i - 1);
      RunKeeps(cfg, t, i - 1);
      assert QuietStep(cfg, t[i - 1], t[i - 1 + 1]);
      QuietKeeps(cfg, t[i - 1], t[i]);
    }
  }

  /** A step after which no message id is shared met no conflict. */
  lemma UnsharedQuiet(cfg: Config, w: World, v: World)
    requires Invariant(cfg, w) && Step(cfg, w, v) && NoSharedMessage(v.node.disk)
    ensures QuietStep(cfg, w, v)
  {
    hide Invariant, NoSharedMessage, CallStep, CutStep, CrashStep, Clashes;
    if call, error :| CallStep(cfg, w, call, error, v) {
      if Clashes(w.node, call) { ClashShares(cfg, w, call, v); }
    } else if call :| CutStep(cfg, w, call, v) {
      if Clashes(w.node, call) { ClashShares(cfg, w, call, v); }
    }
  }

  /** Over a whole run, two stored records never share a message id if and only if no acceptance met the conflict. Then
      every restart succeeds. */
  lemma QuietRunsShareNothing(cfg: Config, t: seq<World>)
    requires Run(cfg, t)
    ensures (forall i | 0 <= i < |t| :: NoSharedMessage(t[i].node.disk)) <==>
            (forall i | 0 <= i < |t| - 1 :: QuietStep(cfg, t[i], t[i + 1]))
    ensures (forall i | 0 <= i < |t| - 1 :: QuietStep(cfg, t[i], t[i + 1])) ==>
              forall i, now, after, reply | 0 <= i < |t| && RecoverReturns(t[i].node, now, after, reply) :: reply.Done?
  {
    hide Invariant, NoSharedMessage, QuietStep, Step;
    if forall i | 0 <= i < |t| - 1 :: QuietStep(cfg, t[i], t[i + 1]) {
      forall i | 0 <= i < |t| ensures NoSharedMessage(t[i].node.disk) { QuietSoFar(cfg, t, i); }
    }
    if forall i | 0 <= i < |t| :: NoSharedMessage(t[i].node.disk) {
      forall i | 0 <= i < |t| - 1 ensures QuietStep(cfg, t[i], t[i + 1]) {
        RunKeeps(cfg, t, i);
        assert Step(cfg, t[i], t[i + 1]);
        UnsharedQuiet(cfg, t[i], t[i + 1]);
      }
    }
    hide Recovering, ExactIndexes;
  }

  // ---- That it can happen ----

  ghost predicate Reachable(cfg: Config, w: World) {
    exists t :: Run(cfg, t) && t[|t| - 1] == w
  }

  lemma Reach(cfg: Config, w: World, v: World)
    requires Reachable(cfg, w) && Step(cfg, w, v)
    ensures Reachable(cfg, v)
  {
    hide Step, Starts;
    var t :| Run(cfg, t) && t[|t| - 1] == w;
    var r := t + [v];
    forall i | 0 <= i < |r| - 1 ensures Step(cfg, r[i], r[i + 1]) {
      if i < |t| - 1 { assert Step(cfg, t[i], t[i + 1]); }
    }
    assert Run(cfg, r);
  }

  lemma ReachableKeeps(cfg: Config, w: World)
    requires Reachable(cfg, w)
    ensures Invariant(cfg, w)
  {
    hide Step, Starts, Invariant;
    var t :| Run(cfg, t) && t[|t| - 1] == w;
    RunKeeps(cfg, t, |t| - 1);
  }

  /** A call that returns in a running journal. */
  lemma CallReaches(cfg: Config, w: World, call: Call, node: Node, error: Option<Error>) returns (v: World)
    requires Reachable(cfg, w) && w.up && !call.Recover? && WellFormed(call) && call.now == w.clock
    requires Returns(cfg, w.node, call, node, error)
    ensures Reachable(cfg, v) && v == World(node, w.clock, true)
  {
    hide Returns, Reachable;
    v := World(node, w.clock, true);
    assert CallStep(cfg, w, call, error, v);
    Reach(cfg, w, v);
  }

  /** A new process over an empty store. */
  lemma Boots(cfg: Config) returns (w: World)
    ensures Reachable(cfg, w) && w.up && w.node.disk == BLANK
  {
    var n := Node(BLANK, map[], 0);
    var off := World(n, 0, false);
    w := World(n, 0, true);
    assert Run(cfg, [off]);
    assert Reachable(cfg, off) by { assert [off][|[off]| - 1] == off; }
    assert RecoverReturns(n, 0, n, Done(Recovery({}, 0))) by { NothingIn(StateStarted); NothingIn(StateReceived); }
    assert CallStep(cfg, off, Recover(0), None, w);
    Reach(cfg, off, w);
  }

  lemma NothingIn(state: State)
    ensures InState(BLANK, state) == {} && RecordsAt(BLANK, {}) == {}
  {
  }

  /** What the next calls need to know about a running journal. */
  ghost predicate Holds(cfg: Config, w: World, slot: Slot, state: State) {
    && Reachable(cfg, w) && w.up && slot in w.node.disk.records && w.node.disk.records[slot].state == state
  }

  lemma Takes(cfg: Config, w: World, command: Command) returns (v: World)
    requires Reachable(cfg, w) && w.up && forall slot | slot in w.node.disk.records :: slot.id != command.commandId
    ensures Holds(cfg, v, HomeOf(cfg, command), StateReceived)
    ensures v.node.disk.messages == w.node.disk.messages && v.node.disk.orphans == w.node.disk.orphans
    ensures v.node.disk.records ==
            w.node.disk.records[HomeOf(cfg, command) := v.node.disk.records[HomeOf(cfg, command)]]
  {
    ReachableKeeps(cfg, w);
    NoPointer(cfg, w.node.disk, command.commandId);
    var o := ReceiveOutcome(cfg, w.node, command, "digest", "webhook", w.clock, 0.0, 1.0);
    hide Reachable, Invariant, Run, HasBucket;
    v := CallReaches(cfg, w, Receive(command, "digest", "webhook", 0.0, 1.0, w.clock), o.node, None);
  }

  lemma NoPointer(cfg: Config, d: Disk, id: string)
    requires Consistent(cfg, d) && forall slot | slot in d.records :: slot.id != id
    ensures id !in d.pointers
  {
    hide ValidRecord, HasMessage;
  }

  lemma Located(cfg: Config, w: World, slot: Slot)
    requires Reachable(cfg, w) && w.up && slot in w.node.disk.records
    ensures Locate(w.node.disk, slot.id) == Done(slot) && ValidRecord(w.node.disk.records[slot])
  {
    ReachableKeeps(cfg, w);
    hide Reachable, ValidRecord, HasMessage, DrawnBefore, Timely, Locate;
    LocateFinds(cfg, w.node.disk, slot.id);
  }

  lemma Begins(cfg: Config, w: World, slot: Slot) returns (v: World)
    requires Holds(cfg, w, slot, StateReceived)
    ensures Holds(cfg, v, slot, StateStarted)
    ensures v.node.disk.messages == w.node.disk.messages && v.node.disk.orphans == w.node.disk.orphans
    ensures v.node.disk.records == w.node.disk.records[slot := v.node.disk.records[slot]]
  {
    Located(cfg, w, slot);
    var o := TransitionOutcome(cfg, w.node, slot.id, StartTransition(w.clock));
    StartAppends(w.node.disk.records[slot], w.clock, w.node.next);
    hide Reachable, Locate, AppendEvidence, ValidRecord, RaceFor;
    v := CallReaches(cfg, w, MarkStarted(slot.id, w.clock), o.node, None);
  }

  lemma StartAppends(r: Record, now: Time, eventId: nat)
    requires ValidRecord(r) && r.state.StateReceived?
    ensures AppendEvidence(r, StartTransition(now), eventId).state.StateStarted?
  {
  }

  lemma Sends(cfg: Config, w: World, slot: Slot, m: string) returns (v: World)
    requires Holds(cfg, w, slot, StateStarted) && m != "" && m !in w.node.disk.messages && w.node.disk.orphans == map[]
    ensures Reachable(cfg, v) && v.up && m in v.node.disk.messages && v.node.disk.messages[m].commandId == slot.id
    ensures slot in v.node.disk.records
            && v.node.disk.records == w.node.disk.records[slot := v.node.disk.records[slot]]
  {
    Located(cfg, w, slot);
    var o := AcceptOutcome(w.node, slot.id, m, w.clock);
    hide Reachable, Locate, AppendEvidence, ValidRecord;
    v := CallReaches(cfg, w, MarkAccepted(slot.id, m, w.clock), o.node, None);
  }

  /** A second command is answered with the message id of the first: the acceptance throws. */
  lemma SendsSame(cfg: Config, w: World, slot: Slot, m: string) returns (v: World)
    requires Holds(cfg, w, slot, StateStarted) && m != ""
    requires m in w.node.disk.messages && w.node.disk.messages[m].commandId != slot.id
    ensures Reachable(cfg, v) && v.up && !NoSharedMessage(v.node.disk)
  {
    var call := MarkAccepted(slot.id, m, w.clock);
    var o := AcceptOutcome(w.node, slot.id, m, w.clock);
    Located(cfg, w, slot);
    ConflictThrows(w.node, slot, m, w.clock);
    ReturnsClash(cfg, w.node, call);
    assert Invariant(cfg, w) by { hide *; HoldsKeeps(cfg, w, slot); }
    hide *;
    ThrownShares(cfg, w, call);
    v := CallReaches(cfg, w, call, o.node, Some(MessageConflict));
  }

  lemma HoldsKeeps(cfg: Config, w: World, slot: Slot)
    requires Holds(cfg, w, slot, StateStarted)
    ensures Invariant(cfg, w)
  {
    hide Reachable, Invariant;
    ReachableKeeps(cfg, w);
  }

  lemma ReturnsClash(cfg: Config, n: Node, call: Call)
    requires Clashes(n, call)
    ensures Returns(cfg, n, call, AcceptOutcome(n, call.id, call.messageId, call.now).node, Some(MessageConflict))
  {
    hide AcceptOutcome;
  }

  lemma ConflictThrows(n: Node, slot: Slot, m: string, now: Time)
    requires Locate(n.disk, slot.id) == Done(slot) && slot in n.disk.records && n.disk.records[slot].state.StateStarted?
    requires m in n.disk.messages && n.disk.messages[m].commandId != slot.id
    ensures AcceptOutcome(n, slot.id, m, now).reply == Failed(MessageConflict)
  {
    hide Locate, AppendEvidence, ApplyOrphan;
  }

  /** Two commands are accepted with one message id, the process crashes, and the restart fails: for every
      configuration, any two commands and any message id there is such a run. */
  lemma TwoAcceptancesGetStuck(cfg: Config, a: Command, b: Command, m: string)
    requires a.commandId != b.commandId && m != ""
    ensures exists t: seq<World> ::
              && |t| > 1 && Run(cfg, t) && Stuck(t[|t| - 1])
              && CallStep(cfg, t[|t| - 2], Recover(t[|t| - 1].clock), Some(MessageConflict), t[|t| - 1])
  {
    var shared := SharesOne(cfg, a, b, m);
    hide Reachable, NoSharedMessage, CallStep;
    var off := shared.(node := shared.node.(races := map[]), up := false);
    assert CrashStep(shared, off);
    Reach(cfg, shared, off);
    FailsAgain(cfg, off);
    Ends(cfg, off);
  }

  lemma SharesOne(cfg: Config, a: Command, b: Command, m: string) returns (w: World)
    requires a.commandId != b.commandId && m != ""
    ensures Reachable(cfg, w) && w.up && !NoSharedMessage(w.node.disk)
  {
    var first, second := HomeOf(cfg, a), HomeOf(cfg, b);
    hide Reachable, NoSharedMessage;
    w := Boots(cfg);
    w := Takes(cfg, w, a);
    w := Takes(cfg, w, b);
    w := Begins(cfg, w, first);
    w := Begins(cfg, w, second);
    w := Sends(cfg, w, first, m);
    w := SendsSame(cfg, w, second, m);
  }

  /** A restart that fails changes nothing. */
  lemma FailsAgain(cfg: Config, w: World)
    requires Stuck(w) && w.node.races == map[]
    ensures CallStep(cfg, w, Recover(w.clock), Some(MessageConflict), w)
  {
    hide NoSharedMessage;
    assert RecoverReturns(w.node, w.clock, w.node, Failed(MessageConflict));
  }

  lemma Ends(cfg: Config, w: World)
    requires Reachable(cfg, w) && Stuck(w) && CallStep(cfg, w, Recover(w.clock), Some(MessageConflict), w)
    ensures exists t: seq<World> ::
              && |t| > 1 && Run(cfg, t) && Stuck(t[|t| - 1])
              && CallStep(cfg, t[|t| - 2], Recover(t[|t| - 1].clock), Some(MessageConflict), t[|t| - 1])
  {
    hide CallStep, Stuck, Starts;
    var t :| Run(cfg, t) && t[|t| - 1] == w;
    var r := t + [w];
    forall i | 0 <= i < |r| - 1 ensures Step(cfg, r[i], r[i + 1]) {
      if i < |t| - 1 { assert Step(cfg, t[i], t[i + 1]); }
    }
    assert Run(cfg, r) && r[|r| - 2] == w;
  }
}
