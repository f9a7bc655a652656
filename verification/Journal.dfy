/** The connector journal over its storage. Every method is the body of one `mutex.run`; `log` lists the disk after
    each storage write, which are the states a crash can leave behind. */
module Journal {
  import opened Wrappers
  import opened Protocol
  import opened Records
  import opened JournalStore
  import opened Buckets
  import opened Recoveries
  import opened Compactions
  import Sorting

  class ConnectorJournal {
    const cfg: Config
    var disk: Disk
    var races: map<string, Race>
    var next: nat
    ghost var log: seq<Disk>

    /** A fresh process over whatever the storage holds. */
    constructor (cfg: Config, disk: Disk, next: nat)
      ensures this.cfg == cfg && State() == Node(disk, map[], next) && log == []
    {
      this.cfg, this.disk, this.next := cfg, disk, next;
      races, log := map[], [];
    }

    ghost function State(): Node
      reads this
    {
      Node(disk, races, next)
    }

    // ---- Storage writes ----

    method SetBucket(bucket: Bucket, contents: map<string, Record>)
      modifies this`disk, this`log
      ensures disk == WithBucket(old(disk), bucket, contents) && log == old(log) + [disk]
    {
      disk := WithBucket(disk, bucket, contents);
      log := log + [disk];
    }

    method StorePointer(id: string, bucket: Bucket, digest: string) returns (error: Option<Error>)
      modifies this`disk, this`log
      ensures id in old(disk).pointers && old(disk).pointers[id] != Pointer(bucket, digest) ==>
                error == Some(PointerConflict) && disk == old(disk) && log == old(log)
      ensures !(id in old(disk).pointers && old(disk).pointers[id] != Pointer(bucket, digest)) ==>
                && error == None && disk == SetPointer(old(disk), Slot(bucket, id), digest)
                && log == old(log) + (if id in old(disk).pointers then [] else [disk])
    {
      if id in disk.pointers {
        if disk.pointers[id].bucket != bucket || disk.pointers[id].digest != digest {
          return Some(PointerConflict);
        }
        return None;
      }
      disk := disk.(pointers := disk.pointers[id := Pointer(bucket, digest)]);
      log := log + [disk];
      return None;
    }

    method StoreMessagePointer(messageId: string, id: string, sessionId: string) returns (error: Option<Error>)
      modifies this`disk, this`log
      ensures var p := MessagePointer(id, sessionId);
              if messageId in old(disk).messages && old(disk).messages[messageId] != p then
                error == Some(MessageConflict) && disk == old(disk) && log == old(log)
              else
                && error == None && disk == old(disk).(messages := old(disk).messages[messageId := p])
                && log == old(log) + (if messageId in old(disk).messages then [] else [disk])
    {
      if messageId in disk.messages {
        var current := disk.messages[messageId];
        if current.commandId != id || current.sessionId != sessionId {
          return Some(MessageConflict);
        }
        return None;
      }
      disk := disk.(messages := disk.messages[messageId := MessagePointer(id, sessionId)]);
      log := log + [disk];
      return None;
    }

    // ---- Lookups ----

    method LoadBucket(bucket: Bucket, create: bool) returns (reply: Reply<map<string, Record>, Error>)
      ensures reply == if HasBucket(disk, bucket)
              || create then Done(BucketContents(disk, bucket)) else Failed(MissingBucket)
    {
      if !create && !HasBucket(disk, bucket) {
        return Failed(MissingBucket);
      }
      return Done(BucketContents(disk, bucket));
    }

    method MutableRecord(id: string) returns (reply: Reply<(Bucket, map<string, Record>, Record), Error>)
      ensures match Locate(disk, id)
              case Failed(e) => reply == Failed(e)
              case Done(slot) =>
                && reply == Done((slot.bucket, BucketContents(disk, slot.bucket), disk.records[slot]))
                && slot.id == id && slot in disk.records
    {
      if id !in disk.pointers {
        return Failed(MissingIndex);
      }
      var pointer := disk.pointers[id];
      var loaded := LoadBucket(pointer.bucket, false);
      if loaded.Failed? {
        return Failed(loaded.error);
      }
      if id !in loaded.value {
        return Failed(MissingRecord);
      }
      var record := loaded.value[id];
      if record.digest != pointer.digest {
        return Failed(DigestMismatch);
      }
      return Done((pointer.bucket, loaded.value, record));
    }

    // ---- Calls on one record ----

    method Receive(command: Command, digest: string, webhookId: string, now: Time, utilization: real, maximum: real)
      returns (reply: Reply<(Record, bool), Error>)
      modifies this
      ensures var o := ReceiveOutcome(cfg, old(State()), command, digest, webhookId, now, utilization, maximum);
              State() == o.node && reply == o.reply && log == old(log) + o.points
    {
      hide BucketContents, WithBucket, HasBucket, NewRecord;
      var id := command.commandId;
      if id in disk.pointers {
        var pointer := disk.pointers[id];
        if pointer.digest != digest {
          return Failed(PayloadConflict);
        }
        var loaded := LoadBucket(pointer.bucket, false);
        if loaded.Failed? {
          return Failed(loaded.error);
        }
        if id !in loaded.value {
          return Failed(MissingRecord);
        }
        return Done((loaded.value[id], false));
      }
      var bucket := BucketOf(cfg, command);
      var loaded := LoadBucket(bucket, true);
      var contents := loaded.value;
      if id in contents {
        if contents[id].digest != digest {
          return Failed(BucketConflict);
        }
        var _ := StorePointer(id, bucket, digest);
        return Done((contents[id], false));
      }
      if maximum <= 0.0 || maximum > 1.0 {
        return Failed(InvalidOption);
      }
      if utilization >= maximum {
        return Failed(OverCapacity(utilization));
      }
      var record := NewRecord(command, digest, webhookId, next, now);
      next := next + 1;
      BucketUpdate(disk, bucket, id, record);
      SetBucket(bucket, contents[id := record]);
      var _ := StorePointer(id, bucket, digest);
      return Done((record, true));
    }

    /** The record a command pointer leads to, if there is a pointer; digests are not compared. */
    method Get(id: string) returns (reply: Reply<Option<Record>, Error>)
      ensures if id !in disk.pointers then reply == Done(None)
              else var slot := Slot(disk.pointers[id].bucket, id);
                   if !HasBucket(disk, slot.bucket) then reply == Failed(MissingBucket)
                   else if slot !in disk.records then reply == Failed(MissingRecord)
                   else reply == Done(Some(disk.records[slot]))
    {
      if id !in disk.pointers {
        return Done(None);
      }
      var loaded := LoadBucket(disk.pointers[id].bucket, false);
      if loaded.Failed? {
        return Failed(loaded.error);
      }
      if id !in loaded.value {
        return Failed(MissingRecord);
      }
      return Done(Some(loaded.value[id]));
    }

    method MarkStarted(id: string, now: Time) returns (reply: Reply<Record, Error>)
      modifies this
      ensures var o := TransitionOutcome(cfg, old(State()), id, StartTransition(now));
              State() == o.node && reply == o.reply && log == old(log) + o.points
    {
      reply := MakeTransition(id, StartTransition(now));
    }

    method MarkRejected(id: string, errorClass: ErrorClass, errorCode: string, now: Time)
      returns (reply: Reply<Record, Error>)
      modifies this
      ensures var o := TransitionOutcome(cfg, old(State()), id, RejectTransition(errorClass, errorCode, now));
              State() == o.node && reply == o.reply && log == old(log) + o.points
    {
      reply := MakeTransition(id, RejectTransition(errorClass, errorCode, now));
    }

    method MarkIndeterminate(id: string, errorCode: string, now: Time) returns (reply: Reply<Record, Error>)
      modifies this
      ensures var o := TransitionOutcome(cfg, old(State()), id, IndeterminateTransition(errorCode, now));
              State() == o.node && reply == o.reply && log == old(log) + o.points
    {
      reply := MakeTransition(id, IndeterminateTransition(errorCode, now));
    }

    method MakeTransition(id: string, transition: Transition) returns (reply: Reply<Record, Error>)
      modifies this
      ensures var o := TransitionOutcome(cfg, old(State()), id, transition);
              State() == o.node && reply == o.reply && log == old(log) + o.points
    {
      hide BucketContents, WithBucket, AppendEvidence, RaceFor;
      var found := MutableRecord(id);
      if found.Failed? {
        return Failed(found.error);
      }
      var (bucket, contents, record) := found.value;
      if record.state == transition.state {
        if record.state.StateStarted? {
          races := races[id := RaceFor(cfg, record)];
        }
        return Done(record);
      }
      if IsTerminal(record.state) {
        races := races - {id};
        return Done(record);
      }
      if transition.state.StateStarted? && !record.state.StateReceived? {
        return Failed(WrongState(record.state));
      }
      if transition.state.StateRejected? && !record.state.StateReceived? {
        return Failed(WrongState(record.state));
      }
      record := AppendEvidence(record, transition, next);
      next := next + 1;
      if record.state.StateStarted? {
        races := races[id := RaceFor(cfg, record)];
      } else {
        races := races - {id};
      }
      BucketUpdate(disk, bucket, id, record);
      SetBucket(bucket, contents[id := record]);
      return Done(record);
    }

    method MarkAccepted(id: string, messageId: string, now: Time) returns (reply: Reply<Record, Error>)
      modifies this
      ensures var o := AcceptOutcome(old(State()), id, messageId, now);
              State() == o.node && reply == o.reply && log == old(log) + o.points
    {
      hide BucketContents, WithBucket, AppendEvidence, ApplyOrphan, Locate;
      var found := MutableRecord(id);
      if found.Failed? {
        return Failed(found.error);
      }
      var (bucket, contents, record) := found.value;
      if IsTerminal(record.state) {
        races := races - {id};
        return Done(record);
      }
      if !record.state.StateStarted? {
        return Failed(WrongState(record.state));
      }
      reply := AcceptStarted(id, bucket, contents, messageId, now);
    }

    /** The part of `markAccepted` after its checks. */
    method AcceptStarted(id: string, bucket: Bucket, contents: map<string, Record>, messageId: string, now: Time)
      returns (reply: Reply<Record, Error>)
      requires contents == BucketContents(disk, bucket) && id in contents && Slot(bucket, id) in disk.records
      requires contents[id] == disk.records[Slot(bucket, id)]
      modifies this
      ensures var o := AcceptedOutcome(old(State()), Slot(bucket, id), messageId, now);
              State() == o.node && reply == o.reply && log == old(log) + o.points
    {
      hide BucketContents, WithBucket, AppendEvidence, AcceptedIndexed;
      var record := contents[id];
      var acknowledgementId := next + 1;
      record := AppendEvidence(record, AcceptTransition(messageId, now), next);
      record := record.(messageId := Some(messageId));
      next := next + 2;
      races := races - {id};
      BucketUpdate(disk, bucket, id, record);
      SetBucket(bucket, contents[id := record]);
      BucketAfterUpdate(old(disk), bucket, id, record);
      reply := IndexAccepted(id, record, bucket, contents[id := record], messageId, acknowledgementId);
    }

    method IndexAccepted(id: string, record: Record, bucket: Bucket, contents: map<string, Record>, messageId: string,
                         eventId: nat)
      returns (reply: Reply<Record, Error>)
      requires contents == BucketContents(disk, bucket)
      modifies this`disk, this`log
      ensures var (d, points, r) := AcceptedIndexed(old(disk), Slot(bucket, id), record, messageId, eventId);
              disk == d && log == old(log) + points && reply == r
    {
      hide BucketContents, ApplyOrphan;
      var error := StoreMessagePointer(messageId, id, record.command.sessionId);
      if error.Some? {
        return Failed(error.value);
      }
      SameContents(old(disk), disk, bucket);
      var applied := ApplyOrphanAck(id, record, bucket, contents, messageId, eventId);
      return Done(applied);
    }

    method ApplyOrphanAck(id: string, record: Record, bucket: Bucket, contents: map<string, Record>,
                          messageId: string, eventId: nat)
      returns (result: Record)
      requires contents == BucketContents(disk, bucket)
      modifies this`disk, this`log
      ensures var (d, points, r) := ApplyOrphan(old(disk), Slot(bucket, id), record, messageId, eventId);
              disk == d && log == old(log) + points && result == r
    {
      hide BucketContents, WithBucket, HasKind, AckIgnored;
      if messageId !in disk.orphans || disk.orphans[messageId].sessionId != record.command.sessionId {
        return record;
      }
      var orphan := disk.orphans[messageId];
      result := AppendAck(record, orphan.status, eventId, orphan.occurredAt);
      if !AckIgnored(record, orphan.status) {
        BucketUpdate(disk, bucket, id, result);
        SetBucket(bucket, contents[id := result]);
      }
      disk := disk.(orphans := disk.orphans - {messageId});
      log := log + [disk];
    }

    method MarkEvidenceDelivered(id: string, eventId: nat, now: Time) returns (reply: Reply<(), Error>)
      modifies this
      ensures var o := DeliveredOutcome(old(State()), id, eventId, now);
              State() == o.node && reply == o.reply && log == old(log) + o.points
    {
      hide BucketContents, WithBucket, MarkDelivered, NoteFailure;
      var found := MutableRecord(id);
      if found.Failed? {
        return Failed(found.error);
      }
      var (bucket, contents, record) := found.value;
      if !HasEvent(record, eventId) || record.evidence[EventIndex(record, eventId)].deliveredAt.Some? {
        return Done(());
      }
      record := MarkDelivered(record, eventId, now);
      BucketUpdate(disk, bucket, id, record);
      SetBucket(bucket, contents[id := record]);
      return Done(());
    }

    method NoteEvidenceFailure(id: string, eventId: nat, error: string, now: Time) returns (reply: Reply<(), Error>)
      modifies this
      ensures var o := FailureOutcome(old(State()), id, eventId, error, now);
              State() == o.node && reply == o.reply && log == old(log) + o.points
    {
      hide BucketContents, WithBucket, MarkDelivered, NoteFailure;
      var found := MutableRecord(id);
      if found.Failed? {
        return Failed(found.error);
      }
      var (bucket, contents, record) := found.value;
      if !HasEvent(record, eventId) || record.evidence[EventIndex(record, eventId)].deliveredAt.Some? {
        return Done(());
      }
      record := NoteFailure(record, eventId, error, now);
      BucketUpdate(disk, bucket, id, record);
      SetBucket(bucket, contents[id := record]);
      return Done(());
    }

    // ---- Acknowledgements ----

    method AppendAcknowledgement(sessionId: string, messageId: string, status: AckStatus, occurredAt: Time,
                                 observedAt: Time)
      returns (reply: Reply<bool, Error>)
      requires ValidConfig(cfg)
      modifies this
      ensures AcknowledgeReturns(cfg, old(State()), sessionId, messageId, status, occurredAt, observedAt, State(),
                                 reply)
      ensures old(log) <= log
      ensures forall i | |old(log)| <= i < |log| ::
                log[i] == disk || (log[i] == old(disk).(orphans := log[i].orphans)
                                   && Fewer(log[i].orphans, old(disk).orphans))
    {
      hide BucketContents, WithBucket, HasBucket, ParkedTo, AppendAck, AckIgnored, ValidConfig;
      if messageId !in disk.messages {
        if !InRace(races, sessionId, occurredAt) {
          return Done(false);
        }
        StoreOrphanAck(sessionId, messageId, status, occurredAt, observedAt);
        return Done(false);
      }
      var pointer := disk.messages[messageId];
      if pointer.sessionId != sessionId {
        return Done(false);
      }
      var found := MutableRecord(pointer.commandId);
      if found.Failed? {
        return Failed(found.error);
      }
      var (bucket, contents, record) := found.value;
      var changed := !AckIgnored(record, status);
      if changed {
        record := AppendAck(record, status, next, occurredAt);
        next := next + 1;
        BucketUpdate(disk, bucket, pointer.commandId, record);
        SetBucket(bucket, contents[pointer.commandId := record]);
      }
      return Done(changed);
    }

    method StoreOrphanAck(sessionId: string, messageId: string, status: AckStatus, occurredAt: Time, observedAt: Time)
      requires ValidConfig(cfg)
      modifies this`disk, this`log
      ensures disk == old(disk).(orphans := disk.orphans)
      ensures ParkedTo(cfg, old(disk).orphans, messageId, Orphan(sessionId, status, occurredAt), observedAt,
                       disk.orphans)
      ensures old(log) <= log
      ensures forall i | |old(log)| <= i < |log| ::
                log[i] == disk || (log[i] == old(disk).(orphans := log[i].orphans)
                                   && Fewer(log[i].orphans, old(disk).orphans))
    {
      if occurredAt > observedAt + ACK_CLOCK_SKEW || observedAt - occurredAt > cfg.orphanRetention {
        return;
      }
      if messageId in disk.orphans {
        if ShouldReplaceAck(disk.orphans[messageId].status, status) {
          disk := disk.(orphans := disk.orphans[messageId := Orphan(sessionId, status, occurredAt)]);
          log := log + [disk];
        }
        return;
      }
      var _ := PruneOrphanAcknowledgements(observedAt, cfg.maximumOrphans - 1);
      ghost var pruned := disk.orphans;
      disk := disk.(orphans := disk.orphans[messageId := Orphan(sessionId, status, occurredAt)]);
      log := log + [disk];
      assert disk.orphans - {messageId} == pruned;
    }

    method SetOrphanBucket(shard: nat, buckets: map<string, Orphan>)
      modifies this`disk, this`log
      ensures forall m :: m in disk.orphans <==> if cfg.shard(m) == shard then m in buckets else m in old(disk).orphans
      ensures forall m | m in disk.orphans ::
                disk.orphans[m] == if cfg.shard(m) == shard then buckets[m] else old(disk).orphans[m]
      ensures disk == old(disk).(orphans := disk.orphans) && log == old(log) + [disk]
    {
      var others := map m | m in disk.orphans && cfg.shard(m) != shard :: disk.orphans[m];
      disk := disk.(orphans := others + (map m | m in buckets && cfg.shard(m) == shard :: buckets[m]));
      log := log + [disk];
    }

    /** Evicts what is outside the window and then the oldest ones beyond `retainAtMost`; every changed bucket is
        written once. */
    method PruneOrphanAcknowledgements(now: Time, retainAtMost: int) returns (removed: int)
      requires ValidConfig(cfg)
      modifies this`disk, this`log
      ensures disk == old(disk).(orphans := disk.orphans)
      ensures PrunedTo(cfg, old(disk).orphans, disk.orphans, now, if retainAtMost < 0 then 0 else retainAtMost)
      ensures removed == |old(disk).orphans| - |disk.orphans|
      ensures old(log) <= log
      ensures forall i | |old(log)| <= i < |log| :: Pruning(old(disk), log[i], disk.orphans)
    {
      var stored := disk.orphans;
      var limit := if retainAtMost < 0 then 0 else retainAtMost;
      var buckets, changed, retained, stale := DropStale(stored, now);
      var excess := if |retained| > limit then |retained| - limit else 0;
      EvictionOrderTotal(cfg, stored);
      ghost var unsorted := retained;
      retained := Sorting.Sort(retained, EvictionOrder(cfg, stored));
      Sorting.SameElements(unsorted, retained);
      var evicted;
      buckets, changed, evicted := DropOldest(stored, buckets, changed, retained, excess);
      assert Sorting.Elements(retained) == Live(cfg, stored, now);
      EvictionKeepsNewest(cfg, stored, retained, excess, buckets, now, limit);
      removed := stale + evicted;
      WriteChangedBuckets(changed, buckets);
    }

    method DropStale(stored: map<string, Orphan>, now: Time)
      returns (buckets: map<string, Orphan>, changed: set<nat>, retained: seq<string>, removed: nat)
      ensures Fewer(buckets, stored)
      ensures forall m :: m in buckets <==> m in Live(cfg, stored, now)
      ensures forall m :: m in retained <==> m in Live(cfg, stored, now)
      ensures Sorting.Distinct(retained)
      ensures forall m | m in stored && m !in buckets :: cfg.shard(m) in changed
      ensures removed == |stored| - |buckets|
    {
      buckets, changed, retained, removed := stored, {}, [], 0;
      var unread := stored.Keys;
      while unread != {}
        invariant unread <= stored.Keys && Fewer(buckets, stored)
        invariant forall m :: m in buckets <==> m in stored && (m in unread || InWindow(cfg, stored[m], now))
        invariant Sorting.Distinct(retained)
        invariant forall m :: m in retained <==> m in stored && m !in unread && InWindow(cfg, stored[m], now)
        invariant forall m | m in stored && m !in buckets :: cfg.shard(m) in changed
        invariant removed == |stored| - |buckets|
      {
        var m :| m in unread;
        unread := unread - {m};
        if !InWindow(cfg, stored[m], now) {
          buckets := buckets - {m};
          changed := changed + {cfg.shard(m)};
          removed := removed + 1;
        } else {
          retained := retained + [m];
        }
      }
    }

    method DropOldest(stored: map<string, Orphan>, before: map<string, Orphan>, touched: set<nat>,
                      sorted: seq<string>, excess: nat)
      returns (buckets: map<string, Orphan>, changed: set<nat>, removed: nat)
      requires Fewer(before, stored) && Sorting.Distinct(sorted) && excess <= |sorted|
      requires forall m :: m in before <==> m in sorted
      requires forall m | m in stored && m !in before :: cfg.shard(m) in touched
      ensures Fewer(buckets, stored) && buckets.Keys == Sorting.Elements(sorted[excess..])
      ensures forall m | m in stored && m !in buckets :: cfg.shard(m) in changed
      ensures removed == |before| - |buckets|
    {
      buckets, changed, removed := before, touched, 0;
      hide Sorting.Elements, Sorting.Distinct;
      assert sorted[0..] == sorted;
      for i := 0 to excess
        invariant Fewer(buckets, stored)
        invariant forall m :: m in buckets <==> m in sorted[i..]
        invariant forall m | m in stored && m !in buckets :: cfg.shard(m) in changed
        invariant removed == |before| - |buckets|
      {
        Sorting.DropFirst(sorted, i);
        buckets, changed := Evict(stored, buckets, changed, sorted[i]);
        removed := removed + 1;
      }
      Sorting.KeysAre(buckets, sorted[excess..]);
    }

    method Evict(stored: map<string, Orphan>, before: map<string, Orphan>, touched: set<nat>, m: string)
      returns (buckets: map<string, Orphan>, changed: set<nat>)
      requires Fewer(before, stored) && m in before
      requires forall k | k in stored && k !in before :: cfg.shard(k) in touched
      ensures Fewer(buckets, stored) && |buckets| == |before| - 1
      ensures forall k :: k in buckets <==> k in before && k != m
      ensures forall k | k in stored && k !in buckets :: cfg.shard(k) in changed
    {
      buckets := before - {m};
      changed := touched + {cfg.shard(m)};
    }

    method WriteChangedBuckets(changed: set<nat>, buckets: map<string, Orphan>)
      requires Fewer(buckets, disk.orphans)
      requires forall m | m in disk.orphans && m !in buckets :: cfg.shard(m) in changed
      modifies this`disk, this`log
      ensures disk == old(disk).(orphans := buckets)
      ensures old(log) <= log
      ensures forall i | |old(log)| <= i < |log| :: Pruning(old(disk), log[i], buckets)
    {
      var unwritten := changed;
      while unwritten != {}
        invariant disk == old(disk).(orphans := disk.orphans) && Fewer(disk.orphans, old(disk).orphans)
        invariant Fewer(buckets, disk.orphans)
        invariant forall m | m in disk.orphans && m !in buckets :: cfg.shard(m) in unwritten
        invariant old(log) <= log
        invariant forall i | |old(log)| <= i < |log| :: Pruning(old(disk), log[i], buckets)
      {
        var shard :| shard in unwritten;
        unwritten := unwritten - {shard};
        SetOrphanBucket(shard, buckets);
      }
      assert disk.orphans == buckets;
    }

    // ---- Recovery ----

    /** Completes both indexes and closes interrupted sends, one command bucket at a time. */
    method Recover(now: Time) returns (reply: Reply<Recovery, Error>)
      requires Consistent(cfg, disk)
      modifies this
      ensures RecoverReturns(old(State()), now, State(), reply)
      ensures old(log) <= log
      ensures LogRecovering(old(disk), log, |old(log)|, now, old(next), next)
    {
      hide Consistent, Recovering, RecoveredIn, UntouchedIn, OnlyBucket, LogRecovering, NoSharedMessage, IndexesGrow,
           FewerRaces, BucketsOf, InBuckets, InState, RecordsAt;
      ghost var d := disk;
      ghost var visited: set<Bucket> := {};
      var keys := BucketsOf(disk);
      var resumable: set<Record> := {};
      var indeterminate := 0;
      RecoveryBegins(d, keys, log, races, now, next);
      while keys != {}
        invariant old(next) <= next && Recovering(d, disk, now, old(next), next)
        invariant keys !! visited && keys + visited == BucketsOf(d)
        invariant UntouchedIn(d, disk, keys) && RecoveredIn(d, disk, visited, now, old(next), next)
        invariant resumable == RecordsAt(d, InBuckets(d, StateReceived, visited))
        invariant indeterminate == |InBuckets(d, StateStarted, visited)|
        invariant old(log) <= log && LogRecovering(d, log, |old(log)|, now, old(next), next)
        invariant FewerRaces(races, old(races))
      {
        var key :| key in keys;
        ghost var before, next0, races0 := disk, next, races;
        UntouchedOne(d, disk, keys, key);
        var error, received, started := RecoverBucket(d, old(next), |old(log)|, key, now);
        FewerStill(races, races0, old(races));
        if error.Some? {
          return Failed(error.value);
        }
        NextBucket(d, before, disk, keys, visited, key, now, old(next), next0, next);
        OneMoreBucket(d, StateReceived, visited, key);
        OneMoreBucket(d, StateStarted, visited, key);
        keys := keys - {key};
        visited := visited + {key};
        resumable := resumable + received;
        indeterminate := indeterminate + started;
      }
      AllBuckets(d, StateReceived);
      AllBuckets(d, StateStarted);
      AllRecovered(cfg, d, disk, visited, now, old(next), next);
      return Done(Recovery(resumable, indeterminate));
    }

    method RecoverBucket(ghost d: Disk, ghost first: nat, ghost from: nat, key: Bucket, now: Time)
      returns (error: Option<Error>, resumable: set<Record>, indeterminate: nat)
      requires Consistent(cfg, d) && first <= next && Recovering(d, disk, now, first, next)
      requires UntouchedIn(d, disk, {key}) && LogRecovering(d, log, from, now, first, next)
      modifies this
      ensures old(next) <= next && Recovering(d, disk, now, first, next)
      ensures OnlyBucket(old(disk), disk, key) && IndexesGrow(old(disk), disk)
      ensures error.None? ==> RecoveredIn(d, disk, {key}, now, first, next)
      ensures error.None? ==> resumable == RecordsAt(d, InBuckets(d, StateReceived, {key}))
      ensures error.None? ==> indeterminate == |InBuckets(d, StateStarted, {key})|
      ensures error.Some? ==> error.value == MessageConflict && !NoSharedMessage(d)
      ensures old(log) <= log && LogRecovering(d, log, from, now, first, next)
      ensures FewerRaces(races, old(races))
    {
      hide Consistent, Recovering, UntouchedIn, RecoveredIn, NoSharedMessage, WithBucket, BucketContents, LogRecovering,
           IndexesGrow, FewerRaces, Handled, Progress, InBuckets, InIds, RecordsAt, OnlyBucket;
      error, resumable, indeterminate := None, {}, 0;
      var contents := BucketContents(disk, key);
      var changed := false;
      var ids := contents.Keys;
      ghost var visited: set<string> := {};
      BucketBegins(d, disk, key, races, now, first, next);
      while ids != {}
        invariant old(next) <= next && Recovering(d, disk, now, first, next)
        invariant disk.records == old(disk).records && IndexesGrow(old(disk), disk)
        invariant Progress(d, disk, key, contents, ids, visited, now, first, next)
        invariant !changed ==> contents == BucketContents(old(disk), key)
        invariant resumable == RecordsAt(d, InIds(d, StateReceived, key, visited))
        invariant indeterminate == |InIds(d, StateStarted, key, visited)|
        invariant old(log) <= log && LogRecovering(d, log, from, now, first, next)
        invariant FewerRaces(races, old(races))
      {
        var id :| id in ids;
        ghost var before, next0, races0 := disk, next, races;
        ProgressNext(d, disk, key, contents, ids, visited, id, now, first, next);
        var failed, record, interrupted := RecoverRecord(d, first, from, key, id, contents[id], now);
        FewerStill(races, races0, old(races));
        IndexesStill(old(disk), before, disk);
        if failed.Some? {
          OnlyIndexes(old(disk), disk, key);
          return failed, {}, 0;
        }
        ProgressStep(d, before, disk, key, contents, ids, visited, id, record, now, first, next0, next);
        OneMoreId(d, StateReceived, key, visited, id);
        OneMoreId(d, StateStarted, key, visited, id);
        ids := ids - {id};
        visited := visited + {id};
        contents := contents[id := record];
        if interrupted {
          changed := true;
          indeterminate := indeterminate + 1;
        } else if record.state.StateReceived? {
          resumable := resumable + {record};
        }
      }
      SameContents(old(disk), disk, key);
      UntouchedStill(d, old(disk), disk, {key});
      BucketRecovered(d, disk, key, contents, visited, now, first, next);
      IndexesStill(old(disk), disk, WithBucket(disk, key, contents));
      OnlyBucketStill(old(disk), disk, WithBucket(disk, key, contents), key);
      if changed {
        SetBucket(key, contents);
        LogAppended(d, log[..|log| - 1], log, disk, from, now, first, next);
      }
    }

    /** Restores the pointers of one record and, in memory, closes its interrupted send. */
    method RecoverRecord(ghost d: Disk, ghost first: nat, ghost from: nat, key: Bucket, id: string, record: Record,
                         now: Time)
      returns (error: Option<Error>, after: Record, interrupted: bool)
      requires Consistent(cfg, d) && first <= next && Recovering(d, disk, now, first, next)
      requires Slot(key, id) in d.records && record == d.records[Slot(key, id)]
      requires LogRecovering(d, log, from, now, first, next)
      modifies this
      ensures old(next) <= next && Recovering(d, disk, now, first, next)
      ensures disk.records == old(disk).records && IndexesGrow(old(disk), disk)
      ensures error.None? ==> Handled(d, disk, key, id, after, now, first, next)
      ensures error.None? ==> (interrupted <==> record.state.StateStarted?) && (!interrupted ==> after == record)
      ensures error.Some? ==> error.value == MessageConflict && !NoSharedMessage(d)
      ensures old(log) <= log && LogRecovering(d, log, from, now, first, next)
      ensures FewerRaces(races, old(races))
    {
      hide Consistent, Recovering, RecoversTo, NoSharedMessage, AppendEvidence, LogRecovering;
      error, after, interrupted := None, record, record.state.StateStarted?;
      ghost var slot := Slot(key, id);
      StoredRecordFacts(cfg, d, slot);
      PointerStored(cfg, d, disk, slot, now, first, next);
      var _ := StorePointer(id, key, record.digest);
      LogAppended(d, old(log), log, disk, from, now, first, next);
      if record.messageId.Some? && record.messageId != Some("") {
        MessageStored(cfg, d, disk, slot, now, first, next);
        ghost var before := log;
        error := StoreMessagePointer(record.messageId.value, id, record.command.sessionId);
        if error.Some? {
          return;
        }
        LogAppended(d, before, log, disk, from, now, first, next);
      }
      if interrupted {
        races := races - {id};
        after := AppendEvidence(record, IndeterminateTransition("PLUGIN_RESTART_AFTER_SEND_STARTED", now), next);
        RecoversByClosing(record, now, first, next);
        RecoveringLater(d, disk, now, first, next, next + 1);
        LogLater(d, log, from, now, first, next, next + 1);
        next := next + 1;
      } else {
        RecoversByStaying(record, now, first, next);
      }
    }

    // ---- Compaction ----

    /** Removes the expired records, every pointer before its record, and prunes the parked acknowledgements. */
    method Compact(now: Time) returns (removed: int)
      requires ValidConfig(cfg) && Consistent(cfg, disk)
      modifies this`disk, this`log
      ensures CompactReturns(cfg, old(State()), now, State())
      ensures removed == |old(disk).records| - |disk.records| + |old(disk).orphans| - |disk.orphans|
      ensures old(log) <= log && LogCompacting(cfg, old(disk), log, |old(log)|, now)
    {
      hide Consistent, Compacting, PrunedTo, UntouchedIn, GoneIn, OnlyBucket, IndexesShrink, LogCompacting, BucketsOf,
           CompactReturns;
      ghost var d := disk;
      ghost var visited: set<Bucket> := {};
      var keys := BucketsOf(disk);
      removed := 0;
      CompactionBegins(cfg, d, log, now);
      while keys != {}
        invariant Compacting(cfg, d, disk, now) && disk.orphans == d.orphans
        invariant keys !! visited && keys + visited == BucketsOf(d)
        invariant UntouchedIn(d, disk, keys) && GoneIn(cfg, d, disk, visited, now)
        invariant removed == |d.records| - |disk.records|
        invariant old(log) <= log && LogCompacting(cfg, d, log, |old(log)|, now)
      {
        var key :| key in keys;
        ghost var before := disk;
        UntouchedOne(d, disk, keys, key);
        var gone := CompactBucket(d, |old(log)|, key, now);
        NextCompacted(cfg, d, before, disk, keys, visited, key, now);
        keys := keys - {key};
        visited := visited + {key};
        removed := removed + gone;
      }
      ghost var compacted, before := disk, log;
      var pruned := PruneOrphanAcknowledgements(now, cfg.maximumOrphans);
      removed := removed + pruned;
      CompactFinished(cfg, old(State()), compacted, State(), visited, now);
      LogPruned(cfg, d, compacted, before, log, disk.orphans, |old(log)|, now);
    }

    method CompactBucket(ghost d: Disk, ghost from: nat, key: Bucket, now: Time) returns (removed: nat)
      requires Consistent(cfg, d) && Compacting(cfg, d, disk, now) && disk.orphans == d.orphans
      requires UntouchedIn(d, disk, {key}) && LogCompacting(cfg, d, log, from, now)
      modifies this`disk, this`log
      ensures Compacting(cfg, d, disk, now) && disk.orphans == d.orphans
      ensures OnlyBucket(old(disk), disk, key) && IndexesShrink(old(disk), disk) && GoneIn(cfg, d, disk, {key}, now)
      ensures removed == |old(disk).records| - |disk.records|
      ensures old(log) <= log && LogCompacting(cfg, d, log, from, now)
    {
      hide Consistent, Compacting, UntouchedIn, WithBucket, BucketContents, Settled, IndexesShrink, LogCompacting,
           GoneIn;
      removed := 0;
      var contents := BucketContents(disk, key);
      BucketCompactionBegins(cfg, d, disk, key, now);
      ghost var all := contents;
      var ids := contents.Keys;
      while ids != {}
        invariant Judged(cfg, d, disk, key, all, contents, ids, now)
        invariant disk.records == old(disk).records && disk.orphans == d.orphans && IndexesShrink(old(disk), disk)
        invariant removed == |all| - |contents|
        invariant Compacting(cfg, d, disk, now)
        invariant old(log) <= log && LogCompacting(cfg, d, log, from, now)
      {
        var id :| id in ids;
        ghost var before := disk;
        var expired := CompactRecord(d, from, key, id, contents[id], now);
        ShrinksStill(old(disk), before, disk);
        JudgedStep(cfg, d, before, disk, key, all, contents, ids, id, !expired, now);
        ids := ids - {id};
        if expired {
          contents := contents - {id};
          removed := removed + 1;
        }
      }
      UntouchedStill(d, old(disk), disk, {key});
      BucketCompacted(cfg, d, disk, key, all, contents, now);
      BucketSize(disk, key, all, contents) by { SameContents(old(disk), disk, key); }
      ShrinksStill(old(disk), disk, WithBucket(disk, key, contents));
      LogCompacted(cfg, d, log, WithBucket(disk, key, contents), from, now);
      SetBucket(key, contents);
    }

    /** Decides whether a record expired and, if so, removes the pointers to it. */
    method CompactRecord(ghost d: Disk, ghost from: nat, key: Bucket, id: string, record: Record, now: Time)
      returns (expired: bool)
      requires Consistent(cfg, d) && Compacting(cfg, d, disk, now) && LogCompacting(cfg, d, log, from, now)
      requires Slot(key, id) in d.records && record == d.records[Slot(key, id)]
      modifies this`disk, this`log
      ensures Compacting(cfg, d, disk, now) && Settled(cfg, d, disk, key, id, !expired, now)
      ensures disk.records == old(disk).records && disk.orphans == old(disk).orphans && IndexesShrink(old(disk), disk)
      ensures old(log) <= log && LogCompacting(cfg, d, log, from, now)
    {
      hide Consistent, Compacting, LogCompacting, AllDelivered;
      if !IsTerminal(record.state) || !AllDelivered(record) || now - record.updatedAt < cfg.terminalRetention {
        return false;
      }
      StoredRecordFacts(cfg, d, Slot(key, id));
      PointerRemoved(cfg, d, disk, Slot(key, id), now);
      disk := disk.(pointers := disk.pointers - {id});
      LogCompacted(cfg, d, log, disk, from, now);
      log := log + [disk];
      if record.messageId.Some? && record.messageId != Some("") {
        MessageRemoved(cfg, d, disk, Slot(key, id), now);
        disk := disk.(messages := disk.messages - {record.messageId.value});
        LogCompacted(cfg, d, log, disk, from, now);
        log := log + [disk];
      }
      return true;
    }
  }

  lemma EvictionOrderTotal(cfg: Config, orphans: map<string, Orphan>)
    requires ValidConfig(cfg)
    ensures Sorting.TotalPreorder(EvictionOrder(cfg, orphans))
  {
  }
}
