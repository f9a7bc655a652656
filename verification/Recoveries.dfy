/** Steps of recovery: what a disk under recovery looks like after each pointer and each bucket. */
module Recoveries {
  import opened Wrappers
  import opened Protocol
  import opened Records
  import opened JournalStore
  import opened Buckets

  /** `x` indexes the stored record of `d` at `slot` by its command id and its message id. */
  ghost predicate Listed(d: Disk, x: Disk, slot: Slot) {
    && slot in d.records
    && slot.id in x.pointers && x.pointers[slot.id] == Pointer(slot.bucket, d.records[slot].digest)
    && (d.records[slot].messageId.Some? ==>
          && d.records[slot].messageId.value in x.messages
          && x.messages[d.records[slot].messageId.value] == MessagePointer(slot.id, d.records[slot].command.sessionId))
  }

  ghost predicate Recovered(d: Disk, x: Disk, slot: Slot, now: Time, first: nat, next: nat) {
    && Listed(d, x, slot)
    && slot in x.records && RecoversTo(d.records[slot], x.records[slot], now, first, next)
  }

  ghost predicate IndexesGrow(x: Disk, y: Disk) {
    && (forall id | id in x.pointers :: id in y.pointers && y.pointers[id] == x.pointers[id])
    && (forall m | m in x.messages :: m in y.messages && y.messages[m] == x.messages[m])
  }

  function InBuckets(d: Disk, state: State, buckets: set<Bucket>): set<Slot> {
    set slot | slot in d.records && d.records[slot].state == state && slot.bucket in buckets
  }

  function InIds(d: Disk, state: State, bucket: Bucket, ids: set<string>): set<Slot> {
    set slot | slot in d.records && d.records[slot].state == state && slot.bucket == bucket && slot.id in ids
  }

  lemma OneMoreBucket(d: Disk, state: State, visited: set<Bucket>, key: Bucket)
    requires key !in visited
    ensures |InBuckets(d, state, visited + {key})| == |InBuckets(d, state, visited)| + |InBuckets(d, state, {key})|
    ensures RecordsAt(d, InBuckets(d, state, visited + {key}))
            == RecordsAt(d, InBuckets(d, state, visited)) + RecordsAt(d, InBuckets(d, state, {key}))
  {
    assert InBuckets(d, state, visited + {key}) == InBuckets(d, state, visited) + InBuckets(d, state, {key});
    assert InBuckets(d, state, visited) !! InBuckets(d, state, {key});
  }

  lemma OneMoreId(d: Disk, state: State, key: Bucket, visited: set<string>, id: string)
    requires Slot(key, id) in d.records && id !in visited
    ensures var slot := Slot(key, id);
            if d.records[slot].state == state then
              && |InIds(d, state, key, visited + {id})| == |InIds(d, state, key, visited)| + 1
              && RecordsAt(d, InIds(d, state, key, visited + {id})) ==
                  RecordsAt(d, InIds(d, state, key, visited)) + {d.records[slot]}
            else InIds(d, state, key, visited + {id}) == InIds(d, state, key, visited)
  {
    var slot := Slot(key, id);
    forall other | other in InIds(d, state, key, visited + {id})
        ensures other in InIds(d, state, key, visited) || other == slot {
      if other.id == id { assert other == Slot(other.bucket, other.id); }
    }
    if d.records[slot].state == state {
      assert InIds(d, state, key, visited + {id}) == InIds(d, state, key, visited) + {slot};
    } else {
      assert InIds(d, state, key, visited + {id}) == InIds(d, state, key, visited);
    }
  }

  lemma AllBuckets(d: Disk, state: State)
    ensures InBuckets(d, state, BucketsOf(d)) == InState(d, state)
  {
  }

  // ---- Progress ----

  /** The records of these buckets are still as they were when recovery began. */
  ghost predicate UntouchedIn(d: Disk, x: Disk, buckets: set<Bucket>) {
    forall slot | slot in d.records && slot.bucket in buckets :: slot in x.records && x.records[slot] == d.records[slot]
  }

  ghost predicate RecoveredIn(d: Disk, x: Disk, buckets: set<Bucket>, now: Time, first: nat, next: nat) {
    forall slot | slot in d.records && slot.bucket in buckets :: Recovered(d, x, slot, now, first, next)
  }

  /** No record outside the bucket changed. */
  ghost predicate OnlyBucket(x: Disk, y: Disk, bucket: Bucket) {
    forall slot: Slot | slot.bucket != bucket ::
      (slot in x.records <==> slot in y.records) && (slot in x.records ==> y.records[slot] == x.records[slot])
  }

  /** In memory, the record of one id is recovered; on disk, it is indexed. */
  ghost predicate Handled(d: Disk, x: Disk, bucket: Bucket, id: string, r: Record, now: Time, first: nat, next: nat) {
    && Listed(d, x, Slot(bucket, id))
    && RecoversTo(d.records[Slot(bucket, id)], r, now, first, next)
  }

  ghost predicate LogRecovering(d: Disk, log: seq<Disk>, from: nat, now: Time, first: nat, next: nat) {
    from <= |log| && forall i | from <= i < |log| :: Recovering(d, log[i], now, first, next)
  }

  lemma RecoveryBegins(d: Disk, buckets: set<Bucket>, log: seq<Disk>, races: map<string, Race>, now: Time, next: nat)
    ensures Recovering(d, d, now, next, next) && UntouchedIn(d, d, buckets) && RecoveredIn(d, d, {}, now, next, next)
    ensures LogRecovering(d, log, |log|, now, next, next) && FewerRaces(races, races)
    ensures RecordsAt(d, InBuckets(d, StateReceived, {})) == {} && InBuckets(d, StateStarted, {}) == {}
  {
  }

  lemma FewerStill(a: map<string, Race>, b: map<string, Race>, c: map<string, Race>)
    requires FewerRaces(a, b) && FewerRaces(b, c)
    ensures FewerRaces(a, c)
  {
  }

  lemma IndexesStill(x: Disk, y: Disk, z: Disk)
    requires IndexesGrow(x, y) && IndexesGrow(y, z)
    ensures IndexesGrow(x, z)
  {
  }

  lemma UntouchedOne(d: Disk, x: Disk, buckets: set<Bucket>, bucket: Bucket)
    requires UntouchedIn(d, x, buckets) && bucket in buckets
    ensures UntouchedIn(d, x, {bucket})
  {
  }

  /** More event ids may be drawn while recovery goes on. */
  lemma RecoveringLater(d: Disk, x: Disk, now: Time, first: nat, next: nat, later: nat)
    requires Recovering(d, x, now, first, next) && next <= later
    ensures Recovering(d, x, now, first, later)
  {
    hide HasMessage;
  }

  lemma LogLater(d: Disk, log: seq<Disk>, from: nat, now: Time, first: nat, next: nat, later: nat)
    requires LogRecovering(d, log, from, now, first, next) && next <= later
    ensures LogRecovering(d, log, from, now, first, later)
  {
    hide Recovering;
    forall i | from <= i < |log| ensures Recovering(d, log[i], now, first, later) {
      RecoveringLater(d, log[i], now, first, next, later);
    }
  }

  lemma LogAppended(d: Disk, log: seq<Disk>, longer: seq<Disk>, x: Disk, from: nat, now: Time, first: nat, next: nat)
    requires LogRecovering(d, log, from, now, first, next) && Recovering(d, x, now, first, next)
    requires longer == log || longer == log + [x]
    ensures LogRecovering(d, longer, from, now, first, next)
  {
    hide Recovering;
  }

  lemma RecoversLater(r: Record, s: Record, now: Time, first: nat, next: nat, later: nat)
    requires RecoversTo(r, s, now, first, next) && next <= later
    ensures RecoversTo(r, s, now, first, later)
  {
  }

  /** `contents` is the bucket in memory while `ids` of it are still to be recovered. */
  ghost predicate Progress(d: Disk, x: Disk, bucket: Bucket, contents: map<string, Record>, ids: set<string>,
                           visited: set<string>, now: Time, first: nat, next: nat) {
    && contents.Keys == ids + visited && ids !! visited
    && (forall id :: id in contents <==> Slot(bucket, id) in d.records)
    && (forall id | id in ids :: contents[id] == d.records[Slot(bucket, id)])
    && (forall id | id in visited :: Handled(d, x, bucket, id, contents[id], now, first, next))
  }

  lemma ProgressNext(d: Disk, x: Disk, bucket: Bucket, contents: map<string, Record>, ids: set<string>,
                     visited: set<string>, id: string, now: Time, first: nat, next: nat)
    requires Progress(d, x, bucket, contents, ids, visited, now, first, next) && id in ids
    ensures id in contents && id !in visited && Slot(bucket, id) in d.records
            && contents[id] == d.records[Slot(bucket, id)]
  {
    hide Handled;
  }

  lemma ProgressStep(d: Disk, x: Disk, y: Disk, bucket: Bucket, contents: map<string, Record>, ids: set<string>,
                     visited: set<string>, id: string, r: Record, now: Time, first: nat, next: nat, later: nat)
    requires Progress(d, x, bucket, contents, ids, visited, now, first, next) && id in ids
    requires Handled(d, y, bucket, id, r, now, first, later) && IndexesGrow(x, y) && next <= later
    ensures Progress(d, y, bucket, contents[id := r], ids - {id}, visited + {id}, now, first, later)
  {
    hide Listed, RecoversTo, IndexesGrow, Handled;
    forall other | other in visited ensures Handled(d, y, bucket, other, contents[other], now, first, later) {
      HandledLater(d, x, y, bucket, other, contents[other], now, first, next, later);
    }
  }

  lemma HandledLater(d: Disk, x: Disk, y: Disk, bucket: Bucket, id: string, r: Record, now: Time, first: nat,
                     next: nat, later: nat)
    requires Handled(d, x, bucket, id, r, now, first, next) && IndexesGrow(x, y) && next <= later
    ensures Handled(d, y, bucket, id, r, now, first, later)
  {
    hide RecoversTo;
    RecoversLater(d.records[Slot(bucket, id)], r, now, first, next, later);
  }

  lemma RecoveredLater(d: Disk, x: Disk, y: Disk, slot: Slot, now: Time, first: nat, next: nat, later: nat)
    requires Recovered(d, x, slot, now, first, next) && next <= later && IndexesGrow(x, y)
    requires slot in y.records && y.records[slot] == x.records[slot]
    ensures Recovered(d, y, slot, now, first, later)
  {
    hide RecoversTo;
    RecoversLater(d.records[slot], x.records[slot], now, first, next, later);
  }

  /** One more bucket is recovered and the others keep their progress. */
  lemma NextBucket(d: Disk, x: Disk, y: Disk, todo: set<Bucket>, visited: set<Bucket>, bucket: Bucket,
                   now: Time, first: nat, next: nat, later: nat)
    requires UntouchedIn(d, x, todo) && RecoveredIn(d, x, visited, now, first, next) && next <= later
    requires bucket !in visited && OnlyBucket(x, y, bucket) && IndexesGrow(x, y)
             && RecoveredIn(d, y, {bucket}, now, first, later)
    ensures UntouchedIn(d, y, todo - {bucket}) && RecoveredIn(d, y, visited + {bucket}, now, first, later)
  {
    forall slot | slot in d.records && slot.bucket in visited + {bucket}
        ensures Recovered(d, y, slot, now, first, later) {
      if slot.bucket != bucket {
        RecoveredLater(d, x, y, slot, now, first, next, later) by { hide IndexesGrow, Listed, RecoversTo; }
      }
    }
  }

  /** What a bucket holds before its recovery. */
  lemma BucketBegins(d: Disk, x: Disk, bucket: Bucket, races: map<string, Race>, now: Time, first: nat, next: nat)
    requires Recovering(d, x, now, first, next) && UntouchedIn(d, x, {bucket})
    ensures var contents := BucketContents(x, bucket);
            Progress(d, x, bucket, contents, contents.Keys, {}, now, first, next)
    ensures IndexesGrow(x, x) && FewerRaces(races, races)
    ensures RecordsAt(d, InIds(d, StateReceived, bucket, {})) == {} && InIds(d, StateStarted, bucket, {}) == {}
  {
    hide RecoversTo, HasMessage, BucketContents;
  }

  lemma OnePerId(cfg: Config, d: Disk, slot: Slot)
    requires Consistent(cfg, d) && slot in d.records
    ensures forall other | other in d.records && other.id == slot.id :: other == slot
    ensures slot.id in d.pointers ==> d.pointers[slot.id] == Pointer(slot.bucket, d.records[slot].digest)
  {
    hide ValidRecord, HasMessage;
  }

  lemma PointerIs(cfg: Config, d: Disk, pointers: map<string, Pointer>, slot: Slot)
    requires Consistent(cfg, d) && PointersRecovering(d, pointers) && slot in d.records && slot.id in pointers
    ensures pointers[slot.id] == Pointer(slot.bucket, d.records[slot].digest)
  {
    OnePerId(cfg, d, slot);
    hide Consistent;
    assert slot.id !in d.pointers ==> Slot(pointers[slot.id].bucket, slot.id) == slot;
  }

  lemma PointerAdded(d: Disk, pointers: map<string, Pointer>, slot: Slot)
    requires PointersRecovering(d, pointers) && slot in d.records
    requires slot.id in pointers ==> pointers[slot.id] == Pointer(slot.bucket, d.records[slot].digest)
    ensures PointersRecovering(d, pointers[slot.id := Pointer(slot.bucket, d.records[slot].digest)])
  {
  }

  lemma PointerStored(cfg: Config, d: Disk, x: Disk, slot: Slot, now: Time, first: nat, next: nat)
    requires Consistent(cfg, d) && Recovering(d, x, now, first, next) && slot in d.records
    ensures slot.id in x.pointers ==> x.pointers[slot.id] == Pointer(slot.bucket, d.records[slot].digest)
    ensures Recovering(d, SetPointer(x, slot, d.records[slot].digest), now, first, next)
    ensures IndexesGrow(x, SetPointer(x, slot, d.records[slot].digest))
  {
    hide Consistent, RecordsRecovering, MessagesRecovering, PointersRecovering;
    if slot.id in x.pointers { PointerIs(cfg, d, x.pointers, slot); }
    PointerAdded(d, x.pointers, slot);
  }

  lemma MessageClash(cfg: Config, d: Disk, slot: Slot, m: string, p: MessagePointer)
    requires Consistent(cfg, d) && slot in d.records && d.records[slot].messageId == Some(m)
    requires exists other :: HasMessage(d, m, p, other)
    requires p != MessagePointer(slot.id, d.records[slot].command.sessionId)
    ensures !NoSharedMessage(d)
  {
    hide Consistent;
    var other :| HasMessage(d, m, p, other);
    assert other != slot && d.records[other].messageId == d.records[slot].messageId;
  }

  lemma PointedTo(cfg: Config, d: Disk, messages: map<string, MessagePointer>, m: string)
    requires Consistent(cfg, d) && MessagesRecovering(d, messages) && m in messages
    ensures exists slot :: HasMessage(d, m, messages[m], slot)
  {
    hide ValidRecord, HasMessage;
  }

  lemma MessageAdded(d: Disk, messages: map<string, MessagePointer>, m: string, p: MessagePointer, slot: Slot)
    requires MessagesRecovering(d, messages) && HasMessage(d, m, p, slot) && (m in messages ==> messages[m] == p)
    ensures MessagesRecovering(d, messages[m := p])
  {
    hide HasMessage;
    var more := messages[m := p];
    forall k | k in more && k !in d.messages ensures exists t :: HasMessage(d, k, more[k], t) {
      if k != m { assert k in messages; }
    }
  }

  lemma MessageStored(cfg: Config, d: Disk, x: Disk, slot: Slot, now: Time, first: nat, next: nat)
    requires Consistent(cfg, d) && Recovering(d, x, now, first, next) && slot in d.records
    requires d.records[slot].messageId.Some?
    ensures var m, p := d.records[slot].messageId.value, MessagePointer(slot.id, d.records[slot].command.sessionId);
            if m in x.messages && x.messages[m] != p then !NoSharedMessage(d)
            else Recovering(d, x.(messages := x.messages[m := p]), now, first, next)
                 && IndexesGrow(x, x.(messages := x.messages[m := p]))
  {
    hide Consistent, RecordsRecovering, PointersRecovering, MessagesRecovering, NoSharedMessage;
    var m, p := d.records[slot].messageId.value, MessagePointer(slot.id, d.records[slot].command.sessionId);
    if m in x.messages && x.messages[m] != p {
      PointedTo(cfg, d, x.messages, m);
      MessageClash(cfg, d, slot, m, x.messages[m]);
    } else {
      assert HasMessage(d, m, p, slot);
      MessageAdded(d, x.messages, m, p, slot);
    }
  }

  lemma BucketIds(d: Disk, x: Disk, bucket: Bucket, contents: map<string, Record>, visited: set<string>,
                  now: Time, first: nat, next: nat)
    requires Progress(d, x, bucket, contents, {}, visited, now, first, next)
    ensures InIds(d, StateReceived, bucket, visited) == InBuckets(d, StateReceived, {bucket})
    ensures InIds(d, StateStarted, bucket, visited) == InBuckets(d, StateStarted, {bucket})
  {
    hide Handled;
    forall slot | slot in d.records && slot.bucket == bucket
        ensures slot.id in visited { assert slot == Slot(bucket, slot.id); }
  }

  lemma BucketWritten(d: Disk, x: Disk, bucket: Bucket, contents: map<string, Record>, visited: set<string>,
                      now: Time, first: nat, next: nat)
    requires Recovering(d, x, now, first, next) && UntouchedIn(d, x, {bucket})
    requires Progress(d, x, bucket, contents, {}, visited, now, first, next)
    ensures var y := WithBucket(x, bucket, contents);
            && Recovering(d, y, now, first, next) && RecoveredIn(d, y, {bucket}, now, first, next) && IndexesGrow(x, y)
            && OnlyBucket(x, y, bucket)
  {
    hide WithBucket, RecoversTo, MessagesRecovering, PointersRecovering;
    var y := WithBucket(x, bucket, contents);
    forall slot: Slot ensures slot in y.records <==> slot in d.records {
      if slot.bucket == bucket { assert slot == Slot(bucket, slot.id); }
    }
    forall slot | slot in d.records && slot.bucket == bucket
      ensures y.records[slot] == contents[slot.id] && Recovered(d, y, slot, now, first, next)
    {
      assert slot == Slot(bucket, slot.id) && Handled(d, x, bucket, slot.id, contents[slot.id], now, first, next);
    }
    hide Recovered, Progress;
  }

  lemma BucketUnchanged(x: Disk, bucket: Bucket)
    ensures WithBucket(x, bucket, BucketContents(x, bucket)) == x
  {
    var y := WithBucket(x, bucket, BucketContents(x, bucket));
    forall slot: Slot ensures slot in y.records <==> slot in x.records {
      if slot.bucket == bucket { assert slot == Slot(bucket, slot.id); }
    }
    assert y.records == x.records;
  }

  /** The bucket with its interrupted sends closed goes to disk; a bucket without any needs no write. */
  lemma BucketRecovered(d: Disk, x: Disk, bucket: Bucket, contents: map<string, Record>, visited: set<string>,
                        now: Time, first: nat, next: nat)
    requires Recovering(d, x, now, first, next) && UntouchedIn(d, x, {bucket})
    requires Progress(d, x, bucket, contents, {}, visited, now, first, next)
    ensures var y := WithBucket(x, bucket, contents);
            && Recovering(d, y, now, first, next) && RecoveredIn(d, y, {bucket}, now, first, next) && IndexesGrow(x, y)
            && OnlyBucket(x, y, bucket)
            && (contents == BucketContents(x, bucket) ==> y == x)
    ensures InIds(d, StateReceived, bucket, visited) == InBuckets(d, StateReceived, {bucket})
    ensures InIds(d, StateStarted, bucket, visited) == InBuckets(d, StateStarted, {bucket})
  {
    hide *;
    BucketIds(d, x, bucket, contents, visited, now, first, next);
    BucketWritten(d, x, bucket, contents, visited, now, first, next);
    BucketUnchanged(x, bucket);
  }

  lemma AllRecovered(cfg: Config, d: Disk, x: Disk, buckets: set<Bucket>, now: Time, first: nat, next: nat)
    requires Consistent(cfg, d) && Recovering(d, x, now, first, next)
    requires buckets == BucketsOf(d)
    requires RecoveredIn(d, x, buckets, now, first, next)
    ensures NoSharedMessage(d) && ExactIndexes(x)
    ensures forall slot | slot in d.records :: RecoversTo(d.records[slot], x.records[slot], now, first, next)
  {
    forall slot | slot in d.records ensures RecoversTo(d.records[slot], x.records[slot], now, first, next) {
      SlotRecovered(d, x, slot, buckets, now, first, next);
    }
    NoMessageShared(cfg, d, x, buckets, now, first, next);
    AllListed(d, x, buckets, now, first, next);
  }

  lemma SlotRecovered(d: Disk, x: Disk, slot: Slot, buckets: set<Bucket>, now: Time, first: nat, next: nat)
    requires RecoveredIn(d, x, buckets, now, first, next) && buckets == BucketsOf(d) && slot in d.records
    ensures Recovered(d, x, slot, now, first, next) && slot in x.records
    ensures RecoversTo(d.records[slot], x.records[slot], now, first, next)
    ensures x.records[slot].messageId == d.records[slot].messageId && x.records[slot].command == d.records[slot].command
  {
    assert Recovered(d, x, slot, now, first, next) by { hide Recovered; }
    RecoveredMessage(d, x, slot, now, first, next);
  }

  lemma NoMessageShared(cfg: Config, d: Disk, x: Disk, buckets: set<Bucket>, now: Time, first: nat, next: nat)
    requires Consistent(cfg, d) && RecoveredIn(d, x, buckets, now, first, next) && buckets == BucketsOf(d)
    ensures NoSharedMessage(d)
  {
    hide ValidRecord, HasMessage, RecoversTo, RecoveredIn, BucketsOf;
    forall s | s in d.records ensures Recovered(d, x, s, now, first, next) {
      SlotRecovered(d, x, s, buckets, now, first, next);
    }
  }

  lemma AllListed(d: Disk, x: Disk, buckets: set<Bucket>, now: Time, first: nat, next: nat)
    requires RecoveredIn(d, x, buckets, now, first, next) && buckets == BucketsOf(d) && x.records.Keys == d.records.Keys
    ensures ExactIndexes(x)
  {
    hide RecoversTo, RecoveredIn, BucketsOf;
    forall slot | slot in x.records
      ensures Recovered(d, x, slot, now, first, next)
      ensures x.records[slot].messageId == d.records[slot].messageId
              && x.records[slot].command == d.records[slot].command
    {
      SlotRecovered(d, x, slot, buckets, now, first, next);
    }
  }

  lemma RecoveredMessage(d: Disk, x: Disk, slot: Slot, now: Time, first: nat, next: nat)
    requires Recovered(d, x, slot, now, first, next)
    ensures x.records[slot].messageId == d.records[slot].messageId && x.records[slot].command == d.records[slot].command
  {
  }

  lemma StoredRecordFacts(cfg: Config, d: Disk, slot: Slot)
    requires Consistent(cfg, d) && slot in d.records
    ensures d.records[slot].messageId != Some("") && d.records[slot].command.commandId == slot.id
    ensures d.records[slot].state.StateStarted? ==> !HasKind(d.records[slot], SendIndeterminate)
  {
  }

  lemma RecoversByClosing(r: Record, now: Time, first: nat, next: nat)
    requires r.state.StateStarted? && first <= next && !HasKind(r, SendIndeterminate)
    ensures RecoversTo(r, AppendEvidence(r, IndeterminateTransition("PLUGIN_RESTART_AFTER_SEND_STARTED", now), next),
                       now, first, next + 1)
  {
  }

  lemma RecoversByStaying(r: Record, now: Time, first: nat, next: nat)
    requires !r.state.StateStarted?
    ensures RecoversTo(r, r, now, first, next)
  {
  }

  lemma UntouchedStill(d: Disk, x: Disk, y: Disk, buckets: set<Bucket>)
    requires UntouchedIn(d, x, buckets) && x.records == y.records
    ensures UntouchedIn(d, y, buckets)
  {
  }

  lemma OnlyIndexes(x: Disk, y: Disk, bucket: Bucket)
    requires x.records == y.records
    ensures OnlyBucket(x, y, bucket)
  {
  }

  lemma OnlyBucketStill(x: Disk, y: Disk, z: Disk, bucket: Bucket)
    requires x.records == y.records && OnlyBucket(y, z, bucket)
    ensures OnlyBucket(x, z, bucket)
  {
  }
}
