/** Steps of compaction: what a disk under compaction looks like after each pointer and each bucket. */
module Compactions {
  import opened Wrappers
  import opened Protocol
  import opened Records
  import opened JournalStore
  import opened Buckets
  import opened Recoveries

  /** Nothing leads to the record at `slot` any more. */
  ghost predicate Unlisted(d: Disk, x: Disk, slot: Slot) {
    && slot in d.records
    && slot.id !in x.pointers
    && (d.records[slot].messageId.Some? ==> d.records[slot].messageId.value !in x.messages)
  }

  ghost predicate IndexesShrink(x: Disk, y: Disk) {
    && (forall id | id in y.pointers :: id in x.pointers)
    && (forall m | m in y.messages :: m in x.messages)
  }

  lemma CompactingItself(cfg: Config, d: Disk, now: Time)
    requires Consistent(cfg, d)
    ensures Compacting(cfg, d, d, now)
  {
    hide ValidRecord, HasMessage;
  }

  lemma PointerRemoved(cfg: Config, d: Disk, x: Disk, slot: Slot, now: Time)
    requires Consistent(cfg, d) && Compacting(cfg, d, x, now) && ExpiredSlot(cfg, d, slot, now) && slot in d.records
    ensures Compacting(cfg, d, x.(pointers := x.pointers - {slot.id}), now)
  {
    OnePerId(cfg, d, slot);
    hide *;
    PointerGone(cfg, d, x, slot, now);
  }

  lemma PointerGone(cfg: Config, d: Disk, x: Disk, slot: Slot, now: Time)
    requires Compacting(cfg, d, x, now) && ExpiredSlot(cfg, d, slot, now)
    requires slot.id in d.pointers ==> d.pointers[slot.id] == Pointer(slot.bucket, d.records[slot].digest)
    ensures Compacting(cfg, d, x.(pointers := x.pointers - {slot.id}), now)
  {
    hide Expired;
    assert slot.id in d.pointers ==> Slot(d.pointers[slot.id].bucket, slot.id) == slot;
  }

  lemma MessageRemoved(cfg: Config, d: Disk, x: Disk, slot: Slot, now: Time)
    requires Compacting(cfg, d, x, now) && ExpiredSlot(cfg, d, slot, now) && d.records[slot].messageId.Some?
    ensures Compacting(cfg, d, x.(messages := x.messages - {d.records[slot].messageId.value}), now)
  {
    hide Expired;
    var y := x.(messages := x.messages - {d.records[slot].messageId.value});
    forall m | m in d.messages && m !in y.messages
      ensures exists s :: ExpiredSlot(cfg, d, s, now) && d.records[s].messageId == Some(m)
    {
      if m == d.records[slot].messageId.value { assert ExpiredSlot(cfg, d, slot, now); }
    }
  }

  // ---- Progress ----

  /** The expired records of these buckets are gone, with everything that led to them. */
  ghost predicate GoneIn(cfg: Config, d: Disk, x: Disk, buckets: set<Bucket>, now: Time) {
    forall slot | ExpiredSlot(cfg, d, slot, now) && slot.bucket in buckets :: slot !in x.records && Unlisted(d, x, slot)
  }

  ghost predicate LogCompacting(cfg: Config, d: Disk, log: seq<Disk>, from: nat, now: Time) {
    from <= |log| && forall i | from <= i < |log| :: Compacting(cfg, d, log[i], now)
  }

  /** In memory, the record of one id is dropped if it expired; on disk, nothing leads to it. */
  ghost predicate Settled(cfg: Config, d: Disk, x: Disk, bucket: Bucket, id: string, kept: bool, now: Time) {
    && Slot(bucket, id) in d.records
    && (kept <==> !Expired(cfg, d.records[Slot(bucket, id)], now))
    && (!kept ==> Unlisted(d, x, Slot(bucket, id)))
  }

  /** `contents` is what is left of the bucket in memory while `ids` of it are still to be judged. */
  ghost predicate Judged(cfg: Config, d: Disk, x: Disk, bucket: Bucket, all: map<string, Record>,
                         contents: map<string, Record>,
                         ids: set<string>, now: Time) {
    && ids <= contents.Keys <= all.Keys
    && (forall id :: id in all <==> Slot(bucket, id) in d.records)
    && (forall id | id in contents :: contents[id] == d.records[Slot(bucket, id)])
    && (forall id | id in all && id !in ids :: Settled(cfg, d, x, bucket, id, id in contents, now))
  }

  lemma JudgedStep(cfg: Config, d: Disk, x: Disk, y: Disk, bucket: Bucket, all: map<string, Record>,
                   contents: map<string, Record>,
                   ids: set<string>, id: string, kept: bool, now: Time)
    requires Judged(cfg, d, x, bucket, all, contents, ids, now) && id in ids && IndexesShrink(x, y)
    requires Settled(cfg, d, y, bucket, id, kept, now)
    ensures Judged(cfg, d, y, bucket, all, if kept then contents else contents - {id}, ids - {id}, now)
  {
    hide Settled, IndexesShrink;
    forall other | other in all && other !in ids ensures Settled(cfg, d, y, bucket, other, other in contents, now) {
      SettledLater(cfg, d, x, y, bucket, other, other in contents, now);
    }
  }

  lemma CompactionBegins(cfg: Config, d: Disk, log: seq<Disk>, now: Time)
    requires Consistent(cfg, d)
    ensures Compacting(cfg, d, d, now) && UntouchedIn(d, d, BucketsOf(d)) && GoneIn(cfg, d, d, {}, now)
    ensures LogCompacting(cfg, d, log, |log|, now)
  {
    CompactingItself(cfg, d, now);
  }

  lemma LogCompacted(cfg: Config, d: Disk, log: seq<Disk>, x: Disk, from: nat, now: Time)
    requires LogCompacting(cfg, d, log, from, now) && Compacting(cfg, d, x, now)
    ensures LogCompacting(cfg, d, log + [x], from, now)
  {
    hide Compacting;
  }

  lemma NextCompacted(cfg: Config, d: Disk, x: Disk, y: Disk, todo: set<Bucket>, visited: set<Bucket>, bucket: Bucket,
                      now: Time)
    requires UntouchedIn(d, x, todo) && GoneIn(cfg, d, x, visited, now) && bucket !in visited
    requires OnlyBucket(x, y, bucket) && IndexesShrink(x, y) && GoneIn(cfg, d, y, {bucket}, now)
    ensures UntouchedIn(d, y, todo - {bucket}) && GoneIn(cfg, d, y, visited + {bucket}, now)
  {
    hide Expired;
  }

  lemma BucketCompactionBegins(cfg: Config, d: Disk, x: Disk, bucket: Bucket, now: Time)
    requires Compacting(cfg, d, x, now) && UntouchedIn(d, x, {bucket})
    ensures var contents := BucketContents(x, bucket);
            Judged(cfg, d, x, bucket, contents, contents, contents.Keys, now)
    ensures IndexesShrink(x, x)
  {
    hide BucketContents, Expired, HasMessage;
  }

  lemma ShrinksStill(x: Disk, y: Disk, z: Disk)
    requires IndexesShrink(x, y) && IndexesShrink(y, z)
    ensures IndexesShrink(x, z)
  {
  }

  lemma SettledLater(cfg: Config, d: Disk, x: Disk, y: Disk, bucket: Bucket, id: string, kept: bool, now: Time)
    requires Settled(cfg, d, x, bucket, id, kept, now) && IndexesShrink(x, y)
    ensures Settled(cfg, d, y, bucket, id, kept, now)
  {
    hide Expired;
  }

  /** The bucket without its expired records goes to disk, after everything that led to them is gone. */
  lemma BucketCompacted(cfg: Config, d: Disk, x: Disk, bucket: Bucket, all: map<string, Record>, contents: map<string,
                        Record>, now: Time)
    requires Compacting(cfg, d, x, now) && UntouchedIn(d, x, {bucket})
             && Judged(cfg, d, x, bucket, all, contents, {}, now)
    ensures var y := WithBucket(x, bucket, contents);
            && Compacting(cfg, d, y, now) && GoneIn(cfg, d, y, {bucket}, now)
            && OnlyBucket(x, y, bucket) && IndexesShrink(x, y)
  {
    var y := WithBucket(x, bucket, contents);
    BucketFates(cfg, d, x, bucket, all, contents, now);
    hide WithBucket, Judged, Compacting;
    FewerRecords(cfg, d, x, y, now);
  }

  /** What a write of the judged bucket does to the records on disk. */
  lemma BucketFates(cfg: Config, d: Disk, x: Disk, bucket: Bucket, all: map<string, Record>, contents: map<string,
                    Record>, now: Time)
    requires Compacting(cfg, d, x, now) && UntouchedIn(d, x, {bucket})
             && Judged(cfg, d, x, bucket, all, contents, {}, now)
    ensures var y := WithBucket(x, bucket, contents);
            && y == x.(records := y.records) && OnlyBucket(x, y, bucket) && GoneIn(cfg, d, y, {bucket}, now)
            && (forall slot | slot in y.records :: slot in x.records && y.records[slot] == x.records[slot])
            && (forall slot | slot in x.records && slot !in y.records ::
                  ExpiredSlot(cfg, d, slot, now) && Unlisted(d, x, slot))
  {
    assert forall slot | slot in x.records :: slot in d.records && x.records[slot] == d.records[slot];
    hide WithBucket, Expired, Compacting;
    var y := WithBucket(x, bucket, contents);
    forall slot | slot in d.records && slot.bucket == bucket
      ensures slot in y.records <==> slot.id in contents
      ensures slot in y.records ==> y.records[slot] == d.records[slot]
      ensures slot in y.records <==> !ExpiredSlot(cfg, d, slot, now)
      ensures slot in y.records || Unlisted(d, x, slot)
    {
      assert slot == Slot(bucket, slot.id);
      assert Settled(cfg, d, x, bucket, slot.id, slot.id in contents, now);
    }
    forall slot | slot in y.records ensures slot in x.records && y.records[slot] == x.records[slot] {
      if slot.bucket == bucket { assert slot == Slot(bucket, slot.id); }
    }
  }

  /** Removing expired records that nothing leads to any more is a step of compaction. */
  lemma FewerRecords(cfg: Config, d: Disk, x: Disk, y: Disk, now: Time)
    requires Compacting(cfg, d, x, now) && y == x.(records := y.records)
    requires forall slot | slot in y.records :: slot in x.records && y.records[slot] == x.records[slot]
    requires forall slot | slot in x.records && slot !in y.records ::
          ExpiredSlot(cfg, d, slot, now) && Unlisted(d, x, slot)
    ensures Compacting(cfg, d, y, now)
  {
    hide ExpiredSlot;
  }

  lemma FewerOrphans(cfg: Config, d: Disk, x: Disk, orphans: map<string, Orphan>, now: Time)
    requires Compacting(cfg, d, x, now) && Fewer(orphans, d.orphans)
    ensures Compacting(cfg, d, x.(orphans := orphans), now)
  {
    hide Expired, HasMessage;
  }

  /** After the last bucket and the pruning, compaction has done its work. */
  lemma CompactFinished(cfg: Config, n: Node, compacted: Disk, after: Node, visited: set<Bucket>, now: Time)
    requires cfg.maximumOrphans >= 0 && Compacting(cfg, n.disk, compacted, now)
             && GoneIn(cfg, n.disk, compacted, visited, now)
    requires visited == BucketsOf(n.disk) && after == n.(disk := compacted.(orphans := after.disk.orphans))
    requires PrunedTo(cfg, n.disk.orphans, after.disk.orphans, now, cfg.maximumOrphans)
    ensures CompactReturns(cfg, n, now, after)
  {
    assert Fewer(after.disk.orphans, n.disk.orphans) by { hide Compacting, GoneIn, Expired; }
    FewerOrphans(cfg, n.disk, compacted, after.disk.orphans, now) by { hide PrunedTo, GoneIn, Compacting, Expired; }
    hide PrunedTo, Compacting, Expired;
  }

  lemma LogPruned(cfg: Config, d: Disk, compacted: Disk, log: seq<Disk>, longer: seq<Disk>, pruned: map<string,
                  Orphan>, from: nat, now: Time)
    requires LogCompacting(cfg, d, log, from, now) && log <= longer && Compacting(cfg, d, compacted, now)
    requires compacted.orphans == d.orphans
    requires forall i | |log| <= i < |longer| :: Pruning(compacted, longer[i], pruned)
    ensures LogCompacting(cfg, d, longer, from, now)
  {
    hide Compacting;
    forall i | from <= i < |longer| ensures Compacting(cfg, d, longer[i], now) {
      if i < |log| {
        assert longer[i] == log[i];
      } else {
        FewerOrphans(cfg, d, compacted, longer[i].orphans, now);
      }
    }
  }

  /** Dropping entries of one bucket drops as many records. */
  lemma BucketSize(d: Disk, key: Bucket, all: map<string, Record>, contents: map<string, Record>)
    requires contents.Keys <= all.Keys && forall id :: id in all <==> Slot(key, id) in d.records
    ensures |d.records| - |WithBucket(d, key, contents).records| == |all| - |contents|
  {
    hide WithBucket;
    var y := WithBucket(d, key, contents);
    var gone := all.Keys - contents.Keys;
    var slots := set id | id in gone :: Slot(key, id);
    SlotsOf(key, gone);
    assert y.records.Keys == d.records.Keys - slots && slots <= d.records.Keys by { SlotsLeave(d, key, all, contents); }
    SizeOfDifference(all.Keys, contents.Keys, gone);
    SizeOfDifference(d.records.Keys, y.records.Keys, slots);
  }

  lemma SizeOfDifference<T>(a: set<T>, b: set<T>, gone: set<T>)
    requires gone <= a && b == a - gone
    ensures |a| == |b| + |gone|
  {
    assert a == b + gone;
  }

  lemma SlotsLeave(d: Disk, key: Bucket, all: map<string, Record>, contents: map<string, Record>)
    requires contents.Keys <= all.Keys && forall id :: id in all <==> Slot(key, id) in d.records
    ensures var slots := set id | id in all.Keys - contents.Keys :: Slot(key, id);
            WithBucket(d, key, contents).records.Keys == d.records.Keys - slots && slots <= d.records.Keys
  {
    hide WithBucket;
    var slots := set id | id in all.Keys - contents.Keys :: Slot(key, id);
    var y := WithBucket(d, key, contents);
    forall slot: Slot ensures slot in y.records.Keys <==> slot in d.records.Keys && slot !in slots {
      if slot.bucket == key { assert slot == Slot(key, slot.id); }
    }
  }

  lemma SlotsOf(key: Bucket, ids: set<string>)
    ensures |set id | id in ids :: Slot(key, id)| == |ids|
  {
    if ids != {} {
      var id :| id in ids;
      SlotsOf(key, ids - {id});
      assert (set i | i in ids :: Slot(key, i)) == (set i | i in ids - {id} :: Slot(key, i)) + {Slot(key, id)};
    }
  }
}
