/** Command buckets: the unit in which records are read and written. */
module Buckets {
  import opened Records
  import opened JournalStore

  function BucketsOf(d: Disk): set<Bucket> {
    set slot | slot in d.records :: slot.bucket
  }

  /** The records of one command bucket; a bucket without records is not stored. */
  function BucketContents(d: Disk, bucket: Bucket): (contents: map<string, Record>)
    ensures forall id :: id in contents <==> Slot(bucket, id) in d.records
    ensures forall id | id in contents :: contents[id] == d.records[Slot(bucket, id)]
  {
    var contents := map slot | slot in d.records && slot.bucket == bucket :: slot.id := d.records[slot];
    assert forall id :: Slot(bucket, id) in d.records ==> id in contents;
    contents
  }

  function WithBucket(d: Disk, bucket: Bucket, contents: map<string, Record>): (x: Disk)
    ensures forall slot :: slot in x.records <==>
            if slot.bucket == bucket then slot.id in contents else slot in d.records
    ensures forall slot | slot in x.records ::
              x.records[slot] == if slot.bucket == bucket then contents[slot.id] else d.records[slot]
    ensures x == d.(records := x.records)
  {
    var others := map slot | slot in d.records && slot.bucket != bucket :: d.records[slot];
    var own := map id | id in contents :: Slot(bucket, id) := contents[id];
    assert forall slot: Slot :: slot in own <==> slot.bucket == bucket && slot.id in contents by {
      forall slot: Slot | slot.bucket == bucket && slot.id in contents ensures slot in own {
        assert slot == Slot(bucket, slot.id);
      }
    }
    d.(records := others + own)
  }

  lemma BucketUpdate(d: Disk, bucket: Bucket, id: string, r: Record)
    ensures WithBucket(d, bucket, BucketContents(d, bucket)[id := r]) == SetRecord(d, Slot(bucket, id), r)
  {
    hide BucketContents, WithBucket;
    var contents := BucketContents(d, bucket);
    var x := WithBucket(d, bucket, contents[id := r]);
    var y := SetRecord(d, Slot(bucket, id), r);
    forall slot ensures slot in x.records <==> slot in y.records {
      if slot.bucket == bucket { assert slot == Slot(bucket, slot.id); }
    }
    forall slot | slot in x.records ensures x.records[slot] == y.records[slot] {
      if slot.bucket == bucket { assert slot == Slot(bucket, slot.id); }
    }
    assert x.records == y.records;
  }

  lemma BucketAfterUpdate(d: Disk, bucket: Bucket, id: string, r: Record)
    ensures BucketContents(SetRecord(d, Slot(bucket, id), r), bucket) == BucketContents(d, bucket)[id := r]
  {
    hide BucketContents;
  }

  lemma SameContents(x: Disk, y: Disk, bucket: Bucket)
    requires x.records == y.records
    ensures BucketContents(x, bucket) == BucketContents(y, bucket)
  {
  }
}
