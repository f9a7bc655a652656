/** The evidence of one command and the posts the inbox accepted for it: what keeps them in order. */
module EvidenceOrder {
  import opened Wrappers
  import opened Protocol
  import opened Records
  import opened Connector

  /** What concerns one command: its stored record, its compacted records, its running flush and all accepted posts. */
  datatype View = View(stored: Option<Record>, removed: set<Record>, flush: Option<Flush>, inbox: seq<Evidence>,
                       next: nat)

  function Retained(v: View): set<Record> {
    v.removed + (if v.stored.Some? then {v.stored.value} else {})
  }

  function Versions(v: View): set<Record> {
    Retained(v) + (if v.flush.Some? then {v.flush.value.snapshot} else {})
  }

  function Events(r: Record): (events: seq<Evidence>)
    ensures |events| == |r.evidence|
    ensures forall i | 0 <= i < |events| :: events[i] == r.evidence[i].evidence
  {
    seq(|r.evidence|, i requires 0 <= i < |r.evidence| => r.evidence[i].evidence)
  }

  /** Two versions share an event only at the same place, after the same earlier events. */
  ghost predicate Agree(a: Record, b: Record) {
    forall i, j | 0 <= i < |a.evidence| && 0 <= j < |b.evidence|
                  && a.evidence[i].evidence.eventId == b.evidence[j].evidence.eventId ::
      i == j && forall k | 0 <= k <= i :: a.evidence[k].evidence == b.evidence[k].evidence
  }

  /** No post of an entry came before a post of the entry in front of it. */
  ghost predicate InOrder(inbox: seq<Evidence>, r: Record) {
    forall p, k | 0 <= p < |inbox| && 0 < k < |r.evidence| && inbox[p] == r.evidence[k].evidence ::
      r.evidence[k - 1].evidence in inbox[..p]
  }

  ghost predicate DeliveredWerePosted(inbox: seq<Evidence>, r: Record) {
    forall k | 0 <= k < |r.evidence| && r.evidence[k].deliveredAt.Some? :: r.evidence[k].evidence in inbox
  }

  /** Everything in front of a posted entry has been delivered. */
  ghost predicate PostedAfterDelivered(inbox: seq<Evidence>, r: Record) {
    forall j, k | 0 <= j < k < |r.evidence| && r.evidence[k].evidence in inbox :: r.evidence[j].deliveredAt.Some?
  }

  ghost predicate Version(r: Record, id: string, inbox: seq<Evidence>, next: nat) {
    && Numbered(r) && DrawnBefore(r, next) && r.command.commandId == id
    && InOrder(inbox, r) && DeliveredWerePosted(inbox, r)
  }

  /** `r` holds the event of entry `j` of the snapshot, at the same place. */
  predicate Shares(r: Record, snapshot: Record, j: nat) {
    j < |r.evidence| && j < |snapshot.evidence|
    && r.evidence[j].evidence.eventId == snapshot.evidence[j].evidence.eventId
  }

  ghost predicate Covers(r: Record, snapshot: Record) {
    |snapshot.evidence| <= |r.evidence|
    && forall j | 0 <= j < |snapshot.evidence| :: r.evidence[j].evidence == snapshot.evidence[j].evidence
  }

  /** A flush has posted what it passed, and it passed only what is delivered. */
  ghost predicate FlushKept(v: View, f: Flush) {
    && f.index <= |f.snapshot.evidence|
    && (forall j | 0 <= j < f.index :: f.snapshot.evidence[j].evidence in v.inbox)
    && (f.phase.Marking? && f.index < |f.snapshot.evidence| ==> f.snapshot.evidence[f.index].evidence in v.inbox)
    && (exists r | r in Retained(v) :: Covers(r, f.snapshot))
    && (v.stored.Some? ==>
          forall j | 0 <= j < |f.snapshot.evidence| && Shares(v.stored.value, f.snapshot, j) ::
            j < f.index || f.snapshot.evidence[j].deliveredAt.Some? ==> v.stored.value.evidence[j].deliveredAt.Some?)
  }

  ghost predicate AllVersions(v: View, id: string) {
    && (forall r | r in Versions(v) :: Version(r, id, v.inbox, v.next))
    && (forall a, b | a in Versions(v) && b in Versions(v) :: Agree(a, b))
  }

  ghost predicate PostsKnown(v: View, id: string) {
    forall e | e in v.inbox && e.commandId == id :: exists r | r in Retained(v) :: e in Events(r)
  }

  ghost predicate Ordered(v: View, id: string) {
    && AllVersions(v, id)
    && PostsKnown(v, id)
    && (v.stored.Some? ==> PostedAfterDelivered(v.inbox, v.stored.value))
    && (forall r | r in v.removed :: AllDelivered(r))
    && (v.flush.Some? ==> FlushKept(v, v.flush.value))
  }

  // ---- The record of the command moves ----

  /** A later version of `r`, whose new events were drawn since. */
  ghost predicate Later(r: Record, s: Record, id: string, first: nat, next: nat) {
    && Extends(r, s) && Numbered(s) && DrawnBefore(s, next) && first <= next
    && (forall i | |r.evidence| <= i < |s.evidence| ::
          first <= s.evidence[i].evidence.eventId && s.evidence[i].deliveredAt.None?)
  }

  /** Only the entry that a flush is marking may become delivered. */
  ghost predicate MarksOnly(v: View, r: Record, s: Record) {
    forall i | 0 <= i < |r.evidence| && i < |s.evidence| && s.evidence[i].deliveredAt != r.evidence[i].deliveredAt ::
      && v.flush.Some? && v.flush.value.phase.Marking? && v.flush.value.index < |v.flush.value.snapshot.evidence|
      && r.evidence[i].evidence.eventId == v.flush.value.snapshot.evidence[v.flush.value.index].evidence.eventId
  }

  lemma AgreeLater(r: Record, s: Record, v: Record, id: string, first: nat, next: nat)
    requires Later(r, s, id, first, next) && DrawnBefore(v, first) && Agree(r, v) && Agree(v, r)
    ensures Agree(s, v) && Agree(v, s)
  {
  }

  lemma AgreeSelf(s: Record)
    requires Numbered(s)
    ensures Agree(s, s)
  {
  }

  /** Posted events have been drawn. */
  lemma PostedDrawn(v: View, id: string)
    requires AllVersions(v, id) && PostsKnown(v, id)
    ensures forall e | e in v.inbox && e.commandId == id :: e.eventId < v.next
  {
    hide Agree, InOrder, DeliveredWerePosted, Numbered;
    forall e | e in v.inbox && e.commandId == id ensures e.eventId < v.next {
      var r :| r in Retained(v) && e in Events(r);
      assert Version(r, id, v.inbox, v.next);
    }
  }

  lemma LaterVersion(v: View, r: Record, s: Record, id: string, next: nat)
    requires Ordered(v, id) && v.stored == Some(r) && Later(r, s, id, v.next, next) && MarksOnly(v, r, s)
    ensures Version(s, id, v.inbox, next)
    ensures PostedAfterDelivered(v.inbox, s)
  {
    assert Version(r, id, v.inbox, v.next);
    PostedDrawn(v, id);
    forall k | 0 <= k < |s.evidence| && s.evidence[k].deliveredAt.Some? ensures s.evidence[k].evidence in v.inbox {
      if s.evidence[k].deliveredAt != r.evidence[k].deliveredAt {
        var snapshot := v.flush.value.snapshot;
        assert snapshot in Versions(v) && r in Versions(v);
        assert Agree(r, snapshot);
      }
    }
  }

  lemma LaterFlush(v: View, r: Record, s: Record, id: string, next: nat)
    requires Ordered(v, id) && v.stored == Some(r) && Later(r, s, id, v.next, next)
    requires v.flush.Some?
    ensures FlushKept(v.(stored := Some(s), next := next), v.flush.value)
  {
    hide Numbered, AllVersions, PostsKnown, PostedAfterDelivered, DrawnBefore;
    var f := v.flush.value;
    var w := v.(stored := Some(s), next := next);
    var c :| c in Retained(v) && Covers(c, f.snapshot);
    if c == r { assert s in Retained(w) && Covers(s, f.snapshot); } else { assert c in Retained(w); }
    forall j | 0 <= j < |f.snapshot.evidence| && Shares(s, f.snapshot, j)
               && (j < f.index || f.snapshot.evidence[j].deliveredAt.Some?)
      ensures s.evidence[j].deliveredAt.Some?
    {
      SnapshotDrawn(v, id, j);
      assert Shares(r, f.snapshot, j);
    }
  }

  lemma SnapshotDrawn(v: View, id: string, j: nat)
    requires Ordered(v, id) && v.flush.Some? && j < |v.flush.value.snapshot.evidence|
    ensures v.flush.value.snapshot.evidence[j].evidence.eventId < v.next
  {
    assert Version(v.flush.value.snapshot, id, v.inbox, v.next);
  }

  lemma VersionLater(r: Record, id: string, inbox: seq<Evidence>, first: nat, next: nat)
    requires Version(r, id, inbox, first) && first <= next
    ensures Version(r, id, inbox, next)
  {
  }

  lemma VersionFacts(r: Record, id: string, inbox: seq<Evidence>, next: nat)
    requires Version(r, id, inbox, next)
    ensures Numbered(r) && DrawnBefore(r, next)
  {
  }

  lemma LaterFacts(r: Record, s: Record, id: string, first: nat, next: nat)
    requires Later(r, s, id, first, next)
    ensures first <= next && forall e | e in Events(r) :: e in Events(s)
  {
    forall e | e in Events(r) ensures e in Events(s) {
      var i :| 0 <= i < |r.evidence| && Events(r)[i] == e;
      assert Events(s)[i] == e;
    }
  }

  /** The stored record evolves. */
  lemma EvolveOrdered(v: View, r: Record, s: Record, id: string, next: nat)
    requires Ordered(v, id) && v.stored == Some(r) && Later(r, s, id, v.next, next) && MarksOnly(v, r, s)
    ensures Ordered(v.(stored := Some(s), next := next), id)
  {
    hide Numbered, DrawnBefore, InOrder, DeliveredWerePosted, Agree, PostedAfterDelivered, FlushKept, Extends, Shares,
         MarksOnly,
         Version, Later;
    var w := v.(stored := Some(s), next := next);
    LaterVersion(v, r, s, id, next);
    if v.flush.Some? { LaterFlush(v, r, s, id, next); }
    VersionFacts(s, id, v.inbox, next);
    AgreeSelf(s);
    LaterFacts(r, s, id, v.next, next);
    forall c | c in Versions(v) ensures Version(c, id, v.inbox, next) && Agree(s, c) && Agree(c, s) {
      VersionFacts(c, id, v.inbox, v.next);
      VersionLater(c, id, v.inbox, v.next, next);
      AgreeLater(r, s, c, id, v.next, next);
    }
    forall c | c in Versions(w) ensures c == s || c in Versions(v) {}
    forall e | e in w.inbox && e.commandId == id ensures exists c | c in Retained(w) :: e in Events(c) {
      var c :| c in Retained(v) && e in Events(c);
      if c == r { assert s in Retained(w); } else { assert c in Retained(w); }
    }
  }

  /** The command is received: a first record under an event drawn just now. */
  lemma CreateOrdered(v: View, s: Record, id: string, next: nat)
    requires Ordered(v, id) && v.stored.None? && v.next < next
    requires Numbered(s) && DrawnBefore(s, next) && s.command.commandId == id
    requires |s.evidence| == 1 && v.next <= s.evidence[0].evidence.eventId && s.evidence[0].deliveredAt.None?
    ensures Ordered(v.(stored := Some(s), next := next), id)
  {
    hide Numbered, InOrder;
    var w := v.(stored := Some(s), next := next);
    PostedDrawn(v, id);
    FreshVersion(s, id, v.inbox, next);
    forall c | c in Versions(v) ensures Version(c, id, v.inbox, next) && Agree(s, c) && Agree(c, s) {
      VersionLater(c, id, v.inbox, v.next, next);
    }
    assert Agree(s, s);
    forall c | c in Versions(w) ensures c == s || c in Versions(v) {}
    forall c | c in Retained(v) ensures c in Retained(w) {}
    if v.flush.Some? {
      forall j | 0 <= j < |v.flush.value.snapshot.evidence| ensures !Shares(s, v.flush.value.snapshot, j) {
        SnapshotDrawn(v, id, j);
      }
    }
  }

  lemma FreshVersion(s: Record, id: string, inbox: seq<Evidence>, next: nat)
    requires Numbered(s) && DrawnBefore(s, next) && s.command.commandId == id && |s.evidence| == 1
             && s.evidence[0].deliveredAt.None?
    ensures Version(s, id, inbox, next)
  {
  }

  /** The record is compacted away. */
  lemma RemoveOrdered(v: View, id: string)
    requires Ordered(v, id) && v.stored.Some? && AllDelivered(v.stored.value)
    ensures Ordered(v.(stored := None, removed := v.removed + {v.stored.value}), id)
  {
    hide Version, Agree, PostedAfterDelivered;
    var w := v.(stored := None, removed := v.removed + {v.stored.value});
    assert Retained(w) == Retained(v);
    assert Versions(w) == Versions(v);
  }

  lemma DrawOrdered(v: View, id: string, next: nat)
    requires Ordered(v, id) && v.next <= next
    ensures Ordered(v.(next := next), id)
  {
    hide Version, Agree, PostedAfterDelivered, AllDelivered;
    var w := v.(next := next);
    assert Retained(w) == Retained(v);
    assert Versions(w) == Versions(v);
    forall r | r in Versions(v) ensures Version(r, id, v.inbox, next) { VersionLater(r, id, v.inbox, v.next, next); }
  }

  // ---- The inbox accepts a post ----

  lemma PostKeepsVersion(r: Record, id: string, inbox: seq<Evidence>, e: Evidence, next: nat)
    requires Version(r, id, inbox, next)
    requires forall k | 0 < k < |r.evidence| && r.evidence[k].evidence == e :: r.evidence[k - 1].evidence in inbox
    ensures Version(r, id, inbox + [e], next)
  {
    hide Numbered, DrawnBefore;
    var after := inbox + [e];
    forall p, k | 0 <= p < |after| && 0 < k < |r.evidence| && after[p] == r.evidence[k].evidence
      ensures r.evidence[k - 1].evidence in after[..p]
    {
      if p < |inbox| { assert after[..p] == inbox[..p]; } else { assert after[..p] == inbox; }
    }
  }

  /** A post for another command. */
  lemma ForeignPost(v: View, id: string, e: Evidence)
    requires Ordered(v, id) && e.commandId != id
    ensures Ordered(v.(inbox := v.inbox + [e]), id)
  {
    hide InOrder, Agree, DrawnBefore, AllDelivered;
    var w := v.(inbox := v.inbox + [e]);
    assert Retained(w) == Retained(v) && Versions(w) == Versions(v);
    forall r | r in Versions(v) ensures Version(r, id, w.inbox, w.next) { PostKeepsVersion(r, id, v.inbox, e, v.next); }
    if v.stored.Some? { assert v.stored.value in Versions(v); assert Version(v.stored.value, id, v.inbox, v.next); }
  }

  /** The flush posts its next entry, which the snapshot had not delivered. */
  lemma OwnPost(v: View, id: string)
    requires Ordered(v, id) && v.flush.Some? && v.flush.value.index < |v.flush.value.snapshot.evidence|
    ensures Ordered(v.(inbox := v.inbox + [v.flush.value.snapshot.evidence[v.flush.value.index].evidence]), id)
  {
    hide InOrder, DrawnBefore, AllDelivered, Numbered;
    var f := v.flush.value;
    var e := f.snapshot.evidence[f.index].evidence;
    var w := v.(inbox := v.inbox + [e]);
    assert Retained(w) == Retained(v) && Versions(w) == Versions(v);
    assert f.snapshot in Versions(v);
    forall r | r in Versions(v) ensures Version(r, id, w.inbox, w.next) {
      assert Agree(r, f.snapshot);
      PostKeepsVersion(r, id, v.inbox, e, v.next);
    }
    var c :| c in Retained(v) && Covers(c, f.snapshot);
    assert Events(c)[f.index] == e;
    if v.stored.Some? {
      var r := v.stored.value;
      assert r in Versions(v) && Agree(r, f.snapshot);
      forall j, k | 0 <= j < k < |r.evidence| && r.evidence[k].evidence in w.inbox
          ensures r.evidence[j].deliveredAt.Some? {
        if r.evidence[k].evidence == e { assert k == f.index; assert Shares(r, f.snapshot, j); }
      }
    }
  }

  // ---- The flush goes on ----

  /** The flush changes, ends, or starts on the stored record. */
  lemma FlushOrdered(v: View, id: string, flush: Option<Flush>)
    requires Ordered(v, id)
    requires flush.None? || (v.flush.Some? && flush.value.snapshot == v.flush.value.snapshot)
             || (v.stored.Some? && flush.value.snapshot == v.stored.value)
    requires flush.Some? ==> FlushKept(v.(flush := flush), flush.value)
    ensures Ordered(v.(flush := flush), id)
  {
    hide Version, Agree, PostedAfterDelivered, AllDelivered, FlushKept;
    var w := v.(flush := flush);
    assert Retained(w) == Retained(v);
    assert Versions(w) <= Versions(v);
  }

  lemma FlushStarts(v: View, id: string)
    requires Ordered(v, id) && v.stored.Some?
    ensures var f := Flush(v.stored.value, 0, Posting); FlushKept(v.(flush := Some(f)), f)
  {
    hide Version, Agree, PostedAfterDelivered, AllDelivered;
    assert v.stored.value in Retained(v.(flush := Some(Flush(v.stored.value, 0, Posting))));
    assert Covers(v.stored.value, v.stored.value);
  }

  /** The flush passes an entry that the snapshot, or the stored record by now, has delivered. */
  lemma FlushPasses(v: View, id: string)
    requires Ordered(v, id) && v.flush.Some? && v.flush.value.index < |v.flush.value.snapshot.evidence|
    requires var f := v.flush.value;
             f.snapshot.evidence[f.index].deliveredAt.Some?
             || (f.phase.Marking?
                 && (v.stored.Some? && Shares(v.stored.value, f.snapshot, f.index) ==>
                     v.stored.value.evidence[f.index].deliveredAt.Some?))
    ensures var f := v.flush.value.(phase := Posting,
                                    index := v.flush.value.index + 1); FlushKept(v.(flush := Some(f)), f)
  {
    hide Agree, PostedAfterDelivered, AllDelivered, InOrder, DrawnBefore, Numbered;
    var f := v.flush.value;
    assert f.snapshot in Versions(v);
    assert Version(f.snapshot, id, v.inbox, v.next);
    var w := v.(flush := Some(f.(phase := Posting, index := f.index + 1)));
    var c :| c in Retained(v) && Covers(c, f.snapshot);
    assert c in Retained(w);
  }

  /** After a post the flush waits to mark the entry; after a failure, to note it. */
  lemma FlushWaits(v: View, id: string, phase: Phase)
    requires Ordered(v, id) && v.flush.Some? && v.flush.value.index < |v.flush.value.snapshot.evidence|
    requires phase.Marking? ==> v.flush.value.snapshot.evidence[v.flush.value.index].evidence in v.inbox
    ensures var f := v.flush.value.(phase := phase); FlushKept(v.(flush := Some(f)), f)
  {
    hide Version, Agree, PostedAfterDelivered, AllDelivered;
    var f := v.flush.value;
    var c :| c in Retained(v) && Covers(c, f.snapshot);
    assert c in Retained(v.(flush := Some(f.(phase := phase))));
  }

  // ---- What the inbox sees ----

  /** The posts of one record's evidence, without repeated event ids. */
  function AcceptedFor(inbox: seq<Evidence>, r: Record): seq<Evidence> {
    if inbox == [] then [] else
    var before, e := AcceptedFor(inbox[..|inbox| - 1], r), inbox[|inbox| - 1];
    if e.commandId != r.command.commandId || !HasEvent(r, e.eventId) || Repeats(before, e)
    then before else before + [e]
  }

  ghost predicate OwnPosts(inbox: seq<Evidence>, r: Record) {
    forall e | e in inbox && e.commandId == r.command.commandId && HasEvent(r, e.eventId) :: e in Events(r)
  }

  lemma OrderBefore(inbox: seq<Evidence>, r: Record)
    requires InOrder(inbox, r) && OwnPosts(inbox, r) && |inbox| > 0
    ensures var n := |inbox| - 1; InOrder(inbox[..n], r) && OwnPosts(inbox[..n], r)
    ensures var n := |inbox| - 1;
            forall k | 0 < k < |r.evidence| && inbox[n] == r.evidence[k].evidence ::
                r.evidence[k - 1].evidence in inbox[..n]
    ensures var e := inbox[|inbox| - 1]; e.commandId == r.command.commandId && HasEvent(r, e.eventId) ==> e in Events(r)
  {
    hide HasEvent;
    var n := |inbox| - 1;
    forall p, k | 0 <= p < n && 0 < k < |r.evidence| && inbox[..n][p] == r.evidence[k].evidence
      ensures r.evidence[k - 1].evidence in inbox[..n][..p]
    {
      assert inbox[..n][..p] == inbox[..p];
    }
  }

  /** When posts are in order, what the inbox sees of a record is a prefix of its evidence, and it holds exactly the
      posted entries. */
  lemma {:induction false} AcceptedPrefix(inbox: seq<Evidence>, r: Record)
    requires Numbered(r) && InOrder(inbox, r) && OwnPosts(inbox, r)
    ensures AcceptedFor(inbox, r) <= Events(r)
    ensures forall k | 0 <= k < |r.evidence| :: r.evidence[k].evidence in inbox <==> k < |AcceptedFor(inbox, r)|
  {
    hide InOrder, OwnPosts, Numbered, HasEvent, AcceptedFor;
    if inbox == [] {
      NothingAccepted(r);
    } else {
      var n := |inbox| - 1;
      OrderBefore(inbox, r);
      AcceptedPrefix(inbox[..n], r);
      assert inbox == inbox[..n] + [inbox[n]];
      AcceptedNext(inbox[..n], inbox[n], r, AcceptedFor(inbox[..n], r));
    }
  }

  lemma NothingAccepted(r: Record)
    ensures AcceptedFor([], r) == []
  {
  }

  predicate Repeats(before: seq<Evidence>, e: Evidence) {
    exists i | 0 <= i < |before| :: before[i].eventId == e.eventId
  }

  lemma AcceptedStep(inbox: seq<Evidence>, e: Evidence, r: Record)
    ensures var before := AcceptedFor(inbox, r);
            AcceptedFor(inbox + [e], r) ==
              if e.commandId != r.command.commandId || !HasEvent(r, e.eventId)
                  || Repeats(before, e) then before else before + [e]
  {
    hide HasEvent;
    assert (inbox + [e])[..|inbox|] == inbox;
  }

  lemma EntryOf(r: Record, e: Evidence) returns (k: nat)
    requires Numbered(r) && e in Events(r)
    ensures k < |r.evidence| && r.evidence[k].evidence == e && HasEvent(r, e.eventId)
            && e.commandId == r.command.commandId
    ensures forall j | 0 <= j < |r.evidence| :: r.evidence[j].evidence.eventId == e.eventId ==> j == k
  {
    k :| 0 <= k < |r.evidence| && Events(r)[k] == e;
    AgreeSelf(r);
  }

  lemma AcceptedNext(inbox: seq<Evidence>, e: Evidence, r: Record, before: seq<Evidence>)
    requires Numbered(r) && before == AcceptedFor(inbox, r) && before <= Events(r)
    requires forall k | 0 <= k < |r.evidence| :: r.evidence[k].evidence in inbox <==> k < |before|
    requires e.commandId == r.command.commandId && HasEvent(r, e.eventId) ==> e in Events(r)
    requires forall k | 0 < k < |r.evidence| && e == r.evidence[k].evidence :: r.evidence[k - 1].evidence in inbox
    ensures AcceptedFor(inbox + [e], r) <= Events(r)
    ensures forall k | 0 <= k < |r.evidence| :: r.evidence[k].evidence in inbox + [e] <==>
            k < |AcceptedFor(inbox + [e], r)|
  {
    AcceptedStep(inbox, e, r);
    hide AcceptedFor, HasEvent, Numbered;
    if e in Events(r) {
      var k := EntryOf(r, e);
      if k > 0 { assert r.evidence[k - 1].evidence in inbox; }
      if k < |before| {
        assert before[k] == e;
      } else {
        forall i | 0 <= i < |before|
            ensures before[i].eventId != e.eventId { assert before[i] == r.evidence[i].evidence; }
      }
    } else {
      forall k | 0 <= k < |r.evidence|
          ensures r.evidence[k].evidence != e { assert Events(r)[k] == r.evidence[k].evidence; }
    }
  }
}
