/** The managed backup directory: rotation, the byte budget and committing a new backup. */
module Backups {
  import opened Unsigned
  import opened Wrappers
  import opened BackupPolicy
  import Sorting

  datatype CommitError = WouldExceedBudget | OverBudget

  // ---- What a commit keeps ----

  lemma AnyMember(s: set<Backup>, x: Backup, t: set<Backup>, n: nat) returns (y: Backup)
    requires x in s && |t| == Sorting.Min(|s|, n) && n > 0
    ensures y in t
  {
    assert |s| > 0;
    assert t != {};
    y :| y in t;
  }

  /** The best backup of its class survives rotation. */
  lemma TopSurvives(before: set<Backup>, now: U64, after: set<Backup>, x: Backup)
    requires Rotated(before, now, after) && x in before
    requires forall y | y in before && ClassOf(y.kind) == ClassOf(x.kind) && y != x ::
             RetentionRank(now, y) < RetentionRank(now, x)
    ensures x in after
  {
    var c := ClassOf(x.kind);
    hide RetentionRank;
    var all, kept := InClass(before, c), InClass(after, c);
    assert Sorting.BestOf(kept, all, Retention(c), NoBetter(now));
    var y := AnyMember(all, x, kept, Retention(c));
    assert x !in kept ==> NoBetter(now)(x, y);
  }

  /** What the check before a commit compares with the budget: the new backup, and the newest safety backup by
      timestamp when the new one is not a safety backup itself. */
  function ProtectedBytes(kind: Kind, size: U64, safety: Option<Backup>): U64 {
    if IsSafety(kind) || safety.None? then size else SaturatingAdd(size, safety.value.size)
  }

  /** A new automatic or safety backup, newer than everything credible. */
  ghost predicate NewestOfAll(before: set<Backup>, b: Backup, now: U64) {
    && b !in before && !b.kind.Manual? && Credible(now, b.timestamp)
    && (forall a | a in before && !a.kind.Manual? && Credible(now, a.timestamp) :: a.timestamp < b.timestamp)
  }

  ghost predicate CredibleSafety(before: set<Backup>, now: U64) {
    && (forall a | a in before && IsSafety(a.kind) :: Credible(now, a.timestamp))
    && (forall a, c | a in before && c in before && IsSafety(a.kind) && IsSafety(c.kind) && a != c ::
        a.timestamp != c.timestamp)
  }

  /** The rotation that may follow the commit. */
  ghost predicate RotatedOrNot(files: set<Backup>, now: U64, rotated: set<Backup>) {
    rotated == files || Rotated(files, now, rotated)
  }

  lemma NewestIs(rotated: set<Backup>, wanted: Backup -> bool, rank: Backup -> nat, best: Option<Backup>, x: Backup)
    requires IsNewest(rotated, wanted, rank, best) && x in rotated && wanted(x)
    requires forall y | y in rotated && wanted(y) && y != x :: rank(y) < rank(x)
    ensures best == Some(x)
  {
  }

  lemma RotatedWithin(files: set<Backup>, now: U64, rotated: set<Backup>)
    requires RotatedOrNot(files, now, rotated)
    ensures rotated <= files
  {
  }

  /** A new backup that is newer than everything credible survives the rotation and is protected as the newest. */
  lemma NewStays(before: set<Backup>, b: Backup, now: U64, rotated: set<Backup>, newest: Option<Backup>)
    requires NewestOfAll(before, b, now) && RotatedOrNot(before + {b}, now, rotated)
    requires IsNewest(rotated, IsRecoveryPoint, ByRank(now), newest)
    ensures newest == Some(b) && b in rotated
    ensures forall y | y in rotated && !y.kind.Manual? && y != b :: Rank(now, y) < Rank(now, b)
  {
    var files := before + {b};
    RotatedWithin(files, now, rotated);
    forall y | y in files && !y.kind.Manual? && y != b ensures Rank(now, y) < Rank(now, b) {}
    hide Rank;
    if rotated != files { TopSurvives(files, now, rotated, b); }
    NewestIs(rotated, IsRecoveryPoint, ByRank(now), newest, b);
  }

  /** The best safety backup after a rotation was one of the best before it. */
  lemma BestSafetyStays(files: set<Backup>, now: U64, rotated: set<Backup>, best: Option<Backup>)
    requires RotatedOrNot(files, now, rotated) && IsNewest(rotated, IsSafetyBackup, ByRank(now), best)
    ensures IsNewest(files, IsSafetyBackup, ByRank(now), best)
  {
    hide Rank;
    if rotated != files {
      var all, kept := InClass(files, SafetyClass), InClass(rotated, SafetyClass);
      assert Sorting.BestOf(kept, all, Retention(SafetyClass), NoBetter(now));
      forall a | a in files && IsSafetyBackup(a) ensures best.Some? && Rank(now, a) <= Rank(now, best.value) {
        assert a in all;
        var y := AnyMember(all, a, kept, Retention(SafetyClass));
        assert IsSafetyBackup(y) && best.Some? && best.value in kept;
        assert a !in kept ==> NoBetter(now)(a, best.value);
        assert a in rotated ==> ByRank(now)(a) <= ByRank(now)(best.value);
      }
    }
  }

  lemma BestBefore(before: set<Backup>, b: Backup, now: U64, best: Option<Backup>)
    requires IsNewest(before + {b}, IsSafetyBackup, ByRank(now), best) && !IsSafety(b.kind)
    ensures IsNewest(before, IsSafetyBackup, ByRank(now), best)
  {
    hide Rank;
  }

  lemma TwoTotal(b: Backup, s: Option<Backup>)
    ensures Total({b} + OptionSet(s)) == b.size + if s.Some? && s.value != b then s.value.size else 0
  {
    var two := {b} + OptionSet(s);
    if s.Some? && s.value != b {
      TotalWithout(two, s.value);
      assert two - {s.value} == {b};
    } else {
      assert two == {b};
    }
    TotalWithout({b}, b);
    assert {b} - {b} == {};
  }

  /** The two protected backups are part of a total below 2^64, so their sum does not saturate. */
  lemma ProtectedSum(before: set<Backup>, b: Backup, safety: Option<Backup>)
    requires Total(NotManual(before + {b})) < TWO_64 && !b.kind.Manual? && b !in before
    requires safety.Some? ==> safety.value in before && IsSafety(safety.value.kind)
    ensures ProtectedBytes(b.kind, b.size, safety) ==
              b.size + if IsSafety(b.kind) || safety.None? then 0 else safety.value.size
  {
    if safety.Some? {
      assert {b} + OptionSet(safety) <= NotManual(before + {b});
      TotalOfPart({b} + OptionSet(safety), NotManual(before + {b}));
      TwoTotal(b, safety);
    }
  }

  /** For a new backup that is newer than everything credible, and a total below 2^64: after the commit, the rotation
      if there is one, and the pruning, the budget is met exactly when it covers the new backup together with, unless
      the new one is a safety backup, the earlier safety backup that is best by credibility and then timestamp. Both are
      kept in any case. */
  lemma CommitFitsIff(before: set<Backup>, b: Backup, now: U64, budget: U64, rotated: set<Backup>,
                      newest: Option<Backup>,
                      newestSafety: Option<Backup>, after: set<Backup>, ok: bool)
    requires NewestOfAll(before, b, now) && Total(NotManual(before + {b})) < TWO_64
    requires RotatedOrNot(before + {b}, now, rotated)
    requires IsNewest(rotated, IsRecoveryPoint, ByRank(now), newest)
    requires IsNewest(rotated, IsSafetyBackup, ByRank(now), newestSafety)
    requires Pruned(rotated, OptionSet(newest) + OptionSet(newestSafety), budget, after, ok)
    ensures if IsSafety(b.kind) then newestSafety == Some(b)
            else IsNewest(before, IsSafetyBackup, ByRank(now), newestSafety)
    ensures ok <==> ProtectedBytes(b.kind, b.size, newestSafety) <= budget
    ensures ok <==> Total(NotManual(after)) <= budget
    ensures b in after && OptionSet(newestSafety) <= after && forall m | m in rotated && m.kind.Manual? :: m in after
  {
    NewStays(before, b, now, rotated, newest);
    RotatedWithin(before + {b}, now, rotated);
    SafetyOfRotated(before, b, now, rotated, newestSafety);
    var protected := {b} + OptionSet(newestSafety);
    FewerBytes(before + {b}, rotated, now);
    hide Rotated, Rank, NewestOfAll;
    assert OptionSet(newest) + OptionSet(newestSafety) == protected <= NotManual(rotated);
    hide Pruned;
    PruningSucceedsIff(rotated, protected, budget, after, ok);
    TwoTotal(b, newestSafety);
    if !IsSafety(b.kind) { ProtectedSum(before, b, newestSafety); }
  }

  lemma SafetyOfRotated(before: set<Backup>, b: Backup, now: U64, rotated: set<Backup>, newestSafety: Option<Backup>)
    requires !b.kind.Manual? && b !in before && b in rotated && RotatedOrNot(before + {b}, now, rotated)
    requires IsNewest(rotated, IsSafetyBackup, ByRank(now), newestSafety)
    requires forall y | y in rotated && !y.kind.Manual? && y != b :: Rank(now, y) < Rank(now, b)
    ensures newestSafety.Some? ==> newestSafety.value in rotated && IsSafety(newestSafety.value.kind)
    ensures if IsSafety(b.kind) then newestSafety == Some(b)
            else IsNewest(before, IsSafetyBackup, ByRank(now), newestSafety)
  {
    hide Rank, Rotated;
    if IsSafety(b.kind) {
      NewestIs(rotated, IsSafetyBackup, ByRank(now), newestSafety, b);
    } else {
      BestSafetyStays(before + {b}, now, rotated, newestSafety);
      BestBefore(before, b, now, newestSafety);
    }
  }

  lemma FewerBytes(files: set<Backup>, rotated: set<Backup>, now: U64)
    requires RotatedOrNot(files, now, rotated)
    ensures Total(NotManual(rotated)) <= Total(NotManual(files))
  {
    assert rotated <= files;
    TotalOfPart(NotManual(rotated), NotManual(files));
  }

  /** With credible and distinct safety timestamps the check and the pruning mean the same safety backup. */
  lemma CredibleBest(before: set<Backup>, now: U64, safety: Option<Backup>, best: Option<Backup>)
    requires CredibleSafety(before, now)
    requires IsNewest(before, IsSafetyBackup, ByTimestamp(), safety)
             && IsNewest(before, IsSafetyBackup, ByRank(now), best)
    ensures safety == best
  {
    if safety.Some? && best.Some? {
      assert ByTimestamp()(best.value) <= ByTimestamp()(safety.value)
          && ByRank(now)(safety.value) <= ByRank(now)(best.value);
    }
  }

  /** So then, when the check accepts the backup's actual size, the rotation and the pruning that follow succeed. */
  lemma PreflightImpliesSuccess(before: set<Backup>, b: Backup, now: U64, safety: Option<Backup>, budget: U64,
                                rotated: set<Backup>, newest: Option<Backup>, newestSafety: Option<Backup>,
                                after: set<Backup>, ok: bool)
    requires NewestOfAll(before, b, now) && CredibleSafety(before, now)
    requires Total(NotManual(before + {b})) < TWO_64
    requires IsNewest(before, IsSafetyBackup, ByTimestamp(), safety) && ProtectedBytes(b.kind, b.size, safety) <= budget
    requires RotatedOrNot(before + {b}, now, rotated)
    requires IsNewest(rotated, IsRecoveryPoint, ByRank(now), newest)
    requires IsNewest(rotated, IsSafetyBackup, ByRank(now), newestSafety)
    requires Pruned(rotated, OptionSet(newest) + OptionSet(newestSafety), budget, after, ok)
    ensures ok && Total(NotManual(after)) <= budget
    ensures b in after && OptionSet(if IsSafety(b.kind) then Some(b) else safety) <= after
    ensures forall m | m in rotated && m.kind.Manual? :: m in after
  {
    CommitFitsIff(before, b, now, budget, rotated, newest, newestSafety, after, ok);
    hide Rotated, Pruned, NewestOfAll, CredibleSafety, IsNewest;
    if !IsSafety(b.kind) { CredibleBest(before, now, safety, newestSafety); }
  }

  // ---- Newest backups and totals ----

  lemma SomeNewest(files: set<Backup>, wanted: Backup -> bool, rank: Backup -> nat) returns (best: Option<Backup>)
    ensures IsNewest(files, wanted, rank, best)
    decreases files
  {
    if files == {} {
      best := None;
    } else {
      var b :| b in files;
      best := SomeNewest(files - {b}, wanted, rank);
      if wanted(b) && (best.None? || rank(best.value) <= rank(b)) { best := Some(b); }
    }
  }

  /** The last of the wanted backups with the largest key. */
  method NewestOf(listing: seq<Backup>, wanted: Backup -> bool, rank: Backup -> nat) returns (best: Option<Backup>)
    ensures IsNewest(Sorting.Elements(listing), wanted, rank, best)
  {
    best := None;
    var i := 0;
    while i < |listing|
      invariant 0 <= i <= |listing|
      invariant IsNewest(Sorting.Elements(listing[..i]), wanted, rank, best)
    {
      assert listing[..i + 1] == listing[..i] + [listing[i]];
      if wanted(listing[i]) && (best.None? || rank(best.value) <= rank(listing[i])) {
        best := Some(listing[i]);
      }
      i := i + 1;
    }
    assert listing[..|listing|] == listing;
  }

  method RetainedBytes(listing: seq<Backup>) returns (retained: U64)
    requires Sorting.Distinct(listing)
    ensures var total := Total(NotManual(Sorting.Elements(listing)));
            retained == if total < TWO_64 then total else TWO_64 - 1
  {
    retained := 0;
    var i := 0;
    assert NotManual(Sorting.Elements(listing[..0])) == {};
    while i < |listing|
      invariant 0 <= i <= |listing|
      invariant var total := Total(NotManual(Sorting.Elements(listing[..i])));
                retained == if total < TWO_64 then total else TWO_64 - 1
    {
      OneMore(listing, i);
      if !listing[i].kind.Manual? { retained := SaturatingAdd(retained, listing[i].size); }
      i := i + 1;
    }
    assert listing[..|listing|] == listing;
  }

  lemma OneMore(listing: seq<Backup>, i: nat)
    requires Sorting.Distinct(listing) && i < |listing|
    ensures Total(NotManual(Sorting.Elements(listing[..i + 1]))) ==
              Total(NotManual(Sorting.Elements(listing[..i]))) + if listing[i].kind.Manual? then 0 else listing[i].size
  {
    var front, b := Sorting.Elements(listing[..i]), listing[i];
    assert listing[..i + 1] == listing[..i] + [b];
    assert Sorting.Elements(listing[..i + 1]) == front + {b};
    assert b !in front;
    if b.kind.Manual? {
      assert NotManual(front + {b}) == NotManual(front);
    } else {
      assert NotManual(front + {b}) == NotManual(front) + {b};
      TotalWithout(NotManual(front) + {b}, b);
      assert NotManual(front) + {b} - {b} == NotManual(front);
    }
  }

  // ---- The rotation loop ----

  lemma RotationOrderIsTotal(now: U64)
    ensures Sorting.TotalPreorder(RotationOrder(now))
  {
    hide RetentionRank, ClassOf;
  }

  lemma SurplusNone(s: seq<Backup>)
    ensures Surplus(s[..0]) == {} && forall c: Class :: CountClass(s[..0], c) == 0
  {
  }

  lemma SurplusNext(s: seq<Backup>, i: nat)
    requires i < |s|
    ensures forall c: Class ::
            CountClass(s[..i + 1], c) == CountClass(s[..i], c) + if ClassOf(s[i].kind) == c then 1 else 0
    ensures Surplus(s[..i + 1]) ==
              Surplus(s[..i]) + if CountClass(s[..i], ClassOf(s[i].kind)) + 1 > Retention(ClassOf(s[i].kind))
                  then {s[i]} else {}
  {
    assert s[..i + 1][..i] == s[..i];
  }

  lemma SortedRotates(files: set<Backup>, now: U64, sorted: seq<Backup>)
    requires SortedFor(now, sorted) && Sorting.Elements(sorted) == files
    ensures Rotated(files, now, files - Surplus(sorted))
  {
    forall c: Class
      ensures Sorting.BestOf(InClass(files - Surplus(sorted), c), InClass(files, c), Retention(c), NoBetter(now))
    {
      SurplusLeavesBest(now, sorted, c);
    }
  }

  // ---- Pruning to the budget ----

  /** What is gone after the first `i` backups of the listing were looked at. */
  function GoneSoFar(before: set<Backup>, protected: set<Backup>, order: seq<Backup>, i: nat): set<Backup>
    requires i <= |order|
  {
    Candidates(before, protected) * Sorting.Elements(order[..i])
  }

  function PruningOrder(): (Backup, Backup) -> bool {
    GoesBefore
  }

  lemma PruningOrderIsTotal()
    ensures Sorting.TotalPreorder(PruningOrder())
  {
  }

  lemma GoneNext(before: set<Backup>, protected: set<Backup>, order: seq<Backup>, i: nat)
    requires i < |order| && Sorting.Distinct(order) && Sorting.Elements(order) == before
    ensures GoneSoFar(before, protected, order, i + 1) ==
              GoneSoFar(before, protected, order, i) + if order[i].kind.Manual?
                  || order[i] in protected then {} else {order[i]}
    ensures order[i] !in GoneSoFar(before, protected, order, i) && order[i] in before
    ensures GoneSoFar(before, protected, order, i) <= before
  {
    assert order[..i + 1] == order[..i] + [order[i]];
    assert order[i] in Sorting.Elements(order);
  }

  /** Removing one more backup while the total exceeds the budget. */
  lemma RemoveNext(before: set<Backup>, protected: set<Backup>, order: seq<Backup>, i: nat, budget: U64)
    requires i < |order| && Sorting.Distinct(order) && Sorting.Elements(order) == before
             && Sorting.Sorted(order, PruningOrder())
    requires !order[i].kind.Manual? && order[i] !in protected
    requires Counted(before, before - GoneSoFar(before, protected, order, i)) > budget
    ensures var now := before - GoneSoFar(before, protected, order, i);
            var next := before - GoneSoFar(before, protected, order, i + 1);
            && next == now - {order[i]}
            && Counted(before, next) == SaturatingSub(Counted(before, now), order[i].size)
            && LastNeeded(before, next, budget, order[i])
  {
    GoneNext(before, protected, order, i);
    var b, gone := order[i], GoneSoFar(before, protected, order, i);
    assert before - (before - gone) == gone;
    assert before - (before - (gone + {b})) == gone + {b};
    assert NotManual(gone + {b}) - {b} == NotManual(gone);
    TotalWithout(NotManual(gone + {b}), b);
    assert before - (gone + {b}) + {b} == before - gone;
    forall a | a in gone + {b} ensures GoesBefore(a, b) {
      if a != b {
        var j :| 0 <= j < |order[..i]| && order[..i][j] == a;
        assert PruningOrder()(order[j], order[i]);
      }
    }
  }

  lemma PruningEnds(before: set<Backup>, protected: set<Backup>, order: seq<Backup>, i: nat, budget: U64)
    requires i <= |order| && Sorting.Elements(order) == before && Sorting.Sorted(order, PruningOrder())
    requires var gone := GoneSoFar(before, protected, order, i);
             && (Counted(before, before - gone) <= budget || i == |order|)
             && (gone != {} ==> exists last :: LastNeeded(before, before - gone, budget, last))
    ensures var after := before - GoneSoFar(before, protected, order, i);
            Pruned(before, protected, budget, after, Counted(before, after) <= budget)
  {
    hide LastNeeded, NotManual, Counted;
    var gone := GoneSoFar(before, protected, order, i);
    var after := before - gone;
    assert Candidates(before, protected) <= before by { CandidatesWithin(before, protected); }
    assert before - after == gone;
    forall a, b | a in gone && b in Candidates(before, protected) && b in after ensures GoesBefore(a, b) {
      var j :| 0 <= j < |order[..i]| && order[..i][j] == a;
      var k :| 0 <= k < |order| && order[k] == b;
      assert b !in Sorting.Elements(order[..i]) && forall m | 0 <= m < i :: order[m] == order[..i][m];
      assert PruningOrder()(order[j], order[k]);
    }
    if i == |order| {
      assert order[..i] == order;
      assert gone == Candidates(before, protected);
    }
  }

  lemma CandidatesWithin(before: set<Backup>, protected: set<Backup>)
    ensures Candidates(before, protected) <= before
  {
  }

  lemma NothingCounted(files: set<Backup>)
    ensures Counted(files, files) == Saturate(Total(NotManual(files)))
  {
    assert files - files == {};
    assert NotManual({}) == {};
  }

  lemma NothingToPrune(files: set<Backup>, protected: set<Backup>, budget: U64)
    ensures Counted(files, files) <= budget ==> Pruned(files, protected, budget, files, true)
  {
  }

  /** For a safety backup the earlier ones do not count. */
  lemma SafetyCountsAlone(b: Backup, one: Option<Backup>, other: Option<Backup>)
    requires IsSafety(b.kind)
    ensures ProtectedBytes(b.kind, b.size, one) == ProtectedBytes(b.kind, b.size, other)
  {
  }

  lemma NoneGone(before: set<Backup>, protected: set<Backup>, order: seq<Backup>)
    ensures GoneSoFar(before, protected, order, 0) == {}
  {
  }

  lemma ProtectedByName(files: set<Backup>, newest: Option<Backup>, backup: Backup)
    requires OwnNames(files) && backup in files && OptionSet(newest) <= files
    ensures newest.Some? && newest.value.name == backup.name <==> backup in OptionSet(newest)
  {
    assert newest.Some? ==> newest.value in OptionSet(newest);
  }

  lemma MaybeRotated(files: set<Backup>, rotated: set<Backup>, now: U64, rotateAfter: bool)
    requires if rotateAfter then Rotated(files, now, rotated) else rotated == files
    ensures RotatedOrNot(files, now, rotated)
  {
  }

  lemma FewerNames(files: set<Backup>, rotated: set<Backup>, now: U64)
    requires RotatedOrNot(files, now, rotated)
    ensures OwnNames(files) ==> OwnNames(rotated)
  {
  }

  // ---- The directory ----

  class BackupDirectory {
    var files: set<Backup>

    constructor (files: set<Backup>)
      ensures this.files == files
    {
      this.files := files;
    }

    /** The backups, in whatever order the file system lists them. */
    method BackupFiles() returns (listing: seq<Backup>)
      ensures Sorting.Distinct(listing) && Sorting.Elements(listing) == files
    {
      listing := [];
      var rest := files;
      while rest != {}
        invariant rest <= files && Sorting.Distinct(listing) && Sorting.Elements(listing) == files - rest
        decreases |rest|
      {
        var b := Sorting.AnyOf(rest);
        Sorting.SubsetSize(rest - {b}, rest, b);
        assert b !in Sorting.Elements(listing);
        assert forall x :: x in Sorting.Elements(listing + [b]) <==> x in Sorting.Elements(listing) || x == b;
        listing := listing + [b];
        rest := rest - {b};
      }
    }

    /** `rotate_backups`. */
    method RotateBackups(now: U64)
      modifies this
      ensures Rotated(old(files), now, files) && KeepsSevenFiveThree(old(files), now, files)
    {
      hide KeepsSevenFiveThree;
      var backups := BackupFiles();
      RotationOrderIsTotal(now);
      var sorted := Sorting.Sort(backups, RotationOrder(now));
      Sorting.SameElements(backups, sorted);
      assert Sorting.Elements(sorted) == files;
      hide Rotated, RotationOrder, Sorting.Sorted, Sorting.Distinct;
      RemoveSurplus(sorted);
      SortedRotates(old(files), now, sorted);
      RotationMeans(old(files), now, files);
    }

    method RemoveSurplus(sorted: seq<Backup>)
      requires files == Sorting.Elements(sorted)
      modifies this
      ensures files == old(files) - Surplus(sorted)
    {
      var seen: map<Class, nat> := map[];
      var i := 0;
      hide Surplus, ClassOf, CountClass, Retention, Sorting.Elements;
      SurplusNone(sorted);
      while i < |sorted|
        invariant 0 <= i <= |sorted|
        invariant forall c: Class :: (if c in seen then seen[c] else 0) == CountClass(sorted[..i], c)
        invariant files == old(files) - Surplus(sorted[..i])
      {
        var backup := sorted[i];
        var class_ := ClassOf(backup.kind);
        var count := (if class_ in seen then seen[class_] else 0) + 1;
        SurplusNext(sorted, i);
        seen := seen[class_ := count];
        if count > Retention(class_) { files := files - {backup}; }
        i := i + 1;
      }
      assert sorted[..|sorted|] == sorted;
    }

    /** `ensure_backup_fits_budget`. */
    method EnsureFits(kind: Kind, size: U64, budget: U64) returns (ok: bool, ghost safety: Option<Backup>)
      ensures IsNewest(files, IsSafetyBackup, ByTimestamp(), safety)
      ensures ok <==> ProtectedBytes(kind, size, safety) <= budget
    {
      var backups := BackupFiles();
      var newest := None;
      if !IsSafety(kind) { newest := NewestOf(backups, IsSafetyBackup, ByTimestamp()); }
      if IsSafety(kind) { safety := SomeNewest(files, IsSafetyBackup, ByTimestamp()); } else { safety := newest; }
      var bytes := SaturatingAdd(size, if newest.Some? then newest.value.size else 0);
      ok := bytes <= budget;
    }

    /** `enforce_backup_byte_budget`; the path of a backup is its name. */
    method EnforceByteBudget(budget: U64, now: U64)
      returns (ok: bool, ghost newest: Option<Backup>, ghost newestSafety: Option<Backup>)
      requires OwnNames(files)
      modifies this
      ensures IsNewest(old(files), IsRecoveryPoint, ByRank(now), newest)
      ensures IsNewest(old(files), IsSafetyBackup, ByRank(now), newestSafety)
      ensures Pruned(old(files), OptionSet(newest) + OptionSet(newestSafety), budget, files, ok)
      ensures OldestGo(old(files), OptionSet(newest) + OptionSet(newestSafety), files)
      ensures KeepsNewest(old(files), now, files)
    {
      hide OldestGo, KeepsNewest, GoesBefore, Rank, Sorting.Distinct, Sorting.Sorted, NotManual, Candidates, Pruned,
           LastNeeded, Credible;
      var backups := BackupFiles();
      var retained := RetainedBytes(backups);
      NothingCounted(files);
      if retained <= budget {
        newest := SomeNewest(files, IsRecoveryPoint, ByRank(now));
        newestSafety := SomeNewest(files, IsSafetyBackup, ByRank(now));
        NothingToPrune(files, OptionSet(newest) + OptionSet(newestSafety), budget);
        PruningMeans(files, OptionSet(newest) + OptionSet(newestSafety), budget, files, true);
        NewestAreKept(files, now, newest, newestSafety, budget, files, true);
        return true, newest, newestSafety;
      }
      var newestBackup := NewestOf(backups, IsRecoveryPoint, ByRank(now));
      var newestSafetyBackup := NewestOf(backups, IsSafetyBackup, ByRank(now));
      newest, newestSafety := newestBackup, newestSafetyBackup;
      PruningOrderIsTotal();
      var order := Sorting.Sort(backups, PruningOrder());
      Sorting.SameElements(backups, order);
      assert Sorting.Elements(order) == files;
      retained := Prune(order, budget, retained, newestBackup, newestSafetyBackup);
      ok := retained <= budget;
      PruningMeans(old(files), OptionSet(newest) + OptionSet(newestSafety), budget, files, ok);
      NewestAreKept(old(files), now, newest, newestSafety, budget, files, ok);
    }

    method Prune(order: seq<Backup>, budget: U64, total: U64, newest: Option<Backup>, newestSafety: Option<Backup>)
      returns (retained: U64)
      requires OwnNames(files) && Sorting.Distinct(order) && Sorting.Elements(order) == files
      requires Sorting.Sorted(order, PruningOrder())
      requires OptionSet(newest) + OptionSet(newestSafety) <= files
      requires total == Counted(files, files)
      modifies this
      ensures Pruned(old(files), OptionSet(newest) + OptionSet(newestSafety), budget, files, retained <= budget)
      ensures OldestGo(old(files), OptionSet(newest) + OptionSet(newestSafety), files)
    {
      ghost var before, protected := files, OptionSet(newest) + OptionSet(newestSafety);
      hide OldestGo, GoesBefore, Sorting.Sorted, Sorting.Distinct, Candidates, Pruned, LastNeeded, GoneSoFar, Counted;
      retained := total;
      var i := 0;
      NoneGone(before, protected, order);
      while i < |order|
        invariant 0 <= i <= |order|
        invariant files == before - GoneSoFar(before, protected, order, i)
        invariant retained == Counted(before, files)
        invariant GoneSoFar(before, protected, order, i) != {} ==> exists last ::
                  LastNeeded(before, files, budget, last)
      {
        if retained <= budget { break; }
        var backup := order[i];
        GoneNext(before, protected, order, i);
        ProtectedByName(before, newest, backup);
        ProtectedByName(before, newestSafety, backup);
        if !(backup.kind.Manual? || (newest.Some? && newest.value.name == backup.name)
             || (newestSafety.Some? && newestSafety.value.name == backup.name)) {
          RemoveNext(before, protected, order, i, budget);
          files := files - {backup};
          retained := SaturatingSub(retained, backup.size);
          assert LastNeeded(before, files, budget, backup);
        }
        i := i + 1;
      }
      PruningEnds(before, protected, order, i, budget);
      PruningMeans(before, protected, budget, files, retained <= budget);
    }

    /** The end of a backup's creation, at one time: the check of its actual size, the commit, the rotation unless it
        is left out, and the byte budget. */
    method Commit(backup: Backup, budget: U64, rotateAfter: bool, now: U64)
      returns (r: Reply<(), CommitError>, ghost safety: Option<Backup>, ghost best: Option<Backup>)
      requires OwnNames(files + {backup}) && backup !in files
      modifies this
      ensures IsNewest(old(files), IsSafetyBackup, ByTimestamp(), safety)
      ensures IsNewest(old(files), IsSafetyBackup, ByRank(now), best)
      ensures r == Failed(WouldExceedBudget) <==> ProtectedBytes(backup.kind, backup.size, safety) > budget
      ensures r == Failed(WouldExceedBudget) ==> files == old(files)
      ensures NewestOfAll(old(files), backup, now) && Total(NotManual(old(files) + {backup})) < TWO_64
              && r != Failed(WouldExceedBudget) ==>
                && (r.Done? <==> ProtectedBytes(backup.kind, backup.size, best) <= budget)
                && (r.Done? <==> Total(NotManual(files)) <= budget)
                && backup in files && (!IsSafety(backup.kind) ==> OptionSet(best) <= files)
    {
      hide *;
      ghost var before := files;
      best := SomeNewest(before, IsSafetyBackup, ByRank(now));
      var fits;
      fits, safety := EnsureFits(backup.kind, backup.size, budget);
      if !fits { return Failed(WouldExceedBudget), safety, best; }
      files := files + {backup};
      ghost var committed := files;
      if rotateAfter { RotateBackups(now); }
      ghost var rotated := files;
      assert committed == before + {backup};
      MaybeRotated(committed, rotated, now, rotateAfter);
      FewerNames(committed, rotated, now);
      var ok; ghost var newest, newestSafety;
      ok, newest, newestSafety := EnforceByteBudget(budget, now);
      r := if ok then Done(()) else Failed(OverBudget);
      if NewestOfAll(before, backup, now) && Total(NotManual(committed)) < TWO_64 {
        CommitFitsIff(before, backup, now, budget, rotated, newest, newestSafety, files, ok);
        if IsSafety(backup.kind) { SafetyCountsAlone(backup, newestSafety, best); } else { best := newestSafety; }
      }
    }
  }

  // ---- A commit that the check accepts and the budget refuses ----

  const FUTURE := Backup("pre-update-v1-to-v2-9000000.dump.age", PreUpdate, 9_000_000, 67_108_864)
  const PAST := Backup("pre-update-v1-to-v2-10.dump.age", PreUpdate, 10, 1_610_612_736)
  const FRESH := Backup("automatic-20.dump.age", Automatic, 20, GIBIBYTE)

  lemma FutureSafetyFacts(safety: Option<Backup>, best: Option<Backup>)
    requires IsNewest({FUTURE, PAST}, IsSafetyBackup, ByTimestamp(), safety)
    requires IsNewest({FUTURE, PAST}, IsSafetyBackup, ByRank(20), best)
    ensures safety == Some(FUTURE) && best == Some(PAST)
    ensures NewestOfAll({FUTURE, PAST}, FRESH, 20) && Total(NotManual({FUTURE, PAST} + {FRESH})) < TWO_64
    ensures OwnNames({FUTURE, PAST} + {FRESH})
  {
    NewestIs({FUTURE, PAST}, IsSafetyBackup, ByTimestamp(), safety, FUTURE);
    NewestIs({FUTURE, PAST}, IsSafetyBackup, ByRank(20), best, PAST);
    TotalOfThree(FUTURE, PAST, FRESH);
    assert {FUTURE, PAST} + {FRESH} == {FUTURE, PAST, FRESH};
    TotalOfPart(NotManual({FUTURE, PAST, FRESH}), {FUTURE, PAST, FRESH});
    DifferentNames();
  }

  lemma DifferentNames()
    ensures FUTURE.name != PAST.name && FUTURE.name != FRESH.name && PAST.name != FRESH.name
  {
    assert |FUTURE.name| == 36 && |PAST.name| == 31 && |FRESH.name| == 21;
  }

  lemma TotalOfThree(a: Backup, b: Backup, c: Backup)
    requires a != b && b != c && a != c
    ensures Total({a, b, c}) == a.size + b.size + c.size
  {
    TotalWithout({a, b, c}, a);
    assert {a, b, c} - {a} == {b, c};
    TotalWithout({b, c}, b);
    assert {b, c} - {b} == {c};
    TotalWithout({c}, c);
    assert {c} - {c} == {};
  }

  /** On a disk of 20 GiB the budget is 2 GiB. A safety backup of 64 MiB from the future makes the check accept an
      automatic backup of 1 GiB, but pruning protects the credible safety backup of 1.5 GiB instead and must fail. */
  method FutureSafetyBackup() returns (accepted: bool, r: Reply<(), CommitError>)
    ensures accepted && r == Failed(OverBudget)
  {
    hide NewestOfAll, CredibleSafety, IsNewest, Total, OwnNames;
    var directory := new BackupDirectory({FUTURE, PAST});
    var budget := StorageBudget(20 * GIBIBYTE, EstimatedBytes(Some(FUTURE), 0));
    ghost var safety, best;
    accepted, safety := directory.EnsureFits(FRESH.kind, FRESH.size, budget);
    best := SomeNewest({FUTURE, PAST}, IsSafetyBackup, ByRank(20));
    FutureSafetyFacts(safety, best);
    r, safety, best := directory.Commit(FRESH, budget, true, 20);
    FutureSafetyFacts(safety, best);
    assert r.error.WouldExceedBudget? || r.error.OverBudget?;
  }
}
