/** Managed backups: which ones rotation keeps, which ones the byte budget removes, and the check made before one is
    committed. */
module BackupPolicy {
  import opened Unsigned
  import opened Wrappers
  import Sorting

  const CLOCK_SKEW_TOLERANCE: U64 := 300_000
  const GIBIBYTE: U64 := 1_073_741_824
  const BUDGET_MIN: U64 := 2 * GIBIBYTE
  const BUDGET_MAX: U64 := 8 * GIBIBYTE

  datatype Kind = Automatic | Manual | PreMigration | PreRestore | PreUpdate

  datatype Class = AutomaticClass | ManualClass | SafetyClass

  /** A backup file; `name` is its path. */
  datatype Backup = Backup(name: string, kind: Kind, timestamp: U64, size: U64)

  predicate IsSafety(kind: Kind) {
    kind.PreMigration? || kind.PreRestore? || kind.PreUpdate?
  }

  function ClassOf(kind: Kind): Class {
    if IsSafety(kind) then SafetyClass else if kind.Manual? then ManualClass else AutomaticClass
  }

  function Retention(class_: Class): nat {
    match class_
    case AutomaticClass => 7
    case ManualClass => 5
    case SafetyClass => 3
  }

  /** A timestamp that is not further in the future than clocks may disagree. */
  predicate Credible(now: U64, timestamp: U64) {
    timestamp <= SaturatingAdd(now, CLOCK_SKEW_TOLERANCE)
  }

  /** The pair (credible, timestamp), in lexicographic order, as one number. */
  function Rank(now: U64, b: Backup): nat {
    if Credible(now, b.timestamp) then TWO_64 + b.timestamp else b.timestamp
  }

  /** The same for rotation, where manual backups always count as credible. */
  function RetentionRank(now: U64, b: Backup): nat {
    if b.kind.Manual? then TWO_64 + b.timestamp else Rank(now, b)
  }

  ghost predicate OwnNames(files: set<Backup>) {
    forall a, b | a in files && b in files && a.name == b.name :: a == b
  }

  // ---- Rotation ----

  function InClass(files: set<Backup>, class_: Class): set<Backup> {
    set b | b in files && ClassOf(b.kind) == class_
  }

  function NoBetter(now: U64): (Backup, Backup) -> bool {
    (a, b) => RetentionRank(now, a) <= RetentionRank(now, b)
  }

  /** Rotation keeps, in each class, as many of the best backups as the class retains. */
  ghost predicate Rotated(before: set<Backup>, now: U64, after: set<Backup>) {
    && after <= before
    && forall c: Class :: Sorting.BestOf(InClass(after, c), InClass(before, c), Retention(c), NoBetter(now))
  }

  /** By class, and best first within a class. */
  function RotationOrder(now: U64): (Backup, Backup) -> bool {
    (a: Backup, b: Backup) =>
      ClassIndex(ClassOf(a.kind)) < ClassIndex(ClassOf(b.kind))
      || (ClassOf(a.kind) == ClassOf(b.kind) && RetentionRank(now, a) >= RetentionRank(now, b))
  }

  function ClassIndex(class_: Class): nat {
    match class_
    case AutomaticClass => 0
    case ManualClass => 1
    case SafetyClass => 2
  }

  function CountClass(s: seq<Backup>, class_: Class): nat {
    if s == [] then 0
    else CountClass(s[..|s| - 1], class_) + if ClassOf(s[|s| - 1].kind) == class_ then 1 else 0
  }

  /** The backups of a sorted listing that come after enough others of their class. */
  function Surplus(s: seq<Backup>): set<Backup> {
    if s == [] then {} else
    var last := s[|s| - 1];
    Surplus(s[..|s| - 1]) + if CountClass(s, ClassOf(last.kind)) > Retention(ClassOf(last.kind)) then {last} else {}
  }

  ghost predicate SortedFor(now: U64, s: seq<Backup>) {
    Sorting.Distinct(s) && Sorting.Sorted(s, RotationOrder(now))
  }

  function Kept(s: seq<Backup>, class_: Class): set<Backup> {
    InClass(Sorting.Elements(s) - Surplus(s), class_)
  }

  lemma {:induction false} SurplusWithin(s: seq<Backup>)
    ensures Surplus(s) <= Sorting.Elements(s)
  {
    if s != [] { SurplusWithin(s[..|s| - 1]); }
  }

  lemma ListingNext(s: seq<Backup>)
    requires s != [] && Sorting.Distinct(s)
    ensures var front, last := s[..|s| - 1], s[|s| - 1];
            && Sorting.Elements(s) == Sorting.Elements(front) + {last} && last !in Sorting.Elements(front)
                && last !in front
            && Sorting.Distinct(front)
  {
    assert s == s[..|s| - 1] + [s[|s| - 1]];
  }

  lemma InClassNext(files: set<Backup>, b: Backup, c: Class)
    ensures InClass(files + {b}, c) == InClass(files, c) + if ClassOf(b.kind) == c then {b} else {}
  {
  }

  lemma {:induction false} ClassCounted(s: seq<Backup>, c: Class)
    requires Sorting.Distinct(s)
    ensures |InClass(Sorting.Elements(s), c)| == CountClass(s, c)
  {
    if s == [] {
      assert InClass(Sorting.Elements(s), c) == {};
    } else {
      var front, last := s[..|s| - 1], s[|s| - 1];
      ListingNext(s);
      ClassCounted(front, c);
      InClassNext(Sorting.Elements(front), last, c);
      assert last !in InClass(Sorting.Elements(front), c);
      hide Sorting.Elements, Sorting.Distinct, InClass, ClassOf;
    }
  }

  /** Dropping the surplus of a sorted listing keeps the best of every class. */
  lemma {:induction false} SurplusLeavesBest(now: U64, s: seq<Backup>, c: Class)
    requires SortedFor(now, s)
    ensures Sorting.BestOf(Kept(s, c), InClass(Sorting.Elements(s), c), Retention(c), NoBetter(now))
  {
    if s == [] {
      assert InClass(Sorting.Elements(s), c) == {};
      assert Kept(s, c) == {};
    } else {
      var front, last := s[..|s| - 1], s[|s| - 1];
      SurplusLeavesBest(now, front, c);
      SurplusWithin(front);
      ClassCounted(front, c);
      KeptNext(now, s, c);
    }
  }

  /** The first of its class so far, then second, ...: kept while the class is not full. */
  lemma KeptNext(now: U64, s: seq<Backup>, c: Class)
    requires SortedFor(now, s) && s != []
    requires var front := s[..|s| - 1];
             && Sorting.BestOf(Kept(front, c), InClass(Sorting.Elements(front), c), Retention(c), NoBetter(now))
             && Surplus(front) <= Sorting.Elements(front)
             && |InClass(Sorting.Elements(front), c)| == CountClass(front, c)
    ensures Sorting.BestOf(Kept(s, c), InClass(Sorting.Elements(s), c), Retention(c), NoBetter(now))
  {
    var front, last := s[..|s| - 1], s[|s| - 1];
    KeptSets(now, s, c);
    var all, kept := InClass(Sorting.Elements(front), c), Kept(front, c);
    hide *;
    if ClassOf(last.kind) == c {
      LastIsWorst(now, s, c, all);
      Sorting.BestGrows(kept, all, Retention(c), NoBetter(now), last);
    }
  }

  lemma KeptSets(now: U64, s: seq<Backup>, c: Class)
    requires SortedFor(now, s) && s != [] && Surplus(s[..|s| - 1]) <= Sorting.Elements(s[..|s| - 1])
    ensures var front, last := s[..|s| - 1], s[|s| - 1];
            var all, kept := InClass(Sorting.Elements(front), c), Kept(front, c);
            && InClass(Sorting.Elements(s), c) == (if ClassOf(last.kind) == c then all + {last} else all)
            && Kept(s, c) == (if ClassOf(last.kind) == c
                              && CountClass(front, c) < Retention(c) then kept + {last} else kept)
  {
    var front, last := s[..|s| - 1], s[|s| - 1];
    ListingNext(s);
    InClassNext(Sorting.Elements(front), last, c);
    hide Sorting.Elements, Sorting.Distinct;
  }

  lemma LastIsWorst(now: U64, s: seq<Backup>, c: Class, all: set<Backup>)
    requires SortedFor(now, s) && s != [] && ClassOf(s[|s| - 1].kind) == c
    requires all == InClass(Sorting.Elements(s[..|s| - 1]), c)
    ensures forall b | b in all :: NoBetter(now)(s[|s| - 1], b)
    ensures s[|s| - 1] !in all
  {
    hide RetentionRank;
    var front := s[..|s| - 1];
    forall b | b in all ensures NoBetter(now)(s[|s| - 1], b) && s[|s| - 1] != b {
      var i :| 0 <= i < |front| && front[i] == b;
      assert RotationOrder(now)(s[i], s[|s| - 1]);
    }
  }

  lemma AllKept(kept: set<Backup>, all: set<Backup>)
    requires kept <= all && |kept| == |all|
    ensures kept == all
  {
    if x :| x in all && x !in kept {
      Sorting.SubsetSize(kept, all, x);
      assert false;
    }
  }

  /** Under distinct timestamps there is only one way to rotate. */
  lemma RotationUnique(before: set<Backup>, now: U64, one: set<Backup>, other: set<Backup>)
    requires Rotated(before, now, one) && Rotated(before, now, other)
    requires forall a, b | a in before && b in before && a != b && ClassOf(a.kind) == ClassOf(b.kind) ::
             a.timestamp != b.timestamp
    ensures one == other
  {
    forall c: Class ensures InClass(one, c) == InClass(other, c) {
      BestStrictly(InClass(one, c), InClass(before, c), c, now);
      BestStrictly(InClass(other, c), InClass(before, c), c, now);
      Sorting.BestOfUnique(InClass(one, c), InClass(other, c), InClass(before, c), Retention(c), Worse(now));
    }
    ByClass(one, other);
  }

  function Worse(now: U64): (Backup, Backup) -> bool {
    (a, b) => RetentionRank(now, a) < RetentionRank(now, b)
  }

  lemma BestStrictly(kept: set<Backup>, all: set<Backup>, c: Class, now: U64)
    requires Sorting.BestOf(kept, all, Retention(c), NoBetter(now))
    requires forall a, b | a in all && b in all && a != b :: RetentionRank(now, a) != RetentionRank(now, b)
    ensures Sorting.BestOf(kept, all, Retention(c), Worse(now))
  {
  }

  lemma ByClass(one: set<Backup>, other: set<Backup>)
    requires forall c: Class :: InClass(one, c) == InClass(other, c)
    ensures one == other
  {
    forall b ensures b in one <==> b in other {
      assert b in one <==> b in InClass(one, ClassOf(b.kind));
      assert b in other <==> b in InClass(other, ClassOf(b.kind));
    }
  }

  /** Rotating again, at whatever time, removes nothing. */
  lemma RotationIdempotent(before: set<Backup>, now: U64, after: set<Backup>, later: U64, again: set<Backup>)
    requires Rotated(before, now, after) && Rotated(after, later, again)
    ensures again == after
  {
    forall c: Class ensures InClass(again, c) == InClass(after, c) {
      assert Sorting.BestOf(InClass(after, c), InClass(before, c), Retention(c), NoBetter(now));
      AllKept(InClass(again, c), InClass(after, c));
    }
    ByClass(again, after);
  }

  // ---- What rotation and pruning mean, by kind and timestamp ----

  /** Taken before a migration, a restore or an update. */
  predicate TakenForSafety(b: Backup) {
    b.kind.PreMigration? || b.kind.PreRestore? || b.kind.PreUpdate?
  }

  /** `b` is no worse a recovery point than `a`: a timestamp up to five minutes from now beats one further ahead, and
      then the later one is better. */
  predicate NoWorse(now: U64, a: Backup, b: Backup) {
    && (a.timestamp <= now + 300_000 ==> b.timestamp <= now + 300_000)
    && ((a.timestamp <= now + 300_000 <==> b.timestamp <= now + 300_000) ==> a.timestamp <= b.timestamp)
  }

  /** Seven automatic, five manual and three safety backups stay, or all there are, and none that is better than they
      are goes; manual ones are compared by timestamp alone. */
  ghost predicate KeepsSevenFiveThree(before: set<Backup>, now: U64, after: set<Backup>) {
    && after <= before
    && |set b | b in after && b.kind.Automatic?| == Sorting.Min(|set b | b in before && b.kind.Automatic?|, 7)
    && |set b | b in after && b.kind.Manual?| == Sorting.Min(|set b | b in before && b.kind.Manual?|, 5)
    && |set b | b in after && TakenForSafety(b)| == Sorting.Min(|set b | b in before && TakenForSafety(b)|, 3)
    && (forall a, b | a in before - after && b in after && a.kind.Automatic? && b.kind.Automatic? ::
          NoWorse(now, a, b))
    && (forall a, b | a in before - after && b in after && a.kind.Manual? && b.kind.Manual? ::
          a.timestamp <= b.timestamp)
    && (forall a, b | a in before - after && b in after && TakenForSafety(a) && TakenForSafety(b) ::
          NoWorse(now, a, b))
  }

  lemma RotationMeans(before: set<Backup>, now: U64, after: set<Backup>)
    requires Rotated(before, now, after)
    ensures KeepsSevenFiveThree(before, now, after)
  {
    ClassesMean(before);
    ClassesMean(after);
    forall a, b | a in before - after && b in after && ClassOf(a.kind) == ClassOf(b.kind)
      ensures RetentionRank(now, a) <= RetentionRank(now, b)
    {
      var c := ClassOf(a.kind);
      assert Sorting.BestOf(InClass(after, c), InClass(before, c), Retention(c), NoBetter(now));
      assert NoBetter(now)(a, b);
    }
    assert Sorting.BestOf(InClass(after, AutomaticClass), InClass(before, AutomaticClass), 7, NoBetter(now));
    assert Sorting.BestOf(InClass(after, ManualClass), InClass(before, ManualClass), 5, NoBetter(now));
    assert Sorting.BestOf(InClass(after, SafetyClass), InClass(before, SafetyClass), 3, NoBetter(now));
    RanksMean(now);
    hide RetentionRank, NoWorse, Retention, NoBetter;
  }

  lemma ClassesMean(files: set<Backup>)
    ensures InClass(files, AutomaticClass) == set b | b in files && b.kind.Automatic?
    ensures InClass(files, ManualClass) == set b | b in files && b.kind.Manual?
    ensures InClass(files, SafetyClass) == set b | b in files && TakenForSafety(b)
    ensures forall a: Backup, b: Backup | (a.kind.Automatic? && b.kind.Automatic?) || (a.kind.Manual? && b.kind.Manual?)
                || (TakenForSafety(a) && TakenForSafety(b)) :: ClassOf(a.kind) == ClassOf(b.kind)
  {
  }

  lemma RanksMean(now: U64)
    ensures forall a: Backup, b: Backup | !a.kind.Manual? && !b.kind.Manual? ::
              RetentionRank(now, a) <= RetentionRank(now, b) <==> NoWorse(now, a, b)
    ensures forall a: Backup, b: Backup | !a.kind.Manual? && !b.kind.Manual? ::
              Rank(now, a) <= Rank(now, b) <==> NoWorse(now, a, b)
    ensures forall a: Backup, b: Backup | a.kind.Manual? && b.kind.Manual? ::
              RetentionRank(now, a) <= RetentionRank(now, b) <==> a.timestamp <= b.timestamp
  {
  }

  /** Pruning takes nothing manual and nothing protected, no safety backup while an unprotected automatic one is left,
      and among unprotected automatic and among unprotected safety backups the oldest. */
  ghost predicate OldestGo(before: set<Backup>, protected: set<Backup>, after: set<Backup>) {
    && after <= before
    && (forall a | a in before - after :: (a.kind.Automatic? || TakenForSafety(a)) && a !in protected)
    && (forall a, b | a in before - after && b in after && b.kind.Automatic? && b !in protected :: a.kind.Automatic?)
    && (forall a, b | a in before - after && b in after && a.kind.Automatic? && b.kind.Automatic? && b !in protected ::
          a.timestamp <= b.timestamp)
    && (forall a, b | a in before - after && b in after && TakenForSafety(a) && TakenForSafety(b) && b !in protected ::
          a.timestamp <= b.timestamp)
  }

  lemma PruningMeans(before: set<Backup>, protected: set<Backup>, budget: U64, after: set<Backup>, ok: bool)
    requires Pruned(before, protected, budget, after, ok)
    ensures OldestGo(before, protected, after)
  {
    hide LastNeeded, Counted;
    forall a, b | a in before - after && b in after && !b.kind.Manual? && b !in protected ensures GoesBefore(a, b) {
      assert b in Candidates(before, protected);
    }
  }

  ghost predicate PointsKept(before: set<Backup>, now: U64, after: set<Backup>) {
    forall a | a in before && !a.kind.Manual? :: exists b | b in after :: !b.kind.Manual? && NoWorse(now, a, b)
  }

  ghost predicate SafetiesKept(before: set<Backup>, now: U64, after: set<Backup>) {
    forall a | a in before && TakenForSafety(a) :: exists b | b in after :: TakenForSafety(b) && NoWorse(now, a, b)
  }

  /** A recovery point that nothing lost beats is kept, and so is a safety backup. */
  ghost predicate KeepsNewest(before: set<Backup>, now: U64, after: set<Backup>) {
    PointsKept(before, now, after) && SafetiesKept(before, now, after)
  }

  lemma NewestAreKept(before: set<Backup>, now: U64, newest: Option<Backup>, newestSafety: Option<Backup>, budget: U64,
                      after: set<Backup>, ok: bool)
    requires IsNewest(before, IsRecoveryPoint, ByRank(now), newest)
    requires IsNewest(before, IsSafetyBackup, ByRank(now), newestSafety)
    requires Pruned(before, OptionSet(newest) + OptionSet(newestSafety), budget, after, ok)
    ensures KeepsNewest(before, now, after)
  {
    ProtectedStay(before, OptionSet(newest) + OptionSet(newestSafety), budget, after, ok);
    hide Pruned, Rank, NoWorse;
    PointKept(before, now, newest, after);
    SafetyKept(before, now, newestSafety, after);
  }

  lemma ProtectedStay(before: set<Backup>, protected: set<Backup>, budget: U64, after: set<Backup>, ok: bool)
    requires Pruned(before, protected, budget, after, ok)
    ensures forall b | b in before && b in protected :: b in after
  {
    hide GoesBefore, LastNeeded, Counted;
    forall b | b in before && b in protected ensures b in after {
      assert b !in Candidates(before, protected);
    }
  }

  lemma PointKept(before: set<Backup>, now: U64, newest: Option<Backup>, after: set<Backup>)
    requires IsNewest(before, IsRecoveryPoint, ByRank(now), newest) && (newest.Some? ==> newest.value in after)
    ensures PointsKept(before, now, after)
  {
    RanksMean(now);
    hide Rank, NoWorse;
    forall a | a in before && !a.kind.Manual? ensures exists b | b in after :: !b.kind.Manual? && NoWorse(now, a, b) {
      assert IsRecoveryPoint(a);
      assert ByRank(now)(a) <= ByRank(now)(newest.value) && IsRecoveryPoint(newest.value);
    }
  }

  lemma SafetyKept(before: set<Backup>, now: U64, newest: Option<Backup>, after: set<Backup>)
    requires IsNewest(before, IsSafetyBackup, ByRank(now), newest) && (newest.Some? ==> newest.value in after)
    ensures SafetiesKept(before, now, after)
  {
    RanksMean(now);
    hide Rank, NoWorse;
    forall a | a in before && TakenForSafety(a)
      ensures exists b | b in after :: TakenForSafety(b) && NoWorse(now, a, b)
    {
      assert IsSafetyBackup(a);
      assert ByRank(now)(a) <= ByRank(now)(newest.value) && IsSafetyBackup(newest.value);
    }
  }

  // ---- Byte totals ----

  ghost function Total(files: set<Backup>): nat {
    if files == {} then 0 else
    var b :| b in files;
    b.size + Total(files - {b})
  }

  lemma {:induction false} TotalWithout(files: set<Backup>, b: Backup)
    requires b in files
    ensures Total(files) == b.size + Total(files - {b})
    decreases files
  {
    var c :| c in files && Total(files) == c.size + Total(files - {c});
    if c != b {
      TotalWithout(files - {c}, b);
      TotalWithout(files - {b}, c);
      assert files - {c} - {b} == files - {b} - {c};
    }
  }

  lemma {:induction false} TotalOfPart(part: set<Backup>, files: set<Backup>)
    requires part <= files
    ensures Total(part) <= Total(files)
    decreases files
  {
    if part != {} {
      var b :| b in part;
      TotalWithout(part, b);
      TotalWithout(files, b);
      TotalOfPart(part - {b}, files - {b});
    }
  }

  function NotManual(files: set<Backup>): set<Backup> {
    set b | b in files && !b.kind.Manual?
  }

  // ---- The newest backups ----

  /** `best` is the last of the wanted backups in an order, if there are any. */
  ghost predicate IsNewest(files: set<Backup>, wanted: Backup -> bool, rank: Backup -> nat, best: Option<Backup>) {
    match best
    case None => forall b | b in files :: !wanted(b)
    case Some(b) => b in files && wanted(b) && forall a | a in files && wanted(a) :: rank(a) <= rank(b)
  }

  predicate IsSafetyBackup(b: Backup) {
    IsSafety(b.kind)
  }

  predicate IsRecoveryPoint(b: Backup) {
    !b.kind.Manual?
  }

  function ByRank(now: U64): Backup -> nat {
    b => Rank(now, b)
  }

  function ByTimestamp(): Backup -> nat {
    (b: Backup) => b.timestamp
  }

  // ---- The byte budget ----

  /** Automatic backups go first, then the oldest. */
  predicate GoesBefore(a: Backup, b: Backup) {
    var x, y := if a.kind.Automatic? then 0 else 1, if b.kind.Automatic? then 0 else 1;
    x < y || (x == y && a.timestamp <= b.timestamp)
  }

  function OptionSet(b: Option<Backup>): set<Backup> {
    if b.None? then {} else {b.value}
  }

  function Candidates(files: set<Backup>, protected: set<Backup>): set<Backup> {
    NotManual(files) - protected
  }

  /** The running total after pruning `before` down to `after`: it starts saturated, and subtractions stop at zero. */
  ghost function Counted(before: set<Backup>, after: set<Backup>): nat {
    var total: nat, gone := Saturate(Total(NotManual(before))), Total(NotManual(before - after));
    if gone <= total then total - gone else 0
  }

  lemma {:induction false} TotalSplits(files: set<Backup>, part: set<Backup>)
    requires part <= files
    ensures Total(files) == Total(part) + Total(files - part)
    decreases part
  {
    if part == {} {
      assert files - part == files;
    } else {
      var b :| b in part;
      TotalWithout(part, b);
      TotalWithout(files, b);
      TotalSplits(files - {b}, part - {b});
      assert files - {b} - (part - {b}) == files - part;
    }
  }

  /** Below 2^64 the running total is the true total of what is left. */
  lemma CountedIsTotal(before: set<Backup>, after: set<Backup>)
    requires after <= before && Total(NotManual(before)) < TWO_64
    ensures Counted(before, after) == Total(NotManual(after))
  {
    TotalSplits(NotManual(before), NotManual(after));
    assert NotManual(before) - NotManual(after) == NotManual(before - after);
  }

  lemma CountedGrows(before: set<Backup>, less: set<Backup>, more: set<Backup>)
    requires less <= more
    ensures Counted(before, less) <= Counted(before, more)
  {
    assert NotManual(before - more) <= NotManual(before - less);
    TotalOfPart(NotManual(before - more), NotManual(before - less));
  }

  /** `last` went last, and before its removal the running total exceeded the budget. */
  ghost predicate LastNeeded(before: set<Backup>, after: set<Backup>, budget: U64, last: Backup) {
    && last in before - after
    && (forall b | b in before - after :: GoesBefore(b, last))
    && Counted(before, after + {last}) > budget
  }

  /** What pruning to a budget does: the shortest stretch of candidates, first to go first, that brings the running
      total within the budget goes away; without success all candidates are gone. */
  ghost predicate Pruned(before: set<Backup>, protected: set<Backup>, budget: U64, after: set<Backup>, ok: bool) {
    && after <= before
    && before - after <= Candidates(before, protected)
    && (forall a, b | a in before - after && b in Candidates(before, protected) && b in after :: GoesBefore(a, b))
    && (ok <==> Counted(before, after) <= budget)
    && (!ok ==> before - after == Candidates(before, protected))
    && (before - after != {} ==> exists last :: LastNeeded(before, after, budget, last))
  }

  /** Below 2^64 pruning succeeds exactly when the protected backups alone are within the budget. */
  lemma PruningSucceedsIff(before: set<Backup>, protected: set<Backup>, budget: U64, after: set<Backup>, ok: bool)
    requires Pruned(before, protected, budget, after, ok) && protected <= NotManual(before)
    requires Total(NotManual(before)) < TWO_64
    ensures ok <==> Total(protected) <= budget
    ensures ok <==> Total(NotManual(after)) <= budget
    ensures protected <= after && forall b | b in before && b.kind.Manual? :: b in after
  {
    hide GoesBefore, LastNeeded, Counted;
    CountedIsTotal(before, after);
    forall b | b in before && (b in protected || b.kind.Manual?) ensures b in after {
      assert b in before - after ==> b in Candidates(before, protected);
    }
    assert protected <= NotManual(after);
    TotalOfPart(protected, NotManual(after));
    if !ok { assert NotManual(after) == protected; }
  }

  /** When no two backups share a kind of turn and a timestamp, the outcome is determined. */
  lemma PruningUnique(before: set<Backup>, protected: set<Backup>, budget: U64, one: set<Backup>, ok1: bool,
                      other: set<Backup>, ok2: bool)
    requires Pruned(before, protected, budget, one, ok1) && Pruned(before, protected, budget, other, ok2)
    requires forall a, b | a in before && b in before && GoesBefore(a, b) && GoesBefore(b, a) :: a == b
    ensures one == other && ok1 == ok2
  {
    hide *;
    forall x ensures x in before - one <==> x in before - other {
      if x in before - one { StretchesNest(before, protected, budget, one, ok1, other, ok2, x); }
      if x in before - other { StretchesNest(before, protected, budget, other, ok2, one, ok1, x); }
    }
    SameVerdict(before, protected, budget, one, ok1, other, ok2);
  }

  lemma SameVerdict(before: set<Backup>, protected: set<Backup>, budget: U64, one: set<Backup>, ok1: bool,
                    other: set<Backup>, ok2: bool)
    requires Pruned(before, protected, budget, one, ok1) && Pruned(before, protected, budget, other, ok2)
    requires forall x :: x in before - one <==> x in before - other
    ensures one == other && ok1 == ok2
  {
    hide GoesBefore, Candidates, LastNeeded;
    forall x ensures x in one <==> x in other { assert x in before - one <==> x in before - other; }
    assert one == other;
  }

  /** Of two outcomes neither removes a backup that the other keeps. */
  lemma StretchesNest(before: set<Backup>, protected: set<Backup>, budget: U64,
                      one: set<Backup>, ok1: bool, other: set<Backup>, ok2: bool, x: Backup)
    requires Pruned(before, protected, budget, one, ok1) && Pruned(before, protected, budget, other, ok2)
    requires forall a, b | a in before && b in before && GoesBefore(a, b) && GoesBefore(b, a) :: a == b
    requires x in before - one
    ensures x !in other
  {
    hide GoesBefore;
    if x in other {
      var last :| LastNeeded(before, one, budget, last);
      assert GoesBefore(x, last) && (last in before - other ==> GoesBefore(last, x));
      forall b | b in one ensures b in other {
        assert b in before - other ==> GoesBefore(b, x) && GoesBefore(x, b);
      }
      CountedGrows(before, one + {last}, other);
      assert false;
    }
  }

  // ---- The budget ----

  const ESTIMATE_MIN: U64 := 67_108_864

  function Clamp(x: U64, low: U64, high: U64): U64 {
    if x < low then low else if x > high then high else x
  }

  /** A twentieth of the file system within bounds, but always enough for one backup of the estimated size. */
  function StorageBudget(totalBytes: U64, estimate: U64): U64 {
    var clamped := Clamp(totalBytes / 20, BUDGET_MIN, BUDGET_MAX);
    Max(if clamped <= totalBytes then clamped else totalBytes, estimate)
  }

  /** Half as much again as the latest backup, or the size of the database when there is none. */
  function EstimatedBytes(latest: Option<Backup>, databaseBytes: U64): U64 {
    Max(if latest.Some? then SaturatingAdd(latest.value.size, latest.value.size / 2) else databaseBytes, ESTIMATE_MIN)
  }

  /** The budget fits the estimate. Otherwise it is a twentieth of the disk, at least 2 GiB and at most 8 GiB of it, and
      the whole disk when that has less than 2 GiB. */
  lemma StorageBudgetBounds(totalBytes: U64, estimate: U64)
    ensures var budget, share := StorageBudget(totalBytes, estimate), totalBytes / 20;
            && estimate <= budget
            && (budget > 8_589_934_592 || budget > totalBytes ==> budget == estimate)
            && (estimate <= share && 2_147_483_648 <= share <= 8_589_934_592 ==> budget == share)
            && (estimate <= 2_147_483_648 <= totalBytes && share < 2_147_483_648 ==> budget == 2_147_483_648)
            && (estimate <= 8_589_934_592 < share ==> budget == 8_589_934_592)
            && (estimate <= totalBytes < 2_147_483_648 ==> budget == totalBytes)
  {
  }

  /** The estimate is half as much again as the latest backup, or the size of the database, and at least 64 MiB. */
  lemma EstimateBounds(latest: Option<Backup>, databaseBytes: U64)
    ensures var estimate := EstimatedBytes(latest, databaseBytes);
            && estimate >= 67_108_864
            && (latest.None? && databaseBytes >= 67_108_864 ==> estimate == databaseBytes)
            && (latest.None? && databaseBytes < 67_108_864 ==> estimate == 67_108_864)
            && (latest.Some? && 67_108_864 <= latest.value.size + latest.value.size / 2 < TWO_64 ==>
                  estimate == latest.value.size + latest.value.size / 2)
            && (latest.Some? && latest.value.size + latest.value.size / 2 < 67_108_864 ==> estimate == 67_108_864)
  {
  }
}
