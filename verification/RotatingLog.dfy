/** The supervisor's rotating log: a current file and numbered archives of bounded size. */
module RotatingLog {
  import opened Unsigned

  type Line = seq<bv8>

  // A file is the sequence of lines written to it, each with its line feed.
  type File = seq<Line>

  datatype Settings = Settings(maxFileBytes: U64, maxArchives: nat)

  /** `files[0]` is the current file and `files[k]` archive `k`; `appended` is everything that was ever written. */
  datatype Log = Log(files: map<nat, File>, currentBytes: U64, appended: seq<Line>)

  function Size(file: File): nat {
    if file == [] then 0 else Size(file[..|file| - 1]) + |file[|file| - 1]| + 1
  }

  function FileAt(files: map<nat, File>, k: nat): File {
    if k in files then files[k] else []
  }

  /** The archives from `k` on, oldest first, followed by the current file. */
  function Retained(files: map<nat, File>, k: nat): seq<Line> {
    FileAt(files, k) + if k == 0 then [] else Retained(files, k - 1)
  }

  predicate SuffixOf<T(==)>(s: seq<T>, t: seq<T>) {
    |s| <= |t| && s == t[|t| - |s|..]
  }

  // ---- What the operations do ----

  function LineBytes(line: Line): U64 {
    SaturatingAdd(Saturate(|line|), 1)
  }

  /** Where the file that becomes archive `k` was. */
  function Before(k: nat, n: nat): nat {
    if 0 < k <= n then k - 1 else k
  }

  function RotatedIndices(indices: set<nat>, n: nat): (r: set<nat>)
    ensures forall k: nat :: k in r <==> k == 0 || Before(k, n) in indices
  {
    (set k: nat | k <= n && Before(k, n) in indices) + (set k | k in indices && k > n) + {0}
  }

  /** Every file moves up one archive, the oldest one goes, and an empty current file is opened. Without archives the
      current file stays where it is. */
  function RotatedFiles(files: map<nat, File>, n: nat): (r: map<nat, File>)
    ensures forall k: nat :: k in r <==> k == 0 || Before(k, n) in files
    ensures forall k | k in r && k > 0 :: r[k] == files[Before(k, n)]
    ensures r[0] == if n == 0 then FileAt(files, 0) else []
  {
    map k | k in RotatedIndices(files.Keys, n) ::
      if k == 0 then (if n == 0 then FileAt(files, 0) else []) else files[Before(k, n)]
  }

  function Rotated(st: Settings, log: Log): Log {
    log.(files := RotatedFiles(log.files, st.maxArchives), currentBytes := 0)
  }

  function Opened(st: Settings, log: Log): Log {
    var bytes := Saturate(Size(FileAt(log.files, 0)));
    if bytes >= st.maxFileBytes then Rotated(st, log)
    else log.(files := log.files[0 := FileAt(log.files, 0)], currentBytes := bytes)
  }

  function MakeRoom(st: Settings, log: Log, line: Line): Log {
    if log.currentBytes > 0
        && SaturatingAdd(log.currentBytes, LineBytes(line)) > st.maxFileBytes then Rotated(st, log) else log
  }

  function Appended(st: Settings, log: Log, line: Line): Log {
    var room := MakeRoom(st, log, line);
    Log(room.files[0 := FileAt(room.files, 0) + [line]], SaturatingAdd(room.currentBytes, LineBytes(line)),
        room.appended + [line])
  }

  const EMPTY := Log(map[], 0, [])

  ghost predicate Step(st: Settings, s: Log, t: Log) {
    t == Opened(st, s) || exists line :: t == Appended(st, s, line)
  }

  /** A run of the program: the log is opened, lines are appended, the program ends and the log is opened again. */
  ghost predicate Run(st: Settings, t: seq<Log>) {
    && |t| > 0 && t[0] == Opened(st, EMPTY)
    && forall i | 0 <= i < |t| - 1 :: Step(st, t[i], t[i + 1])
  }

  // ---- What every step keeps ----

  predicate Fits(st: Settings, file: File) {
    Size(file) <= st.maxFileBytes || |file| == 1
  }

  ghost predicate Traced(st: Settings, log: Log) {
    && 0 in log.files && (forall k | k in log.files :: k <= st.maxArchives)
    && SuffixOf(Retained(log.files, st.maxArchives), log.appended)
  }

  predicate AllFit(st: Settings, log: Log) {
    forall k | k in log.files :: Fits(st, log.files[k])
  }

  /** The current file is counted, and every file is within the limit or a single line. */
  ghost predicate Sized(st: Settings, log: Log) {
    0 in log.files && log.currentBytes == Saturate(Size(log.files[0])) && AllFit(st, log)
  }

  lemma RotatedAt(files: map<nat, File>, n: nat, k: nat)
    ensures 0 < k <= n ==> FileAt(RotatedFiles(files, n), k) == FileAt(files, k - 1)
    ensures n > 0 ==> FileAt(RotatedFiles(files, n), 0) == []
  {
    hide RotatedIndices;
    var r := RotatedFiles(files, n);
    assert k in r <==> k == 0 || Before(k, n) in files;
  }

  lemma {:induction false} RotatedRetains(files: map<nat, File>, n: nat, k: nat)
    requires 0 < k <= n
    ensures Retained(RotatedFiles(files, n), k) == Retained(files, k - 1)
  {
    hide RotatedFiles, FileAt;
    RotatedAt(files, n, k);
    if k > 1 { RotatedRetains(files, n, k - 1); }
  }

  lemma {:induction false} SameFilesRetained(files: map<nat, File>, other: map<nat, File>, k: nat)
    requires forall j | 0 <= j <= k :: FileAt(files, j) == FileAt(other, j)
    ensures Retained(files, k) == Retained(other, k)
  {
    if k > 0 { SameFilesRetained(files, other, k - 1); }
  }

  lemma {:induction false} AppendRetained(files: map<nat, File>, line: Line, k: nat)
    ensures Retained(files[0 := FileAt(files, 0) + [line]], k) == Retained(files, k) + [line]
  {
    if k > 0 { AppendRetained(files, line, k - 1); }
  }

  lemma SizeMore(file: File, line: Line)
    ensures Size(file + [line]) == Size(file) + |line| + 1
  {
    assert (file + [line])[..|file|] == file;
  }

  /** The files before a log is opened: nothing needs to be there yet. */
  ghost predicate Traceable(st: Settings, log: Log) {
    && (forall k | k in log.files :: k <= st.maxArchives)
    && SuffixOf(Retained(log.files, st.maxArchives), log.appended)
  }

  /** A rotation loses only the oldest archive. */
  lemma RotateTraces(st: Settings, log: Log)
    requires Traceable(st, log)
    ensures Traced(st, Rotated(st, log))
  {
    var n := st.maxArchives;
    var r := RotatedFiles(log.files, n);
    forall k | k in r ensures k <= n { assert k == 0 || Before(k, n) in log.files; }
    if n == 0 {
      SameFilesRetained(log.files, r, 0);
    } else {
      RotatedRetains(log.files, n, n);
      RotatedAt(log.files, n, 0);
      assert Retained(log.files, n) == FileAt(log.files, n) + Retained(log.files, n - 1);
    }
    hide RotatedFiles;
  }

  lemma RotateSizes(st: Settings, log: Log)
    requires st.maxArchives > 0 && AllFit(st, log)
    ensures Sized(st, Rotated(st, log))
  {
    hide RotatedIndices;
    var r := RotatedFiles(log.files, st.maxArchives);
    forall k | k in r ensures Fits(st, r[k]) { assert k == 0 || Before(k, st.maxArchives) in log.files; }
  }

  lemma OpenTraces(st: Settings, log: Log)
    requires Traceable(st, log)
    ensures Traced(st, Opened(st, log))
  {
    RotateTraces(st, log);
    SameFilesRetained(log.files, log.files[0 := FileAt(log.files, 0)], st.maxArchives);
    hide SuffixOf, Retained;
  }

  lemma OpenSizes(st: Settings, log: Log)
    requires st.maxArchives > 0 && AllFit(st, log)
    ensures Sized(st, Opened(st, log))
  {
    RotateSizes(st, log);
  }

  lemma AppendTraces(st: Settings, log: Log, line: Line)
    requires Traced(st, log)
    ensures Traced(st, Appended(st, log, line))
  {
    RotateTraces(st, log);
    var room := MakeRoom(st, log, line);
    assert Traced(st, room);
    AppendRetained(room.files, line, st.maxArchives);
    AppendSuffix(Retained(room.files, st.maxArchives), room.appended, line);
    hide SuffixOf, Retained, MakeRoom, RotatedFiles, Rotated;
  }

  lemma AppendSizes(st: Settings, log: Log, line: Line)
    requires st.maxArchives > 0 && st.maxFileBytes < TWO_64 - 1 && Sized(st, log)
    ensures Sized(st, Appended(st, log, line))
  {
    RotateSizes(st, log);
    var room := MakeRoom(st, log, line);
    assert Sized(st, room);
    SizeMore(FileAt(room.files, 0), line);
    RoomMade(st, log, line);
    hide MakeRoom, RotatedFiles, Rotated;
  }

  lemma AppendSuffix(s: seq<Line>, t: seq<Line>, line: Line)
    requires SuffixOf(s, t)
    ensures SuffixOf(s + [line], t + [line])
  {
  }

  /** After making room the line fits, unless the current file is empty. */
  lemma RoomMade(st: Settings, log: Log, line: Line)
    requires st.maxArchives > 0 && st.maxFileBytes < TWO_64 - 1 && Sized(st, log)
    ensures Fits(st, FileAt(MakeRoom(st, log, line).files, 0) + [line])
  {
    SizeMore(FileAt(MakeRoom(st, log, line).files, 0), line);
    hide RotatedIndices;
  }

  lemma {:induction false} RunTraces(st: Settings, t: seq<Log>, i: nat)
    requires Run(st, t) && i < |t|
    ensures Traced(st, t[i])
  {
    hide Traced, Opened, Appended;
    if i == 0 {
      NothingRetained(st.maxArchives);
      OpenTraces(st, EMPTY);
    } else {
      RunTraces(st, t, i - 1);
      assert Step(st, t[i - 1], t[i]);
      if t[i] == Opened(st, t[i - 1]) {
        TracedIsTraceable(st, t[i - 1]);
        OpenTraces(st, t[i - 1]);
      } else {
        var line :| t[i] == Appended(st, t[i - 1], line);
        AppendTraces(st, t[i - 1], line);
      }
    }
  }

  lemma TracedIsTraceable(st: Settings, log: Log)
    requires Traced(st, log)
    ensures Traceable(st, log)
  {
  }

  lemma {:induction false} RunSizes(st: Settings, t: seq<Log>, i: nat)
    requires st.maxArchives > 0 && st.maxFileBytes < TWO_64 - 1 && Run(st, t) && i < |t|
    ensures Sized(st, t[i])
  {
    hide Opened, Appended, Fits;
    if i == 0 {
      OpenSizes(st, EMPTY);
    } else {
      RunSizes(st, t, i - 1);
      assert Step(st, t[i - 1], t[i]);
      if t[i] == Opened(st, t[i - 1]) {
        OpenSizes(st, t[i - 1]);
      } else {
        var line :| t[i] == Appended(st, t[i - 1], line);
        AppendSizes(st, t[i - 1], line);
      }
    }
  }

  lemma {:induction false} NothingRetained(k: nat)
    ensures Retained(map[], k) == []
  {
    if k > 0 { NothingRetained(k - 1); }
  }

  // ---- What the log promises ----

  /** Over every run of appends and reopens, whatever the settings: the archives from the oldest on, followed by the
      current file, are the end of everything appended, and there are at most `maxArchives` + 1 files. */
  lemma LogIsSuffix(st: Settings, t: seq<Log>, i: nat)
    requires Run(st, t) && i < |t|
    ensures SuffixOf(Retained(t[i].files, st.maxArchives), t[i].appended)
    ensures |t[i].files| <= st.maxArchives + 1
  {
    RunTraces(st, t, i);
    hide Run, Opened, Appended;
    FewKeys(t[i].files.Keys, st.maxArchives + 1);
  }

  lemma {:induction false} FewKeys(keys: set<nat>, n: nat)
    requires forall k | k in keys :: k < n
    ensures |keys| <= n
    decreases n
  {
    if n > 0 {
      FewKeys(keys - {n - 1}, n - 1);
    } else {
      assert keys == {};
    }
  }

  /** Over every run each file is within the limit or holds a single line. */
  ghost predicate LimitHolds(st: Settings) {
    forall t, i: nat | Run(st, t) && i < |t| :: AllFit(st, t[i])
  }

  function LongLine(st: Settings): Line {
    seq(st.maxFileBytes, _ => 7)
  }

  /** Without archives, or under the largest limit there is, a full current file is not moved away: two lines as long as
      the limit end up in it. */
  lemma TwoLongLines(st: Settings)
    requires st.maxArchives == 0 || st.maxFileBytes == TWO_64 - 1
    ensures var two := Appended(st, Appended(st, Opened(st, EMPTY), LongLine(st)), LongLine(st));
            0 in two.files && two.files[0] == [LongLine(st), LongLine(st)] && !Fits(st, two.files[0])
  {
    var line := LongLine(st);
    SizeMore([], line);
    SizeMore([line], line);
    assert [] + [line] == [line] && [line] + [line] == [line, line];
    var start := Opened(st, EMPTY);
    assert FileAt(start.files, 0) == [] && start.currentBytes == 0;
    var one := Appended(st, start, line);
    assert FileAt(one.files, 0) == [line];
    assert FileAt(MakeRoom(st, one, line).files, 0) == [line] by { hide RotatedIndices; }
  }

  /** The limit holds over all runs exactly when there is an archive and the limit is below the largest number. */
  lemma LimitHoldsIff(st: Settings)
    ensures LimitHolds(st) <==> st.maxArchives > 0 && st.maxFileBytes < TWO_64 - 1
  {
    hide Run, AllFit, Sized;
    if st.maxArchives > 0 && st.maxFileBytes < TWO_64 - 1 {
      forall t, i: nat | Run(st, t) && i < |t| ensures AllFit(st, t[i]) {
        RunSizes(st, t, i);
        SizedFits(st, t[i]);
      }
    } else {
      var start := Opened(st, EMPTY);
      var one := Appended(st, start, LongLine(st));
      var two := Appended(st, one, LongLine(st));
      TwoLongLines(st);
      hide Opened, Appended, LongLine;
      ThreeSteps(st, start, one, two, LongLine(st));
      assert !AllFit(st, [start, one, two][2]) by { NotAllFit(st, two); }
    }
  }

  lemma SizedFits(st: Settings, log: Log)
    requires Sized(st, log)
    ensures AllFit(st, log)
  {
  }

  lemma NotAllFit(st: Settings, log: Log)
    requires 0 in log.files && !Fits(st, log.files[0])
    ensures !AllFit(st, log)
  {
  }

  lemma ThreeSteps(st: Settings, start: Log, one: Log, two: Log, line: Line)
    requires start == Opened(st, EMPTY) && one == Appended(st, start, line) && two == Appended(st, one, line)
    ensures Run(st, [start, one, two])
  {
    hide Opened, Appended;
    var t := [start, one, two];
    assert Step(st, t[0], t[1]) && Step(st, t[1], t[2]);
  }

  // ---- When files move ----

  /** Every file is one archive further on, but for the oldest, and the current one is empty. */
  ghost predicate MovedOn(st: Settings, files: map<nat, File>, after: map<nat, File>) {
    && FileAt(after, 0) == []
    && forall k: nat | 0 < k <= st.maxArchives :: FileAt(after, k) == FileAt(files, k - 1)
  }

  /** Opening a log leaves all files in place while the current one is below the limit, and moves them on otherwise. */
  lemma OpenMeans(st: Settings, log: Log)
    ensures var current := FileAt(log.files, 0);
            var after := Opened(st, log);
            after.appended == log.appended
            && if Size(current) < st.maxFileBytes then
                 after.files == log.files[0 := current] && after.currentBytes == Size(current)
               else st.maxArchives > 0 ==> MovedOn(st, log.files, after.files) && after.currentBytes == 0
  {
    RotationMoves(st, log.files);
    hide RotatedFiles, Size, MovedOn;
  }

  lemma RotationMoves(st: Settings, files: map<nat, File>)
    ensures st.maxArchives > 0 ==> MovedOn(st, files, RotatedFiles(files, st.maxArchives))
  {
    forall k: nat { RotatedAt(files, st.maxArchives, k); }
    hide RotatedFiles;
  }

  /** A line goes to the end of the current file, and all other files stay, when it fits there or the current file is
      empty. Otherwise the files move on first. */
  lemma AppendMeans(st: Settings, log: Log, line: Line)
    requires 0 in log.files && log.currentBytes == Saturate(Size(log.files[0])) && st.maxFileBytes < TWO_64 - 1
    ensures var after := Appended(st, log, line);
            after.appended == log.appended + [line]
            && if log.files[0] == [] || Size(log.files[0]) + |line| + 1 <= st.maxFileBytes then
                 after.files == log.files[0 := log.files[0] + [line]]
               else st.maxArchives > 0 ==>
                 exists moved :: MovedOn(st, log.files, moved) && after.files == moved[0 := [line]]
  {
    RotationMoves(st, log.files);
    hide RotatedFiles, MovedOn;
    SizeEmpty(log.files[0]);
    var moved := RotatedFiles(log.files, st.maxArchives);
    if !(log.files[0] == [] || Size(log.files[0]) + |line| + 1 <= st.maxFileBytes) && st.maxArchives > 0 {
      assert MovedOn(st, log.files, moved);
      assert FileAt(moved, 0) == [] by { RotatedAt(log.files, st.maxArchives, 0); }
      assert [] + [line] == [line];
    }
  }

  lemma SizeEmpty(file: File)
    ensures Size(file) == 0 <==> file == []
  {
  }

  // ---- The log itself ----

  class RotatingLog {
    const st: Settings
    var files: map<nat, File>
    var currentBytes: U64
    ghost var appended: seq<Line>

    ghost function Now(): Log
      reads this
    {
      Log(files, currentBytes, appended)
    }

    /** Opens the log over the files of an earlier run. */
    constructor Open(st: Settings, files: map<nat, File>, ghost appended: seq<Line>)
      ensures this.st == st && Now() == Opened(st, Log(files, 0, appended))
    {
      this.st := st;
      this.files := files;
      currentBytes := Saturate(Size(FileAt(files, 0)));
      this.appended := appended;
      new;
      if currentBytes >= st.maxFileBytes {
        Rotate();
      } else {
        this.files := files[0 := FileAt(files, 0)];
      }
    }

    method Append(line: Line)
      requires 0 in files
      modifies this
      ensures Now() == Appended(st, old(Now()), line)
    {
      var lineBytes := LineBytes(line);
      if currentBytes > 0 && SaturatingAdd(currentBytes, lineBytes) > st.maxFileBytes {
        Rotate();
      }
      files := files[0 := files[0] + [line]];
      currentBytes := SaturatingAdd(currentBytes, lineBytes);
      appended := appended + [line];
    }

    method Rotate()
      modifies this
      ensures Now() == Rotated(st, old(Now()))
    {
      hide RotatedFiles, Shifted;
      ghost var before := files;
      var index := st.maxArchives;
      NothingShifted(before, st.maxArchives);
      while index > 0
        invariant 0 <= index <= st.maxArchives
        invariant Shifted(before, files, st.maxArchives, index)
        invariant appended == old(appended)
      {
        ShiftOne(before, files, st.maxArchives, index);
        files := files - {index};
        if index - 1 in files {
          files := files[index := files[index - 1]] - {index - 1};
        }
        index := index - 1;
      }
      AllShifted(before, files, st.maxArchives);
      files := files[0 := FileAt(files, 0)];
      currentBytes := 0;
    }
  }

  /** The files above `index` have moved up. */
  ghost predicate Shifted(before: map<nat, File>, files: map<nat, File>, n: nat, index: nat) {
    && index <= n
    && (forall k: nat | k < index || k > n || n == index :: k in files <==> k in before)
    && (forall k: nat | index < k <= n :: k in files <==> Before(k, n) in before)
    && (index < n ==> index !in files)
    && (forall k | k in files && (k <= index || k > n) :: files[k] == before[k])
    && (forall k | k in files && index < k <= n :: files[k] == before[Before(k, n)])
  }

  function MovedUp(files: map<nat, File>, index: nat): map<nat, File>
    requires index > 0
  {
    if index - 1 in files then (files - {index})[index := files[index - 1]] - {index - 1} else files - {index}
  }

  lemma NothingShifted(files: map<nat, File>, n: nat)
    ensures Shifted(files, files, n, n)
  {
  }

  lemma ShiftOne(before: map<nat, File>, files: map<nat, File>, n: nat, index: nat)
    requires index > 0 && Shifted(before, files, n, index)
    ensures Shifted(before, MovedUp(files, index), n, index - 1)
  {
    assert Before(index, n) == index - 1;
  }

  lemma AllShifted(before: map<nat, File>, files: map<nat, File>, n: nat)
    requires Shifted(before, files, n, 0)
    ensures files[0 := FileAt(files, 0)] == RotatedFiles(before, n)
  {
    hide RotatedIndices;
    var r := RotatedFiles(before, n);
    assert forall k: nat | k > 0 :: k in files <==> k in r;
    assert n == 0 || 0 !in files;
  }
}
