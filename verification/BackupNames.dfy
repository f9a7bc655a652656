/** The names of managed backups, printed and parsed. */
module BackupNames {
  import opened Unsigned
  import opened Wrappers
  import opened BackupPolicy

  const SUFFIX := ".dump.age"
  const PARTIAL_SUFFIX := ".dump.age.partial"

  /** What a backup is created for. */
  datatype Purpose =
    | ForSchedule | ForUser
    | ForMigration(version: string) | ForRestore(version: string) | ForUpdate(current: string, target: string)

  function KindOf(purpose: Purpose): Kind {
    match purpose
    case ForSchedule => Automatic
    case ForUser => Manual
    case ForMigration(_) => PreMigration
    case ForRestore(_) => PreRestore
    case ForUpdate(_, _) => PreUpdate
  }

  // ---- Printing ----

  predicate SafeChar(c: char) {
    'a' <= c <= 'z' || 'A' <= c <= 'Z' || '0' <= c <= '9' || c == '.' || c == '-' || c == '_'
  }

  function SafeFilenameComponent(value: string): (safe: string)
    ensures |safe| == |value|
    ensures forall i | 0 <= i < |safe| :: SafeChar(safe[i]) && (SafeChar(value[i]) ==> safe[i] == value[i])
  {
    seq(|value|, i requires 0 <= i < |value| => if SafeChar(value[i]) then value[i] else '_')
  }

  function Label(purpose: Purpose): string {
    match purpose
    case ForSchedule => "automatic"
    case ForUser => "manual"
    case ForMigration(version) => "pre-migration-v" + SafeFilenameComponent(version)
    case ForRestore(version) => "pre-restore-v" + SafeFilenameComponent(version)
    case ForUpdate(current, target) =>
      "pre-update-v" + (SafeFilenameComponent(current) + "-to-v" + SafeFilenameComponent(target))
  }

  function Prefix(purpose: Purpose): string {
    Label(purpose) + ['-']
  }

  function Digit(d: nat): char
    requires d < 10
  {
    '0' + d as char
  }

  function Decimal(n: nat): string {
    if n < 10 then [Digit(n)] else Decimal(n / 10) + [Digit(n % 10)]
  }

  function FileName(purpose: Purpose, timestamp: U64): string {
    Prefix(purpose) + Decimal(timestamp) + SUFFIX
  }

  function PartialName(purpose: Purpose, timestamp: U64): string {
    Prefix(purpose) + Decimal(timestamp) + PARTIAL_SUFFIX
  }

  // ---- Parsing ----

  function StripSuffix(s: string, suffix: string): Option<string> {
    if |s| >= |suffix| && s[|s| - |suffix|..] == suffix then Some(s[..|s| - |suffix|]) else None
  }

  function RSplitOnce(s: string, c: char): Option<(string, string)> {
    if s == [] then None
    else if s[|s| - 1] == c then Some((s[..|s| - 1], []))
    else match RSplitOnce(s[..|s| - 1], c)
      case None => None
      case Some((front, back)) => Some((front, back + [s[|s| - 1]]))
  }

  /** Digits are folded from the left, failing as soon as the value leaves 64 bits. */
  function ParseDigits(s: string, value: U64): Option<U64> {
    if s == [] then Some(value)
    else if !('0' <= s[0] <= '9') then None
    else
      var next := 10 * value + (s[0] as int - '0' as int);
      if next < TWO_64 then ParseDigits(s[1..], next) else None
  }

  function ParseU64(s: string): Option<U64> {
    if s == [] then None
    else if s[0] == '+' then (if |s| == 1 then None else ParseDigits(s[1..], 0))
    else ParseDigits(s, 0)
  }

  predicate StartsWith(s: string, prefix: string) {
    prefix <= s
  }

  /** `managed_backup_identity`. */
  function Identity(name: string): Option<(Kind, U64)> {
    match StripSuffix(name, SUFFIX)
    case None => None
    case Some(stem) =>
      match RSplitOnce(stem, '-')
      case None => None
      case Some((prefix, timestamp)) =>
        match PrefixKind(prefix)
        case None => None
        case Some(kind) => (match ParseU64(timestamp) case None => None case Some(value) => Some((kind, value)))
  }

  function PrefixKind(prefix: string): Option<Kind> {
    if StartsWith(prefix, "pre-migration-v") then Some(PreMigration)
    else if StartsWith(prefix, "pre-restore-v") then Some(PreRestore)
    else if StartsWith(prefix, "pre-update-v") then Some(PreUpdate)
    else if prefix == "automatic" then Some(Automatic)
    else if prefix == "manual" then Some(Manual)
    else None
  }

  // ---- Round trips ----

  lemma {:induction false} SplitAtLast(front: string, c: char, back: string)
    requires c !in back
    ensures RSplitOnce(front + [c] + back, c) == Some((front, back))
  {
    var s := front + [c] + back;
    if back == [] {
      assert s[..|s| - 1] == front;
    } else {
      var shorter := back[..|back| - 1];
      SplitAtLast(front, c, shorter);
      assert s[..|s| - 1] == front + [c] + shorter;
      assert shorter + [s[|s| - 1]] == back;
    }
  }

  lemma {:induction false} DecimalDigits(n: nat)
    ensures Decimal(n) != [] && forall i | 0 <= i < |Decimal(n)| :: '0' <= Decimal(n)[i] <= '9'
  {
    if n >= 10 { DecimalDigits(n / 10); }
  }

  lemma {:induction false} ParseOneMore(s: string, last: char, value: U64)
    requires ParseDigits(s, value).Some?
    ensures ParseDigits(s + [last], value) == ParseDigits([last], ParseDigits(s, value).value)
  {
    if s == [] {
      assert s + [last] == [last];
    } else {
      ParseOneMore(s[1..], last, 10 * value + (s[0] as int - '0' as int));
      assert (s + [last])[1..] == s[1..] + [last];
    }
  }

  lemma {:induction false} DecimalRoundTrip(n: U64)
    ensures ParseDigits(Decimal(n), 0) == Some(n)
  {
    if n < 10 {
      assert [Digit(n)][1..] == [];
    } else {
      DecimalRoundTrip(n / 10);
      ParseOneMore(Decimal(n / 10), Digit(n % 10), 0);
      assert [Digit(n % 10)][1..] == [];
    }
  }

  /** For every purpose, whatever the versions look like, and every timestamp: parsing the printed name gives back the
      kind and the timestamp. */
  lemma NameRoundTrip(purpose: Purpose, timestamp: U64)
    ensures Identity(FileName(purpose, timestamp)) == Some((KindOf(purpose), timestamp))
  {
    var digits := Decimal(timestamp);
    DecimalDigits(timestamp);
    DecimalRoundTrip(timestamp);
    var front := Label(purpose);
    LabelKind(purpose);
    var stem := front + ['-'] + digits;
    assert FileName(purpose, timestamp) == stem + SUFFIX;
    hide Label, Decimal, PrefixKind, RSplitOnce, ParseDigits, FileName;
    assert (stem + SUFFIX)[|stem|..] == SUFFIX && (stem + SUFFIX)[..|stem|] == stem;
    SplitAtLast(front, '-', digits);
  }

  lemma LabelKind(purpose: Purpose)
    ensures PrefixKind(Label(purpose)) == Some(KindOf(purpose))
  {
    hide SafeFilenameComponent;
    match purpose
    case ForMigration(version) => PrefixFound("pre-migration-v", SafeFilenameComponent(version));
    case ForRestore(version) => RestoreKind(SafeFilenameComponent(version));
    case ForUpdate(current,
                   target) => UpdateKind(SafeFilenameComponent(current) + "-to-v" + SafeFilenameComponent(target));
    case _ =>
  }

  lemma PrefixFound(prefix: string, rest: string)
    ensures StartsWith(prefix + rest, prefix)
  {
  }

  lemma PrefixDiffers(s: string, prefix: string, i: nat)
    requires i < |s| && i < |prefix| && s[i] != prefix[i]
    ensures !StartsWith(s, prefix)
  {
  }

  lemma RestoreKind(rest: string)
    ensures PrefixKind("pre-restore-v" + rest) == Some(PreRestore)
  {
    PrefixFound("pre-restore-v", rest);
    PrefixDiffers("pre-restore-v" + rest, "pre-migration-v", 4);
  }

  lemma UpdateKind(rest: string)
    ensures PrefixKind("pre-update-v" + rest) == Some(PreUpdate)
  {
    PrefixFound("pre-update-v", rest);
    PrefixDiffers("pre-update-v" + rest, "pre-migration-v", 4);
    PrefixDiffers("pre-update-v" + rest, "pre-restore-v", 4);
  }

  /** No two backups of different kinds or times share a name. */
  lemma NamesDiffer(one: Purpose, first: U64, other: Purpose, second: U64)
    requires KindOf(one) != KindOf(other) || first != second
    ensures FileName(one, first) != FileName(other, second)
  {
    NameRoundTrip(one, first);
    NameRoundTrip(other, second);
  }

  /** A backup that is still being written is never taken for a finished one. */
  lemma PartialIsNotABackup(purpose: Purpose, timestamp: U64)
    ensures Identity(PartialName(purpose, timestamp)).None?
  {
    var name := PartialName(purpose, timestamp);
    assert name[|name| - 1] == 'l' && SUFFIX[|SUFFIX| - 1] == 'e';
    hide Label, Decimal;
    if |name| >= |SUFFIX| { assert name[|name| - |SUFFIX|..][|SUFFIX| - 1] == 'l'; }
  }

  /** Every recognised name ends in a dash, digits with an optional plus sign, and the suffix; so a name with any
      trailing or embedded extra is not recognised. */
  lemma RecognisedShape(name: string) returns (front: string, number: string)
    requires Identity(name).Some?
    ensures name == front + ['-'] + number + SUFFIX
    ensures PrefixKind(front) == Some(Identity(name).value.0) && ParseU64(number) == Some(Identity(name).value.1)
    ensures '-' !in number
  {
    var stem := StripSuffix(name, SUFFIX).value;
    var split := RSplitOnce(stem, '-').value;
    front, number := split.0, split.1;
    SplitJoins(stem, '-');
    assert name == stem + SUFFIX;
  }

  lemma {:induction false} SplitJoins(s: string, c: char)
    ensures RSplitOnce(s, c).Some? ==>
              s == RSplitOnce(s, c).value.0 + [c] + RSplitOnce(s, c).value.1 && c !in RSplitOnce(s, c).value.1
  {
    if s != [] {
      SplitJoins(s[..|s| - 1], c);
      assert s == s[..|s| - 1] + [s[|s| - 1]];
    }
  }

  // ---- Which names are recognised ----

  /** What the part of a name before the last dash stands for: five prefixes, three of them to be followed by anything.
      */
  predicate StandsFor(front: string, kind: Kind) {
    match kind
    case Automatic => front == "automatic"
    case Manual => front == "manual"
    case PreMigration => "pre-migration-v" <= front
    case PreRestore => "pre-restore-v" <= front
    case PreUpdate => "pre-update-v" <= front
  }

  lemma PrefixMeans(front: string, kind: Kind)
    ensures PrefixKind(front) == Some(kind) <==> StandsFor(front, kind)
  {
    OnePrefix(front, "pre-migration-v", "pre-restore-v", 4);
    OnePrefix(front, "pre-migration-v", "pre-update-v", 4);
    OnePrefix(front, "pre-restore-v", "pre-update-v", 4);
    OnePrefix(front, "automatic", "pre-migration-v", 0);
    OnePrefix(front, "automatic", "pre-restore-v", 0);
    OnePrefix(front, "automatic", "pre-update-v", 0);
    OnePrefix(front, "manual", "pre-migration-v", 0);
    OnePrefix(front, "manual", "pre-restore-v", 0);
    OnePrefix(front, "manual", "pre-update-v", 0);
    assert "automatic" != "manual" by { assert |"automatic"| != |"manual"|; }
  }

  lemma OnePrefix(front: string, one: string, other: string, i: nat)
    requires i < |one| && i < |other| && one[i] != other[i]
    ensures !(one <= front && other <= front)
  {
    assert one <= front ==> front[i] == one[i];
    assert other <= front ==> front[i] == other[i];
  }

  predicate AllDigits(s: string) {
    forall i | 0 <= i < |s| :: '0' <= s[i] <= '9'
  }

  /** The number that decimal digits stand for. */
  function Value(s: string): nat
    requires AllDigits(s)
  {
    if s == [] then 0 else 10 * Value(s[..|s| - 1]) + (s[|s| - 1] as int - '0' as int)
  }

  lemma {:induction false} ParseFails(s: string, last: char, value: U64)
    requires ParseDigits(s, value).None?
    ensures ParseDigits(s + [last], value).None?
  {
    if '0' <= s[0] <= '9' && 10 * value + (s[0] as int - '0' as int) < TWO_64 {
      ParseFails(s[1..], last, 10 * value + (s[0] as int - '0' as int));
    }
    assert (s + [last])[1..] == s[1..] + [last];
  }

  /** Digits are read as the number they stand for when that has 64 bits, and nothing else is read. */
  lemma {:induction false} DigitsMean(s: string)
    ensures ParseDigits(s, 0) == if AllDigits(s) && Value(s) < TWO_64 then Some(Value(s)) else None
  {
    if s != [] {
      var front, last := s[..|s| - 1], s[|s| - 1];
      assert s == front + [last];
      DigitsMean(front);
      assert AllDigits(s) <==> AllDigits(front) && '0' <= last <= '9';
      if ParseDigits(front, 0).Some? {
        ParseOneMore(front, last, 0);
        assert [last][1..] == [];
      } else {
        ParseFails(front, last, 0);
      }
    }
  }

  /** A name is recognised exactly when it is a known prefix, a dash, a 64-bit number with at most one plus sign in
      front, and the suffix. */
  lemma RecognisedIff(front: string, number: string, kind: Kind, timestamp: U64)
    requires '-' !in number
    ensures var digits := if number != [] && number[0] == '+' then number[1..] else number;
            Identity(front + ['-'] + number + ".dump.age") == Some((kind, timestamp)) <==>
              StandsFor(front, kind) && digits != [] && AllDigits(digits) && Value(digits) == timestamp
  {
    var stem := front + ['-'] + number;
    var name := stem + ".dump.age";
    assert name[|stem|..] == SUFFIX && name[..|stem|] == stem;
    SplitAtLast(front, '-', number);
    PrefixMeans(front, kind);
    DigitsMean(number);
    if number != [] { DigitsMean(number[1..]); }
    hide PrefixKind, RSplitOnce, ParseDigits, Value, StandsFor;
    assert front + ['-'] + number + ".dump.age" == name;
    assert Identity(name) == match PrefixKind(front)
                             case None => None
                             case Some(k) => match ParseU64(number) case None => None case Some(v) => Some((k, v));
  }
}
