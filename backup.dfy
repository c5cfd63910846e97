// orchestrator/src/server/services/backup/index.ts: copies of the job
// database kept next to it. Automatic backups are named by day and pruned to
// the newest few; manual backups are named to the second and never pruned.
// The names are the only metadata: the type and the creation time are read
// back from them, and only names of the two shapes may be deleted.
//
// The file system is a set of names plus whether the database exists; the
// clock, and the conversion of a parsed date to milliseconds, are inputs.
module Backup {
  import opened Wrappers
  import opened Text
  import opened Seqs
  import opened Sorting

  datatype BackupType = Auto | Manual

  /** The local date and time fields `new Date()` gives: the month counts from 1. */
  datatype LocalTime = LocalTime(year: nat, month: nat, day: nat, hours: nat, minutes: nat, seconds: nat)

  /** A clock reading whose year has four digits (as every year from 1000 to 9999 does). */
  predicate FourDigitYear(now: LocalTime)
  {
    1000 <= now.year <= 9999 && now.month <= 12 && now.day <= 31 && now.hours <= 23 && now.minutes <= 59 && now.seconds <= 59
  }

  /** The date and time fields read back from a name, as `new Date("...Z")` takes them: in UTC. */
  datatype Stamp = Stamp(year: nat, month: nat, day: nat, hours: nat, minutes: nat, seconds: nat)

  const AUTO_BACKUP_PREFIX := "jobs_"
  const MANUAL_BACKUP_PREFIX := "jobs_manual_"
  const DB_SUFFIX := ".db"

  // ---------------------------------------------------------------- naming

  /** `String(n).padStart(2, "0")`. */
  function Pad2(n: nat): string
  {
    PadStart(NatToString(n), 2, '0')
  }

  /** `YYYY_MM_DD`. */
  function DateText(now: LocalTime): string
  {
    NatToString(now.year) + "_" + Pad2(now.month) + "_" + Pad2(now.day)
  }

  /** `HH_MM_SS`. */
  function TimeText(now: LocalTime): string
  {
    Pad2(now.hours) + "_" + Pad2(now.minutes) + "_" + Pad2(now.seconds)
  }

  /** `generateBackupFilename`: `jobs_YYYY_MM_DD.db` or `jobs_manual_YYYY_MM_DD_HH_MM_SS.db`. */
  function GenerateBackupFilename(kind: BackupType, now: LocalTime): (r: string)
    ensures |r| >= 3 && r[|r| - 3..] == DB_SUFFIX
  {
    if kind.Auto? then AUTO_BACKUP_PREFIX + DateText(now) + DB_SUFFIX
    else MANUAL_BACKUP_PREFIX + DateText(now) + "_" + TimeText(now) + DB_SUFFIX
  }

  // ---------------------------------------------------------------- patterns

  /** `\d{4}_\d{2}_\d{2}`. */
  predicate IsDateText(d: string)
  {
    |d| == 10 && AllDigits(d[..4]) && d[4] == '_' && AllDigits(d[5..7]) && d[7] == '_' && AllDigits(d[8..])
  }

  /** `\d{2}_\d{2}_\d{2}`. */
  predicate IsTimeText(t: string)
  {
    |t| == 8 && AllDigits(t[..2]) && t[2] == '_' && AllDigits(t[3..5]) && t[5] == '_' && AllDigits(t[6..])
  }

  /** `AUTO_BACKUP_PATTERN`: `^jobs_\d{4}_\d{2}_\d{2}\.db$`. */
  predicate IsAutoName(s: string)
  {
    |s| == 18 && s[..5] == AUTO_BACKUP_PREFIX && IsDateText(s[5..15]) && s[15..] == DB_SUFFIX
  }

  /** `MANUAL_BACKUP_PATTERN` as written: `^jobs_manual_\d{4}_\d{2}_\d{2}_\d{2}_\d{2}_\d{2}\.db$`. */
  predicate IsManualNameAsWritten(s: string)
  {
    |s| == 34 && s[..12] == MANUAL_BACKUP_PREFIX && IsDateText(s[12..22]) && s[22] == '_' &&
    IsTimeText(s[23..31]) && s[31..] == DB_SUFFIX
  }

  /**
    * The manual pattern extended with the optional `_N` suffix that
    * `createBackup` gives a name that is already taken:
    * `^jobs_manual_\d{4}_\d{2}_\d{2}_\d{2}_\d{2}_\d{2}(_\d+)?\.db$`.
    */
  predicate IsManualName(s: string)
  {
    |s| >= 34 && s[..12] == MANUAL_BACKUP_PREFIX && IsDateText(s[12..22]) && s[22] == '_' &&
    IsTimeText(s[23..31]) && s[|s| - 3..] == DB_SUFFIX &&
    (|s| == 34 || (|s| > 35 && s[31] == '_' && AllDigits(s[32..|s| - 3])))
  }

  /** `getBackupType` as written. */
  function GetBackupTypeAsWritten(s: string): Option<BackupType>
  {
    if IsAutoName(s) then Some(Auto) else if IsManualNameAsWritten(s) then Some(Manual) else None
  }

  /**
    * `getBackupType`, with the manual pattern that admits the collision
    * suffix. Every backup name starts with the automatic prefix "jobs_" and
    * ends in ".db"; a manual one starts with "jobs_manual_".
    */
  function GetBackupType(s: string): (r: Option<BackupType>)
    ensures r.Some? ==> |s| >= 18 && s[..5] == AUTO_BACKUP_PREFIX && s[|s| - 3..] == DB_SUFFIX
    ensures r == Some(Manual) ==> s[..12] == MANUAL_BACKUP_PREFIX
  {
    if IsAutoName(s) then Some(Auto) else if IsManualName(s) then Some(Manual) else None
  }

  predicate IsBackupName(s: string)
  {
    GetBackupType(s).Some?
  }

  /** The date fields of a `YYYY_MM_DD` text. */
  function DateOf(d: string): (nat, nat, nat)
    requires IsDateText(d)
  {
    (DigitsValue(d[..4]), DigitsValue(d[5..7]), DigitsValue(d[8..]))
  }

  /** The time fields of an `HH_MM_SS` text. */
  function TimeOf(t: string): (nat, nat, nat)
    requires IsTimeText(t)
  {
    (DigitsValue(t[..2]), DigitsValue(t[3..5]), DigitsValue(t[6..]))
  }

  /**
    * `parseBackupDate`: the fields of the name's date, or null. A date is
    * parsed for exactly the names classified as backups, so the listing's
    * check on both never drops a backup; an automatic backup is dated at
    * midnight.
    */
  function ParseBackupDate(s: string): (r: Option<Stamp>)
    ensures r.Some? <==> IsBackupName(s)
    ensures IsAutoName(s) ==> r.Some? && r.value.hours == 0 && r.value.minutes == 0 && r.value.seconds == 0
  {
    if IsAutoName(s) then
      var (y, m, d) := DateOf(s[5..15]);
      Some(Stamp(y, m, d, 0, 0, 0))
    else if IsManualName(s) then
      var (y, m, d) := DateOf(s[12..22]);
      var (hh, mm, ss) := TimeOf(s[23..31]);
      Some(Stamp(y, m, d, hh, mm, ss))
    else None
  }

  // ---------------------------------------------------------------- naming lemmas

  lemma Pad2Props(n: nat)
    requires n < 100
    ensures |Pad2(n)| == 2 && AllDigits(Pad2(n)) && DigitsValue(Pad2(n)) == n
  {
    NatToStringValue(n);
    var s := NatToString(n);
    if n < 10 {
      assert Pad2(n) == "0" + s;
      assert Pad2(n)[..1] == "0";
    } else {
      assert NatToString(n / 10) == [DigitChar(n / 10)];
    }
  }

  lemma YearProps(y: nat)
    requires 1000 <= y <= 9999
    ensures |NatToString(y)| == 4 && AllDigits(NatToString(y)) && DigitsValue(NatToString(y)) == y
  {
    NatToStringValue(y);
    assert |NatToString(y / 10 / 10 / 10)| == 1;
    assert |NatToString(y / 10 / 10)| == 2;
    assert |NatToString(y / 10)| == 3;
  }

  lemma DateTextProps(now: LocalTime)
    requires FourDigitYear(now)
    ensures IsDateText(DateText(now)) && DateOf(DateText(now)) == (now.year, now.month, now.day)
  {
    YearProps(now.year);
    Pad2Props(now.month);
    Pad2Props(now.day);
    var d := DateText(now);
    assert d[..4] == NatToString(now.year);
    assert d[5..7] == Pad2(now.month);
    assert d[8..] == Pad2(now.day);
  }

  lemma TimeTextProps(now: LocalTime)
    requires FourDigitYear(now)
    ensures IsTimeText(TimeText(now)) && TimeOf(TimeText(now)) == (now.hours, now.minutes, now.seconds)
  {
    Pad2Props(now.hours);
    Pad2Props(now.minutes);
    Pad2Props(now.seconds);
    var t := TimeText(now);
    assert t[..2] == Pad2(now.hours);
    assert t[3..5] == Pad2(now.minutes);
    assert t[6..] == Pad2(now.seconds);
  }

  /** The stamp a backup made at `now` carries: the date, and for a manual backup also the time. */
  function StampOf(kind: BackupType, now: LocalTime): Stamp
  {
    if kind.Auto? then Stamp(now.year, now.month, now.day, 0, 0, 0)
    else Stamp(now.year, now.month, now.day, now.hours, now.minutes, now.seconds)
  }

  /** A generated name has the shape of its type, and parsing it gives back the clock fields it was made from. */
  lemma GenerateParseRoundTrip(kind: BackupType, now: LocalTime)
    requires FourDigitYear(now)
    ensures GetBackupType(GenerateBackupFilename(kind, now)) == Some(kind)
    ensures GetBackupTypeAsWritten(GenerateBackupFilename(kind, now)) == Some(kind)
    ensures ParseBackupDate(GenerateBackupFilename(kind, now)) == Some(StampOf(kind, now))
  {
    var name := GenerateBackupFilename(kind, now);
    DateTextProps(now);
    if kind.Auto? {
      assert name[..5] == AUTO_BACKUP_PREFIX && name[5..15] == DateText(now) && name[15..] == DB_SUFFIX;
    } else {
      TimeTextProps(now);
      assert name[..12] == MANUAL_BACKUP_PREFIX && name[12..22] == DateText(now);
      assert name[23..31] == TimeText(now) && name[31..] == DB_SUFFIX;
      assert name[5] == 'm';
    }
  }

  /** No name is both an automatic and a manual backup, with either manual pattern. */
  lemma PatternsDisjoint(s: string)
    ensures !(IsAutoName(s) && IsManualName(s))
    ensures !(IsAutoName(s) && IsManualNameAsWritten(s))
  {
    if IsAutoName(s) {
      assert s[5] == s[5..15][0] && IsDigit(s[5..15][..4][0]);
      assert s[..12] != MANUAL_BACKUP_PREFIX by {
        assert s[..12][5] == s[5];
      }
    }
  }

  /** The characters backup names are made of. */
  predicate NameChar(c: char)
  {
    c == '_' || IsDigit(c) || ('a' <= c <= 'z')
  }

  lemma DateTextChars(d: string)
    requires IsDateText(d)
    ensures forall k :: 0 <= k < |d| ==> NameChar(d[k])
  {
    forall k | 0 <= k < |d| ensures NameChar(d[k]) {
      if k < 4 {
        assert d[k] == d[..4][k];
      } else if 5 <= k < 7 {
        assert d[k] == d[5..7][k - 5];
      } else if k >= 8 {
        assert d[k] == d[8..][k - 8];
      }
    }
  }

  lemma TimeTextChars(t: string)
    requires IsTimeText(t)
    ensures forall k :: 0 <= k < |t| ==> NameChar(t[k])
  {
    forall k | 0 <= k < |t| ensures NameChar(t[k]) {
      if k < 2 {
        assert t[k] == t[..2][k];
      } else if 3 <= k < 5 {
        assert t[k] == t[3..5][k - 3];
      } else if k >= 6 {
        assert t[k] == t[6..][k - 6];
      }
    }
  }

  /**
    * A name `deleteBackup` accepts is lower-case letters, digits and `_`
    * followed by `.db`, so it holds no path separator and no `..` and
    * stays inside the backup directory.
    */
  lemma BackupNameSafe(s: string)
    requires IsBackupName(s)
    ensures |s| >= 3 && s[|s| - 3..] == DB_SUFFIX
    ensures forall i :: 0 <= i < |s| - 3 ==> NameChar(s[i])
  {
    if IsAutoName(s) {
      DateTextChars(s[5..15]);
      forall i | 0 <= i < |s| - 3 ensures NameChar(s[i]) {
        if i < 5 {
          assert s[i] == AUTO_BACKUP_PREFIX[i];
        } else {
          assert s[i] == s[5..15][i - 5];
        }
      }
    } else {
      DateTextChars(s[12..22]);
      TimeTextChars(s[23..31]);
      forall i | 0 <= i < |s| - 3 ensures NameChar(s[i]) {
        if i < 12 {
          assert s[i] == MANUAL_BACKUP_PREFIX[i];
        } else if i < 22 {
          assert s[i] == s[12..22][i - 12];
        } else if 23 <= i < 31 {
          assert s[i] == s[23..31][i - 23];
        } else if i >= 32 {
          assert s[i] == s[32..|s| - 3][i - 32];
        }
      }
    }
  }

  // ---------------------------------------------------------------- collision suffix

  /** The name a manual backup gets when its name is taken: `${base}_${n}.db`. */
  function CollisionName(base: string, n: nat): string
  {
    base + "_" + NatToString(n) + DB_SUFFIX
  }

  /** The first suffix from `from` up to 100 whose name is free, if any. */
  function FreeSuffix(base: string, existing: set<string>, from: nat): (r: Option<nat>)
    ensures r.Some? ==> from <= r.value <= 100 && CollisionName(base, r.value) !in existing
    ensures r.Some? ==> forall m :: from <= m < r.value ==> CollisionName(base, m) in existing
    ensures r.None? ==> forall m :: from <= m <= 100 ==> CollisionName(base, m) in existing
    decreases 101 - from
  {
    if from > 100 then None
    else if CollisionName(base, from) !in existing then Some(from)
    else FreeSuffix(base, existing, from + 1)
  }

  /** A manual backup renamed after a collision is not a manual backup by the pattern as written. */
  lemma CollisionNameUnlisted(now: LocalTime, n: nat)
    requires FourDigitYear(now)
    ensures var name := GenerateBackupFilename(Manual, now);
      GetBackupTypeAsWritten(CollisionName(name[..|name| - 3], n)) == None
  {
    var name := GenerateBackupFilename(Manual, now);
    GenerateParseRoundTrip(Manual, now);
    assert |name| == 34;
    LongNameUnlisted(CollisionName(name[..|name| - 3], n));
  }

  /** A name longer than either pattern allows matches neither as written. */
  lemma LongNameUnlisted(c: string)
    requires |c| > 34
    ensures GetBackupTypeAsWritten(c) == None
  {
  }

  /** With the suffix admitted, a renamed manual backup is manual and keeps the time it was made at. */
  lemma CollisionNameListed(now: LocalTime, n: nat)
    requires FourDigitYear(now)
    ensures var name := GenerateBackupFilename(Manual, now);
      var c := CollisionName(name[..|name| - 3], n);
      GetBackupType(c) == Some(Manual) && ParseBackupDate(c) == Some(StampOf(Manual, now))
  {
    var name := GenerateBackupFilename(Manual, now);
    var base := name[..|name| - 3];
    var c := CollisionName(base, n);
    GenerateParseRoundTrip(Manual, now);
    assert |name| == 34;
    assert c[..31] == base;
    assert c[..12] == name[..12] && c[12..22] == name[12..22] && c[22] == name[22] && c[23..31] == name[23..31];
    assert c[31] == '_';
    assert c[32..|c| - 3] == NatToString(n);
    assert c[|c| - 3..] == DB_SUFFIX;
  }

  // ---------------------------------------------------------------- listing

  /** One entry of `listBackups`; `createdAt` is the parsed date in milliseconds. */
  datatype BackupInfo = BackupInfo(filename: string, kind: BackupType, createdAt: int)

  /** The entry `listBackups` makes for a backup name; `toTime` converts the parsed date to milliseconds. */
  function InfoOf(name: string, toTime: Stamp -> int): BackupInfo
    requires IsBackupName(name)
  {
    BackupInfo(name, GetBackupType(name).value, toTime(ParseBackupDate(name).value))
  }

  function CreatedAt(b: BackupInfo): int
  {
    b.createdAt
  }

  /** The sort key that puts the oldest first. */
  function Age(b: BackupInfo): int
  {
    -b.createdAt
  }

  predicate IsAutoInfo(b: BackupInfo)
  {
    b.kind.Auto?
  }

  /** The automatic backups among `files`. */
  function AutoNames(files: set<string>): set<string>
  {
    set f | f in files && IsAutoName(f)
  }

  /** The scheduler's calls: start (or restart) at an hour, stop, or leave it alone. */
  datatype SchedulerCall = Start(hour: int) | Stop | Keep

  // ---------------------------------------------------------------- the service

  /** The backup directory, whether the database exists, the backup settings and the daily scheduler. */
  class BackupService {
    var files: set<string>
    var dbExists: bool
    var enabled: bool
    var hour: int
    var maxCount: int
    var schedulerRunning: bool
    var schedulerHour: Option<int>

    /** The module state at start-up: disabled, hour 2, five automatic backups kept, nothing scheduled. */
    constructor(files: set<string>, dbExists: bool)
      ensures this.files == files && this.dbExists == dbExists
      ensures !enabled && hour == 2 && maxCount == 5
      ensures !schedulerRunning && schedulerHour.None?
    {
      this.files := files;
      this.dbExists := dbExists;
      enabled := false;
      hour := 2;
      maxCount := 5;
      schedulerRunning := false;
      schedulerHour := None;
    }

    /** Everything but the directory listing: the database, the settings and the scheduler. */
    function Rest(): (bool, bool, int, int, bool, Option<int>)
      reads this
    {
      (dbExists, enabled, hour, maxCount, schedulerRunning, schedulerHour)
    }

    /** The scheduler runs exactly when backups are enabled, at the configured hour. */
    predicate SchedulerInSync()
      reads this
    {
      schedulerRunning == enabled && (enabled ==> schedulerHour == Some(hour))
    }

    /** `scheduler.start(hour)`: any running timer is replaced by one for `hour`. */
    method StartScheduler(at: int)
      modifies this
      ensures schedulerRunning && schedulerHour == Some(at)
      ensures files == old(files) && dbExists == old(dbExists)
      ensures enabled == old(enabled) && hour == old(hour) && maxCount == old(maxCount)
    {
      schedulerRunning := true;
      schedulerHour := Some(at);
    }

    /** `scheduler.stop()`. */
    method StopScheduler()
      modifies this
      ensures !schedulerRunning && schedulerHour.None?
      ensures files == old(files) && dbExists == old(dbExists)
      ensures enabled == old(enabled) && hour == old(hour) && maxCount == old(maxCount)
    {
      schedulerRunning := false;
      schedulerHour := None;
    }

    /**
      * `setBackupSettings`: the given fields replace the current ones; the
      * scheduler is (re)started when backups are on and were off or the hour
      * moved, and stopped when they go from on to off.
      */
    method SetBackupSettings(newEnabled: Option<bool>, newHour: Option<int>, newMaxCount: Option<int>) returns (call: SchedulerCall)
      modifies this
      ensures enabled == newEnabled.GetOr(old(enabled))
      ensures hour == newHour.GetOr(old(hour)) && maxCount == newMaxCount.GetOr(old(maxCount))
      ensures call == (if enabled then (if !old(enabled) || old(hour) != hour then Start(hour) else Keep)
                       else if old(enabled) then Stop else Keep)
      ensures call.Start? ==> schedulerRunning && schedulerHour == Some(hour)
      ensures call.Stop? ==> !schedulerRunning && schedulerHour.None?
      ensures call.Keep? ==> schedulerRunning == old(schedulerRunning) && schedulerHour == old(schedulerHour)
      ensures files == old(files) && dbExists == old(dbExists)
      ensures old(SchedulerInSync()) ==> SchedulerInSync()
    {
      var oldEnabled := enabled;
      var oldHour := hour;
      enabled := newEnabled.GetOr(enabled);
      hour := newHour.GetOr(hour);
      maxCount := newMaxCount.GetOr(maxCount);
      call := Keep;
      if enabled {
        if !oldEnabled || oldHour != hour {
          StartScheduler(hour);
          call := Start(hour);
        }
      } else if oldEnabled && !enabled {
        StopScheduler();
        call := Stop;
      }
    }

    /** `startBackupScheduler`: start at the configured hour when backups are enabled. */
    method StartBackupScheduler()
      modifies this
      ensures enabled ==> schedulerRunning && schedulerHour == Some(hour)
      ensures !enabled ==> schedulerRunning == old(schedulerRunning) && schedulerHour == old(schedulerHour)
      ensures files == old(files) && enabled == old(enabled) && hour == old(hour) && maxCount == old(maxCount)
    {
      if enabled {
        StartScheduler(hour);
      }
    }

    /**
      * `createBackup`: copy the database under a generated name. An automatic
      * backup whose name exists already is reused without copying; a manual
      * one takes the first free suffix `_1` to `_100`, and fails when all
      * are taken.
      */
    method CreateBackup(kind: BackupType, now: LocalTime) returns (r: Result<string, string>)
      modifies this
      ensures var name := GenerateBackupFilename(kind, now);
        var base := name[..|name| - 3];
        if !old(dbExists) then r == Failure("Database file not found") && files == old(files)
        else if name !in old(files) then r == Success(name) && files == old(files) + {name}
        else if kind.Auto? then r == Success(name) && files == old(files)
        else match FreeSuffix(base, old(files), 1)
          case Some(n) => r == Success(CollisionName(base, n)) && files == old(files) + {CollisionName(base, n)}
          case None => r == Failure("Failed to create unique manual backup filename") && files == old(files)
      ensures Rest() == old(Rest())
    {
      var filename := GenerateBackupFilename(kind, now);
      if !dbExists {
        return Failure("Database file not found");
      }
      if filename in files {
        if kind.Auto? {
          return Success(filename);
        }
        var base := filename[..|filename| - 3];
        var sequence := 1;
        while filename in files && sequence <= 100
          invariant 1 <= sequence <= 101
          invariant filename in files ==> FreeSuffix(base, files, 1) == FreeSuffix(base, files, sequence)
          invariant filename !in files ==> sequence > 1 && FreeSuffix(base, files, 1) == Some(sequence - 1)
          invariant sequence > 1 ==> filename == CollisionName(base, sequence - 1)
          decreases 101 - sequence
        {
          filename := base + "_" + NatToString(sequence) + DB_SUFFIX;
          sequence := sequence + 1;
        }
        if filename in files {
          return Failure("Failed to create unique manual backup filename");
        }
      }
      files := files + {filename};
      return Success(filename);
    }

    /** `deleteBackup`: only a backup name is accepted, and only an existing one is removed. */
    method DeleteBackup(filename: string) returns (r: Result<(), string>)
      modifies this
      ensures !IsBackupName(filename) ==> r == Failure("Invalid backup filename") && files == old(files)
      ensures IsBackupName(filename) && filename !in old(files) ==> r == Failure("Backup not found: " + filename) && files == old(files)
      ensures IsBackupName(filename) && filename in old(files) ==> r == Success(()) && files == old(files) - {filename}
      ensures Rest() == old(Rest())
    {
      if !IsAutoName(filename) && !IsManualName(filename) {
        return Failure("Invalid backup filename");
      }
      if filename !in files {
        return Failure("Backup not found: " + filename);
      }
      files := files - {filename};
      return Success(());
    }

    /**
      * `listBackups`: every backup in the directory, once, newest first.
      * The directory is read in whatever order it yields its names.
      */
    method ListBackups(toTime: Stamp -> int) returns (backups: seq<BackupInfo>)
      ensures SortedDesc(backups, CreatedAt)
      ensures ListedFrom(backups, files, toTime)
      ensures forall i, j :: 0 <= i < j < |backups| ==> backups[i].filename != backups[j].filename
    {
      var remaining := files;
      var listed: seq<BackupInfo> := [];
      while remaining != {}
        invariant remaining <= files
        invariant ListedFrom(listed, files - remaining, toTime)
        decreases |remaining|
      {
        var filename :| filename in remaining;
        ListStep(listed, files - remaining, filename, toTime);
        SeenGrows(files, remaining, filename);
        remaining := remaining - {filename};
        var kind := GetBackupType(filename);
        var createdAt := ParseBackupDate(filename);
        if kind.Some? && createdAt.Some? {
          listed := listed + [BackupInfo(filename, kind.value, toTime(createdAt.value))];
        }
      }
      assert files - remaining == files;
      backups := SortDesc(listed, CreatedAt);
      ListedSorted(listed, files, toTime);
    }

    /**
      * `cleanupOldBackups`: when there are more automatic backups than
      * `maxCount`, the oldest ones are deleted until `maxCount` remain;
      * manual backups are left alone.
      */
    method CleanupOldBackups(toTime: Stamp -> int) returns (deleted: seq<string>)
      modifies this
      ensures var n := |AutoNames(old(files))|;
        |deleted| == if n > maxCount then (if maxCount < 0 then n else n - maxCount) else 0
      ensures forall i, j :: 0 <= i < j < |deleted| ==> deleted[i] != deleted[j]
      ensures forall d :: d in deleted ==> d in old(files) && IsAutoName(d)
      ensures files == old(files) - Elements(deleted)
      ensures var n := |AutoNames(old(files))|;
        |AutoNames(files)| == if n > maxCount then (if maxCount < 0 then 0 else maxCount) else n
      ensures forall d, k :: d in deleted && k in files && IsAutoName(k) ==>
        toTime(ParseBackupDate(d).value) <= toTime(ParseBackupDate(k).value)
      ensures Rest() == old(Rest())
    {
      var backups := ListBackups(toTime);
      var autoBackups := Filter(backups, IsAutoInfo);
      var ordered := SortDesc(autoBackups, Age);
      SortDescProps(autoBackups, Age);
      var keep := if |ordered| > maxCount then (if maxCount < 0 then 0 else maxCount) else |ordered|;
      deleted := FileNames(ordered[..|ordered| - keep]);
      OldestDeleted(backups, autoBackups, ordered, deleted, files, toTime);
      ghost var before := files;
      if |ordered| > maxCount {
        DeleteAll(deleted);
      }
      RemainingAuto(before, deleted);
    }

    /** The deletion loop of `cleanupOldBackups`: each name is deleted in turn; a failure is logged and skipped. */
    method DeleteAll(names: seq<string>)
      modifies this
      requires forall j :: 0 <= j < |names| ==> IsBackupName(names[j])
      ensures files == old(files) - Elements(names)
      ensures Rest() == old(Rest())
    {
      for i := 0 to |names|
        invariant files == old(files) - Elements(names[..i])
        invariant Rest() == old(Rest())
      {
        var _ := DeleteBackup(names[i]);
        assert Elements(names[..i + 1]) == Elements(names[..i]) + {names[i]} by {
          assert names[..i + 1] == names[..i] + [names[i]];
        }
      }
      assert names[..|names|] == names;
    }
  }

  /**
    * The listing holds one entry, made by `InfoOf`, for each backup name
    * among `seen`, and counts as many automatic entries as there are
    * automatic names.
    */
  predicate ListedFrom(listed: seq<BackupInfo>, seen: set<string>, toTime: Stamp -> int)
  {
    (forall i, j :: 0 <= i < j < |listed| ==> listed[i].filename != listed[j].filename) &&
    (forall b :: b in listed ==> b.filename in seen && IsBackupName(b.filename) && b == InfoOf(b.filename, toTime)) &&
    (forall f :: f in seen && IsBackupName(f) ==> InfoOf(f, toTime) in listed) &&
    |Filter(listed, IsAutoInfo)| == |AutoNames(seen)|
  }

  /** Taking one more name out of the unread ones adds it to the names read. */
  lemma SeenGrows(files: set<string>, remaining: set<string>, filename: string)
    requires remaining <= files && filename in remaining
    ensures files - (remaining - {filename}) == (files - remaining) + {filename}
    ensures filename !in files - remaining
  {
  }

  /** Reading one more name keeps the listing complete. */
  lemma ListStep(listed: seq<BackupInfo>, seen: set<string>, filename: string, toTime: Stamp -> int)
    requires ListedFrom(listed, seen, toTime) && filename !in seen
    ensures IsBackupName(filename) <==> GetBackupType(filename).Some? && ParseBackupDate(filename).Some?
    ensures IsBackupName(filename) ==> ListedFrom(listed + [InfoOf(filename, toTime)], seen + {filename}, toTime)
    ensures !IsBackupName(filename) ==> ListedFrom(listed, seen + {filename}, toTime)
  {
    if IsBackupName(filename) {
      var info := InfoOf(filename, toTime);
      var next := listed + [info];
      forall b | b in next
        ensures b.filename in seen + {filename} && IsBackupName(b.filename) && b == InfoOf(b.filename, toTime)
      {
        if b != info {
          assert b in listed;
        }
      }
      forall f | f in seen + {filename} && IsBackupName(f) ensures InfoOf(f, toTime) in next {
        if f != filename {
          assert InfoOf(f, toTime) in listed;
        }
      }
      forall i, j | 0 <= i < j < |next| ensures next[i].filename != next[j].filename {
        if j == |listed| {
          assert listed[i] in listed;
        }
      }
      FilterAppend(listed, [info], IsAutoInfo);
      if IsAutoName(filename) {
        assert filename !in AutoNames(seen);
        assert AutoNames(seen + {filename}) == AutoNames(seen) + {filename};
        assert Filter([info], IsAutoInfo) == [info];
        assert |Filter(next, IsAutoInfo)| == |Filter(listed, IsAutoInfo)| + 1;
      } else {
        assert AutoNames(seen + {filename}) == AutoNames(seen);
        assert Filter([info], IsAutoInfo) == [];
        assert Filter(next, IsAutoInfo) == Filter(listed, IsAutoInfo);
      }
    } else {
      assert AutoNames(seen + {filename}) == AutoNames(seen);
    }
  }

  /** Sorting the listing keeps it complete. */
  lemma ListedSorted(listed: seq<BackupInfo>, seen: set<string>, toTime: Stamp -> int)
    requires ListedFrom(listed, seen, toTime)
    ensures SortedDesc(SortDesc(listed, CreatedAt), CreatedAt)
    ensures ListedFrom(SortDesc(listed, CreatedAt), seen, toTime)
  {
    var sorted := SortDesc(listed, CreatedAt);
    SortDescProps(listed, CreatedAt);
    FilterMultiset(listed, sorted);
    forall b | b in sorted ensures b in listed {
      assert b in multiset(sorted);
    }
    forall f | f in seen && IsBackupName(f) ensures InfoOf(f, toTime) in sorted {
      assert InfoOf(f, toTime) in multiset(listed);
    }
    PermutedDistinct(listed, sorted);
  }

  /** Reordering a listing whose names are distinct keeps them distinct. */
  lemma PermutedDistinct(a: seq<BackupInfo>, b: seq<BackupInfo>)
    requires multiset(a) == multiset(b)
    requires forall i, j :: 0 <= i < j < |a| ==> a[i].filename != a[j].filename
    ensures forall i, j :: 0 <= i < j < |b| ==> b[i].filename != b[j].filename
  {
    SameNames(a, b);
    assert |multiset(a)| == |multiset(b)|;
    var na, nb := FileNames(a), FileNames(b);
    assert forall i, j :: 0 <= i < j < |na| ==> na[i] != na[j];
    DistinctSize(na);
    DistinctSize(nb);
    forall i, j | 0 <= i < j < |b| ensures b[i].filename != b[j].filename {
      assert nb[i] == b[i].filename && nb[j] == b[j].filename;
    }
  }

  /** Two listings with the same entries name the same files. */
  lemma SameNames(a: seq<BackupInfo>, b: seq<BackupInfo>)
    requires multiset(a) == multiset(b)
    ensures Elements(FileNames(a)) == Elements(FileNames(b))
  {
    forall x | x in Elements(FileNames(a)) ensures x in Elements(FileNames(b)) {
      var k :| 0 <= k < |a| && FileNames(a)[k] == x;
      assert a[k] in multiset(b);
      var m :| 0 <= m < |b| && b[m] == a[k];
      assert FileNames(b)[m] == x;
    }
    forall x | x in Elements(FileNames(b)) ensures x in Elements(FileNames(a)) {
      var k :| 0 <= k < |b| && FileNames(b)[k] == x;
      assert b[k] in multiset(a);
      var m :| 0 <= m < |a| && a[m] == b[k];
      assert FileNames(a)[m] == x;
    }
  }

  /** The names in a list number at most its length, exactly its length when they are pairwise distinct. */
  lemma {:induction false} DistinctSize(s: seq<string>)
    ensures |Elements(s)| <= |s|
    ensures (forall i, j :: 0 <= i < j < |s| ==> s[i] != s[j]) <==> |Elements(s)| == |s|
  {
    if s != [] {
      var t := s[..|s| - 1];
      var x := s[|s| - 1];
      assert s == t + [x];
      assert Elements(s) == Elements(t) + {x};
      DistinctSize(t);
      if x in t {
        var k :| 0 <= k < |t| && t[k] == x;
        assert s[k] == s[|s| - 1];
        assert Elements(s) == Elements(t);
      } else {
        assert |Elements(s)| == |Elements(t)| + 1;
        if |Elements(s)| == |s| {
          forall i, j | 0 <= i < j < |s| ensures s[i] != s[j] {
            if j == |s| - 1 {
              assert s[i] == t[i];
            } else {
              assert s[i] == t[i] && s[j] == t[j];
            }
          }
        }
      }
    }
  }

  /**
    * Deleting a duplicate-free run of automatic backups from the directory
    * leaves as many automatic backups as there were, less the run.
    */
  lemma RemainingAuto(before: set<string>, deleted: seq<string>)
    requires forall i, j :: 0 <= i < j < |deleted| ==> deleted[i] != deleted[j]
    requires forall d :: d in deleted ==> d in before && IsAutoName(d)
    ensures |AutoNames(before - Elements(deleted))| == |AutoNames(before)| - |deleted|
  {
    DistinctSize(deleted);
    var gone := Elements(deleted);
    assert gone <= AutoNames(before);
    assert AutoNames(before - gone) == AutoNames(before) - gone;
    assert AutoNames(before) == AutoNames(before - gone) + gone;
  }

  /** The names of the entries, in order. */
  function FileNames(s: seq<BackupInfo>): (r: seq<string>)
    ensures |r| == |s| && forall j :: 0 <= j < |s| ==> r[j] == s[j].filename
  {
    if s == [] then [] else FileNames(s[..|s| - 1]) + [s[|s| - 1].filename]
  }

  function Elements(s: seq<string>): set<string>
  {
    set x | x in s
  }

  /** An entry of the sorted automatic backups is an automatic backup from the listing. */
  lemma InOrdered(backups: seq<BackupInfo>, autoBackups: seq<BackupInfo>, ordered: seq<BackupInfo>, i: nat,
                  seen: set<string>, toTime: Stamp -> int)
    requires ListedFrom(backups, seen, toTime)
    requires autoBackups == Filter(backups, IsAutoInfo)
    requires multiset(ordered) == multiset(autoBackups)
    requires i < |ordered|
    ensures ordered[i] in backups && ordered[i].filename in seen && ordered[i] == InfoOf(ordered[i].filename, toTime)
    ensures IsAutoName(ordered[i].filename)
  {
    assert ordered[i] in multiset(autoBackups);
    PatternsDisjoint(ordered[i].filename);
  }

  /**
    * The automatic backups, reordered, name each automatic backup of the
    * directory exactly once.
    */
  lemma OrderedDistinct(backups: seq<BackupInfo>, autoBackups: seq<BackupInfo>, ordered: seq<BackupInfo>,
                        seen: set<string>, toTime: Stamp -> int)
    requires ListedFrom(backups, seen, toTime)
    requires autoBackups == Filter(backups, IsAutoInfo)
    requires multiset(ordered) == multiset(autoBackups)
    requires |ordered| == |AutoNames(seen)|
    ensures forall i, j :: 0 <= i < j < |ordered| ==> ordered[i].filename != ordered[j].filename
  {
    var names := FileNames(ordered);
    forall x | x in Elements(names) ensures x in AutoNames(seen) {
      var m :| 0 <= m < |names| && names[m] == x;
      InOrdered(backups, autoBackups, ordered, m, seen, toTime);
    }
    forall x | x in AutoNames(seen) ensures x in Elements(names) {
      var info := InfoOf(x, toTime);
      assert info in backups;
      assert info in multiset(autoBackups);
      var m :| 0 <= m < |ordered| && ordered[m] == info;
      assert names[m] == x;
    }
    assert Elements(names) == AutoNames(seen);
    DistinctSize(names);
    forall i, j | 0 <= i < j < |ordered| ensures ordered[i].filename != ordered[j].filename {
      assert names[i] == ordered[i].filename && names[j] == ordered[j].filename;
    }
  }

  /** Two sequences with the same elements have automatic parts of the same length. */
  lemma FilterMultiset(a: seq<BackupInfo>, b: seq<BackupInfo>)
    requires multiset(a) == multiset(b)
    ensures |Filter(a, IsAutoInfo)| == |Filter(b, IsAutoInfo)|
  {
    forall x ensures multiset(Filter(a, IsAutoInfo))[x] == multiset(Filter(b, IsAutoInfo))[x] {
      FilterCount(a, IsAutoInfo, x);
      FilterCount(b, IsAutoInfo, x);
    }
    assert multiset(Filter(a, IsAutoInfo)) == multiset(Filter(b, IsAutoInfo));
    assert |multiset(Filter(a, IsAutoInfo))| == |Filter(a, IsAutoInfo)|;
  }

  /**
    * The entries deleted are the first ones of the automatic backups sorted
    * oldest first, so each is an automatic backup no newer than any
    * automatic backup that stays.
    */
  lemma OldestDeleted(backups: seq<BackupInfo>, autoBackups: seq<BackupInfo>, ordered: seq<BackupInfo>,
                      deleted: seq<string>, before: set<string>, toTime: Stamp -> int)
    requires ListedFrom(backups, before, toTime)
    requires autoBackups == Filter(backups, IsAutoInfo)
    requires SortedDesc(ordered, Age) && multiset(ordered) == multiset(autoBackups)
    requires |deleted| <= |ordered|
    requires forall j :: 0 <= j < |deleted| ==> deleted[j] == ordered[j].filename
    ensures |ordered| == |AutoNames(before)|
    ensures forall j :: 0 <= j < |deleted| ==> IsBackupName(deleted[j])
    ensures forall d :: d in deleted ==> d in before && IsAutoName(d)
    ensures forall i, j :: 0 <= i < j < |deleted| ==> deleted[i] != deleted[j]
    ensures forall d, k :: d in deleted && k in before - Elements(deleted) && IsAutoName(k) ==>
      toTime(ParseBackupDate(d).value) <= toTime(ParseBackupDate(k).value)
  {
    assert |multiset(ordered)| == |multiset(autoBackups)|;
    OrderedDistinct(backups, autoBackups, ordered, before, toTime);
    forall i, j | 0 <= i < j < |deleted| ensures deleted[i] != deleted[j] {
      assert deleted[i] == ordered[i].filename && deleted[j] == ordered[j].filename;
    }
    forall j | 0 <= j < |deleted| ensures IsBackupName(deleted[j]) {
      InOrdered(backups, autoBackups, ordered, j, before, toTime);
    }
    forall d | d in deleted ensures d in before && IsAutoName(d) {
      var j :| 0 <= j < |deleted| && deleted[j] == d;
      InOrdered(backups, autoBackups, ordered, j, before, toTime);
    }
    forall d, k | d in deleted && k in before - Elements(deleted) && IsAutoName(k)
      ensures toTime(ParseBackupDate(d).value) <= toTime(ParseBackupDate(k).value)
    {
      var j :| 0 <= j < |deleted| && deleted[j] == d;
      InOrdered(backups, autoBackups, ordered, j, before, toTime);
      var info := InfoOf(k, toTime);
      assert info in backups;
      assert info in multiset(autoBackups);
      var m :| 0 <= m < |ordered| && ordered[m] == info;
      assert Age(ordered[j]) >= Age(ordered[m]);
    }
  }
}
