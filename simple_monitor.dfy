/** The simple backup monitor: it scans the backup directory for backup
    files, keeps the resulting metrics, and grades the backup system's
    health as healthy, warning or critical. The file system is outside the
    model: whether the directory exists and what it lists come in as
    parameters, as does the clock `now` (nanoseconds). */
module SimpleMonitor {
  import opened Common

  // ---------------------------------------------------------------------
  // Directory entries and extensions
  // ---------------------------------------------------------------------

  datatype FileInfo = FileInfo(size: int, modTime: int)

  /** One directory entry; `info` is None when its metadata could not be
      read. */
  datatype DirEntry = DirEntry(name: string, isDir: bool, info: Option<FileInfo>)

  /** The extension of a path as Go's filepath.Ext finds it: the suffix
      from the last '.' in the final path element, or "" when that element
      has no '.'. */
  function Ext(path: string): (e: string)
    ensures e == "" || (e[0] == '.' && HasSuffix(path, e))
    ensures forall k :: 1 <= k < |e| ==> e[k] != '.' && e[k] != '/'
  {
    ExtBefore(path, |path|)
  }

  /** The extension found scanning backwards from position i, where
      path[i..] holds no '.' and no '/'. */
  function ExtBefore(path: string, i: nat): (e: string)
    requires i <= |path|
    requires forall k :: i <= k < |path| ==> path[k] != '.' && path[k] != '/'
    ensures e == "" || (e[0] == '.' && HasSuffix(path, e))
    ensures forall k :: 1 <= k < |e| ==> e[k] != '.' && e[k] != '/'
    decreases i
  {
    if i == 0 || path[i - 1] == '/' then ""
    else if path[i - 1] == '.' then path[i - 1..]
    else ExtBefore(path, i - 1)
  }

  /** A name that ends in an extension has exactly that extension. */
  lemma ExtOfName(base: string, ext: string)
    requires |ext| >= 1 && ext[0] == '.'
    requires forall k :: 1 <= k < |ext| ==> ext[k] != '.' && ext[k] != '/'
    ensures Ext(base + ext) == ext
  {
    var p := base + ext;
    ExtScan(p, |base|, |p|);
  }

  lemma {:induction false} ExtScan(p: string, b: nat, i: nat)
    requires b < i <= |p| && p[b] == '.'
    requires forall k :: b < k < |p| ==> p[k] != '.' && p[k] != '/'
    ensures ExtBefore(p, i) == p[b..]
    decreases i
  {
    if i - 1 != b {
      ExtScan(p, b, i - 1);
    }
  }

  /** A backup is a regular file ending in .sql, .gz or .enc. */
  predicate IsBackupName(name: string)
  {
    var e := Ext(name);
    e == ".sql" || e == ".gz" || e == ".enc"
  }

  /** An entry that the scan counts: a backup file whose metadata could be
      read. */
  predicate Counted(f: DirEntry)
  {
    !f.isDir && IsBackupName(f.name) && f.info.Some?
  }

  // ---------------------------------------------------------------------
  // Scanning
  // ---------------------------------------------------------------------

  datatype DirStats = DirStats(count: int, totalSize: int, lastBackupTime: int)

  function CountBackups(files: seq<DirEntry>): (n: nat)
    ensures n <= |files|
  {
    if files == [] then 0
    else CountBackups(files[..|files| - 1]) + (if Counted(files[|files| - 1]) then 1 else 0)
  }

  function TotalSize(files: seq<DirEntry>): int
  {
    if files == [] then 0
    else
      var f := files[|files| - 1];
      TotalSize(files[..|files| - 1]) + (if Counted(f) then f.info.value.size else 0)
  }

  /** The latest modification time among the counted files, starting from
      Go's zero time. */
  function Latest(files: seq<DirEntry>): (t: int)
    ensures t >= ZeroTime
    ensures t == ZeroTime || exists k :: 0 <= k < |files| && Counted(files[k]) && files[k].info.value.modTime == t
  {
    if files == [] then ZeroTime
    else
      var f := files[|files| - 1];
      var prev := Latest(files[..|files| - 1]);
      if Counted(f) && f.info.value.modTime > prev then f.info.value.modTime else prev
  }

  /** Latest is at least every counted file's modification time. */
  lemma {:induction false} LatestIsMax(files: seq<DirEntry>, k: nat)
    requires k < |files| && Counted(files[k])
    ensures files[k].info.value.modTime <= Latest(files)
  {
    var init := files[..|files| - 1];
    if k < |files| - 1 {
      assert init[k] == files[k];
      LatestIsMax(init, k);
    }
  }

  function Stats(files: seq<DirEntry>): DirStats
  {
    DirStats(CountBackups(files), TotalSize(files), Latest(files))
  }

  lemma PrefixStep(files: seq<DirEntry>, i: nat)
    requires i < |files|
    ensures files[..i + 1][..i] == files[..i] && files[..i + 1][i] == files[i]
  {
  }

  /** Scans the directory: a missing directory gives empty statistics, an
      unreadable one an error, and otherwise the counted files' number,
      total size and latest modification time. */
  method ScanBackupDirectory(notExist: bool, listing: Result<seq<DirEntry>>) returns (r: Result<DirStats>)
    ensures notExist ==> r == Ok(DirStats(0, 0, ZeroTime))
    ensures !notExist && listing.Err? ==> r.Err?
    ensures !notExist && listing.Ok? ==> r == Ok(Stats(listing.value))
  {
    if notExist {
      return Ok(DirStats(0, 0, ZeroTime));
    }
    if listing.Err? {
      return Err(listing.error);
    }
    var files := listing.value;
    var count, size, last := 0, 0, ZeroTime;
    var i := 0;
    while i < |files|
      invariant 0 <= i <= |files|
      invariant count == CountBackups(files[..i])
      invariant size == TotalSize(files[..i])
      invariant last == Latest(files[..i])
    {
      PrefixStep(files, i);
      var f := files[i];
      if !f.isDir && IsBackupName(f.name) && f.info.Some? {
        count := count + 1;
        size := size + f.info.value.size;
        if f.info.value.modTime > last {
          last := f.info.value.modTime;
        }
      }
      i := i + 1;
    }
    assert files[..|files|] == files;
    return Ok(DirStats(count, size, last));
  }

  const RecentWindow: int := 25 * Hour

  predicate RecentIn(files: seq<DirEntry>, now: int)
  {
    exists k :: 0 <= k < |files| && Counted(files[k]) && files[k].info.value.modTime > now - RecentWindow
  }

  /** Whether some counted file was modified in the last 25 hours; an
      unreadable directory has none. */
  method CheckRecentBackup(listing: Result<seq<DirEntry>>, now: int) returns (found: bool)
    ensures listing.Err? ==> !found
    ensures listing.Ok? ==> (found <==> RecentIn(listing.value, now))
  {
    if listing.Err? {
      return false;
    }
    var files := listing.value;
    var since := now - RecentWindow;
    var i := 0;
    while i < |files|
      invariant 0 <= i <= |files|
      invariant forall k :: 0 <= k < i ==> !(Counted(files[k]) && files[k].info.value.modTime > since)
    {
      var f := files[i];
      if !f.isDir && IsBackupName(f.name) {
        if f.info.Some? && f.info.value.modTime > since {
          return true;
        }
      }
      i := i + 1;
    }
    return false;
  }

  /** A recent backup implies that the latest backup is recent too. */
  lemma RecentMeansLatestRecent(files: seq<DirEntry>, k: nat, now: int)
    requires k < |files| && Counted(files[k]) && files[k].info.value.modTime > now - RecentWindow
    ensures Latest(files) > now - RecentWindow
  {
    LatestIsMax(files, k);
  }

  // ---------------------------------------------------------------------
  // Health
  // ---------------------------------------------------------------------

  datatype Level = Healthy | Warning | Critical

  function Rank(l: Level): nat
  {
    match l
    case Healthy => 0
    case Warning => 1
    case Critical => 2
  }

  function Worst(a: Level, b: Level): (r: Level)
    ensures Rank(r) == MaxInt(Rank(a), Rank(b))
    ensures r == a || r == b
  {
    if Rank(a) >= Rank(b) then a else b
  }

  /** Raising the overall level: critical always wins; a warning only
      replaces healthy. */
  function Escalate(overall: Level, to: Level): (r: Level)
    ensures Rank(r) >= Rank(overall)
  {
    match to
    case Critical => Critical
    case Warning => if overall == Healthy then Warning else overall
    case Healthy => overall
  }

  /** Escalation computes the worse of the two levels: nothing is ever
      downgraded, and nothing is raised past what was reported. */
  lemma EscalateIsWorst(overall: Level, to: Level)
    ensures Escalate(overall, to) == Worst(overall, to)
  {
  }

  datatype Issue = DirNotAccessible | DiskUsageCritical(percent: real) | DiskUsageHigh(percent: real) | NoRecentBackup

  datatype DiskUsageInfo = DiskUsageInfo(totalSpace: int, freeSpace: int, usagePercent: real)

  /** The disk figures the monitor reports: fixed values (1 TB, half free). */
  function CalculateDiskUsage(): (d: DiskUsageInfo)
    ensures d.usagePercent == 50.0 && d.freeSpace * 2 == d.totalSpace
  {
    DiskUsageInfo(1_000_000_000_000, 500_000_000_000, 50.0)
  }

  function DiskLevel(percent: real): (l: Level)
    ensures l == Critical <==> percent > 95.0
    ensures l == Warning <==> 85.0 < percent <= 95.0
  {
    if percent > 95.0 then Critical else if percent > 85.0 then Warning else Healthy
  }

  /** With the fixed disk figures the disk is always healthy. */
  lemma FixedDiskIsHealthy()
    ensures DiskLevel(CalculateDiskUsage().usagePercent) == Healthy
  {
  }

  datatype SimpleHealthStatus = SimpleHealthStatus(
    overall: Level,
    backupDir: Level,
    diskSpace: Level,
    recentBackup: Level,
    lastCheck: int,
    issues: seq<Issue>)

  function IssueCount(l: Level): nat { if l == Healthy then 0 else 1 }

  /** The issue a disk reading raises, if any. */
  function DiskIssues(percent: real): (r: seq<Issue>)
    ensures |r| == IssueCount(DiskLevel(percent))
  {
    if percent > 95.0 then [DiskUsageCritical(percent)]
    else if percent > 85.0 then [DiskUsageHigh(percent)]
    else []
  }

  /** Grades the three checks, escalating the overall level after each and
      adding one issue per non-healthy check. */
  method CheckHealth(dirAccessible: bool, disk: DiskUsageInfo, hasRecentBackup: bool, now: int)
    returns (s: SimpleHealthStatus)
    ensures s.backupDir == (if dirAccessible then Healthy else Critical)
    ensures s.diskSpace == DiskLevel(disk.usagePercent)
    ensures s.recentBackup == (if hasRecentBackup then Healthy else Warning)
    ensures s.overall == Worst(Worst(s.backupDir, s.diskSpace), s.recentBackup)
    ensures |s.issues| == IssueCount(s.backupDir) + IssueCount(s.diskSpace) + IssueCount(s.recentBackup)
    ensures !dirAccessible <==> DirNotAccessible in s.issues
    ensures !hasRecentBackup <==> NoRecentBackup in s.issues
    ensures s.issues == (if dirAccessible then [] else [DirNotAccessible]) + DiskIssues(disk.usagePercent)
                        + (if hasRecentBackup then [] else [NoRecentBackup])
    ensures s.lastCheck == now
  {
    s := SimpleHealthStatus(Healthy, Healthy, Healthy, Healthy, now, []);
    if !dirAccessible {
      s := s.(backupDir := Critical, issues := s.issues + [DirNotAccessible], overall := Critical);
    }
    if disk.usagePercent > 95.0 {
      s := s.(diskSpace := Critical, issues := s.issues + [DiskUsageCritical(disk.usagePercent)], overall := Critical);
    } else if disk.usagePercent > 85.0 {
      s := s.(diskSpace := Warning, issues := s.issues + [DiskUsageHigh(disk.usagePercent)]);
      if s.overall == Healthy {
        s := s.(overall := Warning);
      }
    }
    if !hasRecentBackup {
      s := s.(recentBackup := Warning, issues := s.issues + [NoRecentBackup]);
      if s.overall == Healthy {
        s := s.(overall := Warning);
      }
    }
  }

  // ---------------------------------------------------------------------
  // The monitor
  // ---------------------------------------------------------------------

  datatype BackupMetrics = BackupMetrics(
    totalBackups: int,
    totalSize: int,
    lastBackupTime: int,
    diskUsagePercent: real,
    backupDirSize: int,
    availableSpace: int,
    lastUpdateTime: int)

  class SimpleBackupMonitor {
    var metrics: BackupMetrics
    var lastCheck: int

    constructor ()
      ensures metrics == BackupMetrics(0, 0, ZeroTime, 0.0, 0, 0, ZeroTime) && lastCheck == ZeroTime
    {
      metrics := BackupMetrics(0, 0, ZeroTime, 0.0, 0, 0, ZeroTime);
      lastCheck := ZeroTime;
    }

    /** Rescans the directory; a failed scan leaves everything as it was,
        a successful one replaces the metrics with the scan's figures and
        the disk figures. */
    method UpdateMetrics(notExist: bool, listing: Result<seq<DirEntry>>, now: int)
      modifies this
      ensures !notExist && listing.Err? ==> metrics == old(metrics) && lastCheck == old(lastCheck)
      ensures notExist || listing.Ok? ==>
        var st := if notExist then DirStats(0, 0, ZeroTime) else Stats(listing.value);
        var d := CalculateDiskUsage();
        metrics == BackupMetrics(st.count, st.totalSize, st.lastBackupTime, d.usagePercent, st.totalSize, d.freeSpace, now)
        && lastCheck == now
    {
      var r := ScanBackupDirectory(notExist, listing);
      if r.Err? {
        return;
      }
      var st := r.value;
      var d := CalculateDiskUsage();
      metrics := BackupMetrics(st.count, st.totalSize, st.lastBackupTime, d.usagePercent, st.totalSize, d.freeSpace, now);
      lastCheck := now;
    }
  }
}
