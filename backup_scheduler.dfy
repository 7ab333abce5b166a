/** The enhanced backup scheduler's registry and bookkeeping: the map of
    named schedules, the running flag, the bounded history of executed
    backups and its two views. The schedule goroutines, the backup run
    itself and the clock are outside the model; what they produce comes in
    as parameters. */
module BackupScheduler {
  import opened Common

  datatype ScheduleConfig = ScheduleConfig(
    name: string,
    description: string,
    interval: int,
    time: string,
    days: seq<string>,
    backupType: string,
    enabled: bool,
    retention: int,
    lastRun: int)

  datatype BackupHistoryItem = BackupHistoryItem(
    timestamp: int,
    scheduleName: string,
    backupType: string,
    filename: string,
    success: bool,
    duration: int,
    size: int,
    error: string)

  const MaxHistory: nat := 100
  const Day: int := 24 * Hour

  /** The three schedules every scheduler starts with. */
  function DefaultSchedules(autoBackup: bool, retention: int): (m: map<string, ScheduleConfig>)
    ensures m.Keys == {"daily_full", "weekly_archive", "monthly_archive"}
    ensures forall id :: id in m ==> m[id].name == id && m[id].enabled == autoBackup
  {
    map[
      "daily_full" := ScheduleConfig("daily_full", "Daily full database backup", Day, "03:00", [], "full", autoBackup, retention, ZeroTime),
      "weekly_archive" := ScheduleConfig("weekly_archive", "Weekly archive backup", 7 * Day, "02:00", ["Sunday"], "archive", autoBackup, 90 * Day, ZeroTime),
      "monthly_archive" := ScheduleConfig("monthly_archive", "Monthly long-term archive backup", 30 * Day, "01:00", [], "archive", autoBackup, 365 * Day, ZeroTime)]
  }

  /** The schedule AddSchedule registers: enabled, 30 days of retention,
      and a 24-hour interval when the interval text does not parse. */
  function NewSchedule(id: string, parsed: Option<int>, description: string, backupType: string): (s: ScheduleConfig)
    ensures s.name == id && s.enabled && s.retention == 720 * Hour
    ensures s.interval == (if parsed.Some? then parsed.value else 24 * Hour)
  {
    ScheduleConfig(id, description, if parsed.Some? then parsed.value else 24 * Hour, "", [], backupType, true, 720 * Hour, ZeroTime)
  }

  /** The enabled schedules. */
  function Enabled(m: map<string, ScheduleConfig>): (r: map<string, ScheduleConfig>)
    ensures forall id :: id in r <==> id in m && m[id].enabled
    ensures forall id :: id in r ==> r[id] == m[id]
  {
    map id | id in m && m[id].enabled :: m[id]
  }

  /** The history after one more item: the oldest item goes once there are
      more than 100. */
  function Appended(h: seq<BackupHistoryItem>, item: BackupHistoryItem): (r: seq<BackupHistoryItem>)
    ensures |h| <= MaxHistory ==> |r| <= MaxHistory
    ensures r != [] && r[|r| - 1] == item
    ensures r == h + [item] || r == (h + [item])[1..]
  {
    var a := h + [item];
    if |a| > MaxHistory then a[1..] else a
  }

  /** Once full, the history holds the last 100 items ever added. */
  lemma AppendedKeepsNewest(h: seq<BackupHistoryItem>, item: BackupHistoryItem)
    requires |h| == MaxHistory
    ensures Appended(h, item) == h[1..] + [item]
  {
  }

  /** How many items a query returns: all of them for a limit that is not
      positive or too large. */
  function Count(limit: int, n: nat): (k: nat)
    ensures k <= n
    ensures 0 < limit <= n ==> k == limit
    ensures limit <= 0 || limit > n ==> k == n
  {
    if limit <= 0 || limit > n then n else limit
  }

  /** The last k items in chronological order. */
  function Chronological(h: seq<BackupHistoryItem>, limit: int): (r: seq<BackupHistoryItem>)
    ensures |r| == Count(limit, |h|)
    ensures EndsWith(h, r)
  {
    h[|h| - Count(limit, |h|)..]
  }

  predicate EndsWith<T(==)>(s: seq<T>, t: seq<T>) { |t| <= |s| && s[|s| - |t|..] == t }

  function Reverse<T>(s: seq<T>): (r: seq<T>)
    ensures |r| == |s|
    ensures forall i :: 0 <= i < |s| ==> r[i] == s[|s| - 1 - i]
  {
    if s == [] then [] else Reverse(s[1..]) + [s[0]]
  }

  predicate IsWeekday(d: int) { 0 <= d < 7 }

  const DayNames: seq<string> := ["Sunday", "Monday", "Tuesday", "Wednesday", "Thursday", "Friday", "Saturday"]

  /** Whether a weekday (0 = Sunday) matches a day name; an unknown name
      matches every day. */
  function IsDayOfWeek(weekday: int, dayName: string): (b: bool)
    ensures dayName !in DayNames ==> b
    ensures forall d :: 0 <= d < 7 && DayNames[d] == dayName ==> (b <==> weekday == d)
  {
    if dayName == "Sunday" then weekday == 0
    else if dayName == "Monday" then weekday == 1
    else if dayName == "Tuesday" then weekday == 2
    else if dayName == "Wednesday" then weekday == 3
    else if dayName == "Thursday" then weekday == 4
    else if dayName == "Friday" then weekday == 5
    else if dayName == "Saturday" then weekday == 6
    else true
  }

  /** Every day name picks exactly one weekday out of seven. */
  lemma KnownDayPicksOne(d: nat)
    requires d < 7
    ensures forall w :: IsWeekday(w) ==> (IsDayOfWeek(w, DayNames[d]) <==> w == d)
  {
  }

  /** The scheduler's run state: the running flag, and whether the stop
      channel of the current run has been closed. */
  datatype Lifecycle = Lifecycle(running: bool, stopClosed: bool)

  /** What a call of Stop does: stops the run, refuses because nothing is
      running, or panics on closing a channel that is already closed. */
  datatype StopOutcome = Stopped | NotRunning | Panicked

  /** A freshly constructed scheduler: stopped, with an open stop channel. */
  const Fresh: Lifecycle := Lifecycle(false, false)

  /** Start as the source writes it: the running flag is set, but the stop
      channel and the context made by the constructor are reused. */
  function StartAsWritten(s: Lifecycle, enabled: bool): (r: Lifecycle)
    ensures r.stopClosed == s.stopClosed
    ensures r.running <==> s.running || enabled
  {
    if s.running || !enabled then s else s.(running := true)
  }

  /** Stop: cancel, close the stop channel, clear the flag. Closing a
      closed channel panics before the flag is cleared. */
  function StopAsWritten(s: Lifecycle): (r: (StopOutcome, Lifecycle))
    ensures !s.running ==> r == (NotRunning, s)
    ensures s.running && s.stopClosed ==> r.0 == Panicked && r.1.running
    ensures s.running && !s.stopClosed ==> r == (Stopped, Lifecycle(false, true))
  {
    if !s.running then (NotRunning, s)
    else if s.stopClosed then (Panicked, s)
    else (Stopped, Lifecycle(false, true))
  }

  /** Start, then Stop, then Start again: the second Stop panics, and the
      scheduler is left marked as running. */
  lemma RestartedStopPanics()
    ensures var first := StopAsWritten(StartAsWritten(Fresh, true));
            var second := StopAsWritten(StartAsWritten(first.1, true));
            first.0 == Stopped && second.0 == Panicked && second.1.running
  {
  }

  /** Start as evidently intended: each run gets a new stop channel. */
  function StartFresh(s: Lifecycle, enabled: bool): (r: Lifecycle)
    ensures s.running || !enabled ==> r == s
    ensures !s.running && enabled ==> r == Lifecycle(true, false)
  {
    if s.running || !enabled then s else Lifecycle(true, false)
  }

  /** A running scheduler's stop channel is still open. */
  predicate StopReady(s: Lifecycle)
  {
    s.running ==> !s.stopClosed
  }

  datatype LifecycleCall = StartCall(enabled: bool) | StopCall

  /** The state after a sequence of Start and Stop calls, with Start as
      intended. */
  function AfterCalls(s: Lifecycle, calls: seq<LifecycleCall>): Lifecycle
    decreases |calls|
  {
    if calls == [] then s
    else
      var next := match calls[0]
        case StartCall(enabled) => StartFresh(s, enabled)
        case StopCall => StopAsWritten(s).1;
      AfterCalls(next, calls[1..])
  }

  /** With Start as intended, no sequence of Start and Stop calls leads to
      a Stop that panics. */
  lemma {:induction false} StopNeverPanics(s: Lifecycle, calls: seq<LifecycleCall>)
    requires StopReady(s)
    ensures StopReady(AfterCalls(s, calls))
    ensures StopAsWritten(AfterCalls(s, calls)).0 != Panicked
    decreases |calls|
  {
    if calls != [] {
      var next := match calls[0]
        case StartCall(enabled) => StartFresh(s, enabled)
        case StopCall => StopAsWritten(s).1;
      StopNeverPanics(next, calls[1..]);
    }
  }

  class EnhancedBackupScheduler {
    const enabled: bool
    const autoBackupEnabled: bool
    var schedules: map<string, ScheduleConfig>
    var isRunning: bool
    var stopClosed: bool
    var lastBackupTime: int
    var backupHistory: seq<BackupHistoryItem>

    predicate Valid()
      reads this
    {
      |backupHistory| <= MaxHistory && StopReady(Lifecycle(isRunning, stopClosed))
    }

    /** A stopped scheduler with the three default schedules, enabled as
        automatic backups are; the daily one keeps its backups for the
        configured retention. */
    constructor (enabled: bool, autoBackupEnabled: bool, retention: int)
      ensures Valid() && Lifecycle(isRunning, stopClosed) == Fresh
      ensures backupHistory == [] && lastBackupTime == ZeroTime
      ensures this.enabled == enabled && this.autoBackupEnabled == autoBackupEnabled
      ensures schedules == DefaultSchedules(autoBackupEnabled, retention)
    {
      this.enabled, this.autoBackupEnabled := enabled, autoBackupEnabled;
      schedules := DefaultSchedules(autoBackupEnabled, retention);
      isRunning, stopClosed, lastBackupTime, backupHistory := false, false, ZeroTime, [];
    }

    /** Starting a running scheduler fails; a scheduler disabled in the
        configuration returns without starting. A run that starts gets a
        new stop channel (see StartFresh). */
    method Start() returns (err: Option<string>)
      requires Valid()
      modifies this`isRunning, this`stopClosed
      ensures Valid()
      ensures Lifecycle(isRunning, stopClosed) ==
        StartFresh(old(Lifecycle(isRunning, stopClosed)), enabled && autoBackupEnabled)
      ensures old(isRunning) ==> err.Some? && isRunning
      ensures !old(isRunning) ==> err == None && (isRunning <==> enabled && autoBackupEnabled)
    {
      if isRunning {
        return Some("enhanced backup scheduler is already running");
      }
      if !enabled || !autoBackupEnabled {
        return None;
      }
      isRunning, stopClosed := true, false;
      return None;
    }

    /** Stopping a scheduler that is not running fails; stopping a running
        one closes its stop channel, which is still open since every run
        starts with a new one. */
    method Stop() returns (err: Option<string>)
      requires Valid()
      modifies this`isRunning, this`stopClosed
      ensures Valid()
      ensures var (outcome, after) := StopAsWritten(old(Lifecycle(isRunning, stopClosed)));
        outcome != Panicked && Lifecycle(isRunning, stopClosed) == after && (err == None <==> outcome == Stopped)
      ensures !old(isRunning) ==> err.Some?
      ensures old(isRunning) ==> err == None
      ensures !isRunning
    {
      if !isRunning {
        return Some("enhanced backup scheduler is not running");
      }
      stopClosed := true;
      isRunning := false;
      return None;
    }

    /** Registers a schedule under a new id; `parsed` is the interval text
        as time.ParseDuration reads it. */
    method AddSchedule(id: string, parsed: Option<int>, description: string, backupType: string)
      returns (err: Option<string>)
      modifies this`schedules
      ensures id in old(schedules) ==> err.Some? && schedules == old(schedules)
      ensures id !in old(schedules) ==>
        err == None && schedules == old(schedules)[id := NewSchedule(id, parsed, description, backupType)]
    {
      if id in schedules {
        return Some("schedule with ID " + id + " already exists");
      }
      schedules := schedules[id := NewSchedule(id, parsed, description, backupType)];
      return None;
    }

    method RemoveSchedule(id: string) returns (err: Option<string>)
      modifies this`schedules
      ensures id !in old(schedules) ==> err.Some? && schedules == old(schedules)
      ensures id in old(schedules) ==> err == None && schedules == old(schedules) - {id}
    {
      if id !in schedules {
        return Some("schedule with ID " + id + " not found");
      }
      schedules := schedules - {id};
      return None;
    }

    method AddToHistory(item: BackupHistoryItem)
      requires Valid()
      modifies this`backupHistory
      ensures Valid()
      ensures backupHistory == Appended(old(backupHistory), item)
    {
      backupHistory := backupHistory + [item];
      if |backupHistory| > MaxHistory {
        backupHistory := backupHistory[1..];
      }
    }

    /** Records one scheduled run: a failure keeps its error text, a success
        its file name and size and moves the last backup time. */
    method ExecuteScheduledBackup(name: string, schedule: ScheduleConfig, start: int, duration: int,
                                  outcome: Result<(string, int)>)
      requires Valid()
      modifies this`backupHistory, this`lastBackupTime
      ensures Valid()
      ensures lastBackupTime == (if outcome.Ok? then start else old(lastBackupTime))
      ensures backupHistory == Appended(old(backupHistory),
        if outcome.Ok? then BackupHistoryItem(start, name, schedule.backupType, outcome.value.0, true, duration, outcome.value.1, "")
        else BackupHistoryItem(start, name, schedule.backupType, "", false, duration, 0, outcome.error))
    {
      var item := BackupHistoryItem(start, name, schedule.backupType, "", false, duration, 0, "");
      if outcome.Err? {
        item := item.(error := outcome.error);
      } else {
        item := item.(success := true, filename := outcome.value.0, size := outcome.value.1);
        lastBackupTime := start;
      }
      AddToHistory(item);
    }

    /** The most recent items, newest first. */
    method GetBackupHistory(limit: int) returns (r: seq<BackupHistoryItem>)
      ensures |r| == Count(limit, |backupHistory|)
      ensures forall i :: 0 <= i < |r| ==> r[i] == backupHistory[|backupHistory| - 1 - i]
    {
      var n := Count(limit, |backupHistory|);
      r := [];
      var i := 0;
      while i < n
        invariant 0 <= i <= n && |r| == i
        invariant forall j :: 0 <= j < i ==> r[j] == backupHistory[|backupHistory| - 1 - j]
      {
        r := r + [backupHistory[|backupHistory| - 1 - i]];
        i := i + 1;
      }
    }

    /** The most recent items, oldest first. */
    method GetHistory(limit: int) returns (r: seq<BackupHistoryItem>)
      ensures r == Chronological(backupHistory, limit)
    {
      var n := Count(limit, |backupHistory|);
      var start := |backupHistory| - n;
      r := backupHistory[start..];
    }

    function ActiveSchedules(): (n: nat)
      reads this
      ensures n <= |schedules|
    {
      EnabledCard(schedules);
      |Enabled(schedules)|
    }
  }

  lemma EnabledCard(m: map<string, ScheduleConfig>)
    ensures |Enabled(m)| <= |m|
  {
    assert Enabled(m).Keys <= m.Keys;
    SubsetCard(Enabled(m).Keys, m.Keys);
  }

  lemma {:induction false} SubsetCard<T>(a: set<T>, b: set<T>)
    requires a <= b
    ensures |a| <= |b|
    decreases |b|
  {
    if b != {} {
      var x :| x in b;
      SubsetCard(a - {x}, b - {x});
    }
  }

  /** The two views of the history hold the same items in opposite
      orders. */
  lemma ViewsAreReverses(h: seq<BackupHistoryItem>, limit: int, newestFirst: seq<BackupHistoryItem>)
    requires |newestFirst| == Count(limit, |h|)
    requires forall i :: 0 <= i < |newestFirst| ==> newestFirst[i] == h[|h| - 1 - i]
    ensures newestFirst == Reverse(Chronological(h, limit))
  {
  }
}
