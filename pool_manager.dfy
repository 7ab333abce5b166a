/** The connection pool manager: it samples the database pool's statistics,
    keeps a rolling usage average, grows or shrinks the pool's maximum
    within configured bounds, and guards the database with a three-state
    circuit breaker. The database handle is outside the model: its
    statistics come in as a parameter and its two pool settings are fields.
    The clock is the parameter `now` (nanoseconds). */
module PoolManager {
  import opened Common

  // ---------------------------------------------------------------------
  // Configuration
  // ---------------------------------------------------------------------

  datatype PoolConfig = PoolConfig(
    initialMaxOpen: int,
    initialMaxIdle: int,
    minMaxOpen: int,
    maxMaxOpen: int,
    scaleUpThreshold: real,    // percent of the maximum in use
    scaleDownThreshold: real,  // percent of the maximum in use
    scaleStep: int,
    monitorInterval: int,
    statsRetention: int)

  /** Zero fields take their defaults; every other field is kept. */
  function WithDefaults(c: PoolConfig): (r: PoolConfig)
    ensures r.monitorInterval == (if c.monitorInterval == 0 then 30 * Second else c.monitorInterval)
    ensures r.statsRetention == (if c.statsRetention == 0 then 24 * Hour else c.statsRetention)
    ensures r.scaleUpThreshold == (if c.scaleUpThreshold == 0.0 then 80.0 else c.scaleUpThreshold)
    ensures r.scaleDownThreshold == (if c.scaleDownThreshold == 0.0 then 30.0 else c.scaleDownThreshold)
    ensures r.scaleStep == (if c.scaleStep == 0 then 5 else c.scaleStep)
    ensures r.initialMaxOpen == c.initialMaxOpen && r.initialMaxIdle == c.initialMaxIdle
    ensures r.minMaxOpen == c.minMaxOpen && r.maxMaxOpen == c.maxMaxOpen
  {
    c.(monitorInterval := if c.monitorInterval == 0 then 30 * Second else c.monitorInterval,
       statsRetention := if c.statsRetention == 0 then 24 * Hour else c.statsRetention,
       scaleUpThreshold := if c.scaleUpThreshold == 0.0 then 80.0 else c.scaleUpThreshold,
       scaleDownThreshold := if c.scaleDownThreshold == 0.0 then 30.0 else c.scaleDownThreshold,
       scaleStep := if c.scaleStep == 0 then 5 else c.scaleStep)
  }

  /** After defaulting, the interval, retention, thresholds and step are
      all non-zero, so defaulting a second time changes nothing. */
  lemma WithDefaultsIdempotent(c: PoolConfig)
    ensures var r := WithDefaults(c);
      r.monitorInterval != 0 && r.statsRetention != 0 && r.scaleStep != 0
      && r.scaleUpThreshold != 0.0 && r.scaleDownThreshold != 0.0
    ensures WithDefaults(WithDefaults(c)) == WithDefaults(c)
  {
  }

  // ---------------------------------------------------------------------
  // Statistics
  // ---------------------------------------------------------------------

  /** What the database reports about its pool. */
  datatype DBStats = DBStats(maxOpenConnections: int, inUse: int, waitCount: int, waitDuration: int)

  datatype StatsSnapshot = StatsSnapshot(timestamp: int, stats: DBStats, usagePercentage: real)

  /** The share of the maximum that is in use, in percent; 0 when the
      maximum is not positive. */
  function UsagePercent(s: DBStats): (r: real)
    ensures s.maxOpenConnections <= 0 ==> r == 0.0
    ensures 0 <= s.inUse && 0 < s.maxOpenConnections ==> 0.0 <= r
    ensures 0 <= s.inUse <= s.maxOpenConnections ==> r <= 100.0
    ensures s.maxOpenConnections > 0 ==> r * s.maxOpenConnections as real == s.inUse as real * 100.0
  {
    if s.maxOpenConnections > 0 then
      RatioBound(s.inUse, s.maxOpenConnections);
      s.inUse as real / s.maxOpenConnections as real * 100.0
    else 0.0
  }

  lemma RatioBound(a: int, b: int)
    requires b > 0
    ensures 0 <= a ==> 0.0 <= a as real / b as real
    ensures a <= b ==> a as real / b as real <= 1.0
  {
  }

  /** How many snapshots the rolling average looks at. */
  function Samples(n: nat): (k: nat)
    ensures k <= n && k <= 10
    ensures n > 0 ==> k > 0
    ensures n >= 10 ==> k == 10
  {
    if n > 10 then 10 else n
  }

  /** The sum of the usage percentages of h[i..]. */
  function SumFrom(h: seq<StatsSnapshot>, i: nat): real
    decreases |h| - i
  {
    if i >= |h| then 0.0 else h[i].usagePercentage + SumFrom(h, i + 1)
  }

  /** The mean usage of the last Samples(|h|) snapshots. */
  function RecentMean(h: seq<StatsSnapshot>): real
    requires |h| > 0
  {
    SumFrom(h, |h| - Samples(|h|)) / Samples(|h|) as real
  }

  predicate UsageWithin(h: seq<StatsSnapshot>, lo: real, hi: real)
  {
    forall i :: 0 <= i < |h| ==> lo <= h[i].usagePercentage <= hi
  }

  lemma {:induction false} SumFromBounds(h: seq<StatsSnapshot>, i: nat, lo: real, hi: real)
    requires i <= |h| && UsageWithin(h, lo, hi)
    ensures (|h| - i) as real * lo <= SumFrom(h, i) <= (|h| - i) as real * hi
    decreases |h| - i
  {
    if i < |h| {
      SumFromBounds(h, i + 1, lo, hi);
    }
  }

  lemma MeanBetween(s: real, k: nat, lo: real, hi: real)
    requires k > 0 && k as real * lo <= s <= k as real * hi
    ensures lo <= s / k as real <= hi
  {
  }

  /** The rolling average lies between the smallest and the largest usage
      ever recorded; with well-formed statistics, between 0 and 100. */
  lemma RecentMeanWithin(h: seq<StatsSnapshot>, lo: real, hi: real)
    requires |h| > 0 && UsageWithin(h, lo, hi)
    ensures lo <= RecentMean(h) <= hi
  {
    var k := Samples(|h|);
    SumFromBounds(h, |h| - k, lo, hi);
    MeanBetween(SumFrom(h, |h| - k), k, lo, hi);
  }

  /** The index from which the history is kept: the first snapshot taken
      after the cutoff, or 0 (keep everything) when there is none. */
  function KeepFrom(h: seq<StatsSnapshot>, cutoff: int): (k: nat)
    ensures k <= |h|
    ensures forall j :: 0 <= j < k ==> h[j].timestamp <= cutoff
    ensures (exists j :: 0 <= j < |h| && h[j].timestamp > cutoff) ==> k < |h| && h[k].timestamp > cutoff
    ensures (forall j :: 0 <= j < |h| ==> h[j].timestamp <= cutoff) ==> k == 0
  {
    var f := FirstAfter(h, cutoff, 0);
    if f == |h| then 0 else f
  }

  /** The first index at or after i whose snapshot is after the cutoff, or
      |h| when there is none. */
  function FirstAfter(h: seq<StatsSnapshot>, cutoff: int, i: nat): (f: nat)
    requires i <= |h|
    ensures i <= f <= |h|
    ensures forall j :: i <= j < f ==> h[j].timestamp <= cutoff
    ensures f < |h| ==> h[f].timestamp > cutoff
    decreases |h| - i
  {
    if i == |h| then |h|
    else if h[i].timestamp > cutoff then i
    else FirstAfter(h, cutoff, i + 1)
  }

  predicate SortedByTime(h: seq<StatsSnapshot>)
  {
    forall i, j :: 0 <= i < j < |h| ==> h[i].timestamp <= h[j].timestamp
  }

  /** On a chronological history with at least one recent snapshot,
      trimming keeps exactly the snapshots taken after the cutoff. */
  lemma TrimKeepsExactlyRecent(h: seq<StatsSnapshot>, cutoff: int)
    requires SortedByTime(h)
    requires |h| > 0 && h[|h| - 1].timestamp > cutoff
    ensures var k := KeepFrom(h, cutoff);
      (forall j :: 0 <= j < k ==> h[j].timestamp <= cutoff)
      && (forall j :: k <= j < |h| ==> h[j].timestamp > cutoff)
  {
  }

  /** When no snapshot is recent, nothing is trimmed at all. */
  lemma TrimKeepsAllWhenNoneRecent(h: seq<StatsSnapshot>, cutoff: int)
    requires forall j :: 0 <= j < |h| ==> h[j].timestamp <= cutoff
    ensures h[KeepFrom(h, cutoff)..] == h
  {
  }

  // ---------------------------------------------------------------------
  // Scaling
  // ---------------------------------------------------------------------

  const ScaleCooldown: int := 2 * Minute

  /** The grown maximum: one step up, capped at maxMax. */
  function ScaleUpTarget(maxOpen: int, step: int, maxMax: int): (n: int)
    ensures n <= maxMax
    ensures n == maxOpen + step || n == maxMax
  {
    if maxOpen + step > maxMax then maxMax else maxOpen + step
  }

  /** The shrunk maximum: one step down, floored at minMin. */
  function ScaleDownTarget(maxOpen: int, step: int, minMin: int): (n: int)
    ensures n >= minMin
    ensures n == maxOpen - step || n == minMin
  {
    if maxOpen - step < minMin then minMin else maxOpen - step
  }

  /** With a positive step, growing strictly raises the maximum and
      shrinking strictly lowers it, both staying within the bounds. */
  lemma ScaleTargetsMove(maxOpen: int, step: int, minMin: int, maxMax: int)
    requires step > 0
    ensures maxOpen < maxMax ==> maxOpen < ScaleUpTarget(maxOpen, step, maxMax) <= maxMax
    ensures maxOpen > minMin ==> minMin <= ScaleDownTarget(maxOpen, step, minMin) < maxOpen
  {
  }

  /** The idle limit that goes with a maximum: a third of it (Go's
      truncating division), but at least 5. */
  function IdleFor(maxOpen: int): (r: int)
    ensures r >= 5
    ensures r == 5 || (3 * r <= maxOpen < 3 * r + 3)
    ensures maxOpen >= 15 ==> 3 * r <= maxOpen < 3 * r + 3
  {
    var third := if maxOpen >= 0 then maxOpen / 3 else -((-maxOpen) / 3);
    if third < 5 then 5 else third
  }

  /** The idle limit never exceeds a maximum of at least 5. */
  lemma IdleWithinOpen(maxOpen: int)
    requires maxOpen >= 5
    ensures IdleFor(maxOpen) <= maxOpen
  {
  }

  datatype ScaleKind = ScaleUp | ScaleDown

  datatype ScaleEvent = ScaleEvent(
    timestamp: int,
    kind: ScaleKind,
    oldMaxOpen: int,
    newMaxOpen: int,
    reason: string,
    usagePercent: real)

  function Reason(kind: ScaleKind): string
  {
    match kind
    case ScaleUp => "high_usage"
    case ScaleDown => "low_usage"
  }

  /** Both directions can fire in one check only when the thresholds are
      inverted; with the defaults (80 and 30) at most one does. */
  lemma BothDirectionsNeedInvertedThresholds(usage: real, up: real, down: real)
    requires usage > up && usage < down
    ensures up < down
  {
  }

  // ---------------------------------------------------------------------
  // Circuit breaker
  // ---------------------------------------------------------------------

  datatype BreakerState = Closed | Open | HalfOpen

  datatype PoolBreaker = PoolBreaker(state: BreakerState, failures: int, lastFailure: int)

  const BreakerMaxFailures: int := 10
  const BreakerResetTimeout: int := 60 * Second

  /** The check: an open breaker whose timeout has passed becomes half-open
      with its count cleared. */
  function Poll(b: PoolBreaker, now: int): (r: PoolBreaker)
    ensures b.state == Open && now - b.lastFailure > BreakerResetTimeout ==>
      r == PoolBreaker(HalfOpen, 0, b.lastFailure)
    ensures !(b.state == Open && now - b.lastFailure > BreakerResetTimeout) ==> r == b
  {
    if b.state == Open && now - b.lastFailure > BreakerResetTimeout then
      b.(state := HalfOpen, failures := 0)
    else b
  }

  /** A failure: count up, record the time, open at the maximum. */
  function Failure(b: PoolBreaker, now: int): (r: PoolBreaker)
    ensures r.failures == b.failures + 1 && r.lastFailure == now
    ensures r.state == (if r.failures >= BreakerMaxFailures then Open else b.state)
  {
    var n := b.failures + 1;
    PoolBreaker(if n >= BreakerMaxFailures then Open else b.state, n, now)
  }

  /** A success closes the breaker only from half-open. */
  function Success(b: PoolBreaker): (r: PoolBreaker)
    ensures b.state == HalfOpen ==> r == PoolBreaker(Closed, 0, b.lastFailure)
    ensures b.state != HalfOpen ==> r == b
  {
    if b.state == HalfOpen then b.(state := Closed, failures := 0) else b
  }

  predicate BreakerOk(b: PoolBreaker)
  {
    b.failures >= 0 && (b.state == Open ==> b.failures >= BreakerMaxFailures)
  }

  /** Each transition keeps the breaker's invariant. */
  lemma TransitionsKeepOk(b: PoolBreaker, now: int)
    requires BreakerOk(b)
    ensures BreakerOk(Poll(b, now)) && BreakerOk(Failure(b, now)) && BreakerOk(Success(b))
  {
  }

  /** Successes while closed do not clear the count: failures accumulate
      across them. */
  lemma SuccessWhileClosedKeepsCount(b: PoolBreaker, now: int)
    requires b.state == Closed
    ensures Failure(Success(b), now) == Failure(b, now)
  {
  }

  /** A success cannot close an open breaker; only a poll after the
      timeout, followed by a success, does. */
  lemma OpenNeedsPollToClose(b: PoolBreaker, now: int)
    requires b.state == Open
    ensures Success(b).state == Open
    ensures now - b.lastFailure > BreakerResetTimeout ==>
      Success(Poll(b, now)) == PoolBreaker(Closed, 0, b.lastFailure)
  {
  }

  /** Counting the failures in a row from a fresh breaker. */
  function FailuresFrom(b: PoolBreaker, k: nat, now: int): PoolBreaker
  {
    if k == 0 then b else Failure(FailuresFrom(b, k - 1, now), now)
  }

  /** From a closed breaker with a cleared count, the tenth failure in a row
      (and not an earlier one) opens it. */
  lemma {:induction false} TenFailuresOpen(b: PoolBreaker, k: nat, now: int)
    requires b.state == Closed && b.failures == 0
    ensures FailuresFrom(b, k, now).failures == k
    ensures FailuresFrom(b, k, now).state == (if k >= BreakerMaxFailures then Open else Closed)
  {
    if k > 0 {
      TenFailuresOpen(b, k - 1, now);
    }
  }

  // ---------------------------------------------------------------------
  // The manager
  // ---------------------------------------------------------------------

  class ConnectionPoolManager {
    const config: PoolConfig
    // the database's pool settings
    var maxOpenSetting: int
    var maxIdleSetting: int
    // statistics
    var current: DBStats
    var history: seq<StatsSnapshot>
    var maxConnUsage: real
    var avgConnUsage: real
    var lastScaleEvent: int
    var scaleEvents: int
    // scaling
    var autoScaleEnabled: bool
    var scaleHistory: seq<ScaleEvent>
    // circuit breaker
    var breakerState: BreakerState
    var failures: int
    var lastFailure: int

    function Breaker(): PoolBreaker
      reads this
    {
      PoolBreaker(breakerState, failures, lastFailure)
    }

    predicate Valid()
      reads this
    {
      BreakerOk(Breaker())
    }

    /** A new manager: the configuration with its defaults, empty
        histories, auto-scaling on and a closed breaker. */
    constructor (config: PoolConfig, maxOpenSetting: int, maxIdleSetting: int)
      ensures Valid()
      ensures this.config == WithDefaults(config)
      ensures this.maxOpenSetting == maxOpenSetting && this.maxIdleSetting == maxIdleSetting
      ensures history == [] && scaleHistory == [] && autoScaleEnabled
      ensures maxConnUsage == 0.0 && avgConnUsage == 0.0 && scaleEvents == 0 && lastScaleEvent == ZeroTime
      ensures Breaker() == PoolBreaker(Closed, 0, ZeroTime)
    {
      this.config := WithDefaults(config);
      this.maxOpenSetting, this.maxIdleSetting := maxOpenSetting, maxIdleSetting;
      current := DBStats(0, 0, 0, 0);
      history, scaleHistory := [], [];
      maxConnUsage, avgConnUsage := 0.0, 0.0;
      lastScaleEvent, scaleEvents := ZeroTime, 0;
      autoScaleEnabled := true;
      breakerState, failures, lastFailure := Closed, 0, ZeroTime;
    }

    /** Takes a sample: records it, raises the peak, recomputes the rolling
        average over the last (at most ten) samples, then trims the history
        to the retention period. */
    method CollectStats(stats: DBStats, now: int)
      modifies this`current, this`history, this`maxConnUsage, this`avgConnUsage
      ensures current == stats
      ensures var usage := UsagePercent(stats);
        var appended := old(history) + [StatsSnapshot(now, stats, usage)];
        maxConnUsage == (if usage > old(maxConnUsage) then usage else old(maxConnUsage))
        && avgConnUsage == RecentMean(appended)
        && history == appended[KeepFrom(appended, now - config.statsRetention)..]
    {
      current := stats;
      var usage := UsagePercent(stats);
      history := history + [StatsSnapshot(now, stats, usage)];
      if usage > maxConnUsage {
        maxConnUsage := usage;
      }
      var samples := Samples(|history|);
      var total := 0.0;
      var i := |history| - samples;
      while i < |history|
        invariant |history| - samples <= i <= |history|
        invariant total + SumFrom(history, i) == SumFrom(history, |history| - samples)
        decreases |history| - i
      {
        total := total + history[i].usagePercentage;
        i := i + 1;
      }
      avgConnUsage := total / samples as real;
      CleanOldStats(now);
    }

    /** Drops the snapshots before the first one taken after
        now - retention; when no snapshot is that recent, keeps them all. */
    method CleanOldStats(now: int)
      modifies this`history
      ensures history == old(history)[KeepFrom(old(history), now - config.statsRetention)..]
    {
      var cutoff := now - config.statsRetention;
      var keepFrom := 0;
      var i := 0;
      while i < |history|
        invariant 0 <= i <= |history|
        invariant forall j :: 0 <= j < i ==> history[j].timestamp <= cutoff
        invariant keepFrom == 0
        decreases |history| - i
      {
        if history[i].timestamp > cutoff {
          keepFrom := i;
          break;
        }
        i := i + 1;
      }
      assert keepFrom == KeepFrom(history, cutoff);
      if keepFrom > 0 {
        history := history[keepFrom..];
      }
    }

    /** Resizes the pool once: the new maximum, the matching idle limit, an
        event in the history, and the time of the last resize. */
    method Scale(kind: ScaleKind, newMaxOpen: int, usage: real, now: int)
      modifies this`maxOpenSetting, this`maxIdleSetting, this`scaleHistory, this`lastScaleEvent, this`scaleEvents
      ensures maxOpenSetting == newMaxOpen && maxIdleSetting == IdleFor(newMaxOpen)
      ensures scaleHistory == old(scaleHistory)
        + [ScaleEvent(now, kind, old(maxOpenSetting), newMaxOpen, Reason(kind), usage)]
      ensures lastScaleEvent == now && scaleEvents == old(scaleEvents) + 1
    {
      var oldMaxOpen := maxOpenSetting;
      maxOpenSetting := newMaxOpen;
      maxIdleSetting := IdleFor(newMaxOpen);
      scaleHistory := scaleHistory + [ScaleEvent(now, kind, oldMaxOpen, newMaxOpen, Reason(kind), usage)];
      lastScaleEvent := now;
      scaleEvents := scaleEvents + 1;
    }

    /** Grows the pool when the average is above the upper threshold and
        shrinks it when below the lower one, both decided on the last
        sample's maximum; nothing happens when auto-scaling is off or
        within two minutes of the last resize. */
    method CheckAndScale(now: int)
      modifies this`maxOpenSetting, this`maxIdleSetting, this`scaleHistory, this`lastScaleEvent, this`scaleEvents
      ensures !autoScaleEnabled || now - old(lastScaleEvent) < ScaleCooldown ==>
        maxOpenSetting == old(maxOpenSetting) && maxIdleSetting == old(maxIdleSetting)
        && scaleHistory == old(scaleHistory) && lastScaleEvent == old(lastScaleEvent)
        && scaleEvents == old(scaleEvents)
      ensures var maxOpen := current.maxOpenConnections;
        var up := autoScaleEnabled && now - old(lastScaleEvent) >= ScaleCooldown
          && avgConnUsage > config.scaleUpThreshold && maxOpen < config.maxMaxOpen;
        var down := autoScaleEnabled && now - old(lastScaleEvent) >= ScaleCooldown
          && avgConnUsage < config.scaleDownThreshold && maxOpen > config.minMaxOpen;
        var upTo := ScaleUpTarget(maxOpen, config.scaleStep, config.maxMaxOpen);
        var downTo := ScaleDownTarget(maxOpen, config.scaleStep, config.minMaxOpen);
        && scaleEvents == old(scaleEvents) + (if up then 1 else 0) + (if down then 1 else 0)
        && maxOpenSetting == (if down then downTo else if up then upTo else old(maxOpenSetting))
        && scaleHistory == old(scaleHistory)
          + (if up then [ScaleEvent(now, ScaleUp, old(maxOpenSetting), upTo, "high_usage", avgConnUsage)] else [])
          + (if down then [ScaleEvent(now, ScaleDown, if up then upTo else old(maxOpenSetting), downTo, "low_usage", avgConnUsage)] else [])
        && maxIdleSetting == (if up || down then IdleFor(maxOpenSetting) else old(maxIdleSetting))
        && lastScaleEvent == (if up || down then now else old(lastScaleEvent))
      ensures forall i :: |old(scaleHistory)| <= i < |scaleHistory| ==>
        (scaleHistory[i].kind == ScaleUp ==> scaleHistory[i].newMaxOpen <= config.maxMaxOpen)
        && (scaleHistory[i].kind == ScaleDown ==> scaleHistory[i].newMaxOpen >= config.minMaxOpen)
    {
      if !autoScaleEnabled {
        return;
      }
      var usage := avgConnUsage;
      var maxOpen := current.maxOpenConnections;
      if now - lastScaleEvent < ScaleCooldown {
        return;
      }
      if usage > config.scaleUpThreshold && maxOpen < config.maxMaxOpen {
        Scale(ScaleUp, ScaleUpTarget(maxOpen, config.scaleStep, config.maxMaxOpen), usage, now);
      }
      if usage < config.scaleDownThreshold && maxOpen > config.minMaxOpen {
        Scale(ScaleDown, ScaleDownTarget(maxOpen, config.scaleStep, config.minMaxOpen), usage, now);
      }
    }

    method SetAutoScaling(enabled: bool)
      modifies this`autoScaleEnabled
      ensures autoScaleEnabled == enabled
    {
      autoScaleEnabled := enabled;
    }

    /** Reports whether the breaker is open, first moving an open breaker
        whose timeout has passed to half-open. By the invariant, a breaker
        reported open has counted at least the maximum of failures. */
    method IsCircuitBreakerOpen(now: int) returns (open: bool)
      requires Valid()
      modifies this`breakerState, this`failures
      ensures Valid()
      ensures Breaker() == Poll(old(Breaker()), now)
      ensures open <==> breakerState == Open
      ensures open ==> failures >= BreakerMaxFailures
    {
      if breakerState == Open && now - lastFailure > BreakerResetTimeout {
        breakerState := HalfOpen;
        failures := 0;
      }
      return breakerState == Open;
    }

    method RecordFailure(now: int)
      requires Valid()
      modifies this`breakerState, this`failures, this`lastFailure
      ensures Valid()
      ensures Breaker() == Failure(old(Breaker()), now)
    {
      failures := failures + 1;
      lastFailure := now;
      if failures >= BreakerMaxFailures {
        breakerState := Open;
      }
    }

    method RecordSuccess()
      requires Valid()
      modifies this`breakerState, this`failures
      ensures Valid()
      ensures Breaker() == Success(old(Breaker()))
    {
      if breakerState == HalfOpen {
        breakerState := Closed;
        failures := 0;
      }
    }

    /** Clears the statistics and both histories and closes the breaker;
        the last sample and the pool settings stay. */
    method ResetStats()
      modifies this`maxConnUsage, this`avgConnUsage, this`lastScaleEvent, this`scaleEvents,
        this`history, this`scaleHistory, this`failures, this`lastFailure, this`breakerState
      ensures Valid()
      ensures maxConnUsage == 0.0 && avgConnUsage == 0.0 && lastScaleEvent == ZeroTime && scaleEvents == 0
      ensures history == [] && scaleHistory == []
      ensures Breaker() == PoolBreaker(Closed, 0, ZeroTime)
    {
      maxConnUsage, avgConnUsage := 0.0, 0.0;
      lastScaleEvent, scaleEvents := ZeroTime, 0;
      history := [];
      scaleHistory := [];
      failures, lastFailure, breakerState := 0, ZeroTime, Closed;
    }
  }

  /** After a sample with a positive retention, the history is non-empty,
      ends with that sample, and (if it was chronological) holds exactly the
      snapshots within the retention period. */
  lemma CollectedHistoryRecent(h: seq<StatsSnapshot>, s: StatsSnapshot, retention: int)
    requires retention > 0 && SortedByTime(h + [s])
    ensures var a := h + [s]; var k := KeepFrom(a, s.timestamp - retention);
      k < |a| && a[k..][|a[k..]| - 1] == s
      && forall j :: 0 <= j < |a[k..]| ==> a[k..][j].timestamp > s.timestamp - retention
  {
    var a := h + [s];
    TrimKeepsExactlyRecent(a, s.timestamp - retention);
  }
}
