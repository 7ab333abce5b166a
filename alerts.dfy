/** The monitoring alert manager: rules fire after a threshold of
    consecutive failures, at most once per cooldown, keep one active alert
    per rule that counts its repeats, and append a copy of every firing to
    a bounded history. The clock is the parameter `now` (nanoseconds since
    the Unix epoch). */
module Alerts {
  import opened Common

  datatype AlertLevel = Info | Warning | Critical

  /** An alert as the history stores it (a copy taken at firing time). */
  datatype Alert = Alert(id: string, name: string, level: AlertLevel, message: string,
                         timestamp: int, count: nat, lastFired: int)

  datatype AlertRule = AlertRule(name: string, level: AlertLevel, threshold: int, cooldown: int)

  datatype AlertConfig = AlertConfig(enabled: bool, maxHistory: int, checkInterval: int, defaultCooldown: int)

  const DefaultAlertConfig := AlertConfig(true, 1000, 30 * Second, 5 * Minute)

  /** The cooldown in force for a rule: its own, or the default when zero. */
  function EffectiveCooldown(rule: AlertRule, config: AlertConfig): (c: int)
    ensures rule.cooldown != 0 ==> c == rule.cooldown
    ensures rule.cooldown == 0 ==> c == config.defaultCooldown
  {
    if rule.cooldown == 0 then config.defaultCooldown else rule.cooldown
  }

  /** Whether a trigger that brings the failure count to `count` fires:
      the threshold is reached and no alert of this rule fired within the
      cooldown. */
  predicate Fires(count: int, rule: AlertRule, config: AlertConfig, last: Option<int>, now: int)
    ensures Fires(count, rule, config, last, now) ==> count >= rule.threshold
    ensures count >= rule.threshold && last.None? ==> Fires(count, rule, config, last, now)
  {
    count >= rule.threshold && !(last.Some? && now - last.value < EffectiveCooldown(rule, config))
  }

  /** "name_<unix seconds>". */
  function AlertId(name: string, now: int): (id: string)
    ensures HasPrefix(id, name + "_") && |id| > |name| + 1
  {
    name + "_" + Decimal(now / Second)
  }

  /** The history after appending one alert: the oldest entry is dropped
      when the length passes the limit. */
  function AppendBounded(history: seq<Alert>, a: Alert, maxHistory: int): (r: seq<Alert>)
    ensures |history| <= MaxInt(maxHistory, 0) ==> |r| <= MaxInt(maxHistory, 0)
    ensures r != [] ==> r[|r| - 1] == a
    ensures 1 <= maxHistory && |history| <= maxHistory ==> r != []
    ensures r == history + [a] || r == (history + [a])[1..]
    ensures |history| < maxHistory ==> r == history + [a]
  {
    var h := history + [a];
    if |h| > maxHistory then h[1..] else h
  }

  /** The last `limit` alerts, or all of them when limit is not positive
      or exceeds the length. */
  function RecentHistory(history: seq<Alert>, limit: int): (r: seq<Alert>)
    ensures |r| == if limit <= 0 || limit > |history| then |history| else limit
    ensures HasSuffixSeq(history, r)
  {
    var n := if limit <= 0 || limit > |history| then |history| else limit;
    history[|history| - n..]
  }

  predicate HasSuffixSeq<T(==)>(s: seq<T>, t: seq<T>)
  {
    |t| <= |s| && s[|s| - |t|..] == t
  }

  /** Asking again for as many or fewer gives the same tail. */
  lemma RecentHistoryNested(history: seq<Alert>, limit: int, limit2: int)
    requires 0 < limit2 <= limit
    ensures RecentHistory(RecentHistory(history, limit), limit2) == RecentHistory(history, MinInt(limit2, |history|))
  {
  }

  /** A rule only fires after `threshold` consecutive triggers: from a
      reset count, the k-th trigger brings the count to k. */
  lemma NoFireBelowThreshold(k: int, rule: AlertRule, config: AlertConfig, last: Option<int>, now: int)
    requires k < rule.threshold
    ensures !Fires(k, rule, config, last, now)
  {
  }

  /** Within the cooldown of the last firing, a rule never fires again. */
  lemma NoFireWithinCooldown(count: int, rule: AlertRule, config: AlertConfig, last: int, now: int)
    requires now - last < EffectiveCooldown(rule, config)
    ensures !Fires(count, rule, config, Some(last), now)
  {
  }

  class AlertManager {
    var rules: map<string, AlertRule>
    var activeAlerts: map<string, Alert>
    var alertHistory: seq<Alert>
    var failureCounts: map<string, int>
    var lastAlertTime: map<string, int>
    const config: AlertConfig

    predicate Valid()
      reads this
    {
      |alertHistory| <= MaxInt(config.maxHistory, 0)
    }

    /** A missing configuration means the defaults. */
    constructor (config: Option<AlertConfig>)
      ensures Valid()
      ensures rules == map[] && activeAlerts == map[] && alertHistory == []
      ensures failureCounts == map[] && lastAlertTime == map[]
      ensures this.config == if config.Some? then config.value else DefaultAlertConfig
    {
      this.config := if config.Some? then config.value else DefaultAlertConfig;
      rules, activeAlerts, alertHistory := map[], map[], [];
      failureCounts, lastAlertTime := map[], map[];
    }

    method RegisterRule(rule: AlertRule)
      modifies this`rules
      ensures rules == old(rules)[rule.name := rule]
    {
      rules := rules[rule.name := rule];
    }

    /** Forgets the rule together with its failure count and last firing. */
    method UnregisterRule(name: string)
      modifies this`rules, this`failureCounts, this`lastAlertTime
      ensures rules == old(rules) - {name}
      ensures failureCounts == old(failureCounts) - {name}
      ensures lastAlertTime == old(lastAlertTime) - {name}
    {
      rules := rules - {name};
      failureCounts := failureCounts - {name};
      lastAlertTime := lastAlertTime - {name};
    }

    function FailureCount(name: string): int
      reads this
    {
      if name in failureCounts then failureCounts[name] else 0
    }

    function LastAlert(name: string): Option<int>
      reads this
    {
      if name in lastAlertTime then Some(lastAlertTime[name]) else None
    }

    /** One failing check of the rule: the failure count goes up by one;
        if the rule fires, its active alert is created with count 1 or has
        its count raised, the firing time is recorded and a copy is
        appended to the bounded history. */
    method HandleAlertTriggered(name: string, rule: AlertRule, message: string, now: int)
      requires Valid()
      modifies this`failureCounts, this`activeAlerts, this`lastAlertTime, this`alertHistory
      ensures Valid()
      ensures failureCounts == old(failureCounts)[name := old(FailureCount(name)) + 1]
      ensures var fires := Fires(old(FailureCount(name)) + 1, rule, config, old(LastAlert(name)), now);
        !fires ==> activeAlerts == old(activeAlerts) && lastAlertTime == old(lastAlertTime) && alertHistory == old(alertHistory)
      ensures var fires := Fires(old(FailureCount(name)) + 1, rule, config, old(LastAlert(name)), now);
        fires ==> name in activeAlerts && lastAlertTime == old(lastAlertTime)[name := now]
      ensures var fires := Fires(old(FailureCount(name)) + 1, rule, config, old(LastAlert(name)), now);
        fires ==> activeAlerts == old(activeAlerts)[name := activeAlerts[name]]
      ensures var fires := Fires(old(FailureCount(name)) + 1, rule, config, old(LastAlert(name)), now);
        fires ==> activeAlerts[name].count == (if name in old(activeAlerts) then old(activeAlerts)[name].count + 1 else 1)
      ensures var fires := Fires(old(FailureCount(name)) + 1, rule, config, old(LastAlert(name)), now);
        fires ==> activeAlerts[name].message == message
      ensures var fires := Fires(old(FailureCount(name)) + 1, rule, config, old(LastAlert(name)), now);
        fires && name !in old(activeAlerts) ==>
          activeAlerts[name] == Alert(AlertId(name, now), name, rule.level, message, now, 1, ZeroTime)
      ensures var fires := Fires(old(FailureCount(name)) + 1, rule, config, old(LastAlert(name)), now);
        fires && name in old(activeAlerts) ==>
          activeAlerts[name] == old(activeAlerts)[name].(count := old(activeAlerts)[name].count + 1, lastFired := now, message := message)
      ensures var fires := Fires(old(FailureCount(name)) + 1, rule, config, old(LastAlert(name)), now);
        fires ==> alertHistory == AppendBounded(old(alertHistory), activeAlerts[name], config.maxHistory)
    {
      var count := FailureCount(name) + 1;
      failureCounts := failureCounts[name := count];
      if count < rule.threshold {
        return;
      }
      var cooldown := rule.cooldown;
      if cooldown == 0 {
        cooldown := config.defaultCooldown;
      }
      if name in lastAlertTime && now - lastAlertTime[name] < cooldown {
        return;
      }
      var alert: Alert;
      if name !in activeAlerts {
        alert := Alert(AlertId(name, now), name, rule.level, message, now, 1, ZeroTime);
      } else {
        var prev := activeAlerts[name];
        alert := prev.(count := prev.count + 1, lastFired := now, message := message);
      }
      alert := alert.(message := message);
      activeAlerts := activeAlerts[name := alert];
      lastAlertTime := lastAlertTime[name := now];
      alertHistory := AppendBounded(alertHistory, alert, config.maxHistory);
    }

    /** A passing check: the failure count returns to 0 and the rule's
        active alert, if any, is resolved and removed. */
    method HandleAlertResolved(name: string)
      modifies this`failureCounts, this`activeAlerts
      ensures failureCounts == old(failureCounts)[name := 0]
      ensures activeAlerts == old(activeAlerts) - {name}
    {
      failureCounts := failureCounts[name := 0];
      if name in activeAlerts {
        activeAlerts := activeAlerts - {name};
      }
    }

    function GetAlertHistory(limit: int): (r: seq<Alert>)
      reads this
      ensures |r| == if limit <= 0 || limit > |alertHistory| then |alertHistory| else limit
      ensures HasSuffixSeq(alertHistory, r)
    {
      RecentHistory(alertHistory, limit)
    }
  }
}
