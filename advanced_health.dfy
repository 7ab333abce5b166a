/** The advanced health layer: a circuit breaker per dependency, the
    dependency graph's node statuses, the trend-based issue predictor and
    the overall risk score. The clock is the parameter `now`
    (nanoseconds). */
module AdvancedHealth {
  import opened Common
  import opened Health

  // ---------------------------------------------------------------------
  // Circuit breaker
  // ---------------------------------------------------------------------

  datatype CircuitState = Closed | Open | HalfOpen

  /** The breaker's mutable part. */
  datatype Breaker = Breaker(state: CircuitState, failureCount: int, lastFailTime: int)

  /** A failure: the count goes up, the time is recorded, and the breaker
      opens once the count reaches the maximum. */
  function Fail(b: Breaker, maxFailures: int, now: int): (r: Breaker)
    ensures r.failureCount == b.failureCount + 1 && r.lastFailTime == now
    ensures r.failureCount >= maxFailures ==> r.state == Open
    ensures r.failureCount < maxFailures ==> r.state == b.state
  {
    var n := b.failureCount + 1;
    Breaker(if n >= maxFailures then Open else b.state, n, now)
  }

  /** k failures in a row. */
  function FailTimes(b: Breaker, maxFailures: int, k: nat, now: int): Breaker
  {
    if k == 0 then b else Fail(FailTimes(b, maxFailures, k - 1, now), maxFailures, now)
  }

  /** From any state with a non-negative count, maxFailures consecutive
      failures open the breaker. */
  lemma {:induction false} ConsecutiveFailuresOpen(b: Breaker, maxFailures: int, k: nat, now: int)
    requires b.failureCount >= 0 && k >= maxFailures && k >= 1
    ensures FailTimes(b, maxFailures, k, now).state == Open
    ensures FailTimes(b, maxFailures, k, now).failureCount == b.failureCount + k
  {
    FailTimesCount(b, maxFailures, k, now);
  }

  lemma {:induction false} FailTimesCount(b: Breaker, maxFailures: int, k: nat, now: int)
    ensures FailTimes(b, maxFailures, k, now).failureCount == b.failureCount + k
  {
    if k > 0 {
      FailTimesCount(b, maxFailures, k - 1, now);
    }
  }

  /** The breaker never reports Open with fewer than maxFailures failures. */
  predicate BreakerOk(b: Breaker, maxFailures: int)
  {
    b.failureCount >= 0 && (b.state == Open ==> b.failureCount >= maxFailures)
  }

  lemma FailKeepsOk(b: Breaker, maxFailures: int, now: int)
    requires BreakerOk(b, maxFailures)
    ensures BreakerOk(Fail(b, maxFailures, now), maxFailures)
  {
  }

  class CircuitBreaker {
    const name: string
    const maxFailures: int
    const resetTimeout: int
    var failureCount: int
    var lastFailTime: int
    var state: CircuitState

    function Snapshot(): Breaker
      reads this
    {
      Breaker(state, failureCount, lastFailTime)
    }

    predicate Valid()
      reads this
    {
      BreakerOk(Snapshot(), maxFailures)
    }

    constructor (name: string, maxFailures: int, resetTimeout: int)
      ensures Valid() && state == Closed && failureCount == 0 && lastFailTime == ZeroTime
      ensures this.name == name && this.maxFailures == maxFailures && this.resetTimeout == resetTimeout
    {
      this.name, this.maxFailures, this.resetTimeout := name, maxFailures, resetTimeout;
      failureCount, lastFailTime, state := 0, ZeroTime, Closed;
    }

    /** Closed and half-open let calls through; open refuses them until the
        reset timeout has passed since the last failure, and then moves to
        half-open and lets the call through. */
    method CanExecute(now: int) returns (allowed: bool)
      requires Valid()
      modifies this`state
      ensures Valid()
      ensures allowed <==> old(state) != Open || now - lastFailTime > resetTimeout
      ensures state == (if old(state) == Open && now - lastFailTime > resetTimeout then HalfOpen else old(state))
    {
      match state {
        case Closed => return true;
        case Open =>
          if now - lastFailTime > resetTimeout {
            state := HalfOpen;
            return true;
          }
          return false;
        case HalfOpen => return true;
      }
    }

    method RecordSuccess()
      modifies this`failureCount, this`state
      ensures Valid() && failureCount == 0 && state == Closed
    {
      failureCount := 0;
      state := Closed;
    }

    method RecordFailure(now: int)
      requires Valid()
      modifies this`failureCount, this`lastFailTime, this`state
      ensures Valid()
      ensures Snapshot() == Fail(old(Snapshot()), maxFailures, now)
    {
      failureCount := failureCount + 1;
      lastFailTime := now;
      if failureCount >= maxFailures {
        state := Open;
      }
    }
  }

  // ---------------------------------------------------------------------
  // Dependency graph
  // ---------------------------------------------------------------------

  datatype DependencyNode = DependencyNode(name: string, status: HealthStatus, lastUpdated: int,
                                           dependencies: seq<string>, dependents: seq<string>)

  class DependencyGraph {
    var nodes: map<string, DependencyNode>
    var edges: map<string, seq<string>>

    constructor ()
      ensures nodes == map[] && edges == map[]
    {
      nodes, edges := map[], map[];
    }

    /** Adds (or replaces) a node, up, with the given dependencies. */
    method AddNode(name: string, dependencies: seq<string>, now: int)
      modifies this`nodes, this`edges
      ensures nodes == old(nodes)[name := DependencyNode(name, Up, now, dependencies, [])]
      ensures edges == old(edges)[name := dependencies]
    {
      nodes := nodes[name := DependencyNode(name, Up, now, dependencies, [])];
      edges := edges[name := dependencies];
    }

    /** Changes the status of an existing node; an unknown name changes
        nothing. */
    method UpdateNodeStatus(name: string, status: HealthStatus, now: int)
      modifies this`nodes
      ensures nodes.Keys == old(nodes).Keys
      ensures name in old(nodes) ==> nodes == old(nodes)[name := old(nodes)[name].(status := status, lastUpdated := now)]
      ensures name !in old(nodes) ==> nodes == old(nodes)
    {
      if name in nodes {
        nodes := nodes[name := nodes[name].(status := status, lastUpdated := now)];
      }
    }
  }

  // ---------------------------------------------------------------------
  // Issue prediction
  // ---------------------------------------------------------------------

  datatype HealthSnapshot = HealthSnapshot(timestamp: int, status: HealthStatus, responseTime: int)

  datatype PredictedIssue = PredictedIssue(component: string, issueType: string, probability: real,
                                           estimatedTime: int, impactLevel: string, mitigation: string)

  /** Non-up snapshots among the first n. */
  function NotUpCount(h: seq<HealthSnapshot>, n: nat): (c: nat)
    requires n <= |h|
    ensures c <= n
  {
    if n == 0 then 0 else NotUpCount(h, n - 1) + (if h[n - 1].status != Up then 1 else 0)
  }

  /** Non-up snapshots among the last ten. */
  function RecentFailures(h: seq<HealthSnapshot>): (c: nat)
    requires |h| >= 10
    ensures c <= 10
  {
    NotUpCount(h[|h| - 10..], 10)
  }

  /** A component is flagged when it has at least ten snapshots and at
      least three of the last ten are not up. */
  predicate Flagged(h: seq<HealthSnapshot>)
  {
    |h| >= 10 && RecentFailures(h) >= 3
  }

  function IssueFor(component: string, h: seq<HealthSnapshot>, now: int): (issue: PredictedIssue)
    requires |h| >= 10
    ensures 0.0 <= issue.probability <= 1.0
    ensures issue.component == component
  {
    PredictedIssue(component, "degradation_trend", (RecentFailures(h) as real) / 10.0,
                   now + 30 * Minute, "medium", "Monitor closely and investigate root cause")
  }

  /** The counting loop over the last ten snapshots. */
  method CountRecentFailures(h: seq<HealthSnapshot>) returns (failures: nat)
    requires |h| >= 10
    ensures failures == RecentFailures(h)
  {
    failures := 0;
    var i := |h| - 10;
    while i < |h|
      invariant |h| - 10 <= i <= |h|
      invariant failures == NotUpCount(h[|h| - 10..], i - (|h| - 10))
    {
      if h[i].status != Up {
        failures := failures + 1;
      }
      i := i + 1;
    }
  }

  /** The components named by a list of issues. */
  function IssueComponents(issues: seq<PredictedIssue>): set<string>
  {
    if issues == [] then {} else IssueComponents(issues[..|issues| - 1]) + {issues[|issues| - 1].component}
  }

  lemma {:induction false} IssueComponentsMembers(issues: seq<PredictedIssue>)
    ensures forall c :: c in IssueComponents(issues) <==> exists i :: 0 <= i < |issues| && issues[i].component == c
  {
    if issues != [] {
      var init := issues[..|issues| - 1];
      IssueComponentsMembers(init);
      forall c | c in IssueComponents(issues)
        ensures exists i :: 0 <= i < |issues| && issues[i].component == c
      {
        if c in IssueComponents(init) {
          var i :| 0 <= i < |init| && init[i].component == c;
          assert issues[i].component == c;
        } else {
          assert issues[|issues| - 1].component == c;
        }
      }
      forall c | exists i :: 0 <= i < |issues| && issues[i].component == c
        ensures c in IssueComponents(issues)
      {
        var i :| 0 <= i < |issues| && issues[i].component == c;
        if i < |issues| - 1 {
          assert init[i].component == c;
        }
      }
    }
  }

  /** The issue is the one predicted for a flagged component. */
  predicate IssueOk(trends: map<string, seq<HealthSnapshot>>, now: int, issue: PredictedIssue)
  {
    issue.component in trends && Flagged(trends[issue.component])
    && issue == IssueFor(issue.component, trends[issue.component], now)
  }

  /** What the prediction loop has established after visiting `done`. */
  predicate Predicted(trends: map<string, seq<HealthSnapshot>>, now: int, issues: seq<PredictedIssue>, done: set<string>)
  {
    && done <= trends.Keys
    && (forall i :: 0 <= i < |issues| ==> IssueOk(trends, now, issues[i]) && issues[i].component in done)
    && (forall c :: c in done ==> (Flagged(trends[c]) <==> c in IssueComponents(issues)))
    && IssueComponents(issues) <= done
    && (forall i, j :: 0 <= i < j < |issues| ==> issues[i].component != issues[j].component)
  }

  lemma PredictedAdd(trends: map<string, seq<HealthSnapshot>>, now: int, issues: seq<PredictedIssue>, done: set<string>, c: string)
    requires Predicted(trends, now, issues, done)
    requires c in trends && c !in done && Flagged(trends[c])
    ensures Predicted(trends, now, issues + [IssueFor(c, trends[c], now)], done + {c})
  {
    var issue := IssueFor(c, trends[c], now);
    assert (issues + [issue])[..|issues|] == issues;
  }

  lemma PredictedSkip(trends: map<string, seq<HealthSnapshot>>, now: int, issues: seq<PredictedIssue>, done: set<string>, c: string)
    requires Predicted(trends, now, issues, done)
    requires c in trends && c !in done && !Flagged(trends[c])
    ensures Predicted(trends, now, issues, done + {c})
  {
  }

  /** One issue per flagged component (in the map's iteration order),
      none for the others. */
  method PredictIssues(trends: map<string, seq<HealthSnapshot>>, now: int) returns (issues: seq<PredictedIssue>)
    ensures forall i :: 0 <= i < |issues| ==> IssueOk(trends, now, issues[i])
    ensures forall c :: c in trends ==> (Flagged(trends[c]) <==> c in IssueComponents(issues))
    ensures forall i, j :: 0 <= i < j < |issues| ==> issues[i].component != issues[j].component
  {
    issues := [];
    var keys := trends.Keys;
    while keys != {}
      invariant keys <= trends.Keys
      invariant Predicted(trends, now, issues, trends.Keys - keys)
      decreases |keys|
    {
      var component :| component in keys;
      issues := PredictOne(trends, now, issues, trends.Keys - keys, component);
      assert trends.Keys - keys + {component} == trends.Keys - (keys - {component});
      keys := keys - {component};
    }
    assert trends.Keys - keys == trends.Keys;
    PredictedAll(trends, now, issues);
  }

  /** Once every component is visited, the issues are exactly those of the
      flagged components, one each. */
  lemma PredictedAll(trends: map<string, seq<HealthSnapshot>>, now: int, issues: seq<PredictedIssue>)
    requires Predicted(trends, now, issues, trends.Keys)
    ensures forall i :: 0 <= i < |issues| ==> IssueOk(trends, now, issues[i])
    ensures forall c :: c in trends ==> (Flagged(trends[c]) <==> c in IssueComponents(issues))
    ensures forall i, j :: 0 <= i < j < |issues| ==> issues[i].component != issues[j].component
  {
  }

  /** One turn of the prediction loop: a flagged component gets its
      issue. */
  method PredictOne(trends: map<string, seq<HealthSnapshot>>, now: int, issues: seq<PredictedIssue>,
                    ghost done: set<string>, component: string)
    returns (next: seq<PredictedIssue>)
    requires Predicted(trends, now, issues, done)
    requires component in trends && component !in done
    ensures Predicted(trends, now, next, done + {component})
  {
    var history := trends[component];
    var flagged := false;
    if |history| >= 10 {
      var failures := CountRecentFailures(history);
      flagged := failures >= 3;
    }
    if flagged {
      PredictedAdd(trends, now, issues, done, component);
      next := issues + [IssueFor(component, history, now)];
    } else {
      PredictedSkip(trends, now, issues, done, component);
      next := issues;
    }
  }

  // ---------------------------------------------------------------------
  // Risk score
  // ---------------------------------------------------------------------

  function StatusWeight(s: HealthStatus): (w: real)
    ensures 0.0 <= w <= 100.0
  {
    match s
    case Down => 100.0
    case Warning => 50.0
    case Up => 0.0
    case Unknown => 0.0
  }

  function ImpactMultiplier(level: string): (m: real)
    ensures 1.0 <= m <= 3.0
  {
    if level == "high" then 3.0 else if level == "medium" then 2.0 else 1.0
  }

  function ComponentScore(components: seq<HealthStatus>, n: nat): (s: real)
    requires n <= |components|
    ensures 0.0 <= s
  {
    if n == 0 then 0.0 else ComponentScore(components, n - 1) + StatusWeight(components[n - 1])
  }

  function IssueScore(issues: seq<PredictedIssue>, n: nat): real
    requires n <= |issues|
  {
    if n == 0 then 0.0 else IssueScore(issues, n - 1) + Impact(issues[n - 1])
  }

  /** One predicted issue's contribution: its probability times 50 times
      the multiplier of its impact level. */
  function Impact(issue: PredictedIssue): (r: real)
    ensures issue.probability >= 0.0 ==> r >= 0.0
  {
    var m := ImpactMultiplier(issue.impactLevel);
    assert issue.probability >= 0.0 ==> issue.probability * 50.0 >= 0.0;
    issue.probability * 50.0 * m
  }

  /** Issue contributions are non-negative when the probabilities are. */
  lemma {:induction false} IssueScoreNonNegative(issues: seq<PredictedIssue>, n: nat)
    requires n <= |issues|
    requires forall i :: 0 <= i < |issues| ==> issues[i].probability >= 0.0
    ensures IssueScore(issues, n) >= 0.0
  {
    if n > 0 {
      IssueScoreNonNegative(issues, n - 1);
    }
  }

  /** The component weights and issue impacts summed, divided by the
      number of components and capped at 100; 0 with no components. */
  method CalculateRiskScore(components: seq<HealthStatus>, issues: seq<PredictedIssue>) returns (risk: real)
    ensures components == [] ==> risk == 0.0
    ensures risk <= 100.0
    ensures components != [] ==>
      risk == MinReal((ComponentScore(components, |components|) + IssueScore(issues, |issues|)) / (|components| as real), 100.0)
  {
    if |components| == 0 {
      return 0.0;
    }
    var score := 0.0;
    var i := 0;
    while i < |components|
      invariant 0 <= i <= |components| && score == ComponentScore(components, i)
    {
      score := score + StatusWeight(components[i]);
      i := i + 1;
    }
    var j := 0;
    while j < |issues|
      invariant 0 <= j <= |issues| && score == ComponentScore(components, |components|) + IssueScore(issues, j)
    {
      var impactMultiplier := ImpactMultiplier(issues[j].impactLevel);
      score := score + issues[j].probability * 50.0 * impactMultiplier;
      j := j + 1;
    }
    risk := score / (|components| as real);
    if risk > 100.0 {
      risk := 100.0;
    }
  }

  function MinReal(a: real, b: real): real { if a <= b then a else b }

  /** With non-negative probabilities the risk is never negative. */
  lemma {:induction false} RiskNonNegative(components: seq<HealthStatus>, issues: seq<PredictedIssue>)
    requires components != []
    requires forall i :: 0 <= i < |issues| ==> issues[i].probability >= 0.0
    ensures MinReal((ComponentScore(components, |components|) + IssueScore(issues, |issues|)) / (|components| as real), 100.0) >= 0.0
  {
    var cs := ComponentScore(components, |components|);
    var iss := IssueScore(issues, |issues|);
    IssueScoreNonNegative(issues, |issues|);
    CappedRatioNonNegative(cs + iss, |components| as real);
  }

  lemma CappedRatioNonNegative(a: real, b: real)
    requires a >= 0.0 && b > 0.0
    ensures MinReal(a / b, 100.0) >= 0.0
  {
  }
}
