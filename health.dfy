/** Component health checks and their aggregation into the application's
    overall health. The probes themselves (database ping and pool stats,
    the cache round trip, the HTTP request) are inputs: each check is the
    classification of what its probe returned. */
module Health {
  import opened Common

  datatype HealthStatus = Up | Down | Warning | Unknown

  datatype ComponentHealth = ComponentHealth(status: HealthStatus, message: string, lastChecked: int)

  // ---------------------------------------------------------------------
  // Per-component classification
  // ---------------------------------------------------------------------

  /** Database: a failed ping is down; a pool with at most one free
      connection is a warning. */
  function DatabaseStatus(pingOk: bool, openConnections: int, maxOpenConnections: int): (s: HealthStatus)
    ensures s == Down <==> !pingOk
    ensures s == Warning <==> pingOk && openConnections >= maxOpenConnections - 1
    ensures s == Up <==> pingOk && openConnections < maxOpenConnections - 1
  {
    if !pingOk then Down
    else if openConnections >= maxOpenConnections - 1 then Warning
    else Up
  }

  /** Cache: a missing cache or a failed write is down; a failed or
      mismatching read-back is a warning. */
  function CacheStatus(initialized: bool, setOk: bool, read: Option<string>, written: string): (s: HealthStatus)
    ensures s == Down <==> !initialized || !setOk
    ensures s == Up <==> initialized && setOk && read == Some(written)
    ensures s != Unknown
  {
    if !initialized || !setOk then Down
    else if read.None? then Warning
    else if read.value != written then Warning
    else Up
  }

  /** External service: a request that cannot be made or sent is down;
      otherwise 2xx is up, 5xx and above down, anything else a warning. */
  function ExternalStatus(response: Result<int>): (s: HealthStatus)
    ensures response.Err? ==> s == Down
    ensures response.Ok? ==> (s == Up <==> 200 <= response.value < 300)
    ensures response.Ok? ==> (s == Down <==> response.value >= 500)
    ensures response.Ok? ==> (s == Warning <==> response.value < 200 || 300 <= response.value < 500)
  {
    if response.Err? then Down
    else if 200 <= response.value < 300 then Up
    else if response.value >= 500 then Down
    else Warning
  }

  /** A cached result is reused when caching is on and it is younger than
      the maximum age. */
  predicate UseCached(cacheResults: bool, cached: Option<ComponentHealth>, now: int, maxCacheAge: int)
  {
    cacheResults && cached.Some? && now - cached.value.lastChecked < maxCacheAge
  }

  /** One component's turn in CheckHealth: a fresh cached result is
      answered as is; otherwise the probe's result is answered and, when
      caching is on, remembered under the component's name. */
  function CheckComponent(cacheResults: bool, lastResults: map<string, ComponentHealth>, name: string,
                          now: int, maxCacheAge: int, probe: ComponentHealth)
    : (r: (ComponentHealth, map<string, ComponentHealth>))
    ensures var cached := if name in lastResults then Some(lastResults[name]) else None;
      UseCached(cacheResults, cached, now, maxCacheAge) ==> r == (lastResults[name], lastResults)
    ensures var cached := if name in lastResults then Some(lastResults[name]) else None;
      !UseCached(cacheResults, cached, now, maxCacheAge) ==>
        r.0 == probe && r.1 == (if cacheResults then lastResults[name := probe] else lastResults)
  {
    if cacheResults && name in lastResults && now - lastResults[name].lastChecked < maxCacheAge then
      (lastResults[name], lastResults)
    else
      (probe, if cacheResults then lastResults[name := probe] else lastResults)
  }

  /** A result is reused only while it is younger than the maximum age:
      once that age has passed since it was taken, the probe answers. */
  lemma CachedResultExpires(lastResults: map<string, ComponentHealth>, name: string, now: int,
                            maxCacheAge: int, probe: ComponentHealth)
    requires name in lastResults && now - lastResults[name].lastChecked >= maxCacheAge
    ensures CheckComponent(true, lastResults, name, now, maxCacheAge, probe).0 == probe
    ensures CheckComponent(true, lastResults, name, now, maxCacheAge, probe).1[name] == probe
  {
  }

  // ---------------------------------------------------------------------
  // Aggregation
  // ---------------------------------------------------------------------

  predicate HasStatus(results: seq<(string, ComponentHealth)>, st: HealthStatus)
  {
    exists i :: 0 <= i < |results| && results[i].1.status == st
  }

  /** How many of the first n results have the status. */
  function CountStatus(results: seq<(string, ComponentHealth)>, n: nat, st: HealthStatus): (c: nat)
    requires n <= |results|
    ensures c <= n
  {
    if n == 0 then 0 else CountStatus(results, n - 1, st) + (if results[n - 1].1.status == st then 1 else 0)
  }

  lemma {:induction false} CountPositive(results: seq<(string, ComponentHealth)>, n: nat, st: HealthStatus)
    requires n <= |results|
    ensures CountStatus(results, n, st) > 0 <==> exists i :: 0 <= i < n && results[i].1.status == st
  {
    if n > 0 {
      CountPositive(results, n - 1, st);
    }
  }

  lemma {:induction false} CountsPartition(results: seq<(string, ComponentHealth)>, n: nat)
    requires n <= |results|
    ensures CountStatus(results, n, Up) + CountStatus(results, n, Down) + CountStatus(results, n, Warning)
            + CountStatus(results, n, Unknown) == n
  {
    if n > 0 {
      CountsPartition(results, n - 1);
    }
  }

  /** The overall status: down if any component is down, else warning if
      any is a warning, else up (also with no components at all). */
  function OverallStatus(results: seq<(string, ComponentHealth)>): (r: HealthStatus)
    ensures r == Down <==> HasStatus(results, Down)
    ensures r == Warning <==> !HasStatus(results, Down) && HasStatus(results, Warning)
    ensures r == Up <==> !HasStatus(results, Down) && !HasStatus(results, Warning)
  {
    CountPositive(results, |results|, Down);
    CountPositive(results, |results|, Warning);
    if CountStatus(results, |results|, Down) > 0 then Down
    else if CountStatus(results, |results|, Warning) > 0 then Warning
    else Up
  }

  datatype OverallHealth = OverallHealth(status: HealthStatus, components: map<string, ComponentHealth>,
                                         total: nat, up: nat, down: nat, warning: nat, percentage: real)

  predicate DistinctNames(results: seq<(string, ComponentHealth)>)
  {
    forall i, j :: 0 <= i < j < |results| ==> results[i].0 != results[j].0
  }

  /** The components map built from the first n results. */
  function ComponentsOf(results: seq<(string, ComponentHealth)>, n: nat): map<string, ComponentHealth>
    requires n <= |results|
  {
    if n == 0 then map[] else ComponentsOf(results, n - 1)[results[n - 1].0 := results[n - 1].1]
  }

  /** With distinct names the map has one entry per result and nothing
      but their names ... */
  lemma {:induction false} ComponentsOfKeys(results: seq<(string, ComponentHealth)>, n: nat)
    requires DistinctNames(results) && n <= |results|
    ensures |ComponentsOf(results, n)| == n
    ensures forall k :: k in ComponentsOf(results, n) ==> exists i :: 0 <= i < n && results[i].0 == k
  {
    if n > 0 {
      ComponentsOfKeys(results, n - 1);
      var prev := ComponentsOf(results, n - 1);
      var last := results[n - 1];
      assert last.0 !in prev;
      assert ComponentsOf(results, n).Keys == prev.Keys + {last.0};
    }
  }

  /** ... and holds every result under its own name. */
  lemma {:induction false} ComponentsOfValues(results: seq<(string, ComponentHealth)>, n: nat)
    requires DistinctNames(results) && n <= |results|
    ensures forall i :: 0 <= i < n ==> results[i].0 in ComponentsOf(results, n) && ComponentsOf(results, n)[results[i].0] == results[i].1
  {
    if n > 0 {
      ComponentsOfValues(results, n - 1);
      forall i | 0 <= i < n
        ensures results[i].0 in ComponentsOf(results, n) && ComponentsOf(results, n)[results[i].0] == results[i].1
      {
        if i < n - 1 {
          assert results[i].0 != results[n - 1].0;
        }
      }
    }
  }

  /** The share of components that are up, in percent (the summary's
      health_percentage; a float division in the source). */
  function Percentage(up: nat, total: nat): (p: real)
    ensures total > 0 && up <= total ==> 0.0 <= p <= 100.0
    ensures total > 0 ==> p * total as real == up as real * 100.0
    ensures total == 0 ==> p == 0.0
  {
    if total == 0 then 0.0 else (up as real) / (total as real) * 100.0
  }

  /** The collecting loop of CheckHealth over the results in the order
      they arrive (one per registered checker, names distinct). */
  method Aggregate(results: seq<(string, ComponentHealth)>) returns (overall: OverallHealth)
    ensures overall.status == OverallStatus(results)
    ensures overall.up == CountStatus(results, |results|, Up)
    ensures overall.down == CountStatus(results, |results|, Down)
    ensures overall.warning == CountStatus(results, |results|, Warning)
    ensures overall.components == ComponentsOf(results, |results|)
    ensures overall.total == |overall.components|
    ensures results != [] ==> overall.percentage == Percentage(overall.up, overall.total)
  {
    var components: map<string, ComponentHealth> := map[];
    var up, down, warning := 0, 0, 0;
    if |results| == 0 {
      return OverallHealth(Up, components, 0, 0, 0, 0, 0.0);
    }
    var i := 0;
    while i < |results|
      invariant 0 <= i <= |results|
      invariant up == CountStatus(results, i, Up)
      invariant down == CountStatus(results, i, Down)
      invariant warning == CountStatus(results, i, Warning)
      invariant components == ComponentsOf(results, i)
    {
      var (name, health) := results[i];
      components := components[name := health];
      match health.status {
        case Up => up := up + 1;
        case Down => down := down + 1;
        case Warning => warning := warning + 1;
        case Unknown =>
      }
      i := i + 1;
    }
    var status := if down > 0 then Down else if warning > 0 then Warning else Up;
    overall := OverallHealth(status, components, |components|, up, down, warning, Percentage(up, |components|));
  }
}
