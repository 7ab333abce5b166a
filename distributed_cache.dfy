/** The sharded cache: keys are spread over several Redis shards by a hash
    of the key, unhealthy shards are skipped by probing the next ones, and
    an optional in-memory fallback takes over when no shard is usable. The
    Redis connections are outside the model: a shard is present or absent
    (its connection failed at start-up), the key's hash comes in as a
    number, and the outcome of each shard operation comes in as a
    parameter. */
module DistributedCacheModel {
  import opened Common

  datatype DistributedCacheConfig = DistributedCacheConfig(
    shardCount: int,
    healthCheckInterval: int,
    fallbackEnabled: bool,
    consistentHashing: bool,
    replicationFactor: int)

  /** Where an operation on a key goes. */
  datatype Target = Shard(index: int) | Fallback | NoHealthyShards

  /** The primary shard of a key: its hash modulo the shard count. The CRC32
      checksum and the first MD5 byte are both non-negative, so the index is
      never negative. */
  function ShardIndex(hash: nat, shardCount: int): (i: int)
    requires shardCount > 0
    ensures 0 <= i < shardCount
  {
    hash % shardCount
  }

  /** The j-th shard probed from `start`, wrapping round. */
  function ProbeIndex(start: int, j: int, n: int): (i: int)
    requires n > 0
    ensures 0 <= i < n
  {
    (start + j) % n
  }

  /** Probing from a shard reaches every shard within n steps. */
  lemma ProbeReaches(start: int, i: int, n: int) returns (j: int)
    requires 0 <= start < n && 0 <= i < n
    ensures 0 <= j < n && ProbeIndex(start, j, n) == i
  {
    if i >= start {
      j := i - start;
      ModBelow(i, n);
    } else {
      j := i - start + n;
      ModWrapOnce(i, n);
    }
  }

  lemma ModBelow(x: int, n: int)
    requires 0 <= x < n
    ensures x % n == x
  {
  }

  lemma ModWrapOnce(x: int, n: int)
    requires 0 <= x < n
    ensures (x + n) % n == x
  {
  }

  /** The attempted-shard outcomes of a delete: whether any succeeded, and
      the error of the last one that failed. */
  function AnyDeleted(attempted: seq<bool>, results: seq<Option<string>>): bool
    requires |attempted| == |results|
  {
    exists i :: 0 <= i < |attempted| && attempted[i] && results[i].None?
  }

  function LastError(attempted: seq<bool>, results: seq<Option<string>>): (e: Option<string>)
    requires |attempted| == |results|
    ensures e.Some? ==> exists i :: 0 <= i < |attempted| && attempted[i] && results[i] == e
    ensures e.None? <==> forall i :: 0 <= i < |attempted| && attempted[i] ==> results[i].None?
  {
    if attempted == [] then None
    else
      var n := |attempted| - 1;
      if attempted[n] && results[n].Some? then results[n]
      else LastError(attempted[..n], results[..n])
  }

  /** Delete reports an error only when no attempted shard and not the
      fallback deleted the key, and then it is the last shard error. */
  function DeleteOutcome(attempted: seq<bool>, results: seq<Option<string>>, fallback: Option<Option<string>>): Option<string>
    requires |attempted| == |results|
  {
    var deleted := AnyDeleted(attempted, results) || fallback == Some(None);
    if !deleted && LastError(attempted, results).Some? then LastError(attempted, results) else None
  }

  /** The loop of Delete over the shards: the last error of an attempted
      shard, and whether any attempted shard deleted the key. */
  method DeleteResults(attempted: seq<bool>, results: seq<Option<string>>) returns (lastErr: Option<string>, deleted: bool)
    requires |attempted| == |results|
    ensures lastErr == LastError(attempted, results)
    ensures deleted <==> AnyDeleted(attempted, results)
  {
    lastErr := None;
    deleted := false;
    var i := 0;
    while i < |attempted|
      invariant 0 <= i <= |attempted|
      invariant lastErr == LastError(attempted[..i], results[..i])
      invariant deleted <==> AnyDeleted(attempted[..i], results[..i])
    {
      assert attempted[..i + 1][..i] == attempted[..i];
      assert results[..i + 1][..i] == results[..i];
      if attempted[i] {
        if results[i].Some? {
          lastErr := results[i];
        } else {
          deleted := true;
        }
      }
      i := i + 1;
    }
    assert attempted[..i] == attempted && results[..i] == results;
  }

  /** A delete fails only if every attempted shard failed and the fallback
      did not delete; a delete nobody attempted succeeds. */
  lemma DeleteFailsOnlyIfAllFailed(attempted: seq<bool>, results: seq<Option<string>>, fallback: Option<Option<string>>)
    requires |attempted| == |results|
    ensures DeleteOutcome(attempted, results, fallback).Some? <==>
      (forall i :: 0 <= i < |attempted| && attempted[i] ==> results[i].Some?)
      && (exists i :: 0 <= i < |attempted| && attempted[i])
      && fallback != Some(None)
  {
    if (forall i :: 0 <= i < |attempted| && attempted[i] ==> results[i].Some?) && (exists i :: 0 <= i < |attempted| && attempted[i]) {
      var i :| 0 <= i < |attempted| && attempted[i];
      assert results[i].Some?;
    }
  }

  class DistributedCache {
    const config: DistributedCacheConfig
    const shardCount: int
    /** present[i]: shard i connected at start-up. */
    const present: seq<bool>
    var healthStatus: map<int, bool>

    /** Every shard has a health entry, and only a present shard is
        healthy. */
    ghost predicate Valid()
      reads this
    {
      shardCount == |present| > 0
      && (forall i :: i in healthStatus <==> 0 <= i < shardCount)
      && forall i :: i in healthStatus && healthStatus[i] ==> 0 <= i < |present| && present[i]
    }

    /** Go reads a missing map entry as false. */
    predicate Healthy(i: int)
      reads this
    {
      i in healthStatus && healthStatus[i]
    }

    predicate Usable(i: int)
      reads this
    {
      0 <= i < |present| && Healthy(i) && present[i]
    }

    /** Each configured shard is healthy exactly when it connected. */
    constructor (config: DistributedCacheConfig, connected: seq<bool>)
      requires |connected| > 0
      ensures this.config == config && shardCount == |connected| && present == connected
      ensures healthStatus == map i | 0 <= i < |connected| :: connected[i]
      ensures Valid()
    {
      this.config := config;
      shardCount := |connected|;
      present := connected;
      var status: map<int, bool> := map[];
      var i := 0;
      while i < |connected|
        invariant 0 <= i <= |connected|
        invariant status == map j | 0 <= j < i :: connected[j]
      {
        status := status[i := connected[i]];
        i := i + 1;
      }
      healthStatus := status;
    }

    /** The first usable shard probing from `start` onwards, wrapping round,
        among the first `steps` candidates. */
    function ProbeFrom(start: int, steps: nat): (r: Option<int>)
      requires shardCount > 0
      reads this
      ensures r.Some? ==> Usable(r.value)
      ensures r.Some? ==> exists j :: 0 <= j < steps && r.value == ProbeIndex(start, j, shardCount)
                                      && forall k :: 0 <= k < j ==> !Usable(ProbeIndex(start, k, shardCount))
      ensures r.None? ==> forall j :: 0 <= j < steps ==> !Usable(ProbeIndex(start, j, shardCount))
    {
      if steps == 0 then None
      else
        var earlier := ProbeFrom(start, steps - 1);
        var last := ProbeIndex(start, steps - 1, shardCount);
        if earlier.Some? then earlier
        else if Usable(last) then Some(last)
        else None
    }

    /** Once probing has found a shard, looking further changes nothing. */
    lemma {:induction false} ProbeStable(start: int, a: nat, b: nat)
      requires shardCount > 0 && a <= b && ProbeFrom(start, a).Some?
      ensures ProbeFrom(start, b) == ProbeFrom(start, a)
      decreases b - a
    {
      if a < b {
        ProbeStable(start, a, b - 1);
      }
    }

    /** The shard for a key: its primary shard when healthy, otherwise the
        first usable shard probing circularly from the primary, and none
        only when no shard at all is usable. */
    function ShardFor(hash: nat): (r: Option<int>)
      requires Valid()
      reads this
      ensures Healthy(ShardIndex(hash, shardCount)) ==> r == Some(ShardIndex(hash, shardCount))
      ensures !Healthy(ShardIndex(hash, shardCount)) ==> (r.Some? ==> Usable(r.value))
      ensures !Healthy(ShardIndex(hash, shardCount)) && r.Some? ==>
                var p := ShardIndex(hash, shardCount);
                exists j :: 0 <= j < shardCount && r.value == ProbeIndex(p, j, shardCount)
                            && forall k :: 0 <= k < j ==> !Usable(ProbeIndex(p, k, shardCount))
      ensures !Healthy(ShardIndex(hash, shardCount)) ==> (r.None? <==> forall i :: 0 <= i < shardCount ==> !Usable(i))
    {
      var p := ShardIndex(hash, shardCount);
      ProbeFindsAnyUsable(p);
      if Healthy(p) then Some(p) else ProbeFrom(p, shardCount)
    }

    /** GetShard: the primary shard, or the probing loop. */
    method GetShard(hash: nat) returns (r: Option<int>)
      requires Valid()
      ensures r == ShardFor(hash)
      ensures r.Some? ==> Usable(r.value)
    {
      var p := ShardIndex(hash, shardCount);
      if Healthy(p) {
        return Some(p);
      }
      var i := 0;
      while i < shardCount
        invariant 0 <= i <= shardCount
        invariant ProbeFrom(p, i).None?
      {
        var next := ProbeIndex(p, i, shardCount);
        if Healthy(next) && present[next] {
          ProbeStable(p, i + 1, shardCount);
          return Some(next);
        }
        i := i + 1;
      }
      return None;
    }

    /** Probing visits every shard, so a key finds no shard exactly when no
        shard is usable. */
    lemma ProbeFindsAnyUsable(p: int)
      requires Valid() && 0 <= p < shardCount
      ensures ProbeFrom(p, shardCount).None? <==> forall i :: 0 <= i < shardCount ==> !Usable(i)
    {
      if ProbeFrom(p, shardCount).None? {
        forall i | 0 <= i < shardCount
          ensures !Usable(i)
        {
          var j := ProbeReaches(p, i, shardCount);
          assert !Usable(ProbeIndex(p, j, shardCount));
        }
      }
    }

    /** Every key operation (get, set, exists, TTL, set-if-absent,
        increment) goes to the key's shard, else to the fallback cache if
        enabled, else fails. */
    method Route(hash: nat) returns (t: Target)
      requires Valid()
      ensures t.Shard? ==> Usable(t.index)
      ensures t.Fallback? ==> config.fallbackEnabled
      ensures !t.Shard? <==> forall i :: 0 <= i < shardCount ==> !Usable(i)
      ensures ShardFor(hash).Some? ==> t == Shard(ShardFor(hash).value)
      ensures ShardFor(hash).None? ==> t == (if config.fallbackEnabled then Fallback else NoHealthyShards)
    {
      var shard := GetShard(hash);
      ProbeFindsAnyUsable(ShardIndex(hash, shardCount));
      if shard.None? {
        if config.fallbackEnabled {
          return Fallback;
        }
        return NoHealthyShards;
      }
      return Shard(shard.value);
    }

    /** The shards a delete is sent to: the present, healthy ones. */
    function Attempted(): (a: seq<bool>)
      reads this
      ensures |a| == |present|
      ensures forall i :: 0 <= i < |a| ==> (a[i] <==> Usable(i))
    {
      seq(|present|, i requires 0 <= i < |present| reads this => Usable(i))
    }

    /** Deletes the key from every usable shard and from the fallback cache
        (`fallback` is None when there is none); `results[i]` is shard i's
        outcome. */
    method Delete(results: seq<Option<string>>, fallback: Option<Option<string>>) returns (err: Option<string>)
      requires |results| == |present|
      ensures err == DeleteOutcome(Attempted(), results, fallback)
    {
      var lastErr, deleted := DeleteResults(Attempted(), results);
      if fallback == Some(None) {
        deleted := true;
      }
      if !deleted && lastErr.Some? {
        return lastErr;
      }
      return None;
    }

    /** A health check: each present shard is healthy exactly when it
        answered its ping; an absent one is unhealthy. */
    method CheckShardHealth(pings: seq<bool>)
      requires Valid() && |pings| == shardCount
      modifies this`healthStatus
      ensures healthStatus == map i | 0 <= i < shardCount :: present[i] && pings[i]
      ensures Valid()
    {
      var i := 0;
      while i < shardCount
        invariant 0 <= i <= shardCount
        invariant forall j :: j in healthStatus <==> 0 <= j < shardCount
        invariant forall j :: 0 <= j < i ==> healthStatus[j] == (present[j] && pings[j])
        invariant forall j :: i <= j < shardCount ==> healthStatus[j] == old(healthStatus)[j]
      {
        healthStatus := healthStatus[i := present[i] && pings[i]];
        i := i + 1;
      }
    }

    function CountUsable(k: int): (n: nat)
      requires 0 <= k <= |present|
      reads this
      ensures n <= k
      ensures n == 0 <==> forall i :: 0 <= i < k ==> !Usable(i)
    {
      if k == 0 then 0 else CountUsable(k - 1) + (if Usable(k - 1) then 1 else 0)
    }

    /** The healthy-shard count of the statistics. */
    method HealthyShards() returns (n: nat)
      ensures n == CountUsable(|present|)
    {
      n := 0;
      var i := 0;
      while i < |present|
        invariant 0 <= i <= |present|
        invariant n == CountUsable(i)
      {
        if Healthy(i) && present[i] {
          n := n + 1;
        }
        i := i + 1;
      }
    }
  }

  /** Construction fails without shard configurations. */
  method NewDistributedCache(config: DistributedCacheConfig, connected: seq<bool>) returns (r: Result<DistributedCache>)
    ensures connected == [] <==> r.Err?
    ensures r.Ok? ==> fresh(r.value) && r.value.Valid() && r.value.present == connected
  {
    if |connected| == 0 {
      return Err("at least one shard configuration is required");
    }
    var dc := new DistributedCache(config, connected);
    return Ok(dc);
  }
}
