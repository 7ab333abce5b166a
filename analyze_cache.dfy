/** The analysis service's result cache: results keyed by
    "userID:text:minLevel", each stamped with the instant it was computed,
    expiring after a timeout, and, when the cache is full, trimmed by
    dropping expired results and then the oldest quarter. The clock is the
    parameter `now` (nanoseconds). */
module AnalyzeCacheModel {
  import opened Common

  /** A cached analysis; only its timestamp matters to the cache. */
  datatype AnalysisResult = AnalysisResult(timestamp: int, body: string)

  const DefaultCacheTimeout: int := 10 * Minute
  const DefaultMaxCacheSize: int := 1000

  // ---------------------------------------------------------------------
  // Cache keys
  // ---------------------------------------------------------------------

  function CacheKey(userID: int, text: string, minLevel: string): string
  {
    Decimal(userID) + ":" + text + ":" + minLevel
  }

  /** The key reads back: the first ':' ends the user id ... */
  lemma CacheKeyUser(userID: int, text: string, minLevel: string)
    ensures var key := CacheKey(userID, text, minLevel);
      IndexChar(key, ':') == |Decimal(userID)| && key[..|Decimal(userID)|] == Decimal(userID)
  {
    var d := Decimal(userID);
    var key := CacheKey(userID, text, minLevel);
    assert key == d + ([':'] + (text + ([':'] + minLevel)));
    assert key[|d|] == ':';
    assert key[..|d|] == d;
  }

  /** ... and, when the level has no ':', the last one starts the level, so
      the text lies between the two. */
  lemma CacheKeyLevel(userID: int, text: string, minLevel: string)
    requires ':' !in minLevel
    ensures var key := CacheKey(userID, text, minLevel);
      LastIndexChar(key, ':') == |key| - |minLevel| - 1 && key[|key| - |minLevel|..] == minLevel
    ensures var key := CacheKey(userID, text, minLevel);
      key[|Decimal(userID)| + 1..|key| - |minLevel| - 1] == text
  {
    var d := Decimal(userID);
    var key := CacheKey(userID, text, minLevel);
    var front := d + [':'] + text;
    assert key == front + ([':'] + minLevel);
    var j := |front|;
    assert key[j] == ':';
    assert key[j + 1..] == minLevel;
    assert key[..j] == front;
    assert front[|d| + 1..] == text;
  }

  // ---------------------------------------------------------------------
  // Expiry and eviction, on values
  // ---------------------------------------------------------------------

  predicate Expired(r: AnalysisResult, now: int, timeout: int)
  {
    now - r.timestamp > timeout
  }

  /** The entries that survive the expiry sweep. */
  function Live(cache: map<string, AnalysisResult>, now: int, timeout: int): (r: map<string, AnalysisResult>)
  {
    map k | k in cache && !Expired(cache[k], now, timeout) :: cache[k]
  }

  lemma LiveExactly(cache: map<string, AnalysisResult>, now: int, timeout: int)
    ensures forall k :: k in Live(cache, now, timeout) <==> k in cache && now - cache[k].timestamp <= timeout
    ensures forall k :: k in Live(cache, now, timeout) ==> Live(cache, now, timeout)[k] == cache[k]
  {
  }

  /** A quarter of the entries, but at least one. */
  function RemoveCount(n: nat): (r: nat)
  {
    if n / 4 == 0 then 1 else n / 4
  }

  lemma RemoveCountBounds(n: nat)
    ensures 1 <= RemoveCount(n)
    ensures n >= 1 ==> RemoveCount(n) <= n
    ensures n >= 4 ==> 4 * RemoveCount(n) <= n < 4 * RemoveCount(n) + 4
    ensures n < 4 ==> RemoveCount(n) == 1
  {
  }

  function Ts(m: map<string, AnalysisResult>, k: string): int
    requires k in m
  {
    m[k].timestamp
  }

  /** What the cleanup of a full cache leaves: the expired entries go;
      when the live entries still reach the limit, a quarter of them (at
      least one), none newer than any kept entry, go too; and every kept
      entry is unchanged. */
  ghost predicate Cleaned(before: map<string, AnalysisResult>, after: map<string, AnalysisResult>,
                          now: int, timeout: int, maxSize: int)
  {
    var live := Live(before, now, timeout);
    (|live| < maxSize ==> after == live)
    && (|live| >= maxSize ==> |after| == |live| - MinInt(RemoveCount(|live|), |live|))
    && (forall k :: k in after ==> k in live && after[k] == live[k])
    && (forall k, j :: k in live && k !in after && j in after ==> Ts(live, k) <= Ts(live, j))
  }

  predicate AllIn(s: seq<string>, m: map<string, AnalysisResult>)
  {
    forall i :: 0 <= i < |s| ==> s[i] in m
  }

  /** Keys ordered from the oldest result to the newest. */
  predicate OldestFirst(s: seq<string>, m: map<string, AnalysisResult>)
    requires AllIn(s, m)
  {
    forall p, q :: 0 <= p < q < |s| ==> Ts(m, s[p]) <= Ts(m, s[q])
  }

  function SetOf(s: seq<string>): set<string>
  {
    set x | x in s
  }

  ghost predicate Distinct(s: seq<string>)
  {
    forall x :: multiset(s)[x] <= 1
  }

  lemma {:induction false} DistinctCard(s: seq<string>)
    requires Distinct(s)
    ensures |SetOf(s)| == |s|
  {
    if s != [] {
      var init := s[..|s| - 1];
      assert s == init + [s[|s| - 1]];
      assert multiset(s) == multiset(init) + multiset{s[|s| - 1]};
      assert Distinct(init) by {
        forall x ensures multiset(init)[x] <= 1 {
          assert multiset(init)[x] <= multiset(s)[x];
        }
      }
      DistinctCard(init);
      assert s[|s| - 1] !in init by {
        assert multiset(s)[s[|s| - 1]] == multiset(init)[s[|s| - 1]] + 1;
      }
      assert SetOf(s) == SetOf(init) + {s[|s| - 1]};
    }
  }

  /** kept is m without the given keys. */
  function Without(m: map<string, AnalysisResult>, gone: set<string>): (r: map<string, AnalysisResult>)
  {
    map k | k in m && k !in gone :: m[k]
  }

  /** A listing of a map's keys names each key once and only keys. */
  lemma ListingOfKeys(s: seq<string>, m: map<string, AnalysisResult>)
    requires multiset(s) == multiset(m.Keys)
    ensures AllIn(s, m) && Distinct(s) && |s| == |m|
  {
    forall i | 0 <= i < |s| ensures s[i] in m {
      assert s[i] in multiset(s);
    }
    forall x ensures multiset(s)[x] <= 1 {
      if x !in m.Keys {
        assert multiset(m.Keys)[x] == 0;
      }
    }
    assert |multiset(s)| == |s|;
    assert |multiset(m.Keys)| == |m.Keys|;
  }

  lemma DistinctPrefix(s: seq<string>, r: nat)
    requires Distinct(s) && r <= |s|
    ensures Distinct(s[..r])
  {
    forall x ensures multiset(s[..r])[x] <= 1 {
      assert s == s[..r] + s[r..];
      assert multiset(s) == multiset(s[..r]) + multiset(s[r..]);
      assert multiset(s)[x] == multiset(s[..r])[x] + multiset(s[r..])[x];
    }
  }

  lemma WithoutCard(m: map<string, AnalysisResult>, gone: set<string>)
    requires gone <= m.Keys
    ensures |Without(m, gone)| == |m| - |gone|
  {
    assert Without(m, gone).Keys == m.Keys - gone;
    assert m.Keys == (m.Keys - gone) + gone;
  }

  lemma WithoutOneMore(m: map<string, AnalysisResult>, gone: set<string>, x: string)
    ensures Without(m, gone + {x}) == Without(m, gone) - {x}
  {
  }

  lemma PrefixSet(s: seq<string>, i: nat)
    requires i < |s|
    ensures SetOf(s[..i + 1]) == SetOf(s[..i]) + {s[i]}
  {
    assert s[..i + 1] == s[..i] + [s[i]];
  }

  /** Dropping the first r keys of an oldest-first listing of every key
      removes r entries. */
  lemma DropOldestCount(s: seq<string>, m: map<string, AnalysisResult>, r: nat)
    requires multiset(s) == multiset(m.Keys)
    requires r <= |s|
    ensures |Without(m, SetOf(s[..r]))| == |m| - r
  {
    ListingOfKeys(s, m);
    DistinctPrefix(s, r);
    DistinctCard(s[..r]);
    var gone := SetOf(s[..r]);
    forall x | x in gone ensures x in m.Keys {
      var i :| 0 <= i < r && s[..r][i] == x;
      assert s[i] in m;
    }
    WithoutCard(m, gone);
  }

  /** ... and each dropped entry is no newer than any entry kept. */
  lemma DropOldestOrder(s: seq<string>, m: map<string, AnalysisResult>, r: nat)
    requires AllIn(s, m) && OldestFirst(s, m)
    requires multiset(s) == multiset(m.Keys)
    requires r <= |s|
    ensures forall k, j :: k in m && k !in Without(m, SetOf(s[..r])) && j in Without(m, SetOf(s[..r])) ==> Ts(m, k) <= Ts(m, j)
  {
    var gone := SetOf(s[..r]);
    var kept := Without(m, gone);
    forall k, j | k in m && k !in kept && j in kept
      ensures Ts(m, k) <= Ts(m, j)
    {
      assert k in gone;
      var p :| 0 <= p < r && s[..r][p] == k;
      assert j in multiset(m.Keys);
      var q :| 0 <= q < |s| && s[q] == j;
      assert s[p] == k;
    }
  }

  class AnalyzeService {
    var resultCache: map<string, AnalysisResult>
    const cacheTimeout: int
    const maxCacheSize: int

    constructor ()
      ensures resultCache == map[]
      ensures cacheTimeout == DefaultCacheTimeout && maxCacheSize == DefaultMaxCacheSize
    {
      resultCache := map[];
      cacheTimeout := DefaultCacheTimeout;
      maxCacheSize := DefaultMaxCacheSize;
    }

    /** A present, unexpired result; an expired one is deleted on the way. */
    method GetCachedResult(key: string, now: int) returns (r: Option<AnalysisResult>)
      modifies this`resultCache
      ensures r.Some? <==> key in old(resultCache) && !Expired(old(resultCache)[key], now, cacheTimeout)
      ensures r.Some? ==> r.value == old(resultCache)[key] && resultCache == old(resultCache)
      ensures r.None? ==> resultCache == old(resultCache) - {key}
    {
      if key !in resultCache {
        return None;
      }
      var result := resultCache[key];
      if Expired(result, now, cacheTimeout) {
        resultCache := resultCache - {key};
        return None;
      }
      return Some(result);
    }

    /** Stores the result, trimming the cache first when it is full. */
    method SetCachedResult(key: string, result: AnalysisResult, now: int)
      modifies this`resultCache
      ensures key in resultCache && resultCache[key] == result
      ensures |old(resultCache)| < maxCacheSize ==> resultCache == old(resultCache)[key := result]
      ensures forall k :: k in resultCache && k != key ==> k in old(resultCache) && resultCache[k] == old(resultCache)[k]
      ensures |old(resultCache)| >= maxCacheSize ==>
                exists cleaned :: Cleaned(old(resultCache), cleaned, now, cacheTimeout, maxCacheSize)
                                  && resultCache == cleaned[key := result]
    {
      if |resultCache| >= maxCacheSize {
        CleanupCache(now);
      }
      ghost var cleaned := resultCache;
      resultCache := resultCache[key := result];
    }

    /** Drops expired results; then, if the cache is still full, drops the
        oldest quarter (at least one) of what is left. */
    method CleanupCache(now: int)
      modifies this`resultCache
      ensures var live := Live(old(resultCache), now, cacheTimeout);
        |live| < maxCacheSize ==> resultCache == live
      ensures var live := Live(old(resultCache), now, cacheTimeout);
        |live| >= maxCacheSize ==> |resultCache| == |live| - MinInt(RemoveCount(|live|), |live|)
      ensures var live := Live(old(resultCache), now, cacheTimeout);
        forall k :: k in resultCache ==> k in live && resultCache[k] == live[k]
      ensures var live := Live(old(resultCache), now, cacheTimeout);
        forall k, j :: k in live && k !in resultCache && j in resultCache ==> Ts(live, k) <= Ts(live, j)
      ensures Cleaned(old(resultCache), resultCache, now, cacheTimeout, maxCacheSize)
    {
      RemoveExpired(now);
      ghost var live := resultCache;
      if |resultCache| >= maxCacheSize {
        var entries := KeysOf(resultCache);
        ListingOfKeys(entries[..], resultCache);
        SortOldestFirst(entries, resultCache);
        var removeCount := RemoveCount(entries.Length);
        var limit := MinInt(removeCount, entries.Length);
        ghost var order := entries[..];
        var i := 0;
        while i < limit
          invariant 0 <= i <= limit
          invariant entries[..] == order
          invariant resultCache == Without(live, SetOf(order[..i]))
        {
          PrefixSet(order, i);
          WithoutOneMore(live, SetOf(order[..i]), order[i]);
          resultCache := resultCache - {entries[i]};
          i := i + 1;
        }
        DropOldestCount(order, live, limit);
        DropOldestOrder(order, live, limit);
      }
    }

    /** The expiry sweep of the first loop. */
    method RemoveExpired(now: int)
      modifies this`resultCache
      ensures resultCache == Live(old(resultCache), now, cacheTimeout)
    {
      var keys := resultCache.Keys;
      ghost var original := resultCache;
      while keys != {}
        invariant keys <= original.Keys
        invariant resultCache == map k | k in original && (k in keys || !Expired(original[k], now, cacheTimeout)) :: original[k]
        decreases |keys|
      {
        var k :| k in keys;
        if Expired(resultCache[k], now, cacheTimeout) {
          resultCache := resultCache - {k};
        }
        keys := keys - {k};
      }
    }

    method ClearCache()
      modifies this`resultCache
      ensures resultCache == map[]
    {
      resultCache := map[];
    }
  }

  /** The keys of the map in its (arbitrary) iteration order. */
  method KeysOf(m: map<string, AnalysisResult>) returns (a: array<string>)
    ensures fresh(a)
    ensures multiset(a[..]) == multiset(m.Keys)
  {
    var ks: seq<string> := [];
    var rest := m.Keys;
    while rest != {}
      invariant rest <= m.Keys
      invariant multiset(ks) + multiset(rest) == multiset(m.Keys)
      decreases |rest|
    {
      var k :| k in rest;
      ks := ks + [k];
      rest := rest - {k};
    }
    a := new string[|ks|](i requires 0 <= i < |ks| => ks[i]);
    assert a[..] == ks;
  }

  /** Exchanges a[i] and a[j] when a[i] is newer. */
  method SwapIfNewer(a: array<string>, m: map<string, AnalysisResult>, i: int, j: int)
    requires 0 <= i < j < a.Length && AllIn(a[..], m)
    modifies a
    ensures AllIn(a[..], m) && multiset(a[..]) == multiset(old(a[..]))
    ensures Ts(m, a[i]) <= Ts(m, a[j])
    ensures a[i] == old(a[i]) || a[i] == old(a[j])
    ensures forall k :: 0 <= k < a.Length && k != i && k != j ==> a[k] == old(a[k])
    ensures {a[i], a[j]} == {old(a[i]), old(a[j])}
  {
    if Ts(m, a[i]) > Ts(m, a[j]) {
      a[i], a[j] := a[j], a[i];
    }
  }

  /** The exchange sort of cleanupCache, oldest first. */
  method SortOldestFirst(a: array<string>, m: map<string, AnalysisResult>)
    requires AllIn(a[..], m)
    modifies a
    ensures AllIn(a[..], m) && OldestFirst(a[..], m)
    ensures multiset(a[..]) == multiset(old(a[..]))
  {
    var i := 0;
    while i < a.Length - 1
      invariant 0 <= i <= a.Length
      invariant AllIn(a[..], m) && multiset(a[..]) == multiset(old(a[..]))
      invariant forall p, q :: 0 <= p < q < a.Length && p < i ==> Ts(m, a[p]) <= Ts(m, a[q])
    {
      var j := i + 1;
      while j < a.Length
        invariant i + 1 <= j <= a.Length
        invariant AllIn(a[..], m) && multiset(a[..]) == multiset(old(a[..]))
        invariant forall p, q :: 0 <= p < q < a.Length && p < i ==> Ts(m, a[p]) <= Ts(m, a[q])
        invariant forall q :: i < q < j ==> Ts(m, a[i]) <= Ts(m, a[q])
      {
        SwapIfNewer(a, m, i, j);
        j := j + 1;
      }
      i := i + 1;
    }
  }
}
