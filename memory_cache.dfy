/** The in-process cache: byte values with an expiry instant under prefixed
    keys, a size limit enforced by evicting the entry that expires first,
    conditional set, and counters stored as 8 big-endian bytes. The clock
    is a parameter `now` (nanoseconds) of every operation. */
module MemoryCacheModel {
  import opened Common

  type Byte = x: int | 0 <= x < 256

  datatype Entry = Entry(value: seq<Byte>, expiresAt: int)

  datatype CacheConfig = CacheConfig(maxEntries: int, defaultTTL: int, keyPrefix: string)

  /** The stored key of a caller's key. */
  function KeyWithPrefix(prefix: string, key: string): (r: string)
    ensures HasPrefix(r, prefix) && r[|prefix|..] == key
  {
    if prefix == "" then key else prefix + key
  }

  /** Both branches prepend the prefix, so distinct keys stay distinct and
      every stored key carries the prefix. */
  lemma KeyWithPrefixInjective(prefix: string, k1: string, k2: string)
    ensures KeyWithPrefix(prefix, k1) == prefix + k1
    ensures HasPrefix(KeyWithPrefix(prefix, k1), prefix)
    ensures KeyWithPrefix(prefix, k1) == KeyWithPrefix(prefix, k2) ==> k1 == k2
  {
    assert "" + k1 == k1;
    if KeyWithPrefix(prefix, k1) == KeyWithPrefix(prefix, k2) {
      assert (prefix + k1)[|prefix|..] == k1;
      assert (prefix + k2)[|prefix|..] == k2;
    }
  }

  // ---------------------------------------------------------------------
  // Counters as 8 big-endian bytes
  // ---------------------------------------------------------------------

  function Pow256(n: nat): (p: nat)
    ensures p >= 1
  {
    if n == 0 then 1 else 256 * Pow256(n - 1)
  }

  /** The n low bytes of u, most significant first. */
  function EncodeU(u: nat, n: nat): (bs: seq<Byte>)
    ensures |bs| == n
  {
    if n == 0 then [] else EncodeU(u / 256, n - 1) + [u % 256]
  }

  /** The unsigned big-endian value of a byte string. */
  function DecodeU(bs: seq<Byte>): (u: nat)
    ensures u < Pow256(|bs|)
  {
    if bs == [] then 0 else 256 * DecodeU(bs[..|bs| - 1]) + bs[|bs| - 1]
  }

  lemma {:induction false} DecodeEncodeU(u: nat, n: nat)
    requires u < Pow256(n)
    ensures DecodeU(EncodeU(u, n)) == u
  {
    if n > 0 {
      var bs := EncodeU(u, n);
      assert bs[..n - 1] == EncodeU(u / 256, n - 1);
      DecodeEncodeU(u / 256, n - 1);
    }
  }

  lemma {:induction false} EncodeDecodeU(bs: seq<Byte>)
    ensures EncodeU(DecodeU(bs), |bs|) == bs
  {
    if bs != [] {
      var n := |bs|;
      DivMod256(DecodeU(bs[..n - 1]), bs[n - 1]);
      EncodeDecodeU(bs[..n - 1]);
      assert bs == bs[..n - 1] + [bs[n - 1]];
    }
  }

  lemma DivMod256(d: nat, b: int)
    requires 0 <= b < 256
    ensures (256 * d + b) / 256 == d && (256 * d + b) % 256 == b
  {
    var x := 256 * d + b;
    var q, r := x / 256, x % 256;
    assert 256 * (q - d) == b - r;
  }

  const TwoTo63: int := 0x8000_0000_0000_0000

  /** Two's-complement bytes of an int64, as the shifts and byte casts of
      the source produce them. */
  function EncodeInt64(x: int): (bs: seq<Byte>)
    requires IsInt64(x)
    ensures |bs| == 8
  {
    EncodeU(if x < 0 then x + TwoTo64 else x, 8)
  }

  /** The int64 read back from 8 bytes by the shifts and ors of the source. */
  function DecodeInt64(bs: seq<Byte>): (x: int)
    requires |bs| == 8
    ensures IsInt64(x)
  {
    assert Pow256(8) == TwoTo64;
    var u := DecodeU(bs);
    if u >= TwoTo63 then u - TwoTo64 else u
  }

  /** Encoding and decoding a counter are inverse in both directions. */
  lemma CounterRoundTrip(x: int, bs: seq<Byte>)
    requires IsInt64(x) && |bs| == 8
    ensures DecodeInt64(EncodeInt64(x)) == x
    ensures EncodeInt64(DecodeInt64(bs)) == bs
  {
    assert Pow256(8) == TwoTo64;
    DecodeEncodeU(if x < 0 then x + TwoTo64 else x, 8);
    EncodeDecodeU(bs);
  }

  // ---------------------------------------------------------------------
  // Eviction
  // ---------------------------------------------------------------------

  /** k is a stored key whose entry expires no later than any other. */
  predicate IsOldest(data: map<string, Entry>, k: string)
  {
    k in data && forall j :: j in data ==> data[k].expiresAt <= data[j].expiresAt
  }

  /** The scan of evictOldest as written: the empty string marks "no key
      chosen yet", starting from the zero time, over the keys in the map's
      iteration order. */
  function OldestAsWritten(data: map<string, Entry>, order: seq<string>): (r: (string, int))
    requires forall i :: 0 <= i < |order| ==> order[i] in data
    ensures r.0 != "" ==> r.0 in order && r.1 == data[r.0].expiresAt
    ensures "" !in order && order != [] ==>
      r.0 != "" && forall i :: 0 <= i < |order| ==> r.1 <= data[order[i]].expiresAt
    decreases |order|
  {
    if order == [] then ("", ZeroTime)
    else
      var prev := OldestAsWritten(data, order[..|order| - 1]);
      var k := order[|order| - 1];
      if prev.0 == "" || data[k].expiresAt < prev.1 then (k, data[k].expiresAt) else prev
  }

  /** evictOldest as written: the chosen key is deleted unless it is the
      empty string. */
  function EvictAsWritten(data: map<string, Entry>, order: seq<string>): (r: map<string, Entry>)
    requires forall i :: 0 <= i < |order| ==> order[i] in data
    ensures r.Keys <= data.Keys && forall k :: k in r ==> r[k] == data[k]
    ensures "" !in order && (forall k :: k in data ==> k in order) && data != map[] ==>
      exists k :: IsOldest(data, k) && r == data - {k}
  {
    var k := OldestAsWritten(data, order).0;
    if k != "" then data - {k} else data
  }

  /** The sentinel collides with a real key: when the key "" expires first
      nothing is evicted, and with one entry allowed a Set then leaves two. */
  lemma EmptyKeyBlocksEviction()
    ensures var data := map["" := Entry([], 1), "a" := Entry([], 5)];
      IsOldest(data, "") && EvictAsWritten(data, ["a", ""]) == data
    ensures var data := map["" := Entry([], 1)];
      |EvictAsWritten(data, [""])[KeyWithPrefix("", "x") := Entry([], 2)]| == 2
  {
    var data := map["" := Entry([], 1), "a" := Entry([], 5)];
    assert OldestAsWritten(data, ["a"]) == ("a", 5) by {
      assert ["a"][..0] == [];
    }
    assert ["a", ""][..1] == ["a"];
    var one := map["" := Entry([], 1)];
    assert [""][..0] == [];
    assert OldestAsWritten(one, [""]).0 == "";
    assert one["x" := Entry([], 2)].Keys == {"", "x"};
  }

  lemma InsertSize(m: map<string, Entry>, k: string, e: Entry)
    ensures |m[k := e]| == if k in m then |m| else |m| + 1
  {
    if k in m {
      assert m[k := e].Keys == m.Keys;
    } else {
      assert m[k := e].Keys == m.Keys + {k};
    }
  }

  class MemoryCache {
    var data: map<string, Entry>
    const config: CacheConfig

    constructor (config: CacheConfig)
      ensures this.config == config && data == map[]
    {
      this.config := config;
      data := map[];
    }

    function Key(key: string): string
      reads this
    {
      KeyWithPrefix(config.keyPrefix, key)
    }

    /** A missing key, or one whose expiry is before now, is not found. */
    function Get(key: string, now: int): (r: Result<seq<Byte>>)
      reads this
      ensures r.Ok? <==> Key(key) in data && now <= data[Key(key)].expiresAt
      ensures r.Ok? ==> r.value == data[Key(key)].value
      ensures r.Err? ==> r.error == "key not found"
    {
      var k := Key(key);
      if k !in data || now > data[k].expiresAt then Err("key not found")
      else Ok(data[k].value)
    }

    function Exists(key: string, now: int): (b: bool)
      reads this
      ensures b <==> Get(key, now).Ok?
    {
      var k := Key(key);
      k in data && !(now > data[k].expiresAt)
    }

    /** The time left, when positive. */
    function GetTTL(key: string, now: int): (r: Result<int>)
      reads this
      ensures r.Ok? ==> Key(key) in data && r.value > 0 && r.value == data[Key(key)].expiresAt - now
      ensures r.Err? <==> Key(key) !in data || data[Key(key)].expiresAt - now <= 0
    {
      var k := Key(key);
      if k !in data then Err("key not found")
      else
        var ttl := data[k].expiresAt - now;
        if ttl <= 0 then Err("key not found") else Ok(ttl)
    }

    /** Removes one entry that expires first (any one of them when several
        tie); the map's iteration order is an arbitrary choice. */
    method EvictOldest()
      modifies this`data
      ensures old(data) == map[] ==> data == old(data)
      ensures old(data) != map[] ==>
        exists k :: IsOldest(old(data), k) && data == old(data) - {k}
      ensures old(data) != map[] ==> |data| == |old(data)| - 1
      ensures forall k :: k in data ==> k in old(data) && data[k] == old(data)[k]
    {
      var oldest: Option<string> := None;
      var oldestTime := ZeroTime;
      var keys := data.Keys;
      while keys != {}
        invariant keys <= data.Keys
        invariant oldest.None? ==> keys == data.Keys
        invariant oldest.Some? ==> oldest.value in data && data[oldest.value].expiresAt == oldestTime
        invariant oldest.Some? ==> forall j :: j in data.Keys - keys ==> oldestTime <= data[j].expiresAt
        decreases |keys|
      {
        var k :| k in keys;
        if oldest.None? || data[k].expiresAt < oldestTime {
          oldest, oldestTime := Some(k), data[k].expiresAt;
        }
        keys := keys - {k};
      }
      if oldest.Some? {
        assert IsOldest(data, oldest.value);
        data := data - {oldest.value};
      }
    }

    /** Stores the value until now plus the expiration (the default TTL
        when it is not positive), evicting first when the cache is full. */
    method Set(key: string, value: seq<Byte>, expiration: int, now: int)
      modifies this`data
      ensures var ttl := if expiration <= 0 then config.defaultTTL else expiration;
        Key(key) in data && data[Key(key)] == Entry(value, now + ttl)
      ensures |data| <= MaxInt(|old(data)|, MaxInt(config.maxEntries, 1))
      ensures |old(data)| < config.maxEntries ==> data == old(data)[Key(key) := data[Key(key)]]
      ensures forall k :: k in data && k != Key(key) ==> k in old(data) && data[k] == old(data)[k]
      ensures |old(data)| >= config.maxEntries && old(data) != map[] ==>
                exists oldest :: IsOldest(old(data), oldest) && data == (old(data) - {oldest})[Key(key) := data[Key(key)]]
      ensures |old(data)| >= config.maxEntries && old(data) == map[] ==> data == map[Key(key) := data[Key(key)]]
    {
      var ttl := if expiration <= 0 then config.defaultTTL else expiration;
      if |data| >= config.maxEntries {
        EvictOldest();
      }
      InsertSize(data, Key(key), Entry(value, now + ttl));
      data := data[Key(key) := Entry(value, now + ttl)];
    }

    method Delete(key: string)
      modifies this`data
      ensures data == old(data) - {Key(key)}
    {
      data := data - {Key(key)};
    }

    method Clear()
      modifies this`data
      ensures data == map[]
    {
      data := map[];
    }

    /** Stores only when there is no live entry (one expiring after now). */
    method SetNX(key: string, value: seq<Byte>, expiration: int, now: int) returns (stored: bool)
      modifies this`data
      ensures stored <==> !(old(Key(key) in data) && now < old(data)[Key(key)].expiresAt)
      ensures !stored ==> data == old(data)
      ensures stored ==> data == old(data)[Key(key) := Entry(value, now + (if expiration <= 0 then config.defaultTTL else expiration))]
    {
      var k := Key(key);
      if k in data && now < data[k].expiresAt {
        return false;
      }
      var ttl := if expiration <= 0 then config.defaultTTL else expiration;
      data := data[k := Entry(value, now + ttl)];
      return true;
    }

    /** Adds delta to the live 8-byte counter (0 when missing, expired or
        of another length), with int64 wrap-around, and stores the result
        as 8 big-endian bytes for the default TTL. */
    method Increment(key: string, delta: int, now: int) returns (newValue: int)
      requires IsInt64(delta)
      modifies this`data
      ensures var k := Key(key);
        var current := if k in old(data) && now < old(data)[k].expiresAt && |old(data)[k].value| == 8
                       then DecodeInt64(old(data)[k].value) else 0;
        newValue == WrapInt64(current + delta)
      ensures IsInt64(newValue)
      ensures data == old(data)[Key(key) := Entry(EncodeInt64(newValue), now + config.defaultTTL)]
      ensures Get(key, now).Ok? ==> DecodeInt64(Get(key, now).value) == newValue
    {
      var k := Key(key);
      var current := 0;
      if k in data && now < data[k].expiresAt {
        if |data[k].value| == 8 {
          current := DecodeInt64(data[k].value);
        }
      }
      newValue := WrapInt64(current + delta);
      CounterRoundTrip(newValue, EncodeInt64(newValue));
      data := data[k := Entry(EncodeInt64(newValue), now + config.defaultTTL)];
    }

    /** Drops exactly the entries whose expiry is before now. */
    method CleanupExpired(now: int)
      modifies this`data
      ensures data == map k | k in old(data) && !(now > old(data)[k].expiresAt) :: old(data)[k]
    {
      var keys := data.Keys;
      ghost var original := data;
      while keys != {}
        invariant keys <= original.Keys
        invariant data == map k | k in original && (k in keys || !(now > original[k].expiresAt)) :: original[k]
        decreases |keys|
      {
        var k :| k in keys;
        if now > data[k].expiresAt {
          data := data - {k};
        }
        keys := keys - {k};
      }
    }
  }
}
