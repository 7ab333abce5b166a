/** Error counters for monitoring: per code, per category, per severity and
    per HTTP status, plus a running total, with the top-N report that
    bubble-sorts the per-code counts. */
module ErrorMetricsModel {
  import opened Common
  import opened ErrorTypes

  /** Sum of the values of a map, by taking keys out one at a time. */
  ghost function Total<K>(m: map<K, int>): int
    decreases |m|
  {
    if m == map[] then 0
    else
      assert exists k :: k in m by {
        var k :| k in m.Keys;
      }
      var k :| k in m;
      m[k] + Total(m - {k})
  }

  /** Any key may be taken out first. */
  lemma {:induction false} TotalRemove<K>(m: map<K, int>, k: K)
    requires k in m
    ensures Total(m) == m[k] + Total(m - {k})
    decreases |m|
  {
    var j :| j in m && Total(m) == m[j] + Total(m - {j});
    if j != k {
      var mj := m - {j};
      var mk := m - {k};
      TotalRemove(mj, k);
      TotalRemove(mk, j);
      assert mj - {k} == mk - {j};
    }
  }

  function Get<K>(m: map<K, int>, k: K): int { if k in m then m[k] else 0 }

  /** Go's m[k]++: a missing key starts at 0. */
  function Bump<K>(m: map<K, int>, k: K): map<K, int> { m[k := Get(m, k) + 1] }

  /** Incrementing one bucket (Go's m[k]++ on a missing key starts at 0)
      adds exactly one to the total. */
  lemma IncrementTotal<K>(m: map<K, int>, k: K)
    ensures Total(Bump(m, k)) == Total(m) + 1
  {
    var m' := Bump(m, k);
    TotalRemove(m', k);
    assert m' - {k} == m - {k};
    if k in m {
      TotalRemove(m, k);
    } else {
      assert m - {k} == m;
    }
  }

  datatype ErrorCount = ErrorCount(code: string, count: int)

  predicate SortedByCountDesc(s: seq<ErrorCount>)
  {
    forall i, j :: 0 <= i < j < |s| ==> s[i].count >= s[j].count
  }

  predicate DistinctCodes(s: seq<ErrorCount>)
  {
    forall i, j :: 0 <= i < j < |s| ==> s[i].code != s[j].code
  }

  /** Places from..|s| are in order, and no earlier place holds a smaller count. */
  predicate SettledFrom(s: seq<ErrorCount>, from: int)
  {
    (forall p, q :: 0 <= p && from <= p < q < |s| ==> s[p].count >= s[q].count)
    && (forall p, q :: 0 <= p < from <= q < |s| ==> s[p].count >= s[q].count)
  }

  lemma SettledAll(s: seq<ErrorCount>)
    requires SettledFrom(s, 1) || SettledFrom(s, 0)
    ensures SortedByCountDesc(s)
  {
  }

  /** The bubble sort of GetTopErrors: passes of adjacent swaps while the
      left count is smaller; the result is ordered by count, largest first,
      and is a permutation of the input. */
  method BubbleSortByCount(a: array<ErrorCount>)
    modifies a
    ensures SortedByCountDesc(a[..])
    ensures multiset(a[..]) == multiset(old(a[..]))
  {
    var n := a.Length;
    var i := 0;
    while i < n - 1
      invariant 0 <= i <= if n == 0 then 0 else n - 1
      invariant multiset(a[..]) == multiset(old(a[..]))
      invariant SettledFrom(a[..], n - i)
    {
      BubblePass(a, n - i);
      i := i + 1;
    }
    SettledAll(a[..]);
  }

  /** Compare-and-swap of places j and j + 1. */
  function PassStep(s: seq<ErrorCount>, j: int): seq<ErrorCount>
    requires 0 <= j < |s| - 1
  {
    if s[j].count < s[j + 1].count then s[j := s[j + 1]][j + 1 := s[j]] else s
  }

  /** Place j holds the smallest count of places 0..j. */
  predicate SmallestAt(s: seq<ErrorCount>, j: int)
    requires 0 <= j < |s|
  {
    forall p :: 0 <= p < j ==> s[p].count >= s[j].count
  }

  lemma PassStepKeeps(s: seq<ErrorCount>, j: int, end: int)
    requires 0 <= j < end - 1 && end <= |s|
    requires SettledFrom(s, end) && SmallestAt(s, j)
    ensures SettledFrom(PassStep(s, j), end) && SmallestAt(PassStep(s, j), j + 1)
    ensures multiset(PassStep(s, j)) == multiset(s)
  {
    var t := PassStep(s, j);
    if s[j].count < s[j + 1].count {
      assert t == s[j := s[j + 1]][j + 1 := s[j]];
      assert forall p :: 0 <= p < |s| && p != j && p != j + 1 ==> t[p] == s[p];
    }
  }

  /** The compare-and-swap of a pass, in place. */
  method SwapIfSmaller(a: array<ErrorCount>, j: int)
    requires 0 <= j < a.Length - 1
    modifies a
    ensures a[..] == PassStep(old(a[..]), j)
  {
    if a[j].count < a[j + 1].count {
      a[j], a[j + 1] := a[j + 1], a[j];
    }
  }

  /** One pass over a[0..end]: the smallest count of that range sinks to
      place end - 1. */
  method BubblePass(a: array<ErrorCount>, end: int)
    requires 1 <= end <= a.Length
    requires SettledFrom(a[..], end)
    modifies a
    ensures SettledFrom(a[..], end - 1)
    ensures multiset(a[..]) == multiset(old(a[..]))
  {
    var j := 0;
    while j < end - 1
      invariant 0 <= j <= end - 1
      invariant multiset(a[..]) == multiset(old(a[..]))
      invariant SmallestAt(a[..], j)
      invariant SettledFrom(a[..], end)
    {
      ghost var s := a[..];
      SwapIfSmaller(a, j);
      PassStepKeeps(s, j, end);
      j := j + 1;
    }
  }

  lemma {:induction false} DistinctMultiplicity(s: seq<ErrorCount>, x: ErrorCount)
    requires DistinctCodes(s)
    ensures multiset(s)[x] <= 1
  {
    if s != [] {
      assert s == [s[0]] + s[1..];
      DistinctMultiplicity(s[1..], x);
      if x == s[0] {
        assert x !in s[1..];
      }
    }
  }

  lemma DuplicateMultiplicity(s: seq<ErrorCount>, i: int, j: int)
    requires 0 <= i < j < |s| && s[i] == s[j]
    ensures multiset(s)[s[i]] >= 2
  {
    assert s == s[..j] + [s[j]] + s[j + 1..];
    assert s[i] in s[..j];
  }

  /** A permutation of entries that agree with a map on the count keeps
      distinct codes distinct. */
  lemma PermutationKeepsDistinct(es: seq<ErrorCount>, s: seq<ErrorCount>, m: map<string, int>)
    requires DistinctCodes(es)
    requires forall k :: 0 <= k < |es| ==> es[k].code in m && es[k].count == m[es[k].code]
    requires multiset(s) == multiset(es)
    ensures DistinctCodes(s)
  {
    forall i, j | 0 <= i < j < |s| ensures s[i].code != s[j].code {
      if s[i].code == s[j].code {
        assert s[i] in multiset(es) && s[j] in multiset(es);
        assert s[i] == s[j];
        DuplicateMultiplicity(s, i, j);
        DistinctMultiplicity(es, s[i]);
      }
    }
  }

  function Codes(es: seq<ErrorCount>): set<string>
  {
    if es == [] then {} else Codes(es[..|es| - 1]) + {es[|es| - 1].code}
  }

  lemma {:induction false} CodesMember(es: seq<ErrorCount>, c: string)
    ensures c in Codes(es) <==> exists k :: 0 <= k < |es| && es[k].code == c
  {
    if es != [] {
      CodesMember(es[..|es| - 1], c);
      if c in Codes(es[..|es| - 1]) {
        var k :| 0 <= k < |es| - 1 && es[..|es| - 1][k].code == c;
        assert es[k].code == c;
      }
    }
  }

  /** The four counters agree with the total: every recorded error is
      counted once in each of them. */
  ghost predicate Counted(ec: map<string, int>, cc: map<string, int>, sc: map<string, int>, hc: map<int, int>,
                          total: int)
  {
    Total(ec) == total && Total(cc) == total && Total(sc) == total && Total(hc) == total
  }

  lemma RecordKeepsTotals(ec: map<string, int>, cc: map<string, int>, sc: map<string, int>, hc: map<int, int>,
                          total: int, code: string, cat: string, sev: string, status: int)
    requires Counted(ec, cc, sc, hc, total)
    ensures Counted(Bump(ec, code), Bump(cc, cat), Bump(sc, sev), Bump(hc, status), total + 1)
  {
    IncrementTotal(ec, code);
    IncrementTotal(cc, cat);
    IncrementTotal(sc, sev);
    IncrementTotal(hc, status);
  }

  class ErrorMetrics {
    var errorCounts: map<string, int>
    var categoryCounts: map<string, int>
    var severityCounts: map<string, int>
    var httpStatusCounts: map<int, int>
    var totalErrors: int
    var lastReset: int

    /** Every recorded error is counted once in each of the four maps. */
    ghost predicate Valid()
      reads this
    {
      Counted(errorCounts, categoryCounts, severityCounts, httpStatusCounts, totalErrors)
    }

    constructor (now: int)
      ensures Valid()
      ensures errorCounts == map[] && categoryCounts == map[] && severityCounts == map[]
      ensures httpStatusCounts == map[] && totalErrors == 0 && lastReset == now
    {
      errorCounts, categoryCounts, severityCounts := map[], map[], map[];
      httpStatusCounts, totalErrors, lastReset := map[], 0, now;
    }

    /** A nil error changes nothing; otherwise one bucket of each map, chosen
        by the code and its category, severity and status, grows by one. */
    method RecordError(appErr: AppError?)
      requires Valid()
      modifies this
      ensures Valid()
      ensures appErr == null ==>
        errorCounts == old(errorCounts) && categoryCounts == old(categoryCounts)
        && severityCounts == old(severityCounts) && httpStatusCounts == old(httpStatusCounts)
        && totalErrors == old(totalErrors)
      ensures appErr != null ==>
        var code := old(appErr.code);
        errorCounts == Bump(old(errorCounts), code)
        && categoryCounts == Bump(old(categoryCounts), GetCategory(code))
        && severityCounts == Bump(old(severityCounts), GetSeverity(code))
        && httpStatusCounts == Bump(old(httpStatusCounts), GetHTTPStatus(code))
        && totalErrors == old(totalErrors) + 1
      ensures lastReset == old(lastReset)
    {
      if appErr == null {
        return;
      }
      var code := appErr.code;
      Count(code, GetCategory(code), GetSeverity(code), GetHTTPStatus(code));
    }

    /** Counts one error under its code, category, severity and status. */
    method Count(code: string, cat: string, sev: string, status: int)
      requires Valid()
      modifies this
      ensures Valid()
      ensures errorCounts == Bump(old(errorCounts), code)
      ensures categoryCounts == Bump(old(categoryCounts), cat)
      ensures severityCounts == Bump(old(severityCounts), sev)
      ensures httpStatusCounts == Bump(old(httpStatusCounts), status)
      ensures totalErrors == old(totalErrors) + 1
      ensures lastReset == old(lastReset)
    {
      var ec := Bump(errorCounts, code);
      var cc := Bump(categoryCounts, cat);
      var sc := Bump(severityCounts, sev);
      var hc := Bump(httpStatusCounts, status);
      RecordKeepsTotals(errorCounts, categoryCounts, severityCounts, httpStatusCounts, totalErrors, code, cat, sev, status);
      errorCounts, categoryCounts, severityCounts, httpStatusCounts := ec, cc, sc, hc;
      totalErrors := totalErrors + 1;
    }

    /** The total equals the sum of the per-code counts. */
    function GetTotalErrors(): (n: int)
      reads this
      requires Valid()
      ensures n == Total(errorCounts)
      ensures n == Total(httpStatusCounts)
    {
      totalErrors
    }

    method Reset(now: int)
      modifies this
      ensures Valid()
      ensures errorCounts == map[] && categoryCounts == map[] && severityCounts == map[]
      ensures httpStatusCounts == map[] && totalErrors == 0 && lastReset == now
    {
      errorCounts, categoryCounts, severityCounts := map[], map[], map[];
      httpStatusCounts, totalErrors, lastReset := map[], 0, now;
    }

    /** Collects the per-code counts in map iteration order (any order). */
    method CountEntries() returns (es: seq<ErrorCount>)
      ensures |es| == |errorCounts|
      ensures DistinctCodes(es)
      ensures forall k :: 0 <= k < |es| ==> es[k].code in errorCounts && es[k].count == errorCounts[es[k].code]
      ensures Codes(es) == errorCounts.Keys
    {
      es := [];
      var remaining := errorCounts.Keys;
      while remaining != {}
        invariant remaining <= errorCounts.Keys
        invariant |es| + |remaining| == |errorCounts|
        invariant DistinctCodes(es)
        invariant forall k :: 0 <= k < |es| ==> es[k].code in errorCounts && es[k].count == errorCounts[es[k].code]
        invariant forall k :: 0 <= k < |es| ==> es[k].code !in remaining
        invariant Codes(es) == errorCounts.Keys - remaining
        decreases |remaining|
      {
        var c :| c in remaining;
        var es' := es + [ErrorCount(c, errorCounts[c])];
        assert es'[..|es'| - 1] == es;
        es := es';
        remaining := remaining - {c};
      }
    }

    /** The most frequent codes, largest count first, cut to `limit` when
        0 < limit < number of codes. No omitted code has a larger count than
        a returned one. */
    method GetTopErrors(limit: int) returns (top: seq<ErrorCount>)
      ensures |top| == if 0 < limit < |errorCounts| then limit else |errorCounts|
      ensures SortedByCountDesc(top)
      ensures DistinctCodes(top)
      ensures forall k :: 0 <= k < |top| ==> top[k].code in errorCounts && top[k].count == errorCounts[top[k].code]
      ensures forall c, k :: c in errorCounts && c !in Codes(top) && 0 <= k < |top| ==> errorCounts[c] <= top[k].count
    {
      var es := CountEntries();
      var a := new ErrorCount[|es|](i requires 0 <= i < |es| => es[i]);
      assert a[..] == es;
      BubbleSortByCount(a);
      var n := if 0 < limit < a.Length then limit else a.Length;
      top := a[..n];
      TopOfPermutation(es, a[..], n, errorCounts);
    }
  }

  /** The first n entries of a sorted permutation of the map's entries are
      n of its entries, and every code left out has a count no larger than
      any kept one. */
  lemma TopOfPermutation(es: seq<ErrorCount>, sorted: seq<ErrorCount>, n: int, m: map<string, int>)
    requires DistinctCodes(es) && Codes(es) == m.Keys
    requires forall k :: 0 <= k < |es| ==> es[k].code in m && es[k].count == m[es[k].code]
    requires multiset(sorted) == multiset(es) && SortedByCountDesc(sorted)
    requires 0 <= n <= |sorted|
    ensures DistinctCodes(sorted[..n])
    ensures forall k :: 0 <= k < n ==> sorted[k].code in m && sorted[k].count == m[sorted[k].code]
    ensures forall c, k :: c in m && c !in Codes(sorted[..n]) && 0 <= k < n ==> m[c] <= sorted[k].count
  {
    PermutationKeepsDistinct(es, sorted, m);
    PermutationAgrees(es, sorted, m);
    forall c, k | c in m && c !in Codes(sorted[..n]) && 0 <= k < n
      ensures m[c] <= sorted[k].count
    {
      OmittedNotLarger(es, sorted, n, m, c, k);
    }
  }

  lemma PermutationAgrees(es: seq<ErrorCount>, sorted: seq<ErrorCount>, m: map<string, int>)
    requires forall k :: 0 <= k < |es| ==> es[k].code in m && es[k].count == m[es[k].code]
    requires multiset(sorted) == multiset(es)
    ensures forall k :: 0 <= k < |sorted| ==> sorted[k].code in m && sorted[k].count == m[sorted[k].code]
  {
    forall k | 0 <= k < |sorted|
      ensures sorted[k].code in m && sorted[k].count == m[sorted[k].code]
    {
      assert sorted[k] in multiset(es);
    }
  }

  lemma OmittedNotLarger(es: seq<ErrorCount>, sorted: seq<ErrorCount>, n: int, m: map<string, int>, c: string, k: int)
    requires Codes(es) == m.Keys
    requires forall k :: 0 <= k < |es| ==> es[k].code in m && es[k].count == m[es[k].code]
    requires multiset(sorted) == multiset(es) && SortedByCountDesc(sorted)
    requires 0 <= k < n <= |sorted|
    requires c in m && c !in Codes(sorted[..n])
    ensures m[c] <= sorted[k].count
  {
    CodesMember(es, c);
    var e :| 0 <= e < |es| && es[e].code == c;
    assert es[e] in multiset(sorted);
    var idx :| 0 <= idx < |sorted| && sorted[idx] == es[e];
    CodesMember(sorted[..n], c);
    assert forall i :: 0 <= i < n ==> sorted[..n][i].code != c;
    assert idx >= n;
  }
}
