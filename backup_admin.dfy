/** The backup administration command's list and cleanup logic: its
    duration syntax with a day suffix, the three listing orders, the listing
    limit, and the choice of backups old enough to delete. Directory
    scanning, printing, prompting and file removal are outside the model;
    removal outcomes come in as parameters. Instants and durations are
    nanoseconds. */
module BackupAdmin {
  import opened Common

  datatype BackupInfo = BackupInfo(name: string, size: int, modTime: int)

  /** strconv.Atoi's error for text it refuses: a sign and digits whose
      value does not fit in int64 are out of range, anything else is bad
      syntax. The text is quoted as strconv.Quote does for printable text
      without quotes or backslashes. */
  function AtoiError(t: string): (e: string)
    ensures HasPrefix(e, "strconv.Atoi: parsing \"" + t + "\": ")
  {
    var body := if t != [] && (t[0] == '+' || t[0] == '-') then t[1..] else t;
    var reason := if body != [] && AllDigits(body) then "value out of range" else "invalid syntax";
    "strconv.Atoi: parsing \"" + t + "\": " + reason
  }

  /** parseDuration: "<N>d" is N days, N an integer as strconv.Atoi reads
      it, with Go's int64 wrap-around on the multiplication; any other text
      goes to time.ParseDuration, given here as `goParse`. */
  function ParseDuration(s: string, goParse: string -> Result<int>): (r: Result<int>)
    ensures HasSuffix(s, "d") ==> (r.Ok? <==> ParseInt(s[..|s| - 1]).Some?)
    ensures HasSuffix(s, "d") && r.Ok? ==>
      r.value == WrapInt64(WrapInt64(ParseInt(s[..|s| - 1]).value * 24) * Hour)
    ensures HasSuffix(s, "d") && r.Err? ==> r.error == AtoiError(s[..|s| - 1])
    ensures !HasSuffix(s, "d") ==> r == goParse(s)
  {
    if HasSuffix(s, "d") then
      match ParseInt(s[..|s| - 1])
      case None => Err(AtoiError(s[..|s| - 1]))
      case Some(days) => Ok(WrapInt64(WrapInt64(days * 24) * Hour))
    else goParse(s)
  }

  /** The largest day count whose duration fits in int64. */
  const MaxDays: int := 106751

  /** Day counts in range read back exactly: "Nd" is N times 24 hours. */
  lemma DaysParse(n: int, goParse: string -> Result<int>)
    requires -MaxDays <= n <= MaxDays
    ensures ParseDuration(Decimal(n) + "d", goParse) == Ok(n * 24 * Hour)
  {
    var s := Decimal(n) + "d";
    assert s[..|s| - 1] == Decimal(n);
    assert HasSuffix(s, "d");
    DecimalParses(n);
    DayProductFits(n);
  }

  lemma DayProductFits(n: int)
    requires -MaxDays <= n <= MaxDays
    ensures IsInt64(n * 24) && IsInt64(n * 24 * Hour)
  {
    assert n * 24 * Hour == n * 86_400_000_000_000;
  }

  /** A day count that is not an integer is an error, not a duration. */
  lemma FractionalDaysRefused(goParse: string -> Result<int>)
    ensures ParseDuration("1.5d", goParse).Err?
  {
    var s := "1.5d";
    assert s[..|s| - 1] == "1.5";
    assert !IsAsciiDigit("1.5"[1]);
  }

  // -------------------------------------------------------------------
  // Listing
  // -------------------------------------------------------------------

  datatype SortKey = ByDate | ByName | BySize

  /** The -sort flag; any other value leaves the scan order. */
  function SortKeyOf(flag: string): (k: Option<SortKey>)
    ensures k.Some? <==> flag in {"date", "name", "size"}
  {
    if flag == "date" then Some(ByDate)
    else if flag == "name" then Some(ByName)
    else if flag == "size" then Some(BySize)
    else None
  }

  /** The less function handed to the sort: newer first, names ascending,
      larger first. */
  predicate Less(k: SortKey, x: BackupInfo, y: BackupInfo)
  {
    match k
    case ByDate => x.modTime > y.modTime
    case ByName => StrLt(x.name, y.name)
    case BySize => x.size > y.size
  }

  /** x may come before y. */
  predicate Le(k: SortKey, x: BackupInfo, y: BackupInfo)
  {
    match k
    case ByDate => x.modTime >= y.modTime
    case ByName => StrLe(x.name, y.name)
    case BySize => x.size >= y.size
  }

  /** What a sort by `less` guarantees: no element is less than one before
      it. */
  predicate SortedBy(k: SortKey, s: seq<BackupInfo>)
  {
    forall i, j :: 0 <= i < j < |s| ==> !Less(k, s[j], s[i])
  }

  lemma LeIsNotLess(k: SortKey, x: BackupInfo, y: BackupInfo)
    ensures Le(k, x, y) <==> !Less(k, y, x)
  {
    if k == ByName {
      StrLtTotal(x.name, y.name);
      StrLtAsymmetric(x.name, y.name);
      StrLtIrreflexive(x.name);
    }
  }

  lemma LeTotal(k: SortKey, x: BackupInfo, y: BackupInfo)
    ensures Le(k, x, y) || Le(k, y, x)
  {
    if k == ByName {
      StrLtTotal(x.name, y.name);
    }
  }

  lemma LeTransitive(k: SortKey, x: BackupInfo, y: BackupInfo, z: BackupInfo)
    requires Le(k, x, y) && Le(k, y, z)
    ensures Le(k, x, z)
  {
    if k == ByName && x.name != y.name && y.name != z.name {
      StrLtTransitive(x.name, y.name, z.name);
    }
  }

  /** The index of an element of a[from..] that may precede all the
      others. */
  method SelectFirst(a: array<BackupInfo>, k: SortKey, from: int) returns (m: int)
    requires 0 <= from < a.Length
    ensures from <= m < a.Length
    ensures forall q :: from <= q < a.Length ==> Le(k, a[m], a[q])
  {
    m := from;
    var q := from + 1;
    LeIsNotLess(k, a[m], a[m]);
    while q < a.Length
      invariant from <= m < q <= a.Length
      invariant forall p :: from <= p < q ==> Le(k, a[m], a[p])
    {
      if Less(k, a[q], a[m]) {
        LeIsNotLess(k, a[q], a[m]);
        LeTotal(k, a[q], a[m]);
        forall p | from <= p < q
          ensures Le(k, a[q], a[p])
        {
          LeTransitive(k, a[q], a[m], a[p]);
        }
        m := q;
      } else {
        LeIsNotLess(k, a[m], a[q]);
      }
      q := q + 1;
    }
  }

  /** The first i elements are in order. */
  predicate OrderedPrefix(k: SortKey, s: seq<BackupInfo>, i: int)
    requires 0 <= i <= |s|
  {
    forall p, q :: 0 <= p < q < i ==> Le(k, s[p], s[q])
  }

  /** Each of the first i elements may precede every later one. */
  predicate Partitioned(k: SortKey, s: seq<BackupInfo>, i: int)
    requires 0 <= i <= |s|
  {
    forall p, q :: 0 <= p < i <= q < |s| ==> Le(k, s[p], s[q])
  }

  /** Moving the first element of the unsorted part to position i extends
      the sorted prefix. */
  lemma SwapKeepsOrder(k: SortKey, s: seq<BackupInfo>, t: seq<BackupInfo>, i: int, m: int)
    requires 0 <= i <= m < |s|
    requires t == s[i := s[m]][m := s[i]]
    requires OrderedPrefix(k, s, i) && Partitioned(k, s, i)
    requires forall q :: i <= q < |s| ==> Le(k, s[m], s[q])
    ensures OrderedPrefix(k, t, i + 1) && Partitioned(k, t, i + 1)
    ensures multiset(t) == multiset(s)
  {
    forall p, q | 0 <= p < i + 1 <= q < |t|
      ensures Le(k, t[p], t[q])
    {
      if p < i {
        assert t[p] == s[p];
        assert t[q] == s[q] || t[q] == s[i];
      } else {
        assert t[p] == s[m];
        assert t[q] == s[q] || t[q] == s[i];
      }
    }
    forall p, q | 0 <= p < q < i + 1
      ensures Le(k, t[p], t[q])
    {
      if q < i {
        assert t[p] == s[p] && t[q] == s[q];
      } else {
        assert t[p] == s[p] && t[q] == s[m];
      }
    }
  }

  /** The sort of the listing, in place: sorted by the key's less function
      and a permutation of what was scanned. */
  method SortBackups(a: array<BackupInfo>, k: SortKey)
    modifies a
    ensures SortedBy(k, a[..])
    ensures multiset(a[..]) == multiset(old(a[..]))
  {
    var i := 0;
    while i < a.Length
      invariant 0 <= i <= a.Length
      invariant multiset(a[..]) == multiset(old(a[..]))
      invariant OrderedPrefix(k, a[..], i) && Partitioned(k, a[..], i)
    {
      var m := SelectFirst(a, k, i);
      ghost var before := a[..];
      assert forall q :: i <= q < |before| ==> Le(k, before[m], before[q]);
      a[i], a[m] := a[m], a[i];
      assert a[..] == before[i := before[m]][m := before[i]];
      SwapKeepsOrder(k, before, a[..], i, m);
      i := i + 1;
    }
    SortedFromOrdered(k, a[..]);
  }

  lemma SortedFromOrdered(k: SortKey, s: seq<BackupInfo>)
    requires OrderedPrefix(k, s, |s|)
    ensures SortedBy(k, s)
  {
    forall p, q | 0 <= p < q < |s|
      ensures !Less(k, s[q], s[p])
    {
      LeIsNotLess(k, s[p], s[q]);
    }
  }

  /** The -limit flag: a positive limit below the count keeps that many
      from the front. */
  function Limit(backups: seq<BackupInfo>, limit: int): (r: seq<BackupInfo>)
    ensures |r| == if 0 < limit < |backups| then limit else |backups|
    ensures r == backups[..|r|]
  {
    if limit > 0 && |backups| > limit then backups[..limit] else backups
  }

  /** The list command after scanning: the backups sorted in place when
      the flag names an order, then the first `limit` of them. */
  method ListBackups(a: array<BackupInfo>, sortFlag: string, limit: int) returns (shown: seq<BackupInfo>)
    modifies a
    ensures SortKeyOf(sortFlag).Some? ==> SortedBy(SortKeyOf(sortFlag).value, a[..])
    ensures SortKeyOf(sortFlag).None? ==> a[..] == old(a[..])
    ensures multiset(a[..]) == multiset(old(a[..]))
    ensures shown == Limit(a[..], limit)
  {
    var key := SortKeyOf(sortFlag);
    if key.Some? {
      SortBackups(a, key.value);
    }
    shown := Limit(a[..], limit);
  }

  // -------------------------------------------------------------------
  // Cleanup
  // -------------------------------------------------------------------

  /** The backups modified strictly before the cutoff, in scan order. */
  function OlderThan(backups: seq<BackupInfo>, cutoff: int): (r: seq<BackupInfo>)
    ensures |r| <= |backups|
    ensures forall b :: b in r <==> b in backups && b.modTime < cutoff
  {
    if backups == [] then []
    else
      var last := backups[|backups| - 1];
      var front := backups[..|backups| - 1];
      assert backups == front + [last];
      OlderThan(front, cutoff) + (if last.modTime < cutoff then [last] else [])
  }

  /** Selecting old backups keeps them in the order they were scanned:
      filtering a concatenation filters each part. */
  lemma {:induction false} OlderThanAppend(x: seq<BackupInfo>, y: seq<BackupInfo>, cutoff: int)
    ensures OlderThan(x + y, cutoff) == OlderThan(x, cutoff) + OlderThan(y, cutoff)
    decreases |y|
  {
    if y == [] {
      assert x + y == x;
    } else {
      var yf := y[..|y| - 1];
      assert (x + y)[..|x + y| - 1] == x + yf;
      OlderThanAppend(x, yf, cutoff);
    }
  }

  /** The cleanup's selection: the backups last modified before now minus
      the duration. */
  method SelectOldBackups(backups: seq<BackupInfo>, now: int, duration: int) returns (oldBackups: seq<BackupInfo>)
    ensures oldBackups == OlderThan(backups, now - duration)
  {
    var cutoff := now - duration;
    oldBackups := [];
    var i := 0;
    while i < |backups|
      invariant 0 <= i <= |backups|
      invariant oldBackups == OlderThan(backups[..i], cutoff)
    {
      assert backups[..i + 1][..i] == backups[..i];
      if backups[i].modTime < cutoff {
        oldBackups := oldBackups + [backups[i]];
      }
      i := i + 1;
    }
    assert backups[..i] == backups;
  }

  /** Total bytes to be freed. */
  function TotalSize(backups: seq<BackupInfo>): int
  {
    if backups == [] then 0 else TotalSize(backups[..|backups| - 1]) + backups[|backups| - 1].size
  }

  /** The number of removals that succeeded. */
  function CountRemoved(results: seq<Option<string>>): (n: nat)
    ensures n <= |results|
    ensures n == |results| <==> forall i :: 0 <= i < |results| ==> results[i].None?
  {
    if results == [] then 0
    else CountRemoved(results[..|results| - 1]) + (if results[|results| - 1].None? then 1 else 0)
  }

  /** The deletion loop: each selected backup is removed, a failure is
      reported and skipped; `results[i]` is the outcome of removing the i-th
      one. The total freed is reported before deleting. */
  method DeleteOldBackups(oldBackups: seq<BackupInfo>, results: seq<Option<string>>) returns (deleted: nat, totalSize: int)
    requires |results| == |oldBackups|
    ensures deleted == CountRemoved(results)
    ensures totalSize == TotalSize(oldBackups)
  {
    totalSize := 0;
    var i := 0;
    while i < |oldBackups|
      invariant 0 <= i <= |oldBackups|
      invariant totalSize == TotalSize(oldBackups[..i])
    {
      assert oldBackups[..i + 1][..i] == oldBackups[..i];
      totalSize := totalSize + oldBackups[i].size;
      i := i + 1;
    }
    assert oldBackups[..i] == oldBackups;
    deleted := 0;
    i := 0;
    while i < |results|
      invariant 0 <= i <= |results|
      invariant deleted == CountRemoved(results[..i])
    {
      assert results[..i + 1][..i] == results[..i];
      if results[i].None? {
        deleted := deleted + 1;
      }
      i := i + 1;
    }
    assert results[..i] == results;
  }
}
