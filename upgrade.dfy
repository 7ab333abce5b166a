/** Application versions and upgrade notifications: dotted version strings
    are validated and parsed character by character, compared as triples,
    classified as major, minor or patch, and kept in a registry whose
    current version is always the newest one added. */
module Upgrade {
  import opened Common

  // ---------------------------------------------------------------------
  // Version strings
  // ---------------------------------------------------------------------

  /** Non-empty, only digits and dots, and exactly two dots. */
  predicate ValidFormat(v: string)
  {
    |v| > 0
    && (forall i :: 0 <= i < |v| ==> v[i] == '.' || IsAsciiDigit(v[i]))
    && CountChar(v, '.') == 2
  }

  /** The character scan: rejects at the first character that is neither
      a digit nor a dot, and counts the dots. */
  method IsValidVersionFormat(v: string) returns (ok: bool)
    ensures ok == ValidFormat(v)
  {
    if |v| == 0 {
      return false;
    }
    var dots := 0;
    var i := 0;
    while i < |v|
      invariant 0 <= i <= |v|
      invariant forall j :: 0 <= j < i ==> v[j] == '.' || IsAsciiDigit(v[j])
      invariant dots + CountChar(v[i..], '.') == CountChar(v, '.')
    {
      assert v[i..] == [v[i]] + v[i + 1..];
      if v[i] == '.' {
        dots := dots + 1;
      } else if v[i] < '0' || v[i] > '9' {
        return false;
      }
      i := i + 1;
    }
    return dots == 2;
  }

  /** The state of the parsing scan: three parts, the index of the part
      being read, and the number read so far. */
  datatype ScanState = ScanState(parts: seq<int>, current: nat, number: nat)

  predicate WellFormed(st: ScanState) { |st.parts| == 3 && st.current <= 3 }

  /** One character of the scan: a dot stores the number into the current
      part while fewer than three parts are filled, a digit extends the
      number, and anything else is ignored. */
  function Step(st: ScanState, c: char): (r: ScanState)
    requires WellFormed(st)
    ensures WellFormed(r)
  {
    if c == '.' then
      if st.current < 3 then ScanState(st.parts[st.current := st.number], st.current + 1, 0)
      else st
    else if '0' <= c <= '9' then st.(number := st.number * 10 + (c as int - '0' as int))
    else st
  }

  function Scan(s: string): (st: ScanState)
    ensures WellFormed(st)
    decreases |s|
  {
    if s == [] then ScanState([0, 0, 0], 0, 0)
    else Step(Scan(s[..|s| - 1]), s[|s| - 1])
  }

  /** The three numeric parts of a version string; the last number read
      goes into the current part when one is left. */
  function Parse(s: string): (p: seq<int>)
    ensures |p| == 3
  {
    var st := Scan(s);
    if st.current < 3 then st.parts[st.current := st.number] else st.parts
  }

  /** The character loop, proved to compute Parse. */
  method ParseVersion(s: string) returns (parts: seq<int>)
    ensures parts == Parse(s)
  {
    parts := [0, 0, 0];
    var currentPart: nat := 0;
    var currentNumber: nat := 0;
    var i := 0;
    while i < |s|
      invariant 0 <= i <= |s|
      invariant ScanState(parts, currentPart, currentNumber) == Scan(s[..i])
    {
      assert s[..i + 1][..i] == s[..i];
      var c := s[i];
      if c == '.' {
        if currentPart < 3 {
          parts := parts[currentPart := currentNumber];
          currentPart := currentPart + 1;
          currentNumber := 0;
        }
      } else if c >= '0' && c <= '9' {
        currentNumber := currentNumber * 10 + (c as int - '0' as int);
      }
      i := i + 1;
    }
    assert s[..i] == s;
    if currentPart < 3 {
      parts := parts[currentPart := currentNumber];
    }
  }

  /** Reading a run of digits after a point where the number is 0 leaves the
      parts alone and makes the number the run's decimal value. */
  lemma {:induction false} ScanDigits(pre: string, ds: string)
    requires AllDigits(ds)
    requires Scan(pre).number == 0
    ensures Scan(pre + ds) == Scan(pre).(number := DigitsValue(ds))
    decreases |ds|
  {
    if ds == [] {
      assert pre + ds == pre;
    } else {
      var n := |ds|;
      assert (pre + ds)[..|pre + ds| - 1] == pre + ds[..n - 1];
      ScanDigits(pre, ds[..n - 1]);
    }
  }

  /** Reading a dot while fewer than three parts are filled. */
  lemma ScanDot(pre: string)
    requires Scan(pre).current < 3
    ensures Scan(pre + ".") == ScanState(Scan(pre).parts[Scan(pre).current := Scan(pre).number], Scan(pre).current + 1, 0)
  {
    assert (pre + ".")[..|pre + "."| - 1] == pre;
  }

  /** "x.y" with digit runs x and y fills the first part with x's value
      and is reading y's. */
  lemma ScanFirstTwo(x: string, y: string)
    requires AllDigits(x) && AllDigits(y)
    ensures Scan(x + "." + y) == ScanState([DigitsValue(x), 0, 0], 1, DigitsValue(y))
  {
    var X := DigitsValue(x);
    ScanDigits("", x);
    assert "" + x == x;
    assert Scan(x) == ScanState([0, 0, 0], 0, X);
    ScanDot(x);
    assert [0, 0, 0][0 := X] == [X, 0, 0];
    assert Scan(x + ".") == ScanState([X, 0, 0], 1, 0);
    ScanDigits(x + ".", y);
  }

  /** "x.y.z" with digit runs x, y and z parses to their three values. */
  lemma ParseDotted(x: string, y: string, z: string)
    requires AllDigits(x) && AllDigits(y) && AllDigits(z)
    ensures Parse(x + "." + y + "." + z) == [DigitsValue(x), DigitsValue(y), DigitsValue(z)]
  {
    var X, Y, Z := DigitsValue(x), DigitsValue(y), DigitsValue(z);
    var b, c := x + "." + y, x + "." + y + ".";
    ScanFirstTwo(x, y);
    ScanDot(b);
    assert [X, 0, 0][1 := Y] == [X, Y, 0];
    assert Scan(c) == ScanState([X, Y, 0], 2, 0);
    ScanDigits(c, z);
    assert Scan(c + z) == ScanState([X, Y, 0], 2, Z);
  }

  /** A valid version is three digit runs joined by dots. */
  lemma ValidFormatPieces(v: string) returns (x: string, y: string, z: string)
    requires ValidFormat(v)
    ensures AllDigits(x) && AllDigits(y) && AllDigits(z)
    ensures v == x + "." + y + "." + z
  {
    var r := Split(v, '.');
    assert |r| == 3;
    x, y, z := r[0], r[1], r[2];
    assert r[1..][1..] == [z];
    assert Join(r[1..][1..], '.') == z;
    assert Join(r[1..], '.') == y + "." + z;
    assert v == Join(r, '.') == x + "." + (y + "." + z);
    forall i | 0 <= i < |x| ensures IsAsciiDigit(x[i]) {
      assert v[i] == x[i] && x[i] != '.';
    }
    forall i | 0 <= i < |y| ensures IsAsciiDigit(y[i]) {
      assert v[|x| + 1 + i] == y[i] && y[i] != '.';
    }
    forall i | 0 <= i < |z| ensures IsAsciiDigit(z[i]) {
      assert v[|x| + |y| + 2 + i] == z[i] && z[i] != '.';
    }
  }

  /** v is x.y.z with digit runs x, y, z and parses to their values. */
  predicate ReadsAs(v: string, x: string, y: string, z: string)
  {
    AllDigits(x) && AllDigits(y) && AllDigits(z)
    && v == x + "." + y + "." + z && Parse(v) == [DigitsValue(x), DigitsValue(y), DigitsValue(z)]
  }

  /** Every valid version parses to the decimal values of its three pieces. */
  lemma ParseValid(v: string)
    requires ValidFormat(v)
    ensures exists x, y, z :: ReadsAs(v, x, y, z)
  {
    var x, y, z := ValidFormatPieces(v);
    ParseDotted(x, y, z);
    assert ReadsAs(v, x, y, z);
  }

  // ---------------------------------------------------------------------
  // Ordering and classification
  // ---------------------------------------------------------------------

  /** Lexicographic "greater than" on three parts. */
  predicate Gt(a: seq<int>, b: seq<int>)
    requires |a| == 3 && |b| == 3
  {
    a[0] > b[0] || (a[0] == b[0] && (a[1] > b[1] || (a[1] == b[1] && a[2] > b[2])))
  }

  predicate Newer(v1: string, v2: string) { Gt(Parse(v1), Parse(v2)) }

  /** The part-by-part loop, proved to decide Gt. */
  method IsNewerVersion(v1: string, v2: string) returns (b: bool)
    ensures b == Newer(v1, v2)
  {
    var p1 := ParseVersion(v1);
    var p2 := ParseVersion(v2);
    var i := 0;
    while i < 3
      invariant 0 <= i <= 3
      invariant forall j :: 0 <= j < i ==> p1[j] == p2[j]
    {
      if p1[i] > p2[i] {
        return true;
      } else if p1[i] < p2[i] {
        assert forall k :: 0 <= k < 3 && p1[k] > p2[k] ==> k > i;
        return false;
      }
      i := i + 1;
    }
    return false;
  }

  /** Gt holds exactly when the first differing part is greater. */
  lemma GtFirstDifference(a: seq<int>, b: seq<int>)
    requires |a| == 3 && |b| == 3
    ensures Gt(a, b) <==> exists i :: 0 <= i < 3 && a[i] > b[i] && forall j :: 0 <= j < i ==> a[j] == b[j]
  {
    if Gt(a, b) {
      if a[0] > b[0] {
      } else if a[1] > b[1] {
        assert forall j :: 0 <= j < 1 ==> a[j] == b[j];
      } else {
        assert forall j :: 0 <= j < 2 ==> a[j] == b[j];
      }
    }
  }

  /** Newer is a strict order; versions that parse alike are not newer
      than each other, and any two versions that parse differently are
      ordered one way. */
  lemma NewerIrreflexive(v: string)
    ensures !Newer(v, v)
  {
  }

  lemma NewerAsymmetric(v1: string, v2: string)
    ensures Newer(v1, v2) ==> !Newer(v2, v1)
  {
  }

  lemma NewerTransitive(v1: string, v2: string, v3: string)
    ensures Newer(v1, v2) && Newer(v2, v3) ==> Newer(v1, v3)
  {
  }

  /** "Not newer" is transitive too, so sorting by Newer is well defined. */
  lemma NotNewerTransitive(v1: string, v2: string, v3: string)
    ensures !Newer(v1, v2) && !Newer(v2, v3) ==> !Newer(v1, v3)
  {
  }

  lemma NewerTotal(v1: string, v2: string)
    ensures Parse(v1) != Parse(v2) ==> Newer(v1, v2) || Newer(v2, v1)
  {
  }

  /** "major" when the first part is positive, else "minor" when the
      second is, else "patch". */
  function GetVersionType(v: string): (t: string)
    ensures t in {"major", "minor", "patch"}
    ensures t == "major" <==> Parse(v)[0] > 0
    ensures t == "patch" <==> Parse(v)[0] <= 0 && Parse(v)[1] <= 0
  {
    var p := Parse(v);
    if p[0] > 0 then "major" else if p[1] > 0 then "minor" else "patch"
  }

  /** For a valid version the type follows its written numbers. */
  lemma VersionTypeOfDotted(x: string, y: string, z: string)
    requires AllDigits(x) && AllDigits(y) && AllDigits(z)
    ensures GetVersionType(x + "." + y + "." + z) ==
      (if DigitsValue(x) > 0 then "major" else if DigitsValue(y) > 0 then "minor" else "patch")
  {
    ParseDotted(x, y, z);
  }

  // ---------------------------------------------------------------------
  // The registry
  // ---------------------------------------------------------------------

  datatype AppVersion = AppVersion(
    version: string,
    title: string,
    required: bool,
    downloads: map<string, string>,
    deprecated: seq<string>)

  datatype Subscriber = Subscriber(
    userID: string,
    notifyMajor: bool,
    notifyMinor: bool,
    notifyPatches: bool,
    notifyRequired: bool,
    subscribedAt: int)

  datatype UpgradeNotification = UpgradeNotification(
    version: string, title: string, required: bool, updateURL: Option<string>)

  datatype UpdateCheckResponse = UpdateCheckResponse(
    hasUpdate: bool,
    latest: Option<AppVersion>,
    updateRequired: bool,
    message: string,
    notifications: seq<UpgradeNotification>)

  /** Newest first: no later entry is newer than an earlier one. */
  predicate NewestFirst(s: seq<AppVersion>)
  {
    forall i, j :: 0 <= i < j < |s| ==> !Newer(s[j].version, s[i].version)
  }

  /** Insertion into a newest-first list, before the first entry that is
      not newer than the new one. */
  function InsertNewest(v: AppVersion, s: seq<AppVersion>): (r: seq<AppVersion>)
    ensures multiset(r) == multiset(s) + multiset{v}
    ensures |r| == |s| + 1
  {
    if s == [] || !Newer(s[0].version, v.version) then [v] + s
    else
      assert s == [s[0]] + s[1..];
      [s[0]] + InsertNewest(v, s[1..])
  }

  lemma {:induction false} InsertNewestSorted(v: AppVersion, s: seq<AppVersion>)
    requires NewestFirst(s)
    ensures NewestFirst(InsertNewest(v, s))
    decreases |s|
  {
    if s == [] || !Newer(s[0].version, v.version) {
      forall j | 0 <= j < |s| ensures !Newer(s[j].version, v.version) {
        NotNewerTransitive(s[j].version, s[0].version, v.version);
      }
    } else {
      InsertNewestSorted(v, s[1..]);
      var r := InsertNewest(v, s[1..]);
      forall j | 0 <= j < |r| ensures !Newer(r[j].version, s[0].version) {
        assert r[j] in multiset(s[1..]) + multiset{v};
        if r[j] == v {
          NewerAsymmetric(s[0].version, v.version);
        } else {
          assert r[j] in s[1..];
        }
      }
    }
  }

  /** Who hears about a version: someone who never subscribed only about
      required ones; a subscriber about required ones when they asked
      for them, and otherwise according to the version's type. */
  function ShouldNotifyUser(subscribers: map<string, Subscriber>, userID: string, v: AppVersion): (notify: bool)
    ensures userID !in subscribers ==> (notify <==> v.required)
    ensures userID in subscribers && v.required && subscribers[userID].notifyRequired ==> notify
  {
    if userID !in subscribers then v.required
    else
      var sub := subscribers[userID];
      if v.required && sub.notifyRequired then true
      else
        match GetVersionType(v.version)
        case "major" => sub.notifyMajor
        case "minor" => sub.notifyMinor
        case "patch" => sub.notifyPatches
        case _ => false
  }

  /** Apart from a required version they asked about, a subscriber hears
      about a version by its first non-zero part: the major preference when
      the major number is positive, else the minor one when the minor
      number is, else the patch one. */
  lemma SubscriberByVersionParts(subscribers: map<string, Subscriber>, userID: string, v: AppVersion)
    requires userID in subscribers
    requires !(v.required && subscribers[userID].notifyRequired)
    ensures var sub := subscribers[userID];
      var p := Parse(v.version);
      ShouldNotifyUser(subscribers, userID, v) ==
        (if p[0] > 0 then sub.notifyMajor else if p[1] > 0 then sub.notifyMinor else sub.notifyPatches)
  {
  }

  /** A subscriber who opted out of everything is never notified. */
  lemma SilentSubscriber(subscribers: map<string, Subscriber>, userID: string, v: AppVersion)
    requires userID in subscribers
    requires var sub := subscribers[userID];
      !sub.notifyMajor && !sub.notifyMinor && !sub.notifyPatches && !sub.notifyRequired
    ensures !ShouldNotifyUser(subscribers, userID, v)
  {
  }

  const InitialVersion := AppVersion("1.0.0", "TOEIC App - Initial Release", false,
    map["android" := "/downloads/toeic-app-1.0.0.apk", "ios" := "/downloads/toeic-app-1.0.0.ipa", "web" := "/"], [])

  /** Every stored version is valid and filed under its own string, the
      current one is stored, and none is newer than it. */
  ghost predicate Registry(versions: map<string, AppVersion>, cur: string)
  {
    cur in versions
    && forall k :: k in versions ==>
      versions[k].version == k && ValidFormat(k) && !Newer(k, cur)
  }

  /** Filing a valid version, and moving the current one to it when it is
      newer, keeps the registry's invariant. */
  lemma AddKeepsRegistry(versions: map<string, AppVersion>, cur: string, v: AppVersion)
    requires Registry(versions, cur) && ValidFormat(v.version)
    ensures Registry(versions[v.version := v], if Newer(v.version, cur) then v.version else cur)
  {
    var m := versions[v.version := v];
    if Newer(v.version, cur) {
      forall k | k in m ensures !Newer(k, v.version) {
        if k != v.version {
          NewerTransitive(k, v.version, cur);
        } else {
          NewerIrreflexive(k);
        }
      }
    }
  }

  /** The registry holding only the initial release is well formed. */
  lemma InitialRegistry()
    ensures Registry(map["1.0.0" := InitialVersion], "1.0.0")
  {
    assert CountChar("1.0.0", '.') == 2;
    NewerIrreflexive("1.0.0");
  }

  class Service {
    var current: AppVersion
    var versions: map<string, AppVersion>
    var subscribers: map<string, Subscriber>

    /** Every stored version is valid, filed under its own string, and none
        is newer than the current one, which is stored too. */
    ghost predicate Valid()
      reads this
    {
      Registry(versions, current.version)
    }

    constructor ()
      ensures Valid()
      ensures current == InitialVersion && versions == map["1.0.0" := InitialVersion]
      ensures subscribers == map[]
    {
      current := InitialVersion;
      versions := map["1.0.0" := InitialVersion];
      subscribers := map[];
      InitialRegistry();
    }

    /** Rejects empty and invalid versions; otherwise files the version and
        makes it current when it is newer than the current one. */
    method AddVersion(v: AppVersion) returns (err: Option<string>)
      requires Valid()
      modifies this`versions, this`current
      ensures Valid()
      ensures v.version == "" ==> err == Some("version string cannot be empty")
      ensures err.None? <==> ValidFormat(v.version)
      ensures err.Some? ==> versions == old(versions) && current == old(current)
      ensures err.None? ==> versions == old(versions)[v.version := v]
      ensures err.None? ==> current == (if Newer(v.version, old(current).version) then v else old(current))
    {
      if v.version == "" {
        return Some("version string cannot be empty");
      }
      var ok := IsValidVersionFormat(v.version);
      if !ok {
        return Some("invalid version format: " + v.version);
      }
      File(v);
      err := None;
    }

    /** Files a valid version, making it current when it is newer than the
        current one. */
    method File(v: AppVersion)
      requires Valid() && ValidFormat(v.version)
      modifies this`versions, this`current
      ensures Valid()
      ensures versions == old(versions)[v.version := v]
      ensures current == (if Newer(v.version, old(current).version) then v else old(current))
    {
      var newer := IsNewerVersion(v.version, current.version);
      AddKeepsRegistry(versions, current.version, v);
      var nextCurrent := if newer then v else current;
      versions, current := versions[v.version := v], nextCurrent;
    }

    /** Records a subscription, with the default preferences (major, minor
        and required, not patches) when none are given. */
    method Subscribe(userID: string, preferences: Option<Subscriber>, now: int)
      modifies this`subscribers
      ensures userID in subscribers
      ensures subscribers[userID].userID == userID && subscribers[userID].subscribedAt == now
      ensures preferences.None? ==> subscribers[userID] == Subscriber(userID, true, true, false, true, now)
      ensures preferences.Some? ==> subscribers[userID] == preferences.value.(userID := userID, subscribedAt := now)
      ensures forall u :: u != userID ==> (u in subscribers <==> u in old(subscribers))
      ensures forall u :: u != userID && u in subscribers ==> subscribers[u] == old(subscribers)[u]
    {
      var p := if preferences.None? then Subscriber("", true, true, false, true, 0) else preferences.value;
      subscribers := subscribers[userID := p.(userID := userID, subscribedAt := now)];
    }

    method Unsubscribe(userID: string)
      modifies this`subscribers
      ensures subscribers == old(subscribers) - {userID}
    {
      subscribers := subscribers - {userID};
    }

    /** Whether the input is listed as deprecated by the current version. */
    method IsVersionDeprecated(v: string) returns (b: bool)
      ensures b <==> v in current.deprecated
    {
      var i := 0;
      while i < |current.deprecated|
        invariant 0 <= i <= |current.deprecated|
        invariant v !in current.deprecated[..i]
      {
        if current.deprecated[i] == v {
          return true;
        }
        assert current.deprecated[..i + 1] == current.deprecated[..i] + [current.deprecated[i]];
        i := i + 1;
      }
      assert current.deprecated[..i] == current.deprecated;
      return false;
    }

    /** Every stored version newer than the input, each once, newest first. */
    method GetNewerVersions(cv: string) returns (result: seq<AppVersion>)
      requires Valid()
      ensures NewestFirst(result)
      ensures forall x :: x in result ==> x.version in versions && versions[x.version] == x && Newer(x.version, cv)
      ensures forall k :: k in versions && Newer(k, cv) ==> versions[k] in result
      ensures forall x :: multiset(result)[x] <= 1
      ensures Collected(result, versions, versions.Keys, cv)
    {
      result := CollectNewerVersions(versions, cv);
    }

    /** The update check: an invalid input version never has an update; a
        valid one has one exactly when the current version is newer, which
        is then required when the current version says so or the input is
        deprecated. */
    method CheckForUpdates(cv: string, platform: string) returns (resp: UpdateCheckResponse)
      requires Valid()
      ensures !ValidFormat(cv) ==> !resp.hasUpdate && !resp.updateRequired
      ensures !ValidFormat(cv) ==> resp.message == "Invalid version format provided"
      ensures ValidFormat(cv) ==> (resp.hasUpdate <==> Newer(current.version, cv))
      ensures resp.hasUpdate ==> resp.latest == Some(current)
      ensures resp.updateRequired <==> resp.hasUpdate && (current.required || cv in current.deprecated)
      ensures !resp.hasUpdate ==> resp.notifications == []
      ensures forall i :: 0 <= i < |resp.notifications| ==> Newer(resp.notifications[i].version, cv)
      ensures resp.hasUpdate ==>
                exists newer :: Collected(newer, versions, versions.Keys, cv)
                                && NotesFor(resp.notifications, newer, platform)
    {
      resp := UpdateCheckResponse(false, None, false, "You're running the latest version", []);
      var ok := IsValidVersionFormat(cv);
      if !ok {
        resp := resp.(message := "Invalid version format provided");
        return;
      }
      var newer := IsNewerVersion(current.version, cv);
      if newer {
        resp := resp.(hasUpdate := true, latest := Some(current),
                      message := "New version " + current.version + " is available");
        var deprecated := IsVersionDeprecated(cv);
        if current.required || deprecated {
          resp := resp.(updateRequired := true,
                        message := "Version " + current.version + " is required. Please update immediately.");
        }
        var newerVersions := GetNewerVersions(cv);
        var notes := Notify(newerVersions, platform);
        resp := resp.(notifications := notes);
        assert Collected(newerVersions, versions, versions.Keys, cv) && NotesFor(resp.notifications, newerVersions, platform);
      }
    }
  }

  /** One notification per version, in order, with its version, title and
      flag, and the platform's download link exactly when it has one. */
  predicate NotesFor(notes: seq<UpgradeNotification>, newerVersions: seq<AppVersion>, platform: string)
  {
    |notes| == |newerVersions|
    && forall j :: 0 <= j < |notes| ==>
      notes[j].version == newerVersions[j].version && notes[j].title == newerVersions[j].title
      && notes[j].required == newerVersions[j].required
      && (notes[j].updateURL.Some? <==> platform in newerVersions[j].downloads)
      && (notes[j].updateURL.Some? ==> notes[j].updateURL.value == newerVersions[j].downloads[platform])
  }

  /** The notifications of an update check: one per newer version, in the
      same order, with that platform's download link when there is one. */
  method Notify(newerVersions: seq<AppVersion>, platform: string) returns (notes: seq<UpgradeNotification>)
    ensures |notes| == |newerVersions|
    ensures forall j :: 0 <= j < |notes| ==>
      notes[j].version == newerVersions[j].version && notes[j].title == newerVersions[j].title
      && notes[j].required == newerVersions[j].required
      && (notes[j].updateURL.Some? <==> platform in newerVersions[j].downloads)
      && (notes[j].updateURL.Some? ==> notes[j].updateURL.value == newerVersions[j].downloads[platform])
    ensures NotesFor(notes, newerVersions, platform)
  {
    notes := [];
    var i := 0;
    while i < |newerVersions|
      invariant 0 <= i <= |newerVersions|
      invariant |notes| == i
      invariant forall j :: 0 <= j < i ==>
        notes[j].version == newerVersions[j].version && notes[j].title == newerVersions[j].title
        && notes[j].required == newerVersions[j].required
        && (notes[j].updateURL.Some? <==> platform in newerVersions[j].downloads)
        && (notes[j].updateURL.Some? ==> notes[j].updateURL.value == newerVersions[j].downloads[platform])
    {
      var v := newerVersions[i];
      var url := if platform in v.downloads then Some(v.downloads[platform]) else None;
      notes := notes + [UpgradeNotification(v.version, v.title, v.required, url)];
      i := i + 1;
    }
  }

  /** The result so far of collecting the versions newer than cv among the
      keys in done: newest first, each stored and newer, each newer key of
      done present, and no version twice. */
  ghost predicate Collected(result: seq<AppVersion>, versions: map<string, AppVersion>, done: set<string>, cv: string)
  {
    NewestFirst(result)
    && (forall x :: x in result ==>
          x.version in done && x.version in versions && versions[x.version] == x && Newer(x.version, cv))
    && (forall k :: k in done && k in versions && Newer(k, cv) ==> versions[k] in result)
    && (forall x :: multiset(result)[x] <= 1)
  }

  /** The loop of GetNewerVersions over a version map, keys in any order. */
  method CollectNewerVersions(versions: map<string, AppVersion>, cv: string) returns (result: seq<AppVersion>)
    requires forall k :: k in versions ==> versions[k].version == k
    ensures Collected(result, versions, versions.Keys, cv)
  {
    result := [];
    var remaining := versions.Keys;
    while remaining != {}
      invariant remaining <= versions.Keys
      invariant Collected(result, versions, versions.Keys - remaining, cv)
      decreases |remaining|
    {
      var k :| k in remaining;
      result := CollectOne(result, versions, versions.Keys - remaining, cv, k);
      assert versions.Keys - remaining + {k} == versions.Keys - (remaining - {k});
      remaining := remaining - {k};
    }
    assert versions.Keys - remaining == versions.Keys;
  }

  /** One turn of the loop of GetNewerVersions: the version under key k
      is inserted in order when it is newer than cv. */
  method CollectOne(result: seq<AppVersion>, versions: map<string, AppVersion>, ghost done: set<string>,
                    cv: string, k: string)
    returns (next: seq<AppVersion>)
    requires Collected(result, versions, done, cv)
    requires k in versions && k !in done && versions[k].version == k
    ensures Collected(next, versions, done + {k}, cv)
  {
    var newer := IsNewerVersion(k, cv);
    if newer {
      CollectNewer(result, versions, done, cv, k);
      next := InsertNewest(versions[k], result);
    } else {
      CollectOlder(result, versions, done, cv, k);
      next := result;
    }
  }

  /** Looking at one more key that is newer inserts its version. */
  lemma CollectNewer(result: seq<AppVersion>, versions: map<string, AppVersion>, done: set<string>, cv: string, k: string)
    requires Collected(result, versions, done, cv)
    requires k in versions && k !in done && versions[k].version == k && Newer(k, cv)
    ensures Collected(InsertNewest(versions[k], result), versions, done + {k}, cv)
  {
    var v := versions[k];
    var r := InsertNewest(v, result);
    InsertNewestSorted(v, result);
    InsertedMembers(v, result, r);
    assert v !in result;
    assert forall x :: x in r ==>
      x.version in done + {k} && x.version in versions && versions[x.version] == x && Newer(x.version, cv);
    assert forall j :: j in done + {k} && j in versions && Newer(j, cv) ==> versions[j] in r;
    assert forall x :: multiset(r)[x] <= 1;
  }

  /** Looking at one more key that is not newer changes nothing. */
  lemma CollectOlder(result: seq<AppVersion>, versions: map<string, AppVersion>, done: set<string>, cv: string, k: string)
    requires Collected(result, versions, done, cv)
    requires !Newer(k, cv)
    ensures Collected(result, versions, done + {k}, cv)
  {
  }

  /** The entries of an insertion are the old ones and the new one. */
  lemma InsertedMembers(v: AppVersion, s: seq<AppVersion>, r: seq<AppVersion>)
    requires r == InsertNewest(v, s)
    ensures forall x :: x in r <==> x in s || x == v
  {
    forall x ensures x in r <==> x in s || x == v {
      assert x in r <==> x in multiset(r);
      assert x in s <==> x in multiset(s);
    }
  }
}
