/** The advanced security middleware: beyond the bearer token, a request
    must carry signed security headers, a fresh timestamp, an allowed origin
    and a sufficient security level. HMAC signing and the lookup of the
    caller's key are outside the model: `verify(message, signature)` says
    whether the signature is the caller's HMAC of the message. Request
    headers are a map from canonical header names to their first value. */
module AdvancedSecurity {
  import opened Common

  const HeaderSecurityToken: string := "X-Security-Token"
  const HeaderClientSignature: string := "X-Client-Signature"
  const HeaderRequestTimestamp: string := "X-Request-Timestamp"
  const HeaderWasmMode: string := "X-WASM-Mode"
  const HeaderWorkerContext: string := "X-Worker-Context"
  const HeaderOriginValidation: string := "X-Origin-Validation"
  const HeaderSecurityLevel: string := "X-Security-Level"

  const MaxTimestampAge: int := 5 * Minute
  const RequiredSecurityLevel: int := 2
  const FlutterOrigin: string := "flutter-app://toeic-app"

  /** Seconds from the year 1 to the Unix epoch: the offset Go adds to a
      Unix time to store it. */
  const UnixToInternal: int := 62135596800

  const DefaultRequiredHeaders: seq<string> :=
    [HeaderSecurityToken, HeaderClientSignature, HeaderRequestTimestamp, HeaderOriginValidation]

  const DefaultBypassPaths: seq<string> :=
    ["/health", "/metrics", "/api/auth/login", "/api/auth/register", "/api/auth/refresh-token",
     "/swagger", "/api/v1/grammars", "/api/v1/performance"]

  datatype AdvancedSecurityConfig = AdvancedSecurityConfig(
    enabled: bool,
    requiredHeaders: seq<string>,
    allowedOrigins: seq<string>,
    wasmEnabled: bool,
    webWorkerEnabled: bool,
    maxTimestampAge: int,
    requiredSecurityLevel: int,
    bypassPaths: seq<string>)

  type Verifier = (string, string) -> bool

  /** Why a request was refused. */
  datatype Reason =
    | MissingHeader(header: string)
    | MissingTimestamp
    | InvalidTimestampFormat
    | TimestampTooOld
    | TimestampInFuture
    | MissingOriginAndReferer
    | OriginNotAllowed(origin: string)
    | RefererNotAllowed(referer: string)
    | WasmRequestsNotEnabled
    | MissingWasmOriginValidation
    | InvalidOriginValidationFormat
    | MissingClientSignature
    | MissingSecurityToken
    | InvalidSecurityTokenFormat
    | MissingSecurityLevel
    | InvalidSecurityLevelFormat
    | InsufficientSecurityLevel(level: int, required: int)
    | WasmModeNotEnabled
    | InvalidWasmModeSignature(cause: Reason)
    | InvalidWasmModeFormat
    | WorkerModeNotEnabled
    | InvalidWorkerContextSignature(cause: Reason)
    | InvalidWorkerContextFormat
    | SignatureMismatch

  /** A request; `headers` is keyed by canonical header names, as net/http
      stores them. */
  datatype Request = Request(httpMethod: string, path: string, headers: map<string, string>)

  /** The characters of an HTTP token. */
  predicate IsTokenChar(c: char)
  {
    IsAsciiLetter(c) || '0' <= c <= '9' || c in "!#$%&'*+-.^_`|~"
  }

  /** The canonicalisation loop: a letter is upper-cased at the start and
      after a '-', lower-cased elsewhere; other characters are kept. */
  function CanonicalFrom(s: string, upper: bool): (r: string)
    ensures |r| == |s|
  {
    if s == [] then []
    else
      var c := s[0];
      var d := if upper && 'a' <= c <= 'z' then (c as int - 32) as char
               else if !upper && 'A' <= c <= 'Z' then (c as int + 32) as char
               else c;
      [d] + CanonicalFrom(s[1..], c == '-')
  }

  /** An ASCII letter folded to lower case; every other character kept. */
  function AsciiFold(c: char): char
  {
    if IsAsciiUpper(c) then (c as int + 32) as char else c
  }

  /** What the loop does to each character: a letter keeps its folded form
      and is upper-case exactly at the start (when `upper`) or after a '-';
      any other character is kept. */
  lemma {:induction false} CanonicalFromChars(s: string, upper: bool)
    ensures forall i :: 0 <= i < |s| && !IsAsciiLetter(s[i]) ==> CanonicalFrom(s, upper)[i] == s[i]
    ensures forall i :: 0 <= i < |s| && IsAsciiLetter(s[i]) ==>
      var d := CanonicalFrom(s, upper)[i];
      IsAsciiLetter(d) && AsciiFold(d) == AsciiFold(s[i])
      && (IsAsciiUpper(d) <==> if i == 0 then upper else s[i - 1] == '-')
    decreases |s|
  {
    if s != [] {
      CanonicalFromChars(s[1..], s[0] == '-');
      var r := CanonicalFrom(s, upper);
      assert r[1..] == CanonicalFrom(s[1..], s[0] == '-');
      var rest := CanonicalFrom(s[1..], s[0] == '-');
      forall i | 1 <= i < |s| && IsAsciiLetter(s[i])
        ensures IsAsciiLetter(r[i]) && AsciiFold(r[i]) == AsciiFold(s[i])
        ensures IsAsciiUpper(r[i]) <==> s[i - 1] == '-'
      {
        assert r[i] == rest[i - 1] && s[1..][i - 1] == s[i];
        if i > 1 {
          assert s[1..][i - 2] == s[i - 1];
        }
      }
      forall i | 1 <= i < |s| && !IsAsciiLetter(s[i])
        ensures r[i] == s[i]
      {
        assert r[i] == rest[i - 1] && s[1..][i - 1] == s[i];
      }
      var c := s[0];
      if IsAsciiLetter(c) {
        if IsAsciiUpper(c) {
          assert r[0] == (if upper then c else (c as int + 32) as char);
          assert IsAsciiLetter(r[0]);
          assert AsciiFold(r[0]) == AsciiFold(c);
          assert IsAsciiUpper(r[0]) <==> upper;
        } else {
          assert r[0] == (if upper then (c as int - 32) as char else c);
          assert IsAsciiLetter(r[0]);
          assert AsciiFold(r[0]) == AsciiFold(c);
          assert IsAsciiUpper(r[0]) <==> upper;
        }
      }
    }
  }

  predicate IsToken(name: string)
  {
    forall i :: 0 <= i < |name| ==> IsTokenChar(name[i])
  }

  /** textproto.CanonicalMIMEHeaderKey: a name made of token characters is
      canonicalised; any other name is kept as it is. */
  function CanonicalHeaderKey(name: string): (r: string)
    ensures |r| == |name|
  {
    if IsToken(name) then CanonicalFrom(name, true) else name
  }

  /** Two names that differ only in the case of ASCII letters. */
  predicate SameIgnoringAsciiCase(a: string, b: string)
  {
    |a| == |b| && forall i :: 0 <= i < |a| ==>
      a[i] == b[i] || (IsAsciiLetter(a[i]) && IsAsciiLetter(b[i]) && AsciiFold(a[i]) == AsciiFold(b[i]))
  }

  /** The canonical form of a token does not depend on the case of its
      letters. */
  lemma CanonicalIgnoresCase(a: string, b: string)
    requires SameIgnoringAsciiCase(a, b) && IsToken(a)
    ensures CanonicalHeaderKey(a) == CanonicalHeaderKey(b)
  {
    assert IsToken(b);
    CanonicalFromChars(a, true);
    CanonicalFromChars(b, true);
    var ra, rb := CanonicalFrom(a, true), CanonicalFrom(b, true);
    forall i | 0 <= i < |a|
      ensures ra[i] == rb[i]
    {
      if IsAsciiLetter(a[i]) {
        assert i > 0 ==> (a[i - 1] == '-' <==> b[i - 1] == '-');
      }
    }
    assert ra == rb;
  }

  /** So a header is found whatever the case of its name, as Gin finds it. */
  lemma HeaderIgnoresCase(r: Request, a: string, b: string)
    requires SameIgnoringAsciiCase(a, b) && IsToken(a)
    ensures Header(r, a) == Header(r, b)
  {
    CanonicalIgnoresCase(a, b);
  }

  /** Gin's GetHeader: the value under the canonical form of the name, or
      "" when the header is absent. */
  function Header(r: Request, name: string): (v: string)
    ensures CanonicalHeaderKey(name) in r.headers ==> v == r.headers[CanonicalHeaderKey(name)]
    ensures CanonicalHeaderKey(name) !in r.headers ==> v == ""
  {
    var key := CanonicalHeaderKey(name);
    if key in r.headers then r.headers[key] else ""
  }

  // ---------------------------------------------------------------------
  // Construction
  // ---------------------------------------------------------------------

  /** The configured CORS origins, split on ',' and trimmed. */
  function ConfiguredOrigins(corsAllowedOrigins: string): (origins: seq<string>)
    ensures corsAllowedOrigins == "" ==> origins == []
    ensures corsAllowedOrigins != "" ==> |origins| == CountChar(corsAllowedOrigins, ',') + 1
  {
    if corsAllowedOrigins == "" then []
    else
      var parts := Split(corsAllowedOrigins, ',');
      seq(|parts|, i requires 0 <= i < |parts| => TrimSpace(parts[i]))
  }

  /** The configuration the middleware starts with: the configured origins
      followed by the mobile app's origin, the four required headers and
      the public paths. */
  method NewAdvancedSecurityMiddleware(corsAllowedOrigins: string) returns (c: AdvancedSecurityConfig)
    ensures c.allowedOrigins == ConfiguredOrigins(corsAllowedOrigins) + [FlutterOrigin]
    ensures c.enabled && c.wasmEnabled && c.webWorkerEnabled
    ensures c.requiredHeaders == DefaultRequiredHeaders && c.bypassPaths == DefaultBypassPaths
    ensures c.maxTimestampAge == MaxTimestampAge && c.requiredSecurityLevel == RequiredSecurityLevel
  {
    var origins: seq<string> := [];
    if corsAllowedOrigins != "" {
      origins := Split(corsAllowedOrigins, ',');
      ghost var parts := origins;
      var i := 0;
      while i < |origins|
        invariant 0 <= i <= |origins| == |parts|
        invariant forall j :: 0 <= j < i ==> origins[j] == TrimSpace(parts[j])
        invariant forall j :: i <= j < |origins| ==> origins[j] == parts[j]
      {
        origins := origins[i := TrimSpace(origins[i])];
        i := i + 1;
      }
    }
    origins := origins + [FlutterOrigin];
    c := AdvancedSecurityConfig(true, DefaultRequiredHeaders, origins, true, true,
                                MaxTimestampAge, RequiredSecurityLevel, DefaultBypassPaths);
  }

  // ---------------------------------------------------------------------
  // Lists: bypass paths and allowed origins
  // ---------------------------------------------------------------------

  predicate Bypassed(c: AdvancedSecurityConfig, path: string)
  {
    exists i :: 0 <= i < |c.bypassPaths| && HasPrefix(path, c.bypassPaths[i])
  }

  /** Exact match against an allowed origin. */
  predicate OriginAllowed(c: AdvancedSecurityConfig, origin: string)
  {
    exists i :: 0 <= i < |c.allowedOrigins| && origin == c.allowedOrigins[i]
  }

  /** Prefix match against an allowed origin. */
  predicate RefererAllowed(c: AdvancedSecurityConfig, referer: string)
  {
    exists i :: 0 <= i < |c.allowedOrigins| && HasPrefix(referer, c.allowedOrigins[i])
  }

  method ShouldBypassSecurity(c: AdvancedSecurityConfig, path: string) returns (b: bool)
    ensures b <==> Bypassed(c, path)
  {
    var i := 0;
    while i < |c.bypassPaths|
      invariant 0 <= i <= |c.bypassPaths|
      invariant forall j :: 0 <= j < i ==> !HasPrefix(path, c.bypassPaths[j])
    {
      if HasPrefix(path, c.bypassPaths[i]) {
        return true;
      }
      i := i + 1;
    }
    return false;
  }

  method IsOriginAllowed(c: AdvancedSecurityConfig, origin: string) returns (b: bool)
    ensures b <==> OriginAllowed(c, origin)
  {
    var i := 0;
    while i < |c.allowedOrigins|
      invariant 0 <= i <= |c.allowedOrigins|
      invariant forall j :: 0 <= j < i ==> origin != c.allowedOrigins[j]
    {
      if origin == c.allowedOrigins[i] {
        return true;
      }
      i := i + 1;
    }
    return false;
  }

  method IsRefererAllowed(c: AdvancedSecurityConfig, referer: string) returns (b: bool)
    ensures b <==> RefererAllowed(c, referer)
  {
    var i := 0;
    while i < |c.allowedOrigins|
      invariant 0 <= i <= |c.allowedOrigins|
      invariant forall j :: 0 <= j < i ==> !HasPrefix(referer, c.allowedOrigins[j])
    {
      if HasPrefix(referer, c.allowedOrigins[i]) {
        return true;
      }
      i := i + 1;
    }
    return false;
  }

  /** An allowed origin is also an allowed referer, and so is any path below
      it; the converse does not hold. */
  lemma OriginAllowsReferer(c: AdvancedSecurityConfig, origin: string, rest: string)
    requires OriginAllowed(c, origin)
    ensures RefererAllowed(c, origin + rest)
  {
    var i :| 0 <= i < |c.allowedOrigins| && origin == c.allowedOrigins[i];
    assert (origin + rest)[..|origin|] == origin;
  }

  /** Every public path, and everything below it, bypasses the checks under
      the starting configuration. */
  lemma PublicPathsBypass(corsAllowedOrigins: string, c: AdvancedSecurityConfig, i: int, rest: string)
    requires c.bypassPaths == DefaultBypassPaths && 0 <= i < |DefaultBypassPaths|
    ensures Bypassed(c, DefaultBypassPaths[i] + rest)
  {
    assert (DefaultBypassPaths[i] + rest)[..|DefaultBypassPaths[i]|] == DefaultBypassPaths[i];
  }

  /** The mobile app's origin is always allowed, and so is every configured
      origin once trimmed. */
  lemma ConfiguredOriginsAllowed(corsAllowedOrigins: string, c: AdvancedSecurityConfig, i: int)
    requires c.allowedOrigins == ConfiguredOrigins(corsAllowedOrigins) + [FlutterOrigin]
    requires corsAllowedOrigins != "" && 0 <= i < CountChar(corsAllowedOrigins, ',') + 1
    ensures OriginAllowed(c, FlutterOrigin)
    ensures OriginAllowed(c, TrimSpace(Split(corsAllowedOrigins, ',')[i]))
  {
    assert c.allowedOrigins[|c.allowedOrigins| - 1] == FlutterOrigin;
    assert c.allowedOrigins[i] == TrimSpace(Split(corsAllowedOrigins, ',')[i]);
  }

  // ---------------------------------------------------------------------
  // Stage 1: required headers
  // ---------------------------------------------------------------------

  /** The first required header that is missing or empty. */
  function RequiredHeadersVerdict(required: seq<string>, r: Request): (e: Option<Reason>)
    ensures e.None? <==> forall i :: 0 <= i < |required| ==> Header(r, required[i]) != ""
    ensures e.Some? ==> e.value.MissingHeader? && e.value.header in required && Header(r, e.value.header) == ""
  {
    if required == [] then None
    else if Header(r, required[0]) == "" then Some(MissingHeader(required[0]))
    else
      var rest := RequiredHeadersVerdict(required[1..], r);
      assert forall i :: 1 <= i < |required| ==> required[i] == required[1..][i - 1];
      rest
  }

  method ValidateRequiredHeaders(c: AdvancedSecurityConfig, r: Request) returns (e: Option<Reason>)
    ensures e == RequiredHeadersVerdict(c.requiredHeaders, r)
  {
    var i := 0;
    while i < |c.requiredHeaders|
      invariant 0 <= i <= |c.requiredHeaders|
      invariant RequiredHeadersVerdict(c.requiredHeaders, r) == RequiredHeadersVerdict(c.requiredHeaders[i..], r)
    {
      assert c.requiredHeaders[i..][1..] == c.requiredHeaders[i + 1..];
      if Header(r, c.requiredHeaders[i]) == "" {
        return Some(MissingHeader(c.requiredHeaders[i]));
      }
      i := i + 1;
    }
    return None;
  }

  // ---------------------------------------------------------------------
  // Stage 2: timestamp
  // ---------------------------------------------------------------------

  /** Go's time.Unix(ts, 0) in nanoseconds since the epoch. Go stores the
      seconds since the year 1 in an int64, so the addition wraps for
      timestamps within that offset of the int64 maximum. */
  function RequestTime(ts: int): int
  {
    (WrapInt64(ts + UnixToInternal) - UnixToInternal) * Second
  }

  lemma RequestTimeExact(ts: int)
    requires IsInt64(ts + UnixToInternal)
    ensures RequestTime(ts) == ts * Second
  {
  }

  /** Missing, malformed, older than the maximum age, or more than a minute
      ahead of `now`. */
  function TimestampVerdict(c: AdvancedSecurityConfig, r: Request, now: int): (e: Option<Reason>)
    ensures Header(r, HeaderRequestTimestamp) == "" ==> e == Some(MissingTimestamp)
    ensures Header(r, HeaderRequestTimestamp) != "" && ParseInt(Header(r, HeaderRequestTimestamp)).None? ==>
      e == Some(InvalidTimestampFormat)
  {
    var s := Header(r, HeaderRequestTimestamp);
    if s == "" then Some(MissingTimestamp)
    else
      match ParseInt(s)
      case None => Some(InvalidTimestampFormat)
      case Some(ts) =>
        var t := RequestTime(ts);
        if now - t > c.maxTimestampAge then Some(TimestampTooOld)
        else if t - now > Minute then Some(TimestampInFuture)
        else None
  }

  /** A parsed timestamp away from the int64 edge is accepted exactly when
      it lies in the window [now - maximum age, now + one minute]. */
  lemma TimestampWindow(c: AdvancedSecurityConfig, r: Request, now: int, ts: int)
    requires ParseInt(Header(r, HeaderRequestTimestamp)) == Some(ts)
    requires IsInt64(ts + UnixToInternal)
    ensures TimestampVerdict(c, r, now).None? <==> now - c.maxTimestampAge <= ts * Second <= now + Minute
  {
    RequestTimeExact(ts);
  }

  // ---------------------------------------------------------------------
  // Stage 3: origin and referer
  // ---------------------------------------------------------------------

  /** A "payload.signature" header value: exactly two parts, and the
      signature must verify the payload. */
  function SignedPair(value: string, formatError: Reason, verify: Verifier): (e: Option<Reason>)
    ensures CountChar(value, '.') != 1 ==> e == Some(formatError)
  {
    var parts := Split(value, '.');
    if |parts| != 2 then Some(formatError)
    else if verify(parts[0], parts[1]) then None
    else Some(SignatureMismatch)
  }

  /** A value with exactly one dot passes exactly when the signature after
      the dot verifies the payload before it. */
  lemma SignedPairOfParts(payload: string, signature: string, formatError: Reason, verify: Verifier)
    requires '.' !in payload && '.' !in signature
    ensures SignedPair(payload + "." + signature, formatError, verify)
            == (if verify(payload, signature) then None else Some(SignatureMismatch))
  {
    assert Join([payload, signature], '.') == payload + "." + signature by {
      assert [payload, signature][1..] == [signature];
    }
    SplitJoin([payload, signature], '.');
  }

  /** A WASM or worker request proves its origin with a signed validation
      header; any other request needs an Origin or Referer, and each one
      present must be allowed. */
  function OriginVerdict(c: AdvancedSecurityConfig, r: Request, verify: Verifier): (e: Option<Reason>)
    ensures Header(r, HeaderWasmMode) == "" && Header(r, HeaderWorkerContext) == "" ==>
      (e.None? <==> (Header(r, "Origin") != "" || Header(r, "Referer") != "")
                    && (Header(r, "Origin") != "" ==> OriginAllowed(c, Header(r, "Origin")))
                    && (Header(r, "Referer") != "" ==> RefererAllowed(c, Header(r, "Referer"))))
    ensures Header(r, HeaderWasmMode) != "" || Header(r, HeaderWorkerContext) != "" ==>
      (!c.wasmEnabled ==> e == Some(WasmRequestsNotEnabled))
      && (c.wasmEnabled && Header(r, HeaderOriginValidation) == "" ==> e == Some(MissingWasmOriginValidation))
      && (c.wasmEnabled && Header(r, HeaderOriginValidation) != "" ==>
            e == SignedPair(Header(r, HeaderOriginValidation), InvalidOriginValidationFormat, verify))
    ensures Header(r, HeaderWasmMode) != "" || Header(r, HeaderWorkerContext) != "" ==>
      (e.None? <==> c.wasmEnabled && Header(r, HeaderOriginValidation) != ""
                    && SignedPair(Header(r, HeaderOriginValidation), InvalidOriginValidationFormat, verify).None?)
  {
    var origin := Header(r, "Origin");
    var referer := Header(r, "Referer");
    var validation := Header(r, HeaderOriginValidation);
    if Header(r, HeaderWasmMode) != "" || Header(r, HeaderWorkerContext) != "" then
      if !c.wasmEnabled then Some(WasmRequestsNotEnabled)
      else if validation == "" then Some(MissingWasmOriginValidation)
      else SignedPair(validation, InvalidOriginValidationFormat, verify)
    else if origin == "" && referer == "" then Some(MissingOriginAndReferer)
    else if origin != "" && !OriginAllowed(c, origin) then Some(OriginNotAllowed(origin))
    else if referer != "" && !RefererAllowed(c, referer) then Some(RefererNotAllowed(referer))
    else None
  }

  method ValidateOrigin(c: AdvancedSecurityConfig, r: Request, verify: Verifier) returns (e: Option<Reason>)
    ensures e == OriginVerdict(c, r, verify)
  {
    var origin := Header(r, "Origin");
    var referer := Header(r, "Referer");
    var validation := Header(r, HeaderOriginValidation);
    if Header(r, HeaderWasmMode) != "" || Header(r, HeaderWorkerContext) != "" {
      if !c.wasmEnabled {
        return Some(WasmRequestsNotEnabled);
      }
      if validation == "" {
        return Some(MissingWasmOriginValidation);
      }
      return SignedPair(validation, InvalidOriginValidationFormat, verify);
    }
    if origin == "" && referer == "" {
      return Some(MissingOriginAndReferer);
    }
    if origin != "" {
      var ok := IsOriginAllowed(c, origin);
      if !ok {
        return Some(OriginNotAllowed(origin));
      }
    }
    if referer != "" {
      var ok := IsRefererAllowed(c, referer);
      if !ok {
        return Some(RefererNotAllowed(referer));
      }
    }
    return None;
  }

  // ---------------------------------------------------------------------
  // Stages 4 to 7: signature, token, level, WASM/worker context
  // ---------------------------------------------------------------------

  /** The signed message of a request: method, path, timestamp and user
      agent joined by '|'. */
  function ClientMessage(r: Request): string
  {
    r.httpMethod + "|" + r.path + "|" + Header(r, HeaderRequestTimestamp) + "|" + Header(r, "User-Agent")
  }

  function ClientSignatureVerdict(r: Request, verify: Verifier): (e: Option<Reason>)
    ensures e.None? <==> Header(r, HeaderClientSignature) != "" && verify(ClientMessage(r), Header(r, HeaderClientSignature))
  {
    var signature := Header(r, HeaderClientSignature);
    if signature == "" then Some(MissingClientSignature)
    else if verify(ClientMessage(r), signature) then None
    else Some(SignatureMismatch)
  }

  /** The token is "timestamp.nonce.signature"; the signature covers
      "timestamp.nonce". */
  function SecurityTokenVerdict(r: Request, verify: Verifier): (e: Option<Reason>)
    ensures Header(r, HeaderSecurityToken) == "" ==> e == Some(MissingSecurityToken)
    ensures Header(r, HeaderSecurityToken) != "" && CountChar(Header(r, HeaderSecurityToken), '.') != 2 ==>
      e == Some(InvalidSecurityTokenFormat)
  {
    var token := Header(r, HeaderSecurityToken);
    if token == "" then Some(MissingSecurityToken)
    else
      var parts := Split(token, '.');
      if |parts| != 3 then Some(InvalidSecurityTokenFormat)
      else if verify(parts[0] + "." + parts[1], parts[2]) then None
      else Some(SignatureMismatch)
  }

  /** A token built from three dot-free parts is accepted exactly when its
      signature verifies the first two parts joined by a dot. */
  lemma TokenSignsTimestampAndNonce(r: Request, verify: Verifier, ts: string, nonce: string, sig: string)
    requires '.' !in ts && '.' !in nonce && '.' !in sig
    requires Header(r, HeaderSecurityToken) == ts + "." + nonce + "." + sig
    ensures SecurityTokenVerdict(r, verify).None? <==> verify(ts + "." + nonce, sig)
  {
    var token := ts + "." + nonce + "." + sig;
    assert Join([ts, nonce, sig], '.') == token by {
      assert Join([nonce, sig], '.') == nonce + "." + sig;
      assert [ts, nonce, sig][1..] == [nonce, sig];
    }
    SplitJoin([ts, nonce, sig], '.');
  }

  /** The level parses as an integer no lower than the required one. */
  predicate LevelSufficient(c: AdvancedSecurityConfig, s: string)
  {
    ParseInt(s).Some? && ParseInt(s).value >= c.requiredSecurityLevel
  }

  function SecurityLevelVerdict(c: AdvancedSecurityConfig, r: Request): (e: Option<Reason>)
    ensures e.None? <==> LevelSufficient(c, Header(r, HeaderSecurityLevel))
    ensures Header(r, HeaderSecurityLevel) == "" ==> e == Some(MissingSecurityLevel)
  {
    var s := Header(r, HeaderSecurityLevel);
    if s == "" then Some(MissingSecurityLevel)
    else
      match ParseInt(s)
      case None => Some(InvalidSecurityLevelFormat)
      case Some(level) =>
        if level < c.requiredSecurityLevel then Some(InsufficientSecurityLevel(level, c.requiredSecurityLevel))
        else None
  }

  /** Each of the WASM and worker headers, when present, must be enabled and
      carry a valid signed payload. */
  function WasmWorkerVerdict(c: AdvancedSecurityConfig, r: Request, verify: Verifier): (e: Option<Reason>)
    ensures Header(r, HeaderWasmMode) == "" && Header(r, HeaderWorkerContext) == "" ==> e.None?
    ensures Header(r, HeaderWasmMode) != "" && !c.wasmEnabled ==> e == Some(WasmModeNotEnabled)
  {
    var wasm := Header(r, HeaderWasmMode);
    var worker := Header(r, HeaderWorkerContext);
    if wasm == "" && worker == "" then None
    else if wasm != "" && !c.wasmEnabled then Some(WasmModeNotEnabled)
    else if wasm != "" && SignedPair(wasm, InvalidWasmModeFormat, verify).Some? then
      Some(InvalidWasmModeSignature(SignedPair(wasm, InvalidWasmModeFormat, verify).value))
    else if worker != "" && !c.webWorkerEnabled then Some(WorkerModeNotEnabled)
    else if worker != "" && SignedPair(worker, InvalidWorkerContextFormat, verify).Some? then
      Some(InvalidWorkerContextSignature(SignedPair(worker, InvalidWorkerContextFormat, verify).value))
    else None
  }

  // ---------------------------------------------------------------------
  // The middleware
  // ---------------------------------------------------------------------

  /** Stage k's verdict, k from 0 to 6 in the order the checks run. */
  function StageVerdict(k: int, c: AdvancedSecurityConfig, r: Request, now: int, verify: Verifier): Option<Reason>
  {
    if k == 0 then RequiredHeadersVerdict(c.requiredHeaders, r)
    else if k == 1 then TimestampVerdict(c, r, now)
    else if k == 2 then OriginVerdict(c, r, verify)
    else if k == 3 then ClientSignatureVerdict(r, verify)
    else if k == 4 then SecurityTokenVerdict(r, verify)
    else if k == 5 then SecurityLevelVerdict(c, r)
    else if k == 6 then WasmWorkerVerdict(c, r, verify)
    else None
  }

  datatype Failure = Failure(stage: int, reason: Reason)

  /** Stages lo up to (not including) hi all pass. */
  predicate PassesBetween(lo: int, hi: int, c: AdvancedSecurityConfig, r: Request, now: int, verify: Verifier)
  {
    forall j :: lo <= j < hi ==> StageVerdict(j, c, r, now, verify).None?
  }

  predicate PassesFrom(k: int, c: AdvancedSecurityConfig, r: Request, now: int, verify: Verifier)
  {
    PassesBetween(k, 7, c, r, now, verify)
  }

  /** Runs the seven stages in order and reports the first that fails. */
  method ValidateAdvancedSecurity(c: AdvancedSecurityConfig, r: Request, now: int, verify: Verifier)
    returns (err: Option<Failure>)
    ensures err.None? <==> PassesFrom(0, c, r, now, verify)
    ensures err.Some? ==> 0 <= err.value.stage < 7
    ensures err.Some? ==> StageVerdict(err.value.stage, c, r, now, verify) == Some(err.value.reason)
    ensures err.Some? ==> PassesBetween(0, err.value.stage, c, r, now, verify)
  {
    var k := 0;
    while k < 7
      invariant 0 <= k <= 7
      invariant PassesBetween(0, k, c, r, now, verify)
    {
      var e: Option<Reason>;
      if k == 0 {
        e := ValidateRequiredHeaders(c, r);
      } else if k == 2 {
        e := ValidateOrigin(c, r, verify);
      } else {
        e := StageVerdict(k, c, r, now, verify);
      }
      assert e == StageVerdict(k, c, r, now, verify);
      if e.Some? {
        assert !PassesFrom(0, c, r, now, verify);
        return Some(Failure(k, e.value));
      }
      k := k + 1;
    }
    return None;
  }

  datatype Outcome = Next | Unauthorized(failure: Failure)

  /** Public paths and CORS preflight requests pass untouched; every other
      request passes only if all seven stages do. */
  method Middleware(c: AdvancedSecurityConfig, r: Request, now: int, verify: Verifier) returns (o: Outcome)
    ensures Bypassed(c, r.path) || r.httpMethod == "OPTIONS" ==> o == Next
    ensures o == Next <==> Bypassed(c, r.path) || r.httpMethod == "OPTIONS" || PassesFrom(0, c, r, now, verify)
  {
    var bypass := ShouldBypassSecurity(c, r.path);
    if bypass || r.httpMethod == "OPTIONS" {
      return Next;
    }
    var err := ValidateAdvancedSecurity(c, r, now, verify);
    if err.Some? {
      return Unauthorized(err.value);
    }
    return Next;
  }
}
