/** The input-validation middleware: content-type, header, query-parameter
    and body checks run in that order on each request. The forbidden
    patterns are regular expressions; each comes in as the matcher compiled
    from it (a predicate on strings). The decoded JSON body comes in as a
    parameter, since decoding is outside the model. */
module InputValidation {
  import opened Common

  // ---------------------------------------------------------------------
  // Configuration and errors
  // ---------------------------------------------------------------------

  datatype InputValidationConfig = InputValidationConfig(
    maxJSONDepth: int,
    maxArrayLength: int,
    maxStringLength: int,
    maxNumericValue: real,
    forbiddenPatterns: seq<string>,
    allowedContentTypes: seq<string>)

  const JsonType: string := "application/json"
  const FormType: string := "application/x-www-form-urlencoded"
  const MultipartType: string := "multipart/form-data"

  function DefaultInputValidationConfig(): (c: InputValidationConfig)
    ensures c.maxJSONDepth == 10 && c.maxArrayLength == 1000 && c.maxStringLength == 10000
    ensures c.maxNumericValue == 10000000000.0
    ensures |c.forbiddenPatterns| == 10
    ensures c.allowedContentTypes == [JsonType, FormType, MultipartType]
  {
    InputValidationConfig(10, 1000, 10000, 10000000000.0,
      ["<script", "javascript:", "vbscript:", "onload=", "onerror=", "onclick=",
       "<iframe", "eval\\(", "setTimeout\\(", "setInterval\\("],
      [JsonType, FormType, MultipartType])
  }

  /** Why a request was refused; the middleware's error texts are left as
      these values. */
  datatype InputError =
    | MissingContentType
    | ContentTypeNotAllowed(mainType: string)
    | NullByte
    | ControlCharacter(c: char)
    | ForbiddenPattern
    | HeaderMalicious(name: string, cause: InputError)
    | HeaderInjection(name: string)
    | QueryKeyTooLong(key: string)
    | QueryKeyMalicious(key: string, cause: InputError)
    | QueryValueTooLong(key: string)
    | QueryValueMalicious(key: string, cause: InputError)
    | BodyReadFailed
    | JsonMalicious(cause: InputError)
    | InvalidJson
    | NestingTooDeep(depth: int)
    | StringTooLong(length: int)
    | NumberOutOfRange(value: real)
    | ArrayTooLong(length: int)
    | ObjectKeyTooLong(key: string)
    | ObjectKeyMalicious(key: string, cause: InputError)

  /** A compiled forbidden pattern: does it match somewhere in the string. */
  type Matcher = string -> bool

  // ---------------------------------------------------------------------
  // Which requests have their body checked
  // ---------------------------------------------------------------------

  /** GET, HEAD and OPTIONS bodies are never checked; a DELETE body only
      when its content type names JSON, a form or multipart data; every
      other method's body always. */
  function ShouldValidateRequestBody(httpMethod: string, contentType: string): (r: bool)
    ensures httpMethod == "GET" || httpMethod == "HEAD" || httpMethod == "OPTIONS" ==> !r
    ensures httpMethod == "DELETE" && contentType == "" ==> !r
    ensures httpMethod == "DELETE" && Contains(contentType, JsonType) ==> r
    ensures httpMethod !in {"GET", "HEAD", "OPTIONS", "DELETE"} ==> r
  {
    if httpMethod == "GET" || httpMethod == "HEAD" || httpMethod == "OPTIONS" then false
    else if httpMethod == "DELETE" then
      contentType != "" &&
      (Contains(contentType, JsonType) || Contains(contentType, FormType) || Contains(contentType, MultipartType))
    else true
  }

  // ---------------------------------------------------------------------
  // Content type
  // ---------------------------------------------------------------------

  /** The media type without its parameters: the text before the first ';',
      trimmed. */
  function MainType(contentType: string): string
  {
    TrimSpace(Split(contentType, ';')[0])
  }

  /** Parameters after a ';' do not change the media type. */
  lemma MainTypeDropsParameters(mediaType: string, params: string)
    requires ';' !in mediaType
    ensures MainType(mediaType + ";" + params) == TrimSpace(mediaType)
  {
    SplitPrefix(mediaType, params, ';');
  }

  /** Some allowed type equals the media type up to letter case. */
  predicate AllowedType(mainType: string, allowed: seq<string>)
  {
    exists i :: 0 <= i < |allowed| && EqualFold(mainType, allowed[i])
  }

  /** A missing content type is accepted only for GET and HEAD; a present
      one when its media type is allowed. */
  predicate ContentTypeAccepted(httpMethod: string, contentType: string, allowed: seq<string>)
  {
    if contentType == "" then httpMethod == "GET" || httpMethod == "HEAD"
    else AllowedType(MainType(contentType), allowed)
  }

  method ValidateContentType(httpMethod: string, contentType: string, allowed: seq<string>)
    returns (err: Option<InputError>)
    ensures err.None? <==> ContentTypeAccepted(httpMethod, contentType, allowed)
    ensures err.Some? && contentType == "" ==> err.value == MissingContentType
    ensures err.Some? && contentType != "" ==> err.value == ContentTypeNotAllowed(MainType(contentType))
  {
    if contentType == "" && httpMethod != "GET" && httpMethod != "HEAD" {
      return Some(MissingContentType);
    }
    if contentType == "" {
      return None;
    }
    var mainType := MainType(contentType);
    var i := 0;
    while i < |allowed|
      invariant 0 <= i <= |allowed|
      invariant forall j :: 0 <= j < i ==> !EqualFold(mainType, allowed[j])
    {
      if EqualFold(mainType, allowed[i]) {
        return None;
      }
      i := i + 1;
    }
    return Some(ContentTypeNotAllowed(mainType));
  }

  /** Parameters and letter case do not matter: a content type with
      parameters is accepted exactly when its media type, trimmed, equals
      an allowed type up to case. */
  lemma ParametersIgnored(httpMethod: string, mediaType: string, params: string, allowed: seq<string>)
    requires ';' !in mediaType
    ensures ContentTypeAccepted(httpMethod, mediaType + ";" + params, allowed) <==>
      AllowedType(TrimSpace(mediaType), allowed)
  {
    MainTypeDropsParameters(mediaType, params);
    assert (mediaType + ";" + params)[|mediaType|] == ';';
  }

  // ---------------------------------------------------------------------
  // Strings
  // ---------------------------------------------------------------------

  /** Go's unicode.IsControl: the C0 controls and U+007F..U+009F. */
  predicate IsControl(c: char)
  {
    c as int <= 0x1F || 0x7F <= c as int <= 0x9F
  }

  /** A control character other than newline, carriage return and tab. */
  predicate BadControl(c: char)
  {
    IsControl(c) && c != '\n' && c != '\r' && c != '\t'
  }

  /** The first disallowed control character of s, if any. */
  function FirstBadControl(s: string): (r: Option<char>)
    ensures r.None? <==> forall i :: 0 <= i < |s| ==> !BadControl(s[i])
    ensures r.Some? ==> BadControl(r.value) && r.value in s
  {
    if s == [] then None
    else if BadControl(s[0]) then Some(s[0])
    else FirstBadControl(s[1..])
  }

  predicate AnyMatches(patterns: seq<Matcher>, s: string)
  {
    exists i :: 0 <= i < |patterns| && patterns[i](s)
  }

  /** The string check: a NUL byte first, then a disallowed control
      character, then any forbidden pattern. */
  function StringVerdict(s: string, patterns: seq<Matcher>): (r: Option<InputError>)
    ensures r.Some? ==> r.value == NullByte || r.value.ControlCharacter? || r.value == ForbiddenPattern
  {
    if '\0' in s then Some(NullByte)
    else if FirstBadControl(s).Some? then Some(ControlCharacter(FirstBadControl(s).value))
    else if AnyMatches(patterns, s) then Some(ForbiddenPattern)
    else None
  }

  /** A string passes exactly when every character is printable or one of
      \n, \r and \t, and no pattern matches it. */
  lemma StringVerdictAccepts(s: string, patterns: seq<Matcher>)
    ensures StringVerdict(s, patterns).None? <==>
      (forall i :: 0 <= i < |s| ==> !BadControl(s[i])) && !AnyMatches(patterns, s)
  {
    if '\0' in s {
      var i :| 0 <= i < |s| && s[i] == '\0';
      assert BadControl(s[i]);
    }
  }

  method ValidateString(s: string, patterns: seq<Matcher>) returns (err: Option<InputError>)
    ensures err == StringVerdict(s, patterns)
  {
    if '\0' in s {
      return Some(NullByte);
    }
    var i := 0;
    while i < |s|
      invariant 0 <= i <= |s|
      invariant FirstBadControl(s) == FirstBadControl(s[i..])
    {
      assert s[i..][1..] == s[i + 1..];
      if BadControl(s[i]) {
        return Some(ControlCharacter(s[i]));
      }
      i := i + 1;
    }
    var j := 0;
    while j < |patterns|
      invariant 0 <= j <= |patterns|
      invariant forall k :: 0 <= k < j ==> !patterns[k](s)
    {
      if patterns[j](s) {
        return Some(ForbiddenPattern);
      }
      j := j + 1;
    }
    return None;
  }

  // ---------------------------------------------------------------------
  // Headers and query parameters
  // ---------------------------------------------------------------------

  /** Internal security headers are not inspected. */
  predicate SkippedHeader(name: string)
  {
    HasPrefix(name, "X-") && Contains(name, "Security")
  }

  /** The verdict on one header's values, in order: a failing string check,
      then a line break (header injection). */
  function HeaderValuesVerdict(name: string, values: seq<string>, patterns: seq<Matcher>): (r: Option<InputError>)
    ensures r.None? <==> forall j :: 0 <= j < |values| ==>
      StringVerdict(values[j], patterns).None? && '\n' !in values[j] && '\r' !in values[j]
    ensures r.Some? ==> r.value.HeaderMalicious? || r.value.HeaderInjection?
  {
    if values == [] then None
    else if StringVerdict(values[0], patterns).Some? then Some(HeaderMalicious(name, StringVerdict(values[0], patterns).value))
    else if '\n' in values[0] || '\r' in values[0] then Some(HeaderInjection(name))
    else
      var rest := HeaderValuesVerdict(name, values[1..], patterns);
      assert forall j :: 1 <= j < |values| ==> values[j] == values[1..][j - 1];
      rest
  }

  function HeaderVerdict(name: string, values: seq<string>, patterns: seq<Matcher>): Option<InputError>
  {
    if SkippedHeader(name) then None else HeaderValuesVerdict(name, values, patterns)
  }

  /** Every header passes, in whatever order the map is walked. */
  method ValidateHeaders(headers: map<string, seq<string>>, patterns: seq<Matcher>) returns (err: Option<InputError>)
    ensures err.None? <==> forall name :: name in headers ==> HeaderVerdict(name, headers[name], patterns).None?
    ensures err.Some? ==> exists name :: name in headers && err == HeaderVerdict(name, headers[name], patterns)
  {
    var names := headers.Keys;
    ghost var done: set<string> := {};
    while names != {}
      invariant names == headers.Keys - done && done <= headers.Keys
      invariant forall name :: name in done ==> HeaderVerdict(name, headers[name], patterns).None?
      decreases names
    {
      var name :| name in names;
      var verdict := HeaderVerdict(name, headers[name], patterns);
      if verdict.Some? {
        return verdict;
      }
      names := names - {name};
      done := done + {name};
    }
    return None;
  }

  /** The verdict on one query parameter's values, in order. */
  function QueryValuesVerdict(key: string, values: seq<string>, patterns: seq<Matcher>, maxLength: int): (r: Option<InputError>)
    ensures r.None? <==> forall j :: 0 <= j < |values| ==>
      Utf8Len(values[j]) <= maxLength && StringVerdict(values[j], patterns).None?
  {
    if values == [] then None
    else if Utf8Len(values[0]) > maxLength then Some(QueryValueTooLong(key))
    else if StringVerdict(values[0], patterns).Some? then Some(QueryValueMalicious(key, StringVerdict(values[0], patterns).value))
    else
      var rest := QueryValuesVerdict(key, values[1..], patterns, maxLength);
      assert forall j :: 1 <= j < |values| ==> values[j] == values[1..][j - 1];
      rest
  }

  /** The key is checked for length and content before its values. */
  function QueryVerdict(key: string, values: seq<string>, patterns: seq<Matcher>, maxLength: int): (r: Option<InputError>)
    ensures Utf8Len(key) > maxLength ==> r == Some(QueryKeyTooLong(key))
    ensures r.None? <==>
      (Utf8Len(key) <= maxLength && StringVerdict(key, patterns).None?
       && QueryValuesVerdict(key, values, patterns, maxLength).None?)
  {
    if Utf8Len(key) > maxLength then Some(QueryKeyTooLong(key))
    else if StringVerdict(key, patterns).Some? then Some(QueryKeyMalicious(key, StringVerdict(key, patterns).value))
    else QueryValuesVerdict(key, values, patterns, maxLength)
  }

  method ValidateQueryParams(query: map<string, seq<string>>, patterns: seq<Matcher>, maxLength: int)
    returns (err: Option<InputError>)
    ensures err.None? <==> forall key :: key in query ==> QueryVerdict(key, query[key], patterns, maxLength).None?
    ensures err.Some? ==> exists key :: key in query && err == QueryVerdict(key, query[key], patterns, maxLength)
  {
    var keys := query.Keys;
    ghost var done: set<string> := {};
    while keys != {}
      invariant keys == query.Keys - done && done <= query.Keys
      invariant forall key :: key in done ==> QueryVerdict(key, query[key], patterns, maxLength).None?
      decreases keys
    {
      var key :| key in keys;
      var verdict := QueryVerdict(key, query[key], patterns, maxLength);
      if verdict.Some? {
        return verdict;
      }
      keys := keys - {key};
      done := done + {key};
    }
    return None;
  }

  /** A parameter value one byte over the limit is refused whatever its
      content. */
  lemma LongQueryValueRefused(query: map<string, seq<string>>, key: string, j: int, patterns: seq<Matcher>, maxLength: int)
    requires key in query && 0 <= j < |query[key]| && Utf8Len(query[key][j]) > maxLength
    ensures QueryVerdict(key, query[key], patterns, maxLength).Some?
  {
  }

  // ---------------------------------------------------------------------
  // JSON bodies
  // ---------------------------------------------------------------------

  /** A decoded JSON value; numbers are reals. */
  datatype Json =
    | JNull
    | JBool(b: bool)
    | JNumber(n: real)
    | JString(s: string)
    | JArray(items: seq<Json>)
    | JObject(fields: map<string, Json>)

  /** The structural rules for a value found at nesting depth `depth`. */
  predicate JsonOk(v: Json, c: InputValidationConfig, patterns: seq<Matcher>, depth: int)
    decreases v, 0
  {
    depth <= c.maxJSONDepth &&
    match v
    case JString(s) => Utf8Len(s) <= c.maxStringLength && StringVerdict(s, patterns).None?
    case JNumber(n) => -c.maxNumericValue <= n <= c.maxNumericValue
    case JArray(items) =>
      |items| <= c.maxArrayLength && forall i :: 0 <= i < |items| ==> JsonOk(items[i], c, patterns, depth + 1)
    case JObject(fields) =>
      forall k :: k in fields ==> FieldOk(k, fields[k], c, patterns, depth)
    case _ => true
  }

  predicate FieldOk(k: string, v: Json, c: InputValidationConfig, patterns: seq<Matcher>, depth: int)
    decreases v, 1
  {
    Utf8Len(k) <= c.maxStringLength && StringVerdict(k, patterns).None? && JsonOk(v, c, patterns, depth + 1)
  }

  /** Checks a value and everything inside it; arrays in order, objects in
      whatever order the map is walked. */
  method ValidateJSONStructure(v: Json, c: InputValidationConfig, patterns: seq<Matcher>, depth: int)
    returns (err: Option<InputError>)
    ensures err.None? <==> JsonOk(v, c, patterns, depth)
    ensures depth > c.maxJSONDepth ==> err == Some(NestingTooDeep(depth))
    decreases v
  {
    if depth > c.maxJSONDepth {
      return Some(NestingTooDeep(depth));
    }
    match v {
      case JString(s) =>
        if Utf8Len(s) > c.maxStringLength {
          return Some(StringTooLong(Utf8Len(s)));
        }
        err := ValidateString(s, patterns);
      case JNumber(n) =>
        if n > c.maxNumericValue || n < -c.maxNumericValue {
          return Some(NumberOutOfRange(n));
        }
        return None;
      case JArray(items) =>
        if |items| > c.maxArrayLength {
          return Some(ArrayTooLong(|items|));
        }
        var i := 0;
        while i < |items|
          invariant 0 <= i <= |items|
          invariant forall j :: 0 <= j < i ==> JsonOk(items[j], c, patterns, depth + 1)
        {
          var e := ValidateJSONStructure(items[i], c, patterns, depth + 1);
          if e.Some? {
            return e;
          }
          i := i + 1;
        }
        return None;
      case JObject(fields) =>
        var keys := fields.Keys;
        ghost var done: set<string> := {};
        while keys != {}
          invariant keys == fields.Keys - done && done <= fields.Keys
          invariant forall k :: k in done ==> FieldOk(k, fields[k], c, patterns, depth)
          decreases keys
        {
          var k :| k in keys;
          if Utf8Len(k) > c.maxStringLength {
            return Some(ObjectKeyTooLong(k));
          }
          var e := ValidateString(k, patterns);
          if e.Some? {
            return Some(ObjectKeyMalicious(k, e.value));
          }
          e := ValidateJSONStructure(fields[k], c, patterns, depth + 1);
          if e.Some? {
            return e;
          }
          keys := keys - {k};
          done := done + {k};
        }
        return None;
      case _ =>
        return None;
    }
  }

  /** n arrays, each holding the next, around a null. */
  function Nest(n: nat): Json
  {
    if n == 0 then JNull else JArray([Nest(n - 1)])
  }

  /** The nesting limit is exact: n levels of arrays pass at depth d exactly
      when d + n stays within the maximum depth. */
  lemma {:induction false} NestingLimit(n: nat, c: InputValidationConfig, patterns: seq<Matcher>, depth: int)
    requires c.maxArrayLength >= 1
    ensures JsonOk(Nest(n), c, patterns, depth) <==> depth + n <= c.maxJSONDepth
  {
    if n > 0 {
      NestingLimit(n - 1, c, patterns, depth + 1);
      var items := Nest(n).items;
      assert |items| == 1 && items[0] == Nest(n - 1);
    }
  }

  /** The body check for a JSON body: the raw text as a string, then the
      decoding, then the structure. */
  predicate JsonBodyOk(raw: string, decoded: Option<Json>, c: InputValidationConfig, patterns: seq<Matcher>)
  {
    StringVerdict(raw, patterns).None? && decoded.Some? && JsonOk(decoded.value, c, patterns, 0)
  }

  method ValidateJSONBody(raw: string, decoded: Option<Json>, c: InputValidationConfig, patterns: seq<Matcher>)
    returns (err: Option<InputError>)
    ensures err.None? <==> JsonBodyOk(raw, decoded, c, patterns)
    ensures StringVerdict(raw, patterns).Some? ==> err == Some(JsonMalicious(StringVerdict(raw, patterns).value))
    ensures StringVerdict(raw, patterns).None? && decoded.None? ==> err == Some(InvalidJson)
  {
    var e := ValidateString(raw, patterns);
    if e.Some? {
      return Some(JsonMalicious(e.value));
    }
    if decoded.None? {
      return Some(InvalidJson);
    }
    err := ValidateJSONStructure(decoded.value, c, patterns, 0);
  }

  /** The body as read: None when the request has no body, an error when
      reading it failed, and otherwise its text. */
  predicate BodyOk(contentType: string, body: Option<Result<string>>, decoded: Option<Json>,
                   c: InputValidationConfig, patterns: seq<Matcher>)
  {
    match body
    case None => true
    case Some(Err(_)) => false
    case Some(Ok(text)) =>
      if text == "" then true
      else if Contains(contentType, JsonType) then JsonBodyOk(text, decoded, c, patterns)
      else StringVerdict(text, patterns).None?
  }

  method ValidateRequestBody(contentType: string, body: Option<Result<string>>, decoded: Option<Json>,
                             c: InputValidationConfig, patterns: seq<Matcher>)
    returns (err: Option<InputError>)
    ensures err.None? <==> BodyOk(contentType, body, decoded, c, patterns)
    ensures body.Some? && body.value.Err? ==> err == Some(BodyReadFailed)
  {
    if body.None? {
      return None;
    }
    if body.value.Err? {
      return Some(BodyReadFailed);
    }
    var text := body.value.value;
    if text == "" {
      return None;
    }
    if Contains(contentType, JsonType) {
      err := ValidateJSONBody(text, decoded, c, patterns);
    } else {
      err := ValidateString(text, patterns);
    }
  }

  // ---------------------------------------------------------------------
  // The middleware
  // ---------------------------------------------------------------------

  datatype Request = Request(
    httpMethod: string,
    contentType: string,
    headers: map<string, seq<string>>,
    query: map<string, seq<string>>,
    body: Option<Result<string>>,
    decoded: Option<Json>)

  /** Passed on to the next handler, or refused with 400 and a message. */
  datatype Outcome = Next | BadRequest(message: string)

  predicate HeadersOk(r: Request, patterns: seq<Matcher>)
  {
    forall name :: name in r.headers ==> HeaderVerdict(name, r.headers[name], patterns).None?
  }

  predicate QueryOk(r: Request, patterns: seq<Matcher>, maxLength: int)
  {
    forall key :: key in r.query ==> QueryVerdict(key, r.query[key], patterns, maxLength).None?
  }

  /** What the middleware lets through: an accepted content type, clean
      headers and query, and a clean body where the body is checked. */
  predicate RequestOk(r: Request, c: InputValidationConfig, patterns: seq<Matcher>)
  {
    && ContentTypeAccepted(r.httpMethod, r.contentType, c.allowedContentTypes)
    && HeadersOk(r, patterns)
    && QueryOk(r, patterns, c.maxStringLength)
    && (ShouldValidateRequestBody(r.httpMethod, r.contentType) ==> BodyOk(r.contentType, r.body, r.decoded, c, patterns))
  }

  /** The four stages in order; the first that fails decides the message. */
  method EnhancedInputValidation(r: Request, c: InputValidationConfig, patterns: seq<Matcher>) returns (o: Outcome)
    ensures !ContentTypeAccepted(r.httpMethod, r.contentType, c.allowedContentTypes) ==>
      o == BadRequest("Invalid content type")
    ensures ContentTypeAccepted(r.httpMethod, r.contentType, c.allowedContentTypes) && !HeadersOk(r, patterns) ==>
      o == BadRequest("Invalid request headers")
    ensures ContentTypeAccepted(r.httpMethod, r.contentType, c.allowedContentTypes) && HeadersOk(r, patterns) && !QueryOk(r, patterns, c.maxStringLength) ==>
      o == BadRequest("Invalid query parameters")
    ensures o == Next <==> RequestOk(r, c, patterns)
  {
    var e := ValidateContentType(r.httpMethod, r.contentType, c.allowedContentTypes);
    if e.Some? {
      return BadRequest("Invalid content type");
    }
    e := ValidateHeaders(r.headers, patterns);
    if e.Some? {
      return BadRequest("Invalid request headers");
    }
    e := ValidateQueryParams(r.query, patterns, c.maxStringLength);
    if e.Some? {
      return BadRequest("Invalid query parameters");
    }
    if ShouldValidateRequestBody(r.httpMethod, r.contentType) {
      e := ValidateRequestBody(r.contentType, r.body, r.decoded, c, patterns);
      if e.Some? {
        return BadRequest("Invalid request body");
      }
    }
    return Next;
  }
}
