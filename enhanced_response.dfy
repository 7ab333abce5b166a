/** Status-to-code mapping of the enhanced error responses and the
    substring search used to recognise database errors. */
module EnhancedResponse {
  import opened Common
  import opened ErrorTypes

  /** The error code reported for an HTTP status. */
  function ErrorCodeFromStatus(status: int): (code: string)
    ensures code in DeclaredCodes
  {
    match status
    case 400 => InvalidInput
    case 401 => Unauthorized
    case 403 => Forbidden
    case 404 => NotFound
    case 409 => Conflict
    case 422 => ValidationFailed
    case 429 => RateLimited
    case 500 => InternalServer
    case 503 => ServiceUnavailable
    case _ => InternalServer
  }

  /** Going from a status to its code and back gives the same status for
      every listed status except 422, whose code maps back to 400; any
      unlisted status becomes an internal server error. */
  lemma StatusRoundTrip(status: int)
    ensures status in {400, 401, 403, 404, 409, 429, 500, 503} ==>
      GetHTTPStatus(ErrorCodeFromStatus(status)) == status
    ensures status == 422 ==>
      ErrorCodeFromStatus(status) == ValidationFailed && GetHTTPStatus(ErrorCodeFromStatus(status)) == 400
    ensures status !in {400, 401, 403, 404, 409, 422, 429, 500, 503} ==>
      ErrorCodeFromStatus(status) == InternalServer
  {
  }

  /** Tries every start position up to |s| - |sub|. */
  method FindSubstring(s: string, sub: string) returns (found: bool)
    ensures found <==> Contains(s, sub)
  {
    var i := 0;
    while i <= |s| - |sub|
      invariant 0 <= i
      invariant |sub| <= |s| ==> i <= |s| - |sub| + 1
      invariant forall j :: 0 <= j < i && j <= |s| - |sub| ==> !OccursAt(s, sub, j)
    {
      if s[i..i + |sub|] == sub {
        assert OccursAt(s, sub, i);
        return true;
      }
      i := i + 1;
    }
    return false;
  }

  /** A length check followed by the search. */
  method ContainsStr(s: string, sub: string) returns (b: bool)
    ensures b <==> Contains(s, sub)
  {
    if |s| < |sub| {
      return false;
    }
    b := FindSubstring(s, sub);
  }

  const DbKeywords: seq<string> := ["sql", "database", "connection", "driver", "postgres", "pq:",
                                    "constraint", "foreign key", "unique", "not null", "check"]

  /** Some keyword of the list occurs in the message. */
  predicate ContainsAny(msg: string, keywords: seq<string>)
  {
    exists k :: 0 <= k < |keywords| && Contains(msg, keywords[k])
  }

  /** A missing error is never a database error; otherwise one is exactly
      when its message contains a database keyword. */
  method IsDatabaseError(err: Option<string>) returns (b: bool)
    ensures err.None? ==> !b
    ensures err.Some? ==> (b <==> ContainsAny(err.value, DbKeywords))
  {
    if err.None? {
      return false;
    }
    var k := 0;
    while k < |DbKeywords|
      invariant 0 <= k <= |DbKeywords|
      invariant forall j :: 0 <= j < k ==> !Contains(err.value, DbKeywords[j])
    {
      var c := ContainsStr(err.value, DbKeywords[k]);
      if c {
        return true;
      }
      k := k + 1;
    }
    return false;
  }
}
