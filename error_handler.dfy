/** How the error-handling middleware turns a plain error message into an
    application error code. */
module ErrorHandler {
  import opened Common
  import opened ErrorTypes
  import EnhancedResponse

  /** Equality, then prefix, then suffix, then the full scan. */
  method ContainsStr(s: string, sub: string) returns (b: bool)
    ensures b <==> Contains(s, sub)
  {
    if |s| < |sub| {
      return false;
    }
    if s == sub {
      assert OccursAt(s, sub, 0);
      return true;
    }
    if |s| == |sub| {
      return false;
    }
    if s[..|sub|] == sub {
      assert OccursAt(s, sub, 0);
      return true;
    }
    if s[|s| - |sub|..] == sub {
      assert OccursAt(s, sub, |s| - |sub|);
      return true;
    }
    b := EnhancedResponse.FindSubstring(s, sub);
  }

  const BindingKeywords: seq<string> := ["binding", "validation", "required", "invalid", "format",
                                         "json", "unmarshal", "decode", "parse"]

  /** A message is a binding error exactly when it contains a binding keyword. */
  method IsBindingError(msg: string) returns (b: bool)
    ensures b <==> EnhancedResponse.ContainsAny(msg, BindingKeywords)
  {
    var k := 0;
    while k < |BindingKeywords|
      invariant 0 <= k <= |BindingKeywords|
      invariant forall j :: 0 <= j < k ==> !Contains(msg, BindingKeywords[j])
    {
      var c := ContainsStr(msg, BindingKeywords[k]);
      if c {
        return true;
      }
      k := k + 1;
    }
    return false;
  }

  /** The code chosen for a generic error: end of input is invalid input,
      exactly "invalid character" is invalid format, other binding errors
      fail validation, and everything else is an internal error. */
  method ConvertGenericError(msg: string) returns (code: string)
    ensures msg in {"EOF", "unexpected EOF"} ==> code == InvalidInput
    ensures msg == "invalid character" ==> code == InvalidFormat
    ensures msg !in {"EOF", "unexpected EOF", "invalid character"} ==>
      (code == ValidationFailed <==> EnhancedResponse.ContainsAny(msg, BindingKeywords))
    ensures msg !in {"EOF", "unexpected EOF", "invalid character"} ==>
      (code == InternalServer <==> !EnhancedResponse.ContainsAny(msg, BindingKeywords))
  {
    if msg == "EOF" || msg == "unexpected EOF" {
      return InvalidInput;
    }
    if msg == "invalid character" {
      return InvalidFormat;
    }
    var binding := IsBindingError(msg);
    code := if binding then ValidationFailed else InternalServer;
  }
}
