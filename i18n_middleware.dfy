/** The language middleware: it normalises a language parameter and picks
    the request's language from, in order, the `lang` query parameter, the
    X-Language header, the Accept-Language header and the default. The
    request's three values come in as strings ("" when absent). */
module I18nMiddleware {
  import opened Common
  import opened I18nModel

  const VietnameseAliases: set<string> := {"vi", "vn", "vietnamese", "tieng-viet", "tiếng-việt"}
  const EnglishAliases: set<string> := {"en", "eng", "english"}

  /** The parameter trimmed and lower-cased. */
  function Normalize(param: string): (r: string)
    ensures |r| <= |param|
    ensures r != [] ==> !IsGoSpace(r[0]) && !IsGoSpace(r[|r| - 1])
    ensures Lower(r) == r
  {
    var t := TrimSpace(param);
    LowerIdempotent(t);
    assert t != [] ==> !IsGoSpace(LowerChar(t[0])) && !IsGoSpace(LowerChar(t[|t| - 1])) by {
      if t != [] {
        LowerKeepsSpace(t[0]);
        LowerKeepsSpace(t[|t| - 1]);
      }
    }
    Lower(t)
  }

  /** The language a parameter names; anything unrecognised is the default
      language. */
  function ParseLanguageParam(param: string): (r: string)
    ensures IsSupportedLanguage(r)
    ensures r == Vietnamese <==> Normalize(param) in VietnameseAliases
    ensures Normalize(param) !in VietnameseAliases + EnglishAliases ==> r == DefaultLanguage
  {
    var p := Normalize(param);
    if p in VietnameseAliases then Vietnamese
    else if p in EnglishAliases then English
    else DefaultLanguage
  }

  /** Lower-casing covers the Vietnamese letters: the capitalised alias
      with surrounding spaces names Vietnamese. */
  lemma CapitalisedVietnameseAlias()
    ensures ParseLanguageParam(" TI\U{1EBE}NG-VI\U{1EC6}T ") == Vietnamese
  {
    TrimPaddedAlias();
    LowerCapitalisedAlias();
  }

  lemma TrimPaddedAlias()
    ensures TrimSpace(" TI\U{1EBE}NG-VI\U{1EC6}T ") == "TI\U{1EBE}NG-VI\U{1EC6}T"
  {
    var t := "TI\U{1EBE}NG-VI\U{1EC6}T";
    var s := " " + t + " ";
    assert s[1..] == t + " ";
    assert (t + " ")[..|t|] == t;
    assert forall i :: 0 <= i < |t| ==> !IsGoSpace(t[i]);
    assert Trim(t, IsGoSpace) == t;
    assert Trim(t + " ", IsGoSpace) == t;
    assert s == " TI\U{1EBE}NG-VI\U{1EC6}T ";
  }


  lemma LowerCapitalisedAlias()
    ensures Lower("TI\U{1EBE}NG-VI\U{1EC6}T") == "ti\U{1EBF}ng-vi\U{1EC7}t"
  {
    var t := "TI\U{1EBE}NG-VI\U{1EC6}T";
    var u := "ti\U{1EBF}ng-vi\U{1EC7}t";
    var l := Lower(t);
    forall i | 0 <= i < |t|
      ensures l[i] == u[i]
    {
      assert l[i] == LowerChar(t[i]);
    }
  }



  /** Surrounding spaces and letter case do not matter. */
  lemma ParseIgnoresCaseAndSpace(a: string, b: string)
    requires Normalize(a) == Normalize(b)
    ensures ParseLanguageParam(a) == ParseLanguageParam(b)
  {
  }

  /** The language chosen for a request, as written: each non-empty source
      in priority order is parsed and accepted if supported. */
  function DetectLanguageAsWritten(query: string, xLanguage: string, acceptLanguage: string): (r: string)
    ensures IsSupportedLanguage(r)
  {
    if query != "" && IsSupportedLanguage(ParseLanguageParam(query)) then ParseLanguageParam(query)
    else if xLanguage != "" && IsSupportedLanguage(ParseLanguageParam(xLanguage)) then ParseLanguageParam(xLanguage)
    else if acceptLanguage != "" && IsSupportedLanguage(ParseLanguageFromHeader(acceptLanguage)) then ParseLanguageFromHeader(acceptLanguage)
    else DefaultLanguage
  }

  /** Because parsing never yields an unsupported language, the support
      checks never fail: the first non-empty source decides, even when its
      value names no language at all. */
  lemma FirstNonEmptySourceDecides(query: string, xLanguage: string, acceptLanguage: string)
    ensures query != "" ==> DetectLanguageAsWritten(query, xLanguage, acceptLanguage) == ParseLanguageParam(query)
    ensures query == "" && xLanguage != "" ==>
      DetectLanguageAsWritten(query, xLanguage, acceptLanguage) == ParseLanguageParam(xLanguage)
    ensures query == "" && xLanguage == "" ==>
      DetectLanguageAsWritten(query, xLanguage, acceptLanguage) == ParseLanguageFromHeader(acceptLanguage)
  {
  }

  /** An unrecognised query value hides a Vietnamese X-Language header. */
  lemma UnrecognisedQueryHidesHeader()
    ensures DetectLanguageAsWritten("fr", "vi", "") == English
  {
    assert Normalize("fr") == "fr";
  }

  /** The language a parameter names, if it names one. */
  function ParseLanguageParamOpt(param: string): (r: Option<string>)
    ensures r.Some? <==> Normalize(param) in VietnameseAliases + EnglishAliases
    ensures r.Some? ==> r.value == ParseLanguageParam(param)
  {
    var p := Normalize(param);
    if p in VietnameseAliases then Some(Vietnamese)
    else if p in EnglishAliases then Some(English)
    else None
  }

  /** The Accept-Language header's language, if it names one. */
  function HeaderLanguageOpt(header: string): (r: Option<string>)
    ensures r.Some? <==> HasPrefix(header, "vi") || HasPrefix(header, "en")
    ensures r.Some? ==> r.value == ParseLanguageFromHeader(header)
  {
    HeaderLanguageIsPrefix(header);
    if HasPrefix(header, "vi") then Some(Vietnamese)
    else if HasPrefix(header, "en") then Some(English)
    else None
  }

  /** The language chosen for a request, as the priority list intends:
      a source that names no language passes to the next one. */
  function DetectLanguage(query: string, xLanguage: string, acceptLanguage: string): (r: string)
    ensures IsSupportedLanguage(r)
    ensures ParseLanguageParamOpt(query).Some? ==> r == ParseLanguageParam(query)
    ensures ParseLanguageParamOpt(query).None? && ParseLanguageParamOpt(xLanguage).Some? ==>
      r == ParseLanguageParam(xLanguage)
    ensures ParseLanguageParamOpt(query).None? && ParseLanguageParamOpt(xLanguage).None? ==>
      r == (if HeaderLanguageOpt(acceptLanguage).Some? then ParseLanguageFromHeader(acceptLanguage) else DefaultLanguage)
  {
    match ParseLanguageParamOpt(query)
    case Some(l) => l
    case None =>
      match ParseLanguageParamOpt(xLanguage)
      case Some(l) => l
      case None =>
        match HeaderLanguageOpt(acceptLanguage)
        case Some(l) => l
        case None => DefaultLanguage
  }

  /** The intended choice agrees with the written one whenever every
      non-empty source names a language. */
  lemma DetectAgreesOnRecognisedValues(query: string, xLanguage: string, acceptLanguage: string)
    requires query != "" ==> ParseLanguageParamOpt(query).Some?
    requires xLanguage != "" ==> ParseLanguageParamOpt(xLanguage).Some?
    ensures DetectLanguage(query, xLanguage, acceptLanguage) == DetectLanguageAsWritten(query, xLanguage, acceptLanguage)
  {
    if query == "" {
      assert Normalize(query) == "";
      if xLanguage == "" {
        assert Normalize(xLanguage) == "";
        HeaderLanguageIsPrefix(acceptLanguage);
      }
    }
  }
}
