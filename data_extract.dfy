/** SQL text generation of the exam import script: a string becomes a
    quoted SQL literal, and a list of strings a PostgreSQL text-array
    literal. The reference for both is how PostgreSQL reads them back: a
    literal between single quotes with '' standing for one quote
    (standard_conforming_strings on, so a backslash is an ordinary
    character there), and an array of double-quoted elements in which a
    backslash escapes the next character. */
module DataExtract {
  import opened Common

  // -------------------------------------------------------------------
  // Reading SQL text back
  // -------------------------------------------------------------------

  /** The text between the quotes of a SQL literal, with each '' read as
      one quote; a lone quote would have ended the literal early. */
  function UnescapeQuotes(t: string): (r: Option<string>)
    decreases |t|
  {
    if t == [] then Some([])
    else if t[0] == '\'' then
      if |t| >= 2 && t[1] == '\'' then
        match UnescapeQuotes(t[2..])
        case None => None
        case Some(s) => Some("'" + s)
      else None
    else
      match UnescapeQuotes(t[1..])
      case None => None
      case Some(s) => Some([t[0]] + s)
  }

  /** The value of a quoted SQL literal. */
  function SqlLiteralValue(lit: string): Option<string>
  {
    if |lit| >= 2 && lit[0] == '\'' && lit[|lit| - 1] == '\'' then UnescapeQuotes(lit[1..|lit| - 1]) else None
  }

  /** Python's str.replace of one character, unfolded at the front. */
  lemma ReplaceCons(c: char, s: string, p: char, rep: string)
    ensures Replace([c] + s, [p], rep) == (if c == p then rep else [c]) + Replace(s, [p], rep)
  {
    assert ([c] + s)[..1] == [c];
    assert ([c] + s)[1..] == s;
  }

  /** Doubling the quotes is undone by reading the literal. */
  lemma {:induction false} QuotesRoundTrip(s: string)
    ensures UnescapeQuotes(Replace(s, "'", "''")) == Some(s)
    decreases |s|
  {
    if s != [] {
      ReplaceCons(s[0], s[1..], '\'', "''");
      assert [s[0]] + s[1..] == s;
      QuotesRoundTrip(s[1..]);
      var rest := Replace(s[1..], "'", "''");
      if s[0] == '\'' {
        assert ("''" + rest)[2..] == rest;
      } else {
        assert ([s[0]] + rest)[1..] == rest;
      }
    }
  }

  // -------------------------------------------------------------------
  // escape_sql_string
  // -------------------------------------------------------------------

  function NormaliseNewlines(s: string): string
  {
    Replace(s, "\r\n", "\n")
  }

  /** escape_sql_string: NULL for a missing value, otherwise the value with
      Windows newlines normalised, as a quoted literal; reading the literal
      gives back the normalised value. */
  function EscapeSqlString(value: Option<string>): (r: string)
    ensures value.None? ==> r == "NULL"
    ensures value.Some? ==> SqlLiteralValue(r) == Some(NormaliseNewlines(value.value))
  {
    match value
    case None => "NULL"
    case Some(v) =>
      var body := Replace(NormaliseNewlines(v), "'", "''");
      QuotesRoundTrip(NormaliseNewlines(v));
      var r := "'" + body + "'";
      assert r[1..|r| - 1] == body;
      r
  }

  // -------------------------------------------------------------------
  // Reading a text array back
  // -------------------------------------------------------------------

  /** The content of a double-quoted array element up to its closing
      quote, and what follows it. */
  function DecodeQuoted(t: string): (r: Option<(string, string)>)
    ensures r.Some? ==> |r.value.1| < |t|
    decreases |t|
  {
    if t == [] then None
    else if t[0] == '"' then Some(([], t[1..]))
    else if t[0] == '\\' then
      if |t| < 2 then None
      else
        match DecodeQuoted(t[2..])
        case None => None
        case Some((x, rest)) => Some(([t[1]] + x, rest))
    else
      match DecodeQuoted(t[1..])
      case None => None
      case Some((x, rest)) => Some(([t[0]] + x, rest))
  }

  /** The elements of an array text after its opening brace: quoted
      elements separated by commas, then the closing brace. */
  function ParseElements(t: string): Option<seq<string>>
    decreases |t|
  {
    if t == [] || t[0] != '"' then None
    else
      match DecodeQuoted(t[1..])
      case None => None
      case Some((x, rest)) =>
        if rest == "}" then Some([x])
        else if rest != [] && rest[0] == ',' then
          match ParseElements(rest[1..])
          case None => None
          case Some(xs) => Some([x] + xs)
        else None
  }

  function ParseArrayText(t: string): Option<seq<string>>
  {
    if t == "{}" then Some([])
    else if t != [] && t[0] == '{' then ParseElements(t[1..])
    else None
  }

  /** The array a SQL literal holds, if it is a well-formed array of
      quoted elements. */
  function ArrayValue(lit: string): Option<seq<string>>
  {
    match SqlLiteralValue(lit)
    case None => None
    case Some(t) => ParseArrayText(t)
  }

  // -------------------------------------------------------------------
  // format_sql_array
  // -------------------------------------------------------------------

  function Quote(e: string): string
  {
    "\"" + e + "\""
  }

  /** The array literal around already-quoted elements. */
  function ArrayLiteral(elements: seq<string>): string
  {
    "'{" + Join(elements, ',') + "}'"
  }

  /** The element escaping as the script writes it: a pair of backslashes
      becomes four, a double quote becomes two backslashes and the quote,
      and single quotes are doubled. */
  function ElementEscapeAsWritten(x: string): string
  {
    Replace(Replace(Replace(NormaliseNewlines(x), "\\\\", "\\\\\\\\"), "\"", "\\\\\""), "'", "''")
  }

  function ElementsAsWritten(xs: seq<string>): (es: seq<string>)
    ensures |es| == |xs|
  {
    if xs == [] then [] else [Quote(ElementEscapeAsWritten(xs[0]))] + ElementsAsWritten(xs[1..])
  }

  /** format_sql_array as written. */
  function FormatSqlArrayAsWritten(arr: Option<seq<string>>): (r: string)
    ensures arr.None? || arr.value == [] ==> r == "'{}'"
    ensures HasPrefix(r, "'{") && HasSuffix(r, "}'")
  {
    if arr.None? || arr.value == [] then "'{}'" else ArrayLiteral(ElementsAsWritten(arr.value))
  }

  /** An element holding a double quote makes the literal unreadable as an
      array: the quote comes out as an escaped backslash followed by a quote
      that closes the element early. */
  lemma AsWrittenBreaksOnQuote()
    ensures ArrayValue(FormatSqlArrayAsWritten(Some(["\""]))) == None
  {
    assert NormaliseNewlines("\"") == "\"";
    assert Replace("\"", "\\\\", "\\\\\\\\") == "\"";
    ReplaceCons('"', [], '"', "\\\\\"");
    assert Replace("\"", "\"", "\\\\\"") == "\\\\\"";
    ReplaceCons('\\', "\\\"", '\'', "''");
    ReplaceCons('\\', "\"", '\'', "''");
    ReplaceCons('"', [], '\'', "''");
    assert ElementEscapeAsWritten("\"") == "\\\\\"";
    var inner := "{\"\\\\\"\"}";
    var lit := FormatSqlArrayAsWritten(Some(["\""]));
    assert lit == "'" + inner + "'";
    assert lit[1..|lit| - 1] == inner;
    UnescapePlain(inner);
    assert inner[1..][1..] == "\\\\\"\"}";
    DecodeEscapedBackslash();
  }

  /** The escaped backslash is the whole element; the quote after it
      closes the element. */
  lemma DecodeEscapedBackslash()
    ensures DecodeQuoted("\\\\\"\"}") == Some(("\\", "\"}"))
  {
    var t := "\\\\\"\"}";
    assert t[2..] == "\"\"}";
    assert t[2..][1..] == "\"}";
    assert DecodeQuoted(t[2..]) == Some(([], "\"}"));
    assert [t[1]] + [] == "\\";
  }

  /** A lone backslash is left alone and escapes the element's closing
      quote, so the literal is unreadable as an array too. */
  lemma AsWrittenBreaksOnBackslash()
    ensures ArrayValue(FormatSqlArrayAsWritten(Some(["\\"]))) == None
  {
    assert NormaliseNewlines("\\") == "\\";
    assert Replace("\\", "\\\\", "\\\\\\\\") == "\\";
    ReplaceCons('\\', [], '"', "\\\\\"");
    ReplaceCons('\\', [], '\'', "''");
    assert ElementEscapeAsWritten("\\") == "\\";
    var inner := "{\"\\\"}";
    var lit := FormatSqlArrayAsWritten(Some(["\\"]));
    assert lit == "'" + inner + "'";
    assert lit[1..|lit| - 1] == inner;
    UnescapePlain(inner);
    var t := "\\\"}";
    assert inner[1..][1..] == t;
    assert t[2..] == "}";
    assert "}"[1..] == [];
    assert DecodeQuoted(t) == None;
  }

  /** Text without single quotes reads back unchanged. */
  lemma {:induction false} UnescapePlain(t: string)
    requires '\'' !in t
    ensures UnescapeQuotes(t) == Some(t)
    decreases |t|
  {
    if t != [] {
      UnescapePlain(t[1..]);
      assert [t[0]] + t[1..] == t;
    }
  }

  /** The escaping an array element needs: each backslash doubled, each
      double quote preceded by a backslash. */
  function PgEscape(x: string): string
  {
    Replace(Replace(x, "\\", "\\\\"), "\"", "\\\"")
  }

  /** The element escaping evidently intended: backslashes and double quotes
      escaped for the array, then single quotes doubled for the literal. */
  function ElementEscape(x: string): string
  {
    Replace(PgEscape(NormaliseNewlines(x)), "'", "''")
  }

  function Elements(xs: seq<string>): (es: seq<string>)
    ensures |es| == |xs|
  {
    if xs == [] then [] else [Quote(ElementEscape(xs[0]))] + Elements(xs[1..])
  }

  /** format_sql_array with the escaping corrected. */
  function FormatSqlArray(arr: Option<seq<string>>): (r: string)
    ensures arr.None? || arr.value == [] ==> r == "'{}'"
  {
    if arr.None? || arr.value == [] then "'{}'" else ArrayLiteral(Elements(arr.value))
  }

  function NormaliseAll(xs: seq<string>): (ns: seq<string>)
    ensures |ns| == |xs|
    ensures forall i :: 0 <= i < |xs| ==> ns[i] == NormaliseNewlines(xs[i])
  {
    if xs == [] then [] else [NormaliseNewlines(xs[0])] + NormaliseAll(xs[1..])
  }

  /** PgEscape one character at a time. */
  lemma PgEscapeCons(c: char, s: string)
    ensures PgEscape([c] + s) ==
      (if c == '\\' then "\\\\" else if c == '"' then "\\\"" else [c]) + PgEscape(s)
  {
    ReplaceCons(c, s, '\\', "\\\\");
    var once := (if c == '\\' then "\\\\" else [c]);
    ReplaceCharAppend(once, Replace(s, "\\", "\\\\"), '"', "\\\"");
    if c == '\\' {
      ReplaceCons('\\', "\\", '"', "\\\"");
      ReplaceCons('\\', [], '"', "\\\"");
    } else {
      ReplaceCons(c, [], '"', "\\\"");
    }
  }

  /** Reading an escaped element back gives the element and what follows
      its closing quote. */
  lemma {:induction false} DecodeEscaped(x: string, rest: string)
    ensures DecodeQuoted(PgEscape(x) + "\"" + rest) == Some((x, rest))
    decreases |x|
  {
    if x == [] {
      assert PgEscape(x) + "\"" + rest == "\"" + rest;
      assert ("\"" + rest)[1..] == rest;
    } else {
      PgEscapeCons(x[0], x[1..]);
      assert [x[0]] + x[1..] == x;
      DecodeEscaped(x[1..], rest);
      var tail := PgEscape(x[1..]) + "\"" + rest;
      var head := if x[0] == '\\' then "\\\\" else if x[0] == '"' then "\\\"" else [x[0]];
      assert PgEscape(x) + "\"" + rest == head + tail;
      assert (head + tail)[|head|..] == tail;
    }
  }

  /** The array text the corrected elements spell once the literal's
      quotes are undone. */
  function PgElements(ns: seq<string>): (es: seq<string>)
    ensures |es| == |ns|
  {
    if ns == [] then [] else [Quote(PgEscape(ns[0]))] + PgElements(ns[1..])
  }

  /** Doubling the single quotes of the joined text doubles them in each
      element: braces, commas and double quotes are untouched. */
  lemma QuoteDoubling(p: string)
    ensures Replace(Quote(p), "'", "''") == Quote(Replace(p, "'", "''"))
  {
    ReplaceCharAppend("\"" + p, "\"", '\'', "''");
    ReplaceCharAppend("\"", p, '\'', "''");
    ReplaceCons('"', [], '\'', "''");
  }

  lemma SeparatorDoubling(a: string, rest: string)
    ensures Replace(a + [','] + rest, "'", "''") == Replace(a, "'", "''") + [','] + Replace(rest, "'", "''")
  {
    ReplaceCharAppend(a + [','], rest, '\'', "''");
    ReplaceCharAppend(a, [','], '\'', "''");
    ReplaceCons(',', [], '\'', "''");
  }

  lemma {:induction false} JoinDoubling(xs: seq<string>)
    requires xs != []
    ensures Join(Elements(xs), ',') == Replace(Join(PgElements(NormaliseAll(xs)), ','), "'", "''")
    decreases |xs|
  {
    var p := PgEscape(NormaliseNewlines(xs[0]));
    QuoteDoubling(p);
    assert NormaliseAll(xs)[0] == NormaliseNewlines(xs[0]);
    assert NormaliseAll(xs)[1..] == NormaliseAll(xs[1..]);
    if |xs| > 1 {
      JoinDoubling(xs[1..]);
      var rest := Join(PgElements(NormaliseAll(xs[1..])), ',');
      assert Join(PgElements(NormaliseAll(xs)), ',') == Quote(p) + [','] + rest;
      assert Join(Elements(xs), ',') == Quote(ElementEscape(xs[0])) + [','] + Join(Elements(xs[1..]), ',');
      SeparatorDoubling(Quote(p), rest);
    }
  }

  /** A character absent from the text and from the replacement stays
      absent. */
  lemma {:induction false} ReplaceKeepsAbsent(s: string, pat: string, rep: string, c: char)
    requires pat != [] && c !in s && c !in rep
    ensures c !in Replace(s, pat, rep)
    decreases |s|
  {
    if |s| >= |pat| {
      if s[..|pat|] == pat {
        assert forall k :: 0 <= k < |s[|pat|..]| ==> s[|pat|..][k] == s[k + |pat|];
        ReplaceKeepsAbsent(s[|pat|..], pat, rep, c);
      } else {
        assert forall k :: 0 <= k < |s[1..]| ==> s[1..][k] == s[k + 1];
        ReplaceKeepsAbsent(s[1..], pat, rep, c);
      }
    }
  }

  /** A pattern whose first character is absent replaces nothing. */
  lemma {:induction false} ReplaceAbsent(s: string, pat: string, rep: string)
    requires pat != [] && pat[0] !in s
    ensures Replace(s, pat, rep) == s
    decreases |s|
  {
    if |s| >= |pat| {
      assert s[..|pat|][0] == s[0];
      assert forall k :: 0 <= k < |s[1..]| ==> s[1..][k] == s[k + 1];
      ReplaceAbsent(s[1..], pat, rep);
      assert [s[0]] + s[1..] == s;
    }
  }

  /** The two escapings agree on elements with neither a backslash nor a
      double quote, which is why the slip goes unnoticed on ordinary
      answers. */
  lemma AsWrittenAgreesOnPlainElements(x: string)
    requires '\\' !in x && '"' !in x
    ensures ElementEscapeAsWritten(x) == ElementEscape(x)
  {
    var n := NormaliseNewlines(x);
    ReplaceKeepsAbsent(x, "\r\n", "\n", '\\');
    ReplaceKeepsAbsent(x, "\r\n", "\n", '"');
    ReplaceAbsent(n, "\\\\", "\\\\\\\\");
    ReplaceAbsent(n, "\"", "\\\\\"");
    ReplaceAbsent(n, "\\", "\\\\");
    ReplaceAbsent(n, "\"", "\\\"");
  }

  /** One escaped element read back, followed by whatever comes after
      its closing quote. */
  lemma ParseHead(x: string, after: string)
    ensures ParseElements(Quote(PgEscape(x)) + after) ==
      if after == "}" then Some([x])
      else if after != [] && after[0] == ',' then
        match ParseElements(after[1..])
        case None => None
        case Some(xs) => Some([x] + xs)
      else None
  {
    var body := PgEscape(x) + "\"" + after;
    var t := Quote(PgEscape(x)) + after;
    Regroup3("\"", PgEscape(x), "\"", after);
    assert t == "\"" + body;
    assert t[0] == '"' && t[1..] == body;
    DecodeEscaped(x, after);
    assert DecodeQuoted(t[1..]) == Some((x, after));
  }

  /** The array text of several elements: the first element, a comma,
      and the rest. */
  lemma PgElementsCons(ns: seq<string>)
    requires |ns| > 1
    ensures Join(PgElements(ns), ',') + "}"
      == Quote(PgEscape(ns[0])) + ("," + (Join(PgElements(ns[1..]), ',') + "}"))
  {
    var q := Quote(PgEscape(ns[0]));
    var j := Join(PgElements(ns[1..]), ',');
    var ps := PgElements(ns);
    assert ps == [q] + PgElements(ns[1..]);
    assert ps[0] == q && ps[1..] == PgElements(ns[1..]) && |ps| > 1;
    assert Join(ps, ',') == q + [','] + j;
    Regroup(q, [','], j, "}");
  }

  lemma Regroup3(a: string, b: string, c: string, d: string)
    ensures a + b + c + d == a + (b + c + d)
  {
  }

  lemma Regroup(a: string, b: string, c: string, d: string)
    ensures a + b + c + d == a + (b + (c + d))
  {
  }

  /** The elements of the array text read back in order. */
  lemma {:induction false} ParsePgElements(ns: seq<string>)
    requires ns != []
    ensures ParseElements(Join(PgElements(ns), ',') + "}") == Some(ns)
    decreases |ns|
  {
    if |ns| == 1 {
      assert Join(PgElements(ns), ',') + "}" == Quote(PgEscape(ns[0])) + "}";
      ParseHead(ns[0], "}");
      assert [ns[0]] == ns;
    } else {
      var rest := Join(PgElements(ns[1..]), ',') + "}";
      PgElementsCons(ns);
      ParseHead(ns[0], "," + rest);
      assert ("," + rest)[1..] == rest;
      ParsePgElements(ns[1..]);
      assert [ns[0]] + ns[1..] == ns;
    }
  }

  /** Braces carry no single quote. */
  lemma BracesDoubling(j: string)
    ensures Replace("{" + j + "}", "'", "''") == "{" + Replace(j, "'", "''") + "}"
  {
    ReplaceCharAppend("{" + j, "}", '\'', "''");
    ReplaceCharAppend("{", j, '\'', "''");
    ReplaceCons('{', [], '\'', "''");
    ReplaceCons('}', [], '\'', "''");
  }

  /** The literal's text between its quotes: the array text with single
      quotes doubled. */
  lemma LiteralBody(xs: seq<string>)
    requires xs != []
    ensures var lit := FormatSqlArray(Some(xs));
      |lit| >= 2 && lit[0] == '\'' && lit[|lit| - 1] == '\'' &&
      lit[1..|lit| - 1] == Replace("{" + Join(PgElements(NormaliseAll(xs)), ',') + "}", "'", "''")
  {
    var j := Join(PgElements(NormaliseAll(xs)), ',');
    JoinDoubling(xs);
    BracesDoubling(j);
    var body := "{" + Join(Elements(xs), ',') + "}";
    var lit := FormatSqlArray(Some(xs));
    assert lit == "'" + body + "'";
    assert lit[1..|lit| - 1] == body;
  }

  lemma EmptyArrayRoundTrip()
    ensures ArrayValue("'{}'") == Some([])
  {
    var lit := "'{}'";
    assert lit[1..|lit| - 1] == "{}";
    UnescapePlain("{}");
  }

  /** With the corrected escaping every list of strings reads back from
      its literal as the same list, newlines normalised. */
  lemma FormatSqlArrayRoundTrip(xs: seq<string>)
    ensures ArrayValue(FormatSqlArray(Some(xs))) == Some(NormaliseAll(xs))
  {
    if xs == [] {
      EmptyArrayRoundTrip();
    } else {
      var ns := NormaliseAll(xs);
      var text := "{" + Join(PgElements(ns), ',') + "}";
      LiteralBody(xs);
      QuotesRoundTrip(text);
      assert SqlLiteralValue(FormatSqlArray(Some(xs))) == Some(text);
      ArrayTextParses(ns);
    }
  }

  /** The array text of a non-empty list reads back as that list. */
  lemma ArrayTextParses(ns: seq<string>)
    requires ns != []
    ensures ParseArrayText("{" + Join(PgElements(ns), ',') + "}") == Some(ns)
  {
    var j := Join(PgElements(ns), ',');
    var text := "{" + j + "}";
    ParsePgElements(ns);
    assert PgElements(ns)[0] == Quote(PgEscape(ns[0]));
    assert j != [] && j[0] == '"' by {
      if |ns| == 1 {
        assert j == Quote(PgEscape(ns[0]));
      } else {
        PgElementsCons(ns);
        assert j + "}" == Quote(PgEscape(ns[0])) + ("," + (Join(PgElements(ns[1..]), ',') + "}"));
        assert (j + "}")[0] == '"';
      }
    }
    assert text[1] == '"';
    assert text[0] == '{' && text[1..] == j + "}";
  }
}
