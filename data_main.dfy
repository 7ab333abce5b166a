/** SQL text produced by the example-sentence import script: a CSV cell is
    escaped for use between single quotes, and a bracketed list written
    in JSON style becomes PostgreSQL's brace notation. */
module DataMain {
  import opened Common
  import DataExtract

  /** escape_sql_string: the cell "null" in any letter case stands for SQL
      NULL; any other cell has its single quotes doubled, ready to be put
      between quotes by the caller. */
  function EscapeSqlString(value: string): (r: string)
    ensures Lower(value) == "null" ==> r == "NULL"
    ensures Lower(value) != "null" ==> DataExtract.UnescapeQuotes(r) == Some(value)
  {
    if Lower(value) == "null" then "NULL"
    else
      DataExtract.QuotesRoundTrip(value);
      Replace(value, "'", "''")
  }

  /** Every spelling of "null" is recognised, not only the lower-case one. */
  lemma NullInAnyCase()
    ensures EscapeSqlString("null") == "NULL"
    ensures EscapeSqlString("NULL") == "NULL"
    ensures EscapeSqlString("Null") == "NULL"
  {
    assert Lower("NULL") == "null";
    assert Lower("Null") == "null";
  }

  predicate Bracketed(s: string)
  {
    HasPrefix(s, "[") && HasSuffix(s, "]")
  }

  predicate QuotedBracketed(s: string)
  {
    HasPrefix(s, "'[") && HasSuffix(s, "]'")
  }

  /** The opening and closing marks cannot overlap, so a marked text is
      long enough to hold both. */
  lemma MarkedLength(s: string)
    ensures Bracketed(s) ==> |s| >= 2
    ensures QuotedBracketed(s) ==> |s| >= 4
  {
    if Bracketed(s) {
      assert s[..1][0] == s[0] == '[';
      assert s[|s| - 1..][0] == s[|s| - 1] == ']';
    }
    if QuotedBracketed(s) {
      assert s[..2][0] == s[0] == '\'';
      assert s[..2][1] == s[1] == '[';
      assert s[|s| - 2..][0] == s[|s| - 2] == ']';
      assert s[|s| - 2..][1] == s[|s| - 1] == '\'';
    }
  }

  /** replace_array: "[x]" becomes "{x}" and "'[x]'" becomes "'{x}'"; any
      other text is returned unchanged. The empty lists are special-cased
      in the script, with the result the general rule also gives. */
  function ReplaceArray(s: string): (r: string)
    ensures |r| == |s|
  {
    MarkedLength(s);
    if Bracketed(s) then
      if s == "[]" then "{}" else "{" + s[1..|s| - 1] + "}"
    else if QuotedBracketed(s) then
      if s == "'[]'" then "'{}'" else "'{" + s[2..|s| - 2] + "}'"
    else s
  }

  /** The bracketed form: only the outer brackets change. */
  lemma BracketsBecomeBraces(x: string)
    ensures ReplaceArray("[" + x + "]") == "{" + x + "}"
  {
    var s := "[" + x + "]";
    assert s[..1] == "[";
    assert s[|s| - 1..] == "]";
    assert s[1..|s| - 1] == x;
  }

  /** The quoted form: the quotes stay and the brackets inside them
      change. */
  lemma QuotedBracketsBecomeBraces(x: string)
    ensures ReplaceArray("'[" + x + "]'") == "'{" + x + "}'"
  {
    var s := "'[" + x + "]'";
    assert s[..1][0] == s[0] == '\'';
    assert s[..2] == "'[";
    assert s[|s| - 2..] == "]'";
    assert s[2..|s| - 2] == x;
  }

  /** The empty lists, which the script handles by name. */
  lemma EmptyLists()
    ensures ReplaceArray("[]") == "{}"
    ensures ReplaceArray("'[]'") == "'{}'"
  {
    assert "'[]'"[..1] == "'";
  }

  /** Text in neither form comes back unchanged, and text in either form
      always changes. */
  lemma ChangesExactlyMarked(s: string)
    ensures ReplaceArray(s) != s <==> Bracketed(s) || QuotedBracketed(s)
  {
    MarkedLength(s);
    var r := ReplaceArray(s);
    if Bracketed(s) {
      assert s[..1][0] == s[0];
      assert r[0] == '{';
    } else if QuotedBracketed(s) {
      assert s[..2][1] == s[1];
      assert r[1] == '{';
    }
  }
}
