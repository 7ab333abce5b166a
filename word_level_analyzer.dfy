/** The word-level analyser: a table from words to CEFR levels built from
    the level lists, the words of a text counted and looked up in it, and
    synonym suggestions for the words a learner leans on. The level files
    come in as their lines (or as missing), and the synonym dictionary as
    a function from a word to its synonym sets. */
module WordLevelAnalyzer {
  import opened Common

  // -------------------------------------------------------------------
  // Loading the level table
  // -------------------------------------------------------------------

  /** A level file: its lines, header first, or None when it is missing. */
  type LevelFile = Option<seq<string>>

  /** The names of the level files, read in this order. */
  const LevelFileNames: seq<string> := ["a1.csv", "a2.csv", "b1.csv", "b2.csv", "c1.csv"]

  /** One line of a level file: "word|level" once stripped; any other
      number of fields is an unpacking error that ends the load. */
  function ParseLine(line: string): (r: Result<(string, string)>)
    ensures r.Ok? <==> CountChar(PyStrip(line), '|') == 1
    ensures r.Ok? ==> ('|' !in r.value.0 && '|' !in r.value.1
      && PyStrip(line) == r.value.0 + "|" + r.value.1)
  {
    var parts := Split(PyStrip(line), '|');
    if |parts| == 2 then
      assert Join(parts[1..], '|') == parts[1];
      Ok((parts[0], parts[1]))
    else Err("too many or too few values to unpack")
  }

  /** The entries of the lines after the header, in file order. */
  function ParseLines(lines: seq<string>): Result<seq<(string, string)>>
    decreases |lines|
  {
    if lines == [] then Ok([])
    else
      match ParseLine(lines[0])
      case Err(e) => Err(e)
      case Ok(p) => Prepend([p], ParseLines(lines[1..]))
  }

  /** A missing file contributes nothing; a present one must have its
      header line, and then its entries. */
  function ParseFile(f: LevelFile): Result<seq<(string, string)>>
  {
    match f
    case None => Ok([])
    case Some(lines) => if lines == [] then Err("empty level file") else ParseLines(lines[1..])
  }

  function ParseFiles(files: seq<LevelFile>): Result<seq<(string, string)>>
    decreases |files|, 0
  {
    if files == [] then Ok([])
    else Then(ParseFile(files[0]), files[1..])
  }

  /** The entries of a first part followed by those of the remaining
      files. */
  function Then(first: Result<seq<(string, string)>>, files: seq<LevelFile>): Result<seq<(string, string)>>
    decreases |files|, 1
  {
    match first
    case Err(e) => Err(e)
    case Ok(a) => Prepend(a, ParseFiles(files))
  }

  function Prepend(a: seq<(string, string)>, r: Result<seq<(string, string)>>): Result<seq<(string, string)>>
  {
    match r
    case Err(e) => Err(e)
    case Ok(b) => Ok(a + b)
  }

  lemma PrependPrepend(a: seq<(string, string)>, b: seq<(string, string)>, r: Result<seq<(string, string)>>)
    ensures Prepend(a, Prepend(b, r)) == Prepend(a + b, r)
  {
    if r.Ok? {
      assert a + (b + r.value) == (a + b) + r.value;
    }
  }

  lemma ThenPrepend(a: seq<(string, string)>, r: Result<seq<(string, string)>>, files: seq<LevelFile>)
    ensures Then(Prepend(a, r), files) == Prepend(a, Then(r, files))
  {
    if r.Ok? {
      PrependPrepend(a, r.value, ParseFiles(files));
    }
  }

  lemma PrependEmpty(r: Result<seq<(string, string)>>)
    ensures Prepend([], r) == r
  {
    if r.Ok? {
      assert [] + r.value == r.value;
    }
  }

  /** A missing level file is skipped: the table is read as if it were
      not in the list. */
  lemma {:induction false} MissingFileSkipped(before: seq<LevelFile>, after: seq<LevelFile>)
    ensures ParseFiles(before + [None] + after) == ParseFiles(before + after)
    decreases |before|
  {
    if before == [] {
      assert before + [None] + after == [None] + after;
      assert ([None] + after)[0] == None;
      assert ([None] + after)[1..] == after;
      assert before + after == after;
      PrependEmpty(ParseFiles(after));
    } else {
      MissingFileSkipped(before[1..], after);
      assert (before + [None] + after)[0] == before[0];
      assert (before + [None] + after)[1..] == before[1..] + [None] + after;
      assert (before + after)[0] == before[0];
      assert (before + after)[1..] == before[1..] + after;
    }
  }

  /** Recording one entry: the key is the lower-cased word, and a level
      already present is replaced only by a greater one. */
  function AddEntry(table: map<string, string>, entry: (string, string)): (t: map<string, string>)
    ensures t.Keys == table.Keys + {Lower(entry.0)}
    ensures StrLe(entry.1, t[Lower(entry.0)])
    ensures forall k :: k in table ==> StrLe(table[k], t[k])
  {
    var key := Lower(entry.0);
    if key !in table || StrLt(table[key], entry.1) then table[key := entry.1]
    else
      StrLtTotal(table[key], entry.1);
      table
  }

  function FoldEntries(table: map<string, string>, entries: seq<(string, string)>): map<string, string>
    decreases |entries|
  {
    if entries == [] then table else FoldEntries(AddEntry(table, entries[0]), entries[1..])
  }

  /** The level table that the level files give, or the error that ends
      the load. */
  function WordLevels(files: seq<LevelFile>): Result<map<string, string>>
  {
    match ParseFiles(files)
    case Err(e) => Err(e)
    case Ok(entries) => Ok(FoldEntries(map[], entries))
  }

  lemma StrLeTransitive(a: string, b: string, c: string)
    requires StrLe(a, b) && StrLe(b, c)
    ensures StrLe(a, c)
  {
    if a != b && b != c {
      StrLtTransitive(a, b, c);
    }
  }

  /** A level already in the table never goes down. */
  lemma {:induction false} FoldMonotone(table: map<string, string>, entries: seq<(string, string)>)
    ensures forall k :: k in table ==> k in FoldEntries(table, entries) && StrLe(table[k], FoldEntries(table, entries)[k])
    decreases |entries|
  {
    if entries != [] {
      var next := AddEntry(table, entries[0]);
      FoldMonotone(next, entries[1..]);
      var t := FoldEntries(next, entries[1..]);
      forall k | k in table
        ensures StrLe(table[k], t[k])
      {
        StrLeTransitive(table[k], next[k], t[k]);
      }
    }
  }

  /** Every level recorded is at most the level the table ends with. */
  lemma {:induction false} FoldAtLeast(table: map<string, string>, entries: seq<(string, string)>)
    ensures forall i :: 0 <= i < |entries| ==>
      Lower(entries[i].0) in FoldEntries(table, entries)
      && StrLe(entries[i].1, FoldEntries(table, entries)[Lower(entries[i].0)])
    decreases |entries|
  {
    if entries != [] {
      var next := AddEntry(table, entries[0]);
      var rest := entries[1..];
      FoldAtLeast(next, rest);
      FoldMonotone(next, rest);
      var t := FoldEntries(next, rest);
      forall i | 0 <= i < |entries|
        ensures Lower(entries[i].0) in t && StrLe(entries[i].1, t[Lower(entries[i].0)])
      {
        if i == 0 {
          var k := Lower(entries[0].0);
          StrLeTransitive(entries[0].1, next[k], t[k]);
        } else {
          assert entries[i] == rest[i - 1];
        }
      }
    }
  }

  /** Every level in the table was there before or was recorded for that
      word. */
  lemma {:induction false} FoldFromSeen(table: map<string, string>, entries: seq<(string, string)>)
    ensures forall k :: k in FoldEntries(table, entries) ==>
      (k in table && FoldEntries(table, entries)[k] == table[k])
      || (exists i :: 0 <= i < |entries| && Lower(entries[i].0) == k && FoldEntries(table, entries)[k] == entries[i].1)
    decreases |entries|
  {
    if entries != [] {
      var next := AddEntry(table, entries[0]);
      var rest := entries[1..];
      FoldFromSeen(next, rest);
      var t := FoldEntries(next, rest);
      forall k | k in t
        ensures (k in table && t[k] == table[k])
          || (exists i :: 0 <= i < |entries| && Lower(entries[i].0) == k && t[k] == entries[i].1)
      {
        if k in next && t[k] == next[k] {
          if !(k in table && next[k] == table[k]) {
            assert Lower(entries[0].0) == k && t[k] == entries[0].1;
          }
        } else {
          var i :| 0 <= i < |rest| && Lower(rest[i].0) == k && t[k] == rest[i].1;
          assert entries[i + 1] == rest[i];
        }
      }
    }
  }

  /** The loaded table: every key is lower-case, its level is the greatest
      level listed for it (Python's string order), and it is one of the
      levels listed for it. */
  lemma WordLevelsGreatest(files: seq<LevelFile>)
    requires WordLevels(files).Ok?
    ensures var table := WordLevels(files).value;
      var entries := ParseFiles(files).value;
      && (forall k :: k in table ==> Lower(k) == k)
      && (forall i :: 0 <= i < |entries| ==>
            Lower(entries[i].0) in table && StrLe(entries[i].1, table[Lower(entries[i].0)]))
      && (forall k :: k in table ==> exists i :: 0 <= i < |entries| && Lower(entries[i].0) == k && table[k] == entries[i].1)
  {
    var entries := ParseFiles(files).value;
    var table := FoldEntries(map[], entries);
    assert WordLevels(files).value == table;
    FoldAtLeast(map[], entries);
    FoldFromSeen(map[], entries);
    forall k | k in table
      ensures Lower(k) == k
    {
      var i :| 0 <= i < |entries| && Lower(entries[i].0) == k;
      LowerIdempotent(entries[i].0);
    }
  }

  /** The table a first table becomes with the entries of some lines, or
      the error in them. */
  function LinesTable(table: map<string, string>, lines: seq<string>): Result<map<string, string>>
  {
    match ParseLines(lines)
    case Err(e) => Err(e)
    case Ok(entries) => Ok(FoldEntries(table, entries))
  }

  function FilesTable(table: map<string, string>, files: seq<LevelFile>): Result<map<string, string>>
  {
    match ParseFiles(files)
    case Err(e) => Err(e)
    case Ok(entries) => Ok(FoldEntries(table, entries))
  }

  lemma {:induction false} FoldEntriesAppend(table: map<string, string>, a: seq<(string, string)>, b: seq<(string, string)>)
    ensures FoldEntries(table, a + b) == FoldEntries(FoldEntries(table, a), b)
    decreases |a|
  {
    if a == [] {
      assert a + b == b;
    } else {
      assert (a + b)[0] == a[0] && (a + b)[1..] == a[1..] + b;
      FoldEntriesAppend(AddEntry(table, a[0]), a[1..], b);
    }
  }

  /** The inner loop of load_word_levels: the lines of one file after
      its header, each entry recorded as it is read. */
  method LoadLines(table0: map<string, string>, lines: seq<string>) returns (r: Result<map<string, string>>)
    ensures r == LinesTable(table0, lines)
  {
    var table := table0;
    var i := 0;
    assert lines[i..] == lines;
    while i < |lines|
      invariant 0 <= i <= |lines|
      invariant LinesTable(table0, lines) == LinesTable(table, lines[i..])
    {
      assert lines[i..][0] == lines[i] && lines[i..][1..] == lines[i + 1..];
      var entry := ParseLine(lines[i]);
      if entry.Err? {
        assert ParseLines(lines[i..]) == Err(entry.error);
        return Err(entry.error);
      }
      assert ParseLines(lines[i..]) == Prepend([entry.value], ParseLines(lines[i + 1..]));
      var word := entry.value.0;
      var level := entry.value.1;
      ghost var before := table;
      if Lower(word) !in table || StrLt(table[Lower(word)], level) {
        table := table[Lower(word) := level];
      }
      assert table == AddEntry(before, entry.value);
      if ParseLines(lines[i + 1..]).Ok? {
        var es := ParseLines(lines[i + 1..]).value;
        assert ([entry.value] + es)[0] == entry.value && ([entry.value] + es)[1..] == es;
      }
      i := i + 1;
    }
    assert lines[i..] == [];
    return Ok(table);
  }

  /** load_word_levels: the level files read in order, a missing one
      skipped. */
  method LoadWordLevels(files: seq<LevelFile>) returns (r: Result<map<string, string>>)
    ensures r == WordLevels(files)
  {
    var table: map<string, string> := map[];
    var j := 0;
    assert files[j..] == files;
    while j < |files|
      invariant 0 <= j <= |files|
      invariant WordLevels(files) == FilesTable(table, files[j..])
    {
      assert files[j..][0] == files[j] && files[j..][1..] == files[j + 1..];
      var rest := ParseFiles(files[j + 1..]);
      assert ParseFiles(files[j..]) == Then(ParseFile(files[j]), files[j + 1..]);
      match files[j] {
        case None =>
          PrependEmpty(rest);
        case Some(lines) =>
          if lines == [] {
            assert ParseFiles(files[j..]) == Err("empty level file");
            return Err("empty level file");
          }
          assert ParseFiles(files[j..]) == Then(ParseLines(lines[1..]), files[j + 1..]);
          var loaded := LoadLines(table, lines[1..]);
          if loaded.Err? {
            assert ParseFiles(files[j..]) == Err(loaded.error);
            return Err(loaded.error);
          }
          var a := ParseLines(lines[1..]).value;
          if rest.Ok? {
            FoldEntriesAppend(table, a, rest.value);
          }
          table := loaded.value;
      }
      j := j + 1;
    }
    return Ok(table);
  }

  // -------------------------------------------------------------------
  // Tokens and counts
  // -------------------------------------------------------------------

  /** The characters of the pattern's \w class on the Latin script: the
      underscore and every letter or number of Basic Latin, Latin-1
      Supplement (with the feminine and masculine ordinals, the micro sign,
      the superscript digits and the vulgar fractions), Latin Extended-A
      and -B, IPA Extensions and Latin Extended Additional. */
  predicate IsWordChar(c: char)
  {
    var n := c as int;
    IsAsciiAlnum(c) || c == '_'
    || n == 0xAA || n == 0xB2 || n == 0xB3 || n == 0xB5 || n == 0xB9 || n == 0xBA
    || 0xBC <= n <= 0xBE || 0xC0 <= n <= 0xD6 || 0xD8 <= n <= 0xF6 || 0xF8 <= n <= 0x2AF
    || 0x1E00 <= n <= 0x1EFF
  }

  /** The length of the run of word characters at the front. */
  function RunLength(s: string): (n: nat)
    ensures n <= |s|
    ensures forall i :: 0 <= i < n ==> IsWordChar(s[i])
    ensures n < |s| ==> !IsWordChar(s[n])
  {
    if s != [] && IsWordChar(s[0]) then 1 + RunLength(s[1..]) else 0
  }

  /** The maximal runs of word characters, left to right: what the
      pattern \b\w+\b finds. */
  function Tokens(s: string): (ts: seq<string>)
    ensures forall k :: 0 <= k < |ts| ==> ts[k] != [] && forall i :: 0 <= i < |ts[k]| ==> IsWordChar(ts[k][i])
    decreases |s|
  {
    if s == [] then []
    else if !IsWordChar(s[0]) then Tokens(s[1..])
    else
      var n := RunLength(s);
      [s[..n]] + Tokens(s[n..])
  }

  lemma {:induction false} RunStopsAtSeparator(a: string, c: char, b: string)
    requires !IsWordChar(c)
    ensures RunLength(a + [c] + b) == RunLength(a)
    decreases |a|
  {
    if a == [] {
      assert (a + [c] + b)[0] == c;
    } else {
      assert (a + [c] + b)[0] == a[0];
      assert (a + [c] + b)[1..] == a[1..] + [c] + b;
      RunStopsAtSeparator(a[1..], c, b);
    }
  }

  /** A character outside \w separates: the tokens of the two sides are
      found independently. */
  lemma {:induction false} TokensAcrossSeparator(a: string, c: char, b: string)
    requires !IsWordChar(c)
    ensures Tokens(a + [c] + b) == Tokens(a) + Tokens(b)
    decreases |a|
  {
    var s := a + [c] + b;
    if a == [] {
      assert s[0] == c && s[1..] == b;
    } else if !IsWordChar(a[0]) {
      assert s[0] == a[0] && s[1..] == a[1..] + [c] + b;
      TokensAcrossSeparator(a[1..], c, b);
    } else {
      RunStopsAtSeparator(a, c, b);
      var n := RunLength(a);
      assert s[0] == a[0];
      assert s[..n] == a[..n];
      assert s[n..] == a[n..] + [c] + b;
      TokensAcrossSeparator(a[n..], c, b);
    }
  }

  /** A lower-case string's slices are lower-case. */
  lemma LowerSlice(s: string, a: nat, b: nat)
    requires Lower(s) == s && a <= b <= |s|
    ensures Lower(s[a..b]) == s[a..b]
  {
    assert forall i :: 0 <= i < b - a ==> s[a..b][i] == s[a + i] == LowerChar(s[a + i]);
  }

  /** The tokens of a lower-cased text are lower-case. */
  lemma {:induction false} TokensOfLowerCase(s: string)
    requires Lower(s) == s
    ensures forall k :: 0 <= k < |Tokens(s)| ==> Lower(Tokens(s)[k]) == Tokens(s)[k]
    decreases |s|
  {
    if s != [] {
      if !IsWordChar(s[0]) {
        LowerSlice(s, 1, |s|);
        TokensOfLowerCase(s[1..]);
      } else {
        var n := RunLength(s);
        LowerSlice(s, 0, n);
        LowerSlice(s, n, |s|);
        TokensOfLowerCase(s[n..]);
      }
    }
  }

  /** What analyze_text counts: lower-case runs of word characters. */
  lemma TextTokens(text: string)
    ensures forall k :: 0 <= k < |Tokens(Lower(text))| ==>
      Tokens(Lower(text))[k] != [] && Lower(Tokens(Lower(text))[k]) == Tokens(Lower(text))[k]
  {
    LowerIdempotent(text);
    TokensOfLowerCase(Lower(text));
  }

  /** Accented Latin letters are word characters and lower-case like the
      rest: "RÉSUMÉ" gives the single token "résumé". */
  lemma AccentedWordIsOneToken()
    ensures Tokens(Lower("R\U{C9}SUM\U{C9}")) == ["r\U{E9}sum\U{E9}"]
  {
    var w := "r\U{E9}sum\U{E9}";
    var l := Lower("R\U{C9}SUM\U{C9}");
    assert l[0] == 'r' && l[1] == '\U{E9}' && l[2] == 's' && l[3] == 'u' && l[4] == 'm' && l[5] == '\U{E9}';
    assert l == w;
    assert forall i :: 0 <= i < |w| ==> IsWordChar(w[i]);
    assert RunLength(w[6..]) == 0;
    assert RunLength(w[5..]) == 1 by { assert w[5..][1..] == w[6..]; }
    assert RunLength(w[4..]) == 2 by { assert w[4..][1..] == w[5..]; }
    assert RunLength(w[3..]) == 3 by { assert w[3..][1..] == w[4..]; }
    assert RunLength(w[2..]) == 4 by { assert w[2..][1..] == w[3..]; }
    assert RunLength(w[1..]) == 5 by { assert w[1..][1..] == w[2..]; }
    assert RunLength(w) == 6;
    assert w[..6] == w;
    assert Tokens(w[6..]) == [];
  }


  /** Word counts in first-occurrence order, as Counter keeps them. */
  method CountWords(tokens: seq<string>) returns (order: seq<string>, counts: map<string, nat>)
    ensures forall i, j :: 0 <= i < j < |order| ==> order[i] != order[j]
    ensures forall t :: t in order <==> t in tokens
    ensures counts.Keys == set t | t in tokens
    ensures forall t :: t in counts ==> counts[t] == multiset(tokens)[t] && counts[t] > 0
  {
    order := [];
    counts := map[];
    var i := 0;
    while i < |tokens|
      invariant 0 <= i <= |tokens|
      invariant forall a, b :: 0 <= a < b < |order| ==> order[a] != order[b]
      invariant forall t :: t in order <==> t in tokens[..i]
      invariant counts.Keys == set t | t in tokens[..i]
      invariant forall t :: t in counts ==> counts[t] == multiset(tokens[..i])[t]
    {
      var t := tokens[i];
      assert tokens[..i + 1] == tokens[..i] + [t];
      if t in counts {
        counts := counts[t := counts[t] + 1];
      } else {
        order := order + [t];
        counts := counts[t := 1];
      }
      i := i + 1;
    }
    assert tokens[..i] == tokens;
  }

  // -------------------------------------------------------------------
  // Synonym suggestions
  // -------------------------------------------------------------------

  /** A synonym set of the dictionary: its lemma names and its gloss. */
  datatype Synset = Synset(lemmaNames: seq<string>, definition: string)

  datatype Suggestion = Suggestion(word: string, level: string, definition: string)

  /** A lemma name as a synonym: underscores become spaces. */
  function Synonym(name: string): string
  {
    Replace(name, "_", " ")
  }

  lemma {:induction false} ReplaceRemovesChar(s: string, c: char, rep: string)
    requires c !in rep
    ensures c !in Replace(s, [c], rep)
    decreases |s|
  {
    if |s| >= 1 {
      assert s[..1] == [s[0]];
      ReplaceRemovesChar(s[1..], c, rep);
    }
  }

  /** The synonyms one synonym set offers, the word itself left out. */
  function LemmaSynonyms(names: seq<string>, word: string): set<string>
    decreases |names|
  {
    if names == [] then {}
    else (if Synonym(names[0]) != Lower(word) then {Synonym(names[0])} else {}) + LemmaSynonyms(names[1..], word)
  }

  function AllSynonyms(synsets: seq<Synset>, word: string): set<string>
    decreases |synsets|
  {
    if synsets == [] then {} else LemmaSynonyms(synsets[0].lemmaNames, word) + AllSynonyms(synsets[1..], word)
  }

  /** A synonym is suggested when its level is known, non-empty and at
      least the minimum level. */
  predicate Qualifies(synonym: string, table: map<string, string>, minLevel: string)
  {
    Lower(synonym) in table && table[Lower(synonym)] != "" && StrLe(minLevel, table[Lower(synonym)])
  }

  function SuggestionWords(word: string, table: map<string, string>, minLevel: string, synsets: seq<Synset>): set<string>
  {
    set s | s in AllSynonyms(synsets, word) && Qualifies(s, table, minLevel)
  }

  /** Every suggestion carries the gloss of the first synonym set. */
  function Definition(synsets: seq<Synset>): string
  {
    if synsets != [] then synsets[0].definition else ""
  }

  /** A list of suggestions holding each suggested synonym exactly once,
      with its level and the gloss. */
  predicate ValidSuggestions(suggestions: seq<Suggestion>, word: string, table: map<string, string>,
                             minLevel: string, synsets: seq<Synset>)
  {
    && (forall i :: 0 <= i < |suggestions| ==>
          suggestions[i].word in SuggestionWords(word, table, minLevel, synsets)
          && suggestions[i].level == table[Lower(suggestions[i].word)]
          && suggestions[i].definition == Definition(synsets))
    && (forall s :: s in SuggestionWords(word, table, minLevel, synsets) ==>
          exists i :: 0 <= i < |suggestions| && suggestions[i].word == s)
    && (forall i, j :: 0 <= i < j < |suggestions| ==> suggestions[i].word != suggestions[j].word)
  }

  lemma {:induction false} LemmaSynonymsShape(names: seq<string>, word: string)
    ensures forall s :: s in LemmaSynonyms(names, word) ==> s != Lower(word) && '_' !in s
    decreases |names|
  {
    if names != [] {
      ReplaceRemovesChar(names[0], '_', " ");
      LemmaSynonymsShape(names[1..], word);
    }
  }

  lemma {:induction false} AllSynonymsShape(synsets: seq<Synset>, word: string)
    ensures forall s :: s in AllSynonyms(synsets, word) ==> s != Lower(word) && '_' !in s
    decreases |synsets|
  {
    if synsets != [] {
      LemmaSynonymsShape(synsets[0].lemmaNames, word);
      AllSynonymsShape(synsets[1..], word);
    }
  }

  /** A suggestion is never the word itself, holds no underscore, and has
      a known level no lower than the minimum. */
  lemma SuggestionWordsShape(word: string, table: map<string, string>, minLevel: string, synsets: seq<Synset>)
    ensures forall s :: s in SuggestionWords(word, table, minLevel, synsets) ==>
      s != Lower(word) && '_' !in s && Lower(s) in table && StrLe(minLevel, table[Lower(s)])
  {
    AllSynonymsShape(synsets, word);
  }

  /** The first half of get_synonym_suggestions: the synonyms of every
      synonym set gathered into one set. */
  method CollectSynonyms(word: string, synsets: seq<Synset>) returns (all: set<string>)
    ensures all == AllSynonyms(synsets, word)
  {
    all := {};
    var i := 0;
    assert synsets[i..] == synsets;
    while i < |synsets|
      invariant 0 <= i <= |synsets|
      invariant all + AllSynonyms(synsets[i..], word) == AllSynonyms(synsets, word)
    {
      var names := synsets[i].lemmaNames;
      assert synsets[i..][0] == synsets[i] && synsets[i..][1..] == synsets[i + 1..];
      var k := 0;
      assert names[k..] == names;
      while k < |names|
        invariant 0 <= k <= |names|
        invariant all + LemmaSynonyms(names[k..], word) + AllSynonyms(synsets[i + 1..], word) == AllSynonyms(synsets, word)
      {
        assert names[k..][0] == names[k] && names[k..][1..] == names[k + 1..];
        var synonym := Replace(names[k], "_", " ");
        if synonym != Lower(word) {
          all := all + {synonym};
        }
        k := k + 1;
      }
      assert names[k..] == [];
      i := i + 1;
    }
    assert synsets[i..] == [];
  }

  /** A listed suggestion: a gathered synonym that qualifies, with its
      level and the gloss. */
  predicate Listed(e: Suggestion, all: set<string>, table: map<string, string>, minLevel: string, definition: string)
  {
    e.word in all && Qualifies(e.word, table, minLevel)
    && e.level == table[Lower(e.word)] && e.definition == definition
  }

  /** A list of the qualifying synonyms of a gathered set, each once, is
      a valid suggestion list. */
  lemma ListedSuggestionsValid(suggestions: seq<Suggestion>, word: string, table: map<string, string>,
                               minLevel: string, synsets: seq<Synset>)
    requires forall i :: 0 <= i < |suggestions| ==>
      Listed(suggestions[i], AllSynonyms(synsets, word), table, minLevel, Definition(synsets))
    requires forall s :: s in AllSynonyms(synsets, word) && Qualifies(s, table, minLevel) ==>
      exists i :: 0 <= i < |suggestions| && suggestions[i].word == s
    requires forall i, j :: 0 <= i < j < |suggestions| ==> suggestions[i].word != suggestions[j].word
    ensures ValidSuggestions(suggestions, word, table, minLevel, synsets)
  {
  }

  /** What the listing loop keeps: every listed suggestion is valid and
      already taken out of the remaining synonyms, every qualifying synonym
      is either still remaining or listed, and none is listed twice. */
  predicate ListedSoFar(suggestions: seq<Suggestion>, remaining: set<string>, all: set<string>,
                        table: map<string, string>, minLevel: string, definition: string)
  {
    && remaining <= all
    && (forall i :: 0 <= i < |suggestions| ==>
          Listed(suggestions[i], all, table, minLevel, definition) && suggestions[i].word !in remaining)
    && (forall s :: s in all && Qualifies(s, table, minLevel) ==>
          s in remaining || exists i :: 0 <= i < |suggestions| && suggestions[i].word == s)
    && (forall i, j :: 0 <= i < j < |suggestions| ==> suggestions[i].word != suggestions[j].word)
  }

  /** A synonym that does not qualify is dropped without being listed. */
  lemma ListedSkip(suggestions: seq<Suggestion>, remaining: set<string>, synonym: string, all: set<string>,
                   table: map<string, string>, minLevel: string, definition: string)
    requires synonym in remaining && !Qualifies(synonym, table, minLevel)
    requires ListedSoFar(suggestions, remaining, all, table, minLevel, definition)
    ensures ListedSoFar(suggestions, remaining - {synonym}, all, table, minLevel, definition)
  {
  }

  /** A qualifying synonym taken out of the remaining ones is listed. */
  lemma ListedExtend(suggestions: seq<Suggestion>, remaining: set<string>, e: Suggestion, all: set<string>,
                     table: map<string, string>, minLevel: string, definition: string)
    requires e.word in remaining && Listed(e, all, table, minLevel, definition)
    requires ListedSoFar(suggestions, remaining, all, table, minLevel, definition)
    ensures ListedSoFar(suggestions + [e], remaining - {e.word}, all, table, minLevel, definition)
  {
    var next := suggestions + [e];
    forall i | 0 <= i < |next|
      ensures Listed(next[i], all, table, minLevel, definition) && next[i].word !in remaining - {e.word}
    {
      if i < |suggestions| {
        assert next[i] == suggestions[i];
      }
    }
    forall s | s in all && Qualifies(s, table, minLevel) && s !in remaining - {e.word}
      ensures exists i :: 0 <= i < |next| && next[i].word == s
    {
      if s == e.word {
        assert next[|next| - 1].word == s;
      } else {
        var i :| 0 <= i < |suggestions| && suggestions[i].word == s;
        assert next[i] == suggestions[i];
      }
    }
  }

  /** One turn of the listing loop: the synonym taken out is listed exactly
      when it qualifies. */
  method ListOne(suggestions: seq<Suggestion>, remaining: set<string>, synonym: string, all: set<string>,
                 table: map<string, string>, minLevel: string, definition: string)
    returns (next: seq<Suggestion>)
    requires synonym in remaining
    requires ListedSoFar(suggestions, remaining, all, table, minLevel, definition)
    ensures ListedSoFar(next, remaining - {synonym}, all, table, minLevel, definition)
  {
    var level := if Lower(synonym) in table then Some(table[Lower(synonym)]) else None;
    if level.Some? && level.value != "" && StrLe(minLevel, level.value) {
      var e := Suggestion(synonym, level.value, definition);
      ListedExtend(suggestions, remaining, e, all, table, minLevel, definition);
      next := suggestions + [e];
    } else {
      ListedSkip(suggestions, remaining, synonym, all, table, minLevel, definition);
      next := suggestions;
    }
  }

  /** The second half of get_synonym_suggestions: each gathered synonym
      whose level qualifies is listed once, in the set's order. */
  method ListQualifying(all: set<string>, table: map<string, string>, minLevel: string, definition: string)
    returns (suggestions: seq<Suggestion>)
    ensures forall i :: 0 <= i < |suggestions| ==> Listed(suggestions[i], all, table, minLevel, definition)
    ensures forall s :: s in all && Qualifies(s, table, minLevel) ==>
      exists i :: 0 <= i < |suggestions| && suggestions[i].word == s
    ensures forall i, j :: 0 <= i < j < |suggestions| ==> suggestions[i].word != suggestions[j].word
  {
    suggestions := [];
    var remaining := all;
    while remaining != {}
      invariant ListedSoFar(suggestions, remaining, all, table, minLevel, definition)
      decreases |remaining|
    {
      var synonym :| synonym in remaining;
      suggestions := ListOne(suggestions, remaining, synonym, all, table, minLevel, definition);
      remaining := remaining - {synonym};
    }
  }

  /** get_synonym_suggestions: the synonyms of all synonym sets are
      gathered into a set, then those with a qualifying level are listed.
      The order of the list is the set's, which is left unspecified. */
  method GetSynonymSuggestions(word: string, table: map<string, string>, minLevel: string,
                               synsetsOf: string -> seq<Synset>)
    returns (suggestions: seq<Suggestion>)
    ensures ValidSuggestions(suggestions, word, table, minLevel, synsetsOf(Lower(word)))
  {
    var synsets := synsetsOf(Lower(word));
    var all := CollectSynonyms(word, synsets);
    var definition := if |synsets| > 0 then synsets[0].definition else "";
    suggestions := ListQualifying(all, table, minLevel, definition);
    ListedSuggestionsValid(suggestions, word, table, minLevel, synsets);
  }

  // -------------------------------------------------------------------
  // Analysing a text
  // -------------------------------------------------------------------

  /** One analysed word: its level, how often it occurs, and the
      suggestions when there are any. */
  datatype WordData = WordData(word: string, level: string, count: nat, suggestions: Option<seq<Suggestion>>)

  /** The minimum level of a suggestion. */
  const SuggestionMinLevel: string := "A2"

  /** Suggestions are looked for on the simplest words and on repeated
      ones. */
  predicate WantsSuggestions(level: string, count: nat)
  {
    level == "A1" || count > 1
  }

  /** What the result promises about each of its entries. */
  predicate GoodEntry(e: WordData, table: map<string, string>, tokens: seq<string>, synsetsOf: string -> seq<Synset>)
  {
    && e.word in table && e.level == table[e.word]
    && e.count == multiset(tokens)[e.word] && e.count > 0
    && (e.suggestions.Some? <==>
          WantsSuggestions(e.level, e.count)
          && SuggestionWords(e.word, table, SuggestionMinLevel, synsetsOf(Lower(e.word))) != {})
    && (e.suggestions.Some? ==>
          ValidSuggestions(e.suggestions.value, e.word, table, SuggestionMinLevel, synsetsOf(Lower(e.word))))
  }

  /** The result order: by level, then by word. */
  predicate KeyLt(a: WordData, b: WordData)
  {
    StrLt(a.level, b.level) || (a.level == b.level && StrLt(a.word, b.word))
  }

  predicate StrictlySorted(s: seq<WordData>)
  {
    forall i, j :: 0 <= i < j < |s| ==> KeyLt(s[i], s[j])
  }

  lemma KeyLtTransitive(a: WordData, b: WordData, c: WordData)
    requires KeyLt(a, b) && KeyLt(b, c)
    ensures KeyLt(a, c)
  {
    if StrLt(a.level, b.level) && StrLt(b.level, c.level) {
      StrLtTransitive(a.level, b.level, c.level);
    } else if a.level == b.level && b.level == c.level {
      StrLtTransitive(a.word, b.word, c.word);
    }
  }

  lemma KeyLtTotal(a: WordData, b: WordData)
    ensures KeyLt(a, b) || KeyLt(b, a) || (a.level == b.level && a.word == b.word)
  {
    StrLtTotal(a.level, b.level);
    StrLtTotal(a.word, b.word);
  }

  /** Insertion into a list in key order. */
  function InsertByKey(x: WordData, s: seq<WordData>): (r: seq<WordData>)
    ensures multiset(r) == multiset(s) + multiset{x}
    decreases |s|
  {
    if s == [] then [x]
    else if KeyLt(s[0], x) then
      assert s == [s[0]] + s[1..];
      [s[0]] + InsertByKey(x, s[1..])
    else [x] + s
  }

  /** The sort of the result by (level, word), as a reference insertion
      sort; the keys are distinct, so any correct sort gives this list. */
  function SortByKey(s: seq<WordData>): (r: seq<WordData>)
    ensures multiset(r) == multiset(s)
    decreases |s|
  {
    if s == [] then []
    else
      assert s == [s[0]] + s[1..];
      InsertByKey(s[0], SortByKey(s[1..]))
  }

  lemma {:induction false} InsertKeepsOrder(x: WordData, s: seq<WordData>)
    requires StrictlySorted(s)
    requires forall e :: e in s ==> e.level != x.level || e.word != x.word
    ensures StrictlySorted(InsertByKey(x, s))
    decreases |s|
  {
    if s != [] {
      if KeyLt(s[0], x) {
        InsertKeepsOrder(x, s[1..]);
        var tail := InsertByKey(x, s[1..]);
        forall j | 0 <= j < |tail|
          ensures KeyLt(s[0], tail[j])
        {
          assert tail[j] in multiset(s[1..]) + multiset{x};
          if tail[j] != x {
            var k :| 0 <= k < |s[1..]| && s[1..][k] == tail[j];
            assert s[k + 1] == tail[j];
          }
        }
      } else {
        KeyLtTotal(s[0], x);
        forall j | 0 <= j < |s|
          ensures KeyLt(x, s[j])
        {
          if j > 0 {
            KeyLtTransitive(x, s[0], s[j]);
          }
        }
      }
    }
  }

  /** Entries with distinct words and levels taken from one table end up
      in strictly increasing key order. */
  lemma {:induction false} SortByKeyOrders(s: seq<WordData>, table: map<string, string>)
    requires forall i :: 0 <= i < |s| ==> s[i].word in table && s[i].level == table[s[i].word]
    requires forall i, j :: 0 <= i < j < |s| ==> s[i].word != s[j].word
    ensures StrictlySorted(SortByKey(s))
    decreases |s|
  {
    if s != [] {
      SortByKeyOrders(s[1..], table);
      var sorted := SortByKey(s[1..]);
      forall e | e in sorted
        ensures e.level != s[0].level || e.word != s[0].word
      {
        assert e in multiset(s[1..]);
        var k :| 0 <= k < |s[1..]| && s[1..][k] == e;
        assert s[k + 1] == e;
      }
      InsertKeepsOrder(s[0], sorted);
    }
  }

  /** In a sorted result whose levels come from one table, no word
      appears twice. */
  lemma SortedWordsDistinct(s: seq<WordData>, table: map<string, string>)
    requires StrictlySorted(s)
    requires forall i :: 0 <= i < |s| ==> s[i].word in table && s[i].level == table[s[i].word]
    ensures forall i, j :: 0 <= i < j < |s| ==> s[i].word != s[j].word
  {
    forall i, j | 0 <= i < j < |s|
      ensures s[i].word != s[j].word
    {
      StrLtIrreflexive(s[i].word);
      StrLtIrreflexive(s[i].level);
    }
  }

  /** The report, sorted: every property of the unsorted entries carries
      over, and the order is strict. */
  lemma SortedReport(unsorted: seq<WordData>, table: map<string, string>, tokens: seq<string>,
                     synsetsOf: string -> seq<Synset>)
    requires forall i :: 0 <= i < |unsorted| ==> GoodEntry(unsorted[i], table, tokens, synsetsOf)
    requires forall t :: t in tokens && t in table ==> exists i :: 0 <= i < |unsorted| && unsorted[i].word == t
    requires forall i :: 0 <= i < |unsorted| ==> unsorted[i].word in tokens
    requires forall i, j :: 0 <= i < j < |unsorted| ==> unsorted[i].word != unsorted[j].word
    ensures var result := SortByKey(unsorted);
      && StrictlySorted(result)
      && (forall i :: 0 <= i < |result| ==> GoodEntry(result[i], table, tokens, synsetsOf))
      && (forall t :: (exists i :: 0 <= i < |result| && result[i].word == t) <==> t in tokens && t in table)
      && (forall i, j :: 0 <= i < j < |result| ==> result[i].word != result[j].word)
  {
    SortByKeyOrders(unsorted, table);
    var result := SortByKey(unsorted);
    forall i | 0 <= i < |result|
      ensures GoodEntry(result[i], table, tokens, synsetsOf) && result[i].word in tokens
    {
      assert result[i] in multiset(unsorted);
    }
    forall t | t in tokens && t in table
      ensures exists i :: 0 <= i < |result| && result[i].word == t
    {
      var i :| 0 <= i < |unsorted| && unsorted[i].word == t;
      assert unsorted[i] in multiset(result);
    }
    SortedWordsDistinct(result, table);
  }

  /** The entry analyze_text builds for one counted word with a known
      level. */
  method AnalyzeWord(word: string, count: nat, table: map<string, string>, tokens: seq<string>,
                     synsetsOf: string -> seq<Synset>)
    returns (entry: WordData)
    requires word in table && count == multiset(tokens)[word] && count > 0
    ensures GoodEntry(entry, table, tokens, synsetsOf) && entry.word == word
  {
    var level := table[word];
    var suggestions: Option<seq<Suggestion>> := None;
    if level == "A1" || count > 1 {
      var found := GetSynonymSuggestions(word, table, SuggestionMinLevel, synsetsOf);
      if |found| > 0 {
        assert found[0].word in SuggestionWords(word, table, SuggestionMinLevel, synsetsOf(Lower(word)));
        suggestions := Some(found);
      } else {
        assert SuggestionWords(word, table, SuggestionMinLevel, synsetsOf(Lower(word))) == {};
      }
    }
    entry := WordData(word, level, count, suggestions);
  }

  /** What the loop of analyze_text keeps: every entry is well formed and
      for a word already visited, each visited word with a known level has
      an entry, and no word has two. */
  predicate Covers(entries: seq<WordData>, visited: seq<string>, table: map<string, string>,
                   tokens: seq<string>, synsetsOf: string -> seq<Synset>)
  {
    && (forall i :: 0 <= i < |entries| ==>
          GoodEntry(entries[i], table, tokens, synsetsOf) && entries[i].word in visited)
    && (forall t :: t in visited && t in table ==> exists i :: 0 <= i < |entries| && entries[i].word == t)
    && (forall i, j :: 0 <= i < j < |entries| ==> entries[i].word != entries[j].word)
  }

  /** A visited word with an unknown level needs no entry. */
  lemma CoversSkip(entries: seq<WordData>, visited: seq<string>, word: string, table: map<string, string>,
                   tokens: seq<string>, synsetsOf: string -> seq<Synset>)
    requires Covers(entries, visited, table, tokens, synsetsOf) && word !in table
    ensures Covers(entries, visited + [word], table, tokens, synsetsOf)
  {
    forall i | 0 <= i < |entries|
      ensures entries[i].word in visited + [word]
    {
    }
  }

  /** A well-formed entry for a new word extends what is covered. */
  lemma CoversExtend(entries: seq<WordData>, visited: seq<string>, entry: WordData, table: map<string, string>,
                     tokens: seq<string>, synsetsOf: string -> seq<Synset>)
    requires Covers(entries, visited, table, tokens, synsetsOf)
    requires entry.word !in visited && GoodEntry(entry, table, tokens, synsetsOf)
    ensures Covers(entries + [entry], visited + [entry.word], table, tokens, synsetsOf)
  {
    var next := entries + [entry];
    forall i | 0 <= i < |next|
      ensures GoodEntry(next[i], table, tokens, synsetsOf) && next[i].word in visited + [entry.word]
    {
      if i < |entries| {
        assert next[i] == entries[i];
      }
    }
    forall t | t in visited + [entry.word] && t in table
      ensures exists i :: 0 <= i < |next| && next[i].word == t
    {
      if t == entry.word {
        assert next[|next| - 1].word == t;
      } else {
        var i :| 0 <= i < |entries| && entries[i].word == t;
        assert next[i] == entries[i];
      }
    }
  }

  /** One turn of the loop of analyze_text: a word not visited before gets
      an entry when its level is known. */
  method VisitWord(entries: seq<WordData>, visited: seq<string>, word: string, count: nat,
                   table: map<string, string>, tokens: seq<string>, synsetsOf: string -> seq<Synset>)
    returns (next: seq<WordData>)
    requires Covers(entries, visited, table, tokens, synsetsOf)
    requires word !in visited && count == multiset(tokens)[word] && count > 0
    ensures Covers(next, visited + [word], table, tokens, synsetsOf)
  {
    if word in table {
      var entry := AnalyzeWord(word, count, table, tokens, synsetsOf);
      CoversExtend(entries, visited, entry, table, tokens, synsetsOf);
      next := entries + [entry];
    } else {
      CoversSkip(entries, visited, word, table, tokens, synsetsOf);
      next := entries;
    }
  }

  /** The loop of analyze_text: one entry per counted word with a known
      level, in counting order. */
  method BuildEntries(order: seq<string>, counts: map<string, nat>, tokens: seq<string>,
                      table: map<string, string>, synsetsOf: string -> seq<Synset>)
    returns (unsorted: seq<WordData>)
    requires forall i, j :: 0 <= i < j < |order| ==> order[i] != order[j]
    requires forall t :: t in order <==> t in tokens
    requires forall t :: t in tokens ==> t in counts
    requires forall t :: t in counts ==> counts[t] == multiset(tokens)[t] && counts[t] > 0
    ensures forall i :: 0 <= i < |unsorted| ==> GoodEntry(unsorted[i], table, tokens, synsetsOf)
    ensures forall i :: 0 <= i < |unsorted| ==> unsorted[i].word in tokens
    ensures forall t :: t in tokens && t in table ==> exists i :: 0 <= i < |unsorted| && unsorted[i].word == t
    ensures forall i, j :: 0 <= i < j < |unsorted| ==> unsorted[i].word != unsorted[j].word
  {
    unsorted := [];
    var k := 0;
    while k < |order|
      invariant 0 <= k <= |order|
      invariant Covers(unsorted, order[..k], table, tokens, synsetsOf)
    {
      var word := order[k];
      assert order[..k + 1] == order[..k] + [word];
      assert word !in order[..k] by {
        forall i | 0 <= i < k ensures order[..k][i] != word {
          assert order[..k][i] == order[i];
        }
      }
      unsorted := VisitWord(unsorted, order[..k], word, counts[word], table, tokens, synsetsOf);
      k := k + 1;
    }
    assert order[..k] == order;
  }

  /** analyze_text: the lower-cased text's words are counted; each word
      with a known level is reported with its count, and with synonym
      suggestions when it is an A1 word or repeated and some synonym
      qualifies; the report is sorted by level and then by word. */
  method AnalyzeText(text: string, table: map<string, string>, synsetsOf: string -> seq<Synset>)
    returns (result: seq<WordData>)
    ensures StrictlySorted(result)
    ensures forall i :: 0 <= i < |result| ==> GoodEntry(result[i], table, Tokens(Lower(text)), synsetsOf)
    ensures forall t :: (exists i :: 0 <= i < |result| && result[i].word == t) <==> t in Tokens(Lower(text)) && t in table
    ensures forall i, j :: 0 <= i < j < |result| ==> result[i].word != result[j].word
  {
    var tokens := Tokens(Lower(text));
    var order, counts := CountWords(tokens);
    var unsorted := BuildEntries(order, counts, tokens, table, synsetsOf);
    SortedReport(unsorted, table, tokens, synsetsOf);
    result := SortByKey(unsorted);
  }
}
