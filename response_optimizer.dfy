/** Response shaping for word lists: field selection by name, batching of
    large lists, and the minimal four-key form. JSON encoding is outside
    the model; the raw JSON columns of a word are carried as text and its
    frequency as a real. */
module ResponseOptimizer {
  import opened Common

  datatype Word = Word(id: int, word: string, pronounce: string, level: int, descriptLevel: string,
                       shortMean: string, means: string, snym: string, freq: real, conjugation: string)

  /** The full response: every field of the word. */
  datatype WordResponse = WordResponse(id: int, word: string, pronounce: string, level: int, descriptLevel: string,
                                       shortMean: string, means: string, snym: string, freq: real, conjugation: string)

  /** The selected response: a field is present only when requested. */
  datatype OptimizedWordResponse = OptimizedWordResponse(
    id: Option<int>, word: Option<string>, pronounce: Option<string>, level: Option<int>,
    descriptLevel: Option<string>, shortMean: Option<string>, means: Option<string>,
    snym: Option<string>, freq: Option<real>, conjugation: Option<string>)

  /** A word list response: full when no fields were requested, selected
      otherwise. */
  datatype WordsResponse = FullList(full: seq<WordResponse>) | SelectedList(selected: seq<OptimizedWordResponse>)

  function Count(r: WordsResponse): nat
  {
    match r
    case FullList(f) => |f|
    case SelectedList(s) => |s|
  }

  /** The full response of a word, as the object pool's conversion builds
      it. */
  function FullResponse(w: Word): WordResponse
  {
    WordResponse(w.id, w.word, w.pronounce, w.level, w.descriptLevel, w.shortMean, w.means, w.snym, w.freq, w.conjugation)
  }

  /** The requested field names, lower-cased. */
  function FieldSet(fields: seq<string>): (fs: set<string>)
    ensures forall f :: f in fs <==> exists i :: 0 <= i < |fields| && Lower(fields[i]) == f
  {
    set i | 0 <= i < |fields| :: Lower(fields[i])
  }

  /** The loop that fills the field set. */
  method BuildFieldSet(fields: seq<string>) returns (fs: set<string>)
    ensures fs == FieldSet(fields)
  {
    fs := {};
    var i := 0;
    while i < |fields|
      invariant 0 <= i <= |fields|
      invariant fs == FieldSet(fields[..i])
    {
      assert fields[..i + 1][..i] == fields[..i];
      fs := fs + {Lower(fields[i])};
      i := i + 1;
    }
    assert fields[..i] == fields;
  }

  function When<T>(requested: bool, v: T): Option<T>
  {
    if requested then Some(v) else None
  }

  /** The response of a word restricted to the requested fields: each of
      the ten fields is present exactly when its name was requested, and
      then carries the word's value. */
  function Select(w: Word, fs: set<string>): (r: OptimizedWordResponse)
    ensures (r.id.Some? <==> "id" in fs) && (r.id.Some? ==> r.id.value == w.id)
    ensures (r.word.Some? <==> "word" in fs) && (r.word.Some? ==> r.word.value == w.word)
    ensures (r.pronounce.Some? <==> "pronounce" in fs) && (r.pronounce.Some? ==> r.pronounce.value == w.pronounce)
    ensures (r.level.Some? <==> "level" in fs) && (r.level.Some? ==> r.level.value == w.level)
    ensures (r.descriptLevel.Some? <==> "descript_level" in fs)
      && (r.descriptLevel.Some? ==> r.descriptLevel.value == w.descriptLevel)
    ensures (r.shortMean.Some? <==> "short_mean" in fs) && (r.shortMean.Some? ==> r.shortMean.value == w.shortMean)
    ensures (r.means.Some? <==> "means" in fs) && (r.means.Some? ==> r.means.value == w.means)
    ensures (r.snym.Some? <==> "snym" in fs) && (r.snym.Some? ==> r.snym.value == w.snym)
    ensures (r.freq.Some? <==> "freq" in fs) && (r.freq.Some? ==> r.freq.value == w.freq)
    ensures (r.conjugation.Some? <==> "conjugation" in fs)
      && (r.conjugation.Some? ==> r.conjugation.value == w.conjugation)
  {
    OptimizedWordResponse(
      When("id" in fs, w.id), When("word" in fs, w.word), When("pronounce" in fs, w.pronounce),
      When("level" in fs, w.level), When("descript_level" in fs, w.descriptLevel),
      When("short_mean" in fs, w.shortMean), When("means" in fs, w.means), When("snym" in fs, w.snym),
      When("freq" in fs, w.freq), When("conjugation" in fs, w.conjugation))
  }

  /** What OptimizeWordResponse and OptimizeWordsResponse answer for one
      word. */
  function OptimizedWords(words: seq<Word>, fields: seq<string>): (r: WordsResponse)
    ensures Count(r) == |words|
    ensures fields == [] <==> r.FullList?
  {
    if fields == [] then FullList(seq(|words|, i requires 0 <= i < |words| => FullResponse(words[i])))
    else SelectedList(seq(|words|, i requires 0 <= i < |words| => Select(words[i], FieldSet(fields))))
  }

  /** OptimizeWordsResponse: without fields the full responses; otherwise
      a preallocated slice filled with the selected responses. */
  method OptimizeWordsResponse(words: seq<Word>, fields: seq<string>) returns (r: WordsResponse)
    ensures r == OptimizedWords(words, fields)
  {
    if |fields| == 0 {
      return FullList(seq(|words|, i requires 0 <= i < |words| => FullResponse(words[i])));
    }
    var responses := new OptimizedWordResponse[|words|];
    var fs := BuildFieldSet(fields);
    var i := 0;
    while i < |words|
      invariant 0 <= i <= |words|
      invariant forall j :: 0 <= j < i ==> responses[j] == Select(words[j], fs)
    {
      responses[i] := Select(words[i], fs);
      i := i + 1;
    }
    return SelectedList(responses[..]);
  }

  /** Field names are matched without regard to case: requesting names
      with the same lower-case forms gives the same responses. */
  lemma SelectionIgnoresCase(words: seq<Word>, fields: seq<string>, fields2: seq<string>)
    requires |fields| == |fields2| && forall i :: 0 <= i < |fields| ==> Lower(fields[i]) == Lower(fields2[i])
    ensures OptimizedWords(words, fields) == OptimizedWords(words, fields2)
  {
    assert FieldSet(fields) == FieldSet(fields2);
  }

  /** Lower-casing is Unicode's: "İD", with a capital I with dot above,
      names the id field. */
  lemma DottedCapitalSelectsId(w: Word)
    ensures Select(w, FieldSet(["\U{130}D"])).id == Some(w.id)
  {
    var fields := ["\U{130}D"];
    assert Lower(fields[0]) == "id";
    assert "id" in FieldSet(fields);
  }

  /** A requested field carries the word's value, an unrequested one is
      absent. */
  lemma SelectedFieldsCarryValues(words: seq<Word>, fields: seq<string>, i: int)
    requires fields != [] && 0 <= i < |words|
    ensures var r := OptimizedWords(words, fields).selected[i];
      (r.id == Some(words[i].id) <==> exists k :: 0 <= k < |fields| && Lower(fields[k]) == "id")
      && (r.shortMean.None? <==> forall k :: 0 <= k < |fields| ==> Lower(fields[k]) != "short_mean")
  {
  }

  /** GetFieldsFromContext after binding: a single value holding commas is
      split on them; a binding error gives no fields. */
  function FieldsFromQuery(bound: Option<seq<string>>): (r: seq<string>)
    ensures bound.None? ==> r == []
    ensures bound.Some? && |bound.value| == 1 && Contains(bound.value[0], ",") ==>
      |r| >= 2 && Join(r, ',') == bound.value[0] && forall k :: 0 <= k < |r| ==> ',' !in r[k]
    ensures bound.Some? && !(|bound.value| == 1 && Contains(bound.value[0], ",")) ==> r == bound.value
  {
    match bound
    case None => []
    case Some(fields) =>
      if |fields| == 1 && Contains(fields[0], ",") then
        CommaCount(fields[0]);
        Split(fields[0], ',')
      else fields
  }

  lemma {:induction false} CommaCount(s: string)
    requires Contains(s, ",")
    ensures CountChar(s, ',') >= 1
    decreases |s|
  {
    var i :| 0 <= i <= |s| - 1 && OccursAt(s, ",", i);
    if i > 0 {
      assert OccursAt(s[1..], ",", i - 1);
      CommaCount(s[1..]);
    } else {
      assert s[0] == s[0..1][0];
    }
  }

  /** Joining the comma-free field names and splitting them again gives
      them back. */
  lemma CommaFieldsRoundTrip(names: seq<string>)
    requires |names| >= 2 && forall k :: 0 <= k < |names| ==> ',' !in names[k]
    ensures FieldsFromQuery(Some([Join(names, ',')])) == names
  {
    SplitJoin(names, ',');
    var j := Join(names, ',');
    assert j == names[0] + [','] + Join(names[1..], ',');
    assert OccursAt(j, ",", |names[0]|);
  }

  datatype Batched = Single(response: WordsResponse) | Batches(batches: seq<WordsResponse>)

  /** The consecutive batches of a list: batchSize words each, the last
      one possibly shorter. */
  function ChunksOf(words: seq<Word>, batchSize: int): (cs: seq<seq<Word>>)
    requires batchSize > 0
    ensures forall k :: 0 <= k < |cs| ==> 0 < |cs[k]| <= batchSize
    decreases |words|
  {
    if words == [] then []
    else if |words| <= batchSize then [words]
    else [words[..batchSize]] + ChunksOf(words[batchSize..], batchSize)
  }

  function Flatten(cs: seq<seq<Word>>): seq<Word>
  {
    if cs == [] then [] else cs[0] + Flatten(cs[1..])
  }

  /** Batching neither loses nor repeats a word, and keeps their order. */
  lemma {:induction false} ChunksFlatten(words: seq<Word>, batchSize: int)
    requires batchSize > 0
    ensures Flatten(ChunksOf(words, batchSize)) == words
    decreases |words|
  {
    if |words| > batchSize {
      var cs := ChunksOf(words, batchSize);
      assert cs[1..] == ChunksOf(words[batchSize..], batchSize);
      ChunksFlatten(words[batchSize..], batchSize);
      assert words == words[..batchSize] + words[batchSize..];
    } else if words != [] {
      assert ChunksOf(words, batchSize)[1..] == [];
    }
  }

  /** The number of batches is n / batchSize rounded up: the fewest whose
      total capacity holds every word. */
  lemma {:induction false} ChunksCount(words: seq<Word>, batchSize: int)
    requires batchSize > 0
    ensures var c := |ChunksOf(words, batchSize)|;
      (c - 1) * batchSize < |words| <= c * batchSize
    decreases |words|
  {
    if |words| > batchSize {
      var rest := words[batchSize..];
      ChunksCount(rest, batchSize);
      var c := |ChunksOf(rest, batchSize)|;
      assert |ChunksOf(words, batchSize)| == c + 1;
      assert (c + 1) * batchSize == c * batchSize + batchSize;
      assert (c + 1 - 1) * batchSize == (c - 1) * batchSize + batchSize;
    }
  }

  /** The batches from position i on: the next batch, then the batches
      after it. */
  lemma ChunksStep(words: seq<Word>, i: int, batchSize: int)
    requires batchSize > 0 && 0 <= i < |words|
    ensures i + batchSize < |words| ==>
      ChunksOf(words[i..], batchSize) == [words[i..i + batchSize]] + ChunksOf(words[i + batchSize..], batchSize)
    ensures i + batchSize >= |words| ==> ChunksOf(words[i..], batchSize) == [words[i..]]
  {
    var rest := words[i..];
    if i + batchSize < |words| {
      assert rest[..batchSize] == words[i..i + batchSize];
      assert rest[batchSize..] == words[i + batchSize..];
    }
  }

  /** The batched answer: the whole list when it fits in one batch,
      otherwise one selected list per batch. */
  function Batching(words: seq<Word>, fields: seq<string>, batchSize: int): Batched
    requires batchSize > 0
  {
    if |words| <= batchSize then Single(OptimizedWords(words, fields))
    else
      var cs := ChunksOf(words, batchSize);
      Batches(seq(|cs|, k requires 0 <= k < |cs| => OptimizedWords(cs[k], fields)))
  }

  /** BatchOptimizeWords: lists up to the batch size are answered whole,
      longer ones batch by batch. */
  method BatchOptimizeWords(words: seq<Word>, fields: seq<string>, batchSize: int) returns (r: Batched)
    requires batchSize > 0
    ensures r == Batching(words, fields, batchSize)
    ensures |words| <= batchSize ==> r == Single(OptimizedWords(words, fields))
    ensures |words| > batchSize ==> r.Batches? && |r.batches| == |ChunksOf(words, batchSize)|
    ensures |words| > batchSize ==> forall k :: 0 <= k < |r.batches| ==>
      r.batches[k] == OptimizedWords(ChunksOf(words, batchSize)[k], fields)
  {
    if |words| <= batchSize {
      var single := OptimizeWordsResponse(words, fields);
      return Single(single);
    }
    var all: seq<WordsResponse> := [];
    ghost var done: seq<seq<Word>> := [];
    var i := 0;
    while i < |words|
      invariant 0 <= i
      invariant i < |words| ==> done + ChunksOf(words[i..], batchSize) == ChunksOf(words, batchSize)
      invariant i >= |words| ==> done == ChunksOf(words, batchSize)
      invariant |all| == |done| && forall k :: 0 <= k < |all| ==> all[k] == OptimizedWords(done[k], fields)
      decreases |words| - i
    {
      var end := i + batchSize;
      if end > |words| {
        end := |words|;
      }
      var batch := words[i..end];
      ChunksStep(words, i, batchSize);
      if end < |words| {
        assert (done + [batch]) + ChunksOf(words[end..], batchSize) == done + ([batch] + ChunksOf(words[end..], batchSize));
      } else {
        assert batch == words[i..];
      }
      var response := OptimizeWordsResponse(batch, fields);
      all := all + [response];
      done := done + [batch];
      i := i + batchSize;
    }
    return Batches(all);
  }

  /** A value of the minimal response. */
  datatype Value = IntValue(i: int) | StringValue(s: string)

  /** CreateMinimalWordResponse: exactly the id, word, short meaning and
      level. */
  function MinimalWordResponse(w: Word): (m: map<string, Value>)
    ensures m.Keys == {"id", "word", "short_mean", "level"} && |m| == 4
    ensures m["id"] == IntValue(w.id) && m["word"] == StringValue(w.word)
    ensures m["short_mean"] == StringValue(w.shortMean) && m["level"] == IntValue(w.level)
  {
    var m := map["id" := IntValue(w.id), "word" := StringValue(w.word),
                 "short_mean" := StringValue(w.shortMean), "level" := IntValue(w.level)];
    assert m.Keys == {"id", "word", "short_mean", "level"};
    assert |{"id", "word", "short_mean", "level"}| == 4;
    m
  }

  /** CreateMinimalWordsResponse: a preallocated slice of minimal
      responses, one per word in order. */
  method MinimalWordsResponse(words: seq<Word>) returns (r: seq<map<string, Value>>)
    ensures |r| == |words|
    ensures forall i :: 0 <= i < |words| ==> r[i] == MinimalWordResponse(words[i])
  {
    var responses := new map<string, Value>[|words|];
    var i := 0;
    while i < |words|
      invariant 0 <= i <= |words|
      invariant forall j :: 0 <= j < i ==> responses[j] == MinimalWordResponse(words[j])
    {
      responses[i] := MinimalWordResponse(words[i]);
      i := i + 1;
    }
    return responses[..];
  }

  /** The default batch size of the "batch" response type. */
  const DefaultBatchSize: int := 50

  datatype Shaped = Minimal(minimal: seq<map<string, Value>>) | Plain(plain: WordsResponse) | InBatches(batched: Batched)

  /** OptimizeByResponseType: "minimal", "batch" (batches of 50), and
      otherwise the field-selected list. */
  method OptimizeByResponseType(responseType: string, words: seq<Word>, fields: seq<string>) returns (r: Shaped)
    ensures responseType == "minimal" ==>
              r.Minimal? && |r.minimal| == |words|
              && forall i :: 0 <= i < |words| ==> r.minimal[i] == MinimalWordResponse(words[i])
    ensures responseType == "batch" ==> r == InBatches(Batching(words, fields, DefaultBatchSize))
    ensures responseType != "minimal" && responseType != "batch" ==> r == Plain(OptimizedWords(words, fields))
  {
    if responseType == "minimal" {
      var m := MinimalWordsResponse(words);
      return Minimal(m);
    } else if responseType == "batch" {
      var b := BatchOptimizeWords(words, fields, DefaultBatchSize);
      return InBatches(b);
    }
    var p := OptimizeWordsResponse(words, fields);
    return Plain(p);
  }
}
