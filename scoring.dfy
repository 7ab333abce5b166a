/** Scoring rules of the writing assessment: the heuristic score used when
    the language model is unavailable, the score-to-band thresholds, the
    validation of a band returned by the model, and the improvement
    suggestions. Band names are the strings "1" to "10". */
module Scoring {
  import opened Common

  const BandNames: seq<string> := ["1", "2", "3", "4", "5", "6", "7", "8", "9", "10"]

  /** A band level 1..10 and its name. */
  function BandName(b: int): (name: string)
    requires 1 <= b <= 10
  {
    BandNames[b - 1]
  }

  /** Thresholds of 20 points from 40 up to 200. */
  function ScoreToBand(score: int): (band: int)
    ensures 1 <= band <= 10
    ensures score >= 200 ==> band == 10
    ensures score < 40 ==> band == 1
    ensures 40 <= score < 200 ==> band == score / 20
  {
    if score >= 200 then 10
    else if score >= 180 then 9
    else if score >= 160 then 8
    else if score >= 140 then 7
    else if score >= 120 then 6
    else if score >= 100 then 5
    else if score >= 80 then 4
    else if score >= 60 then 3
    else if score >= 40 then 2
    else 1
  }

  /** A higher score never gives a lower band, and each band above 1 and
      below 10 covers exactly 20 points. */
  lemma ScoreToBandMonotone(s1: int, s2: int)
    requires s1 <= s2
    ensures ScoreToBand(s1) <= ScoreToBand(s2)
  {
  }

  lemma BandWidth(b: int, score: int)
    requires 2 <= b <= 9
    ensures ScoreToBand(score) == b <==> 20 * b <= score < 20 * b + 20
  {
  }

  /** A band name from the model is kept when it is one of "1".."10";
      anything else becomes band 4. */
  function ValidateBand(name: string): (band: int)
    ensures 1 <= band <= 10
    ensures name in BandNames ==> BandName(band) == name
    ensures name !in BandNames ==> band == 4
  {
    if name == "1" then 1
    else if name == "2" then 2
    else if name == "3" then 3
    else if name == "4" then 4
    else if name == "5" then 5
    else if name == "6" then 6
    else if name == "7" then 7
    else if name == "8" then 8
    else if name == "9" then 9
    else if name == "10" then 10
    else 4
  }

  /** Naming a band and validating the name gives the band back. */
  lemma ValidateBandName(b: int)
    requires 1 <= b <= 10
    ensures ValidateBand(BandName(b)) == b
  {
  }

  /** The value stored under key, unless it is missing or empty. */
  function GetOrDefault(m: map<string, string>, key: string, default: string): (r: string)
    ensures key !in m || m[key] == "" ==> r == default
    ensures key in m && m[key] != "" ==> r == m[key]
  {
    if key in m && m[key] != "" then m[key] else default
  }

  /** An integer brought into lo..hi: the nearer bound when outside. */
  function Clamp(x: int, lo: int, hi: int): (r: int)
    requires lo <= hi
    ensures lo <= r <= hi
    ensures lo <= x <= hi ==> r == x
    ensures x < lo ==> r == lo
    ensures x > hi ==> r == hi
  {
    if x < lo then lo else if x > hi then hi else x
  }

  /** A confidence brought into 0..1: negative values become 0 and values
      above 1 become 1. */
  function ClampConfidence(c: real): (r: real)
    ensures 0.0 <= r <= 1.0
    ensures 0.0 <= c <= 1.0 ==> r == c
    ensures c < 0.0 ==> r == 0.0
    ensures c > 1.0 ==> r == 1.0
  {
    if c < 0.0 then 0.0 else if c > 1.0 then 1.0 else c
  }

  /** The length adjustment: 150..300 words are optimal. */
  function LengthAdjustment(wordCount: int): int
  {
    if wordCount < 50 then -40
    else if wordCount < 100 then -20
    else if wordCount > 400 then -10
    else if 150 <= wordCount <= 300 then 20
    else 0
  }

  /** The sentence-length adjustment: 12..20 words per sentence are optimal. */
  function SentenceAdjustment(avgWordsPerSentence: real): int
  {
    if avgWordsPerSentence < 8.0 then -15
    else if avgWordsPerSentence > 25.0 then -20
    else if 12.0 <= avgWordsPerSentence <= 20.0 then 15
    else 0
  }

  /** The text uses one of the three transition words, in any case. */
  predicate HasTransition(text: string)
  {
    var lower := Lower(text);
    Contains(lower, "however") || Contains(lower, "moreover") || Contains(lower, "furthermore")
  }

  /** More commas than one per twenty words. */
  predicate CommaRich(text: string, wordCount: nat)
  {
    CountChar(text, ',') > wordCount / 20
  }

  /** The heuristic score as the sum of its adjustments, clamped to 0..200.
      Every adjustment is bounded, so it always lies in 40..150 and the
      clamp never changes it. */
  function BasicScore(text: string, wordCount: nat, avgWordsPerSentence: real): (score: int)
    ensures 40 <= score <= 150
    ensures score == 100 + LengthAdjustment(wordCount) + SentenceAdjustment(avgWordsPerSentence)
      + (if HasTransition(text) then 10 else 0) + (if CommaRich(text, wordCount) then 5 else 0)
    ensures wordCount < 50 && avgWordsPerSentence < 8.0 ==> score <= 60
    ensures 150 <= wordCount <= 300 && 12.0 <= avgWordsPerSentence <= 20.0 ==> score >= 135
  {
    Clamp(100 + LengthAdjustment(wordCount) + SentenceAdjustment(avgWordsPerSentence)
          + (if HasTransition(text) then 10 else 0) + (if CommaRich(text, wordCount) then 5 else 0), 0, 200)
  }

  /** A transition word is worth exactly ten points. */
  lemma TransitionWorthTen(text: string, other: string, wordCount: nat, avg: real)
    requires HasTransition(text) && !HasTransition(other)
    requires CommaRich(text, wordCount) == CommaRich(other, wordCount)
    ensures BasicScore(text, wordCount, avg) == BasicScore(other, wordCount, avg) + 10
  {
  }

  /** CalculateBasicScore: the adjustments applied one after the other. */
  method CalculateBasicScore(text: string, wordCount: nat, avgWordsPerSentence: real) returns (score: int)
    ensures score == BasicScore(text, wordCount, avgWordsPerSentence)
    ensures 0 <= score <= 200
  {
    score := 100;
    if wordCount < 50 {
      score := score - 40;
    } else if wordCount < 100 {
      score := score - 20;
    } else if wordCount > 400 {
      score := score - 10;
    } else if wordCount >= 150 && wordCount <= 300 {
      score := score + 20;
    }

    if avgWordsPerSentence < 8.0 {
      score := score - 15;
    } else if avgWordsPerSentence > 25.0 {
      score := score - 20;
    } else if avgWordsPerSentence >= 12.0 && avgWordsPerSentence <= 20.0 {
      score := score + 15;
    }

    var lower := Lower(text);
    if Contains(lower, "however") || Contains(lower, "moreover") || Contains(lower, "furthermore") {
      score := score + 10;
    }

    if CountChar(text, ',') > wordCount / 20 {
      score := score + 5;
    }

    if score < 0 {
      score := 0;
    } else if score > 200 {
      score := 200;
    }
  }

  /** The improvement suggestions; Text gives the sentence shown. */
  datatype Suggestion =
    | LengthTip | VariedStructures | TransitionWords | GrammarAccuracy | Vocabulary
    | CompleteSentences | SentenceStructure
    | BasicFormation | ConnectingIdeas | ComplexStructures | PreciseWording | Excellent

  function Text(s: Suggestion): string
  {
    match s
    case LengthTip => "Aim for 150-300 words to fully develop your ideas."
    case VariedStructures => "Use more varied sentence structures to improve your writing."
    case TransitionWords => "Include transition words (however, moreover, furthermore) to connect ideas."
    case GrammarAccuracy => "Focus on basic grammar accuracy, especially verb tenses."
    case Vocabulary => "Expand your vocabulary by using more specific and varied words."
    case CompleteSentences => "Practice writing complete sentences with proper punctuation."
    case SentenceStructure => "Review basic sentence structure and word order."
    case BasicFormation => "Focus on basic sentence formation and common vocabulary."
    case ConnectingIdeas => "Work on connecting ideas between sentences and paragraphs."
    case ComplexStructures => "Practice using complex sentence structures and advanced vocabulary."
    case PreciseWording => "Focus on precise word choice and sophisticated language use."
    case Excellent => "Excellent work! Continue practicing to maintain this high level."
  }

  /** The five suggestions that depend on the band alone. */
  predicate IsBandSuggestion(s: Suggestion)
  {
    s in {BasicFormation, ConnectingIdeas, ComplexStructures, PreciseWording, Excellent}
  }

  /** Bands 1-3, 4-5, 6-7, 8-9 and 10 each have their suggestion. */
  function BandSuggestion(band: int): (s: Suggestion)
    requires 1 <= band <= 10
    ensures IsBandSuggestion(s)
    ensures band == 10 <==> s == Excellent
  {
    if band <= 3 then BasicFormation
    else if band <= 5 then ConnectingIdeas
    else if band <= 7 then ComplexStructures
    else if band <= 9 then PreciseWording
    else Excellent
  }

  /** The tips for a score: two below each of 160, 120 and 80 points. */
  function ScoreTips(score: int): (tips: seq<Suggestion>)
    ensures |tips| == (if score < 160 then 2 else 0) + (if score < 120 then 2 else 0) + (if score < 80 then 2 else 0)
    ensures LengthTip !in tips && forall i :: 0 <= i < |tips| ==> !IsBandSuggestion(tips[i])
  {
    (if score < 160 then [VariedStructures, TransitionWords] else [])
    + (if score < 120 then [GrammarAccuracy, Vocabulary] else [])
    + (if score < 80 then [CompleteSentences, SentenceStructure] else [])
  }

  /** The suggestions in order: the length tip below 100 words, the score
      tips, and the band suggestion last. */
  function SuggestionsFor(wordCount: int, score: int, band: int): (suggestions: seq<Suggestion>)
    requires 1 <= band <= 10
    ensures |suggestions| >= 1 && suggestions[|suggestions| - 1] == BandSuggestion(band)
    ensures forall i :: 0 <= i < |suggestions| - 1 ==> !IsBandSuggestion(suggestions[i])
    ensures |suggestions| == (if wordCount < 100 then 1 else 0) + (if score < 160 then 2 else 0)
      + (if score < 120 then 2 else 0) + (if score < 80 then 2 else 0) + 1
    ensures wordCount < 100 <==> LengthTip in suggestions
  {
    (if wordCount < 100 then [LengthTip] else []) + ScoreTips(score) + [BandSuggestion(band)]
  }

  /** A lower score never loses a tip: the tips of a higher score are a
      prefix of those of a lower one. */
  lemma ScoreTipsGrow(s1: int, s2: int)
    requires s1 <= s2
    ensures ScoreTips(s2) <= ScoreTips(s1)
  {
  }

  /** GenerateSuggestions: suggestions grow as the score falls, with
      exactly one band suggestion, at the end. */
  method GenerateSuggestions(text: string, score: int, band: int) returns (suggestions: seq<Suggestion>)
    requires 1 <= band <= 10
    ensures suggestions == SuggestionsFor(FieldCount(text), score, band)
    ensures FieldCount(text) < 100 <==> LengthTip in suggestions
  {
    suggestions := [];
    var wordCount := FieldCount(text);
    if wordCount < 100 {
      suggestions := suggestions + [LengthTip];
    }
    if score < 160 {
      suggestions := suggestions + [VariedStructures];
      suggestions := suggestions + [TransitionWords];
    }
    if score < 120 {
      suggestions := suggestions + [GrammarAccuracy];
      suggestions := suggestions + [Vocabulary];
    }
    if score < 80 {
      suggestions := suggestions + [CompleteSentences];
      suggestions := suggestions + [SentenceStructure];
    }
    suggestions := suggestions + [BandSuggestion(band)];
  }

  datatype Feedback = Feedback(
    grammar: string, vocabulary: string, organization: string, development: string,
    taskResponse: string, languageUse: string, overall: string)

  datatype ScoreResponse = ScoreResponse(
    score: int, band: int, feedback: Feedback, suggestions: seq<string>, confidence: real)

  /** The heuristic assessment, whose suggestions are the fixed ones above. */
  datatype FallbackResponse = FallbackResponse(score: int, band: int, suggestions: seq<Suggestion>, confidence: real)

  /** What the model's JSON decodes to, before validation. */
  datatype RawAssessment = RawAssessment(
    score: int, band: string, feedback: map<string, string>, suggestions: seq<string>, confidence: real)

  const NoFeedback := "No feedback provided"

  /** The seven feedback entries, each defaulting when missing or empty. */
  function FeedbackFrom(m: map<string, string>): (f: Feedback)
    ensures f.grammar == GetOrDefault(m, "grammar", NoFeedback)
    ensures f.vocabulary == GetOrDefault(m, "vocabulary", NoFeedback)
    ensures f.organization == GetOrDefault(m, "organization", NoFeedback)
    ensures f.development == GetOrDefault(m, "development", NoFeedback)
    ensures f.taskResponse == GetOrDefault(m, "task_response", NoFeedback)
    ensures f.languageUse == GetOrDefault(m, "language_use", NoFeedback)
    ensures f.overall == GetOrDefault(m, "overall", NoFeedback)
  {
    Feedback(
      GetOrDefault(m, "grammar", NoFeedback),
      GetOrDefault(m, "vocabulary", NoFeedback),
      GetOrDefault(m, "organization", NoFeedback),
      GetOrDefault(m, "development", NoFeedback),
      GetOrDefault(m, "task_response", NoFeedback),
      GetOrDefault(m, "language_use", NoFeedback),
      GetOrDefault(m, "overall", NoFeedback))
  }

  /** The text from the first '{' to the last '}' of the (trimmed) answer,
      when there is a '{' before a '}'. */
  function JsonSpan(t: string): (r: Option<string>)
    ensures var start, end := IndexChar(t, '{'), LastIndexChar(t, '}');
      (r.None? <==> start == -1 || end == -1 || start >= end)
      && (r.Some? ==> |r.value| >= 2 && r.value[0] == '{' && r.value[|r.value| - 1] == '}')
  {
    var start := IndexChar(t, '{');
    var end := LastIndexChar(t, '}');
    if start == -1 || end == -1 || start >= end then None
    else
      var json := t[start..end + 1];
      assert json[0] == t[start] && json[|json| - 1] == t[end];
      Some(json)
  }

  /** Reads the JSON object of the answer, with `unmarshal` standing for the
      JSON decoder (its error carries the decoder's message); then validates the band and clamps the score to 0..200
      and the confidence to 0..1. */
  function ParseAIAssessment(assessment: string, unmarshal: string -> Result<RawAssessment>): (r: Result<ScoreResponse>)
    ensures JsonSpan(TrimSpace(assessment)).None? ==> r == Err("no valid JSON found in AI response")
    ensures JsonSpan(TrimSpace(assessment)).Some? && unmarshal(JsonSpan(TrimSpace(assessment)).value).Err? ==>
      r == Err("failed to parse AI JSON response: " + unmarshal(JsonSpan(TrimSpace(assessment)).value).error)
    ensures r.Ok? <==> JsonSpan(TrimSpace(assessment)).Some? && unmarshal(JsonSpan(TrimSpace(assessment)).value).Ok?
    ensures r.Ok? ==> 0 <= r.value.score <= 200 && 0.0 <= r.value.confidence <= 1.0
    ensures r.Ok? ==> 1 <= r.value.band <= 10
    ensures r.Ok? ==>
              var raw := unmarshal(JsonSpan(TrimSpace(assessment)).value).value;
              r.value == ScoreResponse(Clamp(raw.score, 0, 200), ValidateBand(raw.band), FeedbackFrom(raw.feedback),
                                       raw.suggestions, ClampConfidence(raw.confidence))
  {
    match JsonSpan(TrimSpace(assessment))
    case None => Err("no valid JSON found in AI response")
    case Some(json) =>
      match unmarshal(json)
      case Err(e) => Err("failed to parse AI JSON response: " + e)
      case Ok(raw) =>
        var fb := FeedbackFrom(raw.feedback);
        Ok(ScoreResponse(Clamp(raw.score, 0, 200), ValidateBand(raw.band), fb,
                         raw.suggestions, ClampConfidence(raw.confidence)))
  }

  /** A decoded assessment whose numbers are in range passes through. */
  lemma ParseKeepsInRange(assessment: string, unmarshal: string -> Result<RawAssessment>)
    requires ParseAIAssessment(assessment, unmarshal).Ok?
    ensures var raw := unmarshal(JsonSpan(TrimSpace(assessment)).value).value;
      var resp := ParseAIAssessment(assessment, unmarshal).value;
      (0 <= raw.score <= 200 ==> resp.score == raw.score)
      && (0.0 <= raw.confidence <= 1.0 ==> resp.confidence == raw.confidence)
      && (raw.band in BandNames ==> BandName(resp.band) == raw.band)
  {
  }

  /** Number of sentence terminators, at least 1. */
  function SentenceCount(text: string): (n: nat)
    ensures n >= 1
    ensures CountChar(text, '.') + CountChar(text, '!') + CountChar(text, '?') > 0 ==>
      n == CountChar(text, '.') + CountChar(text, '!') + CountChar(text, '?')
  {
    var n := CountChar(text, '.') + CountChar(text, '!') + CountChar(text, '?');
    if n == 0 then 1 else n
  }

  /** The heuristic assessment: the basic score, its band, the suggestions
      for both, and a fixed confidence of 0.60. The textual feedback is not
      modelled. */
  method FallbackScoring(text: string) returns (resp: FallbackResponse)
    ensures resp.score == BasicScore(text, FieldCount(text), FieldCount(text) as real / SentenceCount(text) as real)
    ensures 40 <= resp.score <= 150
    ensures resp.band == ScoreToBand(resp.score)
    ensures resp.suggestions == SuggestionsFor(FieldCount(text), resp.score, resp.band)
    ensures resp.confidence == 0.60
    ensures |resp.suggestions| >= 1 && resp.suggestions[|resp.suggestions| - 1] == BandSuggestion(resp.band)
  {
    var wordCount := FieldCount(text);
    var sentenceCount := SentenceCount(text);
    var avg := (wordCount as real) / (sentenceCount as real);
    var score := CalculateBasicScore(text, wordCount, avg);
    var band := ScoreToBand(score);
    var suggestions := GenerateSuggestions(text, score, band);
    resp := FallbackResponse(score, band, suggestions, 0.60);
  }
}
