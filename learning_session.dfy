/** The question generators of a learning session and the check of a typed
    answer. The random number generator is outside the model: each call of
    rand.Intn(n) is read from a sequence of draws given as a parameter,
    each draw lying in [0, n) as that function promises. */
module LearningSession {
  import opened Common

  datatype Word = Word(id: int, word: string, shortMean: string, pronounce: string, level: int)

  datatype FlashcardQuestion = FlashcardQuestion(wordId: int, word: string, meaning: string, pronunciation: string, level: int)

  datatype MultipleChoiceQuestion = MultipleChoiceQuestion(wordId: int, word: string, pronunciation: string,
                                                           options: seq<string>, correctAnswer: string)

  datatype MatchPair = MatchPair(wordId: int, word: string, meaning: string, position: int)

  // -------------------------------------------------------------------
  // Flashcards and typed questions
  // -------------------------------------------------------------------

  /** The flashcard of a word: its id, text, short meaning, pronunciation
      and level. */
  function Flashcard(w: Word): (q: FlashcardQuestion)
    ensures q.wordId == w.id && q.word == w.word && q.meaning == w.shortMean
    ensures q.pronunciation == w.pronounce && q.level == w.level
  {
    FlashcardQuestion(w.id, w.word, w.shortMean, w.pronounce, w.level)
  }

  /** generateFlashcardQuestions, which generateTypeQuestions reuses: one
      question per word, in the order of the words. */
  method GenerateFlashcardQuestions(words: seq<Word>) returns (questions: seq<FlashcardQuestion>)
    ensures |questions| == |words|
    ensures forall i :: 0 <= i < |words| ==> questions[i] == Flashcard(words[i])
  {
    questions := [];
    var i := 0;
    while i < |words|
      invariant 0 <= i <= |words|
      invariant |questions| == i
      invariant forall j :: 0 <= j < i ==> questions[j] == Flashcard(words[j])
    {
      questions := questions + [Flashcard(words[i])];
      i := i + 1;
    }
  }

  // -------------------------------------------------------------------
  // Shuffling
  // -------------------------------------------------------------------

  /** The draws of the shuffle loop: the i-th is rand.Intn(i + 1). */
  predicate ShuffleDraws(draws: seq<int>, n: int)
  {
    |draws| == n && forall i :: 0 <= i < |draws| ==> 0 <= draws[i] <= i
  }

  /** The shuffle loop: position i is swapped with a drawn position j <= i.
      The result is a permutation of the input. */
  method Shuffle<T>(s: seq<T>, draws: seq<int>) returns (r: seq<T>)
    requires ShuffleDraws(draws, |s|)
    ensures |r| == |s|
    ensures multiset(r) == multiset(s)
  {
    r := s;
    var i := 0;
    while i < |r|
      invariant 0 <= i <= |r| && |r| == |s|
      invariant multiset(r) == multiset(s)
    {
      var j := draws[i];
      r := r[i := r[j]][j := r[i]];
      i := i + 1;
    }
  }

  // -------------------------------------------------------------------
  // Match pairs
  // -------------------------------------------------------------------

  /** The pair of the word at position i. */
  function PairAt(words: seq<Word>, i: int): (p: MatchPair)
    requires 0 <= i < |words|
    ensures p.position == i && p.wordId == words[i].id && p.word == words[i].word && p.meaning == words[i].shortMean
  {
    MatchPair(words[i].id, words[i].word, words[i].shortMean, i)
  }

  /** The pairs in word order, before shuffling. */
  function PairsInOrder(words: seq<Word>): (ps: seq<MatchPair>)
    ensures |ps| == |words|
    ensures forall i :: 0 <= i < |words| ==> ps[i] == PairAt(words, i)
  {
    seq(|words|, i requires 0 <= i < |words| => PairAt(words, i))
  }

  /** generateMatchPairs: a pair per word recording the word's position,
      then shuffled. */
  method GenerateMatchPairs(words: seq<Word>, draws: seq<int>) returns (pairs: seq<MatchPair>)
    requires ShuffleDraws(draws, |words|)
    ensures multiset(pairs) == multiset(PairsInOrder(words))
    ensures forall k :: 0 <= k < |pairs| ==>
      0 <= pairs[k].position < |words| && pairs[k] == PairAt(words, pairs[k].position)
  {
    var inOrder := [];
    var i := 0;
    while i < |words|
      invariant 0 <= i <= |words|
      invariant inOrder == PairsInOrder(words)[..i]
    {
      inOrder := inOrder + [PairAt(words, i)];
      i := i + 1;
    }
    assert inOrder == PairsInOrder(words);
    pairs := Shuffle(inOrder, draws);
    forall k | 0 <= k < |pairs|
      ensures 0 <= pairs[k].position < |words| && pairs[k] == PairAt(words, pairs[k].position)
    {
      assert pairs[k] in multiset(inOrder);
    }
  }

  // -------------------------------------------------------------------
  // Multiple choice
  // -------------------------------------------------------------------

  /** No value occurs twice. */
  ghost predicate Distinct(s: seq<string>)
  {
    forall x :: multiset(s)[x] <= 1
  }

  /** The distinct short meanings of the words. */
  function Meanings(words: seq<Word>): (m: set<string>)
    ensures forall i :: 0 <= i < |words| ==> words[i].shortMean in m
  {
    set w | w in words :: w.shortMean
  }

  /** A sequence without repetitions drawn from a set is no longer than the
      set. */
  lemma {:induction false} DistinctWithin(s: seq<string>, m: set<string>)
    requires Distinct(s) && forall x :: x in s ==> x in m
    ensures |s| <= |m|
    decreases |s|
  {
    if s != [] {
      var last := s[|s| - 1];
      var front := s[..|s| - 1];
      assert s == front + [last];
      assert multiset(s) == multiset(front) + multiset{last};
      assert Distinct(front) by {
        forall x
          ensures multiset(front)[x] <= 1
        {
          assert multiset(s)[x] <= 1;
        }
      }
      assert last !in front by {
        assert multiset(s)[last] <= 1;
      }
      DistinctWithin(front, m - {last});
    }
  }

  /** A drawn word offers its meaning when it is another word with a
      different meaning that is not yet among the options. */
  predicate Offers(words: seq<Word>, i: int, r: int, options: seq<string>)
    requires 0 <= i < |words| && 0 <= r < |words|
  {
    r != i && words[r].shortMean != words[i].shortMean && words[r].shortMean !in options
  }

  /** The options once the draws are used up or there are four. */
  function PickFrom(words: seq<Word>, i: int, options: seq<string>, draws: seq<int>): (r: seq<string>)
    requires 0 <= i < |words|
    requires forall k :: 0 <= k < |draws| ==> 0 <= draws[k] < |words|
    ensures options <= r
    decreases |draws|
  {
    if |options| >= 4 || draws == [] then options
    else
      var next := if Offers(words, i, draws[0], options) then options + [words[draws[0]].shortMean] else options;
      PickFrom(words, i, next, draws[1..])
  }

  /** When fewer than four options come out, every draw of another word
      with a different meaning had its meaning taken already. */
  lemma {:induction false} PickFromExhausts(words: seq<Word>, i: int, options: seq<string>, draws: seq<int>)
    requires 0 <= i < |words|
    requires forall k :: 0 <= k < |draws| ==> 0 <= draws[k] < |words|
    requires |PickFrom(words, i, options, draws)| < 4
    ensures forall k :: 0 <= k < |draws| && draws[k] != i && words[draws[k]].shortMean != words[i].shortMean ==>
              words[draws[k]].shortMean in PickFrom(words, i, options, draws)
    decreases |draws|
  {
    if draws != [] && |options| < 4 {
      var next := if Offers(words, i, draws[0], options) then options + [words[draws[0]].shortMean] else options;
      var rest := PickFrom(words, i, next, draws[1..]);
      PickFromExhausts(words, i, next, draws[1..]);
      assert words[draws[0]].shortMean in next || !(draws[0] != i && words[draws[0]].shortMean != words[i].shortMean);
      forall k | 0 <= k < |draws| && draws[k] != i && words[draws[k]].shortMean != words[i].shortMean
        ensures words[draws[k]].shortMean in rest
      {
        if k == 0 {
          assert next <= rest;
        } else {
          assert draws[k] == draws[1..][k - 1];
        }
      }
    }
  }

  /** The options of the i-th word: its own meaning first, then other
      words' meanings, drawn at random, until there are four. `draws` are
      the successive rand.Intn(len(words)) results; `done` is false when
      they ran out first (the source keeps drawing for ever in that case). */
  method PickOptions(words: seq<Word>, i: int, draws: seq<int>) returns (options: seq<string>, done: bool)
    requires 0 <= i < |words|
    requires forall k :: 0 <= k < |draws| ==> 0 <= draws[k] < |words|
    ensures options == PickFrom(words, i, [words[i].shortMean], draws)
    ensures |options| >= 1 && options[0] == words[i].shortMean
    ensures Distinct(options) && forall x :: x in options ==> x in Meanings(words)
    ensures done <==> |options| == 4
    ensures !done ==> forall k :: 0 <= k < |draws| && draws[k] != i && words[draws[k]].shortMean != words[i].shortMean ==>
                        words[draws[k]].shortMean in options
  {
    options := [words[i].shortMean];
    var used := 0;
    while |options| < 4 && used < |draws|
      invariant 0 <= used <= |draws|
      invariant 1 <= |options| <= 4 && options[0] == words[i].shortMean
      invariant Distinct(options) && forall x :: x in options ==> x in Meanings(words)
      invariant PickFrom(words, i, options, draws[used..]) == PickFrom(words, i, [words[i].shortMean], draws)
      decreases |draws| - used
    {
      var r := draws[used];
      assert draws[used..][1..] == draws[used + 1..];
      used := used + 1;
      if r != i && words[r].shortMean != words[i].shortMean {
        var candidate := words[r].shortMean;
        var found := false;
        var k := 0;
        while k < |options|
          invariant 0 <= k <= |options|
          invariant found <==> candidate in options[..k]
        {
          assert options[..k + 1] == options[..k] + [options[k]];
          if options[k] == candidate {
            found := true;
            break;
          }
          k := k + 1;
        }
        assert found <==> candidate in options by {
          if !found {
            assert options[..k] == options;
          }
        }
        if !found {
          assert multiset(options + [candidate]) == multiset(options) + multiset{candidate};
          options := options + [candidate];
        }
      }
    }
    done := |options| == 4;
    if !done {
      PickFromExhausts(words, i, [words[i].shortMean], draws);
    }
  }

  /** Four options can only be found among at least four distinct
      meanings: with fewer, the option loop never ends. */
  lemma OptionsNeedFourMeanings(words: seq<Word>, options: seq<string>)
    requires Distinct(options) && forall x :: x in options ==> x in Meanings(words)
    requires |options| == 4
    ensures |Meanings(words)| >= 4
  {
    DistinctWithin(options, Meanings(words));
  }

  /** The question of one word, options shuffled. */
  ghost predicate WellFormedQuestion(q: MultipleChoiceQuestion, w: Word, words: seq<Word>)
  {
    q.wordId == w.id && q.word == w.word && q.pronunciation == w.pronounce
    && q.correctAnswer == w.shortMean
    && |q.options| == 4 && Distinct(q.options) && w.shortMean in q.options
    && forall x :: x in q.options ==> x in Meanings(words)
  }

  /** generateMultipleChoiceQuestions. For word i, `optionDraws[i]` feeds its
      option loop and `shuffleDraws[i]` its shuffle. The result is None when
      some option loop ran out of draws, where the source would still be
      drawing. */
  method GenerateMultipleChoiceQuestions(words: seq<Word>, optionDraws: seq<seq<int>>, shuffleDraws: seq<seq<int>>)
    returns (questions: Option<seq<MultipleChoiceQuestion>>)
    requires |optionDraws| == |words| && |shuffleDraws| == |words|
    requires forall i, k :: 0 <= i < |words| && 0 <= k < |optionDraws[i]| ==> 0 <= optionDraws[i][k] < |words|
    requires forall i :: 0 <= i < |words| ==> ShuffleDraws(shuffleDraws[i], 4)
    ensures questions.Some? ==> |questions.value| == |words|
    ensures questions.Some? ==> forall i :: 0 <= i < |words| ==> WellFormedQuestion(questions.value[i], words[i], words)
    ensures questions.Some? && words != [] ==> |Meanings(words)| >= 4
  {
    var qs: seq<MultipleChoiceQuestion> := [];
    var i := 0;
    while i < |words|
      invariant 0 <= i <= |words| && |qs| == i
      invariant forall j :: 0 <= j < i ==> WellFormedQuestion(qs[j], words[j], words)
      invariant i > 0 ==> |Meanings(words)| >= 4
    {
      var options, done := PickOptions(words, i, optionDraws[i]);
      if !done {
        return None;
      }
      OptionsNeedFourMeanings(words, options);
      var shuffled := Shuffle(options, shuffleDraws[i]);
      assert words[i].shortMean in multiset(shuffled) by {
        assert options[0] in multiset(options);
      }
      assert forall x :: x in shuffled ==> x in multiset(options);
      qs := qs + [MultipleChoiceQuestion(words[i].id, words[i].word, words[i].pronounce, shuffled, words[i].shortMean)];
      i := i + 1;
    }
    return Some(qs);
  }

  // -------------------------------------------------------------------
  // Typed answers
  // -------------------------------------------------------------------

  /** Lower-cased after trimming surrounding white space. */
  function Normalise(s: string): string
  {
    Lower(TrimSpace(s))
  }

  /** compareTypedAnswer: the answer matches the meaning or the word, up to
      case and surrounding white space. */
  predicate CompareTypedAnswer(userAnswer: string, correctAnswer: string, word: string)
    ensures userAnswer == correctAnswer || userAnswer == word ==> CompareTypedAnswer(userAnswer, correctAnswer, word)
    ensures Lower(userAnswer) == Lower(correctAnswer) ==> CompareTypedAnswer(userAnswer, correctAnswer, word)
  {
    TrimLowerCommute(userAnswer);
    TrimLowerCommute(correctAnswer);
    Normalise(userAnswer) == Normalise(correctAnswer) || Normalise(userAnswer) == Normalise(word)
  }

  /** Lower-casing does not change which characters are white space, so it
      commutes with trimming. */
  lemma {:induction false} TrimLowerCommute(s: string)
    ensures TrimSpace(Lower(s)) == Lower(TrimSpace(s))
    decreases |s|
  {
    if s != [] {
      var l := Lower(s);
      LowerKeepsSpace(s[0]);
      LowerKeepsSpace(s[|s| - 1]);
      if IsGoSpace(s[0]) {
        assert l[1..] == Lower(s[1..]);
        TrimLowerCommute(s[1..]);
      } else if IsGoSpace(s[|s| - 1]) {
        assert l[..|s| - 1] == Lower(s[..|s| - 1]);
        TrimLowerCommute(s[..|s| - 1]);
      }
    }
  }

  lemma TrimIdempotent(s: string)
    ensures TrimSpace(TrimSpace(s)) == TrimSpace(s)
  {
  }

  /** Normalising is idempotent. */
  lemma NormaliseIdempotent(s: string)
    ensures Normalise(Normalise(s)) == Normalise(s)
  {
    TrimLowerCommute(TrimSpace(s));
    TrimIdempotent(s);
    LowerIdempotent(TrimSpace(s));
  }

  /** Case is ignored beyond ASCII: a capital with a breve matches its
      small letter. */
  lemma CompareVietnameseCapital()
    ensures CompareTypedAnswer(" \U{102}n", "\U{103}n", "eat")
  {
    assert TrimSpace(" \U{102}n") == "\U{102}n";
    assert TrimSpace("\U{103}n") == "\U{103}n";
  }

  /** The check ignores case and surrounding white space of the answer:
      an answer and its normal form are judged alike, and the meaning and
      the word themselves are always accepted. */
  lemma CompareIgnoresCaseAndSpace(userAnswer: string, correctAnswer: string, word: string)
    ensures CompareTypedAnswer(Normalise(userAnswer), correctAnswer, word) == CompareTypedAnswer(userAnswer, correctAnswer, word)
    ensures CompareTypedAnswer(correctAnswer, correctAnswer, word) && CompareTypedAnswer(word, correctAnswer, word)
  {
    NormaliseIdempotent(userAnswer);
  }
}
