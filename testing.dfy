/** Test mode: questions built from a deck's cards (filtered, shuffled and
    limited), multiple-choice options with distractors from other cards,
    answer submission with a running score, and the final result written
    into the deck's test history. A card's `question` and `answer` are the
    front and back a question is asked from. */
module Testing {
  import opened Common
  import opened Records
  import opened State
  import Text
  import Utils
  import Study

  // ---------------------------------------------------------------------
  // Choosing the cards

  /** The filter of `generateQuestions`: new cards go when `excludeNew` is
      set, cards with more than two successful SM-2 repetitions go when
      `excludeLearned` is set; cards with no SM-2 data are never learned. */
  predicate Keep(card: Card, settings: TestSettings)
    ensures !settings.excludeNew && !settings.excludeLearned ==> Keep(card, settings)
    ensures !card.isNew && card.sm2.None? ==> Keep(card, settings)
  {
    && !(settings.excludeNew && card.isNew)
    && !(settings.excludeLearned && card.sm2.Some? && card.sm2.value.repetition > 2)
  }

  function FilterCards(cards: seq<Card>, settings: TestSettings): (r: seq<Card>)
    ensures |r| <= |cards|
    ensures forall c :: c in r <==> c in cards && Keep(c, settings)
  {
    if |cards| == 0 then []
    else
      var init := cards[..|cards| - 1];
      var last := cards[|cards| - 1];
      assert cards == init + [last];
      FilterCards(init, settings) + (if Keep(last, settings) then [last] else [])
  }

  /** The kept cards are a sub-multiset of the deck: the filter never
      duplicates a card. */
  lemma {:induction false} FilterCardsSubMultiset(cards: seq<Card>, settings: TestSettings)
    ensures multiset(FilterCards(cards, settings)) <= multiset(cards)
  {
    if |cards| > 0 {
      var init := cards[..|cards| - 1];
      var last := cards[|cards| - 1];
      FilterCardsSubMultiset(init, settings);
      FilterCardsStep(cards, settings);
      assert cards == init + [last];
      SubMultisetAppend(FilterCards(init, settings), init, if Keep(last, settings) then [last] else [], [last]);
    }
  }

  lemma FilterCardsStep(cards: seq<Card>, settings: TestSettings)
    requires |cards| > 0
    ensures FilterCards(cards, settings)
      == FilterCards(cards[..|cards| - 1], settings) + (if Keep(cards[|cards| - 1], settings) then [cards[|cards| - 1]] else [])
  {
  }

  lemma SubMultisetAppend<T>(a: seq<T>, b: seq<T>, c: seq<T>, d: seq<T>)
    requires multiset(a) <= multiset(b) && multiset(c) <= multiset(d)
    ensures multiset(a + c) <= multiset(b + d)
  {
    assert multiset(a + c) == multiset(a) + multiset(c);
    assert multiset(b + d) == multiset(b) + multiset(d);
  }

  /** With neither exclusion set, every card is kept, in order. */
  lemma {:induction false} FilterKeepsAll(cards: seq<Card>, settings: TestSettings)
    requires !settings.excludeNew && !settings.excludeLearned
    ensures FilterCards(cards, settings) == cards
  {
    if |cards| > 0 {
      var init := cards[..|cards| - 1];
      var last := cards[|cards| - 1];
      FilterKeepsAll(init, settings);
      assert Keep(last, settings);
      assert FilterCards(cards, settings) == FilterCards(init, settings) + [last];
      assert init + [last] == cards;
    }
  }

  /** `questionLimit || cards.length`, then `slice(0, n)`: a limit of 0
      means every card; a larger limit than there are cards takes them all. */
  function QuestionCount(limit: nat, available: nat): (n: nat)
    ensures n <= available
    ensures limit == 0 || limit >= available <==> n == available
    ensures n <= limit || limit == 0
    ensures 0 < limit <= available ==> n == limit
  {
    var numQuestions := if limit == 0 then available else limit;
    MinInt(numQuestions, available)
  }

  // ---------------------------------------------------------------------
  // Questions

  /** `generateWrittenQuestion`: the card's id, front and back. */
  function GenerateWrittenQuestion(card: Card): (q: Question)
    ensures q.WrittenQuestion? && q.cardId == card.id
    ensures q.question == card.question && q.correctAnswer == card.answer
  {
    WrittenQuestion(card.id, card.question, card.answer)
  }

  predicate NoDuplicates(s: seq<string>)
  {
    forall i, j | 0 <= i < j < |s| :: s[i] != s[j]
  }

  /** `s` is the back of one of `cards`. */
  predicate IsBackIn(cards: seq<Card>, s: string)
  {
    exists c | c in cards :: c.answer == s
  }

  /** `s` is the back of some card other than `card`. */
  predicate IsOtherBack(allCards: seq<Card>, card: Card, s: string)
  {
    exists c | c in allCards :: c.id != card.id && c.answer == s
  }

  /** The other cards offer at least three distinct backs that differ from
      the correct answer. */
  predicate ManyOtherBacks(allCards: seq<Card>, card: Card)
  {
    exists i, j, k | 0 <= i < |allCards| && 0 <= j < |allCards| && 0 <= k < |allCards| ::
      && allCards[i].id != card.id && allCards[j].id != card.id && allCards[k].id != card.id
      && allCards[i].answer != allCards[j].answer && allCards[j].answer != allCards[k].answer
      && allCards[i].answer != allCards[k].answer
      && allCards[i].answer != card.answer && allCards[j].answer != card.answer
      && allCards[k].answer != card.answer
  }

  /** What `generateMultipleChoice` promises: the question is about `card`;
      its options contain the correct answer, number at most four and are
      pairwise distinct; every other option is the back of another card;
      and when the other cards offer three distinct wrong backs there are
      exactly four options. */
  predicate ValidMultipleChoice(q: Question, card: Card, allCards: seq<Card>)
  {
    && q.MultipleChoice?
    && q.cardId == card.id && q.question == card.question && q.correctAnswer == card.answer
    && card.answer in q.options
    && |q.options| <= 4
    && NoDuplicates(q.options)
    && (forall o | o in q.options && o != card.answer :: IsOtherBack(allCards, card, o))
    && (ManyOtherBacks(allCards, card) ==> |q.options| == 4)
  }

  /** `generateMultipleChoice`: shuffle the other cards, pop distractors off
      the end until there are four options or none are left (skipping a
      back already offered), then shuffle the options. */
  method GenerateMultipleChoice(card: Card, allCards: seq<Card>, distractorDraws: seq<real>,
                                optionDraws: seq<real>)
    returns (q: Question)
    requires Utils.ValidDraws(distractorDraws, |allCards|)
    requires Utils.ValidDraws(optionDraws, 4)
    ensures ValidMultipleChoice(q, card, allCards)
  {
    var otherCards := Study.RemoveId(allCards, card.id);
    var shuffledDistractors := Utils.ShuffleArray(otherCards, distractorDraws);
    var options := AddDistractors(card.answer, shuffledDistractors);
    forall o | o in options && o != card.answer
      ensures IsOtherBack(allCards, card, o)
    {
      OptionFromPool(shuffledDistractors, allCards, card, o);
    }
    if ManyOtherBacks(allCards, card) && |options| < 4 {
      ManyBacksFillOptions(shuffledDistractors, allCards, card, options);
    }
    var shuffledOptions := Utils.ShuffleArray(options, optionDraws);
    SameOptions(options, shuffledOptions, allCards, card);
    q := MultipleChoice(card.id, card.question, card.answer, shuffledOptions);
  }

  /** The distractor loop of `generateMultipleChoice`: starting from the
      correct answer, pop cards off the end of `pool` while there are fewer
      than four options, adding each back not yet offered. The options stay
      distinct, every added one is the back of a pooled card, and if the
      loop stops short of four every pooled back is offered. */
  method AddDistractors(answer: string, pool: seq<Card>) returns (options: seq<string>)
    ensures 1 <= |options| <= 4 && options[0] == answer
    ensures NoDuplicates(options)
    ensures forall k | 1 <= k < |options| :: IsBackIn(pool, options[k])
    ensures |options| < 4 ==> forall k | 0 <= k < |pool| :: pool[k].answer in options
  {
    var shuffledDistractors := pool;
    options := [answer];
    while |options| < 4 && |shuffledDistractors| > 0
      invariant shuffledDistractors == pool[..|shuffledDistractors|]
      invariant 1 <= |options| <= 4 && options[0] == answer
      invariant NoDuplicates(options)
      invariant forall k | 1 <= k < |options| :: IsBackIn(pool, options[k])
      invariant forall k | |shuffledDistractors| <= k < |pool| :: pool[k].answer in options
      decreases |shuffledDistractors|
    {
      var n := |shuffledDistractors|;
      var distractor := shuffledDistractors[n - 1].answer;
      assert pool[n - 1].answer == distractor;
      shuffledDistractors := shuffledDistractors[..n - 1];
      if distractor !in options {
        options := options + [distractor];
      }
    }
  }

  lemma OptionFromPool(pool: seq<Card>, allCards: seq<Card>, card: Card, o: string)
    requires multiset(pool) == multiset(Study.RemoveId(allCards, card.id))
    requires IsBackIn(pool, o)
    ensures IsOtherBack(allCards, card, o)
  {
    var c :| c in pool && c.answer == o;
    assert c in multiset(pool);
  }

  lemma ManyBacksFillOptions(pool: seq<Card>, allCards: seq<Card>, card: Card, options: seq<string>)
    requires multiset(pool) == multiset(Study.RemoveId(allCards, card.id))
    requires ManyOtherBacks(allCards, card)
    requires card.answer in options
    requires forall k | 0 <= k < |pool| :: pool[k].answer in options
    ensures |options| >= 4
  {
    var i, j, k := PickOtherBacks(allCards, card);
    var others := Study.RemoveId(allCards, card.id);
    BackOffered(pool, others, allCards[i], options);
    BackOffered(pool, others, allCards[j], options);
    BackOffered(pool, others, allCards[k], options);
    FourDistinctNeedFour(options, card.answer, allCards[i].answer, allCards[j].answer, allCards[k].answer);
  }

  lemma PickOtherBacks(allCards: seq<Card>, card: Card) returns (i: nat, j: nat, k: nat)
    requires ManyOtherBacks(allCards, card)
    ensures i < |allCards| && j < |allCards| && k < |allCards|
    ensures allCards[i].id != card.id && allCards[j].id != card.id && allCards[k].id != card.id
    ensures allCards[i].answer != allCards[j].answer && allCards[j].answer != allCards[k].answer
    ensures allCards[i].answer != allCards[k].answer
    ensures allCards[i].answer != card.answer && allCards[j].answer != card.answer
    ensures allCards[k].answer != card.answer
  {
    i, j, k :| 0 <= i < |allCards| && 0 <= j < |allCards| && 0 <= k < |allCards|
      && allCards[i].id != card.id && allCards[j].id != card.id && allCards[k].id != card.id
      && allCards[i].answer != allCards[j].answer && allCards[j].answer != allCards[k].answer
      && allCards[i].answer != allCards[k].answer
      && allCards[i].answer != card.answer && allCards[j].answer != card.answer
      && allCards[k].answer != card.answer;
  }

  lemma BackOffered(pool: seq<Card>, others: seq<Card>, c: Card, options: seq<string>)
    requires multiset(pool) == multiset(others) && c in others
    requires forall k | 0 <= k < |pool| :: pool[k].answer in options
    ensures c.answer in options
  {
    assert c in multiset(pool);
    var k :| 0 <= k < |pool| && pool[k] == c;
  }

  /** Shuffling the options keeps everything `ValidMultipleChoice` says
      about them. */
  lemma SameOptions(options: seq<string>, shuffled: seq<string>, allCards: seq<Card>, card: Card)
    requires multiset(options) == multiset(shuffled)
    requires NoDuplicates(options) && card.answer in options
    requires forall o | o in options && o != card.answer :: IsOtherBack(allCards, card, o)
    ensures |shuffled| == |options|
    ensures NoDuplicates(shuffled) && card.answer in shuffled
    ensures forall o | o in shuffled && o != card.answer :: IsOtherBack(allCards, card, o)
  {
    assert |multiset(options)| == |options| && |multiset(shuffled)| == |shuffled|;
    PermutationKeepsNoDuplicates(options, shuffled);
    assert card.answer in multiset(shuffled);
    forall o | o in shuffled ensures o in options {
      assert o in multiset(options);
    }
  }

  /** A sequence holding four pairwise distinct values is at least four
      long. */
  lemma FourDistinctNeedFour(s: seq<string>, a: string, b: string, c: string, d: string)
    requires a in s && b in s && c in s && d in s
    requires a != b && a != c && a != d && b != c && b != d && c != d
    ensures |s| >= 4
  {
    var m := multiset{a, b, c, d};
    assert m <= multiset(s) by {
      forall x ensures m[x] <= multiset(s)[x] {
        if x in m {
          assert x in multiset(s);
        }
      }
    }
    assert multiset(s) == m + (multiset(s) - m);
  }

  lemma {:induction false} NoDuplicatesCount(s: seq<string>, x: string)
    requires NoDuplicates(s)
    ensures multiset(s)[x] <= 1
  {
    if |s| > 0 {
      var init := s[..|s| - 1];
      assert s == init + [s[|s| - 1]];
      NoDuplicatesCount(init, x);
      if x == s[|s| - 1] {
        assert x !in init;
      }
    }
  }

  lemma CountNoDuplicates(s: seq<string>)
    requires forall x :: multiset(s)[x] <= 1
    ensures NoDuplicates(s)
  {
    forall i, j | 0 <= i < j < |s| ensures s[i] != s[j] {
      assert s == s[..j] + s[j..];
      assert s[i] in s[..j] && s[j] in s[j..];
      assert multiset(s)[s[j]] == multiset(s[..j])[s[j]] + multiset(s[j..])[s[j]];
    }
  }

  lemma PermutationKeepsNoDuplicates(a: seq<string>, b: seq<string>)
    requires NoDuplicates(a) && multiset(a) == multiset(b)
    ensures NoDuplicates(b)
  {
    forall x ensures multiset(b)[x] <= 1 {
      NoDuplicatesCount(a, x);
    }
    CountNoDuplicates(b);
  }

  /** The random draws one multiple-choice question consumes. */
  datatype ChoiceDraws = ChoiceDraws(distractors: seq<real>, options: seq<real>)

  /** The questions of a test are about `selected`, one question per card
      in that order and of the configured type, and `selected` is the first
      `QuestionCount` of some arrangement of the cards that pass the filter. */
  predicate AskedAbout(questions: seq<Question>, selected: seq<Card>, cards: seq<Card>, settings: TestSettings)
  {
    && |questions| == |selected|
    && |selected| == QuestionCount(settings.questionLimit, |FilterCards(cards, settings)|)
    && multiset(selected) <= multiset(FilterCards(cards, settings))
    && forall i | 0 <= i < |questions| ::
         if settings.questionType == Multiple then ValidMultipleChoice(questions[i], selected[i], cards)
         else questions[i] == GenerateWrittenQuestion(selected[i])
  }

  /** `generateQuestions`: filter, shuffle, take the first `QuestionCount`
      cards and build one question per card in that order. `selectedCards`
      are the cards asked about, question by question. */
  method GenerateQuestions(cards: seq<Card>, settings: TestSettings, cardDraws: seq<real>,
                           choiceDraws: seq<ChoiceDraws>)
    returns (questions: seq<Question>, selectedCards: seq<Card>)
    requires Utils.ValidDraws(cardDraws, |FilterCards(cards, settings)|)
    requires |choiceDraws| >= |cards|
    requires forall i | 0 <= i < |choiceDraws| ::
      Utils.ValidDraws(choiceDraws[i].distractors, |cards|) && Utils.ValidDraws(choiceDraws[i].options, 4)
    ensures |selectedCards| == QuestionCount(settings.questionLimit, |FilterCards(cards, settings)|)
    ensures multiset(selectedCards) <= multiset(FilterCards(cards, settings))
    ensures |questions| == |selectedCards|
    ensures forall i | 0 <= i < |questions| ::
      if settings.questionType == Multiple then ValidMultipleChoice(questions[i], selectedCards[i], cards)
      else questions[i] == GenerateWrittenQuestion(selectedCards[i])
    ensures AskedAbout(questions, selectedCards, cards, settings)
  {
    var filteredCards := FilterCards(cards, settings);
    var shuffledCards := Utils.ShuffleArray(filteredCards, cardDraws);
    var numQuestions := QuestionCount(settings.questionLimit, |shuffledCards|);
    selectedCards := shuffledCards[..numQuestions];
    assert shuffledCards == selectedCards + shuffledCards[numQuestions..];
    questions := [];
    for i := 0 to |selectedCards|
      invariant |questions| == i
      invariant forall k | 0 <= k < i ::
        if settings.questionType == Multiple then ValidMultipleChoice(questions[k], selectedCards[k], cards)
        else questions[k] == GenerateWrittenQuestion(selectedCards[k])
    {
      var question;
      if settings.questionType == Multiple {
        question := GenerateMultipleChoice(selectedCards[i], cards, choiceDraws[i].distractors,
                                           choiceDraws[i].options);
      } else {
        question := GenerateWrittenQuestion(selectedCards[i]);
      }
      questions := questions + [question];
    }
  }

  /** Every card asked about passes the filter. */
  lemma SelectedCardsKept(cards: seq<Card>, settings: TestSettings, selectedCards: seq<Card>, c: Card)
    requires multiset(selectedCards) <= multiset(FilterCards(cards, settings))
    requires c in selectedCards
    ensures c in cards && Keep(c, settings)
  {
    assert c in multiset(selectedCards);
    assert c in multiset(FilterCards(cards, settings));
  }

  // ---------------------------------------------------------------------
  // Answering

  /** `evaluateAnswer`: exact equality when the test asks multiple-choice
      questions; otherwise the answer's similarity must reach the threshold.
      The similarity score is passed in. */
  function Evaluate(settings: TestSettings, userAnswer: string, correctAnswer: string, similarity: real): (ok: bool)
    ensures settings.questionType == Multiple ==> (ok <==> userAnswer == correctAnswer)
    ensures settings.questionType == Written ==> (ok <==> similarity >= settings.similarityThreshold)
  {
    if settings.questionType == Multiple then userAnswer == correctAnswer
    else similarity >= settings.similarityThreshold
  }

  /** `calculateScore`: 1 or 0 for a multiple-choice question; the
      similarity rounded to two decimals for a written one, which lies in
      [0, 1] when the similarity does. */
  function Score(correct: bool, q: Question, similarity: real): (s: real)
    ensures q.MultipleChoice? ==> (s == 1.0 <==> correct) && (s == 0.0 <==> !correct)
    ensures q.WrittenQuestion? && 0.0 <= similarity <= 1.0 ==> 0.0 <= s <= 1.0
    ensures q.WrittenQuestion? && similarity == 1.0 ==> s == 1.0
  {
    if q.MultipleChoice? then (if correct then 1.0 else 0.0)
    else Round(similarity * 100.0) as real / 100.0
  }

  /** The answer a submission takes: the checked option of a
      multiple-choice question, the trimmed text of a written one; nothing
      when no option is checked or the text is blank. */
  function UserAnswer(q: Question, input: Option<string>): (r: Option<string>)
    ensures input.None? ==> r.None?
    ensures q.MultipleChoice? ==> r == input
    ensures q.WrittenQuestion? && r.Some? ==> input.Some? && r.value == Text.Trim(input.value) && r.value != []
    ensures q.WrittenQuestion? && input.Some? && Text.Trim(input.value) != [] ==> r.Some?
  {
    if input.None? then None
    else if q.MultipleChoice? then input
    else if Text.Trim(input.value) == [] then None
    else Some(Text.Trim(input.value))
  }

  /** The sum of the answers' scores. */
  function SumScores(answers: seq<AnswerRecord>): real
  {
    if |answers| == 0 then 0.0 else SumScores(answers[..|answers| - 1]) + answers[|answers| - 1].score
  }

  /** The test state's bookkeeping: one answer per question so far, and a
      score that is the sum of the answers' scores. */
  predicate Tallied(ts: TestState)
  {
    |ts.answers| == ts.currentQuestionIndex && ts.score == SumScores(ts.answers)
  }

  /** The state after one answer: the record appended, its score added, the
      index advanced by one. */
  function Recorded(ts: TestState, record: AnswerRecord): (r: TestState)
    ensures Tallied(ts) ==> Tallied(r)
    ensures r.answers == ts.answers + [record] && r.score == ts.score + record.score
    ensures r.currentQuestionIndex == ts.currentQuestionIndex + 1
    ensures r == ts.(answers := r.answers, score := r.score, currentQuestionIndex := r.currentQuestionIndex)
  {
    var r := ts.(answers := ts.answers + [record], score := ts.score + record.score,
                 currentQuestionIndex := ts.currentQuestionIndex + 1);
    assert r.answers[..|r.answers| - 1] == ts.answers;
    r
  }

  /** The answer record a submission appends. */
  function AnswerFor(ts: TestState, userAnswer: string, similarity: real): (a: AnswerRecord)
    requires 0 <= ts.currentQuestionIndex < |ts.questions|
    ensures var q := ts.questions[ts.currentQuestionIndex];
      && a.questionIndex == ts.currentQuestionIndex && a.cardId == q.cardId
      && a.userAnswer == userAnswer && a.correctAnswer == q.correctAnswer
    ensures var q := ts.questions[ts.currentQuestionIndex];
      ts.settings.questionType == Multiple && q.MultipleChoice? ==>
        (a.correct <==> userAnswer == q.correctAnswer) && (a.score == 1.0 <==> a.correct)
    ensures ts.settings.questionType == Written ==> (a.correct <==> similarity >= ts.settings.similarityThreshold)
  {
    var q := ts.questions[ts.currentQuestionIndex];
    var correct := Evaluate(ts.settings, userAnswer, q.correctAnswer, similarity);
    AnswerRecord(ts.currentQuestionIndex, q.cardId, userAnswer, q.correctAnswer, correct,
                 Score(correct, q, similarity))
  }

  /** In a multiple-choice test every answer scores 0 or 1, so the total
      lies between 0 and the number of answers. */
  lemma {:induction false} MultipleChoiceTotal(answers: seq<AnswerRecord>)
    requires forall k | 0 <= k < |answers| :: answers[k].score == 0.0 || answers[k].score == 1.0
    ensures 0.0 <= SumScores(answers) <= |answers| as real
  {
    if |answers| > 0 {
      MultipleChoiceTotal(answers[..|answers| - 1]);
    }
  }

  /** `startTestSession` for a known deck: the deck's test settings are
      merged over the defaults and stored back on the deck, the questions
      are generated from them, the test starts at the first one with
      nothing answered, and `showNextQuestion` runs, which finishes a test
      without questions at once. The default test settings are passed in. */
  method StartTestSession(app: AppState, deckId: DeckId, defaults: TestSettings, now: int,
                          cardDraws: seq<real>, choiceDraws: seq<ChoiceDraws>)
    requires deckId in app.decks ==>
      var cards := app.decks[deckId].cards;
      var settings := OrElse(app.decks[deckId].testSettings, defaults);
      && Utils.ValidDraws(cardDraws, |FilterCards(cards, settings)|)
      && |choiceDraws| >= |cards|
      && forall i | 0 <= i < |choiceDraws| ::
           Utils.ValidDraws(choiceDraws[i].distractors, |cards|) && Utils.ValidDraws(choiceDraws[i].options, 4)
    modifies app`currentDeckId, app`currentMode, app`testState, app`decks
    ensures app.currentDeckId == Some(deckId) && app.currentMode == Some(TestMode)
    ensures deckId !in old(app.decks) ==> app.testState == old(app.testState) && app.decks == old(app.decks)
    ensures deckId in old(app.decks) ==>
      && app.testState.Some?
      && var settings := OrElse(old(app.decks)[deckId].testSettings, defaults);
      && var deck := old(app.decks)[deckId].(testSettings := Some(settings));
      && var ts := app.testState.value;
      && ts.settings == settings && ts.startTime == now
      && ts.currentQuestionIndex == 0 && ts.answers == [] && ts.score == 0.0
      && (exists selected :: AskedAbout(ts.questions, selected, deck.cards, settings))
      && Tallied(ts)
      && (|ts.questions| > 0 ==> !ts.completed && ts.endTime.None? && app.decks == old(app.decks)[deckId := deck])
      && (|ts.questions| == 0 ==>
            && ts.completed && ts.endTime == Some(now)
            && app.decks == old(app.decks)[deckId := WithResult(deck, CalculateFinalScore(ts, now), now, settings)])
  {
    app.currentDeckId := Some(deckId);
    app.currentMode := Some(TestMode);
    if deckId !in app.decks {
      return;
    }
    var deck := app.decks[deckId];
    var settings := OrElse(deck.testSettings, defaults);
    deck := deck.(testSettings := Some(settings));
    app.decks := app.decks[deckId := deck];
    var questions, selected := GenerateQuestions(deck.cards, settings, cardDraws, choiceDraws);
    app.testState := Some(TestState(settings, now, questions, 0, [], 0.0, false, None));
    var _ := ShowNextQuestion(app, now);
  }

  /** `submitAnswer`: with no answer given nothing changes; otherwise the
      answer is evaluated and scored, recorded, added to the score, and the
      test moves to the next question. The similarity of a written answer
      is passed in. */
  method SubmitAnswer(app: AppState, input: Option<string>, similarity: real)
    requires app.testState.Some?
    requires 0 <= app.testState.value.currentQuestionIndex < |app.testState.value.questions|
    modifies app`testState
    ensures var ts := old(app.testState.value);
      var answer := UserAnswer(ts.questions[ts.currentQuestionIndex], input);
      app.testState == if answer.None? then old(app.testState)
                       else Some(Recorded(ts, AnswerFor(ts, answer.value, similarity)))
  {
    var ts := app.testState.value;
    var question := ts.questions[ts.currentQuestionIndex];
    var answer := ReadAnswer(question, input);
    if answer.None? {
      return;
    }
    var userAnswer := answer.value;
    var correct := Evaluate(ts.settings, userAnswer, question.correctAnswer, similarity);
    var score := Score(correct, question, similarity);
    ts := ts.(answers := ts.answers + [AnswerRecord(ts.currentQuestionIndex, question.cardId, userAnswer,
                                                    question.correctAnswer, correct, score)]);
    ts := ts.(score := ts.score + score);
    ts := ts.(currentQuestionIndex := ts.currentQuestionIndex + 1);
    app.testState := Some(ts);
  }

  /** The first half of `submitAnswer`: the checked option, or the trimmed
      written text; nothing (a warning in the source) when there is none. */
  method ReadAnswer(question: Question, input: Option<string>) returns (answer: Option<string>)
    ensures answer == UserAnswer(question, input)
  {
    if question.MultipleChoice? {
      if input.None? {
        return None;
      }
      return Some(input.value);
    } else {
      if input.None? || Text.Trim(input.value) == [] {
        return None;
      }
      return Some(Text.Trim(input.value));
    }
  }

  // ---------------------------------------------------------------------
  // Finishing

  datatype FinalScore = FinalScore(score: real, maxScore: int, percentage: Option<int>, timeSpent: real)

  /** `calculateFinalScore`: the percentage `round(score / questions * 100)`,
      which is not a number (`None`) for a test without questions. Times are
      in milliseconds; the time spent is in seconds. */
  function CalculateFinalScore(ts: TestState, endTime: int): (f: FinalScore)
    ensures f.score == ts.score && f.maxScore == |ts.questions|
    ensures f.percentage.Some? <==> |ts.questions| > 0
    ensures f.percentage.Some? && 0.0 <= ts.score <= |ts.questions| as real ==> 0 <= f.percentage.value <= 100
    ensures f.percentage.Some? && ts.score == |ts.questions| as real ==> f.percentage == Some(100)
    ensures f.percentage.Some? && ts.score == 0.0 ==> f.percentage == Some(0)
  {
    var maxScore := |ts.questions|;
    var percentage :=
      if maxScore > 0 then
        assert 0.0 <= ts.score <= maxScore as real ==> ts.score / maxScore as real <= 1.0;
        assert ts.score == maxScore as real ==> ts.score / maxScore as real == 1.0;
        Some(Round(ts.score / maxScore as real * 100.0))
      else None;
    FinalScore(ts.score, maxScore, percentage, (endTime - ts.startTime) as real / 1000.0)
  }

  /** A finished multiple-choice test scores between 0% and 100%. */
  lemma MultipleChoicePercentage(ts: TestState, endTime: int)
    requires Tallied(ts) && |ts.questions| > 0 && ts.currentQuestionIndex <= |ts.questions|
    requires forall k | 0 <= k < |ts.answers| :: ts.answers[k].score == 0.0 || ts.answers[k].score == 1.0
    ensures CalculateFinalScore(ts, endTime).percentage.Some?
    ensures 0 <= CalculateFinalScore(ts, endTime).percentage.value <= 100
  {
    MultipleChoiceTotal(ts.answers);
  }

  /** `saveTestResults`: the deck's history gains one entry at its end,
      carrying the final score and the test's settings; nothing else in the
      deck changes. */
  function WithResult(deck: Deck, f: FinalScore, now: int, settings: TestSettings): (d: Deck)
    ensures |d.testHistory| == |deck.testHistory| + 1
    ensures d.testHistory[..|deck.testHistory|] == deck.testHistory
    ensures var e := d.testHistory[|deck.testHistory|];
      e.score == f.score && e.maxScore == f.maxScore && e.percentage == f.percentage && e.settings == settings
    ensures d == deck.(testHistory := d.testHistory)
  {
    deck.(testHistory := deck.testHistory + [TestRecord(now, f.score, f.maxScore, f.percentage, f.timeSpent, settings)])
  }

  /** `showNextQuestion`: once every question is answered the test is
      finished, stamped and its result saved into the current deck;
      otherwise the next question is shown and nothing changes. */
  method ShowNextQuestion(app: AppState, now: int) returns (finished: bool)
    requires app.testState.Some?
    requires app.testState.value.currentQuestionIndex >= |app.testState.value.questions| ==>
      app.currentDeckId.Some? && app.currentDeckId.value in app.decks
    modifies app`testState, app`decks
    ensures finished <==> old(app.testState.value.currentQuestionIndex) >= |old(app.testState.value.questions)|
    ensures !finished ==> app.testState == old(app.testState) && app.decks == old(app.decks)
    ensures finished ==>
      var ts := old(app.testState.value).(completed := true, endTime := Some(now));
      && app.testState == Some(ts)
      && app.decks == old(app.decks)[app.currentDeckId.value :=
           WithResult(old(app.decks)[app.currentDeckId.value], CalculateFinalScore(ts, now), now, ts.settings)]
  {
    var ts := app.testState.value;
    if ts.currentQuestionIndex < |ts.questions| {
      return false;
    }
    ts := ts.(completed := true, endTime := Some(now));
    app.testState := Some(ts);
    var finalScore := CalculateFinalScore(ts, now);
    var deckId := app.currentDeckId.value;
    var deck := app.decks[deckId];
    deck := deck.(testHistory := deck.testHistory + [TestRecord(now, finalScore.score, finalScore.maxScore,
                                                                finalScore.percentage, finalScore.timeSpent,
                                                                ts.settings)]);
    app.decks := app.decks[deckId := deck];
    return true;
  }
}
