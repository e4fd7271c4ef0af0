/** The records the application stores and passes around: cards with their
    SM-2 data, decks with their saved learn and review state, deck settings,
    test questions and results, and the in-memory study and test session
    state. JavaScript objects become datatypes; `null`/`undefined` fields
    become `Option`s. */
module Records {
  import opened Common

  type CardId = int
  type DeckId = string

  /** Per-card SM-2 state. `dueDate` is a day number. */
  datatype Sm2Data = Sm2Data(interval: int, factor: real, repetition: int, dueDate: int)

  /** A flashcard as the deck editor builds it. A card whose archetype is
      "SEQUENCE" carries its ordered items in `items`; test mode reads the
      card's `question` and `answer` as its front and back. */
  datatype Card = Card(
    id: CardId,
    archetype: string,
    isNew: bool,
    question: string,
    answer: string,
    questionImage: string,
    answerImage: string,
    items: Option<seq<string>>,
    sm2: Option<Sm2Data>)

  /** The study modes; `state.currentMode` holds one of them or nothing. */
  datatype Mode = Learn | Review | Spaced | TestMode

  /** A deck's settings once the defaults are merged in. */
  datatype DeckSettings = DeckSettings(
    learnMode: string,
    reviewOrder: string,
    cardsPerRound: int,
    maxBuckets: int,
    caseSensitive: bool,
    punctuation: bool,
    retypeIncorrect: bool,
    feedbackStyle: string,
    forgivingAutomarking: bool)

  /** A deck's stored settings object, any of whose keys may be absent. */
  datatype SettingsPatch = SettingsPatch(
    learnMode: Option<string>,
    reviewOrder: Option<string>,
    cardsPerRound: Option<int>,
    maxBuckets: Option<int>,
    caseSensitive: Option<bool>,
    punctuation: Option<bool>,
    retypeIncorrect: Option<bool>,
    feedbackStyle: Option<string>,
    forgivingAutomarking: Option<bool>)

  const NoSettings := SettingsPatch(None, None, None, None, None, None, None, None, None)

  /** The saved learn-mode buckets; `buckets` may be missing from an old
      record. */
  datatype LearnState = LearnState(buckets: Option<seq<seq<Card>>>, currentRound: int, maxBuckets: Option<int>)

  datatype ReviewState = ReviewState(
    stillLearning: seq<Card>,
    correct: seq<Card>,
    currentRound: int,
    lastRoundIncorrect: seq<Card>)

  /** One entry of a deck's test history. */
  datatype TestRecord = TestRecord(timestamp: int, score: real, maxScore: int, percentage: Option<int>,
                                   timeSpent: real, settings: TestSettings)

  datatype Deck = Deck(
    id: DeckId,
    name: string,
    category: string,
    notes: string,
    cards: seq<Card>,
    settings: SettingsPatch,
    learnState: Option<LearnState>,
    reviewState: Option<ReviewState>,
    testSettings: Option<TestSettings>,
    testHistory: seq<TestRecord>)

  /** The settings a test session reads; `questionLimit` 0 means "no limit". */
  datatype QuestionType = Multiple | Written
  datatype TestSettings = TestSettings(
    excludeNew: bool,
    excludeLearned: bool,
    questionLimit: nat,
    questionType: QuestionType,
    similarityThreshold: real)

  /** A generated test question; a written question has no options. */
  datatype Question =
    | MultipleChoice(cardId: CardId, question: string, correctAnswer: string, options: seq<string>)
    | WrittenQuestion(cardId: CardId, question: string, correctAnswer: string)

  datatype AnswerRecord = AnswerRecord(questionIndex: int, cardId: CardId, userAnswer: string,
                                       correctAnswer: string, correct: bool, score: real)

  /** `state.testState` */
  datatype TestState = TestState(
    settings: TestSettings,
    startTime: int,
    questions: seq<Question>,
    currentQuestionIndex: int,
    answers: seq<AnswerRecord>,
    score: real,
    completed: bool,
    endTime: Option<int>)

  /** `state.studyState`: the working state of the current study session.
      `settings` is `None` for the empty settings object of a fresh state. */
  datatype StudyState = StudyState(
    buckets: seq<seq<Card>>,
    currentRound: int,
    currentCardIndex: int,
    roundCards: seq<Card>,
    settings: Option<DeckSettings>,
    lastRoundIncorrect: seq<Card>,
    isRetypingIncorrect: bool,
    startTime: Option<int>,
    activeLearningPool: seq<Card>,
    knowledgeStates: map<CardId, real>,
    masterSequence: seq<Card>,
    chunks: seq<seq<Card>>,
    currentChunkIndex: int,
    chunkStates: seq<Card>,
    isSequenceMode: bool,
    stillLearning: seq<Card>,
    correct: seq<Card>)

  /** A JSON value, for the free-form settings and analytics objects. */
  datatype Value = Null | Bool(b: bool) | Num(n: real) | Str(s: string) | Arr(elems: seq<Value>)
}
