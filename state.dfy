/** The application's single shared state object and the functions that
    update it: the deck table, the free-form global settings and analytics
    objects, the current deck and mode, and the study session state with its
    reset. */
module State {
  import opened Common
  import opened Records

  /** The default deck settings. */
  const DefaultDeckSettings := DeckSettings(
    learnMode := "flashcard",
    reviewOrder := "random",
    cardsPerRound := 10,
    maxBuckets := 4,
    caseSensitive := false,
    punctuation := false,
    retypeIncorrect := true,
    feedbackStyle := "simple",
    forgivingAutomarking := false)

  /** The study state the application starts with, and the one a reset
      restores: no buckets, round 1, index 0, empty settings. */
  const InitialStudyState := StudyState(
    buckets := [],
    currentRound := 1,
    currentCardIndex := 0,
    roundCards := [],
    settings := None,
    lastRoundIncorrect := [],
    isRetypingIncorrect := false,
    startTime := None,
    activeLearningPool := [],
    knowledgeStates := map[],
    masterSequence := [],
    chunks := [[]],
    currentChunkIndex := 0,
    chunkStates := [],
    isSequenceMode := false,
    stillLearning := [],
    correct := [])

  const InitialAnalytics: map<string, Value> :=
    map["lastUsed" := Null, "streak" := Num(0.0), "totalStudyTime" := Num(0.0), "sessions" := Arr([])]

  /** `{ ...base, ...patch }`: every key of `patch` takes its new value,
      every other key of `base` keeps its old one. */
  function Merge<K, V>(base: map<K, V>, patch: map<K, V>): (r: map<K, V>)
    ensures r.Keys == base.Keys + patch.Keys
    ensures forall k | k in patch :: r[k] == patch[k]
    ensures forall k | k in base && k !in patch :: r[k] == base[k]
  {
    base + patch
  }

  /** Merging is idempotent: applying the same patch again changes nothing. */
  lemma MergeIdempotent<K, V>(base: map<K, V>, patch: map<K, V>)
    ensures Merge(Merge(base, patch), patch) == Merge(base, patch)
  {
  }

  class AppState {
    var decks: map<DeckId, Deck>
    var categories: seq<string>
    var globalSettings: map<string, Value>
    var analyticsData: map<string, Value>
    var currentDeckId: Option<DeckId>
    var currentMode: Option<Mode>
    var studyState: StudyState
    var testState: Option<TestState>

    constructor ()
      ensures decks == map[] && globalSettings == map[] && analyticsData == InitialAnalytics
      ensures categories == ["Science", "Maths", "Language"]
      ensures currentDeckId == None && currentMode == None
      ensures studyState == InitialStudyState && testState == None
    {
      decks := map[];
      categories := ["Science", "Maths", "Language"];
      globalSettings := map[];
      analyticsData := InitialAnalytics;
      currentDeckId := None;
      currentMode := None;
      studyState := InitialStudyState;
      testState := None;
    }

    /** `resetStudyState`: only the study state changes, and it takes the
        initial values again. */
    method ResetStudyState()
      modifies this`studyState
      ensures studyState == InitialStudyState
    {
      studyState := InitialStudyState;
    }

    method SetCurrentDeck(deckId: Option<DeckId>)
      modifies this`currentDeckId
      ensures currentDeckId == deckId
    {
      currentDeckId := deckId;
    }

    method SetCurrentMode(mode: Option<Mode>)
      modifies this`currentMode
      ensures currentMode == mode
    {
      currentMode := mode;
    }

    method UpdateGlobalSettings(settings: map<string, Value>)
      modifies this`globalSettings
      ensures globalSettings == Merge(old(globalSettings), settings)
    {
      globalSettings := Merge(globalSettings, settings);
    }

    method UpdateAnalytics(data: map<string, Value>)
      modifies this`analyticsData
      ensures analyticsData == Merge(old(analyticsData), data)
    {
      analyticsData := Merge(analyticsData, data);
    }

    /** `getDeck`: the deck stored under `deckId`, if any. */
    function GetDeck(deckId: DeckId): (r: Option<Deck>)
      reads this
      ensures r.Some? <==> deckId in decks
      ensures r.Some? ==> r.value == decks[deckId]
    {
      if deckId in decks then Some(decks[deckId]) else None
    }

    /** `updateDeck`: afterwards `GetDeck(deckId)` is `deck`; every other
        entry is unchanged. */
    method UpdateDeck(deckId: DeckId, deck: Deck)
      modifies this`decks
      ensures GetDeck(deckId) == Some(deck)
      ensures decks.Keys == old(decks).Keys + {deckId}
      ensures forall id | id in old(decks) && id != deckId :: decks[id] == old(decks)[id]
    {
      decks := decks[deckId := deck];
    }

    /** `deleteDeck`: removes that key and no other. */
    method DeleteDeck(deckId: DeckId)
      modifies this`decks
      ensures GetDeck(deckId) == None
      ensures decks.Keys == old(decks).Keys - {deckId}
      ensures forall id | id in decks :: decks[id] == old(decks)[id]
    {
      decks := decks - {deckId};
    }
  }
}
