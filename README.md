# Flashcard study core, modelled in Dafny

This project models the scheduling and scoring logic of an offline flashcard
study tool. It is not the user interface or the storage layer. The parts
modelled are:

- the **learn-mode bucket scheduler**: a deck's cards sit in ordered mastery
  buckets, and each answer moves a card one bucket up (correct) or down
  (wrong);
- the **review-mode round scheduler**: the `stillLearning`, `correct` and
  `lastRoundIncorrect` pools;
- the **SM-2 spaced-repetition scheduler** and its due-card filter;
- the progress figures shown for learn mode, review mode and the dashboard;
- the **scoring helpers**: Levenshtein distance, the Interaction Quality
  Score (IQS), Fisher–Yates shuffle, chunking, duration formatting and
  bucket names;
- the **knowledge tracker's** mastery and stability update;
- **test mode**: choosing questions, building multiple-choice options,
  submitting answers and computing the final score;
- the **deck editor's save**: building cards, parsing sequence cards, and
  resetting a re-saved deck's learn and review state;
- the **global state table**: the deck map, settings merges and the
  study-state reset;
- the **view-history stack** behind `showView` and `goBack`.

Layout: one module per source file, plus shared modules.

| module | file | models |
|---|---|---|
| `Common` | common.dfy | `Option`, min/max, JavaScript `Math.round`, clamping |
| `Text` | text.dfy | `trim`, `split`, `join`, and number-to-text conversion |
| `Records` | records.dfy | cards, decks, settings, learn/review/test state |
| `State` | state.dfy | `assets/js/state.js` |
| `Utils` | utils.dfy | `assets/js/utils.js` |
| `Sm2` | sm2.dfy | the `SM2Algorithm` class of `assets/js/study.js` |
| `Study` | study.dfy | the rest of `assets/js/study.js` |
| `Knowledge` | knowledge.dfy | `assets/js/knowledge-state.js` |
| `Testing` | testing.dfy | `assets/js/test.js` |
| `CardEditor` | editor.dfy | `assets/js/card-editor.js` |
| `Ui` | ui.dfy | `assets/js/ui.js` |

How the model maps the program:

- The shared mutable `state` object is the class `State.AppState`. Operations
  that change it are methods with `modifies` frames. Each method's
  postcondition ties the new state to pure functions, and lemmas prove the
  scheduling properties about those functions.
- Numbers are `real`. `Math.round(x)` is `(x + 1/2).Floor`.
- SM-2 dates are whole day numbers. Test-mode times are milliseconds.
- Every use of `Math.random()` becomes a caller-supplied draw in [0, 1).
- `toLowerCase` is a character map passed in.
- The outcome of each storage request is a boolean parameter.

## Model

| member | source | states |
|---|---|---|
| `Common.Round` | assets/js/test.js:300 | `Math.round`: the result is the integer nearest to x, with halves rounded up (x - 1/2 < r <= x + 1/2) |
| `Text.Trim` | assets/js/card-editor.js:20-22 | `trim()` never lengthens its input, and a non-empty result starts and ends with a character that is not white space |
| `Text.TrimBlank` | assets/js/card-editor.js:23 | The trimmed text is empty exactly when every character is white space, so `!name` rejects exactly the blank titles |
| `Text.IdeographicSpaceTrims` | assets/js/card-editor.js:20 | The ideographic space U+3000, which `trim()` removes, trims to the empty string |
| `Text.TrimIsSlice` | assets/js/card-editor.js:20-22 | `trim()` returns a contiguous slice of its input, cutting only ECMAScript white space and line terminators (tab, VT, FF, space, NBSP, U+1680, U+2000–U+200A, U+202F, U+205F, U+3000, BOM, LF, CR, U+2028, U+2029) from either end; the result neither starts nor ends with one |
| `Text.TrimIdempotent` | assets/js/card-editor.js:20-22 | Trimming a trimmed string changes nothing |
| `Text.Split` | assets/js/card-editor.js:40 | `split('\n')` gives at least one piece, and no piece holds the separator |
| `Text.SplitAppend` | assets/js/card-editor.js:40 | Splitting text joined at one separator gives the pieces of the left side followed by those of the right side |
| `Text.Join` | assets/js/card-editor.js:46 | `join` of no pieces is the empty string, and a join starts with its first piece |
| `Text.JoinSplit` | assets/js/card-editor.js:39-40 | `split` loses nothing: joining its pieces with the separator gives back the input |
| `Text.NatToStringInjective` | assets/js/utils.js:67-74 | Different whole numbers have different decimal texts |
| `Text.NatToString` | assets/js/utils.js:67-74 | A number's decimal text is non-empty and made only of the digits 0–9 |
| `State.Merge` | assets/js/state.js:104-106 | An object spread `{...base, ...patch}`: the keys are the union, keys of the patch win, and every other key keeps its old value |
| `State.AppState.constructor` | assets/js/state.js:4-36 | The initial state: no decks, the three default categories, empty settings, the initial analytics, no current deck or mode, the initial study state |
| `State.AppState.ResetStudyState` | assets/js/state.js:63-81 | The study state returns to exactly the initial values, and no other field changes |
| `State.AppState.SetCurrentDeck` | assets/js/state.js:96-98 | Only the current deck id changes |
| `State.AppState.SetCurrentMode` | assets/js/state.js:100-102 | Only the current mode changes |
| `State.AppState.UpdateGlobalSettings` | assets/js/state.js:104-106 | The global settings become the right-biased merge of the old settings and the patch |
| `State.AppState.UpdateAnalytics` | assets/js/state.js:124-126 | The analytics become the right-biased merge of the old analytics and the patch |
| `State.AppState.GetDeck` | assets/js/state.js:108-110 | Returns a deck exactly when the id is stored, and then it is the stored deck |
| `State.AppState.UpdateDeck` | assets/js/state.js:116-118 | Afterwards `GetDeck(id)` returns the new deck, the key set gains only that id, and every other deck is unchanged |
| `State.AppState.DeleteDeck` | assets/js/state.js:120-122 | Afterwards `GetDeck(id)` is absent, only that key is removed, and every other deck is unchanged |
| `Study.ApplyDefaults` | assets/js/state.js:50-60 | Merging the defaults into a deck's settings: a key the deck lacks gets its default, which is 4 for `maxBuckets` and 10 for `cardsPerRound` |
| `Study.ApplyDefaultsProperties` | assets/js/study.js:19 | A deck without settings gets the defaults; complete settings survive the merge unchanged, so merging twice equals merging once |
| `Study.FindIndex` | assets/js/study.js:152 | `findIndex`: -1 exactly when no card has the id, and otherwise the first index whose card has it |
| `Study.RemoveId` | assets/js/study.js:133-134 | The filter removes every copy of the id and keeps all other cards: the length drops by the number of copies, and a card is kept exactly when its id differs |
| `Study.FirstBucket` | assets/js/study.js:123-128 | The scan's result: -1 when no bucket holds the id, and otherwise the lowest index of a bucket that does |
| `Study.FindBucket` | assets/js/study.js:120-128 | The scanning loop with `break` returns exactly `FirstBucket` |
| `Study.TargetBucket` | assets/js/study.js:137-142 | The target is never negative and at most one bucket up. For a source bucket below `maxBuckets` it stays below `maxBuckets`, so a card already past the mastered bucket is not clamped back; a correct answer below the top moves exactly one up, a wrong answer above bucket 0 exactly one down |
| `Study.LearnMove` | assets/js/study.js:123-145 | A learn-mode move keeps the number of buckets |
| `Study.LearnMoveFrame` | assets/js/study.js:123-145 | A card in no bucket changes nothing. Otherwise, with `i` the first bucket holding the id and `t` the target: the target becomes its old contents (with the id removed when `t = i`) plus the card at the tail, the source bucket becomes its old contents without the id, and every other bucket is unchanged |
| `Study.LearnMoveConserves` | assets/js/study.js:133-145 | If the id occurs at most once across the buckets, a move keeps the total number of cards |
| `Study.LearnMoveRelocates` | assets/js/study.js:123-145 | If the id occurs exactly once, afterwards it occurs exactly once and in the target bucket |
| `Study.FourBucketWalk` | assets/js/study.js:137-145 | With four buckets, three correct answers take a card from bucket 0 through buckets 1 and 2 to bucket 3, and a wrong answer then takes it back to bucket 2 |
| `Study.Padded` | assets/js/study.js:41-43 | Padding keeps every existing bucket, never drops extras, appends only empty buckets, reaches a length of at least `maxBuckets`, and keeps the total number of cards |
| `Study.PadBuckets` | assets/js/study.js:41-43 | The padding loop computes exactly `Padded` |
| `Study.LearnProgressAsWritten` | assets/js/study.js:230-235 | The learn progress formula as written, `Σ|b_i|·i / (total·(maxBuckets-1)) · 100`: never negative, and 0 for an empty deck or when `maxBuckets` is at most 1 |
| `Study.LearnProgressOverflows` | assets/js/study.js:230-235 | As written the figure can exceed 100: three buckets with the only card in bucket 2, and `maxBuckets` 2, give 200 |
| `Study.LearnProgress` | assets/js/study.js:230-235 | Corrected learn progress: it is never negative and never above 100 when the buckets hold at most the deck's cards, and it agrees with the formula as written whenever there are no more buckets than `maxBuckets` |
| `Study.Percent` | assets/js/study.js:235 | `part/whole·100`: it is 100 exactly when part equals whole, 0 exactly when part is 0, and at most 100 when part is at most whole |
| `Study.ShareAgainstOne` | assets/js/study.js:235 | For `0 < whole`, `part/whole` is at most 1 when part is at most whole, below 1 when part is smaller, and above 1 when part is larger |
| `Study.LearnProgressBounded` | assets/js/study.js:230-235 | With no more buckets than `maxBuckets` and no more cards than the deck, the formula as written lies in [0, 100] |
| `Study.ReviewProgress` | assets/js/study.js:240-245 | Review progress `correct/total·100` is at least 0, at most 100 when correct ≤ total, and 100 exactly when every card is correct |
| `Study.ReviewProgressBounded` | assets/js/study.js:240-245 | When the two pools split the deck, review progress lies in [0, 100] and is 0 before any correct answer |
| `Study.ReviewMove` | assets/js/study.js:151-160 | A correct answer splices out exactly the first `stillLearning` entry with the id (`stillLearning[..i] + stillLearning[i+1..]`), appends the card to `correct`, and changes no other field; the multiset of `stillLearning` loses just that entry. A wrong answer only appends to `lastRoundIncorrect`. A card not in `stillLearning` changes nothing |
| `Study.DueCards` | assets/js/study.js:80-84 | A card is due exactly when it has no SM-2 data or its due date is not after today. The filter keeps exactly the due cards |
| `Study.IsDue` | assets/js/study.js:80-84 | A card without SM-2 data is always due |
| `Study.DueStaysDue` | assets/js/study.js:80-84 | A card due today is still due on every later day |
| `Study.ReviewedNotDue` | assets/js/study.js:80-84 | A card with reachable SM-2 data that has just been reviewed is not due again on the same day |
| `Study.MarkSeen` | assets/js/study.js:107-108 | Only the first card with the id changes, and it becomes that card with `isNew` false; every other card, and the length, stay as they were. Without such a card nothing changes |
| `Study.SaveProgress` | assets/js/study.js:177-199 | With no current deck id, the empty id, an unknown deck or a mode other than learn and review, nothing changes. In learn mode the deck's `learnState` becomes the session's buckets, round and `maxBuckets`; in review mode its `reviewState` becomes the session's pools and round. The key set, every other deck and every deck's cards are unchanged |
| `Study.SaveStudyProgress` | assets/js/study.js:177-199 | The save method writes exactly `SaveProgress` of the session |
| `Study.StartLearnMode` | assets/js/study.js:31-51 | The deck's learn state becomes `LearnStart` of the deck, and the session copies its buckets, its round (0 read as 1) and the deck's settings; no other deck changes |
| `Study.LearnStart` | assets/js/study.js:32-43 | Without saved buckets the learn state starts at round 1 with one bucket holding the deck's cards; otherwise the saved state is kept. Either way the buckets are padded with empty ones to at least `maxBuckets` |
| `Study.StartReviewMode` | assets/js/study.js:60-69 | The session starts with every deck card in `stillLearning`, nothing correct, round 1 and no wrong answers |
| `Study.StartSpacedLearning` | assets/js/study.js:78-97 | The session starts exactly when some card is due. Its round cards are then a permutation of the due cards; otherwise nothing changes |
| `Study.StartStudySession` | assets/js/study.js:8-28 | The deck and mode are always recorded. An unknown deck changes nothing else. A known deck gets its merged settings and keeps its cards, and other decks are untouched. Learn mode stores `LearnStart` on the deck and copies it into the session; review mode sets the pools from the deck's cards; spaced mode with due cards starts a round of exactly the due cards (as a multiset) and without due cards leaves the session alone; test mode and unknown modes change nothing more |
| `Study.MoveCardInLearnMode` | assets/js/study.js:119-149 | The buckets become `LearnMove` of the old buckets; the deck is saved only when the card was found |
| `Study.MoveCardInReviewMode` | assets/js/study.js:151-163 | The study state becomes `ReviewMove` of the old one; the deck is saved only when the card was found |
| `Study.WithNextReview` | assets/js/study.js:165-171 | Only the deck's first card with the id changes, and it gets the next SM-2 data. Without such a card nothing changes |
| `Study.MoveCardInSpacedMode` | assets/js/study.js:165-174 | The current deck's cards become `WithNextReview`, followed by the save |
| `Study.CorrectSpacedAnswerResets` | assets/js/study.js:114-116 | Passing `true` as the quality (read as 1) makes every correct spaced answer a failed review: repetition 0, interval 1, and the factor falls by 0.54 |
| `Study.SpacedPassAdvances` | assets/js/study.js:165-171 | With a pass quality (at least 3), the reviewed card's repetition count rises by one and its interval never shrinks |
| `Study.MoveCard` | assets/js/study.js:106-117 | The deck's first copy of the card gets `isNew` false (`MarkSeen`). Then learn mode stores `LearnMove` of the buckets and saves the deck with `SaveProgress` when the card was found; review mode stores `ReviewMove` of the pools and saves likewise; spaced mode replaces the deck's cards by `WithNextReview`; with no mode or test mode the decks end as the seen decks |
| `Sm2.NextReview` | assets/js/study.js:282-304 | The factor never falls below 1.3, and the due date is today plus the new interval |
| `Sm2.CalculateNextReview` | assets/js/study.js:268-305 | The step-by-step update computes exactly `NextReview` from the card's data, or from the initial data for a card without any |
| `Sm2.NextReviewReachable` | assets/js/study.js:283-298 | Starting from the initial data, every review keeps the data in the reachable set: factor ≥ 1.3, one pass gives interval 1, and two or more passes give an interval of at least 6 |
| `Sm2.InitialReachable` | assets/js/study.js:271-278 | The initial data (interval 0, factor 2.5, repetition 0) is reachable |
| `Sm2.PassLengthensInterval` | assets/js/study.js:283-291 | A pass (quality ≥ 3) never shortens the interval, and after the first pass it strictly lengthens it |
| `Sm2.ReviewedCardNotDueToday` | assets/js/study.js:300-302 | After any review the next due date is at least one day ahead |
| `Sm2.FactorChange` | assets/js/study.js:297-298 | Quality 5 adds 0.1 to the factor, quality 4 leaves it, quality ≤ 4 never raises it, and a failing quality lowers it down to the 1.3 floor |
| `Sm2.ReviewSequenceExample` | assets/js/study.js:283-302 | Reviews of quality 4, 4 and 2 give intervals 1, 6 and 1, and the factor goes from 2.5 to 2.18 |
| `Utils.Lowered` | assets/js/utils.js:5-6 | Lower-casing maps each character and keeps the length |
| `Utils.LevenshteinDistance` | assets/js/utils.js:4-27 | The single-row dynamic programme returns exactly the recursive edit distance of the two lower-cased strings |
| `Utils.FillRow` | assets/js/utils.js:10-25 | One pass of the outer loop turns the cost row for `i-1` into row `i` of the recursive edit-distance table |
| `Utils.LevLowerBound` | assets/js/utils.js:4-27 | The distance is at least the difference of the two lengths |
| `Utils.LevSymmetric` | assets/js/utils.js:4-27 | The distance is symmetric |
| `Utils.LevSelf` | assets/js/utils.js:4-27 | The distance of a string to itself is 0 |
| `Utils.LevZeroOnlySelf` | assets/js/utils.js:4-27 | A distance of 0 means the strings are equal |
| `Utils.LevFromEmpty` | assets/js/utils.js:12-13 | The distance between the empty string and t is `|t|`, in either order |
| `Utils.Iqs` | assets/js/utils.js:31-46 | The IQS always lies in [0, 1] |
| `Utils.IqsUnclamped` | assets/js/utils.js:32-43 | For non-negative inputs every sub-score lies in [0, 1] and the weights sum to 1, so the clamp never changes the value |
| `Utils.IqsAtBaseline` | assets/js/utils.js:32-43 | At baseline latency and fluency, with no corrections and one attempt, the IQS is 47/60 |
| `Utils.IqsCaps` | assets/js/utils.js:32-33 | A latency of at least twice the baseline contributes 0; a fluency of at least 1.5 times the baseline contributes the full 0.20 |
| `Utils.IqsAntitone` | assets/js/utils.js:32-45 | More latency, more corrections or more attempts never raise the IQS |
| `Utils.BucketNamesDistinct` | assets/js/utils.js:49-53 | Index 0 is 'Learning' (even when there is one bucket), `maxBuckets-1` is 'Mastered' when that is another index, and different indices get different names |
| `Utils.BucketName` | assets/js/utils.js:49-53 | Index 0 is 'Learning', another index equal to `maxBuckets-1` is 'Mastered', and any other index is 'Bucket ' followed by its number |
| `Utils.HoursMinutes` | assets/js/utils.js:72-73 | Splits seconds into h and m with m < 60 and `h·3600 + m·60 ≤ s < h·3600 + m·60 + 60` |
| `Utils.FormatDurationForms` | assets/js/utils.js:66-75 | The text ends in 's' exactly when the duration is under a minute. Under a minute it is the number exactly as JavaScript prints it, followed by 's' (1.5 gives '1.5s'). From an hour on, the hour count is at least 1 |
| `Utils.FormatDuration` | assets/js/utils.js:66-75 | For any duration, whole or fractional, positive or negative, the text has a number and a unit and ends in 's' or 'm' |
| `Utils.LongDuration` | assets/js/utils.js:68-74 | From one minute on, the text ends in 'm' |
| `Utils.MinutesText` | assets/js/utils.js:70 | The whole minutes followed by 'm' |
| `Utils.HoursText` | assets/js/utils.js:74 | The hours, 'h ', then the minutes text, ending in 'm' |
| `Utils.FloorOver` | assets/js/utils.js:69-72 | For a non-negative duration, `Math.floor(x / 60)` and `Math.floor(x / 3600)` equal integer division of the whole seconds |
| `Utils.HoursSplit` | assets/js/utils.js:72-73 | From an hour on, the hours and `Math.floor((x % 3600) / 60)` are those of the whole seconds, by integer division |
| `Utils.LongWhole` | assets/js/utils.js:68-74 | From one minute on, the text depends only on the whole seconds and equals `WholeDuration` of them |
| `Utils.FormatAboveMinute` | assets/js/utils.js:66-74 | A duration of a minute or more is formatted as its whole seconds: the whole minutes under an hour, otherwise the hours and the minutes left over |
| `Utils.WholeSeconds` | assets/js/utils.js:66-74 | A whole number of seconds under a minute prints as itself then 's'. From a minute on it prints as `WholeDuration`, with `HoursMinutes` for the hours case |
| `Utils.FractionShownUnderAMinute` | assets/js/utils.js:66-74 | The fraction is shown only under a minute. From a minute on, a fractional duration gives the same text as its whole seconds |
| `Utils.NegativeDuration` | assets/js/utils.js:67 | A negative duration falls in the seconds branch and its text starts with a minus sign |
| `Text.Value` | assets/js/utils.js:67 | The number a printed decimal stands for: its whole part is the floor of the magnitude, and it is 0 exactly when the whole part is 0 and there is no fraction |
| `Text.NumberText` | assets/js/utils.js:67 | `${x}` for a number: it starts with '-' exactly when the number is negative (minus zero prints as 0), holds a point exactly when there are fraction digits, and a non-negative whole number prints as its digits |
| `Text.FractionValue` | assets/js/utils.js:67 | The digits after the point stand for a value in [0, 1), positive when the last digit is not 0 |
| `Utils.ChunkArray` | assets/js/utils.js:78-84 | For a positive size the chunks concatenate back to the input. Every chunk but the last has exactly `size` elements, and the last has 1 to `size` |
| `Utils.SwapPermutes` | assets/js/utils.js:91 | The destructuring swap keeps the multiset |
| `Utils.RandomIndex` | assets/js/utils.js:90 | `Math.floor(draw·n)` for a draw in [0, 1) is an index below n |
| `Utils.Swap` | assets/js/utils.js:91 | The destructuring swap exchanges the two entries, leaves every other entry alone and keeps the multiset |
| `Utils.ShuffleArray` | assets/js/utils.js:87-94 | The Fisher–Yates loop on a copy returns a permutation of the input (same length and multiset), and the argument is untouched |
| `Knowledge.DefaultState` | assets/js/knowledge-state.js:20-26 | A card without a record starts with mastery 0, stability 1 and the current time |
| `Knowledge.MasteryUpdate` | assets/js/knowledge-state.js:29-33 | The new mastery always lies in [0, 1] |
| `Knowledge.MasteryDirection` | assets/js/knowledge-state.js:30-33 | For mastery in [0, 1]: IQS 0.5 keeps it, IQS 1 gives 1, IQS above 0.5 never lowers it, and IQS below 0.5 never raises it |
| `Knowledge.StabilityDirection` | assets/js/knowledge-state.js:36-44 | Stability changes only in spaced mode. There, an IQS above 0.5 strictly raises a positive stability, and anything else, 0.5 included, halves it |
| `Knowledge.StabilityUpdate` | assets/js/knowledge-state.js:36-44 | Outside spaced mode stability is unchanged, and it never goes negative for non-negative inputs |
| `Knowledge.Updated` | assets/js/knowledge-state.js:28-47 | An updated record has mastery in [0, 1] and the current time as `lastReviewed` |
| `Knowledge.UpdateKnowledgeState` | assets/js/knowledge-state.js:1-62 | With no store, or a failed read or write, neither the store nor the session map changes. Otherwise only the card's entry changes: the store holds the updated record and the session map its mastery |
| `Testing.FilterCards` | assets/js/test.js:42-46 | A card is kept exactly when it passes the filter: new cards go with `excludeNew`, cards with more than two repetitions go with `excludeLearned`, and cards without SM-2 data count as not learned. The filter never yields more cards than it is given |
| `Testing.Keep` | assets/js/test.js:42-46 | With neither exclusion every card passes, and a seen card without SM-2 data passes whatever the settings |
| `Testing.FilterCardsSubMultiset` | assets/js/test.js:42-46 | The kept cards are a sub-multiset of the deck: the filter never duplicates a card |
| `Testing.FilterKeepsAll` | assets/js/test.js:42-46 | With neither exclusion set, every card is kept, in order |
| `Testing.QuestionCount` | assets/js/test.js:52-53 | The count is `min(limit, available)` when a limit is set: exactly `limit` when `0 < limit <= available`, and all available cards when the limit is 0 or larger |
| `Testing.GenerateWrittenQuestion` | assets/js/test.js:95-102 | A written question carries the card's id, front and back, and no options |
| `Testing.GenerateMultipleChoice` | assets/js/test.js:69-93 | The options contain the correct answer, have at most 4 entries, and are pairwise distinct. Every other option is the back of a card with a different id. With at least three distinct such backs, there are exactly 4 options |
| `Testing.AddDistractors` | assets/js/test.js:83-88 | The distractor loop keeps the answer first and the options distinct and drawn from the pool. It stops short of 4 only when every back in the pool is already an option |
| `Testing.ManyBacksFillOptions` | assets/js/test.js:79-88 | If the other cards offer three distinct backs besides the answer and every pool back is an option, then there are at least 4 options |
| `Testing.SameOptions` | assets/js/test.js:91 | Shuffling the options keeps their number, their distinctness, the correct answer and the origin of each distractor |
| `Testing.GenerateQuestions` | assets/js/test.js:37-67 | One question per selected card, in selection order. The selected cards number `QuestionCount` and are a sub-multiset of the filtered cards. Each question is about its card: a valid multiple-choice question in multiple-choice mode, and `GenerateWrittenQuestion` of the card otherwise (`AskedAbout`) |
| `Testing.SelectedCardsKept` | assets/js/test.js:42-53 | Every card asked about is a deck card that passes the filter |
| `Testing.Evaluate` | assets/js/test.js:235-244 | In a multiple-choice test, correct means exact string equality. In a written test, correct means the similarity reaches the threshold |
| `Testing.Score` | assets/js/test.js:246-254 | A multiple-choice answer scores 1 when correct and 0 otherwise. A written answer scores its similarity rounded to hundredths, within [0, 1] |
| `Testing.UserAnswer` | assets/js/test.js:195-209 | No selection or a blank written answer gives no answer. A selected option is taken as is, and a written answer is trimmed |
| `Testing.ReadAnswer` | assets/js/test.js:195-209 | The branches on question type and input compute exactly the `UserAnswer` of the question and input |
| `Testing.Recorded` | assets/js/test.js:216-232 | One submission appends exactly the given answer record, adds exactly its score to the total, advances the index by 1, changes no other field of the test state, and keeps the score equal to the sum of the recorded scores |
| `Testing.AnswerFor` | assets/js/test.js:212-223 | The record carries the current index, the card id, the user's answer and the correct answer. In a multiple-choice test it is correct exactly when the answers are equal and then scores 1; in a written test it is correct exactly when the similarity reaches the threshold |
| `Testing.MultipleChoiceTotal` | assets/js/test.js:247-248 | When every answer scores 0 or 1, the total lies between 0 and the number of answers |
| `Testing.StartTestSession` | assets/js/test.js:8-34 | The deck and test mode are recorded. A known deck's stored test settings are merged over the defaults and written back to the deck. The test uses those settings and starts at question 0 with no answers and score 0. Its questions are about `QuestionCount` cards drawn from the filtered cards, each question about its card (`AskedAbout`). With questions, the test stays open and the only change to the decks is the written settings. With none, `showNextQuestion` finishes it at once: it is completed, stamped with the time, and its result is appended to the deck's history. An unknown deck leaves the test state and the decks alone |
| `Testing.SubmitAnswer` | assets/js/test.js:191-233 | Without an answer nothing changes. Otherwise the test state becomes `Recorded` with the evaluated and scored answer |
| `Testing.CalculateFinalScore` | assets/js/test.js:294-304 | The final result carries the score and the question count. The percentage exists exactly when there are questions, lies in [0, 100] for a score within bounds, and is 100 for a full score and 0 for none |
| `Testing.MultipleChoicePercentage` | assets/js/test.js:294-300 | A finished multiple-choice test with questions scores between 0% and 100% |
| `Testing.WithResult` | assets/js/test.js:306-317 | The deck's test history gains one entry at its end, with the final score and the test settings; nothing else in the deck changes |
| `Testing.ShowNextQuestion` | assets/js/test.js:105-113 | The test finishes exactly when the index reaches the number of questions. It is then marked completed and stamped, and its result is appended to the current deck; otherwise nothing changes |
| `CardEditor.ParseItems` | assets/js/card-editor.js:41-42 | Trimming and dropping empty pieces gives at most as many items, each non-empty with no white space at either end |
| `CardEditor.ParseItemsAppend` | assets/js/card-editor.js:41-42 | The pieces are handled one by one: the items of two runs of pieces are the items of the first followed by the items of the second |
| `CardEditor.ParseSequence` | assets/js/card-editor.js:39-42 | The parsed items are non-empty, trimmed and free of line breaks |
| `CardEditor.ParseSequenceLine` | assets/js/card-editor.js:39-42 | A single line parses to its trimmed text, or to nothing when it is blank |
| `CardEditor.ParseSequenceAppend` | assets/js/card-editor.js:39-42 | Lines parse independently: text joined at a line break parses to the items before it followed by those after it |
| `CardEditor.ParseSequenceTwoLines` | assets/js/card-editor.js:39-42 | Two non-blank lines with a blank line between them parse to exactly the two lines, trimmed, in order |
| `CardEditor.ParseSequenceOfLines` | assets/js/card-editor.js:39-42 | Items written one per line parse back to exactly those items: parsing keeps order and loses only blank lines and surrounding white space |
| `CardEditor.ParseSequenceIdempotent` | assets/js/card-editor.js:39-42 | Parsing, writing one item per line and parsing again gives the same items |
| `CardEditor.BuildCard` | assets/js/card-editor.js:28-55 | Every built card is new, has no SM-2 data, and carries its form's trimmed question and answer images (empty when missing). A sequence card asks 'Arrange in correct order:', holds the parsed items and answers with them joined by ' → '. Any other card takes its trimmed question and solution |
| `CardEditor.ImageField` | assets/js/card-editor.js:34-35 | A missing image input gives the empty string, and a non-empty value comes from an input and is trimmed |
| `CardEditor.SequenceCompleteness` | assets/js/card-editor.js:56 | A sequence card is kept exactly when its text has a non-blank line |
| `CardEditor.IsComplete` | assets/js/card-editor.js:56 | A non-sequence card with a question is complete, and a complete sequence card has a non-empty item list |
| `CardEditor.KeepComplete` | assets/js/card-editor.js:56 | The filter keeps exactly the complete cards, never more than it was given |
| `CardEditor.KeepCompleteAppend` | assets/js/card-editor.js:56 | Filtering two runs of cards gives the kept cards of the first followed by those of the second, so order and repeats are kept |
| `CardEditor.KeepCompleteOne` | assets/js/card-editor.js:56 | A single card is kept exactly when it is complete |
| `CardEditor.BuildCards` | assets/js/card-editor.js:28-56 | Never more cards than forms, and every kept card is complete and new |
| `CardEditor.Built` | assets/js/card-editor.js:28-55 | One card per form, in form order, each built from its form and id |
| `CardEditor.BuiltAppend` | assets/js/card-editor.js:28-55 | The cards of two runs of forms are the cards of the first run followed by those of the second |
| `CardEditor.BuildCardsAppend` | assets/js/card-editor.js:28-56 | The kept cards of two runs of forms are those of the first run followed by those of the second, so the cards come out in form order |
| `CardEditor.BuildCardsOne` | assets/js/card-editor.js:28-56 | One form gives its card when that card is complete, and nothing otherwise |
| `CardEditor.BuildCardsKeepsComplete` | assets/js/card-editor.js:28-56 | Every complete card built from a form is kept, and every kept card was built from some form |
| `CardEditor.ResetLearnState` | assets/js/card-editor.js:71-75 | Bucket 0 holds all the cards and `maxBuckets-1` empty buckets follow. The round is 1, and the buckets hold exactly the deck's cards |
| `CardEditor.ResetReviewState` | assets/js/card-editor.js:76-81 | `stillLearning` is a copy of the cards, `correct` and `lastRoundIncorrect` are empty, the round is 1, and the pools together hold as many cards as the deck |
| `CardEditor.Resaved` | assets/js/card-editor.js:67-81 | The deck takes exactly the new name, category, cards and notes. Its learn state is `ResetLearnState` of the cards and the deck's `maxBuckets` (the cards in bucket 0, then empty buckets, round 1). Its review state is `ResetReviewState` of the cards. No other field changes |
| `CardEditor.EditorSaveDeck` | assets/js/card-editor.js:15-100 | The save ends as `SaveOutcomeFor` the trimmed title and notes and the built cards. A blank title or no complete card refuses the save. A current deck id that names no deck stops the save. In each of these cases, and when a new deck is requested, the decks are unchanged. On an update, only the current deck changes: it takes the new name, category, notes and cards with reset learn and review state |
| `CardEditor.SaveOutcomeFor` | assets/js/card-editor.js:23-99 | Each outcome holds exactly when its condition does. A blank title is refused first, then an empty card list. A current deck id, where a missing id and '' both count as none, updates the deck it names, or stops the save when it names none. With no current deck a new deck is requested with exactly the name, category, cards and notes |
| `CardEditor.SaveTrimmed` | assets/js/card-editor.js:23-99 | The branches after trimming give the `SaveOutcomeFor` outcome. An update replaces only the current deck with its `Resaved` form, and every other outcome, a stale deck id included, changes no deck |
| `CardEditor.ResaveDeck` | assets/js/card-editor.js:65-81 | The field-by-field assignments leave the deck map equal to the old one with only that deck replaced by its re-saved version |
| `CardEditor.ResavedDeckState` | assets/js/card-editor.js:71-81 | After a re-save every card is found in bucket 0, `stillLearning` holds all the cards, and `correct` is empty |
| `Ui.UpdateDeckProgress` | assets/js/ui.js:91-105 | The total is the number of cards, and mastered is the size of bucket `maxBuckets-1`, or 0 when it is missing. Progress is 0 for an empty deck. When mastered is at most the total, progress lies in [0, 100] and is 100 exactly when every card is mastered. As written, a bucket `maxBuckets-1` holding more cards than the deck pushes it above 100 |
| `Ui.ResavedDeckNothingMastered` | assets/js/ui.js:95-99 | A deck just re-saved in the editor, with at least two buckets, shows nothing mastered and 0% progress |
| `Ui.ThreePassesMaster` | assets/js/ui.js:95-96 | With four buckets, three correct learn-mode answers put a card in the bucket the dashboard counts as mastered |
| `Ui.Navigator.constructor` | assets/js/ui.js:6-7 | Navigation starts on the dashboard with an empty history |
| `Ui.Navigator.BackVisible` | assets/js/ui.js:40-45 | The back button shows exactly when the history is non-empty |
| `Ui.Navigator.ShowView` | assets/js/ui.js:9-48 | An unknown view changes nothing. A reset clears the history. Without a reset the view being left, if any, is pushed. The new view is then shown, and the history only ever names known views |
| `Ui.Navigator.GoBack` | assets/js/ui.js:50-54 | On an empty history nothing happens. Otherwise the newest entry is shown, the reset clears the whole history, and the back button hides |
| `Ui.ShowThenBack` | assets/js/ui.js:9-54 | Leaving the dashboard for a known view and going back returns to the dashboard with an empty history |

## Left out

- `assets/js/db.js` (IndexedDB open, get, put, delete, interaction logging) is not part of this model. It is asynchronous browser I/O. The saves (`saveStudyProgress`, `saveTestResults`, `editorSaveDeck`) are modelled as updates of the in-memory deck map, and knowledge-record storage as a map field with the success of each request passed in.
- `main.js` and `preload.js` (Electron window, menus, and the IPC call to a remote distractor generator) are not part of this model. They are platform and network plumbing.
- `assets/js/prm.js` is not part of this model: it raises 2 to a real exponent, which Dafny's `real` cannot express.
- DOM and presentation code is not modelled: question display, answer feedback, result screens, toasts, modals, spinners, the progress bar, `transitionSubView`, `showProgress`'s bucket display, `debounce` and `formatDate`. The 400 ms transition in `showView` is treated as immediate.
- `Math.random`, `Date.now` and `new Date()` become parameters. Shuffles take draws in [0, 1). Card ids are supplied by the caller. SM-2 dates are day numbers, and test times are milliseconds. `generateId` is not modelled.
- `Utils.ShuffleArray`: the contract states only that the result is a permutation. It does not say which permutation a given list of draws produces.
- The `JSON.parse(JSON.stringify(...))` copy and `deepClone` are not modelled. Decks and cards are values, so the aliasing the source gets from sharing card objects between a deck and its buckets does not arise. In particular, marking a card as seen does not reach the session's copies.
- `toLowerCase` is an abstract character map, with no Unicode case rules.
- `createNewDeck` is not part of this model. `CardEditor.EditorSaveDeck` returns the fields it would be called with. The save button's spinner and re-enabling are left out.
- `generateQuestions` reads `state.testState.settings` before the new test state is assigned. The model generates the questions from the merged settings that test state is given. `DEFAULT_TEST_SETTINGS` is not exported by `state.js`, so the defaults are a parameter of `Testing.StartTestSession`. A stored test-settings object is taken as complete, since the model has no partial settings, so the merge keeps it whole.
- The test code reads `card.front` and `card.back`, while the editor builds cards with `question` and `answer`. The model reads `question` and `answer` as front and back. As written, every multiple-choice option and every correct answer would be undefined.
- `calculateScore` reads an undefined `userAnswer`, and `evaluateAnswer` passes strings to `calculateIQS`. The written answer's similarity is a parameter.
- `updateKnowledgeState` reads the mode from `studyState.currentMode`, which is never set; `state.currentMode` holds it. It also uses unbound `db` and `studyState` names. The mode, the store and the session state are parameters.
- `Study.MoveCardInLearnMode`: requires the session settings and `1 <= maxBuckets <= number of buckets`, which `startLearnMode`'s padding ensures. A move with a larger `maxBuckets` would index past the buckets, and that case is not modelled.
- `Study.StartSpacedLearning`: the session's other fields (round cards aside) are stated, but the order of the round cards is not.
- `Sm2.NextReview`: its own contract states only the factor floor and the due date. The interval and repetition rules are stated through `Sm2.Reachable`, `Sm2.PassLengthensInterval` and `Sm2.ReviewSequenceExample`.
- `Utils.ChunkArray`: the default size of 7 is not modelled; the size is always passed.
- `Utils.ChunkArray`: requires a positive size, because for a size of 0 or less the loop at `assets/js/utils.js:80` never ends.
- `Utils.FormatDuration`: the duration is the decimal text JavaScript prints for it. Exponent notation (magnitudes below 1e-6 or from 1e21 on), `NaN`, `Infinity` and binary floating-point rounding are not modelled.
- `CardEditor.EditorSaveDeck`: `assets/js/card-editor.js:65-66` reads bare `currentDeckId` and `decks`, names that no file in this model defines (`state.js` keeps them as fields of `state`). The model reads them as `state.currentDeckId` and `state.decks`.
- `CardEditor.EditorSaveDeck`: a current deck id that names no stored deck makes `assets/js/card-editor.js:67` throw a `TypeError`, which ends the save. The model returns `DeckNotFound` with the decks unchanged, and does not model the thrown error's trip to the caller.
- Strings are sequences of characters, while JavaScript strings are sequences of UTF-16 code units. A character outside the Basic Multilingual Plane counts as 2 in JavaScript's `.length` and in `levenshteinDistance`, but as 1 in the model.

## Findings

| source | as written | input that shows it | evidently intended | confidence | as-written member | corrected member |
|---|---|---|---|---|---|---|
| assets/js/study.js:230-235 | Learn progress divides by `total·(maxBuckets-1)`, but the buckets are never trimmed to `maxBuckets`, so cards in extra buckets count more than the maximum | saved buckets `[[], [], [card]]` with `maxBuckets` 2 and one card: progress 200 | progress capped at 100: a card counts at most `maxBuckets-1` points | not executed | `Study.LearnProgressOverflows` | `Study.LearnProgress` |
| assets/js/study.js:114-116 | `moveCard(card, correct)` passes the boolean `correct` as the SM-2 quality, and `true` compares as 1 < 3 | any card answered correctly in spaced mode: repetition resets to 0, interval to 1 day, factor drops by 0.54 | a pass quality (3 to 5) for a correct answer, so the interval grows | not executed | `Study.CorrectSpacedAnswerResets` | `Study.SpacedPassAdvances` |
