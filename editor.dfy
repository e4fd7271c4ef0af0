/** The deck editor's save: each card form becomes a card (a sequence card
    parses its text into ordered items), incomplete cards are dropped, and
    an existing deck takes the new cards with freshly reset learn and review
    state. */
module CardEditor {
  import opened Common
  import opened Records
  import opened State
  import Text
  import Study

  // ---------------------------------------------------------------------
  // Sequence items

  /** Trims each piece and drops the empty ones, keeping the order. */
  function ParseItems(pieces: seq<string>): (items: seq<string>)
    ensures |items| <= |pieces|
    ensures forall x | x in items :: Text.IsTrimmed(x)
  {
    if |pieces| == 0 then []
    else
      var item := Text.Trim(pieces[0]);
      (if item == [] then [] else [item]) + ParseItems(pieces[1..])
  }

  /** A character the text lacks is not in its trimmed form either. */
  lemma TrimKeepsOut(s: string, c: char)
    requires c !in s
    ensures c !in Text.Trim(s)
  {
    Text.TrimIsSlice(s);
  }

  lemma {:induction false} ParseItemsNoSep(pieces: seq<string>, sep: char)
    requires forall k | 0 <= k < |pieces| :: sep !in pieces[k]
    ensures forall x | x in ParseItems(pieces) :: sep !in x
  {
    if |pieces| > 0 {
      ParseItemsNoSep(pieces[1..], sep);
      TrimKeepsOut(pieces[0], sep);
      assert forall k | 0 <= k < |pieces| - 1 :: pieces[1..][k] == pieces[k + 1];
    }
  }

  /** `sequenceText.split('\n').map(trim).filter(nonempty)`: the items are
      non-empty, free of white space at either end and free of line breaks. */
  function ParseSequence(text: string): (items: seq<string>)
    ensures forall x | x in items :: Text.IsTrimmed(x) && '\n' !in x
  {
    ParseItemsNoSep(Text.Split(text, '\n'), '\n');
    ParseItems(Text.Split(text, '\n'))
  }

  /** The pieces are parsed one by one: parsing two runs of pieces gives
      the items of the first followed by those of the second. */
  lemma {:induction false} ParseItemsAppend(p: seq<string>, q: seq<string>)
    ensures ParseItems(p + q) == ParseItems(p) + ParseItems(q)
  {
    if |p| > 0 {
      var item := Text.Trim(p[0]);
      var head := if item == [] then [] else [item];
      assert (p + q)[0] == p[0] && (p + q)[1..] == p[1..] + q;
      assert ParseItems(p + q) == head + ParseItems(p[1..] + q);
      ParseItemsAppend(p[1..], q);
      Reassociate(head, ParseItems(p[1..]), ParseItems(q));
    } else {
      assert p + q == q;
    }
  }

  lemma Reassociate<T>(head: seq<T>, a: seq<T>, b: seq<T>)
    ensures head + (a + b) == (head + a) + b
  {
  }

  lemma {:induction false} ParseItemsFixed(items: seq<string>)
    requires forall k | 0 <= k < |items| :: Text.IsTrimmed(items[k])
    ensures ParseItems(items) == items
  {
    if |items| > 0 {
      var rest := items[1..];
      Text.TrimmedFixed(items[0]);
      ParseItemsCons(items);
      forall k | 0 <= k < |rest|
        ensures Text.IsTrimmed(rest[k])
      {
        assert rest[k] == items[k + 1];
      }
      ParseItemsFixed(rest);
      assert [items[0]] + rest == items;
    }
  }

  /** One line parses to its trimmed text, or to nothing when it is blank. */
  lemma ParseSequenceLine(line: string)
    requires '\n' !in line
    ensures ParseSequence(line) == if Text.Trim(line) == [] then [] else [Text.Trim(line)]
  {
    Text.SplitNoSep(line, '\n');
    assert ParseItems([line]) == (if Text.Trim(line) == [] then [] else [Text.Trim(line)]) + ParseItems([]);
  }

  /** Lines are parsed independently: the items of text joined at a line
      break are the items before it followed by the items after it. */
  lemma ParseSequenceAppend(x: string, y: string)
    ensures ParseSequence(x + "\n" + y) == ParseSequence(x) + ParseSequence(y)
  {
    Text.SplitAppend(x, y, '\n');
    ParseItemsAppend(Text.Split(x, '\n'), Text.Split(y, '\n'));
  }

  /** Two lines with a blank line between them parse to the two lines,
      trimmed, and nothing for the blank line: `" a \n\n b "` gives
      `["a", "b"]`. */
  lemma ParseSequenceTwoLines(x: string, y: string)
    requires '\n' !in x && '\n' !in y
    requires Text.Trim(x) != [] && Text.Trim(y) != []
    ensures ParseSequence(x + "\n\n" + y) == [Text.Trim(x), Text.Trim(y)]
  {
    var tail := [] + ['\n'] + y;
    var whole := x + "\n\n" + y;
    BlankLineBetween(x, y);
    assert whole == x + "\n" + tail;
    LineThen(x, tail);
    BlankLineThenLine(y);
    assert ParseSequence(whole) == [Text.Trim(x)] + [Text.Trim(y)];
    PairOfSingletons(Text.Trim(x), Text.Trim(y));
  }

  lemma PairOfSingletons<T>(a: T, b: T)
    ensures [a] + [b] == [a, b]
  {
  }

  /** A line that is not blank, then a line break, parses to the line
      trimmed followed by the items of what comes after. */
  lemma LineThen(x: string, rest: string)
    requires '\n' !in x && Text.Trim(x) != []
    ensures ParseSequence(x + "\n" + rest) == [Text.Trim(x)] + ParseSequence(rest)
  {
    ParseSequenceAppend(x, rest);
    ParseSequenceLine(x);
  }

  lemma BlankLineBetween(x: string, y: string)
    ensures x + "\n\n" + y == x + "\n" + ([] + ['\n'] + y)
  {
  }

  /** A blank line and then a line parses to that line alone. */
  lemma BlankLineThenLine(y: string)
    requires '\n' !in y && Text.Trim(y) != []
    ensures ParseSequence([] + ['\n'] + y) == [Text.Trim(y)]
  {
    BlankLineThen(y);
    ParseSequenceLine(y);
  }

  /** A blank line before a line adds nothing. */
  lemma BlankLineThen(y: string)
    ensures ParseSequence([] + ['\n'] + y) == ParseSequence(y)
  {
    var blank: string := [];
    ParseSequenceAppend(blank, y);
    BlankLineParsesToNothing();
  }

  lemma BlankLineParsesToNothing()
    ensures ParseSequence([]) == []
  {
    ParseSequenceLine([]);
    assert Text.Trim([]) == [];
  }

  /** A first piece that trims to itself, and is not empty, is kept as the
      first item. */
  lemma ParseItemsCons(pieces: seq<string>)
    requires |pieces| > 0 && pieces[0] != [] && Text.Trim(pieces[0]) == pieces[0]
    ensures ParseItems(pieces) == [pieces[0]] + ParseItems(pieces[1..])
  {
  }

  /** Items written one per line parse back to themselves: parsing loses
      nothing but blank lines and surrounding white space. */
  lemma ParseSequenceOfLines(items: seq<string>)
    requires forall k | 0 <= k < |items| :: Text.IsTrimmed(items[k]) && '\n' !in items[k]
    ensures ParseSequence(Text.Join(items, "\n")) == items
  {
    if |items| == 0 {
      assert Text.Split("", '\n') == [""];
      assert Text.Trim("") == "";
      assert ParseItems([""]) == [] + ParseItems([""][1..]);
    } else {
      Text.SplitJoin(items, '\n');
      ParseItemsFixed(items);
    }
  }

  /** Parsing the text, writing the items one per line and parsing again
      gives the same items. */
  lemma ParseSequenceIdempotent(text: string)
    ensures ParseSequence(Text.Join(ParseSequence(text), "\n")) == ParseSequence(text)
  {
    var items := ParseSequence(text);
    assert forall k | 0 <= k < |items| :: items[k] in items;
    ParseSequenceOfLines(items);
  }

  // ---------------------------------------------------------------------
  // Cards

  const SequencePrompt := "Arrange in correct order:"

  /** One card form as the editor reads it: the archetype, the text fields,
      and the image fields, which a form may lack. */
  datatype CardForm = CardForm(
    archetype: string,
    questionText: string,
    solutionText: string,
    sequenceText: string,
    questionImage: Option<string>,
    answerImage: Option<string>)

  /** `input?.value.trim() || ''` */
  function ImageField(input: Option<string>): (r: string)
    ensures input.None? ==> r == ""
    ensures r != "" ==> input.Some? && Text.IsTrimmed(r)
  {
    if input.Some? then Text.Trim(input.value) else ""
  }

  /** The card built from one form: new, with its images; a sequence card
      asks the fixed prompt and answers with its items joined by arrows; any
      other card takes its trimmed question and solution. */
  function BuildCard(form: CardForm, id: CardId): (c: Card)
    ensures c.id == id && c.isNew && c.sm2.None? && c.archetype == form.archetype
    ensures form.archetype == "SEQUENCE" ==>
      && c.question == SequencePrompt
      && c.items == Some(ParseSequence(form.sequenceText))
      && c.answer == Text.Join(ParseSequence(form.sequenceText), " → ")
    ensures form.archetype != "SEQUENCE" ==>
      c.items.None? && c.question == Text.Trim(form.questionText) && c.answer == Text.Trim(form.solutionText)
    ensures c.questionImage == ImageField(form.questionImage) && c.answerImage == ImageField(form.answerImage)
  {
    var questionImage := ImageField(form.questionImage);
    var answerImage := ImageField(form.answerImage);
    if form.archetype == "SEQUENCE" then
      var items := ParseSequence(form.sequenceText);
      Card(id, form.archetype, true, SequencePrompt, Text.Join(items, " → "), questionImage, answerImage,
           Some(items), None)
    else
      Card(id, form.archetype, true, Text.Trim(form.questionText), Text.Trim(form.solutionText),
           questionImage, answerImage, None, None)
  }

  /** The completeness filter: a sequence card needs at least one item, any
      other card a question or a question image. */
  predicate IsComplete(c: Card)
    ensures c.archetype != "SEQUENCE" && c.question != "" ==> IsComplete(c)
    ensures c.archetype == "SEQUENCE" && IsComplete(c) ==> c.items.Some? && c.items.value != []
  {
    if c.archetype == "SEQUENCE" then c.items.Some? && |c.items.value| > 0
    else c.question != "" || c.questionImage != ""
  }

  /** A sequence form is complete exactly when its text has a non-blank
      line; the answer then lists the items with arrows between them. */
  lemma SequenceCompleteness(form: CardForm, id: CardId)
    requires form.archetype == "SEQUENCE"
    ensures IsComplete(BuildCard(form, id)) <==> |ParseSequence(form.sequenceText)| > 0
  {
  }

  /** The complete cards, in order. */
  function KeepComplete(cards: seq<Card>): (r: seq<Card>)
    ensures |r| <= |cards|
    ensures forall c :: c in r <==> c in cards && IsComplete(c)
  {
    if |cards| == 0 then []
    else (if IsComplete(cards[0]) then [cards[0]] else []) + KeepComplete(cards[1..])
  }

  /** The filter works card by card: filtering two runs of cards gives the
      kept cards of the first followed by those of the second, so the kept
      cards stay in order and keep their multiplicity. */
  lemma {:induction false} KeepCompleteAppend(a: seq<Card>, b: seq<Card>)
    ensures KeepComplete(a + b) == KeepComplete(a) + KeepComplete(b)
  {
    if |a| > 0 {
      var head := if IsComplete(a[0]) then [a[0]] else [];
      assert (a + b)[0] == a[0] && (a + b)[1..] == a[1..] + b;
      assert KeepComplete(a + b) == head + KeepComplete(a[1..] + b);
      KeepCompleteAppend(a[1..], b);
      Reassociate(head, KeepComplete(a[1..]), KeepComplete(b));
    } else {
      assert a + b == b;
    }
  }

  /** A single card is kept exactly when it is complete. */
  lemma KeepCompleteOne(c: Card)
    ensures KeepComplete([c]) == if IsComplete(c) then [c] else []
  {
    assert [c][1..] == [];
  }

  /** The forms turned into cards, each with its id, keeping the complete
      ones in form order. Every kept card is new and complete. */
  function BuildCards(forms: seq<CardForm>, ids: seq<CardId>): (cards: seq<Card>)
    requires |ids| == |forms|
    ensures |cards| <= |forms|
    ensures forall c | c in cards :: IsComplete(c) && c.isNew
  {
    KeepComplete(Built(forms, ids))
  }

  /** Every form turned into a card, in order. */
  function Built(forms: seq<CardForm>, ids: seq<CardId>): (built: seq<Card>)
    requires |ids| == |forms|
    ensures |built| == |forms|
    ensures forall k | 0 <= k < |forms| :: built[k] == BuildCard(forms[k], ids[k])
  {
    seq(|forms|, k requires 0 <= k < |forms| => BuildCard(forms[k], ids[k]))
  }

  /** Cards are built form by form: the cards of two runs of forms are the
      cards of the first run followed by those of the second. */
  lemma BuildCardsAppend(forms1: seq<CardForm>, ids1: seq<CardId>, forms2: seq<CardForm>, ids2: seq<CardId>)
    requires |ids1| == |forms1| && |ids2| == |forms2|
    ensures BuildCards(forms1 + forms2, ids1 + ids2) == BuildCards(forms1, ids1) + BuildCards(forms2, ids2)
  {
    BuiltAppend(forms1, ids1, forms2, ids2);
    KeepCompleteAppend(Built(forms1, ids1), Built(forms2, ids2));
  }

  lemma BuiltAppend(forms1: seq<CardForm>, ids1: seq<CardId>, forms2: seq<CardForm>, ids2: seq<CardId>)
    requires |ids1| == |forms1| && |ids2| == |forms2|
    ensures Built(forms1 + forms2, ids1 + ids2) == Built(forms1, ids1) + Built(forms2, ids2)
  {
    var whole, left, right := Built(forms1 + forms2, ids1 + ids2), Built(forms1, ids1), Built(forms2, ids2);
    forall k | 0 <= k < |whole| ensures whole[k] == (left + right)[k] {
      if k < |forms1| {
        assert (forms1 + forms2)[k] == forms1[k] && (ids1 + ids2)[k] == ids1[k];
      } else {
        assert (forms1 + forms2)[k] == forms2[k - |forms1|] && (ids1 + ids2)[k] == ids2[k - |forms1|];
      }
    }
  }

  /** One form gives its card when that card is complete, and nothing
      otherwise. */
  lemma BuildCardsOne(form: CardForm, id: CardId)
    ensures BuildCards([form], [id]) == if IsComplete(BuildCard(form, id)) then [BuildCard(form, id)] else []
  {
    assert Built([form], [id]) == [BuildCard(form, id)];
    KeepCompleteOne(BuildCard(form, id));
  }

  /** No complete card is lost and nothing else comes in: the kept cards
      are exactly the complete cards built from the forms. */
  lemma BuildCardsKeepsComplete(forms: seq<CardForm>, ids: seq<CardId>)
    requires |ids| == |forms|
    ensures forall k | 0 <= k < |forms| && IsComplete(BuildCard(forms[k], ids[k])) ::
      BuildCard(forms[k], ids[k]) in BuildCards(forms, ids)
    ensures forall c | c in BuildCards(forms, ids) :: exists k | 0 <= k < |forms| :: c == BuildCard(forms[k], ids[k])
  {
    var built := Built(forms, ids);
    assert forall k | 0 <= k < |forms| :: built[k] in built;
  }

  // ---------------------------------------------------------------------
  // Saving

  /** The learn state a re-saved deck starts from: all cards in bucket 0,
      followed by `maxBuckets - 1` empty buckets (none when the setting is
      missing or below 1), round 1. */
  function ResetLearnState(cards: seq<Card>, maxBuckets: Option<int>): (ls: LearnState)
    ensures ls.buckets.Some? && ls.currentRound == 1 && ls.maxBuckets == maxBuckets
    ensures var b := ls.buckets.value;
      && |b| == 1 + (if maxBuckets.Some? then MaxInt(maxBuckets.value - 1, 0) else 0)
      && b[0] == cards
      && (forall k | 1 <= k < |b| :: b[k] == [])
      && Study.TotalCards(b) == |cards|
  {
    var extra := if maxBuckets.Some? then MaxInt(maxBuckets.value - 1, 0) else 0;
    var empties: seq<seq<Card>> := seq(extra, _ => []);
    Study.SumAppend([cards], empties, b => |b|);
    Study.SumZero(empties, b => |b|);
    assert [cards][..0] == [];
    LearnState(Some([cards] + empties), 1, maxBuckets)
  }

  /** The review state a re-saved deck starts from. */
  function ResetReviewState(cards: seq<Card>): (rs: ReviewState)
    ensures rs.stillLearning == cards && rs.correct == [] && rs.lastRoundIncorrect == []
    ensures rs.currentRound == 1
    ensures |rs.stillLearning| + |rs.correct| == |cards|
  {
    ReviewState(cards, [], 1, [])
  }

  /** How a save ends: refused for a blank title or for no complete card,
      stopped by a current deck id that names no deck (reading a field of
      the missing deck throws), an existing deck updated, or a new deck to
      be created from the given fields. */
  datatype SaveOutcome =
    | MissingTitle
    | NoCompleteCards
    | DeckNotFound
    | DeckUpdated
    | CreateRequested(name: string, category: string, cards: seq<Card>, notes: string)

  /** The deck after a re-save. */
  function Resaved(deck: Deck, name: string, category: string, notes: string, cards: seq<Card>): (d: Deck)
    ensures d.name == name && d.category == category && d.notes == notes && d.cards == cards
    ensures d.learnState == Some(ResetLearnState(cards, deck.settings.maxBuckets))
    ensures && d.learnState.Some? && d.learnState.value.buckets.Some? && |d.learnState.value.buckets.value| >= 1
            && d.learnState.value.buckets.value[0] == cards
    ensures d.reviewState == Some(ResetReviewState(cards))
    ensures d == deck.(name := name, category := category, cards := cards, notes := notes,
                       learnState := d.learnState, reviewState := d.reviewState)
  {
    deck.(name := name, category := category, cards := cards, notes := notes,
          learnState := Some(ResetLearnState(cards, deck.settings.maxBuckets)),
          reviewState := Some(ResetReviewState(cards)))
  }

  /** `editorSaveDeck`: trim the title and notes; refuse a blank title;
      build the cards and refuse an empty list; then update the current deck
      in place, or hand the fields over for a new deck. The new card ids are
      passed in. */
  method EditorSaveDeck(app: AppState, title: string, category: string, notesText: string,
                        forms: seq<CardForm>, ids: seq<CardId>)
    returns (outcome: SaveOutcome)
    requires |ids| == |forms|
    modifies app`decks
    ensures outcome == SaveOutcomeFor(app.currentDeckId, old(app.decks).Keys, Text.Trim(title), category,
                                      Text.Trim(notesText), BuildCards(forms, ids))
    ensures outcome == DeckUpdated ==>
      app.decks == old(app.decks)[app.currentDeckId.value :=
        Resaved(old(app.decks)[app.currentDeckId.value], Text.Trim(title), category, Text.Trim(notesText),
                BuildCards(forms, ids))]
    ensures outcome != DeckUpdated ==> app.decks == old(app.decks)
  {
    var name := Text.Trim(title);
    var notes := Text.Trim(notesText);
    outcome := SaveTrimmed(app, name, category, notes, forms, ids);
  }

  /** `if (currentDeckId)`: a missing id and the empty id are both falsy. */
  predicate HasCurrentDeck(currentDeckId: Option<DeckId>)
  {
    currentDeckId.Some? && currentDeckId.value != ""
  }

  /** How a save with the given trimmed title, notes and built cards ends:
      a blank title is refused first, then an empty card list; a current
      deck id that names a stored deck updates it, one that names none
      stops the save, and without a current deck id a new deck is
      requested. */
  function SaveOutcomeFor(currentDeckId: Option<DeckId>, deckIds: set<DeckId>, name: string, category: string,
                          notes: string, cards: seq<Card>): (outcome: SaveOutcome)
    ensures outcome == MissingTitle <==> name == []
    ensures outcome == NoCompleteCards <==> name != [] && cards == []
    ensures outcome == DeckNotFound <==>
      name != [] && cards != [] && HasCurrentDeck(currentDeckId) && currentDeckId.value !in deckIds
    ensures outcome == DeckUpdated <==>
      name != [] && cards != [] && HasCurrentDeck(currentDeckId) && currentDeckId.value in deckIds
    ensures outcome.CreateRequested? <==> name != [] && cards != [] && !HasCurrentDeck(currentDeckId)
    ensures outcome.CreateRequested? ==> outcome == CreateRequested(name, category, cards, notes)
  {
    if name == [] then MissingTitle
    else if cards == [] then NoCompleteCards
    else if HasCurrentDeck(currentDeckId) then
      (if currentDeckId.value in deckIds then DeckUpdated else DeckNotFound)
    else CreateRequested(name, category, cards, notes)
  }

  /** The save after trimming. */
  method SaveTrimmed(app: AppState, name: string, category: string, notes: string,
                     forms: seq<CardForm>, ids: seq<CardId>)
    returns (outcome: SaveOutcome)
    requires |ids| == |forms|
    modifies app`decks
    ensures outcome == SaveOutcomeFor(app.currentDeckId, old(app.decks).Keys, name, category, notes,
                                      BuildCards(forms, ids))
    ensures outcome == DeckUpdated ==>
      app.decks == old(app.decks)[app.currentDeckId.value :=
        Resaved(old(app.decks)[app.currentDeckId.value], name, category, notes, BuildCards(forms, ids))]
    ensures outcome != DeckUpdated ==> app.decks == old(app.decks)
  {
    if name == [] {
      return MissingTitle;
    }
    var cards := BuildCards(forms, ids);
    if |cards| == 0 {
      return NoCompleteCards;
    }
    if app.currentDeckId.Some? && app.currentDeckId.value != "" {
      if app.currentDeckId.value !in app.decks {
        return DeckNotFound;
      }
      ResaveDeck(app, app.currentDeckId.value, name, category, notes, cards);
      return DeckUpdated;
    }
    return CreateRequested(name, category, cards, notes);
  }

  /** The in-place update of an existing deck: the new name, category,
      cards and notes, and freshly reset learn and review state. */
  method ResaveDeck(app: AppState, deckId: DeckId, name: string, category: string, notes: string,
                    cards: seq<Card>)
    requires deckId in app.decks
    modifies app`decks
    ensures app.decks == old(app.decks)[deckId := Resaved(old(app.decks)[deckId], name, category, notes, cards)]
  {
    var deck := app.decks[deckId];
    deck := deck.(name := name);
    deck := deck.(category := category);
    deck := deck.(cards := cards);
    deck := deck.(notes := notes);
    deck := deck.(learnState := Some(ResetLearnState(cards, deck.settings.maxBuckets)));
    deck := deck.(reviewState := Some(ResetReviewState(cards)));
    app.decks := app.decks[deckId := deck];
  }

  /** After a re-save every card of the deck sits in the first bucket, so a
      learn-mode answer about one of them finds it there; every card is new
      and waiting in review. */
  lemma ResavedDeckState(deck: Deck, name: string, category: string, notes: string, cards: seq<Card>, c: Card)
    requires c in cards
    ensures var d := Resaved(deck, name, category, notes, cards);
      && Study.FirstBucket(d.learnState.value.buckets.value, c.id) == 0
      && d.reviewState.value.stillLearning == cards && d.reviewState.value.correct == []
  {
    var b: seq<seq<Card>> := Resaved(deck, name, category, notes, cards).learnState.value.buckets.value;
    var k :| 0 <= k < |cards| && cards[k] == c;
    assert b[0][k].id == c.id;
  }
}
