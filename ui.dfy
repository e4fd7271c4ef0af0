/** The two pieces of state-keeping logic in the user interface: the deck
    progress figures shown on the dashboard, and the navigation history
    behind `showView` and `goBack`. Screen updates and animations are not
    modelled; a view switch takes effect at once. */
module Ui {
  import opened Common
  import opened Records
  import Study
  import CardEditor

  // ---------------------------------------------------------------------
  // Deck progress

  datatype DeckProgress = DeckProgress(total: nat, mastered: nat, progress: real)

  /** The number of cards in the mastered bucket `maxBuckets - 1`; 0 when
      the deck has no saved buckets, no `maxBuckets` setting, or no bucket
      at that index. */
  function MasteredCount(deck: Deck): nat
  {
    if deck.learnState.Some? && deck.learnState.value.buckets.Some? && deck.settings.maxBuckets.Some?
       && 0 <= deck.settings.maxBuckets.value - 1 < |deck.learnState.value.buckets.value|
    then |deck.learnState.value.buckets.value[deck.settings.maxBuckets.value - 1]|
    else 0
  }

  /** `updateDeckProgress`: the number of cards, the number mastered, and
      the mastered share as a percentage (0 for an empty deck). When the
      mastered bucket holds no more cards than the deck, the percentage
      lies in [0, 100], reaching 100 exactly when every card is mastered. */
  function UpdateDeckProgress(deck: Deck): (p: DeckProgress)
    ensures p.total == |deck.cards| && p.mastered == MasteredCount(deck)
    ensures p.total == 0 ==> p.progress == 0.0
    ensures p.mastered <= p.total ==> 0.0 <= p.progress <= 100.0
    ensures p.mastered <= p.total ==> (p.progress == 100.0 <==> p.total > 0 && p.mastered == p.total)
  {
    var totalCards := |deck.cards|;
    var masteredCards := MasteredCount(deck);
    var progress := if totalCards > 0 then Study.Percent(masteredCards, totalCards) else 0.0;
    DeckProgress(totalCards, masteredCards, progress)
  }

  /** A deck just re-saved in the editor, with at least two buckets, shows
      nothing mastered. */
  lemma ResavedDeckNothingMastered(deck: Deck, name: string, category: string, notes: string,
                                   cards: seq<Card>)
    requires deck.settings.maxBuckets.Some? && deck.settings.maxBuckets.value >= 2
    ensures UpdateDeckProgress(CardEditor.Resaved(deck, name, category, notes, cards)).mastered == 0
    ensures UpdateDeckProgress(CardEditor.Resaved(deck, name, category, notes, cards)).progress == 0.0
  {
    var d := CardEditor.Resaved(deck, name, category, notes, cards);
    var b := d.learnState.value.buckets.value;
    assert b[deck.settings.maxBuckets.value - 1] == [];
  }

  /** With four buckets and the card alone in the first one, three correct
      learn-mode answers put it in the bucket the dashboard counts as
      mastered. */
  lemma ThreePassesMaster(deck: Deck, card: Card)
    requires deck.settings.maxBuckets == Some(4)
    requires deck.learnState.Some? && deck.learnState.value.buckets.Some?
    requires var b := deck.learnState.value.buckets.value;
      |b| == 4 && Study.CountAll(b, card.id) == 1 && Study.FirstBucket(b, card.id) == 0
    ensures var b := deck.learnState.value.buckets.value;
      var b3 := Study.LearnMove(Study.LearnMove(Study.LearnMove(b, card, true, 4), card, true, 4), card, true, 4);
      MasteredCount(deck.(learnState := Some(deck.learnState.value.(buckets := Some(b3))))) >= 1
  {
    var b := deck.learnState.value.buckets.value;
    Study.FourBucketWalk(b, card);
    var b3 := Study.LearnMove(Study.LearnMove(Study.LearnMove(b, card, true, 4), card, true, 4), card, true, 4);
    assert Study.HasId(b3[3], card.id);
  }

  // ---------------------------------------------------------------------
  // View navigation

  /** The navigation state: the views there are, the view shown (empty
      for none) and the history of views to go back to, newest last. */
  class Navigator {
    const knownViews: set<string>
    var activeView: string
    var viewHistory: seq<string>

    /** The history and the shown view only name views that exist. */
    predicate Valid()
      reads this
    {
      (activeView == "" || activeView in knownViews)
      && forall k | 0 <= k < |viewHistory| :: viewHistory[k] in knownViews
    }

    constructor (views: set<string>)
      requires "dashboard" in views
      ensures knownViews == views && activeView == "dashboard" && viewHistory == []
      ensures Valid()
    {
      knownViews := views;
      activeView := "dashboard";
      viewHistory := [];
    }

    /** Whether the header's back button shows. */
    function BackVisible(): (visible: bool)
      reads this
      ensures visible <==> |viewHistory| > 0
    {
      |viewHistory| > 0
    }

    /** `showView`: an unknown view changes nothing. Otherwise a reset
        clears the history; without one, the view being left is pushed;
        then the new view is shown. */
    method ShowView(viewName: string, isReset: bool)
      requires Valid()
      modifies this
      ensures Valid()
      ensures viewName !in knownViews ==> activeView == old(activeView) && viewHistory == old(viewHistory)
      ensures viewName in knownViews ==> activeView == viewName
      ensures viewName in knownViews && isReset ==> viewHistory == []
      ensures viewName in knownViews && !isReset ==>
        viewHistory == old(viewHistory) + (if old(activeView) != "" then [old(activeView)] else [])
    {
      if viewName !in knownViews {
        return;
      }
      if isReset {
        viewHistory := [];
      }
      if !isReset && activeView != "" {
        viewHistory := viewHistory + [activeView];
      }
      activeView := viewName;
    }

    /** `goBack`: with no history nothing happens; otherwise the newest
        entry is popped and shown with a reset, which clears the rest of the
        history. */
    method GoBack()
      requires Valid()
      modifies this
      ensures Valid()
      ensures old(viewHistory) == [] ==> activeView == old(activeView) && viewHistory == []
      ensures old(viewHistory) != [] ==> activeView == old(viewHistory)[|old(viewHistory)| - 1] && viewHistory == []
      ensures !BackVisible()
    {
      if |viewHistory| == 0 {
        return;
      }
      var previousView := viewHistory[|viewHistory| - 1];
      viewHistory := viewHistory[..|viewHistory| - 1];
      ShowView(previousView, true);
    }
  }

  /** Leaving the dashboard for a known view and going back returns to the
      dashboard with the back button hidden. */
  method ShowThenBack(nav: Navigator, viewName: string)
    requires nav.Valid() && nav.activeView == "dashboard" && nav.viewHistory == []
    requires viewName in nav.knownViews
    modifies nav
    ensures nav.activeView == "dashboard" && nav.viewHistory == [] && !nav.BackVisible()
  {
    nav.ShowView(viewName, false);
    assert nav.BackVisible();
    nav.GoBack();
  }
}
