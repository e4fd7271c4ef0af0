/** Study sessions: the learn-mode bucket scheduler, the review-mode round
    scheduler, the spaced-repetition due filter, card moves after an answer,
    progress figures and the write-back of the session into the deck. */
module Study {
  import opened Common
  import opened Records
  import opened State
  import Utils
  import Sm2

  // ---------------------------------------------------------------------
  // Settings

  /** `{ ...DEFAULT_DECK_SETTINGS, ...(deck.settings || {}) }`: a key the
      deck sets wins, every other key takes its default. */
  function ApplyDefaults(p: SettingsPatch): (s: DeckSettings)
    ensures s.maxBuckets == OrElse(p.maxBuckets, 4)
    ensures s.cardsPerRound == OrElse(p.cardsPerRound, 10)
  {
    DeckSettings(
      learnMode := OrElse(p.learnMode, DefaultDeckSettings.learnMode),
      reviewOrder := OrElse(p.reviewOrder, DefaultDeckSettings.reviewOrder),
      cardsPerRound := OrElse(p.cardsPerRound, DefaultDeckSettings.cardsPerRound),
      maxBuckets := OrElse(p.maxBuckets, DefaultDeckSettings.maxBuckets),
      caseSensitive := OrElse(p.caseSensitive, DefaultDeckSettings.caseSensitive),
      punctuation := OrElse(p.punctuation, DefaultDeckSettings.punctuation),
      retypeIncorrect := OrElse(p.retypeIncorrect, DefaultDeckSettings.retypeIncorrect),
      feedbackStyle := OrElse(p.feedbackStyle, DefaultDeckSettings.feedbackStyle),
      forgivingAutomarking := OrElse(p.forgivingAutomarking, DefaultDeckSettings.forgivingAutomarking))
  }

  /** The merged settings stored back on the deck: every key present. */
  function ToPatch(s: DeckSettings): SettingsPatch
  {
    SettingsPatch(Some(s.learnMode), Some(s.reviewOrder), Some(s.cardsPerRound), Some(s.maxBuckets),
                  Some(s.caseSensitive), Some(s.punctuation), Some(s.retypeIncorrect),
                  Some(s.feedbackStyle), Some(s.forgivingAutomarking))
  }

  /** A deck without settings gets the defaults; merging a complete
      settings object keeps it as it is, so merging is idempotent. */
  lemma ApplyDefaultsProperties(p: SettingsPatch, s: DeckSettings)
    ensures ApplyDefaults(NoSettings) == DefaultDeckSettings
    ensures ApplyDefaults(ToPatch(s)) == s
    ensures ApplyDefaults(ToPatch(ApplyDefaults(p))) == ApplyDefaults(p)
  {
  }

  // ---------------------------------------------------------------------
  // Card lookup

  /** `cards.some(c => c.id === id)` */
  predicate HasId(cards: seq<Card>, id: CardId)
  {
    exists k | 0 <= k < |cards| :: cards[k].id == id
  }

  /** How many cards carry the id. */
  function CountId(cards: seq<Card>, id: CardId): nat
  {
    if |cards| == 0 then 0
    else CountId(cards[..|cards| - 1], id) + (if cards[|cards| - 1].id == id then 1 else 0)
  }

  lemma {:induction false} CountIdPositive(cards: seq<Card>, id: CardId)
    ensures CountId(cards, id) > 0 <==> HasId(cards, id)
  {
    if |cards| > 0 {
      var init := cards[..|cards| - 1];
      CountIdPositive(init, id);
      if HasId(init, id) {
        var k :| 0 <= k < |init| && init[k].id == id;
        assert cards[k].id == id;
      }
      if HasId(cards, id) && cards[|cards| - 1].id != id {
        var k :| 0 <= k < |cards| && cards[k].id == id;
        assert init[k].id == id;
      }
    }
  }

  lemma {:induction false} CountIdAppend(cards: seq<Card>, c: Card, id: CardId)
    ensures CountId(cards + [c], id) == CountId(cards, id) + (if c.id == id then 1 else 0)
  {
    assert (cards + [c])[..|cards|] == cards;
  }

  /** `cards.findIndex(c => c.id === id)`: the first position with the id,
      or -1. */
  function FindIndex(cards: seq<Card>, id: CardId): (r: int)
    ensures -1 <= r < |cards|
    ensures r == -1 <==> !HasId(cards, id)
    ensures r >= 0 ==> cards[r].id == id && forall k | 0 <= k < r :: cards[k].id != id
  {
    if |cards| == 0 then -1
    else if cards[0].id == id then 0
    else
      var r := FindIndex(cards[1..], id);
      assert forall k | 1 <= k < |cards| :: cards[k] == cards[1..][k - 1];
      if r == -1 then -1 else r + 1
  }

  /** `cards.filter(c => c.id !== id)`: every card with the id goes, the
      others stay in order. */
  function RemoveId(cards: seq<Card>, id: CardId): (r: seq<Card>)
    ensures |r| + CountId(cards, id) == |cards|
    ensures forall c :: c in r <==> c in cards && c.id != id
    ensures CountId(r, id) == 0
  {
    if |cards| == 0 then []
    else
      var init := cards[..|cards| - 1];
      var last := cards[|cards| - 1];
      var rest := RemoveId(init, id);
      CountIdAppend(rest, last, id);
      assert cards == init + [last];
      if last.id == id then rest else rest + [last]
  }

  // ---------------------------------------------------------------------
  // Bucket sums

  /** The sum of `f` over the buckets. */
  function Sum(buckets: seq<seq<Card>>, f: seq<Card> -> nat): nat
  {
    if |buckets| == 0 then 0 else Sum(buckets[..|buckets| - 1], f) + f(buckets[|buckets| - 1])
  }

  /** The number of cards over all buckets. */
  function TotalCards(buckets: seq<seq<Card>>): nat
  {
    Sum(buckets, b => |b|)
  }

  /** The number of copies of the id over all buckets. */
  function CountAll(buckets: seq<seq<Card>>, id: CardId): nat
  {
    Sum(buckets, b => CountId(b, id))
  }

  lemma {:induction false} SumUpdate(buckets: seq<seq<Card>>, f: seq<Card> -> nat, k: nat, b: seq<Card>)
    requires k < |buckets|
    ensures Sum(buckets[k := b], f) + f(buckets[k]) == Sum(buckets, f) + f(b)
  {
    var n := |buckets|;
    if k < n - 1 {
      assert buckets[k := b][..n - 1] == buckets[..n - 1][k := b];
      SumUpdate(buckets[..n - 1], f, k, b);
    } else {
      assert buckets[k := b][..n - 1] == buckets[..n - 1];
    }
  }

  lemma {:induction false} SumAtLeast(buckets: seq<seq<Card>>, f: seq<Card> -> nat, k: nat)
    requires k < |buckets|
    ensures f(buckets[k]) <= Sum(buckets, f)
  {
    if k < |buckets| - 1 {
      SumAtLeast(buckets[..|buckets| - 1], f, k);
    }
  }

  lemma {:induction false} SumAppend(buckets: seq<seq<Card>>, more: seq<seq<Card>>, f: seq<Card> -> nat)
    ensures Sum(buckets + more, f) == Sum(buckets, f) + Sum(more, f)
    decreases |more|
  {
    if |more| > 0 {
      var n := |more|;
      assert (buckets + more)[..|buckets| + n - 1] == buckets + more[..n - 1];
      SumAppend(buckets, more[..n - 1], f);
    } else {
      assert buckets + more == buckets;
    }
  }

  // ---------------------------------------------------------------------
  // Learn mode: the bucket scheduler

  /** The lowest-index bucket that holds a card with the id, or -1. */
  function FirstBucket(buckets: seq<seq<Card>>, id: CardId): (r: int)
    ensures -1 <= r < |buckets|
    ensures r == -1 <==> forall k | 0 <= k < |buckets| :: !HasId(buckets[k], id)
    ensures r >= 0 ==> HasId(buckets[r], id) && forall k | 0 <= k < r :: !HasId(buckets[k], id)
  {
    if |buckets| == 0 then -1
    else if HasId(buckets[0], id) then 0
    else
      var r := FirstBucket(buckets[1..], id);
      assert forall k | 1 <= k < |buckets| :: buckets[k] == buckets[1..][k - 1];
      if r == -1 then -1 else r + 1
  }

  /** The scan of `moveCardInLearnMode`: bucket by bucket, stopping at the
      first one that holds the card. */
  method FindBucket(buckets: seq<seq<Card>>, id: CardId) returns (index: int)
    ensures index == FirstBucket(buckets, id)
  {
    index := -1;
    var i := 0;
    while i < |buckets|
      invariant 0 <= i <= |buckets|
      invariant forall k | 0 <= k < i :: !HasId(buckets[k], id)
    {
      if HasId(buckets[i], id) {
        index := i;
        break;
      }
      i := i + 1;
    }
  }

  /** The bucket a card moves to from bucket `i`: one up on a correct
      answer, capped at the mastered bucket `maxBuckets - 1`; one down on a
      wrong answer, floored at bucket 0. */
  function TargetBucket(i: nat, correct: bool, maxBuckets: int): (t: int)
    requires maxBuckets >= 1
    ensures 0 <= t
    ensures i < maxBuckets ==> t < maxBuckets
    ensures t <= i + 1 && (t >= i - 1 || t == maxBuckets - 1)
    ensures correct && i < maxBuckets - 1 ==> t == i + 1
    ensures !correct && i > 0 ==> t == i - 1
  {
    if correct then MinInt(i + 1, maxBuckets - 1) else MaxInt(i - 1, 0)
  }

  /** One learn-mode answer: take every copy of the card out of the first
      bucket holding it, and append the card to the target bucket. Nothing
      changes when no bucket holds it. The source indexes the target bucket
      without a check, so there must be at least `maxBuckets` of them. */
  function LearnMove(buckets: seq<seq<Card>>, card: Card, correct: bool, maxBuckets: int): (r: seq<seq<Card>>)
    requires 1 <= maxBuckets <= |buckets|
    ensures |r| == |buckets|
  {
    var i := FirstBucket(buckets, card.id);
    if i == -1 then buckets
    else
      var removed := buckets[i := RemoveId(buckets[i], card.id)];
      var t := TargetBucket(i, correct, maxBuckets);
      removed[t := removed[t] + [card]]
  }

  /** Only the source and target buckets change: the source loses the
      card, the target gets it at its tail. */
  lemma LearnMoveFrame(buckets: seq<seq<Card>>, card: Card, correct: bool, maxBuckets: int)
    requires 1 <= maxBuckets <= |buckets|
    ensures var i := FirstBucket(buckets, card.id);
      var r := LearnMove(buckets, card, correct, maxBuckets);
      && (i == -1 ==> r == buckets)
      && (i >= 0 ==>
            var t := TargetBucket(i, correct, maxBuckets);
            && (forall k | 0 <= k < |buckets| && k != i && k != t :: r[k] == buckets[k])
            && r[t] == (if t == i then RemoveId(buckets[i], card.id) else buckets[t]) + [card]
            && (t != i ==> r[i] == RemoveId(buckets[i], card.id) && !HasId(r[i], card.id)))
  {
    var i := FirstBucket(buckets, card.id);
    if i >= 0 {
      var removed := buckets[i := RemoveId(buckets[i], card.id)];
      var t := TargetBucket(i, correct, maxBuckets);
      var r := removed[t := removed[t] + [card]];
      assert r == LearnMove(buckets, card, correct, maxBuckets);
      if t != i {
        CountIdPositive(r[i], card.id);
      }
    }
  }

  /** With unique card ids the move conserves the number of cards. */
  lemma LearnMoveConserves(buckets: seq<seq<Card>>, card: Card, correct: bool, maxBuckets: int)
    requires 1 <= maxBuckets <= |buckets|
    requires CountAll(buckets, card.id) <= 1
    ensures TotalCards(LearnMove(buckets, card, correct, maxBuckets)) == TotalCards(buckets)
  {
    var i := FirstBucket(buckets, card.id);
    if i >= 0 {
      var f := (b: seq<Card>) => |b|;
      var g := (b: seq<Card>) => CountId(b, card.id);
      CountIdPositive(buckets[i], card.id);
      SumAtLeast(buckets, g, i);
      var removed := buckets[i := RemoveId(buckets[i], card.id)];
      SumUpdate(buckets, f, i, RemoveId(buckets[i], card.id));
      var t := TargetBucket(i, correct, maxBuckets);
      SumUpdate(removed, f, t, removed[t] + [card]);
    }
  }

  /** A card held exactly once ends up held exactly once, in the target
      bucket, which the next scan then finds first. */
  lemma LearnMoveRelocates(buckets: seq<seq<Card>>, card: Card, correct: bool, maxBuckets: int)
    requires 1 <= maxBuckets <= |buckets|
    requires CountAll(buckets, card.id) == 1
    ensures FirstBucket(buckets, card.id) >= 0
    ensures var r := LearnMove(buckets, card, correct, maxBuckets);
      && FirstBucket(r, card.id) == TargetBucket(FirstBucket(buckets, card.id), correct, maxBuckets)
      && CountAll(r, card.id) == 1
  {
    var id := card.id;
    var i := FirstBucket(buckets, id);
    if i == -1 {
      AbsentCountsZero(buckets, id);
      assert false;
    }
    var removed := buckets[i := RemoveId(buckets[i], id)];
    RemoveOnlyCopy(buckets, id, i);
    ZeroCountAbsent(removed, id);
    var t := TargetBucket(i, correct, maxBuckets);
    var r := removed[t := removed[t] + [card]];
    AddOneCopy(removed, card, t);
    assert r == LearnMove(buckets, card, correct, maxBuckets);
    CountIdPositive(r[t], id);
  }

  /** No bucket holds the id: it is counted zero times. */
  lemma AbsentCountsZero(buckets: seq<seq<Card>>, id: CardId)
    requires FirstBucket(buckets, id) == -1
    ensures CountAll(buckets, id) == 0
  {
    var g := (b: seq<Card>) => CountId(b, id);
    forall k | 0 <= k < |buckets| ensures g(buckets[k]) == 0 {
      CountIdPositive(buckets[k], id);
    }
    SumZero(buckets, g);
  }

  /** Counted zero times: no bucket holds the id. */
  lemma ZeroCountAbsent(buckets: seq<seq<Card>>, id: CardId)
    requires CountAll(buckets, id) == 0
    ensures FirstBucket(buckets, id) == -1
  {
    var g := (b: seq<Card>) => CountId(b, id);
    SumIsZero(buckets, g);
    forall k | 0 <= k < |buckets| ensures !HasId(buckets[k], id) {
      CountIdPositive(buckets[k], id);
    }
  }

  /** Filtering the id out of the bucket that holds its only copy leaves
      none. */
  lemma RemoveOnlyCopy(buckets: seq<seq<Card>>, id: CardId, i: nat)
    requires i < |buckets| && HasId(buckets[i], id) && CountAll(buckets, id) == 1
    ensures CountAll(buckets[i := RemoveId(buckets[i], id)], id) == 0
  {
    var g := (b: seq<Card>) => CountId(b, id);
    CountIdPositive(buckets[i], id);
    SumAtLeast(buckets, g, i);
    SumUpdate(buckets, g, i, RemoveId(buckets[i], id));
  }

  /** Appending the card to a bucket of a table without it leaves exactly
      one copy, which the scan finds in that bucket. */
  lemma AddOneCopy(buckets: seq<seq<Card>>, card: Card, t: nat)
    requires t < |buckets| && FirstBucket(buckets, card.id) == -1
    ensures var r := buckets[t := buckets[t] + [card]];
      CountAll(r, card.id) == 1 && FirstBucket(r, card.id) == t
  {
    var id := card.id;
    var g := (b: seq<Card>) => CountId(b, id);
    var r := buckets[t := buckets[t] + [card]];
    AbsentCountsZero(buckets, id);
    CountIdPositive(buckets[t], id);
    CountIdAppend(buckets[t], card, id);
    SumUpdate(buckets, g, t, buckets[t] + [card]);
    CountIdPositive(r[t], id);
  }

  lemma {:induction false} SumZero(buckets: seq<seq<Card>>, f: seq<Card> -> nat)
    requires forall k | 0 <= k < |buckets| :: f(buckets[k]) == 0
    ensures Sum(buckets, f) == 0
  {
    if |buckets| > 0 {
      SumZero(buckets[..|buckets| - 1], f);
    }
  }

  lemma SumIsZero(buckets: seq<seq<Card>>, f: seq<Card> -> nat)
    requires Sum(buckets, f) == 0
    ensures forall k | 0 <= k < |buckets| :: f(buckets[k]) == 0
  {
    forall k | 0 <= k < |buckets| ensures f(buckets[k]) == 0 {
      SumAtLeast(buckets, f, k);
    }
  }

  /** With four buckets, a card starting alone in "Learning" reaches
      "Mastered" after three correct answers and drops back to bucket 2
      after one wrong answer. */
  lemma FourBucketWalk(buckets: seq<seq<Card>>, card: Card)
    requires |buckets| == 4
    requires CountAll(buckets, card.id) == 1 && FirstBucket(buckets, card.id) == 0
    ensures var b1 := LearnMove(buckets, card, true, 4);
      var b2 := LearnMove(b1, card, true, 4);
      var b3 := LearnMove(b2, card, true, 4);
      var b4 := LearnMove(b3, card, false, 4);
      FirstBucket(b1, card.id) == 1 && FirstBucket(b2, card.id) == 2
      && FirstBucket(b3, card.id) == 3 && FirstBucket(b4, card.id) == 2
  {
    var b1 := LearnMove(buckets, card, true, 4);
    LearnMoveRelocates(buckets, card, true, 4);
    var b2 := LearnMove(b1, card, true, 4);
    LearnMoveRelocates(b1, card, true, 4);
    var b3 := LearnMove(b2, card, true, 4);
    LearnMoveRelocates(b2, card, true, 4);
    LearnMoveRelocates(b3, card, false, 4);
  }

  /** `buckets` followed by empty buckets up to `maxBuckets`; never shorter
      than `buckets`. */
  function Padded(buckets: seq<seq<Card>>, maxBuckets: int): (r: seq<seq<Card>>)
    ensures |r| == MaxInt(|buckets|, maxBuckets)
    ensures r[..|buckets|] == buckets
    ensures forall k | |buckets| <= k < |r| :: r[k] == []
    ensures TotalCards(r) == TotalCards(buckets)
  {
    var extra := seq(MaxInt(maxBuckets - |buckets|, 0), _ => []);
    SumAppend(buckets, extra, b => |b|);
    SumZero(extra, b => |b|);
    buckets + extra
  }

  /** The padding loop of `startLearnMode`: push empty buckets while there
      are fewer than `maxBuckets`. */
  method PadBuckets(buckets: seq<seq<Card>>, maxBuckets: int) returns (padded: seq<seq<Card>>)
    ensures padded == Padded(buckets, maxBuckets)
  {
    padded := buckets;
    while |padded| < maxBuckets
      invariant |buckets| <= |padded| <= MaxInt(|buckets|, maxBuckets)
      invariant padded[..|buckets|] == buckets
      invariant forall k | |buckets| <= k < |padded| :: padded[k] == []
      decreases maxBuckets - |padded|
    {
      padded := padded + [[]];
    }
    assert padded == Padded(buckets, maxBuckets);
  }

  // ---------------------------------------------------------------------
  // Learn progress

  /** The progress points: each card counts its bucket index. */
  function Points(buckets: seq<seq<Card>>): nat
  {
    if |buckets| == 0 then 0
    else Points(buckets[..|buckets| - 1]) + |buckets[|buckets| - 1]| * (|buckets| - 1)
  }

  lemma {:induction false} PointsBound(buckets: seq<seq<Card>>)
    ensures Points(buckets) <= MaxInt(|buckets| - 1, 0) * TotalCards(buckets)
  {
    if |buckets| > 1 {
      var n := |buckets|;
      var init := buckets[..n - 1];
      var last := |buckets[n - 1]|;
      var t := TotalCards(init);
      PointsBound(init);
      assert TotalCards(buckets) == t + last;
      assert Points(buckets) == Points(init) + last * (n - 1);
      MulMonotoneLeft(n - 2, n - 1, t);
      MulDistributes(n - 1, t, last);
    } else if |buckets| == 1 {
      assert buckets[..0] == [];
    }
  }

  lemma MulMonotoneLeft(a: nat, b: nat, c: nat)
    ensures a <= b ==> a * c <= b * c
  {
  }

  lemma MulDistributes(a: int, b: int, c: int)
    ensures a * (b + c) == a * b + c * a
  {
  }

  /** `updateLearnProgress` as written: progress points over
      `total * (maxBuckets - 1)`, as a percentage; 0 when that is 0. */
  function LearnProgressAsWritten(buckets: seq<seq<Card>>, maxBuckets: int, total: nat): (p: real)
    ensures 0.0 <= p
    ensures total == 0 || maxBuckets <= 1 ==> p == 0.0
  {
    var maxPoints := if total > 0 then total * (maxBuckets - 1) else 0;
    if maxPoints > 0 then Points(buckets) as real / maxPoints as real * 100.0 else 0.0
  }

  /** A deck whose saved state kept a third bucket after `maxBuckets` was
      lowered to 2: its one card sits in that bucket and the progress bar
      reads 200%. */
  lemma LearnProgressOverflows(card: Card)
    ensures LearnProgressAsWritten([[], [], [card]], 2, 1) == 200.0
  {
    var empty: seq<Card> := [];
    assert [empty][..0] == [];
    assert Points([empty]) == 0;
    assert [empty, empty][..1] == [empty];
    assert Points([empty, empty]) == 0;
    assert [empty, empty, [card]][..2] == [empty, empty];
    assert Points([empty, empty, [card]]) == 2;
  }

  /** The progress points with every bucket at or above the mastered one
      counted as mastered. */
  function CappedPoints(buckets: seq<seq<Card>>, maxBuckets: int): nat
  {
    if |buckets| == 0 then 0
    else CappedPoints(buckets[..|buckets| - 1], maxBuckets)
         + |buckets[|buckets| - 1]| * MaxInt(MinInt(|buckets| - 1, maxBuckets - 1), 0)
  }

  lemma {:induction false} CappedPointsBound(buckets: seq<seq<Card>>, maxBuckets: int)
    ensures CappedPoints(buckets, maxBuckets) <= MaxInt(maxBuckets - 1, 0) * TotalCards(buckets)
  {
    if |buckets| > 0 {
      var n := |buckets|;
      CappedPointsBound(buckets[..n - 1], maxBuckets);
      var w := MaxInt(MinInt(n - 1, maxBuckets - 1), 0);
      assert w <= MaxInt(maxBuckets - 1, 0);
      assert |buckets[n - 1]| * w <= |buckets[n - 1]| * MaxInt(maxBuckets - 1, 0);
    }
  }

  /** When no bucket lies past the mastered one, the capped points are the
      points the source computes. */
  lemma {:induction false} CappedPointsAgree(buckets: seq<seq<Card>>, maxBuckets: int)
    ensures |buckets| <= maxBuckets ==> CappedPoints(buckets, maxBuckets) == Points(buckets)
  {
    if 0 < |buckets| <= maxBuckets {
      CappedPointsAgree(buckets[..|buckets| - 1], maxBuckets);
    }
  }

  /** Learn progress with the bucket weight capped at the mastered bucket.
      It is never negative, never exceeds 100 while `total` counts at least
      the cards in the buckets, and agrees with the source whenever there
      are no more buckets than `maxBuckets`. */
  function LearnProgress(buckets: seq<seq<Card>>, maxBuckets: int, total: nat): (p: real)
    ensures 0.0 <= p
    ensures TotalCards(buckets) <= total ==> p <= 100.0
    ensures |buckets| <= maxBuckets ==> p == LearnProgressAsWritten(buckets, maxBuckets, total)
  {
    CappedPointsAgree(buckets, maxBuckets);
    var maxPoints := if total > 0 then total * (maxBuckets - 1) else 0;
    if maxPoints > 0 then
      CappedWithinMaxPoints(buckets, maxBuckets, total);
      Percent(CappedPoints(buckets, maxBuckets), maxPoints)
    else 0.0
  }

  /** While `total` counts every card in the buckets, the capped points
      stay within `total * (maxBuckets - 1)`. */
  lemma CappedWithinMaxPoints(buckets: seq<seq<Card>>, maxBuckets: int, total: nat)
    requires 0 < total * (maxBuckets - 1)
    ensures TotalCards(buckets) <= total ==> CappedPoints(buckets, maxBuckets) <= total * (maxBuckets - 1)
  {
    if maxBuckets - 1 <= 0 {
      assert false;
    }
    CappedPointsBound(buckets, maxBuckets);
    MulMonotone(maxBuckets - 1, TotalCards(buckets), total);
    assert (maxBuckets - 1) * total == total * (maxBuckets - 1);
  }

  lemma MulMonotone(a: nat, b: nat, c: nat)
    ensures b <= c ==> a * b <= a * c
  {
  }

  /** `part / whole * 100`: never negative, at most 100 for a part of the
      whole, exactly 100 for the whole. */
  function Percent(part: nat, whole: nat): (p: real)
    requires 0 < whole
    ensures 0.0 <= p
    ensures part <= whole ==> p <= 100.0
    ensures p == 100.0 <==> part == whole
    ensures p == 0.0 <==> part == 0
    ensures p == part as real / whole as real * 100.0
  {
    ShareAgainstOne(part, whole);
    part as real / whole as real * 100.0
  }

  /** The share `part / whole` lies on the same side of 1 as `part` does of
      `whole`. */
  lemma ShareAgainstOne(part: nat, whole: nat)
    requires 0 < whole
    ensures part <= whole ==> part as real / whole as real <= 1.0
    ensures part < whole ==> part as real / whole as real < 1.0
    ensures part > whole ==> part as real / whole as real > 1.0
  {
    var q, w := part as real / whole as real, whole as real;
    assert (q - 1.0) * w == part as real - w;
    if q > 1.0 {
      assert (q - 1.0) * w > 0.0;
    } else if q < 1.0 {
      assert (1.0 - q) * w > 0.0;
    }
  }

  /** Source progress is bounded by 100% whenever no bucket lies past the
      mastered one and the deck holds every card in the buckets. */
  lemma LearnProgressBounded(buckets: seq<seq<Card>>, maxBuckets: int, total: nat)
    requires |buckets| <= maxBuckets && TotalCards(buckets) <= total
    ensures 0.0 <= LearnProgressAsWritten(buckets, maxBuckets, total) <= 100.0
  {
    var p := LearnProgress(buckets, maxBuckets, total);
  }

  /** `updateReviewProgress`: the share of the deck's cards answered
      correctly, as a percentage; 0 for an empty deck. */
  function ReviewProgress(correctCount: nat, total: nat): (p: real)
    ensures 0.0 <= p
    ensures correctCount <= total ==> p <= 100.0
    ensures p == 100.0 <==> total > 0 && correctCount == total
    ensures total > 0 ==> (p == 0.0 <==> correctCount == 0)
  {
    if total > 0 then Percent(correctCount, total) else 0.0
  }

  /** While the review pools hold the deck's cards, review progress stays
      within [0, 100], and it starts at 0. */
  lemma ReviewProgressBounded(st: StudyState, deckCards: seq<Card>)
    requires |st.stillLearning| + |st.correct| == |deckCards|
    ensures 0.0 <= ReviewProgress(|st.correct|, |deckCards|) <= 100.0
    ensures st.correct == [] ==> ReviewProgress(|st.correct|, |deckCards|) == 0.0
  {
  }

  // ---------------------------------------------------------------------
  // Review mode: the round scheduler

  /** One review-mode answer. A correct answer moves the card from
      `stillLearning` to the end of `correct`; a wrong one records it in
      `lastRoundIncorrect` and leaves it in `stillLearning`; a card not in
      `stillLearning` changes nothing. */
  function ReviewMove(s: StudyState, card: Card, correct: bool): (r: StudyState)
    ensures |r.stillLearning| + |r.correct| == |s.stillLearning| + |s.correct|
    ensures !HasId(s.stillLearning, card.id) ==> r == s
    ensures HasId(s.stillLearning, card.id) && correct ==>
      var i := FindIndex(s.stillLearning, card.id);
      && multiset(r.stillLearning) + multiset{s.stillLearning[i]} == multiset(s.stillLearning)
      && r == s.(stillLearning := s.stillLearning[..i] + s.stillLearning[i + 1..], correct := s.correct + [card])
    ensures HasId(s.stillLearning, card.id) && !correct ==>
      r == s.(lastRoundIncorrect := s.lastRoundIncorrect + [card])
  {
    var index := FindIndex(s.stillLearning, card.id);
    if index == -1 then s
    else if correct then
      var sl := s.stillLearning;
      assert sl == sl[..index] + [sl[index]] + sl[index + 1..];
      s.(stillLearning := sl[..index] + sl[index + 1..], correct := s.correct + [card])
    else s.(lastRoundIncorrect := s.lastRoundIncorrect + [card])
  }

  // ---------------------------------------------------------------------
  // Spaced mode: due cards

  /** A card is due when it has never been scheduled or its due day has
      come. */
  predicate IsDue(card: Card, now: int)
    ensures card.sm2.None? ==> IsDue(card, now)
  {
    card.sm2.None? || card.sm2.value.dueDate <= now
  }

  /** A due card stays due on every later day. */
  lemma DueStaysDue(card: Card, now: int, later: int)
    requires now <= later && IsDue(card, now)
    ensures IsDue(card, later)
  {
  }

  /** The due filter of `startSpacedLearning`, in deck order. */
  function DueCards(cards: seq<Card>, now: int): (r: seq<Card>)
    ensures |r| <= |cards|
    ensures forall c :: c in r <==> c in cards && IsDue(c, now)
  {
    if |cards| == 0 then []
    else
      var init := cards[..|cards| - 1];
      var last := cards[|cards| - 1];
      assert cards == init + [last];
      DueCards(init, now) + (if IsDue(last, now) then [last] else [])
  }

  /** A card that has just been reviewed is not due again the same day. */
  lemma ReviewedNotDue(card: Card, quality: int, now: int)
    requires Sm2.Reachable(Sm2.StartData(card, now))
    ensures !IsDue(card.(sm2 := Some(Sm2.NextReview(Sm2.StartData(card, now), quality, now))), now)
  {
    Sm2.ReviewedCardNotDueToday(Sm2.StartData(card, now), quality, now);
  }

  // ---------------------------------------------------------------------
  // Writing the session back into the deck

  /** `cardInDeck.isNew = false` on the first card with the id. */
  function MarkSeen(cards: seq<Card>, id: CardId): (r: seq<Card>)
    ensures |r| == |cards|
    ensures forall k | 0 <= k < |cards| :: r[k].id == cards[k].id
    ensures forall k | 0 <= k < |cards| && k != FindIndex(cards, id) :: r[k] == cards[k]
    ensures FindIndex(cards, id) >= 0 ==>
      var k := FindIndex(cards, id);
      r[k] == cards[k].(isNew := false) && !r[k].isNew
  {
    var k := FindIndex(cards, id);
    if k == -1 then cards else cards[k := cards[k].(isNew := false)]
  }

  /** `saveStudyProgress` on the in-memory decks: in learn mode the buckets,
      in review mode the pools, go into the current deck's saved state. */
  function SaveProgress(decks: map<DeckId, Deck>, deckId: Option<DeckId>, mode: Option<Mode>,
                        st: StudyState): (r: map<DeckId, Deck>)
    ensures r.Keys == decks.Keys
    ensures forall id | id in decks && Some(id) != deckId :: r[id] == decks[id]
    ensures forall id | id in decks :: r[id].cards == decks[id].cards
    ensures deckId.None? || deckId == Some("") || mode !in {Some(Learn), Some(Review)} ==> r == decks
    ensures deckId.Some? && deckId.value in decks && deckId.value != "" && mode == Some(Learn) ==>
      var maxBuckets := if st.settings.Some? then Some(st.settings.value.maxBuckets) else None;
      r[deckId.value] == decks[deckId.value].(learnState := Some(LearnState(Some(st.buckets), st.currentRound, maxBuckets)))
    ensures deckId.Some? && deckId.value in decks && deckId.value != "" && mode == Some(Review) ==>
      r[deckId.value] == decks[deckId.value].(reviewState :=
        Some(ReviewState(st.stillLearning, st.correct, st.currentRound, st.lastRoundIncorrect)))
  {
    if deckId.None? || deckId.value == "" || deckId.value !in decks then decks
    else
      var deck := decks[deckId.value];
      if mode == Some(Learn) then
        var maxBuckets := if st.settings.Some? then Some(st.settings.value.maxBuckets) else None;
        decks[deckId.value := deck.(learnState := Some(LearnState(Some(st.buckets), st.currentRound, maxBuckets)))]
      else if mode == Some(Review) then
        decks[deckId.value := deck.(reviewState :=
          Some(ReviewState(st.stillLearning, st.correct, st.currentRound, st.lastRoundIncorrect)))]
      else decks
  }

  method SaveStudyProgress(app: AppState)
    modifies app`decks
    ensures app.decks == SaveProgress(old(app.decks), app.currentDeckId, app.currentMode, app.studyState)
  {
    if app.currentDeckId.None? || app.currentDeckId.value == "" {
      return;
    }
    var deckId := app.currentDeckId.value;
    if deckId !in app.decks {
      return;
    }
    var deck := app.decks[deckId];
    var st := app.studyState;
    if app.currentMode == Some(Learn) {
      var maxBuckets := if st.settings.Some? then Some(st.settings.value.maxBuckets) else None;
      deck := deck.(learnState := Some(LearnState(Some(st.buckets), st.currentRound, maxBuckets)));
    } else if app.currentMode == Some(Review) {
      deck := deck.(reviewState := Some(ReviewState(st.stillLearning, st.correct, st.currentRound, st.lastRoundIncorrect)));
    }
    app.decks := app.decks[deckId := deck];
  }

  // ---------------------------------------------------------------------
  // Starting a session

  /** The learn state `startLearnMode` leaves on the deck: the saved one,
      or one bucket holding every card in round 1 when none is saved, with
      its buckets padded up to `maxBuckets`. */
  function LearnStart(deck: Deck, settings: DeckSettings): (saved: LearnState)
    ensures saved.buckets.Some? && |saved.buckets.value| >= settings.maxBuckets
    ensures deck.learnState.None? || deck.learnState.value.buckets.None? ==>
      saved.currentRound == 1 && saved.buckets.value == Padded([deck.cards], settings.maxBuckets)
    ensures deck.learnState.Some? && deck.learnState.value.buckets.Some? ==>
      saved == deck.learnState.value.(buckets := Some(Padded(deck.learnState.value.buckets.value, settings.maxBuckets)))
  {
    var saved := if deck.learnState.None? || deck.learnState.value.buckets.None?
                 then LearnState(Some([deck.cards]), 1, Some(settings.maxBuckets))
                 else deck.learnState.value;
    saved.(buckets := Some(Padded(saved.buckets.value, settings.maxBuckets)))
  }

  /** `startLearnMode`: a deck with no saved buckets starts with one bucket
      holding all its cards; the buckets are then padded up to
      `maxBuckets` (never trimmed) and copied into the session. */
  method StartLearnMode(app: AppState, deckId: DeckId, settings: DeckSettings, now: int)
    requires deckId in app.decks
    modifies app`decks, app`studyState
    ensures var deck := old(app.decks)[deckId];
      var saved := LearnStart(deck, settings);
      && app.decks == old(app.decks)[deckId := deck.(learnState := Some(saved))]
      && app.studyState == old(app.studyState).(
           buckets := saved.buckets.value,
           currentRound := if saved.currentRound == 0 then 1 else saved.currentRound,
           settings := Some(settings),
           startTime := Some(now))
  {
    var deck := app.decks[deckId];
    var saved: LearnState;
    if deck.learnState.None? || deck.learnState.value.buckets.None? {
      saved := LearnState(Some([deck.cards]), 1, Some(settings.maxBuckets));
    } else {
      saved := deck.learnState.value;
    }
    var buckets := PadBuckets(saved.buckets.value, settings.maxBuckets);
    saved := saved.(buckets := Some(buckets));
    app.decks := app.decks[deckId := deck.(learnState := Some(saved))];
    app.studyState := app.studyState.(
      buckets := buckets,
      currentRound := if saved.currentRound == 0 then 1 else saved.currentRound,
      settings := Some(settings),
      startTime := Some(now));
  }

  /** `startReviewMode`: every card of the deck still to learn, none
      correct, round 1. */
  method StartReviewMode(app: AppState, deckId: DeckId, settings: DeckSettings, now: int)
    requires deckId in app.decks
    modifies app`studyState
    ensures app.studyState == old(app.studyState).(
      settings := Some(settings),
      startTime := Some(now),
      stillLearning := app.decks[deckId].cards,
      correct := [],
      currentRound := 1,
      lastRoundIncorrect := [])
  {
    app.studyState := app.studyState.(
      settings := Some(settings),
      startTime := Some(now),
      stillLearning := app.decks[deckId].cards,
      correct := [],
      currentRound := 1,
      lastRoundIncorrect := []);
  }

  /** `startSpacedLearning`: the due cards in shuffled order; with no card
      due, no session starts and nothing changes. */
  method StartSpacedLearning(app: AppState, deckId: DeckId, settings: DeckSettings, now: int, draws: seq<real>)
    returns (started: bool)
    requires deckId in app.decks
    requires Utils.ValidDraws(draws, |app.decks[deckId].cards|)
    modifies app`studyState
    ensures var due := DueCards(app.decks[deckId].cards, now);
      && started == (|due| > 0)
      && (!started ==> app.studyState == old(app.studyState))
      && (started ==>
            && multiset(app.studyState.roundCards) == multiset(due)
            && app.studyState == old(app.studyState).(
                 roundCards := app.studyState.roundCards,
                 currentCardIndex := 0,
                 settings := Some(settings),
                 startTime := Some(now)))
  {
    var due := DueCards(app.decks[deckId].cards, now);
    if |due| == 0 {
      return false;
    }
    var roundCards := Utils.ShuffleArray(due, draws);
    app.studyState := app.studyState.(
      roundCards := roundCards,
      currentCardIndex := 0,
      settings := Some(settings),
      startTime := Some(now));
    return true;
  }

  /** `startStudySession`: remember the deck and the mode, merge the
      default settings into the deck, and start the chosen mode. An unknown
      deck stops after the first two steps. */
  method StartStudySession(app: AppState, deckId: DeckId, mode: Mode, now: int, draws: seq<real>)
    requires deckId in app.decks ==> Utils.ValidDraws(draws, |app.decks[deckId].cards|)
    modifies app`currentDeckId, app`currentMode, app`decks, app`studyState
    ensures app.currentDeckId == Some(deckId) && app.currentMode == Some(mode)
    ensures deckId !in old(app.decks) ==> app.decks == old(app.decks) && app.studyState == old(app.studyState)
    ensures deckId in old(app.decks) ==>
      && deckId in app.decks
      && app.decks[deckId].settings == ToPatch(ApplyDefaults(old(app.decks)[deckId].settings))
      && app.decks[deckId].cards == old(app.decks)[deckId].cards
      && (forall id | id in old(app.decks) && id != deckId :: id in app.decks && app.decks[id] == old(app.decks)[id])
      && (mode == Learn ==> app.studyState.settings == Some(ApplyDefaults(old(app.decks)[deckId].settings)))
      && (mode == Review ==> app.studyState.stillLearning == old(app.decks)[deckId].cards
                             && app.studyState.correct == [] && app.studyState.currentRound == 1)
    ensures deckId in old(app.decks) ==>
      var settings := ApplyDefaults(old(app.decks)[deckId].settings);
      var deck := old(app.decks)[deckId].(settings := ToPatch(settings));
      var saved := LearnStart(deck, settings);
      var due := DueCards(deck.cards, now);
      && (mode == Learn ==>
            && app.decks == old(app.decks)[deckId := deck.(learnState := Some(saved))]
            && app.studyState == old(app.studyState).(
                 buckets := saved.buckets.value,
                 currentRound := if saved.currentRound == 0 then 1 else saved.currentRound,
                 settings := Some(settings),
                 startTime := Some(now)))
      && (mode != Learn ==> app.decks == old(app.decks)[deckId := deck])
      && (mode == Review ==>
            app.studyState == old(app.studyState).(
              settings := Some(settings),
              startTime := Some(now),
              stillLearning := deck.cards,
              correct := [],
              currentRound := 1,
              lastRoundIncorrect := []))
      && (mode == Spaced && due == [] ==> app.studyState == old(app.studyState))
      && (mode == Spaced && due != [] ==>
            && multiset(app.studyState.roundCards) == multiset(due)
            && app.studyState == old(app.studyState).(
                 roundCards := app.studyState.roundCards,
                 currentCardIndex := 0,
                 settings := Some(settings),
                 startTime := Some(now)))
      && (mode == TestMode ==> app.studyState == old(app.studyState))
  {
    app.currentDeckId := Some(deckId);
    app.currentMode := Some(mode);
    if deckId !in app.decks {
      return;
    }
    var deck := app.decks[deckId];
    var settings := ApplyDefaults(deck.settings);
    app.decks := app.decks[deckId := deck.(settings := ToPatch(settings))];
    if mode == Learn {
      StartLearnMode(app, deckId, settings, now);
    } else if mode == Review {
      StartReviewMode(app, deckId, settings, now);
    } else if mode == Spaced {
      var _ := StartSpacedLearning(app, deckId, settings, now, draws);
    }
  }

  // ---------------------------------------------------------------------
  // Moving a card after an answer

  /** `moveCardInLearnMode`, followed by the save. */
  method MoveCardInLearnMode(app: AppState, card: Card, correct: bool)
    requires app.studyState.settings.Some?
    requires 1 <= app.studyState.settings.value.maxBuckets <= |app.studyState.buckets|
    modifies app`studyState, app`decks
    ensures var found := FirstBucket(old(app.studyState.buckets), card.id) >= 0;
      && app.studyState == old(app.studyState).(buckets := LearnMove(old(app.studyState.buckets), card, correct,
                                                                     old(app.studyState.settings.value.maxBuckets)))
      && app.decks == (if found then SaveProgress(old(app.decks), app.currentDeckId, app.currentMode, app.studyState)
                       else old(app.decks))
  {
    var buckets := app.studyState.buckets;
    var maxBuckets := app.studyState.settings.value.maxBuckets;
    var currentBucketIndex := FindBucket(buckets, card.id);
    if currentBucketIndex == -1 {
      return;
    }
    buckets := buckets[currentBucketIndex := RemoveId(buckets[currentBucketIndex], card.id)];
    var newBucketIndex;
    if correct {
      newBucketIndex := MinInt(currentBucketIndex + 1, maxBuckets - 1);
    } else {
      newBucketIndex := MaxInt(currentBucketIndex - 1, 0);
    }
    buckets := buckets[newBucketIndex := buckets[newBucketIndex] + [card]];
    app.studyState := app.studyState.(buckets := buckets);
    SaveStudyProgress(app);
  }

  /** `moveCardInReviewMode`, followed by the save. */
  method MoveCardInReviewMode(app: AppState, card: Card, correct: bool)
    modifies app`studyState, app`decks
    ensures var found := HasId(old(app.studyState.stillLearning), card.id);
      && app.studyState == ReviewMove(old(app.studyState), card, correct)
      && app.decks == (if found then SaveProgress(old(app.decks), app.currentDeckId, app.currentMode, app.studyState)
                       else old(app.decks))
  {
    var index := FindIndex(app.studyState.stillLearning, card.id);
    if index == -1 {
      return;
    }
    if correct {
      var sl := app.studyState.stillLearning;
      app.studyState := app.studyState.(stillLearning := sl[..index] + sl[index + 1..],
                                        correct := app.studyState.correct + [card]);
    } else {
      app.studyState := app.studyState.(lastRoundIncorrect := app.studyState.lastRoundIncorrect + [card]);
    }
    SaveStudyProgress(app);
  }

  /** The deck's cards after an SM-2 review of the card `id` with the given
      quality: that card (the first with the id) carries the next review
      data, every other card and the order are unchanged; without such a
      card nothing changes. */
  function WithNextReview(cards: seq<Card>, id: CardId, quality: int, now: int): (r: seq<Card>)
    ensures |r| == |cards|
    ensures forall k | 0 <= k < |cards| && k != FindIndex(cards, id) :: r[k] == cards[k]
    ensures FindIndex(cards, id) >= 0 ==>
      var k := FindIndex(cards, id);
      r[k] == cards[k].(sm2 := Some(Sm2.NextReview(Sm2.StartData(cards[k], now), quality, now)))
    ensures !HasId(cards, id) ==> r == cards
  {
    var k := FindIndex(cards, id);
    if k == -1 then cards
    else cards[k := cards[k].(sm2 := Some(Sm2.NextReview(Sm2.StartData(cards[k], now), quality, now)))]
  }

  /** `moveCardInSpacedMode`: the deck's copy of the card gets its next SM-2
      data; then the save (which writes no session state in this mode). */
  method MoveCardInSpacedMode(app: AppState, card: Card, quality: int, now: int)
    requires app.currentDeckId.Some? && app.currentDeckId.value in app.decks
    modifies app`decks
    ensures var deck := old(app.decks)[app.currentDeckId.value];
      app.decks == if !HasId(deck.cards, card.id) then old(app.decks)
        else SaveProgress(old(app.decks)[app.currentDeckId.value :=
               deck.(cards := WithNextReview(deck.cards, card.id, quality, now))],
               app.currentDeckId, app.currentMode, app.studyState)
  {
    var deckId := app.currentDeckId.value;
    var deck := app.decks[deckId];
    var k := FindIndex(deck.cards, card.id);
    if k == -1 {
      return;
    }
    var data := Sm2.CalculateNextReview(deck.cards[k], quality, now);
    deck := deck.(cards := deck.cards[k := deck.cards[k].(sm2 := Some(data))]);
    app.decks := app.decks[deckId := deck];
    SaveStudyProgress(app);
  }

  /** The source passes the answer's correctness where SM-2 expects a
      quality: `true` compares and subtracts as 1, `false` as 0. */
  function QualityAsWritten(correct: bool): int
  {
    if correct then 1 else 0
  }

  /** As written, a correct spaced-mode answer counts as a failed review:
      the repetition count drops to 0, the interval to 1 day, and the
      factor falls by 0.54 (down to the floor). */
  lemma CorrectSpacedAnswerResets(d: Sm2Data, now: int)
    ensures var r := Sm2.NextReview(d, QualityAsWritten(true), now);
      r.repetition == 0 && r.interval == 1 && r.factor == MaxReal(Sm2.MinFactor, d.factor - 0.54)
  {
    assert Sm2.FactorDelta(1) == -0.54;
  }

  /** With a pass quality, as a correct answer evidently intends, the
      reviewed card's repetition count goes up by one and its interval
      never shrinks: the schedule moves forward. */
  lemma SpacedPassAdvances(cards: seq<Card>, id: CardId, quality: int, now: int)
    requires quality >= 3
    requires FindIndex(cards, id) >= 0 && Sm2.Reachable(Sm2.StartData(cards[FindIndex(cards, id)], now))
    ensures var k := FindIndex(cards, id);
      var before := Sm2.StartData(cards[k], now);
      var after := WithNextReview(cards, id, quality, now)[k].sm2.value;
      after.repetition == before.repetition + 1 && after.interval >= before.interval && after.interval >= 1
  {
    var k := FindIndex(cards, id);
    Sm2.PassLengthensInterval(Sm2.StartData(cards[k], now), quality, now);
  }

  /** `moveCard`: mark the deck's copy of the card as seen, then move it in
      the current mode. Spaced mode takes the answer's quality. */
  method MoveCard(app: AppState, card: Card, correct: bool, quality: int, now: int)
    requires app.currentDeckId.Some? && app.currentDeckId.value in app.decks
    requires app.currentMode == Some(Learn) ==>
      app.studyState.settings.Some? && 1 <= app.studyState.settings.value.maxBuckets <= |app.studyState.buckets|
    modifies app`studyState, app`decks
    ensures app.currentDeckId.value in app.decks
    ensures var seen := MarkSeen(old(app.decks)[app.currentDeckId.value].cards, card.id);
      app.decks[app.currentDeckId.value].cards ==
        (if app.currentMode == Some(Spaced) then WithNextReview(seen, card.id, quality, now) else seen)
    ensures app.currentMode == Some(Learn) ==>
      app.studyState.buckets == LearnMove(old(app.studyState.buckets), card, correct,
                                          old(app.studyState.settings.value.maxBuckets))
    ensures app.currentMode == Some(Review) ==> app.studyState == ReviewMove(old(app.studyState), card, correct)
    ensures app.currentMode != Some(Learn) && app.currentMode != Some(Review) ==> app.studyState == old(app.studyState)
    ensures var id := app.currentDeckId.value;
      var deck := old(app.decks)[id].(cards := MarkSeen(old(app.decks)[id].cards, card.id));
      var seen := old(app.decks)[id := deck];
      && (app.currentMode == Some(Learn) ==>
            && app.studyState == old(app.studyState).(buckets := LearnMove(old(app.studyState.buckets), card, correct,
                                                                           old(app.studyState.settings.value.maxBuckets)))
            && app.decks == (if FirstBucket(old(app.studyState.buckets), card.id) >= 0
                             then SaveProgress(seen, app.currentDeckId, app.currentMode, app.studyState) else seen))
      && (app.currentMode == Some(Review) ==>
            app.decks == (if HasId(old(app.studyState.stillLearning), card.id)
                          then SaveProgress(seen, app.currentDeckId, app.currentMode, app.studyState) else seen))
      && (app.currentMode == Some(Spaced) ==>
            app.decks == (if !HasId(deck.cards, card.id) then seen
                          else SaveProgress(seen[id := deck.(cards := WithNextReview(deck.cards, card.id, quality, now))],
                                            app.currentDeckId, app.currentMode, app.studyState)))
      && (app.currentMode.None? || app.currentMode == Some(TestMode) ==> app.decks == seen)
  {
    var deckId := app.currentDeckId.value;
    var deck := app.decks[deckId];
    app.decks := app.decks[deckId := deck.(cards := MarkSeen(deck.cards, card.id))];
    if app.currentMode == Some(Learn) {
      MoveCardInLearnMode(app, card, correct);
    } else if app.currentMode == Some(Review) {
      MoveCardInReviewMode(app, card, correct);
    } else if app.currentMode == Some(Spaced) {
      MoveCardInSpacedMode(app, card, quality, now);
    }
  }
}
