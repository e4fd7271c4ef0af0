/** The SM-2 spaced-repetition scheduler (`SM2Algorithm` in the study
    module): a per-card state machine over interval, easiness factor and
    repetition count. Days are integer day numbers. */
module Sm2 {
  import opened Common
  import opened Records

  const DefaultFactor: real := 2.5
  const MinFactor: real := 1.3

  /** The data a card without SM-2 data starts from. */
  function InitialData(now: int): Sm2Data
  {
    Sm2Data(interval := 0, factor := DefaultFactor, repetition := 0, dueDate := now)
  }

  /** The data `calculateNextReview(card)` works on: the card's own, or the
      initial data it first attaches to a card that has none. */
  function StartData(card: Card, now: int): Sm2Data
  {
    match card.sm2
    case Some(d) => d
    case None => InitialData(now)
  }

  /** The easiness change for a quality `q`. */
  function FactorDelta(q: int): real
  {
    0.1 - (5 - q) as real * (0.08 + (5 - q) as real * 0.02)
  }

  /** One review, as a function of the data before it. */
  function NextReview(d: Sm2Data, quality: int, now: int): (r: Sm2Data)
    ensures r.factor >= MinFactor
    ensures r.dueDate == now + r.interval
  {
    var interval :=
      if quality >= 3 then
        (if d.repetition == 0 then 1
         else if d.repetition == 1 then 6
         else Round(d.interval as real * d.factor))
      else 1;
    var repetition := if quality >= 3 then d.repetition + 1 else 0;
    var factor := d.factor + FactorDelta(quality);
    Sm2Data(interval, if factor < MinFactor then MinFactor else factor, repetition, now + interval)
  }

  /** `calculateNextReview(card)(quality)`: updates interval, repetition and
      factor one after another, then the due date. */
  method CalculateNextReview(card: Card, quality: int, now: int) returns (data: Sm2Data)
    ensures data == NextReview(StartData(card, now), quality, now)
  {
    var start := StartData(card, now);
    var interval, factor, repetition := start.interval, start.factor, start.repetition;
    if quality >= 3 {
      if repetition == 0 {
        interval := 1;
      } else if repetition == 1 {
        interval := 6;
      } else {
        interval := Round(interval as real * factor);
      }
      repetition := repetition + 1;
    } else {
      repetition := 0;
      interval := 1;
    }
    factor := factor + (0.1 - (5 - quality) as real * (0.08 + (5 - quality) as real * 0.02));
    if factor < 1.3 {
      factor := 1.3;
    }
    data := Sm2Data(interval, factor, repetition, now + interval);
  }

  /** The states SM-2 can reach from the initial data: the factor is at
      least 1.3, a card that has never passed (or just failed) has interval
      0 or 1, one pass gives interval 1, two or more give at least 6. */
  predicate Reachable(d: Sm2Data)
  {
    && d.factor >= MinFactor
    && d.repetition >= 0
    && (d.repetition == 0 ==> 0 <= d.interval <= 1)
    && (d.repetition == 1 ==> d.interval == 1)
    && (d.repetition >= 2 ==> d.interval >= 6)
  }

  lemma RoundGrows(interval: int, factor: real)
    requires interval >= 6 && factor >= MinFactor
    ensures Round(interval as real * factor) > interval
  {
    assert (factor - MinFactor) * interval as real >= 0.0;
    assert interval as real * factor >= interval as real * MinFactor;
  }

  /** Every review keeps the data reachable; in particular a card with two
      or more passes in a row has an interval of at least six days. */
  lemma NextReviewReachable(d: Sm2Data, quality: int, now: int)
    requires Reachable(d)
    ensures Reachable(NextReview(d, quality, now))
  {
    if quality >= 3 && d.repetition >= 2 {
      RoundGrows(d.interval, d.factor);
    }
  }

  lemma InitialReachable(now: int)
    ensures Reachable(InitialData(now))
  {
  }

  /** A pass never shortens the interval, and after the first pass it
      strictly lengthens it. */
  lemma PassLengthensInterval(d: Sm2Data, quality: int, now: int)
    requires Reachable(d) && quality >= 3
    ensures NextReview(d, quality, now).interval >= d.interval
    ensures d.repetition >= 1 ==> NextReview(d, quality, now).interval > d.interval
  {
    if d.repetition >= 2 {
      RoundGrows(d.interval, d.factor);
    }
  }

  /** After any review of a reachable card the next due date lies at least
      one day ahead, so the card is not due again on the same day. */
  lemma ReviewedCardNotDueToday(d: Sm2Data, quality: int, now: int)
    requires Reachable(d)
    ensures NextReview(d, quality, now).dueDate >= now + 1
  {
    if quality >= 3 && d.repetition >= 2 {
      RoundGrows(d.interval, d.factor);
    }
  }

  /** How the factor moves for a card whose factor is at least the floor:
      quality 5 adds 0.1, quality 4 leaves it, quality 3 or below never
      raises it, and a failing review lowers it down to the floor. */
  lemma FactorChange(d: Sm2Data, quality: int, now: int)
    requires d.factor >= MinFactor
    ensures quality == 5 ==> NextReview(d, quality, now).factor == d.factor + 0.1
    ensures quality == 4 ==> NextReview(d, quality, now).factor == d.factor
    ensures quality <= 4 ==> NextReview(d, quality, now).factor <= d.factor
    ensures quality < 3 ==> NextReview(d, quality, now).factor == MaxReal(MinFactor, d.factor + FactorDelta(quality))
  {
    if quality <= 4 {
      var k := (5 - quality) as real;
      assert k >= 1.0;
      assert k * (0.08 + k * 0.02) >= 0.1 by {
        assert k * k >= 1.0 by { assert k * k >= k * 1.0; }
      }
    }
  }

  /** A card with no data, reviewed with quality 4, 4 and then 2: intervals
      1, 6 and 1, repetitions 1, 2 and 0, and the fail lowers the factor
      from 2.5 to 2.18. */
  lemma ReviewSequenceExample(card: Card, now: int)
    requires card.sm2.None?
    ensures var d1 := NextReview(StartData(card, now), 4, now);
      var d2 := NextReview(d1, 4, now + 1);
      var d3 := NextReview(d2, 2, now + 7);
      && d1.interval == 1 && d1.repetition == 1
      && d2.interval == 6 && d2.repetition == 2
      && d3.interval == 1 && d3.repetition == 0 && d3.factor == 2.18
  {
  }
}
