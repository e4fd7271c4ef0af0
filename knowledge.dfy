/** The knowledge tracker: after each answer a card's mastery score moves
    toward 1 or toward 0 with the interaction quality score, and in spaced
    mode its stability grows or halves. The record lives in a keyed store;
    the in-memory session map mirrors the mastery. */
module Knowledge {
  import opened Common
  import opened Records
  import opened State

  /** A card's stored knowledge record. `lastReviewed` is a time stamp. */
  datatype KState = KState(masteryScore: real, stability: real, lastReviewed: int)

  /** The record a card without one starts from. */
  function DefaultState(now: int): (k: KState)
    ensures k.masteryScore == 0.0 && k.stability == 1.0 && k.lastReviewed == now
  {
    KState(0.0, 1.0, now)
  }

  /** The new mastery: `old + (1 - old) * (2 * iqs - 1)`, clamped to [0, 1]. */
  function MasteryUpdate(mastery: real, iqs: real): (m: real)
    ensures 0.0 <= m <= 1.0
  {
    Clamp(0.0, 1.0, mastery + (1.0 - mastery) * (iqs * 2.0 - 1.0))
  }

  /** For a mastery already in [0, 1]: an IQS of one half leaves it, an IQS
      of 1 masters the card, a better-than-half IQS never lowers it and a
      worse-than-half IQS never raises it. */
  lemma MasteryDirection(mastery: real, iqs: real)
    requires 0.0 <= mastery <= 1.0
    ensures iqs == 0.5 ==> MasteryUpdate(mastery, iqs) == mastery
    ensures iqs == 1.0 ==> MasteryUpdate(mastery, iqs) == 1.0
    ensures iqs > 0.5 ==> MasteryUpdate(mastery, iqs) >= mastery
    ensures iqs < 0.5 ==> MasteryUpdate(mastery, iqs) <= mastery
  {
    ProductSign(1.0 - mastery, iqs * 2.0 - 1.0);
  }

  lemma ProductSign(a: real, b: real)
    requires a >= 0.0
    ensures b >= 0.0 ==> a * b >= 0.0
    ensures b <= 0.0 ==> a * b <= 0.0
  {
    if b >= 0.0 {
      assert a * b >= 0.0 * b;
    } else {
      assert a * b <= 0.0 * b;
    }
  }

  /** The stability update: only in spaced mode, a better-than-half IQS
      multiplies it by `1 + 2 * iqs`, anything else halves it. */
  function StabilityUpdate(stability: real, iqs: real, mode: Option<Mode>): (r: real)
    ensures stability >= 0.0 && iqs >= 0.0 ==> r >= 0.0
    ensures mode != Some(Spaced) ==> r == stability
  {
    if mode == Some(Spaced) then
      (if iqs > 0.5 then stability * (1.0 + iqs * 2.0) else stability * 0.5)
    else stability
  }

  /** Outside spaced mode stability is untouched; in spaced mode a positive
      stability stays positive, a pass strictly raises it and anything else
      (one half included) halves it. */
  lemma StabilityDirection(stability: real, iqs: real, mode: Option<Mode>)
    requires stability > 0.0 && iqs >= 0.0
    ensures mode != Some(Spaced) ==> StabilityUpdate(stability, iqs, mode) == stability
    ensures mode == Some(Spaced) ==> StabilityUpdate(stability, iqs, mode) > 0.0
    ensures mode == Some(Spaced) && iqs > 0.5 ==> StabilityUpdate(stability, iqs, mode) > stability
    ensures mode == Some(Spaced) && iqs <= 0.5 ==> StabilityUpdate(stability, iqs, mode) == stability / 2.0
  {
    if mode == Some(Spaced) && iqs > 0.5 {
      assert stability * (1.0 + iqs * 2.0) == stability + stability * (iqs * 2.0);
      assert stability * (iqs * 2.0) > 0.0;
    }
  }

  /** One update of a record: mastery, then stability, then the time stamp. */
  function Updated(k: KState, iqs: real, mode: Option<Mode>, now: int): (r: KState)
    ensures 0.0 <= r.masteryScore <= 1.0 && r.lastReviewed == now
  {
    KState(MasteryUpdate(k.masteryScore, iqs), StabilityUpdate(k.stability, iqs, mode), now)
  }

  /** The store of knowledge records of the default user, keyed by card. */
  class KnowledgeStore {
    var records: map<CardId, KState>

    constructor ()
      ensures records == map[]
    {
      records := map[];
    }
  }

  /** `updateKnowledgeState`: read the card's record (or start a default one),
      update it, write it back and mirror the mastery in the session's map.
      Without a store, or when the read or the write fails, neither the
      stored record nor the session map changes. The mode is passed in, and
      the outcome of each storage request is a parameter. Only the entry of
      `cardId` changes, in the store and in the session map, and the new
      mastery lies in [0, 1] (see `Updated`). */
  method UpdateKnowledgeState(app: AppState, store: KnowledgeStore, cardId: CardId,
                              iqs: real, mode: Option<Mode>, now: int,
                              dbAvailable: bool, readOk: bool, writeOk: bool)
    modifies store, app`studyState
    ensures var ok := dbAvailable && readOk && writeOk;
      var start := if cardId in old(store.records) then old(store.records)[cardId] else DefaultState(now);
      && (!ok ==> store.records == old(store.records) && app.studyState == old(app.studyState))
      && (ok ==> store.records == old(store.records)[cardId := Updated(start, iqs, mode, now)]
                 && app.studyState == old(app.studyState).(knowledgeStates :=
                      old(app.studyState.knowledgeStates)[cardId := Updated(start, iqs, mode, now).masteryScore]))
  {
    if !dbAvailable || !readOk {
      return;
    }
    var state := if cardId in store.records then store.records[cardId] else DefaultState(now);
    var oldMastery := state.masteryScore;
    state := state.(masteryScore := oldMastery + (1.0 - oldMastery) * ((iqs * 2.0) - 1.0));
    state := state.(masteryScore := MaxReal(0.0, MinReal(1.0, state.masteryScore)));
    if mode == Some(Spaced) {
      if iqs > 0.5 {
        state := state.(stability := state.stability * (1.0 + (iqs * 2.0)));
      } else {
        state := state.(stability := state.stability * 0.5);
      }
    }
    state := state.(lastReviewed := now);
    if !writeOk {
      return;
    }
    assert state == Updated(if cardId in store.records then store.records[cardId] else DefaultState(now), iqs, mode, now);
    store.records := store.records[cardId := state];
    app.studyState := app.studyState.(knowledgeStates := app.studyState.knowledgeStates[cardId := state.masteryScore]);
  }
}
