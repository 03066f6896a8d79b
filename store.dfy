/**
 * The database tables the core reads and writes: generation sessions and
 * flashcards, each keyed by an auto-incremented primary key.
 */
module Store {
  import opened Wrappers
  import opened Models

  class Database {
    var sessions: map<nat, Session>
    var cards: map<nat, Flashcard>
    var nextSessionId: nat
    var nextCardId: nat

    /** Every stored key is below the next key to hand out. */
    ghost predicate Valid()
      reads this
    {
      && (forall id :: id in sessions ==> id < nextSessionId)
      && (forall id :: id in cards ==> id < nextCardId)
    }

    constructor ()
      ensures Valid()
      ensures sessions == map[] && cards == map[]
    {
      sessions, cards := map[], map[];
      nextSessionId, nextCardId := 1, 1;
    }

    /** `AIGenerationSession.objects.create(...)`: a row under a fresh key. */
    method CreateSession(s: Session) returns (id: nat)
      requires Valid()
      modifies this
      ensures Valid()
      ensures id !in old(sessions)
      ensures sessions == old(sessions)[id := s] && cards == old(cards)
      ensures nextCardId == old(nextCardId)
    {
      id := nextSessionId;
      sessions := sessions[id := s];
      nextSessionId := nextSessionId + 1;
    }

    /** `session.save(...)`: overwrite an existing row. */
    method SaveSession(id: nat, s: Session)
      requires Valid() && id in sessions
      modifies this
      ensures Valid()
      ensures sessions == old(sessions)[id := s] && cards == old(cards)
      ensures nextCardId == old(nextCardId)
    {
      sessions := sessions[id := s];
    }

    /** `Flashcard.objects.create(...)`: a row under a fresh key. */
    method CreateFlashcard(c: Flashcard) returns (id: nat)
      requires Valid()
      modifies this
      ensures Valid()
      ensures id !in old(cards) && old(nextCardId) <= id < nextCardId
      ensures cards == old(cards)[id := c] && sessions == old(sessions)
    {
      id := nextCardId;
      cards := cards[id := c];
      nextCardId := nextCardId + 1;
    }

    /** `flashcard.save(...)`: overwrite an existing row. */
    method SaveFlashcard(id: nat, c: Flashcard)
      requires Valid() && id in cards
      modifies this
      ensures Valid()
      ensures cards == old(cards)[id := c] && sessions == old(sessions)
      ensures nextCardId == old(nextCardId)
    {
      cards := cards[id := c];
    }

    /** `flashcard.delete()`. */
    method DeleteFlashcard(id: nat)
      requires Valid() && id in cards
      modifies this
      ensures Valid()
      ensures cards == old(cards) - {id} && sessions == old(sessions)
      ensures nextCardId == old(nextCardId)
    {
      cards := cards - {id};
    }

    /** Deleting a session: its flashcards stay and lose their link to it. */
    method DeleteSession(id: nat)
      requires Valid() && id in sessions
      modifies this
      ensures Valid()
      ensures sessions == old(sessions) - {id}
      ensures cards == DetachSession(old(cards), id)
    {
      sessions := sessions - {id};
      cards := DetachSession(cards, id);
    }
  }
}
