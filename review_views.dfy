/**
 * The review step of a generation session: the review page listing the
 * session's pending cards, and the accept and reject endpoints that move one
 * pending card to ACCEPTED or REJECTED (flashcards/core/views/generate_review.py,
 * generate_accept.py, generate_reject.py).
 */
module ReviewViews {
  import opened Wrappers
  import opened Models
  import Text
  import Store

  const SessionNotFoundMessage: string := "Generation session not found"
  const ForbiddenMessage: string := "You don't have permission to access this generation session."
  const MissingIdMessage: string := "Missing flashcard_id"
  const CardNotFoundMessage: string := "Flashcard not found or already reviewed"
  const FrontRequiredMessage: string := "Front text is required"
  const FrontTooLongMessage: string := "Front text too long (max 200 characters)"
  const BackRequiredMessage: string := "Back text is required"
  const BackTooLongMessage: string := "Back text too long (max 500 characters)"

  /** What an endpoint answers. `ServerError` is an uncaught exception. */
  datatype ViewResponse =
    | Ok
    | NotFound(message: string)
    | Forbidden(message: string)
    | BadRequest(message: string)
    | ServerError

  /** The posted `flashcard_id`: absent or empty, present but not an integer
      (the ORM lookup then raises), or an integer. */
  datatype IdParam = NoId | NotAnInteger | IdValue(id: int)

  /** The card the lookup by id, session, owner and PENDING state finds. */
  predicate IsPendingIn(cards: map<nat, Flashcard>, id: int, sessionId: nat, user: UserId) {
    && id >= 0 && id as nat in cards
    && cards[id as nat].aiSession == Some(sessionId)
    && cards[id as nat].owner == user
    && cards[id as nat].reviewState == Pending
  }

  /** The session exists and belongs to the user. */
  predicate OwnsSession(sessions: map<nat, Session>, sessionId: nat, user: UserId) {
    sessionId in sessions && sessions[sessionId].owner == user
  }

  /** Outcome of an endpoint's checks: an error response, or the card to store. */
  datatype Decision = Refuse(response: ViewResponse) | Update(id: nat, card: Flashcard)

  // ---------------------------------------------------------------------------
  // Accept

  /** `_validate_text_fields`: the first failing check, in order: empty front,
      long front, empty back, long back. */
  function ValidateTextFields(front: string, back: string): (r: Option<string>)
    ensures r.None? <==> FrontInBounds(front) && BackInBounds(back)
    ensures r == Some(FrontRequiredMessage) <==> front == ""
    ensures r == Some(FrontTooLongMessage) <==> |front| > MaxFrontLength
    ensures r == Some(BackRequiredMessage) <==> FrontInBounds(front) && back == ""
    ensures r == Some(BackTooLongMessage) <==> FrontInBounds(front) && |back| > MaxBackLength
  {
    if front == "" then Some(FrontRequiredMessage)
    else if |front| > MaxFrontLength then Some(FrontTooLongMessage)
    else if back == "" then Some(BackRequiredMessage)
    else if |back| > MaxBackLength then Some(BackTooLongMessage)
    else None
  }

  /** The accepted card: the submitted (trimmed) texts, provenance `ai_edited`
      exactly when a text differs from the trimmed stored one, state ACCEPTED;
      owner and session link kept. */
  function AcceptedCard(card: Flashcard, front: string, back: string): (c: Flashcard)
    ensures c.front == front && c.back == back && c.reviewState == Accepted
    ensures c.creationMethod == AiEdited <==> front != Text.Strip(card.front) || back != Text.Strip(card.back)
    ensures c.creationMethod == AiFull <==> front == Text.Strip(card.front) && back == Text.Strip(card.back)
    ensures c.owner == card.owner && c.aiSession == card.aiSession
  {
    var edited := front != Text.Strip(card.front) || back != Text.Strip(card.back);
    card.(front := front, back := back,
          creationMethod := if edited then AiEdited else AiFull,
          reviewState := Accepted)
  }

  /** `AcceptFlashcardView.post` as a decision: session lookup (404), ownership
      (403), missing id (400), unparsable id (500), pending-card lookup (404),
      text checks (400), else the accepted card. */
  function DecideAccept(sessions: map<nat, Session>, cards: map<nat, Flashcard>, user: UserId,
                        sessionId: nat, flashcardId: IdParam,
                        frontParam: Option<string>, backParam: Option<string>): (d: Decision)
    ensures d == Refuse(NotFound(SessionNotFoundMessage)) <==> sessionId !in sessions
    ensures d == Refuse(Forbidden(ForbiddenMessage)) <==> sessionId in sessions && sessions[sessionId].owner != user
    ensures d == Refuse(BadRequest(MissingIdMessage)) <==> OwnsSession(sessions, sessionId, user) && flashcardId.NoId?
    ensures d == Refuse(ServerError) <==> OwnsSession(sessions, sessionId, user) && flashcardId.NotAnInteger?
    ensures d == Refuse(NotFound(CardNotFoundMessage)) <==>
              OwnsSession(sessions, sessionId, user) && flashcardId.IdValue?
              && !IsPendingIn(cards, flashcardId.id, sessionId, user)
    ensures OwnsSession(sessions, sessionId, user) && flashcardId.IdValue? && IsPendingIn(cards, flashcardId.id, sessionId, user) ==>
              var front := Text.Strip(frontParam.GetOr(""));
              var back := Text.Strip(backParam.GetOr(""));
              && (d.Refuse? <==> ValidateTextFields(front, back).Some?)
              && (d.Refuse? ==> d.response == BadRequest(ValidateTextFields(front, back).value))
    ensures d.Update? ==>
              && OwnsSession(sessions, sessionId, user)
              && flashcardId == IdValue(d.id) && IsPendingIn(cards, d.id, sessionId, user)
              && d.card == AcceptedCard(cards[d.id], Text.Strip(frontParam.GetOr("")), Text.Strip(backParam.GetOr("")))
              && FieldsInBounds(d.card) && Text.IsStripped(d.card.front) && Text.IsStripped(d.card.back)
  {
    var front := Text.Strip(frontParam.GetOr(""));
    var back := Text.Strip(backParam.GetOr(""));
    Text.StripIsTrimmedSlice(frontParam.GetOr(""));
    Text.StripIsTrimmedSlice(backParam.GetOr(""));
    if sessionId !in sessions then Refuse(NotFound(SessionNotFoundMessage))
    else if sessions[sessionId].owner != user then Refuse(Forbidden(ForbiddenMessage))
    else match flashcardId
      case NoId => Refuse(BadRequest(MissingIdMessage))
      case NotAnInteger => Refuse(ServerError)
      case IdValue(id) =>
        if !IsPendingIn(cards, id, sessionId, user) then Refuse(NotFound(CardNotFoundMessage))
        else match ValidateTextFields(front, back)
          case Some(message) => Refuse(BadRequest(message))
          case None => Update(id as nat, AcceptedCard(cards[id as nat], front, back))
  }

  /** `AcceptFlashcardView.post`: on success exactly one card row changes. */
  method Accept(db: Store.Database, user: UserId, sessionId: nat, flashcardId: IdParam,
                frontParam: Option<string>, backParam: Option<string>)
    returns (response: ViewResponse)
    requires db.Valid()
    modifies db
    ensures db.Valid() && db.sessions == old(db.sessions)
    ensures match DecideAccept(old(db.sessions), old(db.cards), user, sessionId, flashcardId, frontParam, backParam)
            case Refuse(r) => response == r && db.cards == old(db.cards)
            case Update(id, card) => response == Ok && db.cards == old(db.cards)[id := card]
  {
    if sessionId !in db.sessions {
      return NotFound(SessionNotFoundMessage);
    }
    var session := db.sessions[sessionId];
    if session.owner != user {
      return Forbidden(ForbiddenMessage);
    }
    var front := Text.Strip(frontParam.GetOr(""));
    var back := Text.Strip(backParam.GetOr(""));
    if flashcardId.NoId? {
      return BadRequest(MissingIdMessage);
    }
    if flashcardId.NotAnInteger? {
      return ServerError;
    }
    var id := flashcardId.id;
    if !IsPendingIn(db.cards, id, sessionId, user) {
      return NotFound(CardNotFoundMessage);
    }
    var textError := ValidateTextFields(front, back);
    if textError.Some? {
      return BadRequest(textError.value);
    }
    var card := db.cards[id as nat];
    db.SaveFlashcard(id as nat, AcceptedCard(card, front, back));
    response := Ok;
  }

  // ---------------------------------------------------------------------------
  // Reject

  /** `RejectFlashcardView.post` as a decision: the same lookups as accept
      without the text checks; the card only changes state. */
  function DecideReject(sessions: map<nat, Session>, cards: map<nat, Flashcard>, user: UserId,
                        sessionId: nat, flashcardId: IdParam): (d: Decision)
    ensures d == Refuse(NotFound(SessionNotFoundMessage)) <==> sessionId !in sessions
    ensures d == Refuse(Forbidden(ForbiddenMessage)) <==> sessionId in sessions && sessions[sessionId].owner != user
    ensures d == Refuse(BadRequest(MissingIdMessage)) <==> OwnsSession(sessions, sessionId, user) && flashcardId.NoId?
    ensures d == Refuse(ServerError) <==> OwnsSession(sessions, sessionId, user) && flashcardId.NotAnInteger?
    ensures d == Refuse(NotFound(CardNotFoundMessage)) <==>
              OwnsSession(sessions, sessionId, user) && flashcardId.IdValue?
              && !IsPendingIn(cards, flashcardId.id, sessionId, user)
    ensures d.Update? <==> OwnsSession(sessions, sessionId, user) && flashcardId.IdValue?
                           && IsPendingIn(cards, flashcardId.id, sessionId, user)
    ensures d.Update? ==> flashcardId == IdValue(d.id) && d.card == cards[d.id].(reviewState := Rejected)
  {
    if sessionId !in sessions then Refuse(NotFound(SessionNotFoundMessage))
    else if sessions[sessionId].owner != user then Refuse(Forbidden(ForbiddenMessage))
    else match flashcardId
      case NoId => Refuse(BadRequest(MissingIdMessage))
      case NotAnInteger => Refuse(ServerError)
      case IdValue(id) =>
        if !IsPendingIn(cards, id, sessionId, user) then Refuse(NotFound(CardNotFoundMessage))
        else Update(id as nat, cards[id as nat].(reviewState := Rejected))
  }

  /** `RejectFlashcardView.post`: no row is created or deleted, at most one
      card's state changes. */
  method Reject(db: Store.Database, user: UserId, sessionId: nat, flashcardId: IdParam)
    returns (response: ViewResponse)
    requires db.Valid()
    modifies db
    ensures db.Valid() && db.sessions == old(db.sessions)
    ensures db.cards.Keys == old(db.cards).Keys
    ensures match DecideReject(old(db.sessions), old(db.cards), user, sessionId, flashcardId)
            case Refuse(r) => response == r && db.cards == old(db.cards)
            case Update(id, card) => response == Ok && db.cards == old(db.cards)[id := card]
  {
    if sessionId !in db.sessions {
      return NotFound(SessionNotFoundMessage);
    }
    if db.sessions[sessionId].owner != user {
      return Forbidden(ForbiddenMessage);
    }
    if flashcardId.NoId? {
      return BadRequest(MissingIdMessage);
    }
    if flashcardId.NotAnInteger? {
      return ServerError;
    }
    var id := flashcardId.id;
    if !IsPendingIn(db.cards, id, sessionId, user) {
      return NotFound(CardNotFoundMessage);
    }
    var card := db.cards[id as nat];
    db.SaveFlashcard(id as nat, card.(reviewState := Rejected));
    response := Ok;
  }

  /** A reviewed card is no longer pending: once a card has been accepted or
      rejected, neither endpoint finds it again. */
  lemma ReviewIsFinal(sessions: map<nat, Session>, cards: map<nat, Flashcard>, user: UserId, sessionId: nat,
                      flashcardId: IdParam, newCard: Flashcard,
                      frontParam: Option<string>, backParam: Option<string>)
    requires OwnsSession(sessions, sessionId, user) && flashcardId.IdValue? && flashcardId.id >= 0
    requires newCard.reviewState != Pending
    ensures var after := cards[flashcardId.id as nat := newCard];
            && DecideAccept(sessions, after, user, sessionId, flashcardId, frontParam, backParam)
               == Refuse(NotFound(CardNotFoundMessage))
            && DecideReject(sessions, after, user, sessionId, flashcardId) == Refuse(NotFound(CardNotFoundMessage))
  {
  }

  /** Accepting and then accepting the same card again fails with 404. */
  lemma SecondAcceptFails(sessions: map<nat, Session>, cards: map<nat, Flashcard>, user: UserId, sessionId: nat,
                          flashcardId: IdParam, frontParam: Option<string>, backParam: Option<string>)
    requires DecideAccept(sessions, cards, user, sessionId, flashcardId, frontParam, backParam).Update?
    ensures var d := DecideAccept(sessions, cards, user, sessionId, flashcardId, frontParam, backParam);
            DecideAccept(sessions, cards[d.id := d.card], user, sessionId, flashcardId, frontParam, backParam)
              == Refuse(NotFound(CardNotFoundMessage))
  {
    var d := DecideAccept(sessions, cards, user, sessionId, flashcardId, frontParam, backParam);
    ReviewIsFinal(sessions, cards, user, sessionId, flashcardId, d.card, frontParam, backParam);
  }

  /** Rejecting the same card twice fails the second time. */
  lemma SecondRejectFails(sessions: map<nat, Session>, cards: map<nat, Flashcard>, user: UserId, sessionId: nat,
                          flashcardId: IdParam)
    requires DecideReject(sessions, cards, user, sessionId, flashcardId).Update?
    ensures var d := DecideReject(sessions, cards, user, sessionId, flashcardId);
            DecideReject(sessions, cards[d.id := d.card], user, sessionId, flashcardId)
              == Refuse(NotFound(CardNotFoundMessage))
  {
    var d := DecideReject(sessions, cards, user, sessionId, flashcardId);
    ReviewIsFinal(sessions, cards, user, sessionId, flashcardId, d.card, None, None);
  }

  // ---------------------------------------------------------------------------
  // Review page

  /** The ids of the session's PENDING cards among ids below `limit`, in
      ascending order (the card's owner is not part of the filter). */
  function PendingInSession(cards: map<nat, Flashcard>, sessionId: nat, limit: nat): (ids: seq<nat>)
    ensures forall k :: 0 <= k < |ids| ==>
              && ids[k] < limit && ids[k] in cards
              && cards[ids[k]].aiSession == Some(sessionId) && cards[ids[k]].reviewState == Pending
    ensures forall k, l :: 0 <= k < l < |ids| ==> ids[k] < ids[l]
    ensures forall id :: (id in cards && id < limit && cards[id].aiSession == Some(sessionId)
                          && cards[id].reviewState == Pending) ==> id in ids
  {
    if limit == 0 then []
    else
      var id := limit - 1;
      PendingInSession(cards, sessionId, id) + (if IsPendingCard(cards, sessionId, id) then [id] else [])
  }

  /** The card under `id` belongs to the session and awaits review. */
  predicate IsPendingCard(cards: map<nat, Flashcard>, sessionId: nat, id: nat) {
    id in cards && cards[id].aiSession == Some(sessionId) && cards[id].reviewState == Pending
  }

  /** Reviewing one pending card takes exactly that card off the review page. */
  lemma {:induction false} ReviewedCardLeavesPage(cards: map<nat, Flashcard>, sessionId: nat, limit: nat,
                                                  id: nat, newCard: Flashcard)
    requires id in cards && id < limit
    requires cards[id].aiSession == Some(sessionId) && cards[id].reviewState == Pending
    requires newCard.reviewState != Pending
    ensures |PendingInSession(cards[id := newCard], sessionId, limit)| == |PendingInSession(cards, sessionId, limit)| - 1
    ensures id !in PendingInSession(cards[id := newCard], sessionId, limit)
  {
    var after := cards[id := newCard];
    var top := limit - 1;
    if top == id {
      SameBelow(cards, id, newCard, sessionId, id);
      assert !IsPendingCard(after, sessionId, top) && IsPendingCard(cards, sessionId, top);
      assert PendingInSession(after, sessionId, limit) == PendingInSession(cards, sessionId, top);
      assert PendingInSession(cards, sessionId, limit) == PendingInSession(cards, sessionId, top) + [top];
    } else {
      ReviewedCardLeavesPage(cards, sessionId, top, id, newCard);
      assert IsPendingCard(after, sessionId, top) == IsPendingCard(cards, sessionId, top);
    }
  }

  /** Changing a card at or above `limit` leaves the listing below `limit` alone. */
  lemma {:induction false} SameBelow(cards: map<nat, Flashcard>, id: nat, newCard: Flashcard, sessionId: nat, limit: nat)
    requires limit <= id
    ensures PendingInSession(cards[id := newCard], sessionId, limit) == PendingInSession(cards, sessionId, limit)
  {
    if limit > 0 {
      SameBelow(cards, id, newCard, sessionId, limit - 1);
    }
  }

  /** The review page's context: the session, its pending cards in id order,
      and their number. */
  datatype ReviewContext = ReviewContext(session: Session, flashcardIds: seq<nat>, flashcardCount: nat)

  /** What the review page renders. */
  datatype PageResponse = Page(context: ReviewContext) | PageNotFound | PageForbidden(message: string) | PageServerError

  /** The context for an owned session. */
  function ContextFor(sessions: map<nat, Session>, cards: map<nat, Flashcard>, limit: nat, sessionId: nat): (c: ReviewContext)
    requires sessionId in sessions
    requires forall id :: id in cards ==> id < limit
    ensures c.session == sessions[sessionId]
    ensures c.flashcardCount == |c.flashcardIds|
    ensures forall id :: id in c.flashcardIds <==>
              id in cards && cards[id].aiSession == Some(sessionId) && cards[id].reviewState == Pending
    ensures forall k, l :: 0 <= k < l < |c.flashcardIds| ==> c.flashcardIds[k] < c.flashcardIds[l]
  {
    var ids := PendingInSession(cards, sessionId, limit);
    ReviewContext(sessions[sessionId], ids, |ids|)
  }

  /** `GenerateFlashcardsReviewView` as evidently intended: 404 for an unknown
      session, a 403 response for someone else's, else the pending cards.
      `limit` bounds the card ids (the table's next key). */
  function ReviewPage(sessions: map<nat, Session>, cards: map<nat, Flashcard>, limit: nat,
                      user: UserId, sessionId: nat): (p: PageResponse)
    requires forall id :: id in cards ==> id < limit
    ensures p == PageNotFound <==> sessionId !in sessions
    ensures p == PageForbidden(ForbiddenMessage) <==> sessionId in sessions && sessions[sessionId].owner != user
    ensures p.Page? <==> OwnsSession(sessions, sessionId, user)
    ensures p.Page? ==> p.context == ContextFor(sessions, cards, limit, sessionId)
  {
    if sessionId !in sessions then PageNotFound
    else if sessions[sessionId].owner != user then PageForbidden(ForbiddenMessage)
    else Page(ContextFor(sessions, cards, limit, sessionId))
  }

  /** The same view as written: `get_object` hands the forbidden response back
      as if it were the session, `DetailView.get` goes on to build the context,
      and the pending-card filter cannot use a response object as a session
      key, so the request ends in an uncaught exception instead of a 403. */
  function ReviewPageAsWritten(sessions: map<nat, Session>, cards: map<nat, Flashcard>, limit: nat,
                               user: UserId, sessionId: nat): (p: PageResponse)
    requires forall id :: id in cards ==> id < limit
    ensures !p.PageForbidden?
    ensures sessionId in sessions && sessions[sessionId].owner != user ==> p == PageServerError
    ensures OwnsSession(sessions, sessionId, user) || sessionId !in sessions ==>
              p == ReviewPage(sessions, cards, limit, user, sessionId)
  {
    if sessionId !in sessions then PageNotFound
    else if sessions[sessionId].owner != user then PageServerError
    else Page(ContextFor(sessions, cards, limit, sessionId))
  }

  /** The discrepancy: for a session owned by someone else the code as written
      never answers 403, while the intended view does. */
  lemma ForeignSessionIsNotForbiddenAsWritten(sessions: map<nat, Session>, cards: map<nat, Flashcard>,
                                              limit: nat, user: UserId, sessionId: nat)
    requires forall id :: id in cards ==> id < limit
    requires sessionId in sessions && sessions[sessionId].owner != user
    ensures ReviewPage(sessions, cards, limit, user, sessionId) == PageForbidden(ForbiddenMessage)
    ensures ReviewPageAsWritten(sessions, cards, limit, user, sessionId) == PageServerError
  {
  }
}
