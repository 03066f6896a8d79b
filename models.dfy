/**
 * The flashcard collection's records (flashcards/core/models.py): a user-owned
 * Flashcard and an AIGenerationSession, with their declared field bounds, the
 * owner filter of the custom manager and the `__str__` previews.
 *
 * The review views read and write a three-valued review state on each
 * flashcard that the model file does not declare; it is added here as
 * `reviewState`.
 */
module Models {
  import opened Wrappers
  import Text

  /** A user is known to the model only by its primary key. */
  type UserId = nat

  /** Declared bounds of the text fields. */
  const MaxFrontLength: nat := 200
  const MaxBackLength: nat := 500
  const MaxInputLength: nat := 10000
  const MaxErrorCodeLength: nat := 50

  /** `Flashcard.CREATION_METHOD_CHOICES`. */
  datatype CreationMethod = AiFull | AiEdited | Manual

  /** The stored code of each creation method. */
  function MethodCode(m: CreationMethod): string {
    match m
    case AiFull => "ai_full"
    case AiEdited => "ai_edited"
    case Manual => "manual"
  }

  /** Reads a stored code back; only the three declared choices are accepted. */
  function ParseMethod(s: string): (r: Option<CreationMethod>)
    ensures r.Some? ==> MethodCode(r.value) == s
  {
    if s == "ai_full" then Some(AiFull)
    else if s == "ai_edited" then Some(AiEdited)
    else if s == "manual" then Some(Manual)
    else None
  }

  /** Every creation method has a code that reads back as itself, so the
      stored value is always one of the three choices. */
  lemma MethodCodeRoundTrip(m: CreationMethod)
    ensures ParseMethod(MethodCode(m)) == Some(m)
    ensures MethodCode(m) in {"ai_full", "ai_edited", "manual"}
  {
  }

  /** Review state of an AI-proposed flashcard: PENDING -> ACCEPTED | REJECTED. */
  datatype ReviewState = Pending | Accepted | Rejected

  /** A stored flashcard. `aiSession` is the nullable link to its generation session. */
  datatype Flashcard = Flashcard(
    owner: UserId,
    front: string,
    back: string,
    creationMethod: CreationMethod,
    aiSession: Option<nat>,
    reviewState: ReviewState)

  /** The declared validators: front 1..200 characters, back 1..500 characters. */
  predicate FrontInBounds(front: string) { 1 <= |front| <= MaxFrontLength }
  predicate BackInBounds(back: string) { 1 <= |back| <= MaxBackLength }
  predicate FieldsInBounds(card: Flashcard) { FrontInBounds(card.front) && BackInBounds(card.back) }

  /** A stored generation session. `errorMessage` and `errorCode` are blank
      unless the attempt failed; `apiResponseTimeMs` is null unless it succeeded. */
  datatype Session = Session(
    owner: UserId,
    model: string,
    inputText: string,
    generatedCount: nat,
    errorMessage: string,
    errorCode: string,
    apiResponseTimeMs: Option<int>)

  /** The declared validators of a session: input at most 10,000 characters and
      an error code of at most 50 (the count is non-negative by its type). */
  predicate SessionInBounds(s: Session) {
    |s.inputText| <= MaxInputLength && |s.errorCode| <= MaxErrorCodeLength
  }

  /** `Flashcard.objects.for_user(user)`: the flashcards whose owner is `user`. */
  function ForUser(cards: map<nat, Flashcard>, user: UserId): (r: map<nat, Flashcard>)
    ensures forall id :: id in r <==> id in cards && cards[id].owner == user
    ensures forall id :: id in r ==> r[id] == cards[id]
  {
    map id | id in cards && cards[id].owner == user :: cards[id]
  }

  /** Two users' collections never share a flashcard, and filtering twice
      changes nothing. */
  lemma ForUserIsolated(cards: map<nat, Flashcard>, u: UserId, v: UserId)
    ensures u != v ==> ForUser(cards, u).Keys !! ForUser(cards, v).Keys
    ensures ForUser(ForUser(cards, u), u) == ForUser(cards, u)
  {
  }

  /** The `__str__` preview rule: texts longer than 50 characters become their
      first 47 characters followed by "...". */
  function Preview(s: string): (r: string)
    ensures |r| <= 50
    ensures |s| <= 50 ==> r == s
    ensures |s| > 50 ==> |r| == 50 && r[..47] == s[..47] && r[47..] == "..."
  {
    if |s| > 50 then s[..47] + "..." else s
  }

  /** A preview is already short, so previewing it again changes nothing. */
  lemma PreviewIdempotent(s: string)
    ensures Preview(Preview(s)) == Preview(s)
  {
  }

  /** `Flashcard.__str__`: the owner's e-mail, a colon and the front preview. */
  function FlashcardLabel(ownerEmail: string, card: Flashcard): (r: string)
    ensures |r| <= |ownerEmail| + 52
    ensures |card.front| <= 50 ==> r == ownerEmail + ": " + card.front
    ensures |card.front| > 50 ==> r == ownerEmail + ": " + card.front[..47] + "..."
  {
    ownerEmail + ": " + Preview(card.front)
  }

  /** `AIGenerationSession.__str__`: the owner's e-mail and the input preview. */
  function SessionLabel(ownerEmail: string, session: Session): (r: string)
    ensures |r| <= |ownerEmail| + 53
    ensures |session.inputText| <= 50 ==> r == ownerEmail + " - " + session.inputText
    ensures |session.inputText| > 50 ==> r == ownerEmail + " - " + session.inputText[..47] + "..."
  {
    ownerEmail + " - " + Preview(session.inputText)
  }

  /** The `on_delete=SET_NULL` rule of `Flashcard.ai_session`: deleting session
      `sessionId` clears the link of the flashcards that pointed to it and keeps
      every flashcard. */
  function DetachSession(cards: map<nat, Flashcard>, sessionId: nat): (r: map<nat, Flashcard>)
    ensures r.Keys == cards.Keys
    ensures forall id :: id in r ==> r[id].aiSession != Some(sessionId)
    ensures forall id :: id in r ==> r[id] == cards[id].(aiSession := r[id].aiSession)
    ensures forall id :: id in r && cards[id].aiSession != Some(sessionId) ==> r[id] == cards[id]
  {
    map id | id in cards ::
      if cards[id].aiSession == Some(sessionId) then cards[id].(aiSession := None) else cards[id]
  }
}
