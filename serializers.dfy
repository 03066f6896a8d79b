/**
 * The request and response serializers of the generation endpoint
 * (flashcards/api/serializers/generation.py). Every text field there is a
 * required, non-blank, whitespace-trimming character field with a length cap;
 * `CleanCharField` is that field's validation.
 */
module GenerationSerializers {
  import opened Wrappers
  import opened Models
  import Text
  import FlashcardGeneration

  /** Why a character field refuses its input, in the order the checks run. */
  datatype FieldError = Required | Blank | MaxLength(limit: nat)

  /** The messages declared for `input_text`. */
  function InputTextMessage(e: FieldError): string {
    match e
    case Required => "This field is required."
    case Blank => "This field may not be blank."
    case MaxLength(_) => "Ensure this field has no more than 10000 characters."
  }

  /** A required character field that refuses blank input, trims surrounding
      whitespace and caps the trimmed length. */
  function CleanCharField(raw: Option<string>, maxLength: nat): (r: Result<string, FieldError>)
    ensures r == Failure(Required) <==> raw.None?
    ensures r == Failure(Blank) <==> raw.Some? && Text.IsBlank(raw.value)
    ensures r == Failure(MaxLength(maxLength)) <==>
              raw.Some? && !Text.IsBlank(raw.value) && |Text.Strip(raw.value)| > maxLength
    ensures r.Success? <==> raw.Some? && !Text.IsBlank(raw.value) && |Text.Strip(raw.value)| <= maxLength
    ensures r.Success? ==> r.value == Text.Strip(raw.value) && Text.IsStripped(r.value)
                           && 1 <= |r.value| <= maxLength
  {
    match raw
    case None => Failure(Required)
    case Some(data) =>
      Text.StripEmptyIffBlank(data);
      Text.StripIsTrimmedSlice(data);
      if Text.IsBlank(data) then Failure(Blank)
      else
        var value := Text.Strip(data);
        if |value| > maxLength then Failure(MaxLength(maxLength)) else Success(value)
  }

  /** `GenerationRequestSerializer`: the cleaned `input_text`. The declared
      `min_length=1` never fires: a value that survives the blank check is
      non-empty once trimmed. */
  function ValidateGenerationRequest(inputText: Option<string>): (r: Result<string, FieldError>)
    ensures r.Success? <==> inputText.Some? && !Text.IsBlank(inputText.value)
                            && |Text.Strip(inputText.value)| <= MaxInputLength
    ensures r.Success? ==> r.value == Text.Strip(inputText.value) && 1 <= |r.value| <= MaxInputLength
    ensures r == Failure(MaxLength(MaxInputLength)) <==>
              inputText.Some? && |Text.Strip(inputText.value)| > MaxInputLength
  {
    CleanCharField(inputText, MaxInputLength)
  }

  /** Cleaning a request twice changes nothing: the cleaned text is a fixed
      point of the request's own rules. */
  lemma RequestCleaningIsIdempotent(inputText: Option<string>)
    requires ValidateGenerationRequest(inputText).Success?
    ensures ValidateGenerationRequest(Some(ValidateGenerationRequest(inputText).value))
            == ValidateGenerationRequest(inputText)
  {
    var v := ValidateGenerationRequest(inputText).value;
    Text.StrippedIsFixedPoint(v);
    Text.StripEmptyIffBlank(v);
  }

  /** `GeneratedFlashcardSerializer`: a proposal with front up to 200 and back
      up to 500 characters. */
  function ValidateGeneratedFlashcard(card: FlashcardGeneration.Card): (r: Result<FlashcardGeneration.Card, FieldError>)
    ensures r.Success? <==> CleanCharField(Some(card.front), MaxFrontLength).Success?
                            && CleanCharField(Some(card.back), MaxBackLength).Success?
    ensures r.Success? ==> FrontInBounds(r.value.front) && BackInBounds(r.value.back)
  {
    var front := CleanCharField(Some(card.front), MaxFrontLength);
    if front.Failure? then Failure(front.error)
    else
      var back := CleanCharField(Some(card.back), MaxBackLength);
      if back.Failure? then Failure(back.error)
      else Success(FlashcardGeneration.Card(front.value, back.value))
  }

  /** The body of a successful response. */
  datatype GenerationResponse = GenerationResponse(
    sessionId: int, generatedCount: int, generatedFlashcards: seq<FlashcardGeneration.Card>)

  /** Which proposal of the response failed, and why. */
  datatype ResponseError = ProposalError(index: nat, error: FieldError)

  /** A list field with `many=True`: every element is cleaned by `check`; the
      first refused element is reported with its position. */
  function CleanEach<A, B, E>(xs: seq<A>, check: A -> Result<B, E>): (r: Result<seq<B>, (nat, E)>)
    ensures r.Success? <==> forall i :: 0 <= i < |xs| ==> check(xs[i]).Success?
    ensures r.Success? ==> |r.value| == |xs| && forall i :: 0 <= i < |xs| ==> r.value[i] == check(xs[i]).value
    ensures r.Failure? ==> r.error.0 < |xs| && check(xs[r.error.0]) == Failure(r.error.1)
  {
    if xs == [] then Success([])
    else
      var tail := xs[1..];
      assert forall i :: 1 <= i < |xs| ==> tail[i - 1] == xs[i];
      match check(xs[0])
      case Failure(e) => Failure((0, e))
      case Success(head) =>
        match CleanEach(tail, check)
        case Failure(e) => Failure((e.0 + 1, e.1))
        case Success(rest) => Success([head] + rest)
  }

  /** `GenerationResponseSerializer`: the integer fields pass, each proposal is
      cleaned; the first refused proposal is reported. */
  function ValidateGenerationResponse(sessionId: int, generatedCount: int,
                                      cards: seq<FlashcardGeneration.Card>): (r: Result<GenerationResponse, ResponseError>)
    ensures r.Success? <==> forall i :: 0 <= i < |cards| ==> ValidateGeneratedFlashcard(cards[i]).Success?
    ensures r.Success? ==> r.value.sessionId == sessionId && r.value.generatedCount == generatedCount
                           && |r.value.generatedFlashcards| == |cards|
                           && forall i :: 0 <= i < |cards| ==>
                                r.value.generatedFlashcards[i] == ValidateGeneratedFlashcard(cards[i]).value
    ensures r.Failure? ==> r.error.index < |cards|
                           && ValidateGeneratedFlashcard(cards[r.error.index]) == Failure(r.error.error)
  {
    match CleanEach(cards, ValidateGeneratedFlashcard)
    case Failure(e) => Failure(ProposalError(e.0, e.1))
    case Success(proposals) => Success(GenerationResponse(sessionId, generatedCount, proposals))
  }

  /** The proposals a successful generation returns always pass the response
      serializer unchanged, so the response carries exactly the result's id,
      count and proposals. */
  lemma SuccessfulResultSerializesUnchanged(sessionId: nat, outcome: Result<seq<FlashcardGeneration.RawCard>, string>,
                                            latencyMs: nat)
    requires outcome.Success?
    ensures var result := FlashcardGeneration.ResultFor(sessionId, outcome, latencyMs);
            ValidateGenerationResponse(result.sessionId, result.generatedCount, result.flashcards)
              == Success(GenerationResponse(sessionId, result.generatedCount, result.flashcards))
  {
    var result := FlashcardGeneration.ResultFor(sessionId, outcome, latencyMs);
    ValidCardsPassUnchanged(result.sessionId, result.generatedCount, result.flashcards);
  }

  /** Cards that are trimmed and within bounds are returned as they are. */
  lemma ValidCardsPassUnchanged(sessionId: int, generatedCount: int, cards: seq<FlashcardGeneration.Card>)
    requires forall i :: 0 <= i < |cards| ==> FlashcardGeneration.ValidCard(cards[i])
    ensures ValidateGenerationResponse(sessionId, generatedCount, cards)
            == Success(GenerationResponse(sessionId, generatedCount, cards))
  {
    forall i | 0 <= i < |cards|
      ensures ValidateGeneratedFlashcard(cards[i]) == Success(cards[i])
    {
      var c := cards[i];
      Text.StrippedIsFixedPoint(c.front);
      Text.StrippedIsFixedPoint(c.back);
      Text.StripEmptyIffBlank(c.front);
      Text.StripEmptyIffBlank(c.back);
    }
    var r := ValidateGenerationResponse(sessionId, generatedCount, cards);
    assert r.value.generatedFlashcards == cards;
  }
}
